# forge pipeline and executor, modelled in Dafny

This project models two sequential cores of `forge`, a tool that builds, pushes and deploys
containerised services.

**The `Baker` pipeline of `forge/cli.py`.** The model covers:
- the fan-in helpers `safe`, `async_map`, `async_apply` and `force`;
- the configuration helpers `inject_token`, `get_repo` and `get_workdir`;
- the registry-existence cache behind `pushed` and `do_push`;
- the Docker Registry v2 bearer-token handshake of `dr`;
- the stage rules of `bake`, `push`, `yaml` and `build`;
- the bounded log tail of `render_tail`.

**The result tree of `forge/executor.py`.** The model covers:
- `Result` nodes, with their parent/children links, `value`, `exception`, `child_errors` and `_recovered`;
- pre-order `traversal`, `recover`, `is_leaf_error`, `leaf_errors` and `errors`;
- error promotion in `wait`, and `get`;
- `do_run` and `run` on the synchronous path;
- memoised color allocation, executor construction and the current-executor save/restore;
- the `info`/`warn`/`error` buffering rule;
- the context header of `_Muxer.write`;
- the `is_signal` noise filter.

Effects of the outside world are oracles, not code. The Baker is constructed with:
- a shell `(n, command) -> result or exception`;
- an HTTP oracle `(n, request) -> response or exception`;
- a challenge parser;
- a manifest renderer.

Each oracle is indexed by the position of the call in the Baker's own log (`commands`, `requests`). A method's contract can therefore say exactly which commands and requests were issued, in which order, and what came back.

The thread tasks of `eventlet` are read sequentially, in the order the code spawns them:
- A stage that consumes a generator runs the tasks for the values yielded so far.
- The exception a generator raises reaches the consumer only after the consumer has used every value yielded before it.

Modules:

| module | file | content |
|---|---|---|
| `Common` | common.dfy | Option/Result, truthiness, decimal rendering, string search and splitting |
| `Workstream` | workstream.dfy | values exchanged with the unmodelled `forge/workstream.py`: exceptions, arguments with secrets, commands, requests, responses, work items |
| `FanIn` | fanin.dfy | `safe`, `async_map`, `async_apply` |
| `Config` | config.dfy | `inject_token`, `get_repo`, `get_workdir`, posix path helpers |
| `Registry` | registry.dfy | the `dr` handshake and the manifest classification of `pushed` |
| `Tail` | tail.dfy | the specification of `render_tail` and the spinner |
| `Ownership` | ownership.dfy | the owner map, conflict list and outcome of `yaml` |
| `Stages` | stages.dfy | commands and outcomes of the stages of `bake`, `push` and `yaml` |
| `Baking` | baker.dfy | `class Baker` with its cache, item list and command/request logs |
| `Results` | results.dfy | the result forest as parallel link and state sequences, and what `wait`, `recover` and the leaf-error filters do to it |
| `Executors` | executors.dfy | classes `ResultTree`, `Context` (`CURRENT`), `Palette` (`ALLOCATED`), `Muxer`, `Executor` |

A `Result` is identified by its index in the `ResultTree`. A child is always created after its parent, so its index is larger, and this is what makes the recursive traversal terminate. The invariant `Results.Valid` captures two facts: a node holds an exception exactly when its value is ERROR, and `child_errors` counts the children whose exception has been set. `NewResult` and `Store` require and keep this invariant; `Wait`, `Get` and `Recover` keep it whenever it held before. `SetExceptionOf` is the bare setter: it keeps the invariant only together with setting the value to ERROR first, as `Store` and `Wait` do (`Results.SetExceptionKeepsValid`).

## Model

| member | source | states |
|---|---|---|
| `FanIn.Safe` | forge/cli.py:60-66 | a CLIError or WorkError raised by the task becomes a value; any other exception is the only thing that escapes, unchanged |
| `FanIn.EscapeIndex` | forge/cli.py:73-74 | the index of the first outcome whose `wait` re-raises, with no earlier outcome re-raising |
| `FanIn.Gather` | forge/cli.py:72-80 | waiting on the outcomes in order yields exactly `FanInOf`: the kept outcomes up to the first escaping exception and that exception, or all of them plus one "N task(s) had errors" CLIError when N > 0 outcomes were WorkErrors |
| `FanIn.FanInOf` | forge/cli.py:72-80 | the yielded values are the kept outcomes before the first escaping exception; the failure is that exception, or the had-errors CLIError counting all WorkErrors, or none |
| `FanIn.KeptItems` | forge/cli.py:76-79 | a value is yielded iff some task returned it |
| `FanIn.CliErrorsAreYielded` | forge/cli.py:63-64 | a CLIError caught by `safe` is yielded as a value, never counted as a WorkError |
| `FanIn.KeptCount` | forge/cli.py:72-79 | every outcome is either yielded, an `OMIT`, or a counted WorkError |
| `FanIn.HadErrorsCount` | forge/cli.py:79-80 | the count in the "had errors" message determines the number of WorkErrors |
| `FanIn.KeptAppend` | forge/cli.py:72-79 | yielding preserves order: the kept part of a concatenation is the concatenation of the kept parts |
| `FanIn.AllValuesKept` | forge/cli.py:72-79 | without OMIT, WorkErrors or CLIErrors, every task's value is yielded one for one, in order |
| `FanIn.YieldsEveryValue` | forge/cli.py:68-80 | a fan-in that raises nothing, over tasks that never omit, yields every task's value in order |
| `FanIn.Spawned` | forge/cli.py:69-71 | one `safe` outcome per item, in item order |
| `FanIn.AsyncMap` | forge/cli.py:68-80 | `async_map` returns the fan-in of the `safe` outcomes of the items |
| `FanIn.SpawnedPairs` | forge/cli.py:82-83 | one `safe` outcome per pair, with the pair spread over the two arguments |
| `FanIn.AsyncApply` | forge/cli.py:82-83 | `async_apply` is the fan-in of the spread outcomes |
| `Common.OrElse` | forge/cli.py:282-283 | `x or default` for an optional string: the given value when it is non-empty, else the default |
| `Common.NatToString` | forge/cli.py:80 | the count is rendered as a non-empty run of decimal digits |
| `Common.ParseNatToString` | forge/cli.py:80 | the rendered count parses back to the count |
| `Common.NatToStringInjective` | forge/cli.py:80 | different counts render differently |
| `Common.FindFrom` | forge/cli.py:98 | the first occurrence at or after a position, or none |
| `Common.SplitOnce` | forge/cli.py:98 | `split(sep, 1)`: the parts rejoin to the input and the head has no separator; no split iff the separator is absent |
| `Common.Words` | forge/cli.py:441 | `str.split()` gives non-empty words without whitespace |
| `Common.WordsKeepEverythingElse` | forge/cli.py:441 | the words concatenated are the input with its whitespace removed |
| `Common.SplitLines` | forge/cli.py:248 | `splitlines()` gives no lines for empty input and no line contains a line break |
| `Common.SplitLinesCons` | forge/cli.py:248 | a line without breaks followed by a newline is split off unchanged, and splitting continues after the newline |
| `Common.SplitLinesLast` | forge/cli.py:248 | a non-empty last line with no newline after it is still one line |
| `Common.SplitJoinLines` | forge/cli.py:248 | splitting lines written one per newline gives back exactly those lines |
| `Common.ReplaceChar` | forge/executor.py:377 | replacing a character that does not occur changes nothing |
| `Common.ReplaceCharConcat` | forge/executor.py:377 | replacement distributes over concatenation |
| `Common.Reverse` | forge/cli.py:250 | `reversed(...)`: same length, element `i` is element `n-1-i` |
| `Config.InjectToken` | forge/cli.py:96-102 | no token leaves the URL plain; with "://" the pieces are scheme + "://", the Secret, "@" + rest split at the first "://"; without, the Secret then "@" + url |
| `Config.TokenOnlyInSecret` | forge/cli.py:96-102 | the displayable text of an injected URL is the same for any token; the token sits only in the Secret |
| `Config.GetRepo` | forge/cli.py:503-510 | a missing key and a value without "/" raise their CLIErrors; otherwise (registry, repo) rejoin with "/" to the value and the registry has no "/"; success iff the key is present and holds a "/" |
| `Config.GetRepoRoundTrip` | forge/cli.py:503-510 | a registry without "/" and any repository come back out of `get_repo` unchanged |
| `Config.FirstSlashUnique` | forge/cli.py:509 | a string splits in only one way at a "/" whose left side has none |
| `Config.PathJoin` | forge/cli.py:436 | an absolute second part wins; the result ends with the second part and is absolute when the first is |
| `Config.Dirname` | forge/cli.py:415 | `os.path.dirname`: the part of the path up to its last "/" (nothing when there is none), with the trailing slashes dropped unless that part is only slashes |
| `Config.GetWorkdir` | forge/cli.py:497-501 | an absolute workdir is kept; a relative one is joined to the base; a missing or empty one falls back to the base; the result is absolute whenever the base is |
| `Registry.StripBearer` | forge/cli.py:288-290 | a leading "Bearer " is removed, anything else is left as is |
| `Registry.TokenUrl` | forge/cli.py:290-291 | the token URL exists iff the challenge has realm, service and scope, and is built from them |
| `Registry.TokenOf` | forge/cli.py:291-293 | the token is the body's `token` field, a ValueError or KeyError otherwise |
| `Registry.Handshake` | forge/cli.py:281-295 | the first GET carries basic auth and tolerates 401 on top of `expected`; a non-401 answer is returned as is; a 401 without a challenge header, or whose challenge lacks realm, service or scope, is a KeyError; otherwise the second request is the token GET to the URL built from the challenge, with basic auth; its exception or a missing token is raised with no retry, and a token leads to exactly one retry with only the bearer header and only the caller's `expected`, whose answer is returned |
| `Registry.Classify` | forge/cli.py:380-388 | present iff the body has `signatures` and `fsLayers`; absent iff otherwise its first error code is MANIFEST_UNKNOWN; a non-JSON body is a ValueError, a first error without a `code` a KeyError, and every other shape a CLIError carrying the raw content |
| `Registry.HandshakeNeverReturnsChallenge` | forge/cli.py:285-295 | when `get` raises on an unexpected 401 and the caller does not expect 401, `dr` never returns a 401 answer |
| `Tail.SpinnerAt` | forge/cli.py:233-234 | the glyph is one of the four spinner glyphs |
| `Tail.SpinnerCycles` | forge/cli.py:233-234 | the spinner repeats every four ticks and shows all four glyphs within any four ticks |
| `Tail.Indented` | forge/cli.py:248-249 | every output line is indented by two spaces |
| `Tail.Lines` | forge/cli.py:245-249 | the summary comes first, followed by the output lines exactly when the item is verbose or failed and has output; line `i` after the summary is output line `i` indented by two spaces |
| `Tail.ItemTail` | forge/cli.py:240-250 | a finished invisible item contributes nothing; a shown item ends with its summary |
| `Tail.Capacity` | forge/cli.py:251-254 | at least one line is emitted, and exactly `limit` fit when `limit >= 1` |
| `Tail.NewerFirst` | forge/cli.py:239 | the tail of the newer items is a prefix of the whole tail |
| `Tail.AppendedItemFirst` | forge/cli.py:239 | an appended item's lines come before all earlier items' lines |
| `Tail.UnfinishedAlwaysShown` | forge/cli.py:240-244 | an unfinished item is shown whether or not it is visible |
| `Ownership.ClaimsOf` | forge/cli.py:458 | one claim per listed resource, in listing order |
| `Ownership.OwnerOf` | forge/cli.py:458-462 | reference owner: none iff nobody claimed the resource, else the service of a claim of it |
| `Ownership.OwnerOfSnoc` | forge/cli.py:459-462 | one more claim keeps an existing owner, otherwise makes the claimant the owner |
| `Ownership.OwnersAreFirstClaimants` | forge/cli.py:459-462 | the owner map the loop builds holds exactly the first claimant of each claimed resource |
| `Ownership.OwnerIsStable` | forge/cli.py:459-462 | later claims never change an owner |
| `Ownership.ConflictsNameTheOwner` | forge/cli.py:459-460 | every conflict is a real later claim and names the resource's first claimant |
| `Ownership.ConflictCount` | forge/cli.py:458-462 | every claim makes either an owner or a conflict |
| `Ownership.NoConflictsIffDistinct` | forge/cli.py:458-467 | there is no conflict iff no resource is claimed twice, whether within one service or across services |
| `Ownership.Enter` | forge/cli.py:458-462 | the inner loop leaves the owner map and conflict list equal to those of all claims so far |
| `Ownership.Tallied` | forge/cli.py:456-468 | a CLIError passed along is a ValueError at unpacking; else the stage's failure; else the conflicts message when there are conflicts; else the directories in order |
| `Ownership.Tally` | forge/cli.py:456-468 | the loop of `yaml` computes `Tallied` |
| `Stages.ApplyCommand` | forge/cli.py:443-447 | `kubectl apply -f dir`, with `--dry-run` appended exactly on a dry run, always verbose |
| `Stages.CallStep` | forge/cli.py:412-416 | a task's call result is its value and the call's exception is its exception |
| `Stages.Verdict` | forge/cli.py:408-410 | a record is passed on iff its check said yes and omitted iff it said no |
| `Stages.Filtered` | forge/cli.py:408-410 | one `safe` verdict outcome per record, in order |
| `Stages.FilteredPicks` | forge/cli.py:408-410 | a filter stage without an escaping exception passes on exactly the records whose check said yes, in record order |
| `Stages.PickedExactly` | forge/cli.py:408-410 | a record is picked iff its check said yes |
| `Stages.FilteredPrefix` | forge/cli.py:408-410 | filtering a prefix of the records gives a prefix of the outcomes |
| `Stages.Plan` | forge/cli.py:412-416 | one command per yielded record; a yielded CLIError issues none |
| `Stages.PlanOfItems` | forge/cli.py:412-416 | the k-th command is the command of the k-th yielded record |
| `Stages.Outcomes` | forge/cli.py:412-416 | one outcome per yielded value |
| `Stages.ResourcesPlan` | forge/cli.py:456 | one resources query per rendered service, for its directory, in order |
| `Stages.Listings` | forge/cli.py:456 | no listing is omitted and each listing carries the directory it was rendered to |
| `Stages.YieldedErrorEscapes` | forge/cli.py:456-457 | a render failure passed along as a value makes the resources stage raise no later than at that position |
| `Stages.RenderStep` | forge/cli.py:435-438 | the render task returns the service with `<workdir>/k8s/<name>` iff rendering did not raise |
| `Stages.Rendered` | forge/cli.py:457 | one render outcome per service, never omitted, each with that service's directory |
| `Stages.RenderedYieldsAll` | forge/cli.py:457 | a render stage that raises nothing yields every service with its directory, in order |
| `Stages.ListedAll` | forge/cli.py:456-468 | when the ownership check passes, every rendered service was listed with its directory, in order |
| `Stages.YamlDirsInServiceOrder` | forge/cli.py:449-468 | when `yaml` returns, it returns every service's manifest directory in service order |
| `Stages.PushPlanHasNoLogin` | forge/cli.py:431-433 | the push stage never issues a login |
| `Stages.BuildsOnlyRaw` | forge/cli.py:405-416 | the build stage builds exactly the records whose raw check said yes, in order, up to the first check that raised past `safe`, each in its Dockerfile's directory |
| `Stages.PickedWhenNoFailure` | forge/cli.py:408-410 | when no check raised, the stage passes on exactly the picked records |
| `Stages.PushesOnlyLocal` | forge/cli.py:422-433 | the push stage pushes one image per record that is built locally and missing from the registry, in record order |
| `Baking.ItemLines` | forge/cli.py:245-249 | the loop builds the item's lines |
| `Baking.Emit` | forge/cli.py:250-254 | rows are emitted after what is already out until the capacity is reached; stopping early means the capacity is full |
| `Baking.Baker.constructor` | forge/cli.py:122-127 | no items, nothing drawn, spinner at zero, empty cache, empty logs |
| `Baking.Baker.Clear` | forge/cli.py:139-141 | the items and the drawn-line count are reset and nothing else changes |
| `Baking.Baker.RenderTail` | forge/cli.py:236-254 | the lines are the newest-first tail cut to the capacity: at most `limit` lines for `limit >= 1` |
| `Baking.Baker.Call` | forge/cli.py:413-415 | a command is appended to the log and answered by the shell at its position |
| `Baking.Baker.Get` | forge/cli.py:285 | a request is appended to the log and answered by the HTTP oracle at its position |
| `Baking.Baker.Dr` | forge/cli.py:281-295 | the defaulted credentials are used, the requests sent are exactly the handshake's, and its answer is returned |
| `Baking.Baker.Pushed` | forge/cli.py:368-388 | a cache hit returns the cached answer with no request; a miss sends the manifest handshake expecting 404 and classifies the answer, caching a true or false answer and nothing on failure; existing cache entries never change; the same as `Lookup` and `Cached` |
| `Baking.Baker.Baked` | forge/cli.py:364-366 | one `docker images -q` query, and its output is returned |
| `Baking.RawAnswer` | forge/cli.py:402-403 | `not (pushed or baked)`: yes iff the registry said absent and the local query printed nothing; no iff the registry said present or the query printed something; an exception iff the registry lookup raised, or it said absent and the query raised, and then it is that exception |
| `Baking.LocalAnswer` | forge/cli.py:426-427 | `baked and not pushed`: yes iff the query printed something and the registry said absent; no iff the query printed nothing or the registry said present; an exception iff the query raised, or it printed something and the lookup raised, and then it is that exception |
| `Baking.Baker.IsRaw` | forge/cli.py:402-403 | the result is `RawAnswer` of the registry lookup (cache or manifest handshake) and of the local query; the requests are the lookup's, the query is issued exactly when the registry said absent, and the cache records the lookup's answer |
| `Baking.Baker.CheckStep` | forge/cli.py:408-409 | one more check of a filter stage keeps `Checked`: the outcomes are the verdicts, what each check showed or raised is in the logs, only local-image queries are issued |
| `Baking.Baker.CheckStage` | forge/cli.py:408-410 | the loop over all records in order ends with `Checked` for all of them, and its fan-in is that of the verdicts |
| `Baking.Baker.RawStage` | forge/cli.py:408-410 | the raw-check stage is the fan-in of the verdicts; a yes means cached absent and locally unbuilt, a no means present or built, an exception is one the lookup or the query raised; only local-image queries are issued |
| `Baking.Baker.LocalStage` | forge/cli.py:425-428 | the push filter stage: a yes means locally built and cached absent, a no means unbuilt or present, an exception is one the query or the lookup raised; only local-image queries are issued |
| `Baking.Baker.RawCheck` | forge/cli.py:408-409 | one record's raw check: what it showed or raised about the record's image joins what the earlier checks showed, and only that image's local query can be issued |
| `Baking.Baker.RawFailureShown` | forge/cli.py:402-403 | an exception from `is_raw` is the manifest lookup's, or the local query's after the registry said absent |
| `Baking.Baker.LocalCheck` | forge/cli.py:425-427 | one record's push check: what it showed or raised about the record's image joins what the earlier checks showed, and only that image's local query is issued |
| `Baking.Baker.LocalFailureShown` | forge/cli.py:426-427 | an exception from the push test is the local query's, or the manifest lookup's after the query printed something |
| `Baking.Baker.Unpushed` | forge/cli.py:426-427 | the result is `LocalAnswer` of the local query and of the registry lookup; one query always, the lookup's requests and cache update only when the query printed something |
| `Baking.Baker.CommandTask` | forge/cli.py:412-416 | a record's task issues its one command, dropping the image from the cache for a push; a yielded CLIError becomes a TypeError |
| `Baking.Baker.CommandStage` | forge/cli.py:412-416 | a command stage issues exactly the plan, its fan-in is that of the outcomes, and a push stage drops exactly the pushed images from the cache |
| `Baking.Baker.ResourcesStage` | forge/cli.py:456 | the resources stage issues one query per rendered service and fans in their listings |
| `Baking.Baker.ResourcesTask` | forge/cli.py:456 | one rendered service's task issues one resources query for its directory and lists its answer; a yielded CLIError becomes a TypeError |
| `Baking.Baker.DoPush` | forge/cli.py:418-420 | exactly the image's cache entry is dropped, then it is pushed |
| `Baking.Baker.Resources` | forge/cli.py:440-441 | one resources query, and its output split into words, or its exception |
| `Baking.Baker.ApplyYaml` | forge/cli.py:443-447 | one `kubectl apply`, a dry run exactly when the Baker is in dry-run mode |
| `Baking.Baker.Bake` | forge/cli.py:405-416 | `BakeSpec`: only image queries before the builds; every verdict is what its check showed or raised; one build per raw record, in order, up to the first escaping check; the first failure is the check stage's, else the build stage's |
| `Baking.Baker.LoginAndPush` | forge/cli.py:430-433 | nothing yielded means no login; otherwise one login first, a failed login stops, and a successful one is followed by the push plan and the cache drop; no second login |
| `Baking.Baker.Push` | forge/cli.py:422-433 | `PushSpec`: every verdict is what its check showed or raised; login happens exactly once, before the pushes, iff the check stage raised nothing and yielded something: a qualifying record, or a CLIError passed along by `safe` (the push stage then raises TypeError); the pushes are of exactly the qualifying records, in order |
| `Baking.Baker.Yaml` | forge/cli.py:449-468 | the commands are the resources queries of the rendered services; the outcome is that of render, list and ownership check; success returns every service's directory in order |
| `Baking.Baker.Build` | forge/cli.py:470-474 | `bake` runs first and meets `BakeSpec`; its failure is the result and nothing follows; else `push` runs from where `bake` left off and meets `PushSpec`; its failure is the result and nothing follows; else `yaml` runs from there and its result is the build's; success returns every service's directory in order |
| `Results.Children` | forge/executor.py:45-50 | children are listed once, numbered after their parent, and point back to it |
| `Results.Traversal` | forge/executor.py:100-105 | pre-order: the node first, then only nodes numbered after it |
| `Results.TraversalMember` | forge/executor.py:100-105 | a node other than the root is in the traversal iff it is in the traversal of one of the root's children |
| `Results.TraversalDescends` | forge/executor.py:100-105 | every node of a traversal descends from its root |
| `Results.SiblingTraversalsDisjoint` | forge/executor.py:100-105 | the traversals of two different children of one node share no node |
| `Results.DistinctConcat` | forge/executor.py:100-105 | two traversals that share no node, one after the other, still visit no node twice |
| `Results.TraversalDistinct` | forge/executor.py:100-105 | a traversal visits no node twice |
| `Results.DescendantsDistinct` | forge/executor.py:103-105 | the traversals of a node's distinct children, in order, visit no node twice |
| `Results.ChildTraversalInside` | forge/executor.py:100-105 | a child's traversal is contained in its parent's |
| `Results.TraversalTransitive` | forge/executor.py:100-105 | a traversal contains the traversals of its members |
| `Results.LeafFilter` | forge/executor.py:112-124 | a node is kept iff it is a listed leaf error |
| `Results.LeafErrors` | forge/executor.py:111-113 | the leaf errors of a node lie strictly below it |
| `Results.ErrorsAddSelf` | forge/executor.py:107-113 | `errors` is `leaf_errors` with the node in front when it is itself a leaf error |
| `Results.Unrecovered` | forge/executor.py:84 | empty iff every listed leaf error is recovered |
| `Results.LeafErrorLocal` | forge/executor.py:115-124 | `is_leaf_error` reads only the node's and its children's value and exception |
| `Results.LeafErrorsIgnoreSelf` | forge/executor.py:86-87 | setting the node's own value does not change the leaf errors below it |
| `Results.LeafErrorStable` | forge/executor.py:77-87 | waiting never creates or removes a leaf error |
| `Results.SetException` | forge/executor.py:63-67 | the exception is stored and the parent's `child_errors` grows by one; nothing else changes |
| `Results.SetExceptionKeepsValid` | forge/executor.py:63-67 | ERROR plus an exception on a node without one keeps the tree invariant |
| `Results.WaitFacts` | forge/executor.py:77-87 | `wait` only moves states forward, changes nothing outside the traversal but the parent's count, and settles every node of the traversal |
| `Results.WaitValid` | forge/executor.py:77-87 | `wait` keeps the tree invariant |
| `Results.WaitSettled` | forge/executor.py:77-87 | `wait` on a settled traversal changes nothing |
| `Results.WaitIdempotent` | forge/executor.py:77-87 | a second `wait` changes nothing |
| `Results.WaitChildrenKeepsSelf` | forge/executor.py:81-82 | waiting on the children leaves the node's own state, apart from its count, and its leaf errors alone |
| `Results.WaitPromotes` | forge/executor.py:83-87 | with a child error, a non-ERROR value and an unrecovered leaf error, the node becomes ERROR with a ChildError carrying its leaf errors as one argument, and the parent's `child_errors` grows by one through the setter, the rest of the parent unchanged |
| `Results.WaitParent` | forge/executor.py:77-87 | `wait` on a node changes its parent only by adding one to `child_errors`, and exactly when the node turned ERROR |
| `Results.PromoteParent` | forge/executor.py:83-87 | the ChildError assignment adds one to the parent's `child_errors` exactly when it happens |
| `Results.OneArgumentMessage` | forge/executor.py:38-41 | that ChildError's message always reads "1 child task(s) errored" |
| `Results.WaitKeepsWhenRecovered` | forge/executor.py:83-85 | when every leaf error below is recovered, `wait` leaves value and exception alone |
| `Results.SettledPropagates` | forge/executor.py:77-87 | in a settled valid tree, an unrecovered leaf error below a node makes it ERROR |
| `Results.WaitPropagates` | forge/executor.py:77-87 | after `wait`, every node of the traversal with an unrecovered leaf error below it is ERROR |
| `Results.RecoverThenWait` | forge/executor.py:96-98 | after `recover`, `wait` leaves the node's value and exception as they were |
| `Results.AddLink` | forge/executor.py:45-50 | a new childless node, appended once to its parent's children; no other link changes |
| `Results.AddLinkShaped` | forge/executor.py:45-50 | creating a Result keeps the parent/children links consistent |
| `Results.AddResultValid` | forge/executor.py:45-57 | creating a Result keeps the invariant and lists the new node among its parent's children |
| `Results.Stored` | forge/executor.py:401-405 | `do_run`'s store sets the node's value to the returned one, or to ERROR with the raised exception; the parent's `child_errors` grows by one exactly on a raise; no other node changes |
| `Results.StoredValid` | forge/executor.py:401-405 | storing the outcome keeps the invariant |
| `Results.RecoveredValid` | forge/executor.py:96-98 | `recover` keeps the invariant |
| `Results.DoRunOutcome` | forge/executor.py:399-407 | `do_run` on a PENDING result whose task may have run sub-tasks: a returned value stays unless an unrecovered leaf error lies below, which makes the result ERROR with a ChildError over the leaf errors; a raised exception stays, and the result is a leaf error exactly when it is not a ChildError and no child holds the same exception (re-raised through `get`); the parent's count grows exactly when the result ends with an exception; nothing outside the traversal and the parent changes |
| `Results.SameLeafErrorsBelow` | forge/executor.py:401-402 | storing the returned value leaves the leaf errors below the node and their recovered flags as they were |
| `Results.PromotedException` | forge/executor.py:83-87 | a node that `wait` turns into ERROR gets the ChildError over its leaf errors |
| `Results.RunOutcome` | forge/executor.py:399-417 | for a task that runs no sub-tasks (a new, childless result): it holds the returned value, or ERROR with the raised exception stored as raised, a leaf error exactly when that exception is not a ChildError; the parent's count grows exactly on a raise; no other node changes |
| `Results.Got` | forge/executor.py:89-94 | `get` raises iff the node is ERROR with an exception |
| `Executors.ResultTree.constructor` | forge/executor.py:45-57 | an empty forest |
| `Executors.ResultTree.NewResult` | forge/executor.py:45-57 | the new node is PENDING, numbered next, linked under its parent, and the invariant holds |
| `Executors.ResultTree.SetExceptionOf` | forge/executor.py:63-67 | the setter's effect on the forest is `SetException` |
| `Executors.ResultTree.Store` | forge/executor.py:401-405 | the body of `do_run`'s `try` stores the outcome and keeps the invariant |
| `Executors.ResultTree.Wait` | forge/executor.py:77-87 | the recursive waits in child order give `Results.Wait`, and keep the invariant when it held |
| `Executors.ResultTree.Get` | forge/executor.py:89-94 | waits, then returns the value or re-raises the stored exception; the invariant is kept when it held |
| `Executors.ResultTree.Recover` | forge/executor.py:96-98 | the loop marks exactly the traversal's nodes as recovered, keeping the invariant when it held |
| `Executors.ResultTree.Report` | forge/executor.py:163-186 | the count is the traversal's length, the errors are `errors`, and the header reads "N tasks run, M errors" |
| `Executors.Context.Restore` | forge/executor.py:372-373 | the saved executor and result are current again |
| `Executors.RoundRobinDistinct` | forge/executor.py:297-319 | contexts whose allocation positions differ modulo thirteen get different colors |
| `Executors.Palette.Allocate` | forge/executor.py:313-319 | a known context keeps its color and the table does not change; a new one gets `COLORS[n mod 13]` for the n contexts allocated before it |
| `Executors.PaletteGrows` | forge/executor.py:317-318 | giving an unseen context the next round-robin color keeps every allocated context at `COLORS[k mod 13]` for its rank k |
| `Executors.Header` | forge/executor.py:213-215 | a header is written iff the context is set and differs from the previous one |
| `Executors.OneHeaderPerContext` | forge/executor.py:205-219 | a run of writes in one context puts at most one header on the stream, before the first payload |
| `Executors.Muxer.Write` | forge/executor.py:205-219 | the stream grows by the header, if any, and the payload, and `previous` becomes the current context |
| `Executors.Prefixed` | forge/executor.py:377 | every line gets the prefix |
| `Executors.EchoPrefixesEveryLine` | forge/executor.py:375-381 | echoing multi-line text prefixes every line |
| `Executors.IsSignal` | forge/executor.py:126-133 | a frame is noise iff its file ends with one of the three noisy files and its function is one of that file's noisy functions |
| `Executors.Executor.constructor` | forge/executor.py:340-363 | the parent is the current executor; verbosity and, for an unnamed executor, the context are inherited from it; the color is the palette's color for the context |
| `Executors.Executor.MakeCurrent` | forge/executor.py:366-370 | the previous pair is saved and this executor with the result becomes current |
| `Executors.Executor.Echo` | forge/executor.py:375-381 | the prefixed text goes out in this executor's context and the current pair is restored |
| `Executors.Executor.Info` | forge/executor.py:383-385 | echoed when verbose, with this executor's context the last one written; otherwise nothing is written |
| `Executors.Executor.Warn` | forge/executor.py:387-391 | echoed when verbose, otherwise buffered in `messages` with nothing written; verbosity, context and colour are unchanged |
| `Executors.Executor.Error` | forge/executor.py:393-397 | the same rule as `warn` |
| `Executors.Executor.DoRun` | forge/executor.py:399-407 | with the result current, the outcome is stored, the result is waited on, and the current pair is restored |
| `Executors.Executor.Run` | forge/executor.py:409-417 | a new result under the current one is appended to `results` in call order, stored and waited on; verbosity, context and colour are unchanged |

## Left out

- eventlet concurrency: `spawn`, `monkey_patch`, `thread.wait`, the spin loop (forge/cli.py:130-137) and asynchronous executors (forge/executor.py:413-414) are not modelled. Tasks run at the moment they are spawned, in order. `Result.thread` is always empty.
- Interleaving under the sequential reading: a generator stage's tasks all run before the next stage consumes its values. `bake` therefore issues builds for records yielded before a failing check. `push` materialises the whole check stage before logging in.
- `force`: it is modelled by the stage methods consuming their whole fan-in. It is not a member of its own.
- Thread-local `executor.CURRENT`: it is an explicit `Context` object that is saved and restored.
- Terminal output: `render`, cursor movement, `Terminal`, colour functions and UTF-8 encoding are not modelled. Colours are names and `bold` is the identity. `Baker.moved` is kept but never set by a render.
- Interactive and file-system code: `setup`, `prompt`, `getpass`, `get_password`, `file_contents`, `scan`, `is_git`, `version` and `get_config` are not modelled. The records of `containers(services)` and the services list are inputs.
- GitHub access: `gh`, `next_page`, `git_pull` and `pull` are not modelled.
- Entry points: `deploy`, `create`, `main`, `call_main` and argument parsing are not modelled.
- Challenge parsing and JSON decoding: `parse_http_list`/`parse_keqv_list` is the oracle `params`. A JSON body is reduced to the fields the pipeline reads.
- forge/workstream.py is not part of this model. `call`, `get`, work-item bookkeeping and status checks are oracles; `image(...)` is an opaque key.
- forge/common.py is not part of this model. `svc.deployment` is the oracle `render`.
- Traceback handling: `get_traceback`, `_capture_stack` and the per-error lines of `report` are not modelled. `Executors.ResultTree.Report` states the count and the header line only.
- `executor.wait`/`executor.report` and the colouring in `report` are not modelled.
- `Baking.Baker.Pushed`: the registry/repo/user/password overrides are modelled as parameters. Within the core only `setup` passes them.
- `Executors.Executor.Run`: the task's function is given by its `Outcome`, so a task that runs sub-tasks is modelled by the calls it makes in order: `NewResult` for its result, `MakeCurrent`, one `Run` per sub-task, `Restore`, then `DoRun` with the task's own outcome. `Results.DoRunOutcome` states what `do_run` then does to a result with children. A task's function that interleaves its own effects with its sub-tasks' is not modelled.
- `pushed` queries the manifest with `expected=(404,)`, so 200 is not in that list. The model follows the code.
