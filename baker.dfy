/**
 * The `Baker` of forge/cli.py: the pipeline driver. Its state is the
 * Workstream's item list, the screen bookkeeping, the registry-existence
 * cache, and the log of every command and HTTP request it has issued; what
 * the outside world answers is given by the shell, HTTP, challenge-parsing
 * and manifest-rendering oracles it is constructed with.
 */
module Baking {
  import opened Common
  import opened Workstream
  import opened FanIn
  import opened Registry
  import opened Ownership
  import opened Config
  import opened Tail
  import opened Stages

  /** Every entry of `small` is in `large` with the same value. */
  predicate Extends<K, V(==)>(small: map<K, V>, large: map<K, V>) {
    forall k :: k in small ==> k in large && large[k] == small[k]
  }

  /**
   * One of the commands from the `from`-th on was the local-image query for
   * `img`, and it printed something exactly when `built`.
   */
  predicate QueryShowed(shell: Shell, cmds: seq<Command>, from: nat, img: Image, built: bool) {
    exists j :: from <= j < |cmds| && cmds[j] == ImagesQuery(img) && shell(j, cmds[j]).Ok? && (shell(j, cmds[j]).value.output != "") == built
  }

  /** A login followed by a stage that never logs in: the login is the only one after `before`. */
  lemma LoginThenPlan(before: seq<Command>, login: Command, plan: seq<Command>, cmds: seq<Command>)
    requires cmds == before + [login] + plan && login !in plan
    ensures before <= cmds && |cmds| > |before| && cmds[|before|] == login
    ensures cmds[|before| + 1..] == plan
    ensures forall j :: |before| < j < |cmds| ==> cmds[j] != login
  {
    forall j | |before| < j < |cmds| ensures cmds[j] != login {
      assert cmds[j] == plan[j - |before| - 1];
    }
  }

  /** What a query showed stays shown as more commands are issued. */
  lemma QueryShowedStays(shell: Shell, cmds: seq<Command>, more: seq<Command>, from: nat, img: Image, built: bool)
    requires QueryShowed(shell, cmds, from, img, built) && cmds <= more
    ensures QueryShowed(shell, more, from, img, built)
  {
    var j :| from <= j < |cmds| && cmds[j] == ImagesQuery(img) && shell(j, cmds[j]).Ok? && (shell(j, cmds[j]).value.output != "") == built;
    assert more[j] == cmds[j];
  }

  /**
   * The manifest lookup `pushed` makes for `img` when `at` requests have gone
   * before it: the requests `dr` sends, expecting 404, and the answer read
   * from its response, or the exception raised on the way.
   */
  function ManifestLookup(http: Http, params: string -> map<string, string>, user: string, password: string,
                          at: nat, img: Image): (seq<Request>, Result<bool, Exc>)
  {
    var h := Handshake(http, params, at, ManifestUrl(img.registry, img.repo, img.name, img.version), [404], user, password);
    (h.0, if h.1.Err? then Err(h.1.error) else Classify(h.1.value))
  }

  /** `pushed` for `img` under the cache `cache`: a hit sends nothing, a miss is the manifest lookup. */
  function Lookup(http: Http, params: string -> map<string, string>, user: string, password: string,
                  cache: map<Image, bool>, at: nat, img: Image): (seq<Request>, Result<bool, Exc>)
  {
    if img in cache then ([], Ok(cache[img])) else ManifestLookup(http, params, user, password, at, img)
  }

  /** The cache after `pushed` for `img` answered `answer`: a miss that got an answer records it. */
  function Cached(cache: map<Image, bool>, img: Image, answer: Result<bool, Exc>): map<Image, bool> {
    if img in cache || answer.Err? then cache else cache[img := answer.value]
  }

  /**
   * `not (pushed or baked)`: what `is_raw` returns or raises, from the
   * registry's answer and the local query's result. The query is looked at
   * only when the registry says the image is absent.
   */
  function RawAnswer(registry: Result<bool, Exc>, query: Result<CallResult, Exc>): (r: Result<bool, Exc>)
    ensures r == Ok(true) <==> registry == Ok(false) && query.Ok? && query.value.output == ""
    ensures r == Ok(false) <==> registry == Ok(true) || (registry == Ok(false) && query.Ok? && query.value.output != "")
    ensures r.Err? <==> registry.Err? || (registry == Ok(false) && query.Err?)
    ensures registry.Err? ==> r == Err(registry.error)
    ensures registry == Ok(false) && query.Err? ==> r == Err(query.error)
  {
    match registry
    case Err(e) => Err(e)
    case Ok(present) =>
      if present then Ok(false)
      else if query.Err? then Err(query.error)
      else Ok(query.value.output == "")
  }

  /**
   * `baked and not pushed`: what the test of `push` returns or raises, from
   * the local query's result and the registry's answer. The registry is
   * looked at only when the query printed something.
   */
  function LocalAnswer(query: Result<CallResult, Exc>, registry: Result<bool, Exc>): (r: Result<bool, Exc>)
    ensures r == Ok(true) <==> query.Ok? && query.value.output != "" && registry == Ok(false)
    ensures r == Ok(false) <==> query.Ok? && (query.value.output == "" || registry == Ok(true))
    ensures r.Err? <==> query.Err? || (query.Ok? && query.value.output != "" && registry.Err?)
    ensures query.Err? ==> r == Err(query.error)
    ensures query.Ok? && query.value.output != "" && registry.Err? ==> r == Err(registry.error)
  {
    if query.Err? then Err(query.error)
    else if query.value.output == "" then Ok(false)
    else if registry.Err? then Err(registry.error)
    else Ok(!registry.value)
  }

  /** One of the commands from the `from`-th on was the local-image query for `img`, and it raised `e`. */
  predicate QueryRaised(shell: Shell, cmds: seq<Command>, from: nat, img: Image, e: Exc) {
    exists j :: from <= j < |cmds| && cmds[j] == ImagesQuery(img) && shell(j, cmds[j]) == Err(e)
  }

  /** One of the requests from the `from`-th on began a manifest lookup for `img`, and that lookup raised `e`. */
  predicate LookupRaised(http: Http, params: string -> map<string, string>, user: string, password: string,
                         reqs: seq<Request>, from: nat, img: Image, e: Exc) {
    exists n :: from <= n < |reqs| && reqs[n] == FirstRequest(ManifestUrl(img.registry, img.repo, img.name, img.version), [404], user, password)
                && ManifestLookup(http, params, user, password, n, img).1 == Err(e)
  }

  /** What was raised stays raised as more commands and requests are issued. */
  lemma RaisedStays(shell: Shell, http: Http, params: string -> map<string, string>, user: string, password: string,
                    cmds: seq<Command>, more: seq<Command>, from: nat, reqs: seq<Request>, moreReqs: seq<Request>, fromReq: nat,
                    img: Image, e: Exc)
    requires cmds <= more && reqs <= moreReqs
    ensures QueryRaised(shell, cmds, from, img, e) ==> QueryRaised(shell, more, from, img, e)
    ensures LookupRaised(http, params, user, password, reqs, fromReq, img, e) ==> LookupRaised(http, params, user, password, moreReqs, fromReq, img, e)
  {
    if QueryRaised(shell, cmds, from, img, e) {
      var j :| from <= j < |cmds| && cmds[j] == ImagesQuery(img) && shell(j, cmds[j]) == Err(e);
      assert more[j] == cmds[j];
    }
    if LookupRaised(http, params, user, password, reqs, fromReq, img, e) {
      var n :| fromReq <= n < |reqs| && reqs[n] == FirstRequest(ManifestUrl(img.registry, img.repo, img.name, img.version), [404], user, password)
               && ManifestLookup(http, params, user, password, n, img).1 == Err(e);
      assert moreReqs[n] == reqs[n];
    }
  }

  /**
   * What a filter stage's checks showed about each record, in the commands
   * from `from` on: a yes was a registry miss (`known` holds false) with a
   * local query that showed `built`, a no a registry hit or a query that
   * showed the opposite.
   */
  ghost predicate VerdictsShown(shell: Shell, cmds: seq<Command>, from: nat, known: map<Image, bool>,
                                registry: string, repo: string, recs: seq<Container>, verdicts: seq<Result<bool, Exc>>, built: bool)
  {
    && |verdicts| == |recs|
    && (forall k :: 0 <= k < |recs| && verdicts[k] == Ok(true) ==>
          var img := Img(registry, repo, recs[k]); img in known && !known[img] && QueryShowed(shell, cmds, from, img, built))
    && (forall k :: 0 <= k < |recs| && verdicts[k] == Ok(false) ==>
          var img := Img(registry, repo, recs[k]); (img in known && known[img]) || QueryShowed(shell, cmds, from, img, !built))
  }

  /** What a filter stage's checks showed stays shown as more commands are issued. */
  lemma VerdictsStay(shell: Shell, cmds: seq<Command>, more: seq<Command>, from: nat, known: map<Image, bool>,
                     registry: string, repo: string, recs: seq<Container>, verdicts: seq<Result<bool, Exc>>, built: bool)
    requires cmds <= more && VerdictsShown(shell, cmds, from, known, registry, repo, recs, verdicts, built)
    ensures VerdictsShown(shell, more, from, known, registry, repo, recs, verdicts, built)
  {
    forall k, b | 0 <= k < |recs| && QueryShowed(shell, cmds, from, Img(registry, repo, recs[k]), b)
      ensures QueryShowed(shell, more, from, Img(registry, repo, recs[k]), b)
    {
      QueryShowedStays(shell, cmds, more, from, Img(registry, repo, recs[k]), b);
    }
  }

  /** One more record checked: what the earlier checks showed stays shown, and the new check shows its own verdict. */
  lemma VerdictsGrow(shell: Shell, cmds: seq<Command>, more: seq<Command>, from: nat, known: map<Image, bool>,
                     cache: map<Image, bool>, registry: string, repo: string, recs: seq<Container>,
                     verdicts: seq<Result<bool, Exc>>, built: bool, v: Result<bool, Exc>)
    requires |verdicts| < |recs| && VerdictsShown(shell, cmds, from, known, registry, repo, recs[..|verdicts|], verdicts, built)
    requires cmds <= more && Extends(known, cache)
    requires var img := Img(registry, repo, recs[|verdicts|]);
      && (v == Ok(true) ==> img in cache && !cache[img] && QueryShowed(shell, more, from, img, built))
      && (v == Ok(false) ==> (img in cache && cache[img]) || QueryShowed(shell, more, from, img, !built))
    ensures VerdictsShown(shell, more, from, cache, registry, repo, recs[..|verdicts| + 1], verdicts + [v], built)
  {
    var i := |verdicts|;
    VerdictsStay(shell, cmds, more, from, known, registry, repo, recs[..i], verdicts, built);
    var rs, vs := recs[..i + 1], verdicts + [v];
    forall k | 0 <= k < i + 1
      ensures vs[k] == Ok(true) ==> var img := Img(registry, repo, rs[k]); img in cache && !cache[img] && QueryShowed(shell, more, from, img, built)
      ensures vs[k] == Ok(false) ==> var img := Img(registry, repo, rs[k]); (img in cache && cache[img]) || QueryShowed(shell, more, from, img, !built)
    {
      if k < i {
        assert rs[k] == recs[..i][k] && vs[k] == verdicts[k];
      }
    }
  }

  /** Commands that follow the push plan of a filter stage that raised nothing push exactly the picked records, in order. */
  lemma PushedPicked(cmds: seq<Command>, at: nat, registry: string, repo: string,
                     recs: seq<Container>, verdicts: seq<Result<bool, Exc>>)
    requires |verdicts| == |recs| && FanInOf(Filtered(recs, verdicts)).failure.None?
    requires at <= |cmds| && cmds[at..] == Plan(JobCommand, Job.Push(registry, repo), FanInOf(Filtered(recs, verdicts)).items)
    ensures |cmds| == at + |Picked(recs, verdicts)|
    ensures forall k :: 0 <= k < |Picked(recs, verdicts)| ==> cmds[at + k] == PushCommand(Img(registry, repo, Picked(recs, verdicts)[k]))
    ensures Pushes(registry, repo, ItemsOf(FanInOf(Filtered(recs, verdicts)).items)) == Pushes(registry, repo, Picked(recs, verdicts))
  {
    PickedWhenNoFailure(recs, verdicts);
    PushesOnlyLocal(registry, repo, recs, verdicts);
    forall k | 0 <= k < |Picked(recs, verdicts)|
      ensures cmds[at + k] == PushCommand(Img(registry, repo, Picked(recs, verdicts)[k]))
    {
      assert cmds[at + k] == cmds[at..][k];
    }
  }

  /**
   * The commands of `bake` from `before` on: local-image queries up to
   * `mid`, then the build plan of the check stage, one build per raw record
   * in record order, up to the first check that raised.
   */
  ghost predicate ChecksThenBuilds(registry: string, repo: string, recs: seq<Container>, verdicts: seq<Result<bool, Exc>>,
                                   before: seq<Command>, cmds: seq<Command>, mid: nat)
    requires |verdicts| == |recs|
  {
    var ws := Filtered(recs, verdicts);
    var n := EscapeIndex(ws);
    var builds := Picked(recs[..n], verdicts[..n]);
    && |before| <= mid <= |cmds| && cmds[..|before|] == before
    && (forall j :: |before| <= j < mid ==> QueryOfSome(registry, repo, cmds[j], recs))
    && cmds[mid..] == Plan(JobCommand, Job.Build(registry, repo), FanInOf(ws).items)
    && |cmds| - mid == |builds|
    && (forall k :: 0 <= k < |builds| ==> cmds[mid + k] == BuildCommand(registry, repo, builds[k]))
  }

  /**
   * The build stage of `bake`, seen from `bake`: after a check stage that
   * issued only queries, the builds follow the queries, one per raw record
   * up to the first check that raised.
   */
  lemma BakeTail(registry: string, repo: string, recs: seq<Container>, verdicts: seq<Result<bool, Exc>>,
                 before: seq<Command>, checked: seq<Command>, cmds: seq<Command>)
    requires |verdicts| == |recs|
    requires before <= checked && forall j :: |before| <= j < |checked| ==> QueryOfSome(registry, repo, checked[j], recs)
    requires cmds == checked + Plan(JobCommand, Job.Build(registry, repo), FanInOf(Filtered(recs, verdicts)).items)
    ensures before <= cmds && cmds[..|checked|] == checked && ChecksThenBuilds(registry, repo, recs, verdicts, before, cmds, |checked|)
  {
    AppendedAt(checked, Plan(JobCommand, Job.Build(registry, repo), FanInOf(Filtered(recs, verdicts)).items), cmds);
    BuildsOnlyRaw(registry, repo, recs, verdicts);
  }

  /** The commands issued after `checked`, read back by position. */
  lemma AppendedAt(checked: seq<Command>, plan: seq<Command>, cmds: seq<Command>)
    requires cmds == checked + plan
    ensures cmds[..|checked|] == checked && cmds[|checked|..] == plan
    ensures forall j :: 0 <= j < |checked| ==> cmds[j] == checked[j]
    ensures forall k :: 0 <= k < |plan| ==> cmds[|checked| + k] == plan[k]
  {
  }

  /** A check stage's queries are never a login. */
  lemma QueriesAreNotLogin(registry: string, repo: string, recs: seq<Container>, cmds: seq<Command>, from: nat,
                           user: string, password: string, at: string)
    requires forall j :: from <= j < |cmds| ==> QueryOfSome(registry, repo, cmds[j], recs)
    ensures forall j :: from <= j < |cmds| ==> cmds[j] != LoginCommand(user, password, at)
  {
    forall j | from <= j < |cmds| ensures cmds[j] != LoginCommand(user, password, at) {
      var k :| 0 <= k < |recs| && cmds[j] == ImagesQuery(Img(registry, repo, recs[k]));
      assert |cmds[j].args| == 4;
    }
  }

  /**
   * What the push stage did, from commands `checked` and cache `known` to
   * commands `cmds` and cache `cache`: nothing when nothing was yielded;
   * otherwise one login and, if it succeeded, one push per yielded record
   * with that record's image dropped from the cache (a yielded CLIError
   * issues no command and makes its task raise TypeError); and no other login.
   */
  ghost predicate LoggedInAndPushed(shell: Shell, registry: string, repo: string, login: Command, ys: seq<Yielded<Container>>,
                                    checked: seq<Command>, cmds: seq<Command>, known: map<Image, bool>, cache: map<Image, bool>,
                                    failure: Option<Exc>)
  {
    var at := |checked|;
    && checked <= cmds
    && (ys == [] ==> failure == None && cmds == checked && cache == known)
    && (ys != [] ==>
          && |cmds| > at && cmds[at] == login
          && (shell(at, login).Err? ==> failure == Some(shell(at, login).error) && |cmds| == at + 1 && cache == known)
          && (shell(at, login).Ok? ==>
                && cmds[at + 1..] == Plan(JobCommand, Job.Push(registry, repo), ys)
                && cache == known - Pushes(registry, repo, ItemsOf(ys))
                && failure == FanInOf(Outcomes(shell, at + 1, JobCommand, Job.Push(registry, repo), ys)).failure))
    && (forall j :: at < j < |cmds| ==> cmds[j] != login)
  }

  /**
   * The commands of `push` from `before` on, and its cache and outcome:
   * local-image queries up to `mid`; then nothing if the check stage raised
   * or yielded nothing; otherwise, when it yielded a picked record or a
   * CLIError passed along by `safe`, one login and, if it succeeded, one
   * push per picked record in record order, each dropping its image from the
   * cache `known` held after the checks (a yielded CLIError makes its task
   * raise TypeError); and no login anywhere else.
   */
  ghost predicate ChecksThenPush(shell: Shell, registry: string, repo: string, login: Command, recs: seq<Container>,
                                 verdicts: seq<Result<bool, Exc>>, before: seq<Command>, cmds: seq<Command>, mid: nat,
                                 known: map<Image, bool>, cache: map<Image, bool>, failure: Option<Exc>)
    requires |verdicts| == |recs|
  {
    var c := FanInOf(Filtered(recs, verdicts));
    && |before| <= mid <= |cmds| && cmds[..|before|] == before
    && (forall j :: |before| <= j < mid ==> QueryOfSome(registry, repo, cmds[j], recs))
    && (c.failure.Some? ==> failure == c.failure && |cmds| == mid && cache == known)
    && (c.failure.None? && c.items == [] ==> failure == None && |cmds| == mid && cache == known)
    && (c.failure.None? && c.items != [] ==>
          && |cmds| > mid && cmds[mid] == login
          && (shell(mid, login).Err? ==> failure == Some(shell(mid, login).error) && |cmds| == mid + 1 && cache == known)
          && (shell(mid, login).Ok? ==>
                && cmds[mid + 1..] == Plan(JobCommand, Job.Push(registry, repo), c.items)
                && |cmds| == mid + 1 + |Picked(recs, verdicts)|
                && (forall k :: 0 <= k < |Picked(recs, verdicts)| ==>
                      cmds[mid + 1 + k] == PushCommand(Img(registry, repo, Picked(recs, verdicts)[k])))
                && cache == known - Pushes(registry, repo, Picked(recs, verdicts))
                && failure == FanInOf(Outcomes(shell, mid + 1, JobCommand, Job.Push(registry, repo), c.items)).failure))
    && (forall j :: |before| <= j < |cmds| && cmds[j] == login ==> j == mid)
  }

  /**
   * The push stage's login and pushes, seen from `push`: after a check stage
   * that issued only queries and picked the records `Picked(recs, verdicts)`,
   * the login comes right after the queries and each picked record's image
   * is pushed in order.
   */
  lemma PushTail(shell: Shell, registry: string, repo: string, login: Command, recs: seq<Container>,
                 verdicts: seq<Result<bool, Exc>>, before: seq<Command>, checked: seq<Command>, cmds: seq<Command>,
                 known: map<Image, bool>, cache: map<Image, bool>, failure: Option<Exc>)
    requires |verdicts| == |recs| && FanInOf(Filtered(recs, verdicts)).failure.None?
    requires before <= checked && forall j :: |before| <= j < |checked| ==> checked[j] != login
    requires forall j :: |before| <= j < |checked| ==> QueryOfSome(registry, repo, checked[j], recs)
    requires LoggedInAndPushed(shell, registry, repo, login, FanInOf(Filtered(recs, verdicts)).items, checked, cmds, known, cache, failure)
    ensures before <= cmds && cmds[..|checked|] == checked
    ensures ChecksThenPush(shell, registry, repo, login, recs, verdicts, before, cmds, |checked|, known, cache, failure)
  {
    var mid := |checked|;
    PrefixKept(before, checked, cmds);
    forall j | |before| <= j < mid ensures QueryOfSome(registry, repo, cmds[j], recs) && cmds[j] != login {
      assert cmds[j] == checked[j];
    }
    var ys := FanInOf(Filtered(recs, verdicts)).items;
    if ys != [] && shell(mid, login).Ok? {
      PushedPicked(cmds, mid + 1, registry, repo, recs, verdicts);
    }
  }

  /** Commands issued earlier stay where they are. */
  lemma PrefixKept(before: seq<Command>, checked: seq<Command>, cmds: seq<Command>)
    requires before <= checked <= cmds
    ensures before <= cmds && cmds[..|before|] == before && cmds[..|checked|] == checked
    ensures forall j :: 0 <= j < |checked| ==> cmds[j] == checked[j]
  {
  }

  /** The images pushed after one more yielded value: one more image when it is a record. */
  lemma PushesStep(registry: string, repo: string, ys: seq<Yielded<Container>>, i: nat)
    requires i < |ys|
    ensures Pushes(registry, repo, ItemsOf(ys[..i + 1])) ==
            Pushes(registry, repo, ItemsOf(ys[..i])) + (if ys[i].Item? then {Img(registry, repo, ys[i].value)} else {})
  {
    assert ys[..i + 1] == ys[..i] + [ys[i]];
    ItemsOfSnoc(ys[..i], ys[i]);
  }

  /** Dropping the images one at a time is dropping them all at once. */
  lemma DropOneMore(cache: map<Image, bool>, gone: set<Image>, img: Image)
    ensures (cache - gone) - {img} == cache - (gone + {img})
  {
  }

  /** `cmd` is the local-image query of one of the records. */
  predicate QueryOfSome(registry: string, repo: string, cmd: Command, recs: seq<Container>) {
    exists k :: 0 <= k < |recs| && cmd == ImagesQuery(Img(registry, repo, recs[k]))
  }

  /** The lines of one item, top-down, built as `render_tail` builds them. */
  method ItemLines(item: WorkItem, spin: char) returns (own: seq<string>)
    ensures own == Lines(item, spin)
  {
    var status := if item.finished then item.finishSummary else [spin];
    own := [item.kind + "[" + status + "]: " + item.startSummary];
    if (item.verbose || (item.finished && !item.ok)) && item.output != "" {
      var out := SplitLines(item.output);
      for j := 0 to |out|
        invariant own == [Summary(item, spin)] + Indented(out[..j])
      {
        assert Indented(out[..j + 1]) == Indented(out[..j]) + ["  " + out[j]];
        own := own + ["  " + out[j]];
      }
      assert out[..|out|] == out;
    }
  }

  /**
   * Emit `rows` one at a time after `lines`, stopping as soon as `limit`
   * lines are out; `full` says whether it stopped early.
   */
  method Emit(lines: seq<string>, rows: seq<string>, limit: int) returns (out: seq<string>, full: bool)
    requires |lines| < Capacity(limit)
    ensures lines <= out && out[|lines|..] <= rows
    ensures full ==> |out| == Capacity(limit)
    ensures !full ==> out == lines + rows && |out| < Capacity(limit)
  {
    out := lines;
    for j := 0 to |rows|
      invariant out == lines + rows[..j] && |out| < Capacity(limit)
    {
      out := out + [rows[j]];
      if |out| >= limit {
        assert out[|lines|..] == rows[..j + 1];
        return out, true;
      }
    }
    assert rows[..|rows|] == rows;
    return out, false;
  }

  /** Stepping one item back: its tail follows the newer ones', and all of it is a prefix of the whole tail. */
  lemma TailStep(items: seq<WorkItem>, spin: char, i: nat)
    requires i < |items|
    ensures AllTail(items[i..], spin) == AllTail(items[i + 1..], spin) + ItemTail(items[i], spin)
    ensures AllTail(items[i..], spin) <= AllTail(items, spin)
  {
    assert items[i..][1..] == items[i + 1..];
    NewerFirst(items, spin, i);
  }

  /** A cut taken inside the tail of item `i` is a prefix of the whole tail. */
  lemma CutTail(items: seq<WorkItem>, spin: char, i: nat, part: seq<string>)
    requires i < |items| && Shown(items[i]) && part <= Reverse(Lines(items[i], spin))
    ensures AllTail(items[i + 1..], spin) + part <= AllTail(items, spin)
  {
    TailStep(items, spin, i);
  }

  /**
   * What a check-then-act stage (`bake` or `push`) left behind: the checks'
   * verdicts, the position where the checks' commands end, the cache right
   * after the checks, and the commands, requests, cache and failure at the
   * stage's end.
   */
  datatype StageRun = StageRun(verdicts: seq<Result<bool, Exc>>, mid: nat, checked: map<Image, bool>,
                               commands: seq<Command>, requests: seq<Request>, cache: map<Image, bool>,
                               failure: Option<Exc>)

  class Baker {
    /** The Workstream's work items, oldest first. */
    var items: seq<WorkItem>
    /** How many lines the last render drew. */
    var moved: nat
    /** Spinner ticks so far. */
    var spincount: nat
    /** `pushed_cache`: whether an image is known to exist in the registry. */
    var cache: map<Image, bool>
    /** Every `call`, in the order issued. */
    var commands: seq<Command>
    /** Every `get`, in the order issued. */
    var requests: seq<Request>

    const registry: string
    const repo: string
    const user: string
    const password: string
    const workdir: string
    const dryRun: bool
    const shell: Shell
    const http: Http
    /** Parsing a challenge into its key=value pairs. */
    const params: string -> map<string, string>
    /** `svc.deployment(registry, repo, dir)` for a service name and a directory: the exception it raises, if any. */
    const render: (string, string) -> Option<Exc>

    /**
     * A check that raised `e` for `img` raised what the outside world raised:
     * in the raw check (`built` false) the manifest lookup, or the local query
     * once the registry said absent; in the push check (`built` true) the local
     * query, or the lookup once the query printed something. Commands count
     * from `from`, requests from `fromReq`.
     */
    ghost predicate ErrorShown(cmds: seq<Command>, from: nat, reqs: seq<Request>, fromReq: nat, known: map<Image, bool>,
                               img: Image, e: Exc, built: bool)
    {
      if built then
        QueryRaised(shell, cmds, from, img, e)
        || (QueryShowed(shell, cmds, from, img, true) && LookupRaised(http, params, user, password, reqs, fromReq, img, e))
      else
        LookupRaised(http, params, user, password, reqs, fromReq, img, e)
        || (img in known && !known[img] && QueryRaised(shell, cmds, from, img, e))
    }

    /** Every check of a filter stage that raised is explained by what it was told. */
    ghost predicate ErrorsShown(cmds: seq<Command>, from: nat, reqs: seq<Request>, fromReq: nat, known: map<Image, bool>,
                                recs: seq<Container>, verdicts: seq<Result<bool, Exc>>, built: bool)
    {
      && |verdicts| == |recs|
      && forall k :: 0 <= k < |recs| && verdicts[k].Err? ==>
           ErrorShown(cmds, from, reqs, fromReq, known, Img(registry, repo, recs[k]), verdicts[k].error, built)
    }

    /** An explained failure stays explained as more is issued and the cache grows. */
    lemma ErrorShownStays(cmds: seq<Command>, more: seq<Command>, from: nat, reqs: seq<Request>, moreReqs: seq<Request>,
                          fromReq: nat, known: map<Image, bool>, cache: map<Image, bool>, img: Image, e: Exc, built: bool)
      requires cmds <= more && reqs <= moreReqs && Extends(known, cache)
      requires ErrorShown(cmds, from, reqs, fromReq, known, img, e, built)
      ensures ErrorShown(more, from, moreReqs, fromReq, cache, img, e, built)
    {
      RaisedStays(shell, http, params, user, password, cmds, more, from, reqs, moreReqs, fromReq, img, e);
      if QueryShowed(shell, cmds, from, img, true) {
        QueryShowedStays(shell, cmds, more, from, img, true);
      }
    }

    /** A filter stage's explained failures stay explained as more is issued. */
    lemma ErrorsStay(cmds: seq<Command>, more: seq<Command>, from: nat, reqs: seq<Request>, moreReqs: seq<Request>,
                     fromReq: nat, known: map<Image, bool>, recs: seq<Container>, verdicts: seq<Result<bool, Exc>>, built: bool)
      requires cmds <= more && reqs <= moreReqs
      requires ErrorsShown(cmds, from, reqs, fromReq, known, recs, verdicts, built)
      ensures ErrorsShown(more, from, moreReqs, fromReq, known, recs, verdicts, built)
    {
      forall k | 0 <= k < |recs| && verdicts[k].Err?
        ensures ErrorShown(more, from, moreReqs, fromReq, known, Img(registry, repo, recs[k]), verdicts[k].error, built)
      {
        ErrorShownStays(cmds, more, from, reqs, moreReqs, fromReq, known, known, Img(registry, repo, recs[k]), verdicts[k].error, built);
      }
    }

    /** One more record checked: the earlier failures stay explained, and the new one is explained by its own check. */
    lemma ErrorsGrow(cmds: seq<Command>, more: seq<Command>, from: nat, reqs: seq<Request>, moreReqs: seq<Request>,
                     fromReq: nat, known: map<Image, bool>, cache: map<Image, bool>, recs: seq<Container>,
                     verdicts: seq<Result<bool, Exc>>, built: bool, v: Result<bool, Exc>)
      requires |verdicts| < |recs| && ErrorsShown(cmds, from, reqs, fromReq, known, recs[..|verdicts|], verdicts, built)
      requires cmds <= more && reqs <= moreReqs && Extends(known, cache)
      requires v.Err? ==> ErrorShown(more, from, moreReqs, fromReq, cache, Img(registry, repo, recs[|verdicts|]), v.error, built)
      ensures ErrorsShown(more, from, moreReqs, fromReq, cache, recs[..|verdicts| + 1], verdicts + [v], built)
    {
      var i := |verdicts|;
      var rs, vs := recs[..i + 1], verdicts + [v];
      forall k | 0 <= k < i + 1 && vs[k].Err?
        ensures ErrorShown(more, from, moreReqs, fromReq, cache, Img(registry, repo, rs[k]), vs[k].error, built)
      {
        if k < i {
          assert rs[k] == recs[..i][k] && vs[k] == verdicts[k];
          ErrorShownStays(cmds, more, from, reqs, moreReqs, fromReq, known, cache, Img(registry, repo, rs[k]), vs[k].error, built);
        }
      }
    }

    /** The screen bookkeeping did not change. */
    twostate predicate ScreenKept()
      reads this
    {
      items == old(items) && moved == old(moved) && spincount == old(spincount)
    }

    constructor(registry: string, repo: string, user: string, password: string, workdir: string, dryRun: bool,
                shell: Shell, http: Http, params: string -> map<string, string>, render: (string, string) -> Option<Exc>)
      ensures this.registry == registry && this.repo == repo && this.user == user && this.password == password
      ensures this.workdir == workdir && this.dryRun == dryRun
      ensures this.shell == shell && this.http == http && this.params == params && this.render == render
      ensures items == [] && moved == 0 && spincount == 0 && cache == map[] && commands == [] && requests == []
    {
      this.registry, this.repo, this.user, this.password := registry, repo, user, password;
      this.workdir, this.dryRun := workdir, dryRun;
      this.shell, this.http, this.params, this.render := shell, http, params, render;
      items, moved, spincount, cache, commands, requests := [], 0, 0, map[], [], [];
    }

    /** `clear()`: forget the work items and the drawn lines. */
    method Clear()
      modifies this
      ensures items == [] && moved == 0
      ensures spincount == old(spincount) && cache == old(cache) && commands == old(commands) && requests == old(requests)
    {
      items, moved := [], 0;
    }

    /**
     * `render_tail(limit)`: the tail of the log, newest item first, each
     * item's lines bottom-up, stopping as soon as `limit` lines are out
     * (the first line is always emitted before the check).
     */
    method RenderTail(limit: int) returns (lines: seq<string>)
      ensures var all := AllTail(items, SpinnerAt(spincount));
        lines == if |all| <= Capacity(limit) then all else all[..Capacity(limit)]
      ensures |lines| <= Capacity(limit)
    {
      var spin := SpinnerAt(spincount);
      lines := [];
      var i := |items|;
      while i > 0
        invariant 0 <= i <= |items|
        invariant lines == AllTail(items[i..], spin) && |lines| < Capacity(limit)
      {
        i := i - 1;
        var item := items[i];
        TailStep(items, spin, i);
        if !item.finished || item.visible {
          var own := ItemLines(item, spin);
          var full;
          lines, full := Emit(lines, Reverse(own), limit);
          if full {
            CutTail(items, spin, i, lines[|AllTail(items[i + 1..], spin)|..]);
            assert lines == AllTail(items[i + 1..], spin) + lines[|AllTail(items[i + 1..], spin)|..];
            return;
          }
        }
      }
      assert items[0..] == items;
    }

    /** `call(cmd)`: issue a command and get its result, or the exception it raises. */
    method Call(cmd: Command) returns (r: Result<CallResult, Exc>)
      modifies this
      ensures commands == old(commands) + [cmd] && r == shell(|old(commands)|, cmd)
      ensures requests == old(requests) && cache == old(cache) && ScreenKept()
    {
      r := shell(|commands|, cmd);
      commands := commands + [cmd];
    }

    /** `get(request)`: issue an HTTP request and get its response, or the exception it raises. */
    method Get(req: Request) returns (r: Result<Response, Exc>)
      modifies this
      ensures requests == old(requests) + [req] && r == http(|old(requests)|, req)
      ensures commands == old(commands) && cache == old(cache) && ScreenKept()
    {
      r := http(|requests|, req);
      requests := requests + [req];
    }

    /**
     * `dr(url, expected, user, password)`: a registry request with the
     * bearer-token handshake; the user and password default to the Baker's.
     */
    method Dr(url: string, expected: seq<int>, user: Option<string>, password: Option<string>) returns (r: Result<Response, Exc>)
      modifies this
      ensures var h := Handshake(http, params, |old(requests)|, url, expected, OrElse(user, this.user), OrElse(password, this.password));
        requests == old(requests) + h.0 && r == h.1
      ensures commands == old(commands) && cache == old(cache) && ScreenKept()
    {
      var u, p := OrElse(user, this.user), OrElse(password, this.password);
      ghost var at := |requests|;
      r := Get(FirstRequest(url, expected, u, p));
      if r.Ok? && r.value.status == 401 {
        if r.value.challenge.None? {
          return Err(Foreign("KeyError"));
        }
        var opts := params(StripBearer(r.value.challenge.value));
        var tokenUrl := TokenUrl(opts);
        if tokenUrl.None? {
          return Err(Foreign("KeyError"));
        }
        var answer := Get(TokenRequest(tokenUrl.value, u, p));
        if answer.Err? {
          return Err(answer.error);
        }
        var token := TokenOf(answer.value);
        if token.Err? {
          return Err(token.error);
        }
        r := Get(RetryRequest(url, expected, token.value));
      }
    }

    /**
     * `pushed(name, version, ...)`: whether the image is in the registry,
     * from the cache when it is there; otherwise from the manifest
     * endpoint, caching the answer but not a failure.
     */
    method Pushed(name: string, version: string, registry: Option<string>, repo: Option<string>,
                  user: Option<string>, password: Option<string>) returns (r: Result<bool, Exc>)
      modifies this
      ensures var reg, rp := OrElse(registry, this.registry), OrElse(repo, this.repo);
        var img := Image(reg, rp, name, version);
        && (img in old(cache) ==> r == Ok(old(cache)[img]) && requests == old(requests) && cache == old(cache))
        && (img !in old(cache) ==>
              var h := Handshake(http, params, |old(requests)|, ManifestUrl(reg, rp, name, version), [404],
                                 OrElse(user, this.user), OrElse(password, this.password));
              && requests == old(requests) + h.0
              && r == (if h.1.Err? then Err(h.1.error) else Classify(h.1.value))
              && cache == (if r.Ok? then old(cache)[img := r.value] else old(cache)))
      ensures var l := Lookup(http, params, OrElse(user, this.user), OrElse(password, this.password), old(cache), |old(requests)|,
                              Image(OrElse(registry, this.registry), OrElse(repo, this.repo), name, version));
        requests == old(requests) + l.0 && r == l.1
        && cache == Cached(old(cache), Image(OrElse(registry, this.registry), OrElse(repo, this.repo), name, version), r)
      ensures Extends(old(cache), cache)
      ensures commands == old(commands) && ScreenKept()
    {
      var reg, rp := OrElse(registry, this.registry), OrElse(repo, this.repo);
      var img := Image(reg, rp, name, version);
      if img in cache {
        return Ok(cache[img]);
      }
      var response := Dr(ManifestUrl(reg, rp, name, version), [404], user, password);
      if response.Err? {
        return Err(response.error);
      }
      r := Classify(response.value);
      if r.Ok? {
        cache := cache[img := r.value];
      }
    }

    /** `baked(name, version)`: what `docker images -q` prints for the image; empty when it is not built. */
    method Baked(name: string, version: string) returns (r: Result<string, Exc>)
      modifies this
      ensures var q := ImagesQuery(Image(registry, repo, name, version));
        commands == old(commands) + [q] && r == (if shell(|old(commands)|, q).Ok? then Ok(shell(|old(commands)|, q).value.output)
                                                 else Err(shell(|old(commands)|, q).error))
      ensures requests == old(requests) && cache == old(cache) && ScreenKept()
    {
      var result := Call(ImagesQuery(Image(registry, repo, name, version)));
      if result.Err? {
        return Err(result.error);
      }
      return Ok(result.value.output);
    }

    /**
     * `is_raw(name, version)`: neither in the registry nor built locally.
     * The local check is made only when the registry says the image is absent.
     */
    method IsRaw(name: string, version: string) returns (r: Result<bool, Exc>)
      modifies this
      ensures var img := Image(registry, repo, name, version);
        && var q := shell(|old(commands)|, ImagesQuery(img));
        && (r == Ok(true) ==> img in cache && !cache[img] && commands == old(commands) + [ImagesQuery(img)]
                              && q.Ok? && q.value.output == "")
        && (img in old(cache) && old(cache)[img] ==> r == Ok(false) && commands == old(commands) && requests == old(requests))
        && (r == Ok(false) ==> (img in cache && cache[img])
                               || (commands == old(commands) + [ImagesQuery(img)] && q.Ok? && q.value.output != ""))
      ensures old(commands) <= commands && |commands| <= |old(commands)| + 1
      ensures |commands| == |old(commands)| + 1 ==> commands[|old(commands)|] == ImagesQuery(Image(registry, repo, name, version))
      ensures old(requests) <= requests && Extends(old(cache), cache) && ScreenKept()
      ensures var img := Image(registry, repo, name, version);
        var l := Lookup(http, params, user, password, old(cache), |old(requests)|, img);
        && requests == old(requests) + l.0
        && cache == Cached(old(cache), img, l.1)
        && commands == old(commands) + (if l.1 == Ok(false) then [ImagesQuery(img)] else [])
        && r == RawAnswer(l.1, shell(|old(commands)|, ImagesQuery(img)))
    {
      var p := Pushed(name, version, None, None, None, None);
      if p.Err? {
        return Err(p.error);
      }
      if p.value {
        return Ok(false);
      }
      var b := Baked(name, version);
      if b.Err? {
        return Err(b.error);
      }
      return Ok(b.value == "");
    }

    /**
     * A filter stage after its first `i` checks, begun with commands `from`,
     * requests `fromReqs` and cache `known`: `ws` holds the first `i` outcomes,
     * each the verdict on its record; what the checks showed and raised is
     * in the logs; only local-image queries were issued; the cache only grew.
     */
    ghost predicate Checked(recs: seq<Container>, i: nat, ws: seq<Caught<Container>>, verdicts: seq<Result<bool, Exc>>,
                            from: seq<Command>, fromReqs: seq<Request>, known: map<Image, bool>, built: bool)
      reads this
    {
      && i <= |recs| && |verdicts| == i && |ws| == i
      && (forall k :: 0 <= k < i ==> ws[k] == Safe(Verdict(recs[k], verdicts[k])))
      && VerdictsShown(shell, commands, |from|, cache, registry, repo, recs[..i], verdicts, built)
      && ErrorsShown(commands, |from|, requests, |fromReqs|, cache, recs[..i], verdicts, built)
      && from <= commands && (forall j :: |from| <= j < |commands| ==> QueryOfSome(registry, repo, commands[j], recs))
      && fromReqs <= requests && Extends(known, cache)
    }

    /** One more check of a filter stage: `is_raw` when `built` is false, the push test when it is true. */
    method CheckStep(recs: seq<Container>, i: nat, ws: seq<Caught<Container>>, ghost verdicts: seq<Result<bool, Exc>>,
                     ghost from: seq<Command>, ghost fromReqs: seq<Request>, ghost known: map<Image, bool>, built: bool)
      returns (ws': seq<Caught<Container>>, ghost verdicts': seq<Result<bool, Exc>>)
      requires i < |recs| && Checked(recs, i, ws, verdicts, from, fromReqs, known, built)
      modifies this
      ensures Checked(recs, i + 1, ws', verdicts', from, fromReqs, known, built)
      ensures ScreenKept()
    {
      var v;
      if built {
        v := LocalCheck(recs, i, verdicts, from, fromReqs);
      } else {
        v := RawCheck(recs, i, verdicts, from, fromReqs);
      }
      ws', verdicts' := ws + [Safe(Verdict(recs[i], v))], verdicts + [v];
    }

    /**
     * A filter stage over all records, in record order: `is_raw` for the
     * raw-check stage of `bake` (`built` false), the push test for the
     * filter stage of `push` (`built` true). `verdicts` are the checks'
     * answers; what the checks showed and raised is in the logs.
     */
    method CheckStage(recs: seq<Container>, built: bool) returns (c: Collected<Container>, ghost verdicts: seq<Result<bool, Exc>>)
      modifies this
      ensures |verdicts| == |recs| && c == FanInOf(Filtered(recs, verdicts))
      ensures Checked(recs, |recs|, Filtered(recs, verdicts), verdicts, old(commands), old(requests), old(cache), built)
      ensures ScreenKept()
    {
      var ws: seq<Caught<Container>> := [];
      verdicts := [];
      for i := 0 to |recs|
        invariant Checked(recs, i, ws, verdicts, old(commands), old(requests), old(cache), built) && ScreenKept()
      {
        ws, verdicts := CheckStep(recs, i, ws, verdicts, old(commands), old(requests), old(cache), built);
      }
      assert ws == Filtered(recs, verdicts);
      c := Gather(ws);
    }

    /**
     * The raw-check stage of `bake`: `is_raw` for every record, in record
     * order; `verdicts` are the checks' answers. Only local-image queries
     * are issued, and a record is passed on exactly when neither the
     * registry nor the local query knows its image.
     */
    method RawStage(recs: seq<Container>) returns (c: Collected<Container>, ghost verdicts: seq<Result<bool, Exc>>)
      modifies this
      ensures |verdicts| == |recs| && c == FanInOf(Filtered(recs, verdicts))
      ensures VerdictsShown(shell, commands, |old(commands)|, cache, registry, repo, recs, verdicts, false)
      ensures ErrorsShown(commands, |old(commands)|, requests, |old(requests)|, cache, recs, verdicts, false)
      ensures old(commands) <= commands && forall j :: |old(commands)| <= j < |commands| ==> QueryOfSome(registry, repo, commands[j], recs)
      ensures old(requests) <= requests && Extends(old(cache), cache) && ScreenKept()
    {
      c, verdicts := CheckStage(recs, false);
      assert recs[..|recs|] == recs;
    }

    /**
     * The filter stage of `push`: for every record, in record order, whether
     * it is built locally and not in the registry; `verdicts` are the
     * answers. Only local-image queries are issued.
     */
    method LocalStage(recs: seq<Container>) returns (c: Collected<Container>, ghost verdicts: seq<Result<bool, Exc>>)
      modifies this
      ensures |verdicts| == |recs| && c == FanInOf(Filtered(recs, verdicts))
      ensures VerdictsShown(shell, commands, |old(commands)|, cache, registry, repo, recs, verdicts, true)
      ensures ErrorsShown(commands, |old(commands)|, requests, |old(requests)|, cache, recs, verdicts, true)
      ensures old(commands) <= commands && forall j :: |old(commands)| <= j < |commands| ==> QueryOfSome(registry, repo, commands[j], recs)
      ensures old(requests) <= requests && Extends(old(cache), cache) && ScreenKept()
    {
      c, verdicts := CheckStage(recs, true);
      assert recs[..|recs|] == recs;
    }

    /** One task of the raw-check stage: check the next record and record what the check showed. */
    method RawCheck(recs: seq<Container>, i: nat, ghost verdicts: seq<Result<bool, Exc>>, ghost from: seq<Command>,
                    ghost fromReqs: seq<Request>)
      returns (v: Result<bool, Exc>)
      requires i == |verdicts| < |recs| && from <= commands && fromReqs <= requests
      requires VerdictsShown(shell, commands, |from|, cache, registry, repo, recs[..|verdicts|], verdicts, false)
      requires ErrorsShown(commands, |from|, requests, |fromReqs|, cache, recs[..|verdicts|], verdicts, false)
      requires forall j :: |from| <= j < |commands| ==> QueryOfSome(registry, repo, commands[j], recs)
      modifies this
      ensures from <= commands && old(commands) <= commands && fromReqs <= requests
      ensures VerdictsShown(shell, commands, |from|, cache, registry, repo, recs[..|verdicts| + 1], verdicts + [v], false)
      ensures ErrorsShown(commands, |from|, requests, |fromReqs|, cache, recs[..|verdicts| + 1], verdicts + [v], false)
      ensures forall j :: |from| <= j < |commands| ==> QueryOfSome(registry, repo, commands[j], recs)
      ensures old(requests) <= requests && Extends(old(cache), cache) && ScreenKept()
    {
      ghost var before, beforeReqs, known := commands, requests, cache;
      v := IsRaw(recs[i].name, recs[i].service.version);
      var img := Img(registry, repo, recs[i]);
      if v == Ok(true) || (v == Ok(false) && !(img in cache && cache[img])) {
        assert commands[|before|] == ImagesQuery(img);
      }
      VerdictsGrow(shell, before, commands, |from|, known, cache, registry, repo, recs, verdicts, false, v);
      if v.Err? {
        RawFailureShown(before, beforeReqs, known, |from|, |fromReqs|, img, v);
      }
      ErrorsGrow(before, commands, |from|, beforeReqs, requests, |fromReqs|, known, cache, recs, verdicts, false, v);
    }

    /** The failure `is_raw` just returned is explained by the lookup or the query it made. */
    lemma RawFailureShown(before: seq<Command>, beforeReqs: seq<Request>, known: map<Image, bool>, from: nat, fromReq: nat,
                          img: Image, v: Result<bool, Exc>)
      requires from <= |before| && fromReq <= |beforeReqs| && v.Err?
      requires var l := Lookup(http, params, user, password, known, |beforeReqs|, img);
        && requests == beforeReqs + l.0
        && cache == Cached(known, img, l.1)
        && commands == before + (if l.1 == Ok(false) then [ImagesQuery(img)] else [])
        && v == RawAnswer(l.1, shell(|before|, ImagesQuery(img)))
      ensures ErrorShown(commands, from, requests, fromReq, cache, img, v.error, false)
    {
      var l := Lookup(http, params, user, password, known, |beforeReqs|, img);
      if l.1.Err? {
        var h := Handshake(http, params, |beforeReqs|, ManifestUrl(img.registry, img.repo, img.name, img.version), [404], user, password);
        assert requests[|beforeReqs|] == h.0[0];
        assert LookupRaised(http, params, user, password, requests, fromReq, img, v.error);
      } else {
        assert commands[|before|] == ImagesQuery(img);
        assert QueryRaised(shell, commands, from, img, v.error);
      }
    }

    /** One task of the push filter stage: check the next record and record what the check showed. */
    method LocalCheck(recs: seq<Container>, i: nat, ghost verdicts: seq<Result<bool, Exc>>, ghost from: seq<Command>,
                      ghost fromReqs: seq<Request>)
      returns (v: Result<bool, Exc>)
      requires i == |verdicts| < |recs| && from <= commands && fromReqs <= requests
      requires VerdictsShown(shell, commands, |from|, cache, registry, repo, recs[..|verdicts|], verdicts, true)
      requires ErrorsShown(commands, |from|, requests, |fromReqs|, cache, recs[..|verdicts|], verdicts, true)
      requires forall j :: |from| <= j < |commands| ==> QueryOfSome(registry, repo, commands[j], recs)
      modifies this
      ensures from <= commands && old(commands) <= commands && fromReqs <= requests
      ensures VerdictsShown(shell, commands, |from|, cache, registry, repo, recs[..|verdicts| + 1], verdicts + [v], true)
      ensures ErrorsShown(commands, |from|, requests, |fromReqs|, cache, recs[..|verdicts| + 1], verdicts + [v], true)
      ensures forall j :: |from| <= j < |commands| ==> QueryOfSome(registry, repo, commands[j], recs)
      ensures old(requests) <= requests && Extends(old(cache), cache) && ScreenKept()
    {
      ghost var before, beforeReqs, known := commands, requests, cache;
      v := Unpushed(recs[i]);
      var img := Img(registry, repo, recs[i]);
      assert commands[|before|] == ImagesQuery(img);
      VerdictsGrow(shell, before, commands, |from|, known, cache, registry, repo, recs, verdicts, true, v);
      if v.Err? {
        LocalFailureShown(before, beforeReqs, known, |from|, |fromReqs|, img, v);
      }
      ErrorsGrow(before, commands, |from|, beforeReqs, requests, |fromReqs|, known, cache, recs, verdicts, true, v);
    }

    /** The failure the push test just returned is explained by the query or the lookup it made. */
    lemma LocalFailureShown(before: seq<Command>, beforeReqs: seq<Request>, known: map<Image, bool>, from: nat, fromReq: nat,
                            img: Image, v: Result<bool, Exc>)
      requires from <= |before| && fromReq <= |beforeReqs| && v.Err?
      requires var q := shell(|before|, ImagesQuery(img));
        var asked := q.Ok? && q.value.output != "";
        var l := Lookup(http, params, user, password, known, |beforeReqs|, img);
        && commands == before + [ImagesQuery(img)]
        && requests == beforeReqs + (if asked then l.0 else [])
        && v == LocalAnswer(q, l.1)
      ensures ErrorShown(commands, from, requests, fromReq, cache, img, v.error, true)
    {
      var q := shell(|before|, ImagesQuery(img));
      assert commands[|before|] == ImagesQuery(img);
      if q.Err? {
        assert QueryRaised(shell, commands, from, img, v.error);
      } else {
        assert QueryShowed(shell, commands, from, img, true);
        var h := Handshake(http, params, |beforeReqs|, ManifestUrl(img.registry, img.repo, img.name, img.version), [404], user, password);
        assert requests[|beforeReqs|] == h.0[0];
        assert LookupRaised(http, params, user, password, requests, fromReq, img, v.error);
      }
    }

    /**
     * One task of a command stage: the record's command, issued by `do_push`
     * for a push; a yielded CLIError makes the task raise a TypeError.
     */
    method CommandTask(command: (Job, Container) -> Command, job: Job, y: Yielded<Container>) returns (w: Caught<CallResult>)
      requires job.Push? ==> forall c :: command(job, c) == PushCommand(Img(job.registry, job.repo, c))
      modifies this
      ensures y.ErrorItem? ==> w == Escaped(Foreign("TypeError")) && commands == old(commands) && cache == old(cache)
      ensures y.Item? ==> commands == old(commands) + [command(job, y.value)]
                          && w == Safe(CallStep(shell(|old(commands)|, command(job, y.value))))
      ensures y.Item? && job.Build? ==> cache == old(cache)
      ensures y.Item? && job.Push? ==> cache == old(cache) - {Img(job.registry, job.repo, y.value)}
      ensures requests == old(requests) && ScreenKept()
    {
      match y {
        case ErrorItem(_) =>
          w := Escaped(Foreign("TypeError"));
        case Item(rec) =>
          var r;
          if job.Build? {
            r := Call(command(job, rec));
          } else {
            r := DoPush(Img(job.registry, job.repo, rec));
          }
          w := Safe(CallStep(r));
      }
    }

    /** One more task of a command stage, keeping the stage's commands, outcomes and cache in step with `ys[..i]`. */
    method CommandStep(command: (Job, Container) -> Command, job: Job, ys: seq<Yielded<Container>>, i: nat,
                       ws: seq<Caught<CallResult>>, ghost before: seq<Command>, ghost known: map<Image, bool>)
      returns (ws': seq<Caught<CallResult>>)
      requires job.Push? ==> forall c :: command(job, c) == PushCommand(Img(job.registry, job.repo, c))
      requires i < |ys|
      requires commands == before + Plan(command, job, ys[..i])
      requires ws == Outcomes(shell, |before|, command, job, ys[..i])
      requires job.Build? ==> cache == known
      requires job.Push? ==> cache == known - Pushes(job.registry, job.repo, ItemsOf(ys[..i]))
      modifies this
      ensures commands == before + Plan(command, job, ys[..i + 1])
      ensures ws' == Outcomes(shell, |before|, command, job, ys[..i + 1])
      ensures job.Build? ==> cache == known
      ensures job.Push? ==> cache == known - Pushes(job.registry, job.repo, ItemsOf(ys[..i + 1]))
      ensures requests == old(requests) && ScreenKept()
    {
      ghost var done := Plan(command, job, ys[..i]);
      PlanStep(command, job, ys, i, done);
      PushesStep(job.registry, job.repo, ys, i);
      assert |commands| == |before| + |done|;
      var w := CommandTask(command, job, ys[i]);
      OutcomesStep(shell, |before|, command, job, ys, i, ws, w);
      if ys[i].Item? {
        assert commands == before + (done + [command(job, ys[i].value)]);
        if job.Push? {
          DropOneMore(known, Pushes(job.registry, job.repo, ItemsOf(ys[..i])), Img(job.registry, job.repo, ys[i].value));
        }
      }
      ws' := ws + [w];
    }

    /**
     * A command stage over the yielded records, `async_apply` with the
     * stage's task: for `Build` the `docker build` of each record, for
     * `Push` the `do_push` of each image.
     */
    method CommandStage(command: (Job, Container) -> Command, job: Job, ys: seq<Yielded<Container>>) returns (c: Collected<CallResult>)
      requires job.Push? ==> forall c :: command(job, c) == PushCommand(Img(job.registry, job.repo, c))
      modifies this
      ensures commands == old(commands) + Plan(command, job, ys)
      ensures c == FanInOf(Outcomes(shell, |old(commands)|, command, job, ys))
      ensures job.Build? ==> cache == old(cache)
      ensures job.Push? ==> cache == old(cache) - Pushes(job.registry, job.repo, ItemsOf(ys))
      ensures requests == old(requests) && ScreenKept()
    {
      var ws: seq<Caught<CallResult>> := [];
      assert ys[..0] == [];
      for i := 0 to |ys|
        invariant commands == old(commands) + Plan(command, job, ys[..i])
        invariant ws == Outcomes(shell, |old(commands)|, command, job, ys[..i])
        invariant job.Build? ==> cache == old(cache)
        invariant job.Push? ==> cache == old(cache) - Pushes(job.registry, job.repo, ItemsOf(ys[..i]))
        invariant requests == old(requests) && ScreenKept()
      {
        ws := CommandStep(command, job, ys, i, ws, old(commands), old(cache));
      }
      assert ys[..|ys|] == ys;
      c := Gather(ws);
    }

    /** The resources stage of `yaml`: for each rendered service, the resources kubectl reports for its directory. */
    method ResourcesStage(ys: seq<Yielded<(Service, string)>>) returns (c: Collected<Listing>)
      modifies this
      ensures commands == old(commands) + ResourcesPlan(ys)
      ensures c == FanInOf(Listings(shell, |old(commands)|, ys))
      ensures requests == old(requests) && cache == old(cache) && ScreenKept()
    {
      var ws: seq<Caught<Listing>> := [];
      for i := 0 to |ys|
        invariant commands == old(commands) + ResourcesPlan(ys[..i])
        invariant ws == Listings(shell, |old(commands)|, ys[..i])
        invariant requests == old(requests) && cache == old(cache) && ScreenKept()
      {
        ws := ResourcesStep(ys, i, ws, old(commands));
      }
      assert ys[..|ys|] == ys;
      c := Gather(ws);
    }

    /** One more task of the resources stage, keeping the stage's commands and outcomes in step with `ys[..i]`. */
    method ResourcesStep(ys: seq<Yielded<(Service, string)>>, i: nat, ws: seq<Caught<Listing>>, ghost before: seq<Command>)
      returns (ws': seq<Caught<Listing>>)
      requires i < |ys|
      requires commands == before + ResourcesPlan(ys[..i])
      requires ws == Listings(shell, |before|, ys[..i])
      modifies this
      ensures commands == before + ResourcesPlan(ys[..i + 1])
      ensures ws' == Listings(shell, |before|, ys[..i + 1])
      ensures requests == old(requests) && cache == old(cache) && ScreenKept()
    {
      assert ys[..i + 1] == ys[..i] + [ys[i]];
      ResourcesPlanSnoc(ys[..i], ys[i]);
      ListingsSnoc(shell, |before|, ys[..i], ys[i]);
      var w := ResourcesTask(ys[i]);
      ws' := ws + [w];
    }

    /** One task of the resources stage; a yielded CLIError makes the task raise a TypeError. */
    method ResourcesTask(y: Yielded<(Service, string)>) returns (w: Caught<Listing>)
      modifies this
      ensures y.ErrorItem? ==> w == Escaped(Foreign("TypeError")) && commands == old(commands)
      ensures y.Item? ==> commands == old(commands) + [ResourcesQuery(y.value.1)]
                          && w == Safe(ListStep(shell(|old(commands)|, ResourcesQuery(y.value.1)), y.value.0, y.value.1))
      ensures requests == old(requests) && cache == old(cache) && ScreenKept()
    {
      match y {
        case ErrorItem(_) =>
          w := Escaped(Foreign("TypeError"));
        case Item(pair) =>
          var names := Resources(pair.1);
          var step := if names.Ok? then Returned(Listing(pair.0.name, pair.1, names.value)) else Raised(names.error);
          w := Safe(step);
      }
    }

    /** The test `push` applies to each record: built locally and not in the registry. */
    method Unpushed(c: Container) returns (r: Result<bool, Exc>)
      modifies this
      ensures var img := Img(registry, repo, c);
        var q := shell(|old(commands)|, ImagesQuery(img));
        && commands == old(commands) + [ImagesQuery(img)]
        && (r == Ok(true) ==> img in cache && !cache[img] && q.Ok? && q.value.output != "")
        && (r == Ok(false) ==> (q.Ok? && q.value.output == "") || (img in cache && cache[img]))
        && (q.Ok? && q.value.output == "" ==> r == Ok(false) && requests == old(requests) && cache == old(cache))
      ensures old(commands) <= commands && old(requests) <= requests && Extends(old(cache), cache) && ScreenKept()
      ensures var img := Img(registry, repo, c);
        var q := shell(|old(commands)|, ImagesQuery(img));
        var asked := q.Ok? && q.value.output != "";
        var l := Lookup(http, params, user, password, old(cache), |old(requests)|, img);
        && requests == old(requests) + (if asked then l.0 else [])
        && cache == (if asked then Cached(old(cache), img, l.1) else old(cache))
        && r == LocalAnswer(q, l.1)
    {
      var b := Baked(c.name, c.service.version);
      if b.Err? {
        return Err(b.error);
      }
      if b.value == "" {
        return Ok(false);
      }
      var p := Pushed(c.name, c.service.version, None, None, None, None);
      if p.Err? {
        return Err(p.error);
      }
      return Ok(!p.value);
    }

    /** `do_push(img)`: drop the image from the cache, then push it. */
    method DoPush(img: Image) returns (r: Result<CallResult, Exc>)
      modifies this
      ensures cache == old(cache) - {img}
      ensures commands == old(commands) + [PushCommand(img)] && r == shell(|old(commands)|, PushCommand(img))
      ensures requests == old(requests) && ScreenKept()
    {
      cache := cache - {img};
      r := Call(PushCommand(img));
    }

    /** `resources(dir)`: the names kubectl reports for the manifests in `dir`. */
    method Resources(dir: string) returns (r: Result<seq<string>, Exc>)
      modifies this
      ensures commands == old(commands) + [ResourcesQuery(dir)]
      ensures shell(|old(commands)|, ResourcesQuery(dir)).Ok? ==> r == Ok(Words(shell(|old(commands)|, ResourcesQuery(dir)).value.output))
      ensures shell(|old(commands)|, ResourcesQuery(dir)).Err? ==> r == Err(shell(|old(commands)|, ResourcesQuery(dir)).error)
      ensures requests == old(requests) && cache == old(cache) && ScreenKept()
    {
      var out := Call(ResourcesQuery(dir));
      if out.Err? {
        return Err(out.error);
      }
      return Ok(Words(out.value.output));
    }

    /** `apply_yaml(dir)`: apply the manifests in `dir`, only as a dry run when the Baker is in dry-run mode. */
    method ApplyYaml(dir: string) returns (r: Result<CallResult, Exc>)
      modifies this
      ensures commands == old(commands) + [ApplyCommand(dir, dryRun)] && r == shell(|old(commands)|, ApplyCommand(dir, dryRun))
      ensures requests == old(requests) && cache == old(cache) && ScreenKept()
    {
      r := Call(ApplyCommand(dir, dryRun));
    }
  
    /**
     * What `bake` did from commands `cmds0`, requests `reqs0` and cache
     * `cache0`, as `run` records it: the checks issued only local-image
     * queries, up to `run.mid`; what each check showed or raised is in the
     * logs; then one build per raw record, in record order, up to the first
     * check that raised past `safe`. The failure is the check stage's, else
     * the build stage's, and the builds leave the cache as the checks left it.
     */
    ghost predicate BakeSpec(recs: seq<Container>, cmds0: seq<Command>, reqs0: seq<Request>, cache0: map<Image, bool>, run: StageRun)
    {
      && |run.verdicts| == |recs|
      && cmds0 <= run.commands && ChecksThenBuilds(registry, repo, recs, run.verdicts, cmds0, run.commands, run.mid)
      && run.failure == (var c := FanInOf(Filtered(recs, run.verdicts));
                         if c.failure.Some? then c.failure
                         else FanInOf(Outcomes(shell, run.mid, JobCommand, Job.Build(registry, repo), c.items)).failure)
      && VerdictsShown(shell, run.commands, |cmds0|, run.checked, registry, repo, recs, run.verdicts, false)
      && ErrorsShown(run.commands, |cmds0|, run.requests, |reqs0|, run.checked, recs, run.verdicts, false)
      && reqs0 <= run.requests && Extends(cache0, run.checked) && run.cache == run.checked
    }

    /**
     * `bake(scanned)`: check every record, then build the raw ones; `run`
     * records the checks' verdicts and where the builds begin.
     */
    method Bake(recs: seq<Container>) returns (failure: Option<Exc>, ghost run: StageRun)
      modifies this
      ensures run.failure == failure && run.commands == commands && run.requests == requests && run.cache == cache
      ensures BakeSpec(recs, old(commands), old(requests), old(cache), run)
      ensures ScreenKept()
    {
      var raw;
      ghost var verdicts;
      raw, verdicts := RawStage(recs);
      ghost var checked := commands;
      var built := CommandStage(JobCommand, Job.Build(registry, repo), raw.items);
      failure := if raw.failure.Some? then raw.failure else built.failure;
      BakeTail(registry, repo, recs, verdicts, old(commands), checked, commands);
      VerdictsStay(shell, checked, commands, |old(commands)|, cache, registry, repo, recs, verdicts, false);
      ErrorsStay(checked, commands, |old(commands)|, requests, requests, |old(requests)|, cache, recs, verdicts, false);
      run := StageRun(verdicts, |checked|, cache, commands, requests, cache, failure);
    }

    /**
     * The second half of `push`: when the check stage yielded anything, log
     * in to the registry once and, if that succeeds, push each yielded
     * record's image (a yielded CLIError makes its task raise TypeError).
     */
    method LoginAndPush(ys: seq<Yielded<Container>>) returns (failure: Option<Exc>)
      modifies this
      ensures LoggedInAndPushed(shell, registry, repo, LoginCommand(user, password, registry), ys, old(commands), commands, old(cache), cache, failure)
      ensures requests == old(requests) && ScreenKept()
    {
      if ys == [] {
        return None;
      }
      var login := LoginCommand(user, password, registry);
      var r := Call(login);
      if r.Err? {
        return Some(r.error);
      }
      PushPlanHasNoLogin(registry, repo, ys, user, password, registry);
      var pushed := CommandStage(JobCommand, Job.Push(registry, repo), ys);
      failure := pushed.failure;
      LoginThenPlan(old(commands), login, Plan(JobCommand, Job.Push(registry, repo), ys), commands);
    }

    /**
     * What `push` did from commands `cmds0`, requests `reqs0` and cache
     * `cache0`, as `run` records it: the checks issued only local-image
     * queries, up to `run.mid`, and left the cache `run.checked`; what each
     * check showed or raised is in the logs; then nothing if the check stage
     * raised or yielded nothing, and otherwise (a passed record, or a
     * CLIError passed along by `safe`) one login and, if it succeeded, one
     * push per passed record in record order, each dropping its image from
     * the cache; no other login.
     */
    ghost predicate PushSpec(recs: seq<Container>, cmds0: seq<Command>, reqs0: seq<Request>, cache0: map<Image, bool>, run: StageRun)
    {
      && |run.verdicts| == |recs|
      && cmds0 <= run.commands
      && ChecksThenPush(shell, registry, repo, LoginCommand(user, password, registry), recs, run.verdicts,
                        cmds0, run.commands, run.mid, run.checked, run.cache, run.failure)
      && VerdictsShown(shell, run.commands, |cmds0|, run.checked, registry, repo, recs, run.verdicts, true)
      && ErrorsShown(run.commands, |cmds0|, run.requests, |reqs0|, run.checked, recs, run.verdicts, true)
      && reqs0 <= run.requests && Extends(cache0, run.checked)
    }

    /**
     * `push(scanned)`: find the records built locally but not in the
     * registry, log in once if the check stage yielded anything (such a
     * record, or a CLIError passed along by `safe`), and push each record's
     * image. Nothing is pushed, and there is no login, when the check stage
     * raised.
     */
    method Push(recs: seq<Container>) returns (failure: Option<Exc>, ghost run: StageRun)
      modifies this
      ensures run.failure == failure && run.commands == commands && run.requests == requests && run.cache == cache
      ensures PushSpec(recs, old(commands), old(requests), old(cache), run)
      ensures ScreenKept()
    {
      var local;
      ghost var verdicts;
      local, verdicts := LocalStage(recs);
      ghost var mid, known := |commands|, cache;
      ghost var checked := commands;
      ghost var login := LoginCommand(user, password, registry);
      QueriesAreNotLogin(registry, repo, recs, commands, |old(commands)|, user, password, registry);
      if local.failure.Some? {
        failure := local.failure;
      } else {
        failure := LoginAndPush(local.items);
        PushTail(shell, registry, repo, login, recs, verdicts, old(commands), checked, commands, known, cache, failure);
        VerdictsStay(shell, checked, commands, |old(commands)|, known, registry, repo, recs, verdicts, true);
        ErrorsStay(checked, commands, |old(commands)|, requests, requests, |old(requests)|, known, recs, verdicts, true);
      }
      run := StageRun(verdicts, mid, known, commands, requests, cache, failure);
    }
  
    /**
     * `yaml(scanned)`: render every service's manifests, list the resources
     * each defines, and return the manifest directories unless two services
     * claim the same resource. When it returns, it returns every service's
     * directory, in service order.
     */
    method Yaml(services: seq<Service>) returns (r: Result<seq<string>, Exc>)
      modifies this
      ensures commands == old(commands) + ResourcesPlan(FanInOf(Rendered(render, workdir, services)).items)
      ensures r == YamlOf(render, shell, |old(commands)|, workdir, services)
      ensures r.Ok? ==> |r.value| == |services| && forall k :: 0 <= k < |services| ==> r.value[k] == K8sDir(workdir, services[k].name)
      ensures requests == old(requests) && cache == old(cache) && ScreenKept()
    {
      var rd, wd := render, workdir;
      var task := (svc: Service) => RenderStep(rd, wd, svc);
      var rendered := AsyncMap(task, services);
      assert Spawned(task, services) == Rendered(render, workdir, services);
      var listed := ResourcesStage(rendered.items);
      if rendered.failure.Some? {
        r := Err(rendered.failure.value);
      } else {
        r := Tally(listed.items, listed.failure);
      }
      if r.Ok? {
        YamlDirsInServiceOrder(render, shell, |old(commands)|, workdir, services);
      }
    }

    /**
     * `build(scanned)`: bake, then push, then render the manifests; the
     * first stage to fail ends the build with its exception. `bake` and
     * `push` record what those stages did.
     */
    method Build(recs: seq<Container>, services: seq<Service>) returns (r: Result<seq<string>, Exc>, ghost bake: StageRun, ghost push: StageRun)
      modifies this
      ensures BakeSpec(recs, old(commands), old(requests), old(cache), bake)
      ensures bake.failure.Some? ==>
                r == Err(bake.failure.value) && commands == bake.commands && requests == bake.requests && cache == bake.cache
      ensures bake.failure.None? ==> PushSpec(recs, bake.commands, bake.requests, bake.cache, push)
      ensures bake.failure.None? && push.failure.Some? ==>
                r == Err(push.failure.value) && commands == push.commands && requests == push.requests && cache == push.cache
      ensures bake.failure.None? && push.failure.None? ==>
                && commands == push.commands + ResourcesPlan(FanInOf(Rendered(render, workdir, services)).items)
                && r == YamlOf(render, shell, |push.commands|, workdir, services)
                && requests == push.requests && cache == push.cache
      ensures r.Ok? ==> |r.value| == |services| && forall k :: 0 <= k < |services| ==> r.value[k] == K8sDir(workdir, services[k].name)
      ensures ScreenKept()
    {
      var baked, pushed;
      baked, bake := Bake(recs);
      if baked.Some? {
        return Err(baked.value), bake, bake;
      }
      pushed, push := Push(recs);
      if pushed.Some? {
        return Err(pushed.value), bake, push;
      }
      r := Yaml(services);
    }
  }
}
