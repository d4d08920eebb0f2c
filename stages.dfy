/**
 * The commands the pipeline stages of forge/cli.py issue and what their
 * fan-outs give, as functions of the shell oracle. The Baker's methods are
 * proved to issue exactly these commands and to return these outcomes.
 */
module Stages {
  import opened Common
  import opened Workstream
  import opened FanIn
  import opened Ownership
  import opened Config

  /** A service as the stages read it: its name, its content-derived version and its root directory. */
  datatype Service = Service(name: string, version: string, root: string)

  /** One `(svc, name, container)` record of `containers(services)`: an image and its Dockerfile path. */
  datatype Container = Container(service: Service, name: string, dockerfile: string)

  /** What `call` gives for the n-th command issued by this process: its result, or the exception it raises. */
  type Shell = (nat, Command) -> Result<CallResult, Exc>

  function Img(registry: string, repo: string, c: Container): Image {
    Image(registry, repo, c.name, c.service.version)
  }

  /** `docker images -q <image>`: prints the image id when the image exists locally. */
  function ImagesQuery(img: Image): Command {
    Command([Plain("docker"), Plain("images"), Plain("-q"), ImageName(img)], None, None)
  }

  /** `docker build . -t <image>`, run in the directory of the Dockerfile under the service root. */
  function BuildCommand(registry: string, repo: string, c: Container): Command {
    Command([Plain("docker"), Plain("build"), Plain("."), Plain("-t"), ImageName(Img(registry, repo, c))],
            Some(PathJoin(c.service.root, Dirname(c.dockerfile))), None)
  }

  function PushCommand(img: Image): Command {
    Command([Plain("docker"), Plain("push"), ImageName(img)], None, None)
  }

  /** `docker login -u <user> -p <password> <registry>` with the password kept secret. */
  function LoginCommand(user: string, password: string, registry: string): Command {
    Command([Plain("docker"), Plain("login"), Plain("-u"), Plain(user), Plain("-p"), Hidden(password), Plain(registry)], None, None)
  }

  /** `kubectl apply --dry-run -f <dir> -o name`: lists the resources the manifests define. */
  function ResourcesQuery(dir: string): Command {
    Command([Plain("kubectl"), Plain("apply"), Plain("--dry-run"), Plain("-f"), Plain(dir), Plain("-o"), Plain("name")], None, None)
  }

  /** `apply_yaml(dir)`: `kubectl apply -f <dir>`, with `--dry-run` appended on a dry run, always verbose. */
  function ApplyCommand(dir: string, dryRun: bool): (c: Command)
    ensures c.verbose == Some(true) && c.cwd.None?
    ensures |c.args| == (if dryRun then 5 else 4)
    ensures c.args[..4] == [Plain("kubectl"), Plain("apply"), Plain("-f"), Plain(dir)]
    ensures dryRun ==> c.args[4] == Plain("--dry-run")
  {
    var cmd := [Plain("kubectl"), Plain("apply"), Plain("-f"), Plain(dir)];
    Command(if dryRun then cmd + [Plain("--dry-run")] else cmd, None, Some(true))
  }

  /** The manifest directory `render_yaml` uses for a service: `<workdir>/k8s/<name>`. */
  function K8sDir(workdir: string, name: string): string {
    PathJoin(PathJoin(workdir, "k8s"), name)
  }

  /** A call inside a task: its result is the task's value, its exception the task's exception. */
  function CallStep(r: Result<CallResult, Exc>): (s: Step<CallResult>)
    ensures r.Ok? <==> s.Returned?
    ensures r.Ok? ==> s.value == r.value
    ensures r.Err? ==> s == Raised(r.error)
  {
    match r
    case Ok(v) => Returned(v)
    case Err(e) => Raised(e)
  }

  // ---------------------------------------------------------------------
  // The filtering stages of `bake` and `push`

  /** A record's task in a filtering stage: the record when it qualifies, `OMIT` when not, or the exception. */
  function Verdict(c: Container, v: Result<bool, Exc>): (s: Step<Container>)
    ensures v == Ok(true) <==> s == Returned(c)
    ensures v == Ok(false) <==> s == Omitted
  {
    match v
    case Ok(b) => if b then Returned(c) else Omitted
    case Err(e) => Raised(e)
  }

  /** The outcomes of a filtering stage whose tasks gave `verdicts`, in record order. */
  function Filtered(recs: seq<Container>, verdicts: seq<Result<bool, Exc>>): (ws: seq<Caught<Container>>)
    requires |verdicts| == |recs|
    ensures |ws| == |recs| && forall k :: 0 <= k < |recs| ==> ws[k] == Safe(Verdict(recs[k], verdicts[k]))
  {
    if recs == [] then [] else [Safe(Verdict(recs[0], verdicts[0]))] + Filtered(recs[1..], verdicts[1..])
  }

  /** Reference definition: the records whose task said yes, in order. */
  function Picked(recs: seq<Container>, verdicts: seq<Result<bool, Exc>>): seq<Container>
    requires |verdicts| == |recs|
  {
    if recs == [] then []
    else (if verdicts[0] == Ok(true) then [recs[0]] else []) + Picked(recs[1..], verdicts[1..])
  }

  /** The records among the yielded values, in order; a yielded CLIError is not one. */
  function ItemsOf<T>(ys: seq<Yielded<T>>): seq<T> {
    if ys == [] then [] else (if ys[0].Item? then [ys[0].value] else []) + ItemsOf(ys[1..])
  }

  /** A filtering stage passes on exactly the records whose task said yes, in record order. */
  lemma {:induction false} FilteredPicks(recs: seq<Container>, verdicts: seq<Result<bool, Exc>>)
    requires |verdicts| == |recs|
    requires forall k :: 0 <= k < |recs| ==> !Filtered(recs, verdicts)[k].Escaped?
    ensures ItemsOf(Kept(Filtered(recs, verdicts))) == Picked(recs, verdicts)
  {
    if recs != [] {
      var ws := Filtered(recs, verdicts);
      assert ws[1..] == Filtered(recs[1..], verdicts[1..]);
      FilteredPicks(recs[1..], verdicts[1..]);
    }
  }

  /** Filtering a prefix of the records gives the prefix of the outcomes. */
  lemma FilteredPrefix(recs: seq<Container>, verdicts: seq<Result<bool, Exc>>, n: nat)
    requires |verdicts| == |recs| && n <= |recs|
    ensures Filtered(recs, verdicts)[..n] == Filtered(recs[..n], verdicts[..n])
  {
  }

  // ---------------------------------------------------------------------
  // The command stages: one command per yielded record

  /** The per-record command of a stage over container records. */
  datatype Job = Build(registry: string, repo: string) | Push(registry: string, repo: string)

  function JobCommand(job: Job, c: Container): Command {
    match job
    case Build(registry, repo) => BuildCommand(registry, repo, c)
    case Push(registry, repo) => PushCommand(Img(registry, repo, c))
  }

  /** The commands a container stage issues: one per yielded record; a yielded CLIError issues none. */
  function Plan(command: (Job, Container) -> Command, job: Job, ys: seq<Yielded<Container>>): (cmds: seq<Command>)
    ensures |cmds| == |ItemsOf(ys)|
  {
    if ys == [] then []
    else (if ys[0].Item? then [command(job, ys[0].value)] else []) + Plan(command, job, ys[1..])
  }

  /** A stage issues the command of each yielded record, in order. */
  lemma {:induction false} PlanOfItems(command: (Job, Container) -> Command, job: Job, ys: seq<Yielded<Container>>)
    ensures forall k :: 0 <= k < |ItemsOf(ys)| ==> Plan(command, job, ys)[k] == command(job, ItemsOf(ys)[k])
  {
    if ys != [] {
      PlanOfItems(command, job, ys[1..]);
    }
  }

  /**
   * The outcomes of a container stage whose first command is the `at`-th:
   * each yielded record's call, and a TypeError for a yielded CLIError,
   * which cannot be spread over the task function's three parameters.
   */
  function Outcomes(shell: Shell, at: nat, command: (Job, Container) -> Command, job: Job, ys: seq<Yielded<Container>>): (ws: seq<Caught<CallResult>>)
    ensures |ws| == |ys|
    decreases |ys|
  {
    if ys == [] then []
    else match ys[0]
      case ErrorItem(_) => [Escaped(Foreign("TypeError"))] + Outcomes(shell, at, command, job, ys[1..])
      case Item(c) => [Safe(CallStep(shell(at, command(job, c))))] + Outcomes(shell, at + 1, command, job, ys[1..])
  }

  /** The commands of the resources stage: one query per rendered service. */
  function ResourcesPlan(ys: seq<Yielded<(Service, string)>>): (cmds: seq<Command>)
    ensures |cmds| == |ItemsOf(ys)|
    ensures forall k :: 0 <= k < |cmds| ==> cmds[k] == ResourcesQuery(ItemsOf(ys)[k].1)
  {
    if ys == [] then []
    else (if ys[0].Item? then [ResourcesQuery(ys[0].value.1)] else []) + ResourcesPlan(ys[1..])
  }

  /** The resources task: the service's name, its directory and the words kubectl printed. */
  function ListStep(r: Result<CallResult, Exc>, svc: Service, dir: string): Step<Listing> {
    match r
    case Ok(out) => Returned(Listing(svc.name, dir, Words(out.output)))
    case Err(e) => Raised(e)
  }

  /** The outcomes of the resources stage whose first command is the `at`-th. */
  function Listings(shell: Shell, at: nat, ys: seq<Yielded<(Service, string)>>): (ws: seq<Caught<Listing>>)
    ensures |ws| == |ys|
    ensures forall k :: 0 <= k < |ys| ==> !ws[k].OmitValue?
    ensures forall k :: 0 <= k < |ys| && ws[k].Value? ==> ys[k].Item? && ws[k].value.dir == ys[k].value.1
    decreases |ys|
  {
    if ys == [] then []
    else match ys[0]
      case ErrorItem(_) => [Escaped(Foreign("TypeError"))] + Listings(shell, at, ys[1..])
      case Item(v) => [Safe(ListStep(shell(at, ResourcesQuery(v.1)), v.0, v.1))] + Listings(shell, at + 1, ys[1..])
  }

  /** A rendered service yielded as a CLIError makes the resources stage raise. */
  lemma {:induction false} YieldedErrorEscapes(shell: Shell, at: nat, ys: seq<Yielded<(Service, string)>>, k: nat)
    requires k < |ys| && ys[k].ErrorItem?
    ensures EscapeIndex(Listings(shell, at, ys)) <= k
    decreases k
  {
    var ws := Listings(shell, at, ys);
    var at' := if ys[0].Item? then at + 1 else at;
    assert ws[1..] == Listings(shell, at', ys[1..]);
    if k == 0 {
      assert ws[0] == Escaped(Foreign("TypeError"));
    } else if !ws[0].Escaped? {
      YieldedErrorEscapes(shell, at', ys[1..], k - 1);
    }
  }

  /** The render task of `yaml`: render the service's manifests into its directory, or the exception. */
  function RenderStep(render: (string, string) -> Option<Exc>, workdir: string, svc: Service): (s: Step<(Service, string)>)
    ensures s.Returned? <==> render(svc.name, K8sDir(workdir, svc.name)).None?
    ensures s.Returned? ==> s.value == (svc, K8sDir(workdir, svc.name))
  {
    var dir := K8sDir(workdir, svc.name);
    if render(svc.name, dir).Some? then Raised(render(svc.name, dir).value) else Returned((svc, dir))
  }

  /** The outcomes of the render stage, in service order. */
  function Rendered(render: (string, string) -> Option<Exc>, workdir: string, services: seq<Service>): (ws: seq<Caught<(Service, string)>>)
    ensures |ws| == |services| && forall k :: 0 <= k < |services| ==> ws[k] == Safe(RenderStep(render, workdir, services[k]))
    ensures forall k :: 0 <= k < |services| ==> !ws[k].OmitValue?
    ensures forall k :: 0 <= k < |services| && ws[k].Value? ==> ws[k].value == (services[k], K8sDir(workdir, services[k].name))
  {
    seq(|services|, k requires 0 <= k < |services| => Safe(RenderStep(render, workdir, services[k])))
  }

  /**
   * What `yaml` returns or raises when its first resources query is the
   * `at`-th command: the render stage, then the resources stage over what
   * it yields, then the ownership check. A failure of the render stage is
   * raised once the resources stage has been given everything before it.
   */
  function YamlOf(render: (string, string) -> Option<Exc>, shell: Shell, at: nat, workdir: string, services: seq<Service>): Result<seq<string>, Exc> {
    var rendered := FanInOf(Rendered(render, workdir, services));
    var listed := FanInOf(Listings(shell, at, rendered.items));
    if rendered.failure.Some? then Err(rendered.failure.value) else Tallied(listed.items, listed.failure)
  }

  /** When the render stage raises nothing and yields no CLIError, it yields every service with its directory, in order. */
  lemma RenderedYieldsAll(render: (string, string) -> Option<Exc>, workdir: string, services: seq<Service>)
    requires FanInOf(Rendered(render, workdir, services)).failure.None?
    requires AllItems(FanInOf(Rendered(render, workdir, services)).items)
    ensures var items := FanInOf(Rendered(render, workdir, services)).items;
      |items| == |services| && forall k :: 0 <= k < |services| ==> items[k] == Item((services[k], K8sDir(workdir, services[k].name)))
  {
    YieldsEveryValue(Rendered(render, workdir, services));
  }

  /** When the ownership check passes, the resources stage listed every rendered service, with its directory, in order. */
  lemma ListedAll(shell: Shell, at: nat, ys: seq<Yielded<(Service, string)>>)
    requires Tallied(FanInOf(Listings(shell, at, ys)).items, FanInOf(Listings(shell, at, ys)).failure).Ok?
    ensures AllItems(ys)
    ensures var dirs := Tallied(FanInOf(Listings(shell, at, ys)).items, FanInOf(Listings(shell, at, ys)).failure).value;
      |dirs| == |ys| && forall k :: 0 <= k < |ys| ==> dirs[k] == ys[k].value.1
  {
    var ls := Listings(shell, at, ys);
    forall j | 0 <= j < |ys| ensures ys[j].Item? {
      if ys[j].ErrorItem? {
        YieldedErrorEscapes(shell, at, ys, j);
      }
    }
    YieldsEveryValue(ls);
  }

  /**
   * When `yaml` returns, it returns the manifest directory of every service,
   * in service order: no render failed, no resources query failed, and no
   * resource had two claimants.
   */
  lemma YamlDirsInServiceOrder(render: (string, string) -> Option<Exc>, shell: Shell, at: nat, workdir: string, services: seq<Service>)
    requires YamlOf(render, shell, at, workdir, services).Ok?
    ensures var dirs := YamlOf(render, shell, at, workdir, services).value;
      |dirs| == |services| && forall k :: 0 <= k < |services| ==> dirs[k] == K8sDir(workdir, services[k].name)
  {
    var rendered := FanInOf(Rendered(render, workdir, services));
    ListedAll(shell, at, rendered.items);
    RenderedYieldsAll(render, workdir, services);
  }

  // ---------------------------------------------------------------------
  // Stages grow one yielded value at a time

  lemma {:induction false} ItemsOfSnoc<T>(ys: seq<Yielded<T>>, y: Yielded<T>)
    ensures ItemsOf(ys + [y]) == ItemsOf(ys) + (if y.Item? then [y.value] else [])
  {
    if ys != [] {
      assert (ys + [y])[1..] == ys[1..] + [y];
      ItemsOfSnoc(ys[1..], y);
    }
  }

  lemma {:induction false} PlanSnoc(command: (Job, Container) -> Command, job: Job, ys: seq<Yielded<Container>>, y: Yielded<Container>)
    ensures Plan(command, job, ys + [y]) == Plan(command, job, ys) + (if y.Item? then [command(job, y.value)] else [])
    decreases |ys|
  {
    if ys != [] {
      assert (ys + [y])[1..] == ys[1..] + [y];
      PlanSnoc(command, job, ys[1..], y);
    }
  }

  lemma {:induction false} OutcomesSnoc(shell: Shell, at: nat, command: (Job, Container) -> Command, job: Job,
                                        ys: seq<Yielded<Container>>, y: Yielded<Container>)
    ensures Outcomes(shell, at, command, job, ys + [y]) ==
            Outcomes(shell, at, command, job, ys) +
            (if y.Item? then [Safe(CallStep(shell(at + |Plan(command, job, ys)|, command(job, y.value))))] else [Escaped(Foreign("TypeError"))])
    decreases |ys|
  {
    if ys != [] {
      var at' := if ys[0].Item? then at + 1 else at;
      assert (ys + [y])[1..] == ys[1..] + [y];
      assert at + |Plan(command, job, ys)| == at' + |Plan(command, job, ys[1..])|;
      OutcomesSnoc(shell, at', command, job, ys[1..], y);
    }
  }

  /** One more task of a command stage, in the form a stage's loop uses. */
  lemma OutcomesStep(shell: Shell, at: nat, command: (Job, Container) -> Command, job: Job,
                     ys: seq<Yielded<Container>>, i: nat, ws: seq<Caught<CallResult>>, w: Caught<CallResult>)
    requires i < |ys| && ws == Outcomes(shell, at, command, job, ys[..i])
    requires ys[i].ErrorItem? ==> w == Escaped(Foreign("TypeError"))
    requires ys[i].Item? ==> w == Safe(CallStep(shell(at + |Plan(command, job, ys[..i])|, command(job, ys[i].value))))
    ensures ws + [w] == Outcomes(shell, at, command, job, ys[..i + 1])
  {
    assert ys[..i + 1] == ys[..i] + [ys[i]];
    OutcomesSnoc(shell, at, command, job, ys[..i], ys[i]);
  }

  /** One more command of a command stage, in the form a stage's loop uses. */
  lemma PlanStep(command: (Job, Container) -> Command, job: Job, ys: seq<Yielded<Container>>, i: nat, done: seq<Command>)
    requires i < |ys| && done == Plan(command, job, ys[..i])
    ensures Plan(command, job, ys[..i + 1]) == done + (if ys[i].Item? then [command(job, ys[i].value)] else [])
  {
    assert ys[..i + 1] == ys[..i] + [ys[i]];
    PlanSnoc(command, job, ys[..i], ys[i]);
  }

  lemma {:induction false} ResourcesPlanSnoc(ys: seq<Yielded<(Service, string)>>, y: Yielded<(Service, string)>)
    ensures ResourcesPlan(ys + [y]) == ResourcesPlan(ys) + (if y.Item? then [ResourcesQuery(y.value.1)] else [])
    decreases |ys|
  {
    if ys != [] {
      assert (ys + [y])[1..] == ys[1..] + [y];
      ResourcesPlanSnoc(ys[1..], y);
    }
  }

  lemma {:induction false} ListingsSnoc(shell: Shell, at: nat, ys: seq<Yielded<(Service, string)>>, y: Yielded<(Service, string)>)
    ensures Listings(shell, at, ys + [y]) ==
            Listings(shell, at, ys) + (if y.Item? then [Safe(ListStep(shell(at + |ResourcesPlan(ys)|, ResourcesQuery(y.value.1)), y.value.0, y.value.1))]
                                       else [Escaped(Foreign("TypeError"))])
    decreases |ys|
  {
    if ys != [] {
      var at' := if ys[0].Item? then at + 1 else at;
      assert (ys + [y])[1..] == ys[1..] + [y];
      assert at + |ResourcesPlan(ys)| == at' + |ResourcesPlan(ys[1..])|;
      ListingsSnoc(shell, at', ys[1..], y);
    }
  }

  /** The images a push stage pushes: those of the yielded records. */
  function Pushes(registry: string, repo: string, cs: seq<Container>): set<Image> {
    set c | c in cs :: Img(registry, repo, c)
  }

  /** A push stage never logs in: login happens once, before the stage. */
  lemma PushPlanHasNoLogin(registry: string, repo: string, ys: seq<Yielded<Container>>, user: string, password: string, at: string)
    ensures LoginCommand(user, password, at) !in Plan(JobCommand, Push(registry, repo), ys)
  {
    var plan := Plan(JobCommand, Push(registry, repo), ys);
    PlanOfItems(JobCommand, Push(registry, repo), ys);
    forall k | 0 <= k < |plan| ensures plan[k] != LoginCommand(user, password, at) {
      assert |plan[k].args| == 3;
    }
  }

  /** A record is picked exactly when its task said yes. */
  lemma {:induction false} PickedExactly(recs: seq<Container>, verdicts: seq<Result<bool, Exc>>, c: Container)
    requires |verdicts| == |recs|
    ensures c in Picked(recs, verdicts) <==> exists k :: 0 <= k < |recs| && recs[k] == c && verdicts[k] == Ok(true)
  {
    if recs != [] {
      PickedExactly(recs[1..], verdicts[1..], c);
      if c in Picked(recs[1..], verdicts[1..]) {
        var k :| 0 <= k < |recs| - 1 && recs[1..][k] == c && verdicts[1..][k] == Ok(true);
        assert recs[k + 1] == c && verdicts[k + 1] == Ok(true);
      }
      if exists k :: 0 <= k < |recs| && recs[k] == c && verdicts[k] == Ok(true) {
        var k :| 0 <= k < |recs| && recs[k] == c && verdicts[k] == Ok(true);
        if k > 0 {
          assert recs[1..][k - 1] == c && verdicts[1..][k - 1] == Ok(true);
        }
      }
    }
  }

  /**
   * The skip rule of `bake`: the build stage issues one build per record
   * whose raw check said yes, in record order, up to the first check that
   * raised past `safe`, and none for any other record.
   */
  lemma BuildsOnlyRaw(registry: string, repo: string, recs: seq<Container>, verdicts: seq<Result<bool, Exc>>)
    requires |verdicts| == |recs|
    ensures var ws := Filtered(recs, verdicts);
      var n := EscapeIndex(ws);
      var plan := Plan(JobCommand, Build(registry, repo), FanInOf(ws).items);
      |plan| == |Picked(recs[..n], verdicts[..n])|
      && forall k :: 0 <= k < |plan| ==> plan[k] == BuildCommand(registry, repo, Picked(recs[..n], verdicts[..n])[k])
  {
    var ws := Filtered(recs, verdicts);
    var n := EscapeIndex(ws);
    FilteredPrefix(recs, verdicts, n);
    FilteredPicks(recs[..n], verdicts[..n]);
    PlanOfItems(JobCommand, Build(registry, repo), FanInOf(ws).items);
  }

  /** When no check of a filtering stage raised, the stage passes on exactly the picked records. */
  lemma PickedWhenNoFailure(recs: seq<Container>, verdicts: seq<Result<bool, Exc>>)
    requires |verdicts| == |recs| && FanInOf(Filtered(recs, verdicts)).failure.None?
    ensures ItemsOf(FanInOf(Filtered(recs, verdicts)).items) == Picked(recs, verdicts)
  {
    var ws := Filtered(recs, verdicts);
    assert ws[..EscapeIndex(ws)] == ws;
    FilteredPicks(recs, verdicts);
  }

  /**
   * The push stage pushes one image per record that is built locally and
   * not in the registry, in record order.
   */
  lemma PushesOnlyLocal(registry: string, repo: string, recs: seq<Container>, verdicts: seq<Result<bool, Exc>>)
    requires |verdicts| == |recs| && FanInOf(Filtered(recs, verdicts)).failure.None?
    ensures var plan := Plan(JobCommand, Push(registry, repo), FanInOf(Filtered(recs, verdicts)).items);
      |plan| == |Picked(recs, verdicts)|
      && forall k :: 0 <= k < |plan| ==> plan[k] == PushCommand(Img(registry, repo, Picked(recs, verdicts)[k]))
  {
    PickedWhenNoFailure(recs, verdicts);
    PlanOfItems(JobCommand, Push(registry, repo), FanInOf(Filtered(recs, verdicts)).items);
  }
}
