/**
 * The pure string logic of forge/cli.py: hiding a token inside a URL, and
 * reading the Docker repository and the work directory from the
 * configuration. Posix `os.path.join` and `os.path.dirname` are written out
 * as their standard library defines them.
 */
module Config {
  import opened Common
  import opened Workstream

  /**
   * `inject_token(url, token)`: without a token the URL itself; otherwise
   * an Elidable that puts the token, as a Secret, before an "@" right after
   * the scheme, or at the very front when the URL has no scheme.
   */
  function InjectToken(url: string, token: Option<string>): (r: Arg)
    ensures !Truthy(token) ==> r == Plain(url)
    ensures Truthy(token) && !Contains(url, "://") ==> r == Elidable([Secret(token.value), Text("@" + url)])
    ensures Truthy(token) && Contains(url, "://") ==>
              && r.Elidable? && |r.parts| == 3
              && r.parts[0].Text? && r.parts[1] == Secret(token.value) && r.parts[2].Text?
              && EndsWith(r.parts[0].text, "://") && !Contains(r.parts[0].text[..|r.parts[0].text| - 3], "://")
              && |r.parts[2].text| >= 1 && r.parts[2].text[0] == '@'
              && r.parts[0].text + r.parts[2].text[1..] == url
  {
    if !Truthy(token) then Plain(url)
    else
      match SplitOnce(url, "://")
      case Some((scheme, rest)) =>
        var head := scheme + "://";
        assert head[..|head| - 3] == scheme;
        assert ("@" + rest)[1..] == rest;
        Elidable([Text(head), Secret(token.value), Text("@" + rest)])
      case None => Elidable([Secret(token.value), Text("@" + url)])
  }

  /** The text of an argument with every secret left out: what may be displayed. */
  function Public(parts: seq<Fragment>): seq<string> {
    if parts == [] then []
    else (if parts[0].Text? then [parts[0].text] else []) + Public(parts[1..])
  }

  /** The displayable text of an injected URL does not depend on the token: it only ever sits in the Secret. */
  lemma TokenOnlyInSecret(url: string, t1: string, t2: string)
    requires t1 != "" && t2 != ""
    ensures InjectToken(url, Some(t1)).Elidable? && InjectToken(url, Some(t2)).Elidable?
    ensures Public(InjectToken(url, Some(t1)).parts) == Public(InjectToken(url, Some(t2)).parts)
    ensures Secret(t1) in InjectToken(url, Some(t1)).parts
  {
  }

  /** The error `get_repo` raises when the key is missing. */
  const NoRepo: string := "docker-repo must be configured"

  /** The error `get_repo` raises when the value has no "/". */
  const BadRepo: string := "docker-repo must be in the form <registry-url>/<name>"

  /** `get_repo(conf)`: split `docker-repo` at its first "/" into registry and repository. */
  function GetRepo(conf: map<string, string>): (r: Result<(string, string), Exc>)
    ensures "docker-repo" !in conf ==> r == Err(CLIError(NoRepo))
    ensures "docker-repo" in conf && !Contains(conf["docker-repo"], "/") ==> r == Err(CLIError(BadRepo))
    ensures r.Ok? ==> "docker-repo" in conf && r.value.0 + "/" + r.value.1 == conf["docker-repo"] && '/' !in r.value.0
    ensures r.Ok? <==> "docker-repo" in conf && Contains(conf["docker-repo"], "/")
  {
    if "docker-repo" !in conf then Err(CLIError(NoRepo))
    else
      var url := conf["docker-repo"];
      match SplitOnce(url, "/")
      case None => Err(CLIError(BadRepo))
      case Some((registry, repo)) =>
        assert '/' !in registry by {
          if '/' in registry {
            var i :| 0 <= i < |registry| && registry[i] == '/';
            assert OccursAt(registry, "/", i);
          }
        }
        Ok((registry, repo))
  }

  /** A registry without "/" and any repository name come back out of `get_repo` unchanged. */
  lemma GetRepoRoundTrip(registry: string, repo: string)
    requires '/' !in registry
    ensures GetRepo(map["docker-repo" := registry + "/" + repo]) == Ok((registry, repo))
  {
    var url := registry + "/" + repo;
    assert OccursAt(url, "/", |registry|);
    var r := GetRepo(map["docker-repo" := url]);
    var reg2, repo2 := r.value.0, r.value.1;
    FirstSlashUnique(url, registry, repo, reg2, repo2);
  }

  /** A string splits in only one way at a "/" whose left side has none. */
  lemma FirstSlashUnique(url: string, a: string, x: string, b: string, y: string)
    requires '/' !in a && '/' !in b
    requires a + "/" + x == url && b + "/" + y == url
    ensures a == b && x == y
  {
    assert url[|a|] == '/' && url[|b|] == '/';
    assert forall i :: 0 <= i < |a| ==> url[i] == a[i];
    assert forall i :: 0 <= i < |b| ==> url[i] == b[i];
    assert a == url[..|a|] && b == url[..|b|];
    assert x == url[|a| + 1..] && y == url[|b| + 1..];
  }

  /** Posix `os.path.join(a, b)`. */
  function PathJoin(a: string, b: string): (r: string)
    ensures StartsWith(b, "/") ==> r == b
    ensures !StartsWith(b, "/") && StartsWith(a, "/") ==> StartsWith(r, "/")
    ensures EndsWith(r, b)
  {
    if StartsWith(b, "/") then b
    else if a == "" || EndsWith(a, "/") then a + b
    else a + "/" + b
  }

  /** Posix `os.path.dirname(p)`: everything before the last "/", trailing slashes dropped unless it is all slashes. */
  function Dirname(p: string): (r: string)
    ensures |r| <= |p|
    ensures var i := LastSlashEnd(p, |p|);
      // p[..i] is everything up to and including the last "/", or nothing when there is none
      && (i > 0 ==> p[i - 1] == '/') && (forall k :: i <= k < |p| ==> p[k] != '/')
      // the result is that part with only slashes dropped from its end
      && r <= p[..i] && (forall k :: |r| <= k < i ==> p[k] == '/')
      // all of them, unless it is nothing but slashes, which are kept
      && (if forall k :: 0 <= k < i ==> p[k] == '/' then r == p[..i] else r != [] && r[|r| - 1] != '/')
  {
    var head := p[..LastSlashEnd(p, |p|)];
    var stripped := StripTrailingSlashes(head);
    if stripped == [] then head else stripped
  }

  /** One past the last "/" in `p[..n]`, or 0. */
  function LastSlashEnd(p: string, n: nat): (i: nat)
    requires n <= |p|
    ensures i <= n
    ensures i > 0 ==> p[i - 1] == '/'
    ensures forall k :: i <= k < n ==> p[k] != '/'
  {
    if n == 0 then 0 else if p[n - 1] == '/' then n else LastSlashEnd(p, n - 1)
  }

  function StripTrailingSlashes(s: string): (r: string)
    ensures r <= s
    ensures r == [] || r[|r| - 1] != '/'
    ensures forall k :: |r| <= k < |s| ==> s[k] == '/'
  {
    if s != [] && s[|s| - 1] == '/' then StripTrailingSlashes(s[..|s| - 1]) else s
  }

  /**
   * `get_workdir(conf, base)`: the configured `workdir`, or `base` when it
   * is missing or empty, taken relative to `base` unless it is absolute.
   */
  function GetWorkdir(conf: map<string, string>, base: string): (r: string)
    ensures "workdir" in conf && StartsWith(conf["workdir"], "/") ==> r == conf["workdir"]
    ensures "workdir" in conf && conf["workdir"] != "" && !StartsWith(conf["workdir"], "/") ==> r == PathJoin(base, conf["workdir"])
    ensures StartsWith(base, "/") && ("workdir" !in conf || conf["workdir"] == "") ==> r == base
    ensures StartsWith(base, "/") ==> StartsWith(r, "/")
  {
    var configured := if "workdir" in conf then Some(conf["workdir"]) else None;
    var workdir := OrElse(configured, base);
    if !StartsWith(workdir, "/") then PathJoin(base, workdir) else workdir
  }
}
