/**
 * The registry client of forge/cli.py as pure functions over an HTTP
 * oracle: the token handshake of `dr` (the Docker Registry HTTP API v2
 * bearer-token flow) and the classification of a manifest response in
 * `pushed`.
 */
module Registry {
  import opened Common
  import opened Workstream

  /**
   * What `get` gives for the n-th request issued by this process: a response,
   * or the exception `get` raises (an unexpected status among them).
   */
  type Http = (nat, Request) -> Result<Response, Exc>

  /** The first GET of `dr`: basic auth, 401 tolerated on top of `expected`, not displayed. */
  function FirstRequest(url: string, expected: seq<int>, user: string, password: string): Request {
    Request(url, Some((user, password)), None, Some(expected + [401]), Some(false))
  }

  /** The token GET of `dr`: basic auth against the realm, not displayed. */
  function TokenRequest(tokenUrl: string, user: string, password: string): Request {
    Request(tokenUrl, Some((user, password)), None, None, Some(false))
  }

  /** The retry of `dr`: the bearer token instead of basic auth, and only the caller's `expected`. */
  function RetryRequest(url: string, expected: seq<int>, token: string): Request {
    Request(url, None, Some("Bearer " + token), Some(expected), None)
  }

  /** The response asks for a token. */
  predicate Challenged(r: Result<Response, Exc>) {
    r.Ok? && r.value.status == 401
  }

  /** The challenge with a leading "Bearer " removed, when there is one. */
  function StripBearer(challenge: string): (r: string)
    ensures StartsWith(challenge, "Bearer ") ==> "Bearer " + r == challenge
    ensures !StartsWith(challenge, "Bearer ") ==> r == challenge
  {
    if StartsWith(challenge, "Bearer ") then
      assert challenge == challenge[..7] + challenge[7..];
      challenge[7..]
    else challenge
  }

  /** `"{realm}?service={service}&scope={scope}".format(**opts)`; `None` is the KeyError of a missing key. */
  function TokenUrl(opts: map<string, string>): (r: Option<string>)
    ensures r.Some? <==> "realm" in opts && "service" in opts && "scope" in opts
    ensures r.Some? ==> r.value == opts["realm"] + "?service=" + opts["service"] + "&scope=" + opts["scope"]
  {
    if "realm" in opts && "service" in opts && "scope" in opts then
      Some(opts["realm"] + "?service=" + opts["service"] + "&scope=" + opts["scope"])
    else None
  }

  /** `.json()['token']` of the token response: ValueError when it is not JSON, KeyError without a token. */
  function TokenOf(r: Response): (t: Result<string, Exc>)
    ensures t.Ok? <==> r.body.Some? && r.body.value.token.Some?
    ensures t.Ok? ==> t.value == r.body.value.token.value
  {
    if r.body.None? then Err(Foreign("ValueError"))
    else if r.body.value.token.None? then Err(Foreign("KeyError"))
    else Ok(r.body.value.token.value)
  }

  /**
   * `dr(url, expected, user, password)` issued when `at` requests have gone
   * before it: the requests it sends, in order, and what it returns or raises.
   * `params` stands for parsing the challenge into its key=value pairs.
   */
  function Handshake(http: Http, params: string -> map<string, string>, at: nat,
                     url: string, expected: seq<int>, user: string, password: string): (h: (seq<Request>, Result<Response, Exc>))
    ensures 1 <= |h.0| <= 3 && h.0[0] == FirstRequest(url, expected, user, password)
    ensures !Challenged(http(at, h.0[0])) ==> h == ([h.0[0]], http(at, h.0[0]))
    ensures Challenged(http(at, h.0[0])) && http(at, h.0[0]).value.challenge.None? ==> h == ([h.0[0]], Err(Foreign("KeyError")))
    ensures |h.0| >= 2 ==> Challenged(http(at, h.0[0])) && h.0[1].auth == Some((user, password)) && h.0[1].authorization.None?
    ensures |h.0| == 2 ==> h.1.Err?
    ensures |h.0| == 3 ==>
              && Challenged(http(at, h.0[0])) && http(at + 1, h.0[1]).Ok?
              && TokenOf(http(at + 1, h.0[1]).value).Ok?
              && h.0[2] == RetryRequest(url, expected, TokenOf(http(at + 1, h.0[1]).value).value)
              && h == (h.0, http(at + 2, h.0[2]))
    ensures forall i :: 0 <= i < |h.0| ==> (h.0[i].auth.Some? <==> h.0[i].authorization.None?) && (h.0[i].authorization.Some? <==> i == 2)
    ensures 401 !in expected ==> 401 in h.0[0].expected.value && (|h.0| == 3 ==> h.0[2].url == url && 401 !in h.0[2].expected.value)
    // A bearer challenge is followed: the token GET goes to the realm it names, with basic auth.
    ensures var first := http(at, h.0[0]);
            Challenged(first) && first.value.challenge.Some? ==>
              match TokenUrl(params(StripBearer(first.value.challenge.value)))
              case None => h == ([h.0[0]], Err(Foreign("KeyError")))
              case Some(tokenUrl) => |h.0| >= 2 && h.0[1] == TokenRequest(tokenUrl, user, password)
    // The token answer decides the rest: its exception or missing token is raised, a token is retried.
    ensures |h.0| >= 2 ==>
              var answer := http(at + 1, h.0[1]);
              && (answer.Err? ==> |h.0| == 2 && h.1 == Err(answer.error))
              && (answer.Ok? && TokenOf(answer.value).Err? ==> |h.0| == 2 && h.1 == Err(TokenOf(answer.value).error))
              && (answer.Ok? && TokenOf(answer.value).Ok? ==> |h.0| == 3)
  {
    var first := FirstRequest(url, expected, user, password);
    var response := http(at, first);
    if !Challenged(response) then ([first], response)
    else if response.value.challenge.None? then ([first], Err(Foreign("KeyError")))
    else
      match TokenUrl(params(StripBearer(response.value.challenge.value)))
      case None => ([first], Err(Foreign("KeyError")))
      case Some(tokenUrl) =>
        var ask := TokenRequest(tokenUrl, user, password);
        var answer := http(at + 1, ask);
        if answer.Err? then ([first, ask], Err(answer.error))
        else
          match TokenOf(answer.value)
          case Err(e) => ([first, ask], Err(e))
          case Ok(token) =>
            var retry := RetryRequest(url, expected, token);
            ([first, ask, retry], http(at + 2, retry))
  }

  /** `get` answers 401 only to a request that lists 401 among its expected statuses; otherwise it raises. */
  ghost predicate RaisesUnexpected401(http: Http) {
    forall n, q :: Challenged(http(n, q)) ==> q.expected.Some? && 401 in q.expected.value
  }

  /**
   * When the caller does not expect 401 itself, `dr` never hands back the
   * 401 that asked for a token: what it returns is either an answer that is
   * not a challenge, or an exception.
   */
  lemma HandshakeNeverReturnsChallenge(http: Http, params: string -> map<string, string>, at: nat,
                                       url: string, expected: seq<int>, user: string, password: string)
    requires RaisesUnexpected401(http) && 401 !in expected
    ensures !Challenged(Handshake(http, params, at, url, expected, user, password).1)
  {
    var h := Handshake(http, params, at, url, expected, user, password);
    if |h.0| == 3 {
      assert h.1 == http(at + 2, h.0[2]) && h.0[2].expected == Some(expected);
    }
  }

  /** The body has a non-empty `errors` list whose first entry has no `code`: indexing it raises KeyError. */
  predicate FirstCodeMissing(b: Body) {
    b.errors.Some? && |b.errors.value| > 0 && b.errors.value[0].None?
  }

  /**
   * How `pushed` reads a manifest response: present when the body has both
   * `signatures` and `fsLayers`, absent when its first error code is
   * MANIFEST_UNKNOWN, a ValueError when it is not JSON, a KeyError when the
   * first error has no code, and a CLIError carrying the raw content otherwise.
   */
  function Classify(r: Response): (c: Result<bool, Exc>)
    ensures c == Ok(true) <==> r.body.Some? && r.body.value.signatures && r.body.value.fsLayers
    ensures c == Ok(false) <==>
              && r.body.Some? && !(r.body.value.signatures && r.body.value.fsLayers)
              && r.body.value.errors.Some? && |r.body.value.errors.value| > 0
              && r.body.value.errors.value[0] == Some("MANIFEST_UNKNOWN")
    ensures r.body.None? ==> c == Err(Foreign("ValueError"))
    ensures c.Err? && c.error.CLIError? ==> c.error.message == r.content
    ensures r.body.Some? && !(r.body.value.signatures && r.body.value.fsLayers) && FirstCodeMissing(r.body.value) ==>
              c == Err(Foreign("KeyError"))
    ensures r.body.Some? && !FirstCodeMissing(r.body.value) && !c.Ok? ==> c == Err(CLIError(r.content))
  {
    if r.body.None? then Err(Foreign("ValueError"))
    else
      var b := r.body.value;
      if b.signatures && b.fsLayers then Ok(true)
      else if b.errors.Some? && |b.errors.value| > 0 then
        if b.errors.value[0].None? then Err(Foreign("KeyError"))
        else if b.errors.value[0] == Some("MANIFEST_UNKNOWN") then Ok(false)
        else Err(CLIError(r.content))
      else Err(CLIError(r.content))
  }

  /** The manifest URL `pushed` queries. */
  function ManifestUrl(registry: string, repo: string, name: string, version: string): string {
    "https://" + registry + "/v2/" + repo + "/" + name + "/manifests/" + version
  }
}
