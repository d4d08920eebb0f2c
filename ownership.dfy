/**
 * The ownership check at the end of `yaml` in forge/cli.py: every service
 * lists the Kubernetes resources its manifests define; the first service to
 * list a resource owns it, and every later listing of it is a conflict.
 */
module Ownership {
  import opened Common
  import opened Workstream
  import opened FanIn

  /** One service's manifests as the resources stage reports them. */
  datatype Listing = Listing(service: string, dir: string, resources: seq<string>)

  /** A resource listed by a service. */
  datatype Claim = Claim(resource: string, service: string)

  /** A resource listed again: the resource, its owner, and the later claimant. */
  datatype Conflict = Conflict(resource: string, owner: string, claimant: string)

  /** The claims of one listing, in the order its resources were listed. */
  function ClaimsOf(l: Listing): (cs: seq<Claim>)
    ensures |cs| == |l.resources|
    ensures forall i :: 0 <= i < |cs| ==> cs[i] == Claim(l.resources[i], l.service)
  {
    seq(|l.resources|, i requires 0 <= i < |l.resources| => Claim(l.resources[i], l.service))
  }

  /** All claims in processing order: listing by listing, resource by resource. */
  function Claims(ls: seq<Listing>): seq<Claim> {
    if ls == [] then [] else Claims(ls[..|ls| - 1]) + ClaimsOf(ls[|ls| - 1])
  }

  /** Reference definition: the owner of `res` is the service of its first claim. */
  function OwnerOf(cs: seq<Claim>, res: string): (o: Option<string>)
    ensures o.None? <==> forall i :: 0 <= i < |cs| ==> cs[i].resource != res
    ensures o.Some? ==> Claim(res, o.value) in cs
  {
    if cs == [] then None
    else if cs[0].resource == res then Some(cs[0].service)
    else OwnerOf(cs[1..], res)
  }

  /** The owner map as the loop builds it: a resource is entered on its first claim and never again. */
  function Owners(cs: seq<Claim>): map<string, string> {
    if cs == [] then map[]
    else
      var m := Owners(cs[..|cs| - 1]);
      var c := cs[|cs| - 1];
      if c.resource in m then m else m[c.resource := c.service]
  }

  /** The conflicts as the loop appends them, in processing order. */
  function Conflicts(cs: seq<Claim>): seq<Conflict> {
    if cs == [] then []
    else
      var m := Owners(cs[..|cs| - 1]);
      var c := cs[|cs| - 1];
      Conflicts(cs[..|cs| - 1]) + (if c.resource in m then [Conflict(c.resource, m[c.resource], c.service)] else [])
  }

  /** The message of the CLIError `yaml` raises for its conflicts. */
  function ConflictMessage(conflicts: seq<Conflict>): string {
    "conflicts: " + Join(", ", seq(|conflicts|, i requires 0 <= i < |conflicts| =>
                                     conflicts[i].resource + " defined by " + conflicts[i].owner + " and " + conflicts[i].claimant))
  }

  lemma SnocPrefix<T>(s: seq<T>, x: T)
    ensures (s + [x])[..|s + [x]| - 1] == s && (s + [x])[|s + [x]| - 1] == x
  {
  }

  /** Claiming one more resource: an existing owner stays, otherwise the claimant becomes the owner. */
  lemma {:induction false} OwnerOfSnoc(cs: seq<Claim>, c: Claim, res: string)
    ensures OwnerOf(cs + [c], res) ==
            (if OwnerOf(cs, res).Some? then OwnerOf(cs, res) else if c.resource == res then Some(c.service) else None)
  {
    if cs != [] {
      assert (cs + [c])[1..] == cs[1..] + [c];
      OwnerOfSnoc(cs[1..], c, res);
    }
  }

  /** The owner map the loop builds holds exactly the first claimant of every claimed resource. */
  lemma {:induction false} OwnersAreFirstClaimants(cs: seq<Claim>, res: string)
    ensures res in Owners(cs) <==> OwnerOf(cs, res).Some?
    ensures res in Owners(cs) ==> Owners(cs)[res] == OwnerOf(cs, res).value
  {
    if cs != [] {
      var p, c := cs[..|cs| - 1], cs[|cs| - 1];
      assert cs == p + [c];
      OwnersAreFirstClaimants(p, res);
      OwnerOfSnoc(p, c, res);
    }
  }

  /** Once a resource has an owner, later claims never change it. */
  lemma {:induction false} OwnerIsStable(cs: seq<Claim>, more: seq<Claim>, res: string)
    requires OwnerOf(cs, res).Some?
    ensures OwnerOf(cs + more, res) == OwnerOf(cs, res)
  {
    if cs[0].resource != res {
      assert (cs + more)[1..] == cs[1..] + more;
      OwnerIsStable(cs[1..], more, res);
    }
  }

  /** Every conflict names a later claim of its resource and that resource's first claimant as the owner. */
  lemma {:induction false} ConflictsNameTheOwner(cs: seq<Claim>, x: Conflict)
    requires x in Conflicts(cs)
    ensures Claim(x.resource, x.claimant) in cs
    ensures OwnerOf(cs, x.resource) == Some(x.owner)
  {
    var p, c := cs[..|cs| - 1], cs[|cs| - 1];
    assert cs == p + [c];
    if x in Conflicts(p) {
      ConflictsNameTheOwner(p, x);
      OwnerIsStable(p, [c], x.resource);
    } else {
      OwnersAreFirstClaimants(p, c.resource);
      OwnerOfSnoc(p, c, c.resource);
    }
  }

  /** Every claim either makes an owner or makes a conflict. */
  lemma {:induction false} ConflictCount(cs: seq<Claim>)
    ensures |Conflicts(cs)| + |Owners(cs)| == |cs|
  {
    if cs != [] {
      var p, c := cs[..|cs| - 1], cs[|cs| - 1];
      ConflictCount(p);
      var m := Owners(p);
      if c.resource !in m {
        assert m[c.resource := c.service].Keys == m.Keys + {c.resource};
      }
    }
  }

  /** There is no conflict exactly when no resource is claimed twice, within one service or across two. */
  lemma {:induction false} NoConflictsIffDistinct(cs: seq<Claim>)
    ensures Conflicts(cs) == [] <==> forall i, j :: 0 <= i < j < |cs| ==> cs[i].resource != cs[j].resource
  {
    if cs != [] {
      var p, c := cs[..|cs| - 1], cs[|cs| - 1];
      NoConflictsIffDistinct(p);
      OwnersAreFirstClaimants(p, c.resource);
      if c.resource in Owners(p) {
        var i :| 0 <= i < |p| && p[i].resource == c.resource;
        assert cs[i].resource == cs[|cs| - 1].resource;
      }
    }
  }

  predicate AllItems<T>(ys: seq<Yielded<T>>) {
    forall k :: 0 <= k < |ys| ==> ys[k].Item?
  }

  function Values<T>(ys: seq<Yielded<T>>): (vs: seq<T>)
    requires AllItems(ys)
    ensures |vs| == |ys| && forall k :: 0 <= k < |ys| ==> vs[k] == ys[k].value
  {
    seq(|ys|, k requires 0 <= k < |ys| && ys[k].Item? => ys[k].value)
  }

  function Dirs(ls: seq<Listing>): (ds: seq<string>)
    ensures |ds| == |ls| && forall k :: 0 <= k < |ls| ==> ds[k] == ls[k].dir
  {
    seq(|ls|, k requires 0 <= k < |ls| => ls[k].dir)
  }

  lemma ClaimsSnoc(ls: seq<Listing>, l: Listing)
    ensures Claims(ls + [l]) == Claims(ls) + ClaimsOf(l)
  {
    SnocPrefix(ls, l);
  }

  lemma ValuesSnoc(ys: seq<Yielded<Listing>>, k: nat)
    requires k < |ys| && AllItems(ys[..k]) && ys[k].Item?
    ensures AllItems(ys[..k + 1]) && Values(ys[..k + 1]) == Values(ys[..k]) + [ys[k].value]
  {
    assert ys[..k + 1] == ys[..k] + [ys[k]];
  }

  /** The inner loop of `yaml`: enter one listing's resources into the owner map and the conflict list. */
  method Enter(owners: map<string, string>, conflicts: seq<Conflict>, ghost before: seq<Claim>, l: Listing)
    returns (owners': map<string, string>, conflicts': seq<Conflict>)
    requires owners == Owners(before) && conflicts == Conflicts(before)
    ensures owners' == Owners(before + ClaimsOf(l)) && conflicts' == Conflicts(before + ClaimsOf(l))
  {
    owners', conflicts' := owners, conflicts;
    assert before + ClaimsOf(l)[..0] == before;
    for j := 0 to |l.resources|
      invariant owners' == Owners(before + ClaimsOf(l)[..j])
      invariant conflicts' == Conflicts(before + ClaimsOf(l)[..j])
    {
      var res := l.resources[j];
      ghost var prefix := before + ClaimsOf(l)[..j];
      assert before + ClaimsOf(l)[..j + 1] == prefix + [Claim(res, l.service)];
      SnocPrefix(prefix, Claim(res, l.service));
      if res in owners' {
        conflicts' := conflicts' + [Conflict(res, owners'[res], l.service)];
      } else {
        owners' := owners'[res := l.service];
      }
    }
    assert ClaimsOf(l)[..|l.resources|] == ClaimsOf(l);
  }

  /**
   * The outcome of the loop of `yaml` over what the resources stage yields,
   * then the stage's own failure, then the conflict check. A CLIError passed
   * along as a value cannot be unpacked into three names and raises
   * ValueError as soon as the loop reaches it.
   */
  function Tallied(ys: seq<Yielded<Listing>>, failure: Option<Exc>): (r: Result<seq<string>, Exc>)
    ensures !AllItems(ys) ==> r == Err(Foreign("ValueError"))
    ensures AllItems(ys) && failure.Some? ==> r == Err(failure.value)
    ensures AllItems(ys) && failure.None? && Conflicts(Claims(Values(ys))) != [] ==>
              r == Err(CLIError(ConflictMessage(Conflicts(Claims(Values(ys))))))
    ensures AllItems(ys) && failure.None? && Conflicts(Claims(Values(ys))) == [] ==> r == Ok(Dirs(Values(ys)))
  {
    if !AllItems(ys) then Err(Foreign("ValueError"))
    else if failure.Some? then Err(failure.value)
    else
      var conflicts := Conflicts(Claims(Values(ys)));
      if conflicts != [] then Err(CLIError(ConflictMessage(conflicts))) else Ok(Dirs(Values(ys)))
  }

  /** The loop of `yaml`: walk the listings, keeping the owner map, the conflicts and the directories. */
  method Tally(ys: seq<Yielded<Listing>>, failure: Option<Exc>) returns (r: Result<seq<string>, Exc>)
    ensures r == Tallied(ys, failure)
  {
    var owners: map<string, string> := map[];
    var conflicts: seq<Conflict> := [];
    var dirs: seq<string> := [];
    ghost var done: seq<Listing> := [];
    for k := 0 to |ys|
      invariant AllItems(ys[..k]) && done == Values(ys[..k])
      invariant owners == Owners(Claims(done)) && conflicts == Conflicts(Claims(done))
      invariant dirs == Dirs(done)
    {
      match ys[k] {
        case ErrorItem(_) =>
          assert !AllItems(ys) by { assert !ys[k].Item?; }
          return Err(Foreign("ValueError"));
        case Item(l) =>
          owners, conflicts := Enter(owners, conflicts, Claims(done), l);
          ClaimsSnoc(done, l);
          ValuesSnoc(ys, k);
          done := done + [l];
          dirs := dirs + [l.dir];
      }
    }
    assert ys[..|ys|] == ys;
    if failure.Some? {
      return Err(failure.value);
    }
    if conflicts != [] {
      return Err(CLIError(ConflictMessage(conflicts)));
    }
    return Ok(dirs);
  }
}
