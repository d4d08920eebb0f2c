/**
 * The tree of task results kept by the executor (forge/executor.py, class
 * `Result`), as pure functions over an arena.
 *
 * Every `Result` object is a node numbered by creation order. Its links
 * (`parent`, `children`) are fixed once the node exists, apart from children
 * being appended; its state (`child_errors`, `value`, `exc_info`,
 * `_recovered`) is what later operations change. A node is created after its
 * parent, so every child has a larger number than its parent: this is what
 * makes the recursive walks terminate.
 */
module Results {
  import opened Common

  /** A task's value: the PENDING and ERROR sentinels, or what its function returned. */
  datatype Value = Pending | Error | Returned(data: string)

  /**
   * The exception value (`exc_info[1]`). `Raised(token)` is an exception
   * object raised by a task's function, the token standing for its identity;
   * `ChildError(parent, args)` is the executor's own ChildError, with the
   * positional arguments given after `parent`.
   */
  datatype Exception = Raised(token: nat) | ChildError(parent: nat, args: seq<seq<nat>>)

  datatype Link = Link(parent: Option<nat>, children: seq<nat>)

  datatype State = State(childErrors: nat, value: Value, exception: Option<Exception>, recovered: bool)

  /** The state of a freshly constructed Result. */
  const Fresh: State := State(0, Pending, None, false)

  /** The message ChildError.__init__ builds: the number of arguments after `parent`. */
  function ChildErrorMessage(e: Exception): string
    requires e.ChildError?
  {
    NatToString(|e.args|) + " child task(s) errored"
  }

  // ---------------------------------------------------------------------
  // Shape of the arena

  ghost predicate LinkOk(links: seq<Link>, i: nat)
    requires i < |links|
  {
    var l := links[i];
    && (forall k :: 0 <= k < |l.children| ==> i < l.children[k] < |links| && links[l.children[k]].parent == Some(i))
    && (forall k, m :: 0 <= k < m < |l.children| ==> l.children[k] != l.children[m])
    && (l.parent.Some? ==> l.parent.value < i && i in links[l.parent.value].children)
  }

  /** Parent and child links agree, children are listed once and numbered after their parent. */
  ghost predicate Shaped(links: seq<Link>) {
    forall i :: 0 <= i < |links| ==> LinkOk(links, i)
  }

  /** The children of `i`, with what the shape guarantees about them. */
  function Children(links: seq<Link>, i: nat): (cs: seq<nat>)
    requires Shaped(links) && i < |links|
    ensures cs == links[i].children
    ensures forall k :: 0 <= k < |cs| ==> i < cs[k] < |links| && links[cs[k]].parent == Some(i)
    ensures forall k, m :: 0 <= k < m < |cs| ==> cs[k] != cs[m]
  {
    assert LinkOk(links, i);
    links[i].children
  }

  /** The parent of a node that has one: numbered before it. */
  function ParentOf(links: seq<Link>, i: nat): (p: nat)
    requires Shaped(links) && i < |links| && links[i].parent.Some?
    ensures p == links[i].parent.value && p < i
  {
    assert LinkOk(links, i);
    links[i].parent.value
  }

  ghost predicate Forest(links: seq<Link>, states: seq<State>) {
    |links| == |states| && Shaped(links)
  }

  /** The number of listed children whose exception has been set. */
  function ErroredCount(states: seq<State>, cs: seq<nat>): nat
    requires forall k :: 0 <= k < |cs| ==> cs[k] < |states|
  {
    if cs == [] then 0
    else (if states[cs[0]].exception.Some? then 1 else 0) + ErroredCount(states, cs[1..])
  }

  /**
   * The invariant the executor keeps: a node holds an exception exactly when
   * its value is ERROR, and `child_errors` counts the children whose
   * exception has been set (the setter bumps the parent once per assignment).
   */
  ghost predicate Valid(links: seq<Link>, states: seq<State>) {
    && Forest(links, states)
    && (forall i :: 0 <= i < |states| ==> (states[i].exception.Some? <==> states[i].value == Error))
    && (forall i :: 0 <= i < |states| ==> CountOk(links, states, i))
  }

  ghost predicate CountOk(links: seq<Link>, states: seq<State>, i: nat)
    requires Forest(links, states) && i < |links|
  {
    assert LinkOk(links, i);
    states[i].childErrors == ErroredCount(states, links[i].children)
  }

  // ---------------------------------------------------------------------
  // traversal

  /** `Result.traversal`: the node itself, then each child's traversal in `children` order. */
  function Traversal(links: seq<Link>, i: nat): (t: seq<nat>)
    requires Shaped(links) && i < |links|
    ensures |t| >= 1 && t[0] == i
    ensures forall k :: 1 <= k < |t| ==> i < t[k] < |links|
    ensures forall j :: j in t ==> i <= j < |links|
    decreases |links| - i, 1, 0
  {
    assert LinkOk(links, i);
    [i] + Descendants(links, i, links[i].children)
  }

  /** The traversals of the children `cs` of `p`, one after another. */
  function Descendants(links: seq<Link>, p: nat, cs: seq<nat>): (t: seq<nat>)
    requires Shaped(links) && p < |links|
    requires forall k :: 0 <= k < |cs| ==> p < cs[k] < |links|
    ensures forall k :: 0 <= k < |t| ==> p < t[k] < |links|
    ensures forall j :: j in t ==> p < j < |links|
    decreases |links| - p, 0, |cs|
  {
    if cs == [] then [] else Traversal(links, cs[0]) + Descendants(links, p, cs[1..])
  }

  lemma {:induction false} DescendantsMember(links: seq<Link>, p: nat, cs: seq<nat>, j: nat)
    requires Shaped(links) && p < |links|
    requires forall k :: 0 <= k < |cs| ==> p < cs[k] < |links|
    ensures j in Descendants(links, p, cs) <==> exists k :: 0 <= k < |cs| && j in Traversal(links, cs[k])
    decreases |cs|
  {
    if cs != [] {
      DescendantsMember(links, p, cs[1..], j);
      if j in Descendants(links, p, cs[1..]) {
        var k :| 0 <= k < |cs[1..]| && j in Traversal(links, cs[1..][k]);
        assert j in Traversal(links, cs[k + 1]);
      }
      if exists k :: 0 <= k < |cs| && j in Traversal(links, cs[k]) {
        var k :| 0 <= k < |cs| && j in Traversal(links, cs[k]);
        if k > 0 {
          assert cs[1..][k - 1] == cs[k];
        }
      }
    }
  }

  /** A node of a traversal other than its root lies in the traversal of one of the root's children. */
  lemma TraversalMember(links: seq<Link>, i: nat, j: nat)
    requires Shaped(links) && i < |links|
    ensures j in Traversal(links, i) <==>
              j == i || exists k :: 0 <= k < |Children(links, i)| && j in Traversal(links, Children(links, i)[k])
  {
    var cs := Children(links, i);
    DescendantsMember(links, i, cs, j);
    assert Traversal(links, i) == [i] + Descendants(links, i, cs);
  }

  /** `a` is `j` or an ancestor of `j`, following parent links. */
  ghost predicate AncestorOrSelf(links: seq<Link>, a: nat, j: nat)
    requires j < |links|
    decreases j
  {
    j == a || (links[j].parent.Some? && links[j].parent.value < j && AncestorOrSelf(links, a, links[j].parent.value))
  }

  lemma {:induction false} AncestorIsEarlier(links: seq<Link>, a: nat, j: nat)
    requires j < |links| && AncestorOrSelf(links, a, j)
    ensures a <= j
    decreases j
  {
    if j != a {
      AncestorIsEarlier(links, a, links[j].parent.value);
    }
  }

  lemma {:induction false} AncestorThroughParent(links: seq<Link>, c: nat, i: nat, j: nat)
    requires Shaped(links) && c < |links| && j < |links|
    requires links[c].parent == Some(i) && AncestorOrSelf(links, c, j)
    ensures AncestorOrSelf(links, i, j)
    decreases j
  {
    assert LinkOk(links, c);
    if j != c {
      AncestorThroughParent(links, c, i, links[j].parent.value);
    }
  }

  /** Every node of the traversal of `i` descends from `i`. */
  lemma {:induction false} TraversalDescends(links: seq<Link>, i: nat, j: nat)
    requires Shaped(links) && i < |links| && j in Traversal(links, i)
    ensures AncestorOrSelf(links, i, j)
    decreases |links| - i
  {
    TraversalMember(links, i, j);
    if j != i {
      assert LinkOk(links, i);
      var k :| 0 <= k < |Children(links, i)| && j in Traversal(links, Children(links, i)[k]);
      var c := Children(links, i)[k];
      TraversalDescends(links, c, j);
      AncestorThroughParent(links, c, i, j);
    }
  }

  /** Two different children of one node have no descendant in common. */
  lemma {:induction false} SiblingsShareNoDescendant(links: seq<Link>, c1: nat, c2: nat, j: nat)
    requires Shaped(links) && c1 < |links| && c2 < |links| && j < |links|
    requires links[c1].parent.Some? && links[c1].parent == links[c2].parent
    requires AncestorOrSelf(links, c1, j) && AncestorOrSelf(links, c2, j)
    ensures c1 == c2
    decreases j
  {
    var p := links[c1].parent.value;
    assert LinkOk(links, c1);
    assert LinkOk(links, c2);
    if j == c1 && j != c2 {
      AncestorIsEarlier(links, c2, p);
    } else if j == c2 && j != c1 {
      AncestorIsEarlier(links, c1, p);
    } else if j != c1 && j != c2 {
      SiblingsShareNoDescendant(links, c1, c2, links[j].parent.value);
    }
  }

  /** The traversals of two different children of one node are disjoint. */
  lemma SiblingTraversalsDisjoint(links: seq<Link>, c1: nat, c2: nat, j: nat)
    requires Shaped(links) && c1 < |links| && c2 < |links|
    requires links[c1].parent.Some? && links[c1].parent == links[c2].parent && c1 != c2
    ensures !(j in Traversal(links, c1) && j in Traversal(links, c2))
  {
    if j in Traversal(links, c1) && j in Traversal(links, c2) {
      TraversalDescends(links, c1, j);
      TraversalDescends(links, c2, j);
      SiblingsShareNoDescendant(links, c1, c2, j);
    }
  }

  /** No node appears twice. */
  predicate Distinct(t: seq<nat>) {
    forall a, b :: 0 <= a < b < |t| ==> t[a] != t[b]
  }

  lemma DistinctConcat(t: seq<nat>, u: seq<nat>)
    requires Distinct(t) && Distinct(u) && forall j :: j in t ==> j !in u
    ensures Distinct(t + u)
  {
    forall a, b | 0 <= a < b < |t + u| ensures (t + u)[a] != (t + u)[b] {
      if a < |t| && |t| <= b {
        assert (t + u)[a] in t && (t + u)[b] in u;
      }
    }
  }

  /** A traversal visits no node twice. */
  lemma {:induction false} TraversalDistinct(links: seq<Link>, i: nat)
    requires Shaped(links) && i < |links|
    ensures Distinct(Traversal(links, i))
    decreases |links| - i, 1, 0
  {
    var cs := Children(links, i);
    DescendantsDistinct(links, i, cs);
    DistinctConcat([i], Descendants(links, i, cs));
  }

  /** The traversals of distinct children, one after another, visit no node twice. */
  lemma {:induction false} DescendantsDistinct(links: seq<Link>, p: nat, cs: seq<nat>)
    requires Shaped(links) && p < |links|
    requires forall k :: 0 <= k < |cs| ==> p < cs[k] < |links| && links[cs[k]].parent == Some(p)
    requires forall k, m :: 0 <= k < m < |cs| ==> cs[k] != cs[m]
    ensures Distinct(Descendants(links, p, cs))
    decreases |links| - p, 0, |cs|
  {
    if cs != [] {
      var t := Traversal(links, cs[0]);
      var d := Descendants(links, p, cs[1..]);
      TraversalDistinct(links, cs[0]);
      DescendantsDistinct(links, p, cs[1..]);
      forall j | j in t ensures j !in d {
        DescendantsMember(links, p, cs[1..], j);
        if j in d {
          var k :| 0 <= k < |cs[1..]| && j in Traversal(links, cs[1..][k]);
          assert cs[1..][k] == cs[k + 1];
          SiblingTraversalsDisjoint(links, cs[0], cs[k + 1], j);
        }
      }
      DistinctConcat(t, d);
    }
  }

  /** The traversal of a child is contained in the traversal of its parent. */
  lemma ChildTraversalInside(links: seq<Link>, i: nat, k: nat, j: nat)
    requires Shaped(links) && i < |links| && k < |Children(links, i)|
    requires j in Traversal(links, Children(links, i)[k])
    ensures j in Traversal(links, i)
  {
    assert LinkOk(links, i);
    TraversalMember(links, i, j);
  }

  /** Traversal membership is transitive: a traversal contains the traversals of its members. */
  lemma {:induction false} TraversalTransitive(links: seq<Link>, i: nat, j: nat, x: nat)
    requires Shaped(links) && i < |links| && j < |links|
    requires j in Traversal(links, i) && x in Traversal(links, j)
    ensures x in Traversal(links, i)
    decreases |links| - i
  {
    TraversalMember(links, i, j);
    if j != i {
      var k :| 0 <= k < |Children(links, i)| && j in Traversal(links, Children(links, i)[k]);
      TraversalTransitive(links, Children(links, i)[k], j, x);
      ChildTraversalInside(links, i, k, x);
    }
  }

  // ---------------------------------------------------------------------
  // Leaf errors

  /**
   * `Result.is_leaf_error`: an ERROR whose exception is not a ChildError and
   * was not simply passed up from one of its children.
   */
  predicate IsLeafError(links: seq<Link>, states: seq<State>, i: nat)
    requires Forest(links, states) && i < |links|
  {
    var s := states[i];
    var cs := Children(links, i);
    && s.value == Error
    && !(s.exception.Some? && s.exception.value.ChildError?)
    && forall k :: 0 <= k < |cs| ==> !(states[cs[k]].value == Error && states[cs[k]].exception == s.exception)
  }

  /** The members of `ts` that are leaf errors, in order. */
  function LeafFilter(links: seq<Link>, states: seq<State>, ts: seq<nat>): (r: seq<nat>)
    requires Forest(links, states)
    requires forall k :: 0 <= k < |ts| ==> ts[k] < |links|
    ensures forall k :: 0 <= k < |r| ==> r[k] < |links|
    ensures forall j :: j in r <==> j in ts && j < |links| && IsLeafError(links, states, j)
    ensures |r| <= |ts|
  {
    if ts == [] then []
    else (if IsLeafError(links, states, ts[0]) then [ts[0]] else []) + LeafFilter(links, states, ts[1..])
  }

  /** `Result.leaf_errors`: the traversal without the node itself, filtered by `is_leaf_error`. */
  function LeafErrors(links: seq<Link>, states: seq<State>, i: nat): (r: seq<nat>)
    requires Forest(links, states) && i < |links|
    ensures forall k :: 0 <= k < |r| ==> i < r[k] < |links|
  {
    var ts := Traversal(links, i)[1..];
    var r := LeafFilter(links, states, ts);
    assert forall k :: 0 <= k < |r| ==> r[k] in ts;
    r
  }

  /** `Result.errors`: the same filter over the whole traversal. */
  function Errors(links: seq<Link>, states: seq<State>, i: nat): seq<nat>
    requires Forest(links, states) && i < |links|
  {
    LeafFilter(links, states, Traversal(links, i))
  }

  /** `errors` is `leaf_errors` with the node itself in front when it is a leaf error. */
  lemma ErrorsAddSelf(links: seq<Link>, states: seq<State>, i: nat)
    requires Forest(links, states) && i < |links|
    ensures Errors(links, states, i) == (if IsLeafError(links, states, i) then [i] else []) + LeafErrors(links, states, i)
  {
    var t := Traversal(links, i);
    assert t == [t[0]] + t[1..];
  }

  /** The members of `es` whose `_recovered` flag is still clear (the list `wait` builds). */
  function Unrecovered(states: seq<State>, es: seq<nat>): (r: seq<nat>)
    requires forall k :: 0 <= k < |es| ==> es[k] < |states|
    ensures r == [] <==> forall k :: 0 <= k < |es| ==> states[es[k]].recovered
  {
    if es == [] then []
    else (if states[es[0]].recovered then [] else [es[0]]) + Unrecovered(states, es[1..])
  }

  /** `is_leaf_error` reads only the node and its children, and only their value and exception. */
  lemma LeafErrorLocal(links: seq<Link>, s: seq<State>, r: seq<State>, t: nat)
    requires Forest(links, s) && |r| == |s| && t < |links|
    requires r[t].value == s[t].value && r[t].exception == s[t].exception
    requires forall k :: 0 <= k < |Children(links, t)| ==>
               r[Children(links, t)[k]].value == s[Children(links, t)[k]].value &&
               r[Children(links, t)[k]].exception == s[Children(links, t)[k]].exception
    ensures IsLeafError(links, s, t) == IsLeafError(links, r, t)
  {
  }

  lemma {:induction false} LeafFilterAgree(links: seq<Link>, s: seq<State>, r: seq<State>, ts: seq<nat>)
    requires Forest(links, s) && |r| == |s|
    requires forall k :: 0 <= k < |ts| ==> ts[k] < |links| && IsLeafError(links, s, ts[k]) == IsLeafError(links, r, ts[k])
    ensures LeafFilter(links, s, ts) == LeafFilter(links, r, ts)
  {
    if ts != [] {
      LeafFilterAgree(links, s, r, ts[1..]);
    }
  }

  lemma {:induction false} UnrecoveredAgree(s: seq<State>, r: seq<State>, es: seq<nat>)
    requires |r| == |s|
    requires forall k :: 0 <= k < |es| ==> es[k] < |s| && r[es[k]].recovered == s[es[k]].recovered
    ensures Unrecovered(s, es) == Unrecovered(r, es)
  {
    if es != [] {
      UnrecoveredAgree(s, r, es[1..]);
    }
  }

  /** Changing a node's own value does not change the leaf errors below it. */
  lemma LeafErrorsIgnoreSelf(links: seq<Link>, s: seq<State>, i: nat, v: Value)
    requires Forest(links, s) && i < |links|
    ensures LeafErrors(links, s[i := s[i].(value := v)], i) == LeafErrors(links, s, i)
  {
    var r := s[i := s[i].(value := v)];
    var ts := Traversal(links, i)[1..];
    forall k | 0 <= k < |ts|
      ensures IsLeafError(links, s, ts[k]) == IsLeafError(links, r, ts[k])
    {
      LeafErrorLocal(links, s, r, ts[k]);
    }
    LeafFilterAgree(links, s, r, ts);
  }

  // ---------------------------------------------------------------------
  // How states evolve under wait

  /**
   * One node's state before and after waits: `_recovered` is untouched,
   * `child_errors` only grows, and value and exception either stay or turn
   * from a non-ERROR into ERROR with a ChildError.
   */
  ghost predicate Evolves(a: State, b: State) {
    && b.recovered == a.recovered
    && b.childErrors >= a.childErrors
    && ((b.value == a.value && b.exception == a.exception)
        || (a.value != Error && b.value == Error && b.exception.Some? && b.exception.value.ChildError?))
  }

  ghost predicate EvolvesAll(s: seq<State>, r: seq<State>) {
    |r| == |s| && forall j :: 0 <= j < |s| ==> Evolves(s[j], r[j])
  }

  /** Waiting never creates or removes a leaf error. */
  lemma LeafErrorStable(links: seq<Link>, s: seq<State>, r: seq<State>, t: nat)
    requires Forest(links, s) && EvolvesAll(s, r) && t < |links|
    ensures IsLeafError(links, s, t) == IsLeafError(links, r, t)
  {
    var cs := Children(links, t);
    assert Evolves(s[t], r[t]);
    if IsLeafError(links, s, t) {
      forall k | 0 <= k < |cs|
        ensures !(r[cs[k]].value == Error && r[cs[k]].exception == r[t].exception)
      {
        assert Evolves(s[cs[k]], r[cs[k]]);
      }
    }
    if IsLeafError(links, r, t) {
      forall k | 0 <= k < |cs|
        ensures !(s[cs[k]].value == Error && s[cs[k]].exception == s[t].exception)
      {
        assert Evolves(s[cs[k]], r[cs[k]]);
      }
    }
  }

  lemma LeafErrorsStable(links: seq<Link>, s: seq<State>, r: seq<State>, i: nat)
    requires Forest(links, s) && EvolvesAll(s, r) && i < |links|
    ensures LeafErrors(links, s, i) == LeafErrors(links, r, i)
    ensures Unrecovered(s, LeafErrors(links, s, i)) == Unrecovered(r, LeafErrors(links, r, i))
  {
    var ts := Traversal(links, i)[1..];
    forall k | 0 <= k < |ts|
      ensures IsLeafError(links, s, ts[k]) == IsLeafError(links, r, ts[k])
    {
      LeafErrorStable(links, s, r, ts[k]);
    }
    LeafFilterAgree(links, s, r, ts);
    var es := LeafErrors(links, s, i);
    forall k | 0 <= k < |es| ensures r[es[k]].recovered == s[es[k]].recovered {
      assert Evolves(s[es[k]], r[es[k]]);
    }
    UnrecoveredAgree(s, r, es);
  }

  /** A node `wait` has nothing left to do for: it is ERROR, no child errored, or every leaf error below it is recovered. */
  ghost predicate Settled(links: seq<Link>, states: seq<State>, j: nat)
    requires Forest(links, states) && j < |links|
  {
    !(states[j].childErrors > 0 && states[j].value != Error && Unrecovered(states, LeafErrors(links, states, j)) != [])
  }

  lemma SettledStable(links: seq<Link>, s: seq<State>, r: seq<State>, j: nat)
    requires Forest(links, s) && EvolvesAll(s, r) && j < |links|
    requires r[j] == s[j] && Settled(links, s, j)
    ensures Settled(links, r, j)
  {
    LeafErrorsStable(links, s, r, j);
  }

  // ---------------------------------------------------------------------
  // The exception setter and wait

  /** The `exception` setter: store the exception and add one to the parent's `child_errors`. */
  function SetException(links: seq<Link>, states: seq<State>, i: nat, e: Exception): (r: seq<State>)
    requires Forest(links, states) && i < |links|
    ensures |r| == |states|
    ensures r[i] == states[i].(exception := Some(e))
    ensures forall j :: 0 <= j < |r| && j != i && Some(j) != links[i].parent ==> r[j] == states[j]
    ensures links[i].parent.Some? ==>
              var p := links[i].parent.value;
              p < i && r[p] == states[p].(childErrors := states[p].childErrors + 1)
  {
    assert LinkOk(links, i);
    var stored := states[i := states[i].(exception := Some(e))];
    match links[i].parent
    case None => stored
    case Some(p) => stored[p := stored[p].(childErrors := stored[p].childErrors + 1)]
  }

  /** What `wait` does after waiting on the children: turn unrecovered leaf errors below into a ChildError. */
  function Promote(links: seq<Link>, states: seq<State>, i: nat): (r: seq<State>)
    requires Forest(links, states) && i < |links|
    ensures |r| == |states|
  {
    var s := states[i];
    if s.childErrors > 0 && s.value != Error && Unrecovered(states, LeafErrors(links, states, i)) != [] then
      var marked := states[i := s.(value := Error)];
      SetException(links, marked, i, ChildError(i, [LeafErrors(links, marked, i)]))
    else states
  }

  /** `Result.wait` on the synchronous path: wait on each child in order, then promote. */
  function Wait(links: seq<Link>, states: seq<State>, i: nat): (r: seq<State>)
    requires Forest(links, states) && i < |links|
    ensures |r| == |states|
    decreases |links| - i, 1, 0
  {
    Promote(links, WaitEach(links, states, i, Children(links, i)), i)
  }

  /** `wait` on each of the children `cs` of `p`, in order. */
  function WaitEach(links: seq<Link>, states: seq<State>, p: nat, cs: seq<nat>): (r: seq<State>)
    requires Forest(links, states) && p < |links|
    requires forall k :: 0 <= k < |cs| ==> p < cs[k] < |links|
    ensures |r| == |states|
    decreases |links| - p, 0, |cs|
  {
    if cs == [] then states else WaitEach(links, Wait(links, states, cs[0]), p, cs[1..])
  }

  /** `Result.recover`: the `_recovered` flag set on every node of the traversal. */
  function Recovered(links: seq<Link>, states: seq<State>, i: nat): (r: seq<State>)
    requires Forest(links, states) && i < |links|
  {
    seq(|states|, j requires 0 <= j < |states| => states[j].(recovered := states[j].recovered || j in Traversal(links, i)))
  }

  /** `recover` touches only the recovered flags, so the forest stays valid. */
  lemma RecoveredValid(links: seq<Link>, s: seq<State>, i: nat)
    requires Valid(links, s) && i < |links|
    ensures Valid(links, Recovered(links, s, i))
  {
    var r := Recovered(links, s, i);
    forall q | 0 <= q < |r| ensures CountOk(links, r, q) {
      assert LinkOk(links, q);
      assert CountOk(links, s, q);
      ErroredCountShiftNone(s, r, links[q].children);
    }
  }

  // ---------------------------------------------------------------------
  // What wait does

  lemma PromoteFacts(links: seq<Link>, s: seq<State>, i: nat)
    requires Forest(links, s) && i < |links|
    ensures var r := Promote(links, s, i);
      && EvolvesAll(s, r)
      && (forall j :: 0 <= j < |s| && j != i && Some(j) != links[i].parent ==> r[j] == s[j])
      && (forall j :: 0 <= j < |s| && j != i ==> r[j] == s[j].(childErrors := r[j].childErrors))
      && Settled(links, r, i)
      && (Settled(links, s, i) ==> r == s)
  {
    assert LinkOk(links, i);
  }

  /**
   * `wait` on `i` only moves states forward, touches nothing outside the
   * traversal of `i` except the parent's `child_errors`, and leaves every
   * node of the traversal settled.
   */
  lemma {:induction false} WaitFacts(links: seq<Link>, s: seq<State>, i: nat)
    requires Forest(links, s) && i < |links|
    ensures var r := Wait(links, s, i);
      && EvolvesAll(s, r)
      && (forall j :: 0 <= j < |s| && j !in Traversal(links, i) && Some(j) != links[i].parent ==> r[j] == s[j])
      && (forall j :: 0 <= j < |s| && j !in Traversal(links, i) ==> r[j] == s[j].(childErrors := r[j].childErrors))
      && (forall j :: j in Traversal(links, i) ==> Settled(links, r, j))
    decreases |links| - i, 1, 0
  {
    var cs := Children(links, i);
    var s1 := WaitEach(links, s, i, cs);
    WaitEachFacts(links, s, i, cs);
    PromoteFacts(links, s1, i);
    var r := Wait(links, s, i);
    assert r == Promote(links, s1, i);
    assert Traversal(links, i) == [i] + Descendants(links, i, cs);
    assert LinkOk(links, i);
    WaitCompose(links, s, s1, r, i, Descendants(links, i, cs));
  }

  /** The facts about waiting on the children and about promoting `i` combine into the facts about `wait`. */
  lemma WaitCompose(links: seq<Link>, s: seq<State>, s1: seq<State>, r: seq<State>, i: nat, below: seq<nat>)
    requires Forest(links, s) && i < |links| && Traversal(links, i) == [i] + below
    requires links[i].parent.Some? ==> links[i].parent.value < i
    requires forall j :: j in below ==> i < j < |links|
    requires EvolvesAll(s, s1) && EvolvesAll(s1, r)
    requires forall j :: 0 <= j < |s| && j != i && j !in below ==> s1[j] == s[j]
    requires forall j :: 0 <= j < |s| && j !in below ==> s1[j] == s[j].(childErrors := s1[j].childErrors)
    requires forall j :: j in below ==> Settled(links, s1, j)
    requires forall j :: 0 <= j < |s1| && j != i && Some(j) != links[i].parent ==> r[j] == s1[j]
    requires forall j :: 0 <= j < |s1| && j != i ==> r[j] == s1[j].(childErrors := r[j].childErrors)
    requires Settled(links, r, i)
    ensures EvolvesAll(s, r)
    ensures forall j :: 0 <= j < |s| && j !in Traversal(links, i) && Some(j) != links[i].parent ==> r[j] == s[j]
    ensures forall j :: 0 <= j < |s| && j !in Traversal(links, i) ==> r[j] == s[j].(childErrors := r[j].childErrors)
    ensures forall j :: j in Traversal(links, i) ==> Settled(links, r, j)
  {
    forall j | 0 <= j < |s| ensures Evolves(s[j], r[j]) {
      assert Evolves(s[j], s1[j]) && Evolves(s1[j], r[j]);
    }
    forall j | 0 <= j < |s| && j !in Traversal(links, i)
      ensures r[j] == s[j].(childErrors := r[j].childErrors)
      ensures Some(j) != links[i].parent ==> r[j] == s[j]
    {
      assert j != i && j !in below;
    }
    forall j | j in Traversal(links, i) ensures Settled(links, r, j) {
      if j != i {
        assert j in below;
        PromoteKeepsSettledBelow(links, s1, r, i, j);
      }
    }
  }

  /** Promoting `i` leaves the settled nodes below it settled. */
  lemma PromoteKeepsSettledBelow(links: seq<Link>, s1: seq<State>, r: seq<State>, i: nat, j: nat)
    requires Forest(links, s1) && i < j < |links| && EvolvesAll(s1, r)
    requires forall x :: 0 <= x < |s1| && x != i && Some(x) != links[i].parent ==> r[x] == s1[x]
    requires links[i].parent.Some? ==> links[i].parent.value < i
    requires Settled(links, s1, j)
    ensures Settled(links, r, j)
  {
    SettledStable(links, s1, r, j);
  }

  lemma {:induction false} WaitEachFacts(links: seq<Link>, s: seq<State>, p: nat, cs: seq<nat>)
    requires Forest(links, s) && p < |links|
    requires forall k :: 0 <= k < |cs| ==> p < cs[k] < |links| && links[cs[k]].parent == Some(p)
    requires forall k, m :: 0 <= k < m < |cs| ==> cs[k] != cs[m]
    ensures var r := WaitEach(links, s, p, cs);
      && EvolvesAll(s, r)
      && (forall j :: 0 <= j < |s| && j != p && j !in Descendants(links, p, cs) ==> r[j] == s[j])
      && (forall j :: 0 <= j < |s| && j !in Descendants(links, p, cs) ==> r[j] == s[j].(childErrors := r[j].childErrors))
      && (forall j :: j in Descendants(links, p, cs) ==> Settled(links, r, j))
    decreases |links| - p, 0, |cs|
  {
    if cs != [] {
      var c := cs[0];
      var s1 := Wait(links, s, c);
      WaitFacts(links, s, c);
      WaitEachFacts(links, s1, p, cs[1..]);
      var r := WaitEach(links, s, p, cs);
      assert r == WaitEach(links, s1, p, cs[1..]);
      var rest := Descendants(links, p, cs[1..]);
      assert Descendants(links, p, cs) == Traversal(links, c) + rest;
      forall j | 0 <= j < |s| ensures Evolves(s[j], r[j]) {
        assert Evolves(s[j], s1[j]) && Evolves(s1[j], r[j]);
      }
      forall j | 0 <= j < |s| && j !in Descendants(links, p, cs)
        ensures r[j] == s[j].(childErrors := r[j].childErrors)
        ensures j != p ==> r[j] == s[j]
      {
        assert j !in Traversal(links, c) && j !in rest;
      }
      forall j | j in Traversal(links, c) ensures Settled(links, r, j) {
        LaterSiblingsKeepSettled(links, s1, r, p, c, cs[1..], j);
      }
    }
  }

  /** Waiting on later siblings of `c` leaves the settled nodes of `c`'s traversal settled. */
  lemma LaterSiblingsKeepSettled(links: seq<Link>, s1: seq<State>, r: seq<State>, p: nat, c: nat, later: seq<nat>, j: nat)
    requires Forest(links, s1) && p < c < |links| && links[c].parent == Some(p)
    requires forall k :: 0 <= k < |later| ==> p < later[k] < |links| && links[later[k]].parent == Some(p) && later[k] != c
    requires EvolvesAll(s1, r)
    requires forall x :: 0 <= x < |s1| && x != p && x !in Descendants(links, p, later) ==> r[x] == s1[x]
    requires j in Traversal(links, c) && Settled(links, s1, j)
    ensures Settled(links, r, j)
  {
    assert j !in Descendants(links, p, later) by {
      DescendantsMember(links, p, later, j);
      if j in Descendants(links, p, later) {
        var k :| 0 <= k < |later| && j in Traversal(links, later[k]);
        SiblingTraversalsDisjoint(links, c, later[k], j);
      }
    }
    SettledStable(links, s1, r, j);
  }

  lemma {:induction false} ErroredCountShift(s: seq<State>, r: seq<State>, cs: seq<nat>, i: nat)
    requires |r| == |s| && forall k :: 0 <= k < |cs| ==> cs[k] < |s|
    requires forall k, m :: 0 <= k < m < |cs| ==> cs[k] != cs[m]
    requires forall k :: 0 <= k < |cs| && cs[k] != i ==> (r[cs[k]].exception.Some? <==> s[cs[k]].exception.Some?)
    requires i < |s| && s[i].exception.None? && r[i].exception.Some?
    ensures ErroredCount(r, cs) == ErroredCount(s, cs) + (if i in cs then 1 else 0)
  {
    if cs != [] {
      ErroredCountShift(s, r, cs[1..], i);
    }
  }

  /** Setting ERROR and then an exception on a node that had none (`do_run`, `wait`) keeps the invariant. */
  lemma SetExceptionKeepsValid(links: seq<Link>, s: seq<State>, i: nat, e: Exception)
    requires Valid(links, s) && i < |links| && s[i].exception.None?
    ensures Valid(links, SetException(links, s[i := s[i].(value := Error)], i, e))
  {
    var m := s[i := s[i].(value := Error)];
    var r := SetException(links, m, i, e);
    assert LinkOk(links, i);
    forall q | 0 <= q < |r| ensures CountOk(links, r, q) {
      assert LinkOk(links, q);
      assert CountOk(links, s, q);
      ErroredCountShift(s, r, links[q].children, i);
      assert i in links[q].children <==> links[i].parent == Some(q);
    }
  }

  lemma PromoteValid(links: seq<Link>, s: seq<State>, i: nat)
    requires Valid(links, s) && i < |links|
    ensures Valid(links, Promote(links, s, i))
  {
    if !Settled(links, s, i) {
      var marked := s[i := s[i].(value := Error)];
      SetExceptionKeepsValid(links, s, i, ChildError(i, [LeafErrors(links, marked, i)]));
    }
  }

  /** `wait` keeps the invariant. */
  lemma {:induction false} WaitValid(links: seq<Link>, s: seq<State>, i: nat)
    requires Valid(links, s) && i < |links|
    ensures Valid(links, Wait(links, s, i))
    decreases |links| - i, 1, 0
  {
    WaitEachValid(links, s, i, Children(links, i));
    PromoteValid(links, WaitEach(links, s, i, Children(links, i)), i);
  }

  lemma {:induction false} WaitEachValid(links: seq<Link>, s: seq<State>, p: nat, cs: seq<nat>)
    requires Valid(links, s) && p < |links|
    requires forall k :: 0 <= k < |cs| ==> p < cs[k] < |links|
    ensures Valid(links, WaitEach(links, s, p, cs))
    decreases |links| - p, 0, |cs|
  {
    if cs != [] {
      WaitValid(links, s, cs[0]);
      WaitEachValid(links, Wait(links, s, cs[0]), p, cs[1..]);
    }
  }

  /** `wait` on a traversal that is already settled changes nothing. */
  lemma {:induction false} WaitSettled(links: seq<Link>, s: seq<State>, i: nat)
    requires Forest(links, s) && i < |links|
    requires forall j :: j in Traversal(links, i) ==> Settled(links, s, j)
    ensures Wait(links, s, i) == s
    decreases |links| - i, 1, 0
  {
    var cs := Children(links, i);
    assert Traversal(links, i) == [i] + Descendants(links, i, cs);
    WaitEachSettled(links, s, i, cs);
    PromoteFacts(links, s, i);
  }

  lemma {:induction false} WaitEachSettled(links: seq<Link>, s: seq<State>, p: nat, cs: seq<nat>)
    requires Forest(links, s) && p < |links|
    requires forall k :: 0 <= k < |cs| ==> p < cs[k] < |links|
    requires forall j :: j in Descendants(links, p, cs) ==> Settled(links, s, j)
    ensures WaitEach(links, s, p, cs) == s
    decreases |links| - p, 0, |cs|
  {
    if cs != [] {
      assert Descendants(links, p, cs) == Traversal(links, cs[0]) + Descendants(links, p, cs[1..]);
      WaitSettled(links, s, cs[0]);
      WaitEachSettled(links, s, p, cs[1..]);
    }
  }

  /** Waiting a second time changes nothing. */
  lemma WaitIdempotent(links: seq<Link>, s: seq<State>, i: nat)
    requires Forest(links, s) && i < |links|
    ensures Wait(links, Wait(links, s, i), i) == Wait(links, s, i)
  {
    WaitFacts(links, s, i);
    WaitSettled(links, Wait(links, s, i), i);
  }

  /** Waiting on the children leaves the node's own state alone apart from its count, and keeps its leaf errors. */
  lemma WaitChildrenKeepsSelf(links: seq<Link>, s: seq<State>, i: nat)
    requires Forest(links, s) && i < |links|
    ensures var s1 := WaitEach(links, s, i, Children(links, i));
      && s1[i] == s[i].(childErrors := s1[i].childErrors)
      && s1[i].childErrors >= s[i].childErrors
      && LeafErrors(links, s1, i) == LeafErrors(links, s, i)
      && Unrecovered(s1, LeafErrors(links, s1, i)) == Unrecovered(s, LeafErrors(links, s, i))
  {
    var cs := Children(links, i);
    var s1 := WaitEach(links, s, i, cs);
    WaitEachFacts(links, s, i, cs);
    assert i !in Descendants(links, i, cs);
    assert Evolves(s[i], s1[i]);
    LeafErrorsStable(links, s, s1, i);
  }

  /**
   * `wait` on a node changes its parent only through the exception setter:
   * the parent's `child_errors` grows by one exactly when the wait turned the
   * node into ERROR.
   */
  lemma WaitParent(links: seq<Link>, s: seq<State>, i: nat)
    requires Forest(links, s) && i < |links| && links[i].parent.Some?
    ensures var r := Wait(links, s, i);
      var p := ParentOf(links, i);
      r[p] == s[p].(childErrors := s[p].childErrors + (if s[i].value != Error && r[i].value == Error then 1 else 0))
  {
    var cs := Children(links, i);
    var s1 := WaitEach(links, s, i, cs);
    var p := ParentOf(links, i);
    WaitEachFacts(links, s, i, cs);
    assert s1[p] == s[p] && s1[i].value == s[i].value by {
      assert p !in Descendants(links, i, cs) && i !in Descendants(links, i, cs);
    }
    PromoteParent(links, s1, i);
  }

  /** Promoting touches the parent only through the setter's count. */
  lemma PromoteParent(links: seq<Link>, s: seq<State>, i: nat)
    requires Forest(links, s) && i < |links| && links[i].parent.Some?
    ensures var r := Promote(links, s, i);
      var p := ParentOf(links, i);
      r[p] == s[p].(childErrors := s[p].childErrors + (if s[i].value != Error && r[i].value == Error then 1 else 0))
  {
    assert LinkOk(links, i);
  }

  /**
   * When a child has errored, the node is not ERROR and some leaf error below
   * it is not recovered, `wait` makes the node ERROR with a ChildError that
   * carries the leaf errors below it as one argument, so its message reads
   * "1 child task(s) errored".
   */
  lemma WaitPromotes(links: seq<Link>, s: seq<State>, i: nat)
    requires Forest(links, s) && i < |links|
    requires s[i].childErrors > 0 && s[i].value != Error && Unrecovered(s, LeafErrors(links, s, i)) != []
    ensures var r := Wait(links, s, i);
      && r[i].value == Error
      && r[i].exception == Some(ChildError(i, [LeafErrors(links, s, i)]))
      && ChildErrorMessage(r[i].exception.value) == "1 child task(s) errored"
      && (links[i].parent.Some? ==>
            var p := ParentOf(links, i);
            r[p] == s[p].(childErrors := s[p].childErrors + 1))
  {
    var s1 := WaitEach(links, s, i, Children(links, i));
    WaitChildrenKeepsSelf(links, s, i);
    assert !Settled(links, s1, i);
    var marked := s1[i := s1[i].(value := Error)];
    LeafErrorsIgnoreSelf(links, s1, i, Error);
    var e := ChildError(i, [LeafErrors(links, marked, i)]);
    assert Wait(links, s, i) == SetException(links, marked, i, e);
    OneArgumentMessage(i, LeafErrors(links, s, i));
    if links[i].parent.Some? {
      WaitParent(links, s, i);
    }
  }

  lemma OneArgumentMessage(p: nat, es: seq<nat>)
    ensures ChildErrorMessage(ChildError(p, [es])) == "1 child task(s) errored"
  {
    assert DigitChar(1) == '1';
    assert NatToString(|[es]|) == ['1'];
  }

  /** When every leaf error below the node is recovered, `wait` leaves its value and exception alone. */
  lemma WaitKeepsWhenRecovered(links: seq<Link>, s: seq<State>, i: nat)
    requires Forest(links, s) && i < |links|
    requires Unrecovered(s, LeafErrors(links, s, i)) == []
    ensures Wait(links, s, i)[i].value == s[i].value
    ensures Wait(links, s, i)[i].exception == s[i].exception
  {
    WaitChildrenKeepsSelf(links, s, i);
  }

  lemma {:induction false} ErroredCountPositive(states: seq<State>, cs: seq<nat>, k: nat)
    requires forall m :: 0 <= m < |cs| ==> cs[m] < |states|
    requires k < |cs| && states[cs[k]].exception.Some?
    ensures ErroredCount(states, cs) > 0
  {
    if k > 0 {
      ErroredCountPositive(states, cs[1..], k - 1);
    }
  }

  /** In a valid tree whose traversal is settled, an unrecovered leaf error below a node makes it ERROR. */
  lemma {:induction false} SettledPropagates(links: seq<Link>, r: seq<State>, j: nat)
    requires Valid(links, r) && j < |links|
    requires forall x :: x in Traversal(links, j) ==> Settled(links, r, x)
    requires Unrecovered(r, LeafErrors(links, r, j)) != []
    ensures r[j].value == Error
    decreases |links| - j
  {
    var es := LeafErrors(links, r, j);
    var n :| 0 <= n < |es| && !r[es[n]].recovered;
    var e := es[n];
    var t := Traversal(links, j);
    assert e in t[1..];
    TraversalMember(links, j, e);
    var cs := Children(links, j);
    var k :| 0 <= k < |cs| && e in Traversal(links, cs[k]);
    var c := cs[k];
    if e != c {
      var tc := Traversal(links, c);
      assert e in tc[1..];
      var ec := LeafErrors(links, r, c);
      assert e in ec;
      var m :| 0 <= m < |ec| && ec[m] == e;
      forall x | x in tc ensures Settled(links, r, x) {
        ChildTraversalInside(links, j, k, x);
      }
      SettledPropagates(links, r, c);
    }
    ErroredCountPositive(r, cs, k);
    assert CountOk(links, r, j);
    assert Settled(links, r, j);
  }

  /**
   * After `wait` on `i`, every node of its traversal that had an unrecovered
   * leaf error below it is ERROR: errors reach every ancestor up to `i`.
   */
  lemma WaitPropagates(links: seq<Link>, s: seq<State>, i: nat, j: nat)
    requires Valid(links, s) && i < |links|
    requires j in Traversal(links, i) && Unrecovered(s, LeafErrors(links, s, j)) != []
    ensures Wait(links, s, i)[j].value == Error
  {
    var r := Wait(links, s, i);
    WaitFacts(links, s, i);
    WaitValid(links, s, i);
    LeafErrorsStable(links, s, r, j);
    forall x | x in Traversal(links, j) ensures Settled(links, r, x) {
      TraversalTransitive(links, i, j, x);
    }
    SettledPropagates(links, r, j);
  }

  /** After `recover`, a `wait` leaves the node's value and exception as they were. */
  lemma RecoverThenWait(links: seq<Link>, s: seq<State>, i: nat)
    requires Forest(links, s) && i < |links|
    ensures Wait(links, Recovered(links, s, i), i)[i].value == s[i].value
    ensures Wait(links, Recovered(links, s, i), i)[i].exception == s[i].exception
  {
    var r := Recovered(links, s, i);
    var es := LeafErrors(links, r, i);
    forall k | 0 <= k < |es| ensures r[es[k]].recovered {
      assert es[k] in Traversal(links, i)[1..];
    }
    WaitKeepsWhenRecovered(links, r, i);
  }

  // ---------------------------------------------------------------------
  // Creating results and storing outcomes

  /** The links after `Result(executor, parent)`: a new childless node, appended to its parent's children. */
  function AddLink(links: seq<Link>, parent: Option<nat>): (r: seq<Link>)
    requires parent.Some? ==> parent.value < |links|
    ensures |r| == |links| + 1 && r[|links|] == Link(parent, [])
    ensures forall j :: 0 <= j < |links| ==> r[j].parent == links[j].parent
    ensures forall j :: 0 <= j < |links| && Some(j) != parent ==> r[j] == links[j]
    ensures parent.Some? ==> r[parent.value].children == links[parent.value].children + [|links|]
  {
    match parent
    case None => links + [Link(None, [])]
    case Some(p) => links[p := links[p].(children := links[p].children + [|links|])] + [Link(parent, [])]
  }

  lemma AddLinkShaped(links: seq<Link>, parent: Option<nat>)
    requires Shaped(links) && (parent.Some? ==> parent.value < |links|)
    ensures Shaped(AddLink(links, parent))
  {
    var r := AddLink(links, parent);
    var n := |links|;
    forall i | 0 <= i < |r| ensures LinkOk(r, i) {
      if i < n {
        assert LinkOk(links, i);
        var l := links[i];
        if l.parent.Some? {
          assert i in r[l.parent.value].children;
        }
      }
    }
  }

  lemma {:induction false} ErroredCountExtend(s: seq<State>, cs: seq<nat>, x: State)
    requires forall k :: 0 <= k < |cs| ==> cs[k] < |s|
    ensures ErroredCount(s + [x], cs) == ErroredCount(s, cs)
  {
    if cs != [] {
      ErroredCountExtend(s, cs[1..], x);
    }
  }

  lemma {:induction false} ErroredCountAppend(s: seq<State>, cs: seq<nat>, c: nat)
    requires forall k :: 0 <= k < |cs| ==> cs[k] < |s|
    requires c < |s|
    ensures ErroredCount(s, cs + [c]) == ErroredCount(s, cs) + (if s[c].exception.Some? then 1 else 0)
  {
    if cs != [] {
      assert (cs + [c])[1..] == cs[1..] + [c];
      ErroredCountAppend(s, cs[1..], c);
    }
  }

  /**
   * Creating a Result keeps the invariant: the new node is a fresh PENDING
   * leaf, listed once among its parent's children, and no count changes.
   */
  lemma AddResultValid(links: seq<Link>, s: seq<State>, parent: Option<nat>)
    requires Valid(links, s) && (parent.Some? ==> parent.value < |links|)
    ensures Valid(AddLink(links, parent), s + [Fresh])
    ensures parent.Some? ==> |links| in AddLink(links, parent)[parent.value].children
  {
    var r := AddLink(links, parent);
    var t := s + [Fresh];
    AddLinkShaped(links, parent);
    forall q | 0 <= q < |t| ensures CountOk(r, t, q) {
      if q < |links| {
        assert LinkOk(links, q);
        assert CountOk(links, s, q);
        ErroredCountExtend(s, links[q].children, Fresh);
        if Some(q) == parent {
          ErroredCountAppend(t, links[q].children, |links|);
        }
      }
    }
  }

  /**
   * What a task's function did: returned a value, or raised `exc`, which may
   * be a ChildError it got back from a `get` on another result and let escape.
   */
  datatype Outcome = Returns(data: string) | Raises(exc: Exception)

  /** What `do_run` stores before its `wait`: the returned value, or ERROR and then the exception. */
  function Stored(links: seq<Link>, states: seq<State>, i: nat, outcome: Outcome): (r: seq<State>)
    requires Forest(links, states) && i < |links|
    ensures |r| == |states|
    ensures outcome.Returns? ==> r[i] == states[i].(value := Returned(outcome.data))
    ensures outcome.Raises? ==> r[i] == states[i].(value := Error, exception := Some(outcome.exc))
    ensures forall j :: 0 <= j < |r| && j != i && Some(j) != links[i].parent ==> r[j] == states[j]
    ensures links[i].parent.Some? ==>
              var p := links[i].parent.value;
              r[p] == states[p].(childErrors := states[p].childErrors + (if outcome.Raises? then 1 else 0))
  {
    assert LinkOk(links, i);
    match outcome
    case Returns(v) => states[i := states[i].(value := Returned(v))]
    case Raises(e) => SetException(links, states[i := states[i].(value := Error)], i, e)
  }

  lemma StoredValid(links: seq<Link>, s: seq<State>, i: nat, outcome: Outcome)
    requires Valid(links, s) && i < |links| && s[i].exception.None?
    ensures Valid(links, Stored(links, s, i, outcome))
  {
    assert LinkOk(links, i);
    if outcome.Raises? {
      SetExceptionKeepsValid(links, s, i, outcome.exc);
    } else {
      var r := Stored(links, s, i, outcome);
      forall q | 0 <= q < |r| ensures CountOk(links, r, q) {
        assert LinkOk(links, q);
        assert CountOk(links, s, q);
        ErroredCountShiftNone(s, r, links[q].children);
      }
    }
  }

  lemma {:induction false} ErroredCountShiftNone(s: seq<State>, r: seq<State>, cs: seq<nat>)
    requires |r| == |s| && forall k :: 0 <= k < |cs| ==> cs[k] < |s|
    requires forall k :: 0 <= k < |cs| ==> (r[cs[k]].exception.Some? <==> s[cs[k]].exception.Some?)
    ensures ErroredCount(r, cs) == ErroredCount(s, cs)
  {
    if cs != [] {
      ErroredCountShiftNone(s, r, cs[1..]);
    }
  }

  /**
   * `run` on the synchronous path: a new result under `parent` ends up
   * holding the returned value, or ERROR with the raised exception, stored
   * as it was raised; it is a leaf error exactly when that exception is not
   * a ChildError. The parent's `child_errors` grows by one exactly when the
   * task raised, and no other node changes.
   */
  lemma RunOutcome(links: seq<Link>, s: seq<State>, parent: Option<nat>, outcome: Outcome)
    requires Shaped(links) && |s| == |links| && (parent.Some? ==> parent.value < |links|)
    ensures Shaped(AddLink(links, parent))
    ensures var l := AddLink(links, parent);
      var n := |links|;
      var r := Wait(l, Stored(l, s + [Fresh], n, outcome), n);
      && |r| == n + 1
      && (outcome.Returns? ==> r[n] == Fresh.(value := Returned(outcome.data)))
      && (outcome.Raises? ==> r[n] == Fresh.(value := Error, exception := Some(outcome.exc)))
      && (outcome.Raises? ==> (IsLeafError(l, r, n) <==> !outcome.exc.ChildError?))
      && (forall j :: 0 <= j < n && Some(j) != parent ==> r[j] == s[j])
      && (parent.Some? ==> r[parent.value] == s[parent.value].(childErrors := s[parent.value].childErrors + (if outcome.Raises? then 1 else 0)))
  {
    var l := AddLink(links, parent);
    AddLinkShaped(links, parent);
    var n := |links|;
    var st := Stored(l, s + [Fresh], n, outcome);
    assert Children(l, n) == [];
    assert WaitEach(l, st, n, []) == st;
    assert Wait(l, st, n) == Promote(l, st, n);
  }

  /**
   * `do_run` on a result whose task may have run sub-tasks while it was
   * current, so the node may already have children. A task that returns
   * keeps its value unless some leaf error below it is unrecovered, in which
   * case `wait` makes it ERROR with a ChildError over those leaf errors. A
   * task that raises keeps that exception, and is a leaf error exactly when
   * the exception is not a ChildError and no child holds the same exception
   * (the task re-raised it through `get`). The parent's count grows exactly
   * when the node ends with an exception; nothing outside the node's
   * traversal and its parent changes.
   */
  lemma DoRunOutcome(links: seq<Link>, s: seq<State>, n: nat, outcome: Outcome)
    requires Valid(links, s) && n < |links| && s[n].value == Pending
    ensures var r := Wait(links, Stored(links, s, n, outcome), n);
      var below := Unrecovered(s, LeafErrors(links, s, n));
      var cs := Children(links, n);
      && (outcome.Returns? && below == [] ==> r[n].value == Returned(outcome.data) && r[n].exception.None?)
      && (outcome.Returns? && below != [] ==>
            r[n].value == Error && r[n].exception == Some(ChildError(n, [LeafErrors(links, s, n)])))
      && (outcome.Raises? ==> r[n].value == Error && r[n].exception == Some(outcome.exc))
      && (outcome.Raises? ==>
            (IsLeafError(links, r, n) <==>
               && !outcome.exc.ChildError?
               && forall k :: 0 <= k < |cs| ==> !(s[cs[k]].value == Error && s[cs[k]].exception == Some(outcome.exc))))
      && (links[n].parent.Some? ==>
            var p := ParentOf(links, n);
            r[p] == s[p].(childErrors := s[p].childErrors + (if r[n].exception.Some? then 1 else 0)))
      && (forall j :: 0 <= j < |s| && j !in Traversal(links, n) && Some(j) != links[n].parent ==> r[j] == s[j])
  {
    var st := Stored(links, s, n, outcome);
    var r := Wait(links, st, n);
    assert s[n].exception.None?;
    StoredValid(links, s, n, outcome);
    WaitValid(links, st, n);
    WaitFacts(links, st, n);
    assert Evolves(st[n], r[n]);
    if outcome.Returns? {
      SameLeafErrorsBelow(links, s, n, outcome.data);
      if Unrecovered(s, LeafErrors(links, s, n)) == [] {
        WaitKeepsWhenRecovered(links, st, n);
      } else {
        WaitPropagates(links, st, n, n);
        PromotedException(links, st, n);
      }
    } else {
      LeafErrorStable(links, st, r, n);
    }
    if links[n].parent.Some? {
      WaitParent(links, st, n);
    }
  }

  /** Storing a returned value leaves the leaf errors below the node, and their recovered flags, as they were. */
  lemma SameLeafErrorsBelow(links: seq<Link>, s: seq<State>, n: nat, v: string)
    requires Forest(links, s) && n < |links|
    ensures var st := s[n := s[n].(value := Returned(v))];
      && LeafErrors(links, st, n) == LeafErrors(links, s, n)
      && Unrecovered(st, LeafErrors(links, st, n)) == Unrecovered(s, LeafErrors(links, s, n))
  {
    var st := s[n := s[n].(value := Returned(v))];
    LeafErrorsIgnoreSelf(links, s, n, Returned(v));
    var es := LeafErrors(links, s, n);
    UnrecoveredAgree(s, st, es);
  }

  /** A node that `wait` turns into ERROR gets the ChildError over the leaf errors below it. */
  lemma PromotedException(links: seq<Link>, s: seq<State>, n: nat)
    requires Forest(links, s) && n < |links| && s[n].value != Error
    requires Wait(links, s, n)[n].value == Error
    ensures Wait(links, s, n)[n].exception == Some(ChildError(n, [LeafErrors(links, s, n)]))
  {
    var s1 := WaitEach(links, s, n, Children(links, n));
    WaitChildrenKeepsSelf(links, s, n);
    assert Wait(links, s, n) == Promote(links, s1, n);
    var marked := s1[n := s1[n].(value := Error)];
    LeafErrorsIgnoreSelf(links, s1, n, Error);
    assert LeafErrors(links, marked, n) == LeafErrors(links, s, n);
  }

  // ---------------------------------------------------------------------
  // get and report

  /** `Result.get` after its `wait`: the value, or the stored exception re-raised. */
  function Got(st: State): (r: Result<Value, Exception>)
    ensures r.Err? <==> st.value == Error && st.exception.Some?
  {
    if st.value == Error && st.exception.Some? then Err(st.exception.value) else Ok(st.value)
  }

  lemma {:induction false} LeafFilterAppend(links: seq<Link>, states: seq<State>, ts: seq<nat>, t: nat)
    requires Forest(links, states) && t < |links|
    requires forall k :: 0 <= k < |ts| ==> ts[k] < |links|
    ensures LeafFilter(links, states, ts + [t]) ==
            LeafFilter(links, states, ts) + (if IsLeafError(links, states, t) then [t] else [])
  {
    if ts != [] {
      assert (ts + [t])[1..] == ts[1..] + [t];
      LeafFilterAppend(links, states, ts[1..], t);
    }
  }

  /** The first line of `Result.report`. */
  function ReportHeader(total: nat, errors: nat): string {
    NatToString(total) + " tasks run, " + NatToString(errors) + " errors"
  }
}
