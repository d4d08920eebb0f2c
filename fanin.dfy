/**
 * `safe`, `async_map` and `async_apply` of forge/cli.py in their sequential
 * reading: every task of a fan-out runs to completion in issue order, then
 * the outcomes are waited on in that same order.
 */
module FanIn {
  import opened Common
  import opened Workstream

  /** What a task's function did: returned a value, returned `OMIT`, or raised. */
  datatype Step<T> = Returned(value: T) | Omitted | Raised(exc: Exc)

  /**
   * What waiting on a `safe` thread gives: the value, `OMIT`, a caught
   * CLIError or WorkError returned as a value, or an exception that escaped
   * `safe` and is re-raised by the wait.
   */
  datatype Caught<T> = Value(value: T) | OmitValue | CaughtCli(message: string) | CaughtWork(detail: string) | Escaped(exc: Exc)

  /** What the fan-in yields: a value, or a CLIError object passed along as a value. */
  datatype Yielded<T> = Item(value: T) | ErrorItem(message: string)

  /** Everything a fan-in yields, and the exception it raises after them, if any. */
  datatype Collected<T> = Collected(items: seq<Yielded<T>>, failure: Option<Exc>)

  /** `safe(f, item)`: CLIError and WorkError become values; other exceptions pass through. */
  function Safe<T>(step: Step<T>): (r: Caught<T>)
    ensures step.Returned? ==> r == Value(step.value)
    ensures step.Omitted? ==> r == OmitValue
    ensures r.Escaped? <==> step.Raised? && step.exc.Foreign?
    ensures r.Escaped? ==> r.exc == step.exc
  {
    match step
    case Returned(v) => Value(v)
    case Omitted => OmitValue
    case Raised(CLIError(m)) => CaughtCli(m)
    case Raised(WorkError(d)) => CaughtWork(d)
    case Raised(e) => Escaped(e)
  }

  /** The index of the first outcome whose wait re-raises, or `|ws|`. */
  function EscapeIndex<T>(ws: seq<Caught<T>>): (n: nat)
    ensures n <= |ws|
    ensures n < |ws| ==> ws[n].Escaped?
    ensures forall k :: 0 <= k < n ==> !ws[k].Escaped?
  {
    if ws == [] then 0 else if ws[0].Escaped? then 0 else 1 + EscapeIndex(ws[1..])
  }

  /** The yielded outcomes, in order: everything but `OMIT` and WorkErrors. */
  function Kept<T>(ws: seq<Caught<T>>): seq<Yielded<T>>
    requires forall k :: 0 <= k < |ws| ==> !ws[k].Escaped?
  {
    if ws == [] then []
    else
      var rest := Kept(ws[1..]);
      match ws[0]
      case Value(v) => [Item(v)] + rest
      case CaughtCli(m) => [ErrorItem(m)] + rest
      case _ => rest
  }

  function WorkErrorCount<T>(ws: seq<Caught<T>>): nat {
    if ws == [] then 0 else (if ws[0].CaughtWork? then 1 else 0) + WorkErrorCount(ws[1..])
  }

  /** The message of the CLIError raised after `k` WorkErrors. */
  function HadErrors(k: nat): string {
    NatToString(k) + " task(s) had errors"
  }

  lemma {:induction false} KeptSnoc<T>(ws: seq<Caught<T>>, w: Caught<T>)
    requires forall k :: 0 <= k < |ws| ==> !ws[k].Escaped?
    requires !w.Escaped?
    ensures Kept(ws + [w]) == Kept(ws) + (match w
                                          case Value(v) => [Item(v)]
                                          case CaughtCli(m) => [ErrorItem(m)]
                                          case _ => [])
  {
    if ws != [] {
      assert (ws + [w])[1..] == ws[1..] + [w];
      KeptSnoc(ws[1..], w);
    }
  }

  lemma {:induction false} WorkErrorCountSnoc<T>(ws: seq<Caught<T>>, w: Caught<T>)
    ensures WorkErrorCount(ws + [w]) == WorkErrorCount(ws) + (if w.CaughtWork? then 1 else 0)
  {
    if ws != [] {
      assert (ws + [w])[1..] == ws[1..] + [w];
      WorkErrorCountSnoc(ws[1..], w);
    }
  }

  /**
   * What waiting on the outcomes in order gives: the kept outcomes before
   * the first escaping exception and that exception, or, when none escapes,
   * all kept outcomes and one CLIError if some outcomes were WorkErrors.
   */
  function FanInOf<T>(ws: seq<Caught<T>>): (c: Collected<T>)
    ensures var n := EscapeIndex(ws);
      && c.items == Kept(ws[..n])
      && (n < |ws| ==> c.failure == Some(ws[n].exc))
      && (n == |ws| && WorkErrorCount(ws) > 0 ==> c.failure == Some(CLIError(HadErrors(WorkErrorCount(ws)))))
      && (n == |ws| && WorkErrorCount(ws) == 0 ==> c.failure == None)
  {
    var n := EscapeIndex(ws);
    if n < |ws| then Collected(Kept(ws[..n]), Some(ws[n].exc))
    else
      assert ws[..n] == ws;
      Collected(Kept(ws), if WorkErrorCount(ws) > 0 then Some(CLIError(HadErrors(WorkErrorCount(ws)))) else None)
  }

  /**
   * The waiting half of `async_map`: walk the outcomes in order, yield the
   * kept ones, count the WorkErrors, stop at the first escaping exception,
   * and raise one CLIError for the WorkErrors once every outcome is consumed.
   */
  method Gather<T>(ws: seq<Caught<T>>) returns (c: Collected<T>)
    ensures c == FanInOf(ws)
  {
    var n := EscapeIndex(ws);
    var items: seq<Yielded<T>> := [];
    var errors := 0;
    var k := 0;
    while k < |ws| && !ws[k].Escaped?
      invariant 0 <= k <= n
      invariant items == Kept(ws[..k]) && errors == WorkErrorCount(ws[..k])
    {
      assert ws[..k + 1] == ws[..k] + [ws[k]];
      KeptSnoc(ws[..k], ws[k]);
      WorkErrorCountSnoc(ws[..k], ws[k]);
      match ws[k] {
        case Value(v) => items := items + [Item(v)];
        case CaughtCli(m) => items := items + [ErrorItem(m)];
        case CaughtWork(_) => errors := errors + 1;
        case OmitValue =>
      }
      k := k + 1;
    }
    if k < |ws| {
      c := Collected(items, Some(ws[k].exc));
    } else if errors > 0 {
      assert ws[..k] == ws;
      c := Collected(items, Some(CLIError(HadErrors(errors))));
    } else {
      assert ws[..k] == ws;
      c := Collected(items, None);
    }
  }

  /** A value is yielded exactly when one of the outcomes returned it. */
  lemma {:induction false} KeptItems<T>(ws: seq<Caught<T>>, v: T)
    requires forall k :: 0 <= k < |ws| ==> !ws[k].Escaped?
    ensures Item(v) in Kept(ws) <==> Value(v) in ws
  {
    if ws != [] {
      KeptItems(ws[1..], v);
      assert ws == [ws[0]] + ws[1..];
    }
  }

  /** A caught CLIError is yielded as a value, never counted with the WorkErrors. */
  lemma {:induction false} CliErrorsAreYielded<T>(ws: seq<Caught<T>>, m: string)
    requires forall k :: 0 <= k < |ws| ==> !ws[k].Escaped?
    ensures ErrorItem(m) in Kept(ws) <==> CaughtCli(m) in ws
  {
    if ws != [] {
      CliErrorsAreYielded(ws[1..], m);
      assert ws == [ws[0]] + ws[1..];
    }
  }

  function OmitCount<T>(ws: seq<Caught<T>>): nat {
    if ws == [] then 0 else (if ws[0].OmitValue? then 1 else 0) + OmitCount(ws[1..])
  }

  /** Without an escaping exception, every outcome is either yielded, an `OMIT`, or a counted WorkError. */
  lemma {:induction false} KeptCount<T>(ws: seq<Caught<T>>)
    requires forall k :: 0 <= k < |ws| ==> !ws[k].Escaped?
    ensures |Kept(ws)| + OmitCount(ws) + WorkErrorCount(ws) == |ws|
  {
    if ws != [] {
      KeptCount(ws[1..]);
    }
  }

  /** The count in the "had errors" message reads back as the number of WorkErrors. */
  lemma HadErrorsCount(k: nat, j: nat)
    requires HadErrors(k) == HadErrors(j)
    ensures k == j
  {
    var suffix := " task(s) had errors";
    assert NatToString(k) == HadErrors(k)[..|HadErrors(k)| - |suffix|];
    assert NatToString(j) == HadErrors(j)[..|HadErrors(j)| - |suffix|];
    NatToStringInjective(k, j);
  }

  /** The outcomes of spawning `safe(fun, item)` for each item, in order. */
  function Spawned<T, U>(fun: T -> Step<U>, items: seq<T>): (ws: seq<Caught<U>>)
    ensures |ws| == |items| && forall k :: 0 <= k < |items| ==> ws[k] == Safe(fun(items[k]))
  {
    if items == [] then [] else [Safe(fun(items[0]))] + Spawned(fun, items[1..])
  }

  /** `async_map(fun, items)` with a function that has no effects. */
  method AsyncMap<T, U>(fun: T -> Step<U>, items: seq<T>) returns (c: Collected<U>)
    ensures c == FanInOf(Spawned(fun, items))
  {
    var threads: seq<Caught<U>> := [];
    for k := 0 to |items|
      invariant |threads| == k && forall j :: 0 <= j < k ==> threads[j] == Safe(fun(items[j]))
    {
      threads := threads + [Safe(fun(items[k]))];
    }
    assert threads == Spawned(fun, items);
    c := Gather(threads);
  }

  /** The outcomes of spawning `safe(fun, *pair)` for each pair, in order. */
  function SpawnedPairs<A, B, U>(fun: (A, B) -> Step<U>, pairs: seq<(A, B)>): (ws: seq<Caught<U>>)
    ensures |ws| == |pairs| && forall k :: 0 <= k < |pairs| ==> ws[k] == Safe(fun(pairs[k].0, pairs[k].1))
  {
    if pairs == [] then [] else [Safe(fun(pairs[0].0, pairs[0].1))] + SpawnedPairs(fun, pairs[1..])
  }

  /** `async_apply(fun, pairs)`: `async_map` with each pair spread over the function's arguments. */
  method AsyncApply<A, B, U>(fun: (A, B) -> Step<U>, pairs: seq<(A, B)>) returns (c: Collected<U>)
    ensures c == FanInOf(SpawnedPairs(fun, pairs))
  {
    var spread := (p: (A, B)) => fun(p.0, p.1);
    c := AsyncMap(spread, pairs);
    assert Spawned(spread, pairs) == SpawnedPairs(fun, pairs);
  }

  /** Yielding keeps the order of the outcomes: the kept part of a concatenation is the concatenation of the kept parts. */
  lemma {:induction false} KeptAppend<T>(ws1: seq<Caught<T>>, ws2: seq<Caught<T>>)
    requires forall k :: 0 <= k < |ws1| ==> !ws1[k].Escaped?
    requires forall k :: 0 <= k < |ws2| ==> !ws2[k].Escaped?
    ensures Kept(ws1 + ws2) == Kept(ws1) + Kept(ws2)
  {
    if ws1 != [] {
      assert (ws1 + ws2)[1..] == ws1[1..] + ws2;
      KeptAppend(ws1[1..], ws2);
    } else {
      assert ws1 + ws2 == ws2;
    }
  }

  /**
   * When nothing escaped, no task raised a WorkError or returned `OMIT`,
   * and everything yielded is a value, then every task returned a value and
   * the values are yielded one for one, in order.
   */
  lemma {:induction false} AllValuesKept<T>(ws: seq<Caught<T>>)
    requires forall k :: 0 <= k < |ws| ==> !ws[k].Escaped? && !ws[k].OmitValue?
    requires WorkErrorCount(ws) == 0
    requires forall k :: 0 <= k < |Kept(ws)| ==> Kept(ws)[k].Item?
    ensures forall k :: 0 <= k < |ws| ==> ws[k].Value?
    ensures |Kept(ws)| == |ws| && forall k :: 0 <= k < |ws| ==> Kept(ws)[k] == Item(ws[k].value)
  {
    if ws != [] {
      assert |Kept(ws)| == 1 + |Kept(ws[1..])| && Kept(ws)[1..] == Kept(ws[1..]);
      assert Kept(ws)[0].Item?;
      AllValuesKept(ws[1..]);
    }
  }

  /**
   * A fan-in that raises nothing, over tasks that never return `OMIT`, and
   * that yields no CLIError, yields every task's value, in order.
   */
  lemma YieldsEveryValue<T>(ws: seq<Caught<T>>)
    requires forall k :: 0 <= k < |ws| ==> !ws[k].OmitValue?
    requires FanInOf(ws).failure.None?
    requires forall k :: 0 <= k < |FanInOf(ws).items| ==> FanInOf(ws).items[k].Item?
    ensures forall k :: 0 <= k < |ws| ==> ws[k].Value?
    ensures |FanInOf(ws).items| == |ws| && forall k :: 0 <= k < |ws| ==> FanInOf(ws).items[k] == Item(ws[k].value)
  {
    assert EscapeIndex(ws) == |ws| && ws[..|ws|] == ws;
    AllValuesKept(ws);
  }
}
