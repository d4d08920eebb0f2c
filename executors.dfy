/**
 * The executor of forge/executor.py as objects: the tree of Result nodes
 * its runs build, the per-thread current (executor, result) pair, the color
 * table shared by all executors, the output multiplexer, and the executor.
 * Tasks run on the synchronous path: a task's function is given by its
 * outcome, and `run` stores it and waits before returning.
 */
module Executors {
  import opened Common
  import opened Results

  /** Every Result created so far, as the arena of the Results module. */
  class ResultTree {
    var links: seq<Link>
    var states: seq<State>

    ghost predicate Valid()
      reads this
    {
      Results.Valid(links, states)
    }

    constructor()
      ensures Valid() && links == [] && states == []
    {
      links := [];
      states := [];
    }

    /** `Result(executor, parent)`: a fresh PENDING node, appended to the parent's children. */
    method NewResult(parent: Option<nat>) returns (id: nat)
      requires Valid() && (parent.Some? ==> parent.value < |links|)
      modifies this
      ensures Valid()
      ensures id == old(|links|)
      ensures links == AddLink(old(links), parent) && states == old(states) + [Fresh]
    {
      AddResultValid(links, states, parent);
      id := |links|;
      if parent.Some? {
        var p := parent.value;
        links := links[p := links[p].(children := links[p].children + [id])];
      }
      links := links + [Link(parent, [])];
      states := states + [Fresh];
    }

    /** The `exception` setter: store it and add one to the parent's `child_errors`. */
    method SetExceptionOf(id: nat, e: Exception)
      requires Forest(links, states) && id < |links|
      modifies this
      ensures links == old(links) && states == SetException(links, old(states), id, e)
    {
      assert LinkOk(links, id);
      states := states[id := states[id].(exception := Some(e))];
      if links[id].parent.Some? {
        var p := links[id].parent.value;
        states := states[p := states[p].(childErrors := states[p].childErrors + 1)];
      }
    }

    /** The body of `do_run`'s `try`: store the returned value, or ERROR and then the exception. */
    method Store(id: nat, outcome: Outcome)
      requires Valid() && id < |links| && states[id].exception.None?
      modifies this
      ensures Valid() && links == old(links)
      ensures states == Stored(links, old(states), id, outcome)
    {
      StoredValid(links, states, id, outcome);
      match outcome {
        case Returns(v) =>
          states := states[id := states[id].(value := Returned(v))];
        case Raises(e) =>
          states := states[id := states[id].(value := Error)];
          SetExceptionOf(id, e);
      }
    }

    /** `Result.wait`: wait on each child in order, then promote unrecovered leaf errors. */
    method Wait(id: nat)
      requires Forest(links, states) && id < |links|
      modifies this
      ensures links == old(links)
      ensures states == Results.Wait(links, old(states), id)
      ensures old(Valid()) ==> Valid()
      decreases |links| - id
    {
      var cs := Children(links, id);
      var k := 0;
      while k < |cs|
        invariant 0 <= k <= |cs| && links == old(links) && |states| == |links|
        invariant WaitEach(links, states, id, cs[k..]) == WaitEach(links, old(states), id, cs)
      {
        assert cs[k..] == [cs[k]] + cs[k + 1..];
        Wait(cs[k]);
        k := k + 1;
      }
      assert cs[k..] == [];
      var s := states[id];
      if s.childErrors > 0 && s.value != Error {
        var errors := Unrecovered(states, LeafErrors(links, states, id));
        if errors != [] {
          states := states[id := states[id].(value := Error)];
          SetExceptionOf(id, ChildError(id, [LeafErrors(links, states, id)]));
        }
      }
      if old(Valid()) {
        WaitValid(links, old(states), id);
      }
    }

    /** `Result.get`: wait, then return the value or re-raise the stored exception. */
    method Get(id: nat) returns (r: Result<Value, Exception>)
      requires Forest(links, states) && id < |links|
      modifies this
      ensures links == old(links) && states == Results.Wait(links, old(states), id)
      ensures r == Got(states[id])
      ensures old(Valid()) ==> Valid()
    {
      Wait(id);
      if states[id].value == Error && states[id].exception.Some? {
        r := Err(states[id].exception.value);
      } else {
        r := Ok(states[id].value);
      }
    }

    /** `Result.recover`: set `_recovered` on every node of the traversal. */
    method Recover(id: nat)
      requires Forest(links, states) && id < |links|
      modifies this
      ensures links == old(links) && states == Recovered(links, old(states), id)
      ensures old(Valid()) ==> Valid()
    {
      var t := Traversal(links, id);
      var k := 0;
      while k < |t|
        invariant 0 <= k <= |t| && links == old(links) && |states| == |old(states)|
        invariant forall j :: 0 <= j < |states| ==>
                    states[j] == old(states)[j].(recovered := old(states)[j].recovered || j in t[..k])
      {
        assert t[..k + 1] == t[..k] + [t[k]];
        states := states[t[k] := states[t[k]].(recovered := true)];
        k := k + 1;
      }
      assert t[..k] == t;
      if old(Valid()) {
        RecoveredValid(links, old(states), id);
      }
    }

    /**
     * The counting part of `Result.report`: walk the traversal, count the
     * nodes and collect the leaf errors, and build the first line.
     */
    method Report(id: nat) returns (header: string, total: nat, errors: seq<nat>)
      requires Forest(links, states) && id < |links|
      ensures total == |Traversal(links, id)|
      ensures errors == Errors(links, states, id)
      ensures header == ReportHeader(total, |errors|)
    {
      var t := Traversal(links, id);
      total, errors := 0, [];
      var k := 0;
      while k < |t|
        invariant 0 <= k <= |t| && total == k
        invariant errors == LeafFilter(links, states, t[..k])
      {
        LeafFilterAppend(links, states, t[..k], t[k]);
        assert t[..k + 1] == t[..k] + [t[k]];
        total := total + 1;
        if IsLeafError(links, states, t[k]) {
          errors := errors + [t[k]];
        }
        k := k + 1;
      }
      assert t[..k] == t;
      header := ReportHeader(total, |errors|);
    }
  }

  /** `executor.CURRENT`: the executor and the result current in this thread. */
  class Context {
    var executor: Executor?
    var result: Option<nat>

    constructor()
      ensures executor == null && result == None
    {
      executor := null;
      result := None;
    }

    /** The second half of `_make_current`: put back the saved pair. */
    method Restore(saved: (Executor?, Option<nat>))
      modifies this
      ensures executor == saved.0 && result == saved.1
    {
      executor, result := saved.0, saved.1;
    }
  }

  /** The names of the terminal styles of `executor.COLORS`, in order. */
  const Colors: seq<string> := ["white", "cyan", "magenta", "blue", "bold_cyan", "bold_magenta", "bold_blue",
                                "bold_white", "black_on_white", "bold_white_on_blue", "white_on_blue",
                                "white_on_magenta", "bold_white_on_magenta"]

  /** The `k`-th distinct context gets `COLORS[k mod 13]`, and every table context is one of them. */
  ghost predicate PaletteOk(table: map<Option<string>, string>, order: seq<Option<string>>) {
    && |order| == |table|
    && (forall k, m :: 0 <= k < m < |order| ==> order[k] != order[m])
    && (forall n :: n in table ==> n in order)
    && (forall k :: 0 <= k < |order| ==> order[k] in table && table[order[k]] == Colors[k % |Colors|])
  }

  /** No color appears twice in the palette. */
  lemma ColorsDistinct(x: nat, y: nat)
    requires x < y < |Colors|
    ensures Colors[x] != Colors[y]
  {
  }

  /** Contexts whose positions in the allocation order differ modulo thirteen get different colors. */
  lemma RoundRobinDistinct(table: map<Option<string>, string>, order: seq<Option<string>>, k: nat, m: nat)
    requires PaletteOk(table, order) && k < |order| && m < |order|
    requires k % |Colors| != m % |Colors|
    ensures table[order[k]] != table[order[m]]
  {
    var a, b := k % |Colors|, m % |Colors|;
    if a < b {
      ColorsDistinct(a, b);
    } else {
      ColorsDistinct(b, a);
    }
  }

  /** Allocating the next color to an unseen context keeps the round-robin. */
  lemma PaletteGrows(table: map<Option<string>, string>, order: seq<Option<string>>, name: Option<string>)
    requires PaletteOk(table, order) && name !in table
    ensures PaletteOk(table[name := Colors[|table| % |Colors|]], order + [name])
  {
    assert |table[name := Colors[|table| % |Colors|]]| == |table| + 1;
    PaletteColorsGrow(table, order, name);
    PaletteOrderGrows(table, order, name);
  }

  lemma PaletteColorsGrow(table: map<Option<string>, string>, order: seq<Option<string>>, name: Option<string>)
    requires PaletteOk(table, order) && name !in table
    ensures var t, o := table[name := Colors[|table| % |Colors|]], order + [name];
      forall k :: 0 <= k < |o| ==> o[k] in t && t[o[k]] == Colors[k % |Colors|]
  {
    var t, o := table[name := Colors[|table| % |Colors|]], order + [name];
    forall k | 0 <= k < |o| ensures o[k] in t && t[o[k]] == Colors[k % |Colors|] {
      if k < |order| {
        assert o[k] == order[k] && order[k] != name;
      }
    }
  }

  lemma PaletteOrderGrows(table: map<Option<string>, string>, order: seq<Option<string>>, name: Option<string>)
    requires PaletteOk(table, order) && name !in table
    ensures var t, o := table[name := Colors[|table| % |Colors|]], order + [name];
      && (forall k, m :: 0 <= k < m < |o| ==> o[k] != o[m])
      && (forall n :: n in t ==> n in o)
  {
    var t, o := table[name := Colors[|table| % |Colors|]], order + [name];
    forall k, m | 0 <= k < m < |o| ensures o[k] != o[m] {
      assert o[k] == order[k];
      if m < |order| {
        assert o[m] == order[m];
      }
    }
    forall n | n in t ensures n in o {
      if n != name {
        assert n in table;
      } else {
        assert o[|order|] == name;
      }
    }
  }

  /** `executor.ALLOCATED`, shared by every executor. */
  class Palette {
    var table: map<Option<string>, string>
    ghost var order: seq<Option<string>>

    ghost predicate Valid()
      reads this
    {
      PaletteOk(table, order)
    }

    constructor()
      ensures Valid() && table == map[]
    {
      table := map[];
      order := [];
    }

    /** `executor.allocate_color`: memoized round-robin over the colors. */
    method Allocate(name: Option<string>) returns (color: string)
      requires Valid()
      modifies this
      ensures Valid()
      ensures name in table && color == table[name]
      ensures name in old(table) ==> table == old(table) && order == old(order)
      ensures name !in old(table) ==>
                color == Colors[|old(table)| % |Colors|] &&
                table == old(table)[name := color] && order == old(order) + [name]
    {
      if name in table {
        color := table[name];
      } else {
        color := Colors[|table| % |Colors|];
        PaletteGrows(table, order, name);
        table := table[name := color];
        order := order + [name];
      }
    }
  }

  /** The header `_Muxer.write` puts before output whose context differs from the previous one. */
  function Header(previous: Option<string>, context: Option<string>): (h: string)
    ensures h != "" <==> context.Some? && context != previous
    ensures h != "" ==> h == "╔═" + context.value + "\n"
  {
    if context.Some? && context != previous then "╔═" + context.value + "\n" else ""
  }

  /** What a run of writes `(context, bytes)` puts on the stream, starting after `previous`. */
  function Emitted(previous: Option<string>, writes: seq<(Option<string>, string)>): string
    decreases |writes|
  {
    if writes == [] then ""
    else Header(previous, writes[0].0) + writes[0].1 + Emitted(writes[0].0, writes[1..])
  }

  function Payloads(writes: seq<(Option<string>, string)>): string {
    if writes == [] then "" else writes[0].1 + Payloads(writes[1..])
  }

  /** A run of writes in one context yields at most one header, before the first of them. */
  lemma {:induction false} OneHeaderPerContext(previous: Option<string>, c: Option<string>, writes: seq<(Option<string>, string)>)
    requires writes != [] && forall k :: 0 <= k < |writes| ==> writes[k].0 == c
    ensures Emitted(previous, writes) == Header(previous, c) + Payloads(writes)
    decreases |writes|
  {
    if |writes| > 1 {
      OneHeaderPerContext(c, c, writes[1..]);
    }
  }

  /** `executor.MUXER`: everything written to standard output goes through it. */
  class Muxer {
    var previous: Option<string>
    var written: string

    constructor()
      ensures previous == None && written == ""
    {
      previous := None;
      written := "";
    }

    /** `_Muxer.write` while `current` is the current executor. */
    method Write(current: Executor?, bytes: string)
      modifies this
      ensures previous == (if current == null then None else current.context)
      ensures written == old(written) + Header(old(previous), previous) + bytes
    {
      var context := if current == null then None else current.context;
      if previous != context {
        if context.Some? {
          written := written + "╔═" + context.value + "\n";
        }
      }
      written := written + bytes;
      previous := context;
    }
  }

  /** The default prefix of `executor.echo`. */
  const Prefix: string := "║ "

  /** The text `echo` writes: the prefix, and the prefix again after every newline. */
  function EchoText(prefix: string, text: string): string {
    prefix + ReplaceChar(text, '\n', "\n" + prefix)
  }

  function Prefixed(prefix: string, lines: seq<string>): (r: seq<string>)
    ensures |r| == |lines|
    ensures forall k :: 0 <= k < |lines| ==> r[k] == prefix + lines[k]
  {
    if lines == [] then [] else [prefix + lines[0]] + Prefixed(prefix, lines[1..])
  }

  /** Echoing a line without a newline, a newline and more text: the prefixed line, then the echo of the rest. */
  lemma EchoStep(prefix: string, l: string, rest: string)
    requires '\n' !in l
    ensures EchoText(prefix, l + "\n" + rest) == (prefix + l) + "\n" + EchoText(prefix, rest)
  {
    var nl, r := "\n" + prefix, ReplaceChar(rest, '\n', "\n" + prefix);
    assert ReplaceChar("\n" + rest, '\n', nl) == nl + r by {
      ReplaceCharConcat("\n", rest, '\n', nl);
      assert ReplaceChar("\n", '\n', nl) == nl + ReplaceChar([], '\n', nl);
    }
    assert ReplaceChar(l + ("\n" + rest), '\n', nl) == l + (nl + r) by {
      ReplaceCharConcat(l, "\n" + rest, '\n', nl);
    }
    assert l + "\n" + rest == l + ("\n" + rest);
    assert prefix + (l + (nl + r)) == (prefix + l) + "\n" + (prefix + r);
  }

  /** Echoing a multi-line text prefixes every one of its lines. */
  lemma {:induction false} EchoPrefixesEveryLine(prefix: string, lines: seq<string>)
    requires |lines| >= 1
    requires forall k :: 0 <= k < |lines| ==> '\n' !in lines[k]
    ensures EchoText(prefix, Join("\n", lines)) == Join("\n", Prefixed(prefix, lines))
  {
    if |lines| > 1 {
      var tail := lines[1..];
      EchoStep(prefix, lines[0], Join("\n", tail));
      EchoPrefixesEveryLine(prefix, tail);
      assert Prefixed(prefix, lines)[1..] == Prefixed(prefix, tail);
    }
  }

  /** A frame of a stack trace. */
  datatype Frame = Frame(filename: string, lineno: nat, funcname: string, text: string)

  /** The dispatch and glue code `is_signal` treats as noise: file suffix and function names. */
  const Noise: seq<(string, seq<string>)> := [("forge/executor.py", ["run", "do_run", "_capture_stack"]),
                                              ("forge/tasks.py", ["go", "__call__"]),
                                              ("eventlet/greenthread.py", ["main"])]

  predicate NoisyFrom(f: Frame, k: nat)
    decreases |Noise| - k
  {
    k < |Noise| && ((EndsWith(f.filename, Noise[k].0) && f.funcname in Noise[k].1) || NoisyFrom(f, k + 1))
  }

  /** `Result.is_signal`: a frame is business logic unless it is one of the noise functions. */
  function IsSignal(f: Frame): (r: bool)
    ensures !r <==> exists k :: 0 <= k < |Noise| && EndsWith(f.filename, Noise[k].0) && f.funcname in Noise[k].1
  {
    NoiseWitness(f, 0);
    !NoisyFrom(f, 0)
  }

  lemma {:induction false} NoiseWitness(f: Frame, k: nat)
    requires k <= |Noise|
    ensures NoisyFrom(f, k) <==> exists m :: k <= m < |Noise| && EndsWith(f.filename, Noise[m].0) && f.funcname in Noise[m].1
    decreases |Noise| - k
  {
    if k < |Noise| {
      NoiseWitness(f, k + 1);
    }
  }

  /** An executor: its runs, its buffered messages, and what it inherits from the executor current at creation. */
  class Executor {
    const name: Option<string>
    const isAsync: bool
    const parent: Executor?
    var results: seq<nat>
    var messages: seq<string>
    var verbose: bool
    var context: Option<string>
    var color: string

    /** `executor.__init__`: verbosity and (for an unnamed executor) context come from the current executor. */
    constructor(name: Option<string>, isAsync: bool, current: Context, palette: Palette)
      requires palette.Valid()
      modifies palette
      ensures this.name == name && this.isAsync == isAsync && results == [] && messages == []
      ensures parent == current.executor
      ensures verbose == (parent != null && parent.verbose)
      ensures context == (if name.Some? then name else if parent != null then parent.context else None)
      ensures palette.Valid() && context in palette.table && color == palette.table[context]
      ensures context in old(palette.table) ==> palette.table == old(palette.table)
    {
      var p := current.executor;
      var ctx := if name.Some? then name else if p != null then p.context else None;
      var c := palette.Allocate(ctx);
      this.name := name;
      this.isAsync := isAsync;
      results := [];
      messages := [];
      parent := p;
      verbose := p != null && p.verbose;
      context := ctx;
      color := c;
    }

    /** The first half of `_make_current`: save the current pair and make (this, result) current. */
    method MakeCurrent(current: Context, result: Option<nat>) returns (saved: (Executor?, Option<nat>))
      modifies current
      ensures saved == (old(current.executor), old(current.result))
      ensures current.executor == this && current.result == result
    {
      saved := (current.executor, current.result);
      current.executor := this;
      current.result := result;
    }

    /** `executor.echo` with the default prefix. */
    method Echo(current: Context, muxer: Muxer, text: string, newline: bool)
      modifies current, muxer
      ensures current.executor == old(current.executor) && current.result == old(current.result)
      ensures muxer.previous == context
      ensures muxer.written == old(muxer.written) + Header(old(muxer.previous), context) + EchoText(Prefix, text) +
                               (if newline then "\n" else "")
    {
      var saved := MakeCurrent(current, None);
      var msg := EchoText(Prefix, text);
      muxer.Write(current.executor, msg);
      if newline {
        muxer.Write(current.executor, "\n");
      }
      current.Restore(saved);
    }

    /** `executor.info`: echoed when verbose, dropped otherwise. */
    method Info(current: Context, muxer: Muxer, text: string)
      modifies current, muxer
      ensures current.executor == old(current.executor) && current.result == old(current.result)
      ensures verbose ==> muxer.written == old(muxer.written) + Header(old(muxer.previous), context) + EchoText(Prefix, text) + "\n"
      ensures verbose ==> muxer.previous == context
      ensures !verbose ==> muxer.written == old(muxer.written) && muxer.previous == old(muxer.previous)
    {
      if verbose {
        Echo(current, muxer, text, true);
      }
    }

    /** `executor.warn`: echoed when verbose, buffered in `messages` otherwise. */
    method Warn(current: Context, muxer: Muxer, text: string)
      modifies this, current, muxer
      ensures current.executor == old(current.executor) && current.result == old(current.result)
      ensures verbose == old(verbose) && context == old(context) && color == old(color) && results == old(results)
      ensures verbose ==> messages == old(messages) && muxer.previous == context &&
                          muxer.written == old(muxer.written) + Header(old(muxer.previous), context) + EchoText(Prefix, text) + "\n"
      ensures !verbose ==> messages == old(messages) + [text] &&
                           muxer.written == old(muxer.written) && muxer.previous == old(muxer.previous)
    {
      if verbose {
        Echo(current, muxer, text, true);
      } else {
        messages := messages + [text];
      }
    }

    /** `executor.error`: the same rule as `warn`. */
    method Error(current: Context, muxer: Muxer, text: string)
      modifies this, current, muxer
      ensures current.executor == old(current.executor) && current.result == old(current.result)
      ensures verbose == old(verbose) && context == old(context) && color == old(color) && results == old(results)
      ensures verbose ==> messages == old(messages) && muxer.previous == context &&
                          muxer.written == old(muxer.written) + Header(old(muxer.previous), context) + EchoText(Prefix, text) + "\n"
      ensures !verbose ==> messages == old(messages) + [text] &&
                           muxer.written == old(muxer.written) && muxer.previous == old(muxer.previous)
    {
      Warn(current, muxer, text);
    }

    /** `executor.do_run`: with `result` current, store the outcome, then wait on the result. */
    method DoRun(tree: ResultTree, current: Context, id: nat, outcome: Outcome)
      requires tree.Valid() && id < |tree.links| && tree.states[id].exception.None?
      modifies tree, current
      ensures tree.Valid() && tree.links == old(tree.links)
      ensures tree.states == Results.Wait(tree.links, Stored(tree.links, old(tree.states), id, outcome), id)
      ensures current.executor == old(current.executor) && current.result == old(current.result)
    {
      var saved := MakeCurrent(current, Some(id));
      tree.Store(id, outcome);
      WaitValid(tree.links, tree.states, id);
      tree.Wait(id);
      current.Restore(saved);
    }

    /** `executor.run` on the synchronous path: a new result under the current one, recorded and run. */
    method Run(tree: ResultTree, current: Context, outcome: Outcome) returns (id: nat)
      requires tree.Valid() && (current.result.Some? ==> current.result.value < |tree.links|)
      modifies this, tree, current
      ensures tree.Valid()
      ensures id == old(|tree.links|)
      ensures tree.links == AddLink(old(tree.links), old(current.result))
      ensures tree.states == Results.Wait(tree.links, Stored(tree.links, old(tree.states) + [Fresh], id, outcome), id)
      ensures results == old(results) + [id] && messages == old(messages)
      ensures verbose == old(verbose) && context == old(context) && color == old(color)
      ensures current.executor == old(current.executor) && current.result == old(current.result)
    {
      id := tree.NewResult(current.result);
      results := results + [id];
      DoRun(tree, current, id, outcome);
    }
  }
}
