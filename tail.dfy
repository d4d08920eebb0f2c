/**
 * What `render_tail` of forge/cli.py selects from the Workstream's item
 * list: the newest lines first, item by item, each item's lines bottom-up,
 * cut off once the screen is full. Terminal emphasis is left out.
 */
module Tail {
  import opened Common
  import opened Workstream

  /** The spinner glyphs, one per tick. */
  const Glyphs: string := "-\\|/"

  /** `spinner()`: the glyph for the given tick count. */
  function SpinnerAt(count: nat): (c: char)
    ensures c in Glyphs
  {
    Glyphs[count % 4]
  }

  /** The spinner repeats every four ticks and shows every glyph within any four consecutive ticks. */
  lemma SpinnerCycles(count: nat)
    ensures SpinnerAt(count + 4) == SpinnerAt(count)
    ensures {SpinnerAt(count), SpinnerAt(count + 1), SpinnerAt(count + 2), SpinnerAt(count + 3)} == {'-', '\\', '|', '/'}
  {
    var r := count % 4;
    assert (count + 4) % 4 == r;
    assert (count + 1) % 4 == (r + 1) % 4 && (count + 2) % 4 == (r + 2) % 4 && (count + 3) % 4 == (r + 3) % 4;
  }

  /** An item is shown unless it is finished and not visible. */
  predicate Shown(item: WorkItem) {
    !item.finished || item.visible
  }

  /** The item's output lines are shown when it is verbose or failed, and there is output. */
  predicate ShowsOutput(item: WorkItem) {
    (item.verbose || (item.finished && !item.ok)) && item.output != ""
  }

  /** The summary line: kind, then the finish summary or the spinner glyph, then the start summary. */
  function Summary(item: WorkItem, spin: char): string {
    item.kind + "[" + (if item.finished then item.finishSummary else [spin]) + "]: " + item.startSummary
  }

  /** Each output line indented by two spaces. */
  function Indented(lines: seq<string>): (r: seq<string>)
    ensures |r| == |lines| && forall i :: 0 <= i < |lines| ==> r[i] == "  " + lines[i]
  {
    seq(|lines|, i requires 0 <= i < |lines| => "  " + lines[i])
  }

  /** The lines of one item top-down: the summary, then its output lines if they are shown. */
  function Lines(item: WorkItem, spin: char): (r: seq<string>)
    ensures |r| >= 1 && r[0] == Summary(item, spin)
    ensures |r| == 1 + (if ShowsOutput(item) then |SplitLines(item.output)| else 0)
    ensures forall i :: 1 <= i < |r| ==> r[i] == "  " + SplitLines(item.output)[i - 1]
  {
    [Summary(item, spin)] + (if ShowsOutput(item) then Indented(SplitLines(item.output)) else [])
  }

  /** The lines of one item as the tail emits them: bottom-up, nothing for a hidden item. */
  function ItemTail(item: WorkItem, spin: char): (r: seq<string>)
    ensures !Shown(item) ==> r == []
    ensures Shown(item) ==> |r| >= 1 && r[|r| - 1] == Summary(item, spin)
  {
    if Shown(item) then Reverse(Lines(item, spin)) else []
  }

  /** The whole tail, newest item first, without a limit. */
  function AllTail(items: seq<WorkItem>, spin: char): seq<string> {
    if items == [] then [] else AllTail(items[1..], spin) + ItemTail(items[0], spin)
  }

  /** How many lines fit: the limit, but the first line is always emitted before the limit is checked. */
  function Capacity(limit: int): (n: nat)
    ensures n >= 1 && (limit >= 1 ==> n == limit)
  {
    if limit >= 1 then limit else 1
  }

  /** The lines of the newer items come before those of the older ones. */
  lemma {:induction false} NewerFirst(items: seq<WorkItem>, spin: char, i: nat)
    requires i <= |items|
    ensures AllTail(items[i..], spin) <= AllTail(items, spin)
    decreases i
  {
    if i > 0 {
      NewerFirst(items, spin, i - 1);
      assert items[i - 1..][1..] == items[i..];
    }
  }

  /** The tail is made of the tails of the items, newest first: appending an item puts its lines in front. */
  lemma AppendedItemFirst(items: seq<WorkItem>, item: WorkItem, spin: char)
    ensures AllTail(items + [item], spin) == ItemTail(item, spin) + AllTail(items, spin)
  {
    if items != [] {
      assert (items + [item])[1..] == items[1..] + [item];
      AppendedItemFirst(items[1..], item, spin);
    }
  }

  /** A hidden finished item adds nothing, and an unfinished one always shows its summary. */
  lemma UnfinishedAlwaysShown(items: seq<WorkItem>, item: WorkItem, spin: char)
    ensures !item.finished ==> Summary(item, spin) in AllTail(items + [item], spin)
    ensures item.finished && !item.visible ==> AllTail(items + [item], spin) == AllTail(items, spin)
  {
    AppendedItemFirst(items, item, spin);
  }
}
