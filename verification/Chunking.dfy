/**
 Greedy packing of units into chunks with whole-unit overlap. The drafts are
 windows of the unit list that the token counter and the two limits determine
 completely; without their overlaps the windows are the unit list.
 */
module Chunking {
  import opened Prelude
  import opened Text
  import opened TextParser
  import opened Units

  datatype Config = Config(maxTokens: nat, overlapTokens: nat)

  datatype Source = Source(blockIndex: nat, locator: Locator)

  datatype Draft = Draft(content: string, tokenCount: nat, blockStart: nat, blockEnd: nat, sources: seq<Source>)

  /** A chunk in terms of the unit list: units `from` up to but excluding `to`. */
  datatype Window = Window(from: nat, to: nat)

  function JoinUnits(units: seq<Unit>): string {
    Join(UnitTexts(units), "\n\n")
  }

  function CountUnits(count: string -> nat, units: seq<Unit>): nat {
    count(JoinUnits(units))
  }

  function SourcesOf(units: seq<Unit>): seq<Source> {
    if units == [] then []
    else SourcesOf(units[..|units| - 1]) + [Source(units[|units| - 1].blockIndex, units[|units| - 1].locator)]
  }

  /** _make_draft */
  function MakeDraft(count: string -> nat, units: seq<Unit>): Draft
    requires units != []
  {
    Draft(JoinUnits(units), CountUnits(count, units), units[0].blockIndex, units[|units| - 1].blockIndex, SourcesOf(units))
  }

  /** The token count of units as they will be joined. */
  function Weigh(count: string -> nat): seq<Unit> -> nat {
    units => CountUnits(count, units)
  }

  // ---- What the packing must be ------------------------------------------------------

  /** The overlap `[j, to)` fits the overlap limit, and fits a chunk together with the next unit. */
  ghost predicate OverlapFits(weigh: seq<Unit> -> nat, cfg: Config, units: seq<Unit>, j: nat, to: nat) {
    && j <= to < |units|
    && weigh(units[j..to]) <= cfg.overlapTokens
    && weigh(units[j..to + 1]) <= cfg.maxTokens
  }

  /** The overlap starts at `j`: taking one unit more at a time from the end, `j - 1` is the first that does not fit. */
  ghost predicate OverlapStartsAt(weigh: seq<Unit> -> nat, cfg: Config, units: seq<Unit>, from: nat, j: nat, to: nat) {
    && from <= j <= to < |units|
    && (forall i :: j <= i < to ==> OverlapFits(weigh, cfg, units, i, to))
    && (j == from || !OverlapFits(weigh, cfg, units, j - 1, to))
  }

  /** Units were added while they fitted, starting after the `seen` units of the overlap. */
  ghost predicate Grown(weigh: seq<Unit> -> nat, cfg: Config, units: seq<Unit>, w: Window, seen: nat) {
    && w.from <= seen < w.to <= |units|
    && (forall e :: seen < e <= w.to && w.from + 1 < e ==> weigh(units[w.from..e]) <= cfg.maxTokens)
  }

  ghost predicate Follows(weigh: seq<Unit> -> nat, cfg: Config, units: seq<Unit>, w: Window, x: Window) {
    && w.from < w.to < |units|
    && weigh(units[w.from..w.to + 1]) > cfg.maxTokens
    && OverlapStartsAt(weigh, cfg, units, w.from, x.from, w.to)
    && Grown(weigh, cfg, units, x, w.to)
  }

  ghost predicate Chained(weigh: seq<Unit> -> nat, cfg: Config, units: seq<Unit>, windows: seq<Window>) {
    && windows != [] && windows[0].from == 0 && Grown(weigh, cfg, units, windows[0], 0)
    && (forall k {:trigger Follows(weigh, cfg, units, windows[k], windows[k + 1])} :: 0 <= k < |windows| - 1 ==> Follows(weigh, cfg, units, windows[k], windows[k + 1]))
  }

  /** The windows pack all the units. */
  ghost predicate Packing(weigh: seq<Unit> -> nat, cfg: Config, units: seq<Unit>, windows: seq<Window>) {
    Chained(weigh, cfg, units, windows) && windows[|windows| - 1].to == |units|
  }

  /** Each window became one draft. */
  ghost predicate DraftsOf(make: seq<Unit> --> Draft, units: seq<Unit>, windows: seq<Window>, drafts: seq<Draft>)
    requires Makes(make)
  {
    && |drafts| == |windows|
    && (forall k :: 0 <= k < |windows| ==>
          && windows[k].from < windows[k].to <= |units|
          && drafts[k] == make(units[windows[k].from..windows[k].to]))
  }

  ghost predicate Makes(make: seq<Unit> --> Draft) {
    forall units :: units != [] ==> make.requires(units)
  }

  function Making(count: string -> nat): (make: seq<Unit> --> Draft)
    ensures Makes(make)
  {
    units requires units != [] => MakeDraft(count, units)
  }

  // ---- The two loops -----------------------------------------------------------------

  /** _overlap_for_next_chunk: the last units of the previous chunk, for `units[from..]` beginning with that chunk. */
  method OverlapForNextChunk(weigh: seq<Unit> -> nat, cfg: Config, previous: seq<Unit>, next: Unit,
                             ghost units: seq<Unit>, ghost from: nat)
    returns (overlap: seq<Unit>)
    requires from + |previous| < |units|
    requires previous == units[from..from + |previous|] && next == units[from + |previous|]
    ensures |overlap| <= |previous| && overlap == previous[|previous| - |overlap|..]
    ensures OverlapStartsAt(weigh, cfg, units, from, from + |previous| - |overlap|, from + |previous|)
  {
    ghost var to := from + |previous|;
    overlap := [];
    var i := |previous|;
    while i > 0
      invariant 0 <= i <= |previous| && |overlap| == |previous| - i
      invariant overlap == previous[i..] == units[from + i..to]
      invariant forall k :: from + i <= k < to ==> OverlapFits(weigh, cfg, units, k, to)
    {
      var candidate := [previous[i - 1]] + overlap;
      assert candidate == units[from + i - 1..to];
      assert candidate + [next] == units[from + i - 1..to + 1];
      if weigh(candidate) > cfg.overlapTokens {
        break;
      }
      if weigh(candidate + [next]) > cfg.maxTokens {
        break;
      }
      overlap := candidate;
      i := i - 1;
    }
  }

  /** The open chunk may be closed as the next window. */
  ghost predicate Opened(weigh: seq<Unit> -> nat, cfg: Config, units: seq<Unit>, windows: seq<Window>, x: Window) {
    if windows == [] then x.from == 0 && Grown(weigh, cfg, units, x, 0)
    else Chained(weigh, cfg, units, windows) && Follows(weigh, cfg, units, windows[|windows| - 1], x)
  }

  lemma CloseKeeps(weigh: seq<Unit> -> nat, cfg: Config, units: seq<Unit>, windows: seq<Window>, x: Window)
    requires Opened(weigh, cfg, units, windows, x)
    ensures Chained(weigh, cfg, units, windows + [x])
  {}

  /** The overlap and the next unit open the next chunk. */
  lemma NextOpens(weigh: seq<Unit> -> nat, cfg: Config, units: seq<Unit>, windows: seq<Window>, j: nat)
    requires Chained(weigh, cfg, units, windows)
    requires var w := windows[|windows| - 1];
             && w.from < w.to < |units| && weigh(units[w.from..w.to + 1]) > cfg.maxTokens
             && OverlapStartsAt(weigh, cfg, units, w.from, j, w.to)
    ensures Opened(weigh, cfg, units, windows, Window(j, windows[|windows| - 1].to + 1))
  {
    var w := windows[|windows| - 1];
    if j < w.to {
      assert OverlapFits(weigh, cfg, units, j, w.to);
    }
  }

  /** The state before unit `n`: nothing yet, or a chunk open up to `n`. */
  ghost predicate Packed(weigh: seq<Unit> -> nat, cfg: Config, units: seq<Unit>, n: nat, windows: seq<Window>, x: Window, current: seq<Unit>) {
    && n <= |units|
    && if n == 0 then current == [] && windows == []
       else x.from < x.to == n && current == units[x.from..n] && Opened(weigh, cfg, units, windows, x)
  }

  /** One more unit in the open chunk. */
  lemma AddUnit(weigh: seq<Unit> -> nat, cfg: Config, units: seq<Unit>, n: nat, windows: seq<Window>, x: Window, current: seq<Unit>)
    requires Packed(weigh, cfg, units, n, windows, x, current) && n < |units|
    requires current == [] || weigh(current + [units[n]]) <= cfg.maxTokens
    ensures Packed(weigh, cfg, units, n + 1, windows, Window(if n == 0 then 0 else x.from, n + 1), current + [units[n]])
  {}

  /** The open chunk is full: it becomes a window, and the next one opens with the overlap. */
  lemma CloseAndOpen(weigh: seq<Unit> -> nat, cfg: Config, units: seq<Unit>, n: nat, windows: seq<Window>, x: Window, current: seq<Unit>, j: nat)
    requires Packed(weigh, cfg, units, n, windows, x, current) && n < |units| && current != []
    requires weigh(current + [units[n]]) > cfg.maxTokens
    requires OverlapStartsAt(weigh, cfg, units, x.from, j, n)
    ensures Packed(weigh, cfg, units, n + 1, windows + [x], Window(j, n + 1), units[j..n] + [units[n]])
  {
    assert current + [units[n]] == units[x.from..n + 1];
    assert units[j..n] + [units[n]] == units[j..n + 1];
    CloseKeeps(weigh, cfg, units, windows, x);
    NextOpens(weigh, cfg, units, windows + [x], j);
  }

  lemma DraftsGrow(make: seq<Unit> --> Draft, units: seq<Unit>, windows: seq<Window>, drafts: seq<Draft>, x: Window)
    requires Makes(make) && DraftsOf(make, units, windows, drafts) && x.from < x.to <= |units|
    ensures DraftsOf(make, units, windows + [x], drafts + [make(units[x.from..x.to])])
  {}

  /** A full chunk becomes a draft, and the next one opens with the overlap found for it. */
  lemma CloseStep(weigh: seq<Unit> -> nat, make: seq<Unit> --> Draft, cfg: Config, units: seq<Unit>, n: nat,
                  windows: seq<Window>, drafts: seq<Draft>, x: Window, current: seq<Unit>, overlap: seq<Unit>)
    requires Makes(make) && Packed(weigh, cfg, units, n, windows, x, current) && DraftsOf(make, units, windows, drafts)
    requires n < |units| && current != [] && weigh(current + [units[n]]) > cfg.maxTokens
    requires |overlap| <= |current| && overlap == current[|current| - |overlap|..]
    requires OverlapStartsAt(weigh, cfg, units, x.from, n - |overlap|, n)
    ensures Packed(weigh, cfg, units, n + 1, windows + [x], Window(n - |overlap|, n + 1), overlap + [units[n]])
    ensures DraftsOf(make, units, windows + [x], drafts + [make(current)])
  {
    SuffixOfSlice(units, x.from, n, |overlap|);
    CloseAndOpen(weigh, cfg, units, n, windows, x, current, n - |overlap|);
    DraftsGrow(make, units, windows, drafts, x);
  }

  lemma LastStep(weigh: seq<Unit> -> nat, make: seq<Unit> --> Draft, cfg: Config, units: seq<Unit>,
                 windows: seq<Window>, drafts: seq<Draft>, x: Window, current: seq<Unit>)
    requires Makes(make) && units != [] && Packed(weigh, cfg, units, |units|, windows, x, current) && DraftsOf(make, units, windows, drafts)
    ensures current != [] && IsPacked(weigh, make, cfg, units, drafts + [make(current)])
  {
    CloseKeeps(weigh, cfg, units, windows, x);
    DraftsGrow(make, units, windows, drafts, x);
    assert Packing(weigh, cfg, units, windows + [x]);
  }

  /** The drafts are made of the windows of a packing. */
  ghost predicate IsPacked(weigh: seq<Unit> -> nat, make: seq<Unit> --> Draft, cfg: Config, units: seq<Unit>, drafts: seq<Draft>)
    requires Makes(make)
  {
    exists windows :: Packing(weigh, cfg, units, windows) && DraftsOf(make, units, windows, drafts)
  }

  /** The packing loop of chunk(), for any way of weighing units and making drafts. */
  method Pack(weigh: seq<Unit> -> nat, make: seq<Unit> --> Draft, cfg: Config, units: seq<Unit>) returns (drafts: seq<Draft>)
    requires units != [] && Makes(make)
    ensures IsPacked(weigh, make, cfg, units, drafts)
  {
    drafts := [];
    ghost var windows: seq<Window> := [];
    var current: seq<Unit> := [];
    ghost var x := Window(0, 0);
    for n := 0 to |units|
      invariant Packed(weigh, cfg, units, n, windows, x, current)
      invariant DraftsOf(make, units, windows, drafts)
    {
      var unit := units[n];
      if current != [] && weigh(current + [unit]) > cfg.maxTokens {
        var overlap := OverlapForNextChunk(weigh, cfg, current, unit, units, x.from);
        CloseStep(weigh, make, cfg, units, n, windows, drafts, x, current, overlap);
        drafts := drafts + [make(current)];
        windows := windows + [x];
        current, x := overlap + [unit], Window(n - |overlap|, n + 1);
      } else {
        AddUnit(weigh, cfg, units, n, windows, x, current);
        current, x := current + [unit], Window(if n == 0 then 0 else x.from, n + 1);
      }
    }
    LastStep(weigh, make, cfg, units, windows, drafts, x, current);
    drafts := drafts + [make(current)];
  }

  /** StructureAwareChunker.chunk */
  method Chunk(count: string -> nat, cfg: Config, blocks: seq<Block>) returns (r: Result<seq<Draft>, ChunkingError>)
    ensures match UnitsOfBlocks(count, cfg.maxTokens, blocks)
            case Err(e) => r == Err(e)
            case Ok(units) =>
              if units == [] then r == Err(NoChunkableText)
              else r.Ok? && IsPacked(Weigh(count), Making(count), cfg, units, r.value)
  {
    var units := UnitsForBlocks(count, cfg.maxTokens, blocks);
    if units.Err? {
      return Err(units.error);
    }
    if units.value == [] {
      return Err(NoChunkableText);
    }
    var drafts := Pack(Weigh(count), Making(count), cfg, units.value);
    return Ok(drafts);
  }

  // ---- What the packing means ---------------------------------------------------------

  lemma StepAt(weigh: seq<Unit> -> nat, cfg: Config, units: seq<Unit>, windows: seq<Window>, k: nat)
    requires Chained(weigh, cfg, units, windows) && k + 1 < |windows|
    ensures Follows(weigh, cfg, units, windows[k], windows[k + 1])
  {}

  /** One window to the next: both ends move forward, without a gap, and the shared units fit the overlap limit. */
  lemma WindowsAdvance(weigh: seq<Unit> -> nat, cfg: Config, units: seq<Unit>, windows: seq<Window>, k: nat)
    requires Chained(weigh, cfg, units, windows) && k + 1 < |windows|
    ensures windows[k].from < windows[k + 1].from <= windows[k].to < windows[k + 1].to <= |units|
    ensures windows[k + 1].from < windows[k].to ==>
              weigh(units[windows[k + 1].from..windows[k].to]) <= cfg.overlapTokens
  {
    assert Follows(weigh, cfg, units, windows[k], windows[k + 1]);
    var w, j := windows[k], windows[k + 1].from;
    assert j < w.to ==> OverlapFits(weigh, cfg, units, j, w.to);
  }

  /** The units each window adds to the ones before it, in order. */
  function FreshUnits(units: seq<Unit>, windows: seq<Window>): seq<Unit>
    requires forall k :: 0 <= k < |windows| ==> windows[k].to <= |units|
    requires forall k :: 0 <= k < |windows| - 1 ==> windows[k].to <= windows[k + 1].to
  {
    if windows == [] then []
    else
      var n := |windows| - 1;
      FreshUnits(units, windows[..n]) + units[if n == 0 then 0 else windows[n - 1].to..windows[n].to]
  }

  lemma {:induction false} FreshUnitsUpTo(units: seq<Unit>, windows: seq<Window>)
    requires windows != []
    requires forall k :: 0 <= k < |windows| ==> windows[k].to <= |units|
    requires forall k :: 0 <= k < |windows| - 1 ==> windows[k].to <= windows[k + 1].to
    ensures FreshUnits(units, windows) == units[..windows[|windows| - 1].to]
  {
    if |windows| <= 1 {
    } else {
      FreshUnitsUpTo(units, windows[..|windows| - 1]);
    }
  }

  /** Without the overlaps, the windows are the unit list: nothing lost, repeated or reordered. */
  lemma OverlapsAsideNothingRepeats(weigh: seq<Unit> -> nat, cfg: Config, units: seq<Unit>, windows: seq<Window>)
    requires Packing(weigh, cfg, units, windows)
    ensures forall k :: 0 <= k < |windows| ==> windows[k].to <= |units|
    ensures forall k :: 0 <= k < |windows| - 1 ==> windows[k].to <= windows[k + 1].to
    ensures FreshUnits(units, windows) == units
  {
    forall k | 0 <= k < |windows|
      ensures windows[k].to <= |units| && (k + 1 < |windows| ==> windows[k].to <= windows[k + 1].to)
    {
      if k + 1 < |windows| {
        WindowsAdvance(weigh, cfg, units, windows, k);
      }
    }
    FreshUnitsUpTo(units, windows);
  }

  // ---- The packing is the only one ------------------------------------------------------

  lemma SameOverlap(weigh: seq<Unit> -> nat, cfg: Config, units: seq<Unit>, from: nat, to: nat, j: nat, j': nat)
    requires OverlapStartsAt(weigh, cfg, units, from, j, to) && OverlapStartsAt(weigh, cfg, units, from, j', to)
    ensures j == j'
  {}

  /** A window ends where it must: at the first unit that does not fit, or at the end. */
  ghost predicate Full(weigh: seq<Unit> -> nat, cfg: Config, units: seq<Unit>, w: Window) {
    w.from < w.to == |units| || (w.from < w.to < |units| && weigh(units[w.from..w.to + 1]) > cfg.maxTokens)
  }

  lemma SameEnd(weigh: seq<Unit> -> nat, cfg: Config, units: seq<Unit>, w: Window, w': Window, seen: nat)
    requires w.from == w'.from
    requires Grown(weigh, cfg, units, w, seen) && Grown(weigh, cfg, units, w', seen)
    requires Full(weigh, cfg, units, w) && Full(weigh, cfg, units, w')
    ensures w == w'
  {}

  lemma WindowIsFull(weigh: seq<Unit> -> nat, cfg: Config, units: seq<Unit>, windows: seq<Window>, k: nat)
    requires Packing(weigh, cfg, units, windows) && k < |windows|
    ensures Full(weigh, cfg, units, windows[k])
  {
    if k + 1 < |windows| {
      assert Follows(weigh, cfg, units, windows[k], windows[k + 1]);
    } else if k > 0 {
      StepAt(weigh, cfg, units, windows, k - 1);
    }
  }

  lemma {:induction false} SameWindow(weigh: seq<Unit> -> nat, cfg: Config, units: seq<Unit>, ws: seq<Window>, ws': seq<Window>, k: nat)
    requires Packing(weigh, cfg, units, ws) && Packing(weigh, cfg, units, ws')
    requires k < |ws| && k < |ws'|
    ensures ws[k] == ws'[k]
  {
    WindowIsFull(weigh, cfg, units, ws, k);
    WindowIsFull(weigh, cfg, units, ws', k);
    if k == 0 {
      SameEnd(weigh, cfg, units, ws[0], ws'[0], 0);
    } else {
      SameWindow(weigh, cfg, units, ws, ws', k - 1);
      StepAt(weigh, cfg, units, ws, k - 1);
      StepAt(weigh, cfg, units, ws', k - 1);
      SameOverlap(weigh, cfg, units, ws[k - 1].from, ws[k - 1].to, ws[k].from, ws'[k].from);
      SameEnd(weigh, cfg, units, ws[k], ws'[k], ws[k - 1].to);
    }
  }

  lemma NoLonger(weigh: seq<Unit> -> nat, cfg: Config, units: seq<Unit>, ws: seq<Window>, ws': seq<Window>)
    requires Packing(weigh, cfg, units, ws) && Packing(weigh, cfg, units, ws')
    ensures |ws| >= |ws'|
  {
    if |ws| < |ws'| {
      SameWindow(weigh, cfg, units, ws, ws', |ws| - 1);
      WindowsAdvance(weigh, cfg, units, ws', |ws| - 1);
    }
  }

  /** The counter and the two limits determine the windows completely. */
  lemma PackingIsUnique(weigh: seq<Unit> -> nat, cfg: Config, units: seq<Unit>, ws: seq<Window>, ws': seq<Window>)
    requires Packing(weigh, cfg, units, ws) && Packing(weigh, cfg, units, ws')
    ensures ws == ws'
  {
    NoLonger(weigh, cfg, units, ws, ws');
    NoLonger(weigh, cfg, units, ws', ws);
    forall k | 0 <= k < |ws| ensures ws[k] == ws'[k] {
      SameWindow(weigh, cfg, units, ws, ws', k);
    }
  }

  // ---- Size and content of the drafts -----------------------------------------------------

  lemma OneUnitWeighsItsText(count: string -> nat, unit: Unit)
    ensures CountUnits(count, [unit]) == count(unit.text)
  {
    assert [unit][..0] == [];
    assert UnitTexts([unit]) == [unit.text];
  }

  lemma WindowFits(weigh: seq<Unit> -> nat, cfg: Config, units: seq<Unit>, windows: seq<Window>, k: nat)
    requires Packing(weigh, cfg, units, windows) && k < |windows|
    ensures windows[k].from + 1 == windows[k].to <= |units|
            || (windows[k].from < windows[k].to <= |units| && weigh(units[windows[k].from..windows[k].to]) <= cfg.maxTokens)
  {
    if k > 0 {
      StepAt(weigh, cfg, units, windows, k - 1);
    }
  }

  lemma DraftCountsItsUnits(count: string -> nat, units: seq<Unit>, windows: seq<Window>, drafts: seq<Draft>, k: nat)
    requires DraftsOf(Making(count), units, windows, drafts) && k < |drafts|
    ensures windows[k].from < windows[k].to <= |units|
    ensures drafts[k].tokenCount == CountUnits(count, units[windows[k].from..windows[k].to])
  {}

  /** No draft exceeds the token limit: several units were counted together, and one unit was cut to fit. */
  lemma DraftsFit(count: string -> nat, cfg: Config, blocks: seq<Block>, units: seq<Unit>, windows: seq<Window>, drafts: seq<Draft>, k: nat)
    requires NoneBlank(blocks) && UnitsOfBlocks(count, cfg.maxTokens, blocks) == Ok(units)
    requires Packing(Weigh(count), cfg, units, windows) && DraftsOf(Making(count), units, windows, drafts) && k < |drafts|
    ensures drafts[k].tokenCount <= cfg.maxTokens
  {
    var w := windows[k];
    DraftCountsItsUnits(count, units, windows, drafts, k);
    WindowFits(Weigh(count), cfg, units, windows, k);
    if w.from + 1 == w.to {
      assert units[w.from..w.to] == [units[w.from]];
      UnitFits(count, cfg, blocks, units, w.from);
    }
  }

  lemma UnitFits(count: string -> nat, cfg: Config, blocks: seq<Block>, units: seq<Unit>, i: nat)
    requires NoneBlank(blocks) && UnitsOfBlocks(count, cfg.maxTokens, blocks) == Ok(units) && i < |units|
    ensures CountUnits(count, [units[i]]) <= cfg.maxTokens
  {
    UnitsGood(count, cfg.maxTokens, blocks);
    assert FromBlocks(count, cfg.maxTokens, blocks, units[i]);
    OneUnitWeighsItsText(count, units[i]);
  }

  lemma {:induction false} SourcesAt(units: seq<Unit>)
    ensures |SourcesOf(units)| == |units|
    ensures forall i :: 0 <= i < |units| ==> SourcesOf(units)[i] == Source(units[i].blockIndex, units[i].locator)
  {
    if units == [] {
    } else {
      SourcesAt(units[..|units| - 1]);
    }
  }

  /** A draft cites each of its units, in order, says which blocks it reaches from and to, and counts the tokens of its content. */
  lemma DraftCitesItsUnits(count: string -> nat, units: seq<Unit>)
    requires units != []
    ensures var draft := MakeDraft(count, units);
            && draft.tokenCount == count(draft.content)
            && draft.blockStart == units[0].blockIndex && draft.blockEnd == units[|units| - 1].blockIndex
            && |draft.sources| == |units|
            && forall i :: 0 <= i < |units| ==> draft.sources[i].blockIndex == units[i].blockIndex && draft.sources[i].locator == units[i].locator
  {
    SourcesAt(units);
  }

  /** The content of a draft is the text of its units with a blank line between each and the next. */
  lemma DraftContentGrows(count: string -> nat, units: seq<Unit>, last: Unit)
    ensures MakeDraft(count, units + [last]).content ==
            if units == [] then last.text else MakeDraft(count, units).content + "\n\n" + last.text
  {
    assert (units + [last])[..|units|] == units;
    assert UnitTexts(units + [last]) == UnitTexts(units) + [last.text];
    UnitTextsAsMany(units);
    assert (UnitTexts(units) + [last.text])[..|units|] == UnitTexts(units);
  }

  lemma {:induction false} UnitTextsAsMany(units: seq<Unit>)
    ensures |UnitTexts(units)| == |units|
  {
    if units == [] {
    } else {
      UnitTextsAsMany(units[..|units| - 1]);
    }
  }

  /** A draft shows what its units show, so it is never blank. */
  lemma DraftShowsItsUnits(count: string -> nat, units: seq<Unit>)
    requires units != [] && !Blank(units[|units| - 1].text)
    ensures Visible(MakeDraft(count, units).content) == Shown(units)
    ensures !Blank(MakeDraft(count, units).content)
  {
    SpacesAreBlank("\n\n");
    JoinKeepsVisible(UnitTexts(units), "\n\n");
    ShownLast(units[..|units| - 1], units[|units| - 1]);
    assert units == units[..|units| - 1] + [units[|units| - 1]];
  }

  /** From a text file to chunks: dropping overlaps, the chunks show exactly the file's text. */
  lemma ChunksKeepTheFile(count: string -> nat, cfg: Config, text: string, units: seq<Unit>, windows: seq<Window>)
    requires UnitsOfBlocks(count, cfg.maxTokens, ParagraphBlocksOf(SplitLines(text))) == Ok(units)
    requires Packing(Weigh(count), cfg, units, windows)
    ensures forall k :: 0 <= k < |windows| ==> windows[k].to <= |units|
    ensures forall k :: 0 <= k < |windows| - 1 ==> windows[k].to <= windows[k + 1].to
    ensures Shown(FreshUnits(units, windows)) == Visible(text)
  {
    OverlapsAsideNothingRepeats(Weigh(count), cfg, units, windows);
    UnitsKeepTheFile(count, cfg.maxTokens, text);
  }
}
