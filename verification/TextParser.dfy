/**
 The plain-text parser: lines, then paragraphs. Paragraph blocks are exactly the
 maximal runs of non-blank lines, and nothing visible is lost on the way.
 */
module TextParser {
  import opened Prelude
  import opened Text

  datatype Locator = Locator(lineStart: nat, lineEnd: nat, segment: Option<nat>)

  datatype Block = Block(text: string, index: nat, locator: Locator)

  datatype ParseError = InvalidDocument | NoParseableText

  // ---- Lines ----------------------------------------------------------------

  /** The characters at which `str.splitlines` ends a line. */
  predicate IsBreak(c: char) {
    '\n' <= c <= '\r' || '\U{1C}' <= c <= '\U{1E}' || c == '\U{85}' || c == '\U{2028}' || c == '\U{2029}'
  }

  lemma BreaksArePythons(c: char)
    ensures IsBreak(c) <==> c as int in {10, 11, 12, 13, 28, 29, 30, 133, 8232, 8233}
  {}

  function BreakAt(s: string): (n: nat)
    ensures n <= |s| && (n < |s| ==> IsBreak(s[n]))
    ensures forall i :: 0 <= i < n ==> !IsBreak(s[i])
  {
    if s == [] || IsBreak(s[0]) then 0 else 1 + BreakAt(s[1..])
  }

  /** How many characters the break at `n` takes: CR LF is one break, the end of the text is none. */
  function BreakLength(s: string, n: nat): (k: nat)
    requires n <= |s|
    ensures n + k <= |s| && (k == 0 <==> n == |s|)
  {
    if n == |s| then 0
    else if s[n] == '\r' && n + 1 < |s| && s[n + 1] == '\n' then 2
    else 1
  }

  function SplitLines(s: string): seq<string>
    decreases |s|
  {
    if s == [] then []
    else
      var n := BreakAt(s);
      [s[..n]] + SplitLines(s[n + BreakLength(s, n)..])
  }

  ghost predicate Unbroken(line: string) {
    forall i :: 0 <= i < |line| ==> !IsBreak(line[i])
  }

  lemma {:induction false} LinesAreUnbroken(s: string)
    ensures forall line :: line in SplitLines(s) ==> Unbroken(line)
    decreases |s|
  {
    if s == [] {
    } else {
      LinesAreUnbroken(s[BreakAt(s) + BreakLength(s, BreakAt(s))..]);
    }
  }

  /** Line `i` is `[from, to)` of the text. */
  datatype Extent = Extent(from: nat, to: nat)

  /** One line break and no more: CR LF together, or one break character. */
  ghost predicate OneBreak(s: string, from: int, to: int) {
    && 0 <= from < to <= |s| && IsBreak(s[from])
    && if s[from] == '\r' && from + 1 < |s| && s[from + 1] == '\n' then to == from + 2 else to == from + 1
  }

  /** The extents are the lines of the text: unbroken, one break between each and the next, and at most one break after the last. */
  ghost predicate LinesAt(s: string, start: nat, extents: seq<Extent>) {
    && start <= |s|
    && (extents == [] <==> start == |s|)
    && (forall i :: 0 <= i < |extents| ==> extents[i].from <= extents[i].to <= |s| && Unbroken(s[extents[i].from..extents[i].to]))
    && (extents != [] ==> extents[0].from == start && var last := extents[|extents| - 1].to; last == |s| || OneBreak(s, last, |s|))
    && (forall i :: 0 <= i < |extents| - 1 ==> OneBreak(s, extents[i].to, extents[i + 1].from))
  }

  /** The lines of the text from `start` on are these, at these places. */
  ghost predicate SplitsInto(s: string, start: nat, extents: seq<Extent>, lines: seq<string>) {
    && LinesAt(s, start, extents) && |extents| == |lines|
    && (forall i :: 0 <= i < |extents| ==> lines[i] == s[extents[i].from..extents[i].to])
  }

  lemma LinesGrow(s: string, start: nat, to: nat, next: nat, rest: seq<Extent>, lines: seq<string>)
    requires start <= to <= next <= |s| && start < |s| && Unbroken(s[start..to])
    requires SplitsInto(s, next, rest, lines) && (OneBreak(s, to, next) || to == next == |s|)
    ensures SplitsInto(s, start, [Extent(start, to)] + rest, [s[start..to]] + lines)
  {}

  lemma NoLines(s: string)
    ensures SplitsInto(s, |s|, [], SplitLines(s[|s|..]))
  {}

  lemma BreakInPlace(s: string, start: nat, n: nat)
    requires start <= |s| && n == BreakAt(s[start..])
    ensures var to, next := start + n, start + n + BreakLength(s[start..], n);
            to <= next <= |s| && Unbroken(s[start..to]) && (OneBreak(s, to, next) || to == next == |s|)
  {
    assert forall i :: 0 <= i < n ==> s[start..start + n][i] == s[start..][i];
  }

  lemma FirstLine(s: string, n: nat, next: nat)
    requires s != [] && n == BreakAt(s) && next == n + BreakLength(s, n)
    ensures SplitLines(s) == [s[..n]] + SplitLines(s[next..])
  {}

  lemma FirstLineAt(s: string, start: nat, to: nat, next: nat)
    requires start < |s| && to == start + BreakAt(s[start..]) && next == to + BreakLength(s[start..], to - start)
    ensures start <= to <= next <= |s| && SplitLines(s[start..]) == [s[start..to]] + SplitLines(s[next..])
  {
    FirstLine(s[start..], to - start, next - start);
    SuffixParts(s, start, to);
    SuffixParts(s, start, next);
  }

  /** Splitting cuts the text at every line break and nowhere else; CR LF is one break. */
  lemma {:induction false} SplitLinesIsExact(s: string, start: nat) returns (extents: seq<Extent>)
    requires start <= |s|
    ensures SplitsInto(s, start, extents, SplitLines(s[start..]))
    decreases |s| - start
  {
    if start == |s| {
      NoLines(s);
      extents := [];
    } else {
      var to := start + BreakAt(s[start..]);
      var next := to + BreakLength(s[start..], to - start);
      var rest := SplitLinesIsExact(s, next);
      BreakInPlace(s, start, to - start);
      FirstLineAt(s, start, to, next);
      LinesGrow(s, start, to, next, rest, SplitLines(s[next..]));
      extents := [Extent(start, to)] + rest;
    }
  }

  /** The text of some lines, each ended by the same break. */
  ghost function Ended(lines: seq<string>, end: string): string {
    if lines == [] then [] else lines[0] + end + Ended(lines[1..], end)
  }

  /** A file reads the same with the line ends of Windows, of Unix and of old Macs: its lines are the lines it was made of. */
  lemma {:induction false} LinesReadBack(lines: seq<string>, end: string)
    requires end == "\n" || end == "\r\n" || end == "\r"
    requires forall line :: line in lines ==> Unbroken(line)
    ensures SplitLines(Ended(lines, end)) == lines
  {
    if lines == [] {
    } else {
      var s := Ended(lines, end);
      var n := |lines[0]|;
      LinesReadBack(lines[1..], end);
      AfterTheBreak(lines, end);
      BreakComesAt(s, n);
      FirstLine(s, n, n + |end|);
      EndedParts(lines, end);
    }
  }

  lemma EndedParts(lines: seq<string>, end: string)
    requires lines != []
    ensures var s, n := Ended(lines, end), |lines[0]|;
            n + |end| <= |s| && s[..n] == lines[0] && s[n + |end|..] == Ended(lines[1..], end)
  {
    assert Ended(lines, end) == lines[0] + end + Ended(lines[1..], end);
  }

  lemma {:induction false} BreakComesAt(s: string, n: nat)
    requires n < |s| && IsBreak(s[n]) && forall i :: 0 <= i < n ==> !IsBreak(s[i])
    ensures BreakAt(s) == n
  {
    if n == 0 {
    } else {
      BreakComesAt(s[1..], n - 1);
    }
  }

  lemma AfterTheBreak(lines: seq<string>, end: string)
    requires lines != [] && (end == "\n" || end == "\r\n" || end == "\r") && forall line :: line in lines ==> Unbroken(line)
    ensures var s, n := Ended(lines, end), |lines[0]|;
            n < |s| && IsBreak(s[n]) && (forall i :: 0 <= i < n ==> !IsBreak(s[i])) && BreakLength(s, n) == |end|
  {
    var s, n, rest := Ended(lines, end), |lines[0]|, Ended(lines[1..], end);
    assert s == lines[0] + end + rest;
    assert lines[0] in lines;
    forall i | 0 <= i < n ensures !IsBreak(s[i]) {
      assert s[i] == lines[0][i];
    }
    if |lines| > 1 {
      assert lines[1..][0] == lines[1] && lines[1] in lines;
      assert rest == lines[1] + end + Ended(lines[1..][1..], end);
    }
    assert s[n] == end[0];
    if n + 1 < |s| {
      assert s[n + 1] == if |end| == 2 then end[1] else rest[0];
    }
  }

  lemma BreakIsBlank(s: string, n: nat)
    requires n <= |s| && (n < |s| ==> IsBreak(s[n]))
    ensures Blank(s[n..n + BreakLength(s, n)])
  {
    SpacesAreBlank(s[n..n + BreakLength(s, n)]);
  }

  lemma {:induction false} SplitLinesKeepsVisible(s: string)
    ensures Visible(Flatten(SplitLines(s))) == Visible(s)
    decreases |s|
  {
    if s == [] {
    } else {
      var n := BreakAt(s);
      var rest := s[n + BreakLength(s, n)..];
      SplitLinesKeepsVisible(rest);
      FlattenFront(s[..n], SplitLines(rest));
      BreakIsBlank(s, n);
      CutBlank(s, n, n + BreakLength(s, n));
    }
  }

  // ---- Paragraphs -------------------------------------------------------------

  /** `[a, b)` is a run of non-blank lines that cannot be made longer. */
  ghost predicate MaximalRun(lines: seq<string>, a: int, b: int) {
    && 0 <= a < b <= |lines|
    && (forall k :: a <= k < b ==> !Blank(lines[k]))
    && (a == 0 || Blank(lines[a - 1]))
    && (b == |lines| || Blank(lines[b]))
  }

  function RStripped(lines: seq<string>, a: nat, b: nat): seq<string>
    requires a <= b <= |lines|
  {
    if a == b then [] else RStripped(lines, a, b - 1) + [RStrip(lines[b - 1])]
  }

  /** The text of lines `a` to `b`: each without trailing whitespace, joined, and stripped. */
  function ParagraphText(lines: seq<string>, a: nat, b: nat): string
    requires a <= b <= |lines|
  {
    Strip(Join(RStripped(lines, a, b), "\n"))
  }

  lemma {:induction false} RStrippedAt(lines: seq<string>, a: nat, b: nat, k: nat)
    requires a <= k < b <= |lines|
    ensures |RStripped(lines, a, b)| == b - a && RStripped(lines, a, b)[k - a] == RStrip(lines[k])
  {
    RStrippedAsMany(lines, a, b - 1);
    if k == b - 1 {
    } else {
      RStrippedAt(lines, a, b - 1, k);
    }
  }

  lemma {:induction false} RStrippedAsMany(lines: seq<string>, a: nat, b: nat)
    requires a <= b <= |lines|
    ensures |RStripped(lines, a, b)| == b - a
  {
    if a == b {
    } else {
      RStrippedAsMany(lines, a, b - 1);
    }
  }

  /** Unbroken, and with something to show at the end. */
  ghost predicate Solid(line: string) {
    Unbroken(line) && line != [] && !IsSpace(line[|line| - 1])
  }

  lemma {:induction false} JoinedLinesReadBack(parts: seq<string>)
    requires parts != [] && forall i :: 0 <= i < |parts| ==> Solid(parts[i])
    ensures SplitLines(Join(parts, "\n")) == parts
  {
    var s, n := Join(parts, "\n"), |parts[0]|;
    if |parts| == 1 {
      assert parts == [s];
      NoBreakUpTo(s);
      FirstLine(s, |s|, |s|);
      WholePrefix(s);
    } else {
      var rest := parts[1..];
      JoinedLinesReadBack(rest);
      assert parts == [parts[0]] + rest;
      JoinFront(parts[0], rest, "\n");
      assert s == parts[0] + "\n" + Join(rest, "\n");
      forall i | 0 <= i < n ensures !IsBreak(s[i]) {
        assert s[i] == parts[0][i];
      }
      BreakComesAt(s, n);
      FirstLine(s, n, n + 1);
      assert s[..n] == parts[0] && s[n + 1..] == Join(rest, "\n");
    }
  }

  lemma {:induction false} NoBreakUpTo(s: string)
    requires Unbroken(s)
    ensures BreakAt(s) == |s|
  {
    if s == [] {
    } else {
      assert forall i :: 0 <= i < |s| - 1 ==> s[1..][i] == s[i + 1];
      NoBreakUpTo(s[1..]);
    }
  }

  lemma SolidLine(line: string)
    requires Unbroken(line) && !Blank(line)
    ensures Solid(RStrip(line)) && LStrip(RStrip(line)) != [] && Solid(LStrip(RStrip(line)))
  {
    var r := RStrip(line);
    RStripIsPrefix(line);
    RStripKeepsVisible(line);
    LStripKeepsVisible(r);
    LStripIsSuffix(r);
  }

  lemma JoinLast(parts: seq<string>, separator: string)
    requires parts != [] && parts[|parts| - 1] != []
    ensures var s, last := Join(parts, separator), parts[|parts| - 1]; s != [] && s[|s| - 1] == last[|last| - 1]
  {}

  lemma NothingToStrip(s: string)
    requires s != [] && !IsSpace(s[|s| - 1])
    ensures RStrip(s) == s
  {}

  lemma JoinEnds(parts: seq<string>)
    requires parts != [] && forall i :: 0 <= i < |parts| ==> Solid(parts[i])
    ensures Join(parts, "\n") != [] && RStrip(Join(parts, "\n")) == Join(parts, "\n")
  {
    assert Solid(parts[|parts| - 1]);
    JoinLast(parts, "\n");
    NothingToStrip(Join(parts, "\n"));
  }

  lemma SolidRun(lines: seq<string>, a: nat, b: nat)
    requires a < b <= |lines| && forall k :: a <= k < b ==> Unbroken(lines[k]) && !Blank(lines[k])
    ensures var rest := RStripped(lines, a + 1, b);
            RStripped(lines, a, b) == [RStrip(lines[a])] + rest && forall i :: 0 <= i < |rest| ==> Solid(rest[i])
  {
    var all, rest := RStripped(lines, a, b), RStripped(lines, a + 1, b);
    RStrippedAsMany(lines, a, b);
    RStrippedAsMany(lines, a + 1, b);
    RStrippedAt(lines, a, b, a);
    forall i | 0 <= i < |rest| ensures all[i + 1] == rest[i] && Solid(rest[i]) {
      RStrippedAt(lines, a, b, a + 1 + i);
      RStrippedAt(lines, a + 1, b, a + 1 + i);
      SolidLine(lines[a + 1 + i]);
    }
  }

  /** The text of a paragraph, split again, gives back its lines: each without trailing whitespace, the first one without leading whitespace. */
  lemma ParagraphReadsBack(lines: seq<string>, a: nat, b: nat)
    requires a < b <= |lines| && forall k :: a <= k < b ==> Unbroken(lines[k]) && !Blank(lines[k])
    ensures var read := SplitLines(ParagraphText(lines, a, b));
            && |read| == b - a && read[0] == LStrip(RStrip(lines[a]))
            && forall k :: a < k < b ==> read[k - a] == RStrip(lines[k])
  {
    var first, rest := RStrip(lines[a]), RStripped(lines, a + 1, b);
    SolidRun(lines, a, b);
    SolidLine(lines[a]);
    LStripOfJoin(first, rest, "\n");
    JoinEnds([LStrip(first)] + rest);
    JoinedLinesReadBack([LStrip(first)] + rest);
    TrimmedAt(lines, a, b, LStrip(first));
  }

  lemma TrimmedAt(lines: seq<string>, a: nat, b: nat, first: string)
    requires a < b <= |lines|
    ensures var trimmed := [first] + RStripped(lines, a + 1, b);
            |trimmed| == b - a && forall k :: a < k < b ==> trimmed[k - a] == RStrip(lines[k])
  {
    RStrippedAsMany(lines, a + 1, b);
    forall k | a < k < b ensures ([first] + RStripped(lines, a + 1, b))[k - a] == RStrip(lines[k]) {
      RStrippedAt(lines, a + 1, b, k);
    }
  }

  ghost predicate IsParagraph(lines: seq<string>, block: Block, index: nat) {
    && block.index == index
    && block.locator.segment == None
    && MaximalRun(lines, block.locator.lineStart - 1, block.locator.lineEnd)
    && block.text == ParagraphText(lines, block.locator.lineStart - 1, block.locator.lineEnd)
  }

  ghost predicate AllParagraphs(lines: seq<string>, blocks: seq<Block>) {
    forall i {:trigger IsParagraph(lines, blocks[i], i)} :: 0 <= i < |blocks| ==> IsParagraph(lines, blocks[i], i)
  }

  ghost predicate InLineOrder(blocks: seq<Block>) {
    forall i, j :: 0 <= i < j < |blocks| ==> blocks[i].locator.lineEnd < blocks[j].locator.lineStart
  }

  ghost predicate Covers(block: Block, k: int) {
    block.locator.lineStart - 1 <= k < block.locator.lineEnd
  }

  ghost predicate Covered(blocks: seq<Block>, k: int) {
    exists i :: 0 <= i < |blocks| && Covers(blocks[i], k)
  }

  ghost predicate AllCovered(lines: seq<string>, blocks: seq<Block>, bound: int)
    requires 0 <= bound <= |lines|
  {
    forall k {:trigger Covered(blocks, k)} :: 0 <= k < bound && !Blank(lines[k]) ==> Covered(blocks, k)
  }

  /** The blocks are the paragraphs of the lines, in order. */
  ghost predicate Paragraphs(lines: seq<string>, blocks: seq<Block>) {
    AllParagraphs(lines, blocks) && InLineOrder(blocks) && AllCovered(lines, blocks, |lines|)
  }

  // ---- The accumulating loop ----------------------------------------------------

  datatype Accumulator = Accumulator(blocks: seq<Block>, current: seq<string>, start: Option<nat>)

  /** flush: the current paragraph, if any, becomes the next block. */
  function Flushed(acc: Accumulator, endLine: nat): Accumulator {
    match acc.start
    case None => acc
    case Some(first) =>
      var block := Block(Strip(Join(acc.current, "\n")), |acc.blocks|, Locator(first, endLine, None));
      Accumulator(acc.blocks + [block], [], None)
  }

  function Accumulate(acc: Accumulator, lineNumber: nat, line: string): Accumulator
    requires lineNumber > 0
  {
    if Strip(line) != [] then
      acc.(current := acc.current + [RStrip(line)], start := if acc.start.None? then Some(lineNumber) else acc.start)
    else
      Flushed(acc, lineNumber - 1)
  }

  /** What the loop holds after `n` lines. */
  function After(lines: seq<string>, n: nat): Accumulator
    requires n <= |lines|
  {
    if n == 0 then Accumulator([], [], None) else Accumulate(After(lines, n - 1), n, lines[n - 1])
  }

  function ParagraphBlocksOf(lines: seq<string>): seq<Block> {
    Flushed(After(lines, |lines|), |lines|).blocks
  }

  /** _paragraph_blocks: the paragraphs of the lines, or an error when there is none. */
  method ParagraphBlocks(lines: seq<string>) returns (r: Result<seq<Block>, ParseError>)
    ensures r == if ParagraphBlocksOf(lines) == [] then Err(NoParseableText) else Ok(ParagraphBlocksOf(lines))
  {
    var blocks: seq<Block>, current: seq<string>, start: Option<nat> := [], [], None;
    var n := 0;
    while n < |lines|
      invariant 0 <= n <= |lines|
      invariant Accumulator(blocks, current, start) == After(lines, n)
    {
      var line := lines[n];
      n := n + 1;
      if Strip(line) != [] {
        if start.None? {
          start := Some(n);
        }
        current := current + [RStrip(line)];
      } else if start.Some? {
        blocks := blocks + [Block(Strip(Join(current, "\n")), |blocks|, Locator(start.value, n - 1, None))];
        current, start := [], None;
      }
    }
    if start.Some? {
      blocks := blocks + [Block(Strip(Join(current, "\n")), |blocks|, Locator(start.value, n, None))];
    }
    return if blocks == [] then Err(NoParseableText) else Ok(blocks);
  }

  /** An open paragraph is a run that reaches the current line; without one the last line was blank. */
  ghost predicate Open(lines: seq<string>, start: Option<nat>, n: nat) {
    && n <= |lines|
    && match start
       case None => n == 0 || Blank(lines[n - 1])
       case Some(first) =>
         && 1 <= first <= n && (first == 1 || Blank(lines[first - 2]))
         && (forall k :: first - 1 <= k < n ==> !Blank(lines[k]))
  }

  lemma AccumulateKeepsOpen(lines: seq<string>, acc: Accumulator, n: nat)
    requires n < |lines| && Open(lines, acc.start, n)
    ensures Open(lines, Accumulate(acc, n + 1, lines[n]).start, n + 1)
  {
    StripOfBlank(lines[n]);
  }

  ghost predicate OpenAfter(lines: seq<string>, n: nat) {
    n <= |lines| && Open(lines, After(lines, n).start, n)
  }

  lemma OpenFirst(lines: seq<string>)
    ensures OpenAfter(lines, 0)
  {}

  lemma OpenStep(lines: seq<string>, n: nat)
    requires 0 < n <= |lines| && OpenAfter(lines, n - 1)
    ensures OpenAfter(lines, n)
  {
    AccumulateKeepsOpen(lines, After(lines, n - 1), n - 1);
  }

  lemma {:induction false} OpenRun(lines: seq<string>, n: nat)
    requires n <= |lines|
    ensures OpenAfter(lines, n)
  {
    if n == 0 {
      OpenFirst(lines);
    } else {
      OpenRun(lines, n - 1);
      OpenStep(lines, n);
    }
  }

  /** The open paragraph holds the lines since its first. */
  ghost predicate HoldsLines(lines: seq<string>, acc: Accumulator, n: nat) {
    match acc.start
    case None => acc.current == []
    case Some(first) => 1 <= first <= n <= |lines| && acc.current == RStripped(lines, first - 1, n)
  }

  lemma AccumulateHoldsLines(lines: seq<string>, acc: Accumulator, n: nat)
    requires n < |lines| && HoldsLines(lines, acc, n)
    ensures HoldsLines(lines, Accumulate(acc, n + 1, lines[n]), n + 1)
  {}

  ghost predicate HoldsAfter(lines: seq<string>, n: nat) {
    n <= |lines| && HoldsLines(lines, After(lines, n), n)
  }

  lemma HoldsFirst(lines: seq<string>)
    ensures HoldsAfter(lines, 0)
  {}

  lemma HoldsStep(lines: seq<string>, n: nat)
    requires 0 < n <= |lines| && HoldsAfter(lines, n - 1)
    ensures HoldsAfter(lines, n)
  {
    AccumulateHoldsLines(lines, After(lines, n - 1), n - 1);
  }

  lemma {:induction false} OpenLines(lines: seq<string>, n: nat)
    requires n <= |lines|
    ensures HoldsAfter(lines, n)
  {
    if n == 0 {
      HoldsFirst(lines);
    } else {
      OpenLines(lines, n - 1);
      HoldsStep(lines, n);
    }
  }

  ghost function ClosedBlock(lines: seq<string>, first: nat, end: nat, index: nat): Block
    requires 1 <= first <= end <= |lines|
  {
    Block(ParagraphText(lines, first - 1, end), index, Locator(first, end, None))
  }

  lemma ClosedBlockIsParagraph(lines: seq<string>, first: nat, end: nat, index: nat)
    requires 1 <= first <= end && MaximalRun(lines, first - 1, end)
    ensures IsParagraph(lines, ClosedBlock(lines, first, end, index), index)
  {}

  /** Flushing at a blank line, or at the end, closes a maximal run. */
  lemma FlushedRun(lines: seq<string>, n: nat) returns (first: nat)
    requires n <= |lines| && After(lines, n).start.Some? && (n == |lines| || Blank(lines[n]))
    ensures Some(first) == After(lines, n).start && 1 <= first <= n && MaximalRun(lines, first - 1, n)
  {
    OpenRun(lines, n);
    first := After(lines, n).start.value;
  }

  lemma FlushedLines(lines: seq<string>, n: nat, first: nat)
    requires n <= |lines| && After(lines, n).start == Some(first)
    ensures 1 <= first <= n && After(lines, n).current == RStripped(lines, first - 1, n)
  {
    OpenLines(lines, n);
  }

  lemma FlushedBlock(lines: seq<string>, acc: Accumulator, first: nat, n: nat)
    requires 1 <= first <= n <= |lines| && acc.start == Some(first) && acc.current == RStripped(lines, first - 1, n)
    ensures Flushed(acc, n).blocks == acc.blocks + [ClosedBlock(lines, first, n, |acc.blocks|)]
  {}

  lemma ParagraphsGrow(lines: seq<string>, blocks: seq<Block>, block: Block)
    requires AllParagraphs(lines, blocks) && IsParagraph(lines, block, |blocks|)
    ensures AllParagraphs(lines, blocks + [block])
  {}

  lemma FlushKeepsParagraphs(lines: seq<string>, n: nat)
    requires n <= |lines| && AllParagraphs(lines, After(lines, n).blocks) && (n == |lines| || Blank(lines[n]))
    ensures AllParagraphs(lines, Flushed(After(lines, n), n).blocks)
  {
    var acc := After(lines, n);
    if acc.start.Some? {
      var first := FlushedRun(lines, n);
      FlushedLines(lines, n, first);
      FlushedBlock(lines, acc, first, n);
      ClosedBlockIsParagraph(lines, first, n, |acc.blocks|);
      ParagraphsGrow(lines, acc.blocks, ClosedBlock(lines, first, n, |acc.blocks|));
    }
  }

  lemma {:induction false} AfterAreParagraphs(lines: seq<string>, n: nat)
    requires n <= |lines|
    ensures AllParagraphs(lines, After(lines, n).blocks)
  {
    if n == 0 {
    } else {
      AfterAreParagraphs(lines, n - 1);
      StripOfBlank(lines[n - 1]);
      if Blank(lines[n - 1]) {
        FlushKeepsParagraphs(lines, n - 1);
      }
    }
  }

  /** Up to where the closed blocks reach: the open paragraph's first line, or the current one. */
  function ClosedTo(acc: Accumulator, n: nat): int {
    if acc.start.Some? then acc.start.value - 1 else n
  }

  /** Closed blocks are in line order and end before the open paragraph. */
  ghost predicate Ordered(acc: Accumulator, n: nat) {
    && InLineOrder(acc.blocks) && (forall i :: 0 <= i < |acc.blocks| ==> acc.blocks[i].locator.lineEnd <= ClosedTo(acc, n))
    && (acc.start.Some? ==> 1 <= acc.start.value <= n)
  }

  lemma FlushKeepsOrder(acc: Accumulator, n: nat)
    requires Ordered(acc, n)
    ensures Ordered(Flushed(acc, n), n)
  {}

  lemma AccumulateKeepsOrder(before: Accumulator, n: nat, line: string, after: Accumulator)
    requires Ordered(before, n) && after == Accumulate(before, n + 1, line)
    ensures Ordered(after, n + 1)
  {}

  ghost predicate OrderedAfter(lines: seq<string>, n: nat) {
    n <= |lines| && Ordered(After(lines, n), n)
  }

  lemma OrderedFirst(lines: seq<string>)
    ensures OrderedAfter(lines, 0)
  {}

  lemma OrderStep(lines: seq<string>, n: nat)
    requires 0 < n <= |lines| && OrderedAfter(lines, n - 1)
    ensures OrderedAfter(lines, n)
  {
    AccumulateKeepsOrder(After(lines, n - 1), n - 1, lines[n - 1], After(lines, n));
  }

  lemma {:induction false} AfterInOrder(lines: seq<string>, n: nat)
    requires n <= |lines|
    ensures OrderedAfter(lines, n)
  {
    if n == 0 {
      OrderedFirst(lines);
    } else {
      AfterInOrder(lines, n - 1);
      OrderStep(lines, n);
    }
  }

  lemma CoverGrows(lines: seq<string>, blocks: seq<Block>, a: nat, b: nat, block: Block)
    requires a <= b <= |lines| && AllCovered(lines, blocks, a)
    requires block.locator.lineStart == a + 1 && block.locator.lineEnd == b
    ensures AllCovered(lines, blocks + [block], b)
  {
    var after := blocks + [block];
    forall k | 0 <= k < b && !Blank(lines[k]) ensures Covered(after, k) {
      if k < a {
        assert Covered(blocks, k);
        var i :| 0 <= i < |blocks| && Covers(blocks[i], k);
        assert after[i] == blocks[i];
      } else {
        assert Covers(after[|blocks|], k);
      }
    }
  }

  /** Every non-blank line before the open paragraph lies in a closed block. */
  ghost predicate Covering(lines: seq<string>, acc: Accumulator, n: nat) {
    && n <= |lines| && (acc.start.Some? ==> 1 <= acc.start.value <= n)
    && AllCovered(lines, acc.blocks, ClosedTo(acc, n))
  }

  lemma FlushCovers(lines: seq<string>, acc: Accumulator, n: nat)
    requires Covering(lines, acc, n)
    ensures Covering(lines, Flushed(acc, n), n)
  {
    if acc.start.Some? {
      CoverGrows(lines, acc.blocks, acc.start.value - 1, n, Flushed(acc, n).blocks[|acc.blocks|]);
    }
  }

  lemma AccumulateCovers(lines: seq<string>, acc: Accumulator, n: nat)
    requires Covering(lines, acc, n) && n < |lines|
    ensures Covering(lines, Accumulate(acc, n + 1, lines[n]), n + 1)
  {
    FlushCovers(lines, acc, n);
    StripOfBlank(lines[n]);
  }

  ghost predicate CoveringAfter(lines: seq<string>, n: nat) {
    n <= |lines| && Covering(lines, After(lines, n), n)
  }

  lemma CoveringFirst(lines: seq<string>)
    ensures CoveringAfter(lines, 0)
  {}

  lemma CoverStep(lines: seq<string>, n: nat)
    requires 0 < n <= |lines| && CoveringAfter(lines, n - 1)
    ensures CoveringAfter(lines, n)
  {
    AccumulateCovers(lines, After(lines, n - 1), n - 1);
  }

  lemma {:induction false} AfterCovers(lines: seq<string>, n: nat)
    requires n <= |lines|
    ensures CoveringAfter(lines, n)
  {
    if n == 0 {
      CoveringFirst(lines);
    } else {
      AfterCovers(lines, n - 1);
      CoverStep(lines, n);
    }
  }

  lemma BlocksAreParagraphs(lines: seq<string>)
    ensures Paragraphs(lines, ParagraphBlocksOf(lines))
  {
    AfterAreParagraphs(lines, |lines|);
    FlushKeepsParagraphs(lines, |lines|);
    AfterCovers(lines, |lines|);
    FlushCovers(lines, After(lines, |lines|), |lines|);
    AfterInOrder(lines, |lines|);
    FlushKeepsOrder(After(lines, |lines|), |lines|);
  }

  // ---- What the blocks are ----------------------------------------------------

  lemma RunsDoNotOverlap(lines: seq<string>, a: int, b: int, c: int, d: int, k: int)
    requires MaximalRun(lines, a, b) && MaximalRun(lines, c, d) && a <= k < b && c <= k < d
    ensures a == c && b == d
  {}

  lemma RunHasItsBlock(lines: seq<string>, blocks: seq<Block>, a: nat, b: nat) returns (i: nat)
    requires Paragraphs(lines, blocks) && MaximalRun(lines, a, b)
    ensures i < |blocks| && blocks[i].locator == Locator(a + 1, b, None)
  {
    assert Covered(blocks, a);
    i :| 0 <= i < |blocks| && Covers(blocks[i], a);
    assert IsParagraph(lines, blocks[i], i);
    RunsDoNotOverlap(lines, a, b, blocks[i].locator.lineStart - 1, blocks[i].locator.lineEnd, a);
  }

  ghost predicate HasBlockAt(blocks: seq<Block>, locator: Locator) {
    exists i :: 0 <= i < |blocks| && blocks[i].locator == locator
  }

  lemma BlockIsRun(lines: seq<string>, blocks: seq<Block>, a: nat, b: nat)
    requires AllParagraphs(lines, blocks) && HasBlockAt(blocks, Locator(a + 1, b, None))
    ensures MaximalRun(lines, a, b)
  {
    var i :| 0 <= i < |blocks| && blocks[i].locator == Locator(a + 1, b, None);
    assert IsParagraph(lines, blocks[i], i);
  }

  /** The line ranges of the blocks are the maximal runs of non-blank lines, no more and no fewer. */
  lemma BlocksAreTheMaximalRuns(lines: seq<string>, blocks: seq<Block>, a: nat, b: nat)
    requires Paragraphs(lines, blocks)
    ensures MaximalRun(lines, a, b) <==> HasBlockAt(blocks, Locator(a + 1, b, None))
  {
    if HasBlockAt(blocks, Locator(a + 1, b, None)) {
      BlockIsRun(lines, blocks, a, b);
    } else if MaximalRun(lines, a, b) {
      var i := RunHasItsBlock(lines, blocks, a, b);
    }
  }

  // ---- No text is lost --------------------------------------------------------

  function Texts(blocks: seq<Block>): seq<string> {
    if blocks == [] then [] else Texts(blocks[..|blocks| - 1]) + [blocks[|blocks| - 1].text]
  }

  lemma TextsGrow(blocks: seq<Block>, block: Block)
    ensures Visible(Flatten(Texts(blocks + [block]))) == Visible(Flatten(Texts(blocks))) + Visible(block.text)
  {
    assert (blocks + [block])[..|blocks|] == blocks;
    FlattenBack(Texts(blocks), block.text);
  }

  /** The closed blocks and the open lines together. */
  ghost function Accumulated(acc: Accumulator): string {
    Visible(Flatten(Texts(acc.blocks))) + Visible(Flatten(acc.current))
  }

  lemma FlushKeepsShown(acc: Accumulator, endLine: nat)
    requires acc.start.None? ==> acc.current == []
    ensures Accumulated(Flushed(acc, endLine)) == Accumulated(acc) && Flushed(acc, endLine).current == []
  {
    if acc.start.Some? {
      var text := Strip(Join(acc.current, "\n"));
      StripKeepsVisible(Join(acc.current, "\n"));
      SpacesAreBlank("\n");
      JoinKeepsVisible(acc.current, "\n");
      TextsGrow(acc.blocks, Block(text, |acc.blocks|, Locator(acc.start.value, endLine, None)));
    }
  }

  lemma ExtendShows(current: seq<string>, line: string)
    ensures Visible(Flatten(current + [RStrip(line)])) == Visible(Flatten(current)) + Visible(line)
  {
    FlattenBack(current, RStrip(line));
    RStripKeepsVisible(line);
  }

  lemma AccumulateKeepsShown(acc: Accumulator, lineNumber: nat, line: string)
    requires lineNumber > 0 && (acc.start.None? ==> acc.current == [])
    ensures Accumulated(Accumulate(acc, lineNumber, line)) == Accumulated(acc) + Visible(line)
  {
    if Strip(line) != [] {
      ExtendShows(acc.current, line);
      Associates(Visible(Flatten(Texts(acc.blocks))), Visible(Flatten(acc.current)), Visible(line));
    } else {
      StripOfBlank(line);
      FlushKeepsShown(acc, lineNumber - 1);
    }
  }

  ghost predicate ShowsLines(lines: seq<string>, n: nat) {
    n <= |lines| && Accumulated(After(lines, n)) == Visible(Flatten(lines[..n]))
  }

  lemma ShowsFirst(lines: seq<string>)
    ensures ShowsLines(lines, 0)
  {}

  lemma ShowsOneMore(lines: seq<string>, before: Accumulator, n: nat, after: Accumulator)
    requires n < |lines| && after == Accumulate(before, n + 1, lines[n]) && (before.start.None? ==> before.current == [])
    requires Accumulated(before) == Visible(Flatten(lines[..n]))
    ensures Accumulated(after) == Visible(Flatten(lines[..n + 1]))
  {
    AccumulateKeepsShown(before, n + 1, lines[n]);
    PrefixGrows(lines, n);
    FlattenBack(lines[..n], lines[n]);
  }

  lemma ShowsStep(lines: seq<string>, n: nat)
    requires 0 < n <= |lines| && ShowsLines(lines, n - 1)
    requires After(lines, n - 1).start.None? ==> After(lines, n - 1).current == []
    ensures ShowsLines(lines, n)
  {
    ShowsOneMore(lines, After(lines, n - 1), n - 1, After(lines, n));
  }

  lemma NothingOpen(lines: seq<string>, n: nat)
    requires n <= |lines|
    ensures After(lines, n).start.None? ==> After(lines, n).current == []
  {
    OpenLines(lines, n);
  }

  lemma {:induction false} AfterShows(lines: seq<string>, n: nat)
    requires n <= |lines|
    ensures ShowsLines(lines, n)
  {
    if n == 0 {
      ShowsFirst(lines);
    } else {
      AfterShows(lines, n - 1);
      NothingOpen(lines, n - 1);
      ShowsStep(lines, n);
    }
  }

  lemma BlocksKeepVisible(lines: seq<string>)
    ensures Visible(Flatten(Texts(ParagraphBlocksOf(lines)))) == Visible(Flatten(lines))
  {
    var n := |lines|;
    AfterShows(lines, n);
    OpenLines(lines, n);
    FlushKeepsShown(After(lines, n), n);
    assert lines[..n] == lines;
  }

  ghost predicate AllShow(acc: Accumulator) {
    && (forall block :: block in acc.blocks ==> !Blank(block.text))
    && (if acc.start.Some? then !Blank(Flatten(acc.current)) else acc.current == [])
  }

  lemma FlushShows(acc: Accumulator, endLine: nat)
    requires AllShow(acc)
    ensures AllShow(Flushed(acc, endLine))
  {
    StripKeepsVisible(Join(acc.current, "\n"));
    SpacesAreBlank("\n");
    JoinKeepsVisible(acc.current, "\n");
  }

  lemma AccumulateShows(acc: Accumulator, lineNumber: nat, line: string)
    requires lineNumber > 0 && AllShow(acc)
    ensures AllShow(Accumulate(acc, lineNumber, line))
  {
    if Strip(line) != [] {
      StripOfBlank(line);
      ExtendShows(acc.current, line);
    } else {
      FlushShows(acc, lineNumber - 1);
    }
  }

  /** No block is blank, so the block's own check never rejects one. */
  lemma {:induction false} BlocksShow(lines: seq<string>, n: nat)
    requires n <= |lines|
    ensures AllShow(After(lines, n))
  {
    if n == 0 {
    } else {
      BlocksShow(lines, n - 1);
      AccumulateShows(After(lines, n - 1), n, lines[n - 1]);
    }
  }

  /** TextParser.parse; `decoded` is the UTF-8 decoder's answer. */
  method Parse(supported: bool, decoded: Option<string>) returns (r: Result<seq<Block>, ParseError>)
    ensures r == Err(InvalidDocument) <==> !supported || decoded.None?
    ensures r == Err(NoParseableText) <==> supported && decoded.Some? && Blank(decoded.value)
    ensures r.Ok? ==> decoded.Some? && r.value == ParagraphBlocksOf(SplitLines(decoded.value))
    ensures r.Ok? ==> forall line :: line in SplitLines(decoded.value) ==> Unbroken(line)
    ensures r.Ok? ==> Paragraphs(SplitLines(decoded.value), r.value)
    ensures r.Ok? ==> Visible(Flatten(Texts(r.value))) == Visible(decoded.value)
    ensures r.Ok? ==> forall block :: block in r.value ==> !Blank(block.text)
  {
    if !supported || decoded.None? {
      return Err(InvalidDocument);
    }
    var lines := SplitLines(decoded.value);
    r := ParagraphBlocks(lines);
    BlocksOfText(decoded.value);
    LinesAreUnbroken(decoded.value);
  }

  lemma BlocksOfText(text: string)
    ensures var blocks := ParagraphBlocksOf(SplitLines(text));
            && Paragraphs(SplitLines(text), blocks)
            && Visible(Flatten(Texts(blocks))) == Visible(text)
            && (forall block :: block in blocks ==> !Blank(block.text))
            && (blocks == [] <==> Blank(text))
  {
    var lines := SplitLines(text);
    BlocksAreParagraphs(lines);
    BlocksKeepVisible(lines);
    SplitLinesKeepsVisible(text);
    BlocksShow(lines, |lines|);
    FlushShows(After(lines, |lines|), |lines|);
    TextsShow(ParagraphBlocksOf(lines));
  }

  lemma TextsShow(blocks: seq<Block>)
    requires forall block :: block in blocks ==> !Blank(block.text)
    ensures blocks == [] <==> Visible(Flatten(Texts(blocks))) == []
  {
    if blocks != [] {
      var last := blocks[|blocks| - 1];
      TextsGrow(blocks[..|blocks| - 1], last);
      assert blocks == blocks[..|blocks| - 1] + [last];
    }
  }
}
