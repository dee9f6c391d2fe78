/**
 From parsed blocks to chunk units: sentences, cut further by characters when one
 sentence alone exceeds the token limit. The token counter is any function.
 */
module Units {
  import opened Prelude
  import opened Text
  import opened TextParser
  import opened Sentences

  datatype Unit = Unit(text: string, blockIndex: nat, locator: Locator)

  datatype ChunkingError = CharacterTooLarge | NoChunkableText

  // ---- The longest fitting prefix --------------------------------------------------

  /** How far prefixes keep fitting, trying them one character longer at a time from `from`. */
  function FitLength(count: string -> nat, max: nat, text: string, from: nat): (n: nat)
    requires from <= |text|
    ensures from <= n <= |text|
    ensures forall i :: from < i <= n ==> count(text[..i]) <= max
    ensures n < |text| ==> count(text[..n + 1]) > max
    decreases |text| - from
  {
    if from < |text| && count(text[..from + 1]) <= max then FitLength(count, max, text, from + 1) else from
  }

  /** _longest_fitting_prefix */
  method LongestFittingPrefix(count: string -> nat, max: nat, text: string) returns (prefix: string)
    ensures prefix == RStrip(text[..FitLength(count, max, text, 0)])
  {
    var bestEnd := 0;
    while bestEnd < |text|
      invariant 0 <= bestEnd <= |text|
      invariant FitLength(count, max, text, bestEnd) == FitLength(count, max, text, 0)
    {
      if count(text[..bestEnd + 1]) > max {
        break;
      }
      bestEnd := bestEnd + 1;
    }
    return RStrip(text[..bestEnd]);
  }

  // ---- Cutting an oversized sentence -------------------------------------------------

  /** The pieces of an oversized text, or an error when some piece cannot begin. */
  function Cut(count: string -> nat, max: nat, text: string): Result<seq<string>, ChunkingError>
    decreases |text|
  {
    if text == [] then Ok([])
    else
      var prefix := RStrip(text[..FitLength(count, max, text, 0)]);
      if prefix == [] then Err(CharacterTooLarge)
      else
        match Cut(count, max, LStrip(text[|prefix|..]))
        case Err(e) => Err(e)
        case Ok(rest) => Ok([prefix] + rest)
  }

  /** Numbered pieces of one unit. */
  function Segments(unit: Unit, pieces: seq<string>): seq<Unit> {
    if pieces == [] then []
    else
      var n := |pieces| - 1;
      Segments(unit, pieces[..n]) + [Unit(pieces[n], unit.blockIndex, unit.locator.(segment := Some(n)))]
  }

  function SplitUnit(count: string -> nat, max: nat, unit: Unit): Result<seq<Unit>, ChunkingError> {
    if count(unit.text) <= max then Ok([unit])
    else
      match Cut(count, max, unit.text)
      case Err(e) => Err(e)
      case Ok(pieces) => Ok(Segments(unit, pieces))
  }

  function AfterPieces(done: seq<string>, rest: Result<seq<string>, ChunkingError>): Result<seq<string>, ChunkingError> {
    match rest
    case Err(e) => Err(e)
    case Ok(more) => Ok(done + more)
  }

  lemma NothingDone(r: Result<seq<string>, ChunkingError>)
    ensures AfterPieces([], r) == r
  {
    if r.Ok? {
      assert [] + r.value == r.value;
    }
  }

  lemma CutStep(count: string -> nat, max: nat, text: string, done: seq<string>, prefix: string)
    requires text != [] && prefix == RStrip(text[..FitLength(count, max, text, 0)]) && prefix != []
    ensures AfterPieces(done, Cut(count, max, text)) == AfterPieces(done + [prefix], Cut(count, max, LStrip(text[|prefix|..])))
  {
    var rest := Cut(count, max, LStrip(text[|prefix|..]));
    if rest.Ok? {
      assert done + ([prefix] + rest.value) == done + [prefix] + rest.value;
    }
  }

  /** _split_oversized_unit: the loop always ends, since every turn takes at least one character. */
  method SplitOversizedUnit(count: string -> nat, max: nat, unit: Unit) returns (r: Result<seq<Unit>, ChunkingError>)
    ensures r == SplitUnit(count, max, unit)
  {
    if count(unit.text) <= max {
      return Ok([unit]);
    }
    var pieces: seq<Unit> := [];
    ghost var texts: seq<string> := [];
    var remaining := unit.text;
    NothingDone(Cut(count, max, unit.text));
    while remaining != []
      invariant pieces == Segments(unit, texts) && |pieces| == |texts|
      invariant AfterPieces(texts, Cut(count, max, remaining)) == Cut(count, max, unit.text)
      decreases |remaining|
    {
      var prefix := LongestFittingPrefix(count, max, remaining);
      if prefix == [] {
        return Err(CharacterTooLarge);
      }
      CutStep(count, max, remaining, texts, prefix);
      assert (texts + [prefix])[..|texts|] == texts;
      pieces := pieces + [Unit(prefix, unit.blockIndex, unit.locator.(segment := Some(|pieces|)))];
      texts := texts + [prefix];
      remaining := LStrip(remaining[|prefix|..]);
    }
    assert texts + [] == texts;
    return Ok(pieces);
  }

  // ---- What cutting keeps --------------------------------------------------------------

  /** Every piece fits, trimmed or not: the trimmed prefix is itself one of the prefixes that were tried. */
  lemma PrefixFits(count: string -> nat, max: nat, text: string)
    requires RStrip(text[..FitLength(count, max, text, 0)]) != []
    ensures count(RStrip(text[..FitLength(count, max, text, 0)])) <= max
  {
    var n := FitLength(count, max, text, 0);
    var k := |RStrip(text[..n])|;
    RStripIsPrefix(text[..n]);
    assert text[..n][..k] == text[..k];
  }

  lemma {:induction false} PiecesFit(count: string -> nat, max: nat, text: string)
    requires Cut(count, max, text).Ok?
    ensures forall piece :: piece in Cut(count, max, text).value ==> piece != [] && count(piece) <= max
    decreases |text|
  {
    if text == [] {
    } else {
      PrefixFits(count, max, text);
      PiecesFit(count, max, LStrip(text[|RStrip(text[..FitLength(count, max, text, 0)])|..]));
    }
  }

  /** A piece and what remains after it show what the text shows. */
  lemma PieceAndRest(text: string, n: nat)
    requires n <= |text|
    ensures Visible(text) == Visible(RStrip(text[..n])) + Visible(LStrip(text[|RStrip(text[..n])|..]))
  {
    var prefix := RStrip(text[..n]);
    RStripIsPrefix(text[..n]);
    assert text == prefix + text[|prefix|..];
    VisibleConcat(prefix, text[|prefix|..]);
    LStripKeepsVisible(text[|prefix|..]);
  }

  lemma {:induction false} PiecesKeepVisible(count: string -> nat, max: nat, text: string)
    requires Cut(count, max, text).Ok?
    ensures Visible(Flatten(Cut(count, max, text).value)) == Visible(text)
    decreases |text|
  {
    if text == [] {
    } else {
      var n := FitLength(count, max, text, 0);
      var prefix := RStrip(text[..n]);
      var rest := LStrip(text[|prefix|..]);
      PiecesKeepVisible(count, max, rest);
      PieceAndRest(text, n);
      FlattenFront(prefix, Cut(count, max, rest).value);
    }
  }

  // ---- Cutting is greedy ------------------------------------------------------------------

  /** `[from, to)` can be a piece: it has no outer whitespace, and it and all its beginnings fit. */
  ghost predicate IsPiece(count: string -> nat, max: nat, text: string, from: nat, to: nat) {
    && from < to <= |text| && !IsSpace(text[from]) && !IsSpace(text[to - 1])
    && forall n :: from < n <= to ==> count(text[from..n]) <= max
  }

  /** The piece could not be longer: some beginning of it that goes on up to the next visible character, at `next`, does not fit. */
  ghost predicate GoesNoFurther(count: string -> nat, max: nat, text: string, from: nat, to: nat, next: nat) {
    && from < to <= next < |text| && AllSpace(text[to..next]) && !IsSpace(text[next])
    && exists n :: to < n <= next + 1 && count(text[from..n]) > max
  }

  /** These are the pieces of the text from `start` on, at these places: each as long as it can be, with only whitespace between them and after the last. */
  ghost predicate GreedyFrom(count: string -> nat, max: nat, text: string, start: nat, extents: seq<Extent>, pieces: seq<string>) {
    && start <= |text| && |extents| == |pieces|
    && (extents == [] <==> start == |text|)
    && (forall i :: 0 <= i < |extents| ==> IsPiece(count, max, text, extents[i].from, extents[i].to) && pieces[i] == text[extents[i].from..extents[i].to])
    && (extents != [] ==> extents[0].from == start && AllSpace(text[extents[|extents| - 1].to..]))
    && (forall i :: 0 <= i < |extents| - 1 ==> GoesNoFurther(count, max, text, extents[i].from, extents[i].to, extents[i + 1].from))
  }

  /** Where a trimmed prefix ends. */
  lemma PieceEnds(text: string, start: nat, end: nat) returns (to: nat)
    requires start <= end <= |text| && RStrip(text[start..end]) != []
    ensures start < to <= end && RStrip(text[start..end]) == text[start..to] && !IsSpace(text[to - 1])
    ensures AllSpace(text[to..end])
  {
    var slice := text[start..end];
    var prefix := RStrip(slice);
    RStripIsPrefix(slice);
    to := start + |prefix|;
    assert slice[..|prefix|] == text[start..to] && slice[|prefix|..] == text[to..end];
    assert prefix[|prefix| - 1] == text[to - 1];
  }

  /** Where the text goes on after it. */
  lemma TextGoesOn(text: string, to: nat, end: nat) returns (next: nat)
    requires to <= end <= |text| && AllSpace(text[to..end])
    ensures to <= next <= |text| && LStrip(text[to..]) == text[next..] && AllSpace(text[to..next])
    ensures next < |text| ==> !IsSpace(text[next]) && end <= next
  {
    LStripIsSuffix(text[to..]);
    next := |text| - |LStrip(text[to..])|;
    SuffixParts(text, to, next);
    if next < |text| {
      assert LStrip(text[to..])[0] == text[next];
    }
  }

  /** A prefix of the text from `start` on, of which all beginnings fit and which cannot be longer, gives a piece. */
  lemma FittingPrefix(count: string -> nat, max: nat, text: string, start: nat, end: nat) returns (to: nat, next: nat)
    requires start <= end <= |text| && start < |text| && !IsSpace(text[start]) && RStrip(text[start..end]) != []
    requires forall k :: start < k <= end ==> count(text[start..k]) <= max
    requires end < |text| ==> count(text[start..end + 1]) > max
    ensures IsPiece(count, max, text, start, to) && to <= next <= |text|
    ensures RStrip(text[start..end]) == text[start..to] && LStrip(text[to..]) == text[next..]
    ensures if next == |text| then AllSpace(text[to..]) else GoesNoFurther(count, max, text, start, to, next)
  {
    to := PieceEnds(text, start, end);
    next := TextGoesOn(text, to, end);
    if next == |text| {
      assert text[to..next] == text[to..];
    }
  }

  lemma FitsExactly(count: string -> nat, max: nat, text: string, start: nat)
    requires start <= |text|
    ensures var end := start + FitLength(count, max, text[start..], 0);
            && text[start..][..end - start] == text[start..end]
            && (forall k :: start < k <= end ==> count(text[start..k]) <= max)
            && (end < |text| ==> count(text[start..end + 1]) > max)
  {
    var end := start + FitLength(count, max, text[start..], 0);
    SuffixParts(text, start, end);
    forall k | start < k <= end ensures count(text[start..k]) <= max {
      SuffixParts(text, start, k);
      assert count(text[start..][..k - start]) <= max;
    }
    if end < |text| {
      SuffixParts(text, start, end + 1);
    }
  }

  /** One turn of the loop, on the text from `start` on. */
  lemma OnePiece(count: string -> nat, max: nat, text: string, start: nat) returns (to: nat, next: nat)
    requires start < |text| && !IsSpace(text[start])
    requires RStrip(text[start..][..FitLength(count, max, text[start..], 0)]) != []
    ensures IsPiece(count, max, text, start, to) && to <= next <= |text|
    ensures RStrip(text[start..][..FitLength(count, max, text[start..], 0)]) == text[start..to]
    ensures LStrip(text[start..][to - start..]) == text[next..]
    ensures if next == |text| then AllSpace(text[to..]) else GoesNoFurther(count, max, text, start, to, next)
  {
    FitsExactly(count, max, text, start);
    to, next := FittingPrefix(count, max, text, start, start + FitLength(count, max, text[start..], 0));
    SuffixParts(text, start, to);
  }

  lemma GreedyGrows(count: string -> nat, max: nat, text: string, start: nat, to: nat, next: nat, rest: seq<Extent>, pieces: seq<string>)
    requires IsPiece(count, max, text, start, to) && to <= next
    requires if next == |text| then AllSpace(text[to..]) else GoesNoFurther(count, max, text, start, to, next)
    requires GreedyFrom(count, max, text, next, rest, pieces)
    ensures GreedyFrom(count, max, text, start, [Extent(start, to)] + rest, [text[start..to]] + pieces)
  {}

  lemma NothingToCut(count: string -> nat, max: nat, text: string)
    ensures Cut(count, max, text[|text|..]) == Ok([]) && GreedyFrom(count, max, text, |text|, [], [])
  {}

  lemma CutOnce(count: string -> nat, max: nat, s: string, prefix: string, rest: string)
    requires s != [] && prefix == RStrip(s[..FitLength(count, max, s, 0)]) && prefix != []
    requires rest == LStrip(s[|prefix|..]) && Cut(count, max, s).Ok?
    ensures Cut(count, max, rest).Ok? && Cut(count, max, s).value == [prefix] + Cut(count, max, rest).value
  {}

  lemma CutGoesOn(count: string -> nat, max: nat, text: string, start: nat, to: nat, next: nat)
    requires start < to <= next <= |text| && Cut(count, max, text[start..]).Ok?
    requires RStrip(text[start..][..FitLength(count, max, text[start..], 0)]) == text[start..to]
    requires LStrip(text[start..][to - start..]) == text[next..]
    ensures Cut(count, max, text[next..]).Ok?
    ensures Cut(count, max, text[start..]).value == [text[start..to]] + Cut(count, max, text[next..]).value
  {
    CutOnce(count, max, text[start..], text[start..to], text[next..]);
  }

  /** An oversized text is cut greedily: every piece is as long as it can be, and only whitespace is dropped between the pieces. */
  lemma {:induction false} CutIsGreedy(count: string -> nat, max: nat, text: string, start: nat) returns (extents: seq<Extent>)
    requires start <= |text| && (start == |text| || !IsSpace(text[start])) && Cut(count, max, text[start..]).Ok?
    ensures GreedyFrom(count, max, text, start, extents, Cut(count, max, text[start..]).value)
    decreases |text| - start
  {
    if start == |text| {
      NothingToCut(count, max, text);
      extents := [];
    } else {
      var to, next := OnePiece(count, max, text, start);
      CutGoesOn(count, max, text, start, to, next);
      var rest := CutIsGreedy(count, max, text, next);
      GreedyGrows(count, max, text, start, to, next, rest, Cut(count, max, text[next..]).value);
      extents := [Extent(start, to)] + rest;
    }
  }

  // ---- When cutting fails ----------------------------------------------------------------

  /** Every visible character of the text fits a chunk by itself. */
  ghost predicate CharactersFit(count: string -> nat, max: nat, text: string) {
    forall c {:trigger [c]} :: c in Visible(text) ==> count([c]) <= max
  }

  /** A text never counts less than a part of it. */
  ghost predicate PartsCountNoMore(count: string -> nat) {
    forall s: string, i, j {:trigger s[i..j]} :: 0 <= i <= j <= |s| ==> count(s[i..j]) <= count(s)
  }

  /** Cutting starts at a visible character, so it begins a piece unless that character alone is too large. */
  lemma PieceBegins(count: string -> nat, max: nat, text: string)
    requires text != [] && !IsSpace(text[0])
    ensures RStrip(text[..FitLength(count, max, text, 0)]) == [] <==> count(text[..1]) > max
  {
    var n := FitLength(count, max, text, 0);
    if n > 0 {
      FirstShows(text[..n]);
      RStripFacts(text[..n]);
    }
  }

  lemma FirstIsVisible(text: string)
    requires text != [] && !IsSpace(text[0])
    ensures text[0] in Visible(text) && text[..1] == [text[0]]
  {}

  /** When every visible character fits, cutting succeeds, for any counter. */
  lemma {:induction false} CutSucceeds(count: string -> nat, max: nat, text: string)
    requires text == [] || !IsSpace(text[0])
    requires CharactersFit(count, max, text)
    ensures Cut(count, max, text).Ok?
    decreases |text|
  {
    if text == [] {
    } else {
      var n := FitLength(count, max, text, 0);
      PieceBegins(count, max, text);
      FirstIsVisible(text);
      PieceAndRest(text, n);
      CutSucceeds(count, max, LStrip(text[|RStrip(text[..n])|..]));
    }
  }

  lemma {:induction false} VisibleAreCharacters(text: string, c: char) returns (i: nat)
    requires c in Visible(text)
    ensures i < |text| && text[i] == c
  {
    if !IsSpace(text[|text| - 1]) && text[|text| - 1] == c {
      i := |text| - 1;
    } else {
      i := VisibleAreCharacters(text[..|text| - 1], c);
    }
  }

  lemma TextFitsSoCharactersFit(count: string -> nat, max: nat, text: string)
    requires PartsCountNoMore(count) && count(text) <= max
    ensures CharactersFit(count, max, text)
  {
    forall c {:trigger [c]} | c in Visible(text) ensures count([c]) <= max {
      var i := VisibleAreCharacters(text, c);
      assert text[i..i + 1] == [c];
    }
  }

  lemma CharactersFitBySplit(count: string -> nat, max: nat, text: string, a: string, b: string)
    requires Visible(text) == Visible(a) + Visible(b)
    ensures CharactersFit(count, max, text) <==> CharactersFit(count, max, a) && CharactersFit(count, max, b)
  {}

  /** If a text counts at least as much as its parts, a cut that succeeds leaves no character too large. */
  lemma {:induction false} CutNeedsCharactersToFit(count: string -> nat, max: nat, text: string)
    requires PartsCountNoMore(count) && Cut(count, max, text).Ok?
    ensures CharactersFit(count, max, text)
    decreases |text|
  {
    if text == [] {
    } else {
      var n := FitLength(count, max, text, 0);
      var prefix := RStrip(text[..n]);
      var rest := LStrip(text[|prefix|..]);
      PrefixFits(count, max, text);
      TextFitsSoCharactersFit(count, max, prefix);
      CutNeedsCharactersToFit(count, max, rest);
      PieceAndRest(text, n);
      CharactersFitBySplit(count, max, text, prefix, rest);
    }
  }

  // ---- Units of a block and of a document ----------------------------------------------------

  function Append(a: Result<seq<Unit>, ChunkingError>, b: Result<seq<Unit>, ChunkingError>): Result<seq<Unit>, ChunkingError> {
    match a
    case Err(e) => Err(e)
    case Ok(us) =>
      match b
      case Err(e) => Err(e)
      case Ok(more) => Ok(us + more)
  }

  function UnitsOfSentences(count: string -> nat, max: nat, block: Block, sentences: seq<string>): Result<seq<Unit>, ChunkingError> {
    if sentences == [] then Ok([])
    else
      Append(UnitsOfSentences(count, max, block, sentences[..|sentences| - 1]),
             SplitUnit(count, max, Unit(sentences[|sentences| - 1], block.index, block.locator)))
  }

  function UnitsOfBlocks(count: string -> nat, max: nat, blocks: seq<Block>): Result<seq<Unit>, ChunkingError> {
    if blocks == [] then Ok([])
    else
      var last := blocks[|blocks| - 1];
      Append(UnitsOfBlocks(count, max, blocks[..|blocks| - 1]),
             UnitsOfSentences(count, max, last, SplitSentences(last.text)))
  }

  lemma {:induction false} SentencesFailEarly(count: string -> nat, max: nat, block: Block, sentences: seq<string>, i: nat)
    requires i <= |sentences| && UnitsOfSentences(count, max, block, sentences[..i]).Err?
    ensures UnitsOfSentences(count, max, block, sentences) == Err(CharacterTooLarge)
    decreases |sentences|
  {
    if i == |sentences| {
      assert sentences[..i] == sentences;
      OnlyTooLarge(count, max, block, sentences);
    } else {
      assert sentences[..|sentences| - 1][..i] == sentences[..i];
      SentencesFailEarly(count, max, block, sentences[..|sentences| - 1], i);
    }
  }

  lemma {:induction false} CutFailsOneWay(count: string -> nat, max: nat, text: string)
    requires Cut(count, max, text).Err?
    ensures Cut(count, max, text) == Err(CharacterTooLarge)
    decreases |text|
  {
    var prefix := RStrip(text[..FitLength(count, max, text, 0)]);
    if prefix == [] {
    } else {
      CutFailsOneWay(count, max, LStrip(text[|prefix|..]));
    }
  }

  lemma {:induction false} OnlyTooLarge(count: string -> nat, max: nat, block: Block, sentences: seq<string>)
    requires UnitsOfSentences(count, max, block, sentences).Err?
    ensures UnitsOfSentences(count, max, block, sentences) == Err(CharacterTooLarge)
  {
    if UnitsOfSentences(count, max, block, sentences[..|sentences| - 1]).Err? {
      OnlyTooLarge(count, max, block, sentences[..|sentences| - 1]);
    } else {
      CutFailsOneWay(count, max, sentences[|sentences| - 1]);
    }
  }

  lemma {:induction false} OnlyTooLargeInBlocks(count: string -> nat, max: nat, blocks: seq<Block>)
    requires UnitsOfBlocks(count, max, blocks).Err?
    ensures UnitsOfBlocks(count, max, blocks) == Err(CharacterTooLarge)
  {
    var front, last := blocks[..|blocks| - 1], blocks[|blocks| - 1];
    if UnitsOfBlocks(count, max, front).Err? {
      OnlyTooLargeInBlocks(count, max, front);
    } else {
      OnlyTooLarge(count, max, last, SplitSentences(last.text));
    }
  }

  lemma {:induction false} BlocksFailEarly(count: string -> nat, max: nat, blocks: seq<Block>, i: nat)
    requires i <= |blocks| && UnitsOfBlocks(count, max, blocks[..i]).Err?
    ensures UnitsOfBlocks(count, max, blocks) == Err(CharacterTooLarge)
    decreases |blocks|
  {
    if i == |blocks| {
      WholePrefix(blocks);
      OnlyTooLargeInBlocks(count, max, blocks);
    } else {
      var front := blocks[..|blocks| - 1];
      assert front[..i] == blocks[..i];
      BlocksFailEarly(count, max, front, i);
    }
  }

  /** _units_for_block */
  method UnitsForBlock(count: string -> nat, max: nat, block: Block) returns (r: Result<seq<Unit>, ChunkingError>)
    ensures r == UnitsOfSentences(count, max, block, SplitSentences(block.text))
  {
    var sentences := SplitSentences(block.text);
    var units: seq<Unit> := [];
    for i := 0 to |sentences|
      invariant UnitsOfSentences(count, max, block, sentences[..i]) == Ok(units)
    {
      PrefixGrows(sentences, i);
      var split := SplitOversizedUnit(count, max, Unit(sentences[i], block.index, block.locator));
      if split.Err? {
        SentencesFailEarly(count, max, block, sentences, i + 1);
        return Err(CharacterTooLarge);
      }
      units := units + split.value;
    }
    assert sentences[..|sentences|] == sentences;
    return Ok(units);
  }

  method UnitsForBlocks(count: string -> nat, max: nat, blocks: seq<Block>) returns (r: Result<seq<Unit>, ChunkingError>)
    ensures r == UnitsOfBlocks(count, max, blocks)
  {
    var units: seq<Unit> := [];
    for i := 0 to |blocks|
      invariant UnitsOfBlocks(count, max, blocks[..i]) == Ok(units)
    {
      PrefixGrows(blocks, i);
      var more := UnitsForBlock(count, max, blocks[i]);
      if more.Err? {
        BlocksFailEarly(count, max, blocks, i + 1);
        return Err(CharacterTooLarge);
      }
      units := units + more.value;
    }
    assert blocks[..|blocks|] == blocks;
    return Ok(units);
  }

  // ---- What the units keep -----------------------------------------------------------------------

  function UnitTexts(units: seq<Unit>): seq<string> {
    if units == [] then [] else UnitTexts(units[..|units| - 1]) + [units[|units| - 1].text]
  }

  ghost function Shown(units: seq<Unit>): string {
    Visible(Flatten(UnitTexts(units)))
  }

  lemma {:induction false} ShownConcat(a: seq<Unit>, b: seq<Unit>)
    ensures Shown(a + b) == Shown(a) + Shown(b)
    decreases |b|
  {
    if b == [] {
      assert a + b == a;
    } else {
      var front, last := b[..|b| - 1], b[|b| - 1];
      ShownConcat(a, front);
      assert a + b == (a + front) + [last];
      assert b == front + [last];
      ShownLast(a + front, last);
      ShownLast(front, last);
      Associates(Shown(a), Shown(front), Visible(last.text));
    }
  }

  lemma ShownLast(front: seq<Unit>, last: Unit)
    ensures Shown(front + [last]) == Shown(front) + Visible(last.text)
  {
    assert (front + [last])[..|front|] == front;
    FlattenBack(UnitTexts(front), last.text);
  }

  lemma ShownOne(unit: Unit)
    ensures Shown([unit]) == Visible(unit.text)
  {
    assert [unit][..0] == [];
    assert UnitTexts([unit]) == [unit.text];
    FlattenOne(unit.text);
  }

  lemma {:induction false} SegmentTexts(unit: Unit, pieces: seq<string>)
    ensures UnitTexts(Segments(unit, pieces)) == pieces
  {
    if pieces == [] {
    } else {
      SegmentTexts(unit, pieces[..|pieces| - 1]);
      var last := Segments(unit, pieces)[|Segments(unit, pieces)| - 1];
      assert Segments(unit, pieces)[..|Segments(unit, pieces)| - 1] == Segments(unit, pieces[..|pieces| - 1]);
    }
  }

  lemma SplitUnitKeepsVisible(count: string -> nat, max: nat, unit: Unit)
    requires SplitUnit(count, max, unit).Ok?
    ensures Shown(SplitUnit(count, max, unit).value) == Visible(unit.text)
  {
    if count(unit.text) <= max {
      ShownOne(unit);
    } else {
      PiecesKeepVisible(count, max, unit.text);
      SegmentTexts(unit, Cut(count, max, unit.text).value);
    }
  }

  lemma {:induction false} SentenceUnitsKeepVisible(count: string -> nat, max: nat, block: Block, sentences: seq<string>)
    requires UnitsOfSentences(count, max, block, sentences).Ok?
    ensures Shown(UnitsOfSentences(count, max, block, sentences).value) == Visible(Flatten(sentences))
  {
    if sentences == [] {
    } else {
      var front, last := sentences[..|sentences| - 1], sentences[|sentences| - 1];
      var unit := Unit(last, block.index, block.locator);
      SentenceUnitsKeepVisible(count, max, block, front);
      SplitUnitKeepsVisible(count, max, unit);
      ShownConcat(UnitsOfSentences(count, max, block, front).value, SplitUnit(count, max, unit).value);
      VisibleConcat(Flatten(front), last);
    }
  }

  ghost predicate NoneBlank(blocks: seq<Block>) {
    forall i :: 0 <= i < |blocks| ==> !Blank(blocks[i].text)
  }

  lemma {:induction false} BlockUnitsKeepVisible(count: string -> nat, max: nat, blocks: seq<Block>)
    requires NoneBlank(blocks) && UnitsOfBlocks(count, max, blocks).Ok?
    ensures Shown(UnitsOfBlocks(count, max, blocks).value) == Visible(Flatten(Texts(blocks)))
  {
    if blocks == [] {
    } else {
      var front, last := blocks[..|blocks| - 1], blocks[|blocks| - 1];
      BlockUnitsKeepVisible(count, max, front);
      SentencesKeepVisible(last.text);
      SentenceUnitsKeepVisible(count, max, last, SplitSentences(last.text));
      ShownConcat(UnitsOfBlocks(count, max, front).value, UnitsOfSentences(count, max, last, SplitSentences(last.text)).value);
      VisibleConcat(Flatten(Texts(front)), last.text);
    }
  }

  /** No text is lost between the file and its units. */
  lemma UnitsKeepTheFile(count: string -> nat, max: nat, text: string)
    requires UnitsOfBlocks(count, max, ParagraphBlocksOf(SplitLines(text))).Ok?
    ensures Shown(UnitsOfBlocks(count, max, ParagraphBlocksOf(SplitLines(text))).value) == Visible(text)
  {
    BlocksOfText(text);
    BlockUnitsKeepVisible(count, max, ParagraphBlocksOf(SplitLines(text)));
  }

  /** A stretch of the text, as it stands there. */
  ghost predicate Passage(part: string, text: string) {
    exists i, j :: 0 <= i <= j <= |text| && part == text[i..j]
  }

  lemma PassageOfPassage(a: string, b: string, c: string)
    requires Passage(a, b) && Passage(b, c)
    ensures Passage(a, c)
  {
    var i, j :| 0 <= i <= j <= |b| && a == b[i..j];
    var k, l :| 0 <= k <= l <= |c| && b == c[k..l];
    assert forall x :: 0 <= x < |a| ==> a[x] == b[i + x] == c[k + (i + x)];
    assert a == c[k + i..k + j];
  }

  lemma SentencesArePassages(text: string, sentence: string)
    requires !Blank(text) && sentence in SplitSentences(text)
    ensures Passage(sentence, text)
  {
    var spans, at := SentencesAreExact(text);
    var i :| 0 <= i < |at| && SplitSentences(text)[i] == sentence;
    var piece := text[spans[at[i]].from..spans[at[i]].to];
    var before, after := StripIsExact(piece);
    assert piece[|before|..|before| + |sentence|] == sentence;
    PassageOfPassage(sentence, piece, text);
  }

  lemma PiecesArePassages(count: string -> nat, max: nat, text: string)
    requires Trimmed(text) && Cut(count, max, text).Ok?
    ensures forall piece :: piece in Cut(count, max, text).value ==> Passage(piece, text)
  {
    assert text[0..] == text;
    var extents := CutIsGreedy(count, max, text, 0);
  }

  /** A unit fits, is a passage of its block that shows something, and carries the block's index and line range. */
  ghost predicate GoodUnit(count: string -> nat, max: nat, block: Block, unit: Unit) {
    && count(unit.text) <= max && !Blank(unit.text) && Passage(unit.text, block.text)
    && unit.blockIndex == block.index && unit.locator == block.locator.(segment := unit.locator.segment)
  }

  lemma {:induction false} PiecesShow(count: string -> nat, max: nat, text: string)
    requires Cut(count, max, text).Ok?
    ensures forall piece :: piece in Cut(count, max, text).value ==> !Blank(piece)
    decreases |text|
  {
    if text == [] {
    } else {
      var prefix := RStrip(text[..FitLength(count, max, text, 0)]);
      PiecesShow(count, max, LStrip(text[|prefix|..]));
    }
  }

  lemma {:induction false} SegmentsOf(unit: Unit, pieces: seq<string>)
    ensures |Segments(unit, pieces)| == |pieces|
    ensures forall i :: 0 <= i < |pieces| ==>
              Segments(unit, pieces)[i] == Unit(pieces[i], unit.blockIndex, unit.locator.(segment := Some(i)))
  {
    if pieces == [] {
    } else {
      SegmentsOf(unit, pieces[..|pieces| - 1]);
    }
  }

  /** A sentence that fits stays whole; another becomes its numbered greedy pieces. */
  lemma SplitUnitIsExact(count: string -> nat, max: nat, unit: Unit) returns (extents: seq<Extent>)
    requires Trimmed(unit.text) && SplitUnit(count, max, unit).Ok?
    ensures var units := SplitUnit(count, max, unit).value;
            if count(unit.text) <= max then units == [unit]
            else
              && GreedyFrom(count, max, unit.text, 0, extents, UnitTexts(units)) && |UnitTexts(units)| == |units|
              && forall i :: 0 <= i < |units| ==> units[i] == Unit(UnitTexts(units)[i], unit.blockIndex, unit.locator.(segment := Some(i)))
  {
    extents := [];
    if count(unit.text) > max {
      assert unit.text[0..] == unit.text;
      extents := CutIsGreedy(count, max, unit.text, 0);
      SegmentsOf(unit, Cut(count, max, unit.text).value);
      SegmentTexts(unit, Cut(count, max, unit.text).value);
    }
  }

  lemma SplitUnitGood(count: string -> nat, max: nat, block: Block, text: string)
    requires SplitUnit(count, max, Unit(text, block.index, block.locator)).Ok? && !Blank(text) && Trimmed(text) && Passage(text, block.text)
    ensures forall u :: u in SplitUnit(count, max, Unit(text, block.index, block.locator)).value ==> GoodUnit(count, max, block, u)
  {
    if count(text) > max {
      var pieces := Cut(count, max, text).value;
      PiecesFit(count, max, text);
      PiecesShow(count, max, text);
      PiecesArePassages(count, max, text);
      forall piece | piece in pieces ensures Passage(piece, block.text) {
        PassageOfPassage(piece, text, block.text);
      }
      SegmentsOf(Unit(text, block.index, block.locator), pieces);
    }
  }

  lemma {:induction false} SentenceUnitsGood(count: string -> nat, max: nat, block: Block, sentences: seq<string>)
    requires UnitsOfSentences(count, max, block, sentences).Ok?
    requires forall s :: s in sentences ==> Trimmed(s) && Passage(s, block.text)
    ensures forall u :: u in UnitsOfSentences(count, max, block, sentences).value ==> GoodUnit(count, max, block, u)
  {
    if sentences == [] {
    } else {
      var last := sentences[|sentences| - 1];
      SentenceUnitsGood(count, max, block, sentences[..|sentences| - 1]);
      assert Trimmed(last);
      FirstShows(last);
      SplitUnitGood(count, max, block, last);
    }
  }

  ghost predicate FromBlocks(count: string -> nat, max: nat, blocks: seq<Block>, unit: Unit) {
    exists block :: block in blocks && GoodUnit(count, max, block, unit)
  }

  /** Every unit fits a chunk by itself and cites the lines of a block it came from. */
  lemma {:induction false} UnitsGood(count: string -> nat, max: nat, blocks: seq<Block>)
    requires NoneBlank(blocks) && UnitsOfBlocks(count, max, blocks).Ok?
    ensures forall u :: u in UnitsOfBlocks(count, max, blocks).value ==> FromBlocks(count, max, blocks, u)
  {
    if blocks == [] {
    } else {
      var front, last := blocks[..|blocks| - 1], blocks[|blocks| - 1];
      UnitsGood(count, max, front);
      SentencesKeepVisible(last.text);
      forall s | s in SplitSentences(last.text) ensures Passage(s, last.text) {
        SentencesArePassages(last.text, s);
      }
      SentenceUnitsGood(count, max, last, SplitSentences(last.text));
      forall u | u in UnitsOfBlocks(count, max, blocks).value ensures FromBlocks(count, max, blocks, u) {
        if u in UnitsOfBlocks(count, max, front).value {
          var block :| block in front && GoodUnit(count, max, block, u);
          assert block in blocks;
        }
      }
    }
  }

  lemma {:induction false} SentenceUnitsSucceed(count: string -> nat, max: nat, block: Block, sentences: seq<string>)
    requires forall s :: s in sentences ==> Trimmed(s)
    requires CharactersFit(count, max, Flatten(sentences))
    ensures UnitsOfSentences(count, max, block, sentences).Ok?
  {
    if sentences == [] {
    } else {
      var front, last := sentences[..|sentences| - 1], sentences[|sentences| - 1];
      VisibleConcat(Flatten(front), last);
      CharactersFitBySplit(count, max, Flatten(sentences), Flatten(front), last);
      SentenceUnitsSucceed(count, max, block, front);
      assert Trimmed(last);
      CutSucceeds(count, max, last);
    }
  }

  /** Splitting a document fails only when one single visible character is too large. */
  lemma {:induction false} UnitsSucceed(count: string -> nat, max: nat, blocks: seq<Block>)
    requires NoneBlank(blocks) && CharactersFit(count, max, Flatten(Texts(blocks)))
    ensures UnitsOfBlocks(count, max, blocks).Ok?
  {
    if blocks == [] {
    } else {
      var front, last := blocks[..|blocks| - 1], blocks[|blocks| - 1];
      VisibleConcat(Flatten(Texts(front)), last.text);
      CharactersFitBySplit(count, max, Flatten(Texts(blocks)), Flatten(Texts(front)), last.text);
      UnitsSucceed(count, max, front);
      SentencesKeepVisible(last.text);
      SentenceUnitsSucceed(count, max, last, SplitSentences(last.text));
    }
  }

  lemma {:induction false} SentenceUnitsNeedFit(count: string -> nat, max: nat, block: Block, sentences: seq<string>)
    requires PartsCountNoMore(count) && UnitsOfSentences(count, max, block, sentences).Ok?
    ensures CharactersFit(count, max, Flatten(sentences))
  {
    if sentences == [] {
    } else {
      var front, last := sentences[..|sentences| - 1], sentences[|sentences| - 1];
      SentenceUnitsNeedFit(count, max, block, front);
      if count(last) <= max {
        TextFitsSoCharactersFit(count, max, last);
      } else {
        CutNeedsCharactersToFit(count, max, last);
      }
      VisibleConcat(Flatten(front), last);
      CharactersFitBySplit(count, max, Flatten(sentences), Flatten(front), last);
    }
  }

  /** For a counter that never counts a part higher than the whole, that is exactly when it fails. */
  lemma {:induction false} UnitsSucceedExactlyWhenCharactersFit(count: string -> nat, max: nat, blocks: seq<Block>)
    requires NoneBlank(blocks) && PartsCountNoMore(count)
    ensures UnitsOfBlocks(count, max, blocks).Ok? <==> CharactersFit(count, max, Flatten(Texts(blocks)))
  {
    if UnitsOfBlocks(count, max, blocks).Ok? && blocks != [] {
      var front, last := blocks[..|blocks| - 1], blocks[|blocks| - 1];
      UnitsSucceedExactlyWhenCharactersFit(count, max, front);
      SentencesKeepVisible(last.text);
      SentenceUnitsNeedFit(count, max, last, SplitSentences(last.text));
      VisibleConcat(Flatten(Texts(front)), last.text);
      CharactersFitBySplit(count, max, Flatten(Texts(blocks)), Flatten(Texts(front)), last.text);
    } else if blocks != [] && CharactersFit(count, max, Flatten(Texts(blocks))) {
      UnitsSucceed(count, max, blocks);
    }
  }
}
