/**
 Sentence splitting: the regular expression `(?<=[.!?。！？])\s*|\n{2,}` as a
 scanner. It cuts at every boundary and nowhere else, and loses only whitespace.
 */
module Sentences {
  import opened Prelude
  import opened Text

  predicate Ender(c: char) {
    c == '.' || c == '!' || c == '?' || c == '\U{3002}' || c == '\U{FF01}' || c == '\U{FF1F}'
  }

  /** The full stop, exclamation and question marks of the expression, ASCII and full-width. */
  lemma EndersAreTheSix(c: char)
    ensures Ender(c) <==> c as int in {0x21, 0x2E, 0x3F, 0x3002, 0xFF01, 0xFF1F}
  {}

  /** Where the whitespace that starts at `p` ends. */
  function SpacesFrom(text: string, p: nat): (e: nat)
    requires p <= |text|
    ensures p <= e <= |text|
    ensures forall i :: p <= i < e ==> IsSpace(text[i])
    ensures e == |text| || !IsSpace(text[e])
    decreases |text| - p
  {
    if p < |text| && IsSpace(text[p]) then SpacesFrom(text, p + 1) else p
  }

  function NewlinesFrom(text: string, p: nat): (e: nat)
    requires p <= |text|
    ensures p <= e <= |text|
    ensures forall i :: p <= i < e ==> text[i] == '\n'
    ensures e == |text| || text[e] != '\n'
    decreases |text| - p
  {
    if p < |text| && text[p] == '\n' then NewlinesFrom(text, p + 1) else p
  }

  datatype Span = Span(from: nat, to: nat)

  /** re.split from position `p`, with the current piece begun at `start`. */
  function Spans(text: string, start: nat, p: nat): (spans: seq<Span>)
    requires start <= p <= |text|
    ensures forall span :: span in spans ==> span.from <= span.to <= |text|
    decreases |text| - p
  {
    if p > 0 && Ender(text[p - 1]) then
      var e := SpacesFrom(text, p);
      [Span(start, p)] + if e == |text| then [Span(e, e)] else Spans(text, e, if e == p then p + 1 else e)
    else if NewlinesFrom(text, p) >= p + 2 then
      [Span(start, p)] + Spans(text, NewlinesFrom(text, p), NewlinesFrom(text, p))
    else if p == |text| then [Span(start, p)]
    else Spans(text, start, p + 1)
  }

  // ---- What the scanner computes ------------------------------------------------

  /** A cut that ends a piece at `p` and starts the next at `e`: after a sentence mark all the whitespace goes, elsewhere a run of at least two line feeds. */
  ghost predicate Boundary(text: string, p: nat, e: nat) {
    && p <= e <= |text|
    && if p > 0 && Ender(text[p - 1]) then
         AllSpace(text[p..e]) && (e == |text| || !IsSpace(text[e]))
       else
         e >= p + 2 && (forall i :: p <= i < e ==> text[i] == '\n') && (e == |text| || text[e] != '\n')
  }

  /** No cut is possible strictly inside the piece. */
  ghost predicate Whole(text: string, from: nat, to: nat) {
    && from <= to <= |text|
    && (forall i :: from <= i < to - 1 ==> !Ender(text[i]))
    && (forall i :: from <= i < to && i + 1 < |text| ==> text[i] != '\n' || text[i + 1] != '\n')
  }

  ghost predicate IsSplit(text: string, start: nat, spans: seq<Span>) {
    && spans != [] && spans[0].from == start && spans[|spans| - 1].to == |text|
    && (forall k :: 0 <= k < |spans| ==> Whole(text, spans[k].from, spans[k].to))
    && (forall k :: 0 <= k < |spans| - 1 ==> Boundary(text, spans[k].to, spans[k + 1].from))
  }

  lemma SplitGrows(text: string, start: nat, p: nat, e: nat, rest: seq<Span>)
    requires Whole(text, start, p) && Boundary(text, p, e) && IsSplit(text, e, rest)
    ensures IsSplit(text, start, [Span(start, p)] + rest)
  {}

  /** The pieces are cut at every boundary and only there. */
  lemma {:induction false} SpansAreTheSplit(text: string, start: nat, p: nat)
    requires start <= p <= |text| && Whole(text, start, p)
    ensures IsSplit(text, start, Spans(text, start, p))
    decreases |text| - p
  {
    if p > 0 && Ender(text[p - 1]) {
      var e := SpacesFrom(text, p);
      if e == |text| {
        SplitGrows(text, start, p, e, [Span(e, e)]);
      } else {
        SpansAreTheSplit(text, e, if e == p then p + 1 else e);
        SplitGrows(text, start, p, e, Spans(text, e, if e == p then p + 1 else e));
      }
    } else if NewlinesFrom(text, p) >= p + 2 {
      var e := NewlinesFrom(text, p);
      SpansAreTheSplit(text, e, e);
      SplitGrows(text, start, p, e, Spans(text, e, e));
    } else if p < |text| {
      SpansAreTheSplit(text, start, p + 1);
    }
  }

  // ---- Sentences ------------------------------------------------------------------

  function Slices(text: string, spans: seq<Span>): seq<string>
    requires forall span :: span in spans ==> span.from <= span.to <= |text|
  {
    if spans == [] then [] else [text[spans[0].from..spans[0].to]] + Slices(text, spans[1..])
  }

  /** The trimmed pieces, without those of which nothing is left. */
  function KeptBy(trim: string -> string, pieces: seq<string>): seq<string> {
    if pieces == [] then []
    else
      var front, last := pieces[..|pieces| - 1], pieces[|pieces| - 1];
      KeptBy(trim, front) + if trim(last) != [] then [trim(last)] else []
  }

  function Kept(pieces: seq<string>): seq<string> {
    KeptBy(Strip, pieces)
  }

  /** _split_sentences */
  function SplitSentences(text: string): seq<string> {
    var kept := Kept(Slices(text, Spans(text, 0, 0)));
    if kept == [] then [Strip(text)] else kept
  }

  lemma GapIsLost(text: string, start: nat, p: nat, e: nat)
    requires start <= p && Boundary(text, p, e)
    ensures Visible(text[start..]) == Visible(text[start..p]) + Visible(text[e..])
  {
    var s := text[start..];
    assert s[p - start..e - start] == text[p..e];
    assert s[..p - start] == text[start..p];
    assert s[e - start..] == text[e..];
    SpacesAreBlank(text[p..e]);
    CutBlank(s, p - start, e - start);
  }

  lemma {:induction false} SlicesKeepVisible(text: string, start: nat, spans: seq<Span>)
    requires IsSplit(text, start, spans)
    requires forall span :: span in spans ==> span.from <= span.to <= |text|
    ensures Visible(Flatten(Slices(text, spans))) == Visible(text[start..])
    decreases |spans|
  {
    var p, rest := spans[0].to, spans[1..];
    FlattenFront(text[start..p], Slices(text, rest));
    if rest == [] {
      assert text[start..p] == text[start..];
      assert Flatten(Slices(text, rest)) == [];
    } else {
      assert IsSplit(text, spans[1].from, rest) by {
        SplitShrinks(text, start, spans);
      }
      SlicesKeepVisible(text, spans[1].from, rest);
      GapIsLost(text, start, p, spans[1].from);
    }
  }

  lemma SplitShrinks(text: string, start: nat, spans: seq<Span>)
    requires IsSplit(text, start, spans) && |spans| > 1
    ensures IsSplit(text, spans[1].from, spans[1..])
  {}

  lemma {:induction false} KeptAreTrimmed(pieces: seq<string>)
    ensures forall s :: s in Kept(pieces) ==> Trimmed(s)
  {
    if pieces == [] {
    } else {
      var front, last := pieces[..|pieces| - 1], pieces[|pieces| - 1];
      KeptAreTrimmed(front);
      if Strip(last) != [] {
        StripTrims(last);
      }
    }
  }

  lemma {:induction false} KeptKeepsVisible(pieces: seq<string>)
    ensures Visible(Flatten(Kept(pieces))) == Visible(Flatten(pieces))
  {
    if pieces == [] {
    } else {
      var front, last := pieces[..|pieces| - 1], pieces[|pieces| - 1];
      KeptKeepsVisible(front);
      assert pieces == front + [last];
      FlattenBack(front, last);
      StripOfBlank(last);
      StripKeepsVisible(last);
      FlattenBack(Kept(front), Strip(last));
      if Strip(last) == [] {
        assert Kept(pieces) == Kept(front);
      }
    }
  }

  ghost predicate Trimmed(s: string) {
    s != [] && !IsSpace(s[0]) && !IsSpace(s[|s| - 1])
  }

  /** `at` are the places of the pieces of which something is left, and `kept` is what is left of them. */
  ghost predicate Selects(trim: string -> string, pieces: seq<string>, kept: seq<string>, at: seq<nat>) {
    && |at| == |kept|
    && (forall i, j :: 0 <= i < j < |at| ==> at[i] < at[j])
    && (forall i :: 0 <= i < |at| ==> at[i] < |pieces| && kept[i] == trim(pieces[at[i]]))
    && (forall k :: 0 <= k < |pieces| ==> (k in at <==> trim(pieces[k]) != []))
  }

  lemma SelectLast(trim: string -> string, pieces: seq<string>, kept: seq<string>, at: seq<nat>, last: string)
    requires Selects(trim, pieces, kept, at)
    ensures if trim(last) != [] then Selects(trim, pieces + [last], kept + [trim(last)], at + [|pieces|])
            else Selects(trim, pieces + [last], kept, at)
  {}

  lemma {:induction false} KeptBySelects(trim: string -> string, pieces: seq<string>) returns (at: seq<nat>)
    ensures Selects(trim, pieces, KeptBy(trim, pieces), at)
  {
    at := [];
    if pieces == [] {
    } else {
      var front, last := pieces[..|pieces| - 1], pieces[|pieces| - 1];
      at := KeptBySelects(trim, front);
      SelectLast(trim, front, KeptBy(trim, front), at, last);
      assert front + [last] == pieces;
      at := at + if trim(last) != [] then [|front|] else [];
      assert trim(last) == [] ==> KeptBy(trim, pieces) == KeptBy(trim, front);
    }
  }

  /** The sentences are the pieces that are not blank, stripped, in their order. */
  lemma KeptIsSelection(pieces: seq<string>) returns (at: seq<nat>)
    ensures |at| == |Kept(pieces)|
    ensures forall i, j :: 0 <= i < j < |at| ==> at[i] < at[j]
    ensures forall i :: 0 <= i < |at| ==> at[i] < |pieces| && Kept(pieces)[i] == Strip(pieces[at[i]])
    ensures forall k :: 0 <= k < |pieces| ==> (k in at <==> !Blank(pieces[k]))
  {
    at := KeptBySelects(Strip, pieces);
    forall k | 0 <= k < |pieces| ensures k in at <==> !Blank(pieces[k]) {
      StripOfBlank(pieces[k]);
    }
  }

  lemma {:induction false} SlicesAt(text: string, spans: seq<Span>)
    requires forall span :: span in spans ==> span.from <= span.to <= |text|
    ensures |Slices(text, spans)| == |spans|
    ensures forall i :: 0 <= i < |spans| ==> spans[i].from <= spans[i].to <= |text| && Slices(text, spans)[i] == text[spans[i].from..spans[i].to]
  {
    if spans == [] {
    } else {
      SlicesAt(text, spans[1..]);
    }
  }

  /** A text is cut at every boundary and only there; its sentences are the pieces that show something, stripped, in order. */
  lemma SentencesAreExact(text: string) returns (spans: seq<Span>, at: seq<nat>)
    requires !Blank(text)
    ensures IsSplit(text, 0, spans) && |at| == |SplitSentences(text)|
    ensures forall i, j :: 0 <= i < j < |at| ==> at[i] < at[j]
    ensures forall i :: 0 <= i < |at| ==>
      at[i] < |spans| && spans[at[i]].from <= spans[at[i]].to <= |text| && SplitSentences(text)[i] == Strip(text[spans[at[i]].from..spans[at[i]].to])
    ensures forall k :: 0 <= k < |spans| && spans[k].from <= spans[k].to <= |text| ==>
      (k in at <==> !Blank(text[spans[k].from..spans[k].to]))
  {
    spans := Spans(text, 0, 0);
    SpansAreTheSplit(text, 0, 0);
    SlicesAt(text, spans);
    SentencesKeepVisible(text);
    at := KeptIsSelection(Slices(text, spans));
  }

  /** A blank text is one empty sentence. */
  lemma BlankIsOneSentence(text: string)
    requires Blank(text)
    ensures SplitSentences(text) == [""]
  {
    var pieces := Slices(text, Spans(text, 0, 0));
    SpansAreTheSplit(text, 0, 0);
    SlicesKeepVisible(text, 0, Spans(text, 0, 0));
    KeptKeepsVisible(pieces);
    assert text[0..] == text;
    StripOfBlank(text);
    if Kept(pieces) != [] {
      KeptAreTrimmed(pieces);
      var first := Kept(pieces)[0];
      assert Trimmed(first);
      assert Kept(pieces) == [first] + Kept(pieces)[1..];
      FlattenFront(first, Kept(pieces)[1..]);
      FirstShows(first);
    }
  }

  /** Sentences show exactly what the text shows, and none has outer whitespace: the fallback is never taken. */
  lemma SentencesKeepVisible(text: string)
    requires !Blank(text)
    ensures Visible(Flatten(SplitSentences(text))) == Visible(text)
    ensures forall s :: s in SplitSentences(text) ==> Trimmed(s)
    ensures SplitSentences(text) == Kept(Slices(text, Spans(text, 0, 0)))
  {
    var spans := Spans(text, 0, 0);
    SpansAreTheSplit(text, 0, 0);
    SlicesKeepVisible(text, 0, spans);
    KeptKeepsVisible(Slices(text, spans));
    KeptAreTrimmed(Slices(text, spans));
    assert text[0..] == text;
  }
}
