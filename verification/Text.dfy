/** Python's whitespace and `strip`, and the characters that survive removing it. */
module Text {
  import opened Prelude

  /** The characters `str.isspace` accepts, which are also what `\s` matches in a str pattern. */
  predicate IsSpace(c: char) {
    || '\t' <= c <= '\r'
    || '\U{1C}' <= c <= ' '
    || c == '\U{85}' || c == '\U{A0}' || c == '\U{1680}'
    || c == '\U{2028}' || c == '\U{2029}' || c == '\U{202F}' || c == '\U{205F}' || c == '\U{3000}'
    || '\U{2000}' <= c <= '\U{200A}'
  }

  /** The 29 code points. */
  lemma WhitespaceIsPythons(c: char)
    ensures IsSpace(c) <==> c as int in {9, 10, 11, 12, 13, 28, 29, 30, 31, 32, 133, 160, 5760, 8192, 8193, 8194, 8195, 8196, 8197,
                                         8198, 8199, 8200, 8201, 8202, 8232, 8233, 8239, 8287, 12288}
  {}

  function LStrip(s: string): (r: string)
    ensures r == [] || !IsSpace(r[0])
    ensures |r| <= |s|
  {
    if s != [] && IsSpace(s[0]) then LStrip(s[1..]) else s
  }

  function RStrip(s: string): (r: string)
    ensures r == [] || !IsSpace(r[|r| - 1])
    ensures |r| <= |s|
  {
    if s != [] && IsSpace(s[|s| - 1]) then RStrip(s[..|s| - 1]) else s
  }

  function Strip(s: string): string {
    RStrip(LStrip(s))
  }

  /** The text with all whitespace removed. */
  function Visible(s: string): string {
    if s == [] then []
    else Visible(s[..|s| - 1]) + if IsSpace(s[|s| - 1]) then [] else [s[|s| - 1]]
  }

  /** Nothing in the text shows; equivalently, stripping it leaves nothing. */
  predicate Blank(s: string) {
    Visible(s) == []
  }

  function Flatten(parts: seq<string>): string {
    if parts == [] then [] else Flatten(parts[..|parts| - 1]) + parts[|parts| - 1]
  }

  function Join(parts: seq<string>, separator: string): string {
    if parts == [] then []
    else if |parts| == 1 then parts[0]
    else Join(parts[..|parts| - 1], separator) + separator + parts[|parts| - 1]
  }

  lemma {:induction false} VisibleConcat(a: string, b: string)
    ensures Visible(a + b) == Visible(a) + Visible(b)
    decreases |b|
  {
    if b == [] {
      assert a + b == a;
    } else {
      VisibleConcat(a, b[..|b| - 1]);
      assert (a + b)[..|a + b| - 1] == a + b[..|b| - 1];
    }
  }

  lemma {:induction false} SpacesAreBlank(s: string)
    requires forall c :: c in s ==> IsSpace(c)
    ensures Blank(s)
  {
    if s == [] {
    } else {
      SpacesAreBlank(s[..|s| - 1]);
    }
  }

  ghost predicate AllSpace(s: string) {
    forall i :: 0 <= i < |s| ==> IsSpace(s[i])
  }

  lemma {:induction false} LStripIsSuffix(s: string)
    ensures LStrip(s) == s[|s| - |LStrip(s)|..] && AllSpace(s[..|s| - |LStrip(s)|])
  {
    if s == [] || !IsSpace(s[0]) {
    } else {
      LStripIsSuffix(s[1..]);
      assert s[..|s| - |LStrip(s)|] == [s[0]] + s[1..][..|s[1..]| - |LStrip(s)|];
    }
  }

  lemma {:induction false} RStripIsPrefix(s: string)
    ensures RStrip(s) == s[..|RStrip(s)|] && AllSpace(s[|RStrip(s)|..])
  {
    if s == [] || !IsSpace(s[|s| - 1]) {
    } else {
      RStripIsPrefix(s[..|s| - 1]);
      assert s[|RStrip(s)|..] == s[..|s| - 1][|RStrip(s)|..] + [s[|s| - 1]];
    }
  }

  /** Stripping takes the outer whitespace and nothing else. */
  lemma StripIsExact(s: string) returns (before: string, after: string)
    ensures s == before + Strip(s) + after && AllSpace(before) && AllSpace(after)
    ensures Strip(s) != [] ==> !IsSpace(Strip(s)[0]) && !IsSpace(Strip(s)[|Strip(s)| - 1])
  {
    var left := LStrip(s);
    LStripIsSuffix(s);
    RStripIsPrefix(left);
    before, after := s[..|s| - |left|], left[|Strip(s)|..];
    if Strip(s) != [] {
      StripTrims(s);
    }
  }

  lemma {:induction false} LStripKeepsVisible(s: string)
    ensures Visible(LStrip(s)) == Visible(s)
  {
    if s == [] || !IsSpace(s[0]) {
    } else {
      LStripKeepsVisible(s[1..]);
      assert s == s[..1] + s[1..];
      VisibleConcat(s[..1], s[1..]);
      assert s[..1][..0] == [];
    }
  }

  lemma {:induction false} RStripKeepsVisible(s: string)
    ensures Visible(RStrip(s)) == Visible(s)
  {
    if s == [] || !IsSpace(s[|s| - 1]) {
    } else {
      RStripKeepsVisible(s[..|s| - 1]);
    }
  }

  lemma StripKeepsVisible(s: string)
    ensures Visible(Strip(s)) == Visible(s)
  {
    LStripKeepsVisible(s);
    RStripKeepsVisible(LStrip(s));
  }

  /** Trailing whitespace goes, and a visible first character stays first. */
  lemma RStripFacts(s: string)
    ensures RStrip(s) == [] <==> Blank(s)
    ensures RStrip(s) != [] ==> RStrip(s)[0] == s[0]
  {}

  lemma {:induction false} FirstShows(s: string)
    requires s != [] && !IsSpace(s[0])
    ensures !Blank(s)
  {
    assert s == s[..1] + s[1..];
    VisibleConcat(s[..1], s[1..]);
    assert s[..1][..0] == [];
  }

  /** `if s.strip()`: stripping leaves nothing exactly of a blank text. */
  lemma StripOfBlank(s: string)
    ensures Strip(s) == [] <==> Blank(s)
  {
    LStripKeepsVisible(s);
    RStripFacts(LStrip(s));
  }

  lemma StripTrims(s: string)
    requires Strip(s) != []
    ensures !IsSpace(Strip(s)[0]) && !IsSpace(Strip(s)[|Strip(s)| - 1])
  {
    RStripFacts(LStrip(s));
  }

  lemma {:induction false} FlattenConcat(a: seq<string>, b: seq<string>)
    ensures Flatten(a + b) == Flatten(a) + Flatten(b)
    decreases |b|
  {
    if b == [] {
      assert a + b == a;
    } else {
      FlattenConcat(a, b[..|b| - 1]);
      assert (a + b)[..|a + b| - 1] == a + b[..|b| - 1];
    }
  }

  lemma FlattenOne(part: string)
    ensures Flatten([part]) == part
  {}

  lemma FlattenFront(first: string, rest: seq<string>)
    ensures Visible(Flatten([first] + rest)) == Visible(first) + Visible(Flatten(rest))
  {
    FlattenConcat([first], rest);
    FlattenOne(first);
    VisibleConcat(first, Flatten(rest));
  }

  lemma FlattenBack(front: seq<string>, last: string)
    ensures Visible(Flatten(front + [last])) == Visible(Flatten(front)) + Visible(last)
  {
    assert (front + [last])[..|front|] == front;
    VisibleConcat(Flatten(front), last);
  }

  /** Dropping whitespace between two parts loses nothing. */
  lemma DropBlank(a: string, gap: string, b: string)
    requires Blank(gap)
    ensures Visible(a + gap + b) == Visible(a) + Visible(b)
  {
    VisibleConcat(a + gap, b);
    VisibleConcat(a, gap);
  }

  lemma {:induction false} JoinKeepsVisible(parts: seq<string>, separator: string)
    requires Blank(separator)
    ensures Visible(Join(parts, separator)) == Visible(Flatten(parts))
  {
    if parts == [] {
    } else if |parts| == 1 {
      assert parts == [parts[0]];
      FlattenOne(parts[0]);
    } else {
      var front, last := parts[..|parts| - 1], parts[|parts| - 1];
      JoinKeepsVisible(front, separator);
      DropBlank(Join(front, separator), separator, last);
      VisibleConcat(Flatten(front), last);
    }
  }

  lemma {:induction false} JoinFront(first: string, rest: seq<string>, separator: string)
    requires rest != []
    ensures Join([first] + rest, separator) == first + separator + Join(rest, separator)
  {
    var parts, front, last := [first] + rest, rest[..|rest| - 1], rest[|rest| - 1];
    assert parts[..|parts| - 1] == [first] + front;
    if front == [] {
      assert rest == [last];
    } else {
      JoinFront(first, front, separator);
    }
  }

  lemma {:induction false} LStripOfConcat(a: string, b: string)
    requires LStrip(a) != []
    ensures LStrip(a + b) == LStrip(a) + b
  {
    if !IsSpace(a[0]) {
    } else {
      LStripOfConcat(a[1..], b);
      assert (a + b)[1..] == a[1..] + b;
    }
  }

  lemma LStripOfJoin(first: string, rest: seq<string>, separator: string)
    requires LStrip(first) != []
    ensures LStrip(Join([first] + rest, separator)) == Join([LStrip(first)] + rest, separator)
  {
    if rest != [] {
      var tail := separator + Join(rest, separator);
      JoinFront(first, rest, separator);
      JoinFront(LStrip(first), rest, separator);
      assert first + separator + Join(rest, separator) == first + tail;
      assert LStrip(first) + separator + Join(rest, separator) == LStrip(first) + tail;
      LStripOfConcat(first, tail);
    }
  }

  /** Cutting a blank gap out of a text loses nothing. */
  lemma CutBlank(s: string, i: nat, j: nat)
    requires i <= j <= |s| && Blank(s[i..j])
    ensures Visible(s) == Visible(s[..i]) + Visible(s[j..])
  {
    ThreeParts(s, i, j);
    DropBlank(s[..i], s[i..j], s[j..]);
  }
}
