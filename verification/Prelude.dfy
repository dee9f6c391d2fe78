/** Result types and sequence facts shared by the components. */
module Prelude {
  // Identifiers that more than one component uses.
  type FileId = nat
  type UserId = nat
  type ChunkId = nat

  datatype Option<+T> = None | Some(value: T)

  datatype Result<+T, +E> = Ok(value: T) | Err(error: E)

  /** A prefix grows by its next element. */
  lemma PrefixGrows<T>(s: seq<T>, i: nat)
    requires i < |s|
    ensures s[..i + 1] == s[..i] + [s[i]]
    ensures s[..i + 1][..i] == s[..i]
  {}

  lemma SliceGrows<T>(s: seq<T>, i: nat, j: nat)
    requires i <= j <= |s|
    ensures s[..j] == s[..i] + s[i..j]
  {}

  lemma SuffixParts<T>(s: seq<T>, i: nat, j: nat)
    requires i <= j <= |s|
    ensures s[i..][..j - i] == s[i..j] && s[i..][j - i..] == s[j..]
  {}

  lemma ThreeParts<T>(s: seq<T>, i: nat, j: nat)
    requires i <= j <= |s|
    ensures s == s[..i] + s[i..j] + s[j..]
  {}

  lemma Associates<T>(a: seq<T>, b: seq<T>, c: seq<T>)
    ensures a + (b + c) == a + b + c
  {}

  lemma WholePrefix<T>(s: seq<T>)
    ensures s[..|s|] == s
  {}

  ghost predicate Every<T>(p: T -> bool, s: seq<T>) {
    forall i :: 0 <= i < |s| ==> p(s[i])
  }

  lemma EveryGrows<T>(p: T -> bool, s: seq<T>, i: nat)
    requires i < |s| && Every(p, s[..i])
    ensures p(s[i]) ==> Every(p, s[..i + 1])
    ensures !p(s[i]) ==> !Every(p, s)
  {
    PrefixGrows(s, i);
  }

  /** The end of a slice is a slice with the same end. */
  lemma SuffixOfSlice<T>(s: seq<T>, i: nat, j: nat, k: nat)
    requires i <= j <= |s| && k <= j - i
    ensures s[i..j][j - i - k..] == s[j - k..j]
  {}
}
