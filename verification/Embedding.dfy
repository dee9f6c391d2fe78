/**
 One batch of texts through the embedding provider and the gateway. A provider
 may answer in any order; the `index` of each item says which text it belongs
 to. Order is recovered by sorting, and anything but one item per text is refused.
 */
module Embedding {
  import opened Prelude

  /** A float of the provider's answer; NaN and the infinities have no real value. */
  datatype Number = Finite(value: real) | NotFinite

  type Vector = seq<Number>

  predicate AllFinite(vector: Vector) {
    forall i :: 0 <= i < |vector| ==> vector[i].Finite?
  }

  datatype Item = Item(index: int, vector: Vector)

  /** What the network call brings back. */
  datatype ProviderReply = Unreachable | Answer(items: seq<Item>)

  datatype EmbeddingError = InvalidRequest | ProviderFailed

  function Range(n: nat): (r: seq<int>)
    ensures |r| == n && forall i :: 0 <= i < n ==> r[i] == i
  {
    seq(n, i => i)
  }

  function Indexes(items: seq<Item>): seq<int> {
    seq(|items|, i requires 0 <= i < |items| => items[i].index)
  }

  ghost predicate SortedByIndex(items: seq<Item>) {
    forall i, j :: 0 <= i < j < |items| ==> items[i].index <= items[j].index
  }

  /** The stable `list.sort(key=index)` of the standard library. */
  function Insert(item: Item, sorted: seq<Item>): seq<Item> {
    if sorted == [] || item.index < sorted[0].index then [item] + sorted
    else [sorted[0]] + Insert(item, sorted[1..])
  }

  function SortByIndex(items: seq<Item>): seq<Item> {
    if items == [] then [] else Insert(items[|items| - 1], SortByIndex(items[..|items| - 1]))
  }

  lemma {:induction false} InsertKeepsItems(item: Item, sorted: seq<Item>)
    ensures multiset(Insert(item, sorted)) == multiset(sorted) + multiset{item}
  {
    if sorted == [] || item.index < sorted[0].index {
    } else {
      InsertKeepsItems(item, sorted[1..]);
      assert sorted == [sorted[0]] + sorted[1..];
    }
  }

  ghost predicate AllFrom(items: seq<Item>, low: int) {
    forall i :: 0 <= i < |items| ==> low <= items[i].index
  }

  lemma {:induction false} InsertedFrom(item: Item, sorted: seq<Item>, low: int)
    requires low <= item.index && AllFrom(sorted, low)
    ensures AllFrom(Insert(item, sorted), low)
  {
    if sorted == [] || item.index < sorted[0].index {
    } else {
      InsertedFrom(item, sorted[1..], low);
    }
  }

  lemma LeastFirst(first: Item, rest: seq<Item>)
    requires SortedByIndex(rest) && AllFrom(rest, first.index)
    ensures SortedByIndex([first] + rest)
  {}

  lemma {:induction false} InsertKeepsOrder(item: Item, sorted: seq<Item>)
    requires SortedByIndex(sorted)
    ensures SortedByIndex(Insert(item, sorted))
  {
    if sorted == [] {
    } else if item.index < sorted[0].index {
      LeastFirst(item, sorted);
    } else {
      InsertKeepsOrder(item, sorted[1..]);
      InsertedFrom(item, sorted[1..], sorted[0].index);
      LeastFirst(sorted[0], Insert(item, sorted[1..]));
    }
  }

  lemma {:induction false} SortByIndexSorts(items: seq<Item>)
    ensures multiset(SortByIndex(items)) == multiset(items)
    ensures SortedByIndex(SortByIndex(items))
  {
    if items == [] {
    } else {
      var front, last := items[..|items| - 1], items[|items| - 1];
      SortByIndexSorts(front);
      InsertKeepsItems(last, SortByIndex(front));
      InsertKeepsOrder(last, SortByIndex(front));
      assert items == front + [last];
    }
  }

  ghost predicate HasIndex(items: seq<Item>, k: int) {
    exists i :: 0 <= i < |items| && items[i].index == k
  }

  /** Each text has exactly one item. */
  ghost predicate OneItemPerText(items: seq<Item>, n: nat) {
    && |items| == n
    && forall k :: 0 <= k < n ==> HasIndex(items, k)
  }

  lemma {:induction false} SortedCoverIsRange(items: seq<Item>, n: nat)
    requires SortedByIndex(items) && OneItemPerText(items, n)
    ensures Indexes(items) == Range(n)
  {
    // Counted from the end: the largest index n-1 can only sit last.
    if n == 0 {
    } else {
      var rest := items[..n - 1];
      assert HasIndex(items, n - 1);
      var top :| 0 <= top < n && items[top].index == n - 1;
      assert items[top].index <= items[n - 1].index;
      forall k | 0 <= k < n - 1 ensures HasIndex(rest, k) {
        assert HasIndex(items, k);
        var i :| 0 <= i < n && items[i].index == k;
        assert rest[i].index == k;
      }
      SortedCoverIsRange(rest, n - 1);
      forall t | 0 <= t < n - 1 ensures items[t].index == t {
        assert Indexes(rest)[t] == t;
      }
      assert Indexes(items) == Indexes(rest) + [n - 1];
      assert Range(n) == Range(n - 1) + [n - 1];
    }
  }

  lemma SameItemsSameCover(a: seq<Item>, b: seq<Item>, n: nat)
    requires multiset(a) == multiset(b) && OneItemPerText(a, n)
    ensures OneItemPerText(b, n)
  {
    assert |a| == |multiset(a)| && |b| == |multiset(b)|;
    forall k | 0 <= k < n ensures HasIndex(b, k) {
      assert HasIndex(a, k);
      var i :| 0 <= i < n && a[i].index == k;
      assert a[i] in multiset(b);
      var j :| 0 <= j < |b| && b[j] == a[i];
    }
  }

  /** Accepted exactly when the answer holds one item per text; then each vector is at its index. */
  method Embed(texts: seq<string>, reply: ProviderReply) returns (r: Result<seq<Vector>, EmbeddingError>)
    ensures r.Ok? <==> reply.Answer? && OneItemPerText(reply.items, |texts|)
    ensures r.Ok? ==> |r.value| == |texts|
    ensures r.Ok? ==> forall item :: item in reply.items ==>
              0 <= item.index < |texts| && r.value[item.index] == item.vector
    ensures r.Err? ==> r.error == ProviderFailed
  {
    if reply.Unreachable? || |reply.items| != |texts| {
      return Err(ProviderFailed);
    }
    var indexed := [];
    for i := 0 to |reply.items|
      invariant indexed == reply.items[..i]
    {
      indexed := indexed + [reply.items[i]];
    }
    assert indexed == reply.items;
    var sorted := SortByIndex(indexed);
    SortByIndexSorts(indexed);
    if Indexes(sorted) != Range(|texts|) {
      if OneItemPerText(reply.items, |texts|) {
        SameItemsSameCover(reply.items, sorted, |texts|);
        SortedCoverIsRange(sorted, |texts|);
      }
      return Err(ProviderFailed);
    }
    assert |sorted| == |texts| by { assert |Indexes(sorted)| == |texts|; }
    forall k | 0 <= k < |texts| ensures sorted[k].index == k {
      assert Indexes(sorted)[k] == k;
    }
    forall k | 0 <= k < |texts| ensures HasIndex(sorted, k) {
      assert sorted[k].index == k;
    }
    SameItemsSameCover(sorted, reply.items, |texts|);
    forall item | item in reply.items
      ensures 0 <= item.index < |texts| && sorted[item.index] == item
    {
      assert item in multiset(sorted);
    }
    return Ok(seq(|texts|, k requires 0 <= k < |sorted| => sorted[k].vector));
  }

  /** The gateway around it: request check before the call, vector dimensions after it. */
  method EmbedThroughGateway(texts: seq<string>, blank: string -> bool, dimension: nat, reply: ProviderReply)
    returns (r: Result<seq<Vector>, EmbeddingError>)
    ensures r == Err(InvalidRequest) <==> texts == [] || exists t :: t in texts && blank(t)
    ensures r.Ok? <==>
            && texts != [] && (forall t :: t in texts ==> !blank(t))
            && reply.Answer? && OneItemPerText(reply.items, |texts|)
            && forall item :: item in reply.items ==> |item.vector| == dimension && AllFinite(item.vector)
    ensures r.Ok? ==> |r.value| == |texts|
    ensures r.Ok? ==> forall item :: item in reply.items ==>
              0 <= item.index < |texts| && r.value[item.index] == item.vector
  {
    if texts == [] || exists t :: t in texts && blank(t) {
      return Err(InvalidRequest);
    }
    r := Embed(texts, reply);
    if r.Err? {
      return;
    }
    ghost var vectors := r.value;
    for i := 0 to |r.value|
      invariant r == Ok(vectors)
      invariant forall k :: 0 <= k < i ==> |vectors[k]| == dimension && AllFinite(vectors[k])
    {
      if |r.value[i]| != dimension || !AllFinite(r.value[i]) {
        assert HasIndex(reply.items, i);
        var j :| 0 <= j < |texts| && reply.items[j].index == i;
        assert reply.items[j] in reply.items;
        return Err(ProviderFailed);
      }
    }
  }

  ghost predicate Truthful(items: seq<Item>, texts: seq<string>, embedding: string -> Vector) {
    forall item :: item in items && 0 <= item.index < |texts| ==> item.vector == embedding(texts[item.index])
  }

  /** Whatever order a truthful provider answers in, its accepted answer is the one in text order. */
  lemma AcceptedAnswerIsInTextOrder(items: seq<Item>, texts: seq<string>, embedding: string -> Vector, vectors: seq<Vector>)
    requires Truthful(items, texts, embedding) && OneItemPerText(items, |texts|)
    requires |vectors| == |texts|
    requires forall item :: item in items ==> 0 <= item.index < |texts| && vectors[item.index] == item.vector
    ensures vectors == seq(|texts|, i requires 0 <= i < |texts| => embedding(texts[i]))
  {
    forall k | 0 <= k < |texts| ensures vectors[k] == embedding(texts[k]) {
      assert HasIndex(items, k);
      var i :| 0 <= i < |texts| && items[i].index == k;
      assert items[i] in items;
    }
  }
}
