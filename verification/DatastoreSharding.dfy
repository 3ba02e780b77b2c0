/**
 Sharding of datastore kinds by key (AbstractDatastoreInputReader in server/mapreduce/input_readers.py).
 Keys of one namespace are identified with integers in key order.
 */
module DatastoreSharding {
  import opened Wrappers
  import opened Sorting

  // ----- split points -----

  /** int(round(len / n * i)) with exact rational arithmetic; halves are rounded up. */
  function SplitIndex(len: nat, n: nat, i: nat): nat
    requires n > 0
  {
    (2 * (len * i) + n) / (2 * n)
  }

  lemma FloorAbove(x: nat, d: nat, y: nat)
    requires d > 0 && x >= y * d
    ensures x / d >= y
  {
    var q, r := x / d, x % d;
    assert x == d * q + r;
    if q < y { Times(d, q + 1, y); }
  }

  lemma FloorBelow(x: nat, d: nat, y: nat)
    requires d > 0 && x < y * d
    ensures x / d < y
  {
    var q, r := x / d, x % d;
    assert x == d * q + r;
    if q >= y { Times(d, y, q); }
  }

  lemma Times(d: nat, x: nat, y: nat)
    requires x <= y
    ensures d * x <= d * y
  {}

  lemma FloorBounds(x: nat, d: nat)
    requires d > 0
    ensures (x / d) * d <= x
  {}

  lemma Distribute(a: nat, b: nat, c: nat)
    ensures (a + b) * c == a * c + b * c && a * b == b * a
  {}

  /** The index nearest to len / n * i; of two nearest ones the upper. */
  lemma SplitIndexIsNearest(len: nat, n: nat, i: nat)
    requires n > 0
    ensures var q := SplitIndex(len, n, i);
            2 * n * q <= 2 * (len * i) + n < 2 * n * (q + 1)
  {
    var x, d := 2 * (len * i) + n, 2 * n;
    assert x == d * (x / d) + x % d;
    Distribute(x / d, 1, d);
  }

  /** With at least as many keys as shards the chosen indices are strictly increasing and in range. */
  lemma SplitIndicesIncrease(len: nat, n: nat, i: nat)
    requires len >= n > 0 && 1 <= i < n
    ensures SplitIndex(len, n, i) < len
    ensures i > 1 ==> SplitIndex(len, n, i - 1) < SplitIndex(len, n, i)
  {
    LastIndexSmall(len, n, i);
    FloorBelow(2 * (len * i) + n, 2 * n, len);
    if i > 1 {
      Distribute(i - 1, 1, len);
      FloorGrows(2 * (len * (i - 1)) + n, 2 * (len * i) + n, 2 * n);
    }
  }

  lemma LastIndexSmall(len: nat, n: nat, i: nat)
    requires len >= n > 0 && i < n
    ensures 2 * (len * i) + n < len * (2 * n)
  {
    Times(len, i, n - 1);
    Distribute(n - 1, 1, len);
    assert len * (2 * n) == 2 * (len * n);
  }

  lemma FloorGrows(x: nat, y: nat, d: nat)
    requires d > 0 && y >= x + d
    ensures x / d < y / d
  {
    var q := x / d;
    FloorBounds(x, d);
    Distribute(q, 1, d);
    FloorAbove(y, d, q + 1);
  }

  lemma {:induction false} SplitIndicesAscend(len: nat, n: nat, i: nat, j: nat)
    requires len >= n > 0 && 1 <= i < j < n
    ensures SplitIndex(len, n, i) < SplitIndex(len, n, j) < len
  {
    SplitIndicesIncrease(len, n, j);
    if i < j - 1 {
      SplitIndicesAscend(len, n, i, j - 1);
    }
  }

  ghost predicate Ascending(s: seq<int>) {
    forall i, j :: 0 <= i < j < |s| ==> s[i] <= s[j]
  }

  // The k-th point is the key at the k-th sampled index.
  ghost predicate Sampled(sortedKeys: seq<int>, n: nat, k: nat, point: int) {
    n > 0 && SplitIndex(|sortedKeys|, n, k + 1) < |sortedKeys| && point == sortedKeys[SplitIndex(|sortedKeys|, n, k + 1)]
  }

  /** _choose_split_points: a sample of n - 1 of the sorted keys, taken at distinct increasing places. */
  method ChooseSplitPoints(sortedKeys: seq<int>, n: nat) returns (points: seq<int>)
    requires |sortedKeys| >= n > 0 && Ascending(sortedKeys)
    ensures |points| == n - 1 && Ascending(points)
    ensures forall k :: 0 <= k < n - 1 ==> Sampled(sortedKeys, n, k, points[k])
  {
    hide SplitIndex;
    points := [];
    for i := 1 to n
      invariant |points| == i - 1
      invariant forall k :: 0 <= k < i - 1 ==> Sampled(sortedKeys, n, k, points[k])
    {
      SplitIndicesIncrease(|sortedKeys|, n, i);
      points := points + [sortedKeys[SplitIndex(|sortedKeys|, n, i)]];
    }
    forall i, j | 0 <= i < j < |points|
      ensures points[i] <= points[j]
    {
      assert Sampled(sortedKeys, n, i, points[i]) && Sampled(sortedKeys, n, j, points[j]);
      SplitIndicesAscend(|sortedKeys|, n, i + 1, j + 1);
    }
  }

  // ----- key ranges -----

  datatype KeyRange = KeyRange(namespace: string, start: Option<int>, end: Option<int>, includeStart: bool, includeEnd: bool) {
    predicate Contains(key: int) {
      && (start.Some? ==> start.value < key || (includeStart && start.value == key))
      && (end.Some? ==> key < end.value || (includeEnd && end.value == key))
    }

    /** advance(key): drop every key up to and including the given one. */
    function Advance(key: int): KeyRange {
      KeyRange(namespace, Some(key), end, false, includeEnd)
    }
  }

  function Whole(namespace: string): KeyRange {
    KeyRange(namespace, None, None, false, false)
  }

  // Each key lies in exactly one of the ranges, all of this namespace; a missing range comes after all present ones.
  ghost predicate PartitionsKeys(namespace: string, ranges: seq<Option<KeyRange>>) {
    && (forall i :: 0 <= i < |ranges| && ranges[i].Some? ==> ranges[i].value.namespace == namespace)
    && (forall i, j :: 0 <= i < j < |ranges| && ranges[i].None? ==> ranges[j].None?)
    && (forall key: int :: HeldOnce(ranges, key))
  }

  ghost predicate HeldOnce(ranges: seq<Option<KeyRange>>, key: int) {
    exists i :: 0 <= i < |ranges| && Holds(ranges, i, key) && forall j :: 0 <= j < |ranges| && Holds(ranges, j, key) ==> j == i
  }

  predicate Holds(ranges: seq<Option<KeyRange>>, i: nat, key: int)
    requires i < |ranges|
  {
    ranges[i].Some? && ranges[i].value.Contains(key)
  }

  predicate IntLeq(x: int, y: int) { x <= y }

  // The range between the split points i - 1 and i.
  function Between(namespace: string, points: seq<int>, i: nat): KeyRange
    requires 0 < |points| && i <= |points|
  {
    KeyRange(namespace, if i == 0 then None else Some(points[i - 1]), if i == |points| then None else Some(points[i]), i > 0, false)
  }

  /** The range of a key: behind the last split point that does not exceed it. */
  function PlaceOf(points: seq<int>, key: int): (i: nat)
    requires Ascending(points)
    ensures i <= |points|
    ensures forall k :: 0 <= k < i ==> points[k] <= key
    ensures forall k :: i <= k < |points| ==> key < points[k]
  {
    if points == [] then 0
    else if points[|points| - 1] <= key then |points|
    else PlaceOf(points[..|points| - 1], key)
  }

  lemma OnlyPlace(namespace: string, points: seq<int>, i: nat, key: int)
    requires Ascending(points) && 0 < |points| && i <= |points| && Between(namespace, points, i).Contains(key)
    ensures i == PlaceOf(points, key)
  {
    var p := PlaceOf(points, key);
    assert i < |points| ==> points[i] <= key || p <= i;
    assert i > 0 ==> key < points[i - 1] || i <= p;
  }

  lemma WholePartitions(namespace: string, ranges: seq<Option<KeyRange>>)
    requires ranges != [] && ranges[0] == Some(Whole(namespace)) && forall i :: 1 <= i < |ranges| ==> ranges[i] == None
    ensures PartitionsKeys(namespace, ranges)
  {
    forall key: int
      ensures HeldOnce(ranges, key)
    {
      assert ranges[0].value.Contains(key);
      forall j | 0 <= j < |ranges| && Holds(ranges, j, key)
        ensures j == 0
      {
        assert ranges[j].Some?;
      }
      assert Holds(ranges, 0, key);
    }
    assert forall i :: 0 <= i < |ranges| ==> (ranges[i].None? <==> i > 0);
    hide HeldOnce;
  }

  lemma BetweenPartitions(namespace: string, points: seq<int>, ranges: seq<Option<KeyRange>>)
    requires Ascending(points) && 0 < |points| < |ranges|
    requires forall i :: 0 <= i < |ranges| ==> ranges[i] == if i <= |points| then Some(Between(namespace, points, i)) else None
    ensures PartitionsKeys(namespace, ranges)
  {
    forall key: int
      ensures HeldOnce(ranges, key)
    {
      assert Holds(ranges, PlaceOf(points, key), key);
      forall j | 0 <= j < |ranges| && Holds(ranges, j, key)
        ensures j == PlaceOf(points, key)
      {
        OnlyPlace(namespace, points, j, key);
      }
    }
  }

  // The i-th range starts at the split point before it and ends before the one behind it.
  ghost predicate MeetAt(namespace: string, ranges: seq<Option<KeyRange>>, points: seq<int>) {
    && |points| < |ranges|
    && (forall i :: 0 <= i <= |points| ==>
          && ranges[i].Some? && ranges[i].value.namespace == namespace
          && ranges[i].value.start == (if i == 0 then None else Some(points[i - 1]))
          && ranges[i].value.end == (if i == |points| then None else Some(points[i])))
    && (forall i :: |points| < i < |ranges| ==> ranges[i].None?)
  }

  // All sampled keys, or of too many those at the nearest indices.
  ghost predicate ChosenFrom(randomKeys: seq<int>, n: nat, points: seq<int>) {
    && multiset(SortBy(randomKeys, IntLeq)) == multiset(randomKeys) && Ascending(SortBy(randomKeys, IntLeq))
    && (if |randomKeys| < n then points == SortBy(randomKeys, IntLeq)
        else |points| == n - 1 && forall k :: 0 <= k < n - 1 ==> Sampled(SortBy(randomKeys, IntLeq), n, k, points[k]))
  }

  /**
   _split_input_from_namespace. Whatever keys the __scatter__ query returned, there are exactly shard_count
   entries, the ranges partition the namespace's keys, and the padding stands at the end. One shard or no key sampled
   gives one whole range; otherwise the ranges meet at the sampled keys, or at n - 1 of them if there are n or more.
   */
  method SplitFromNamespace(namespace: string, n: nat, randomKeys: seq<int>) returns (ranges: seq<Option<KeyRange>>, ghost points: seq<int>)
    requires n > 0
    ensures |ranges| == n && PartitionsKeys(namespace, ranges)
    ensures MeetAt(namespace, ranges, points)
    ensures if n == 1 || randomKeys == [] then points == [] else ChosenFrom(randomKeys, n, points)
  {
    hide PlaceOf, SplitIndex, SortBy, Sampled;
    points := [];
    if n == 1 {
      WholePartitions(namespace, [Some(Whole(namespace))]);
      ranges := [Some(Whole(namespace))];
      return;
    }
    if randomKeys == [] {
      ranges := [Some(Whole(namespace))] + seq(n - 1, _ => None);
      WholePartitions(namespace, ranges);
      return;
    }
    var keys := SortBy(randomKeys, IntLeq);
    SortedKeys(randomKeys, keys);
    if |keys| >= n {
      keys := ChooseSplitPoints(keys, n);
    }
    points := keys;
    ranges := RangesAt(namespace, keys, n);
    BetweenPartitions(namespace, keys, ranges);
  }

  // The ranges between the split points, padded.
  method RangesAt(namespace: string, keys: seq<int>, n: nat) returns (ranges: seq<Option<KeyRange>>)
    requires 0 < |keys| < n
    ensures |ranges| == n && MeetAt(namespace, ranges, keys)
    ensures forall i :: 0 <= i < n ==> ranges[i] == if i <= |keys| then Some(Between(namespace, keys, i)) else None
  {
    ranges := [Some(KeyRange(namespace, None, Some(keys[0]), false, false))];
    for i := 0 to |keys| - 1
      invariant |ranges| == i + 1
      invariant forall k :: 0 <= k <= i ==> ranges[k] == Some(Between(namespace, keys, k))
    {
      ranges := ranges + [Some(KeyRange(namespace, Some(keys[i]), Some(keys[i + 1]), true, false))];
    }
    ranges := ranges + [Some(KeyRange(namespace, Some(keys[|keys| - 1]), None, true, false))];
    if |ranges| < n {
      ranges := ranges + seq(n - |ranges|, _ => None);
    }
  }

  lemma SortedKeys(keys: seq<int>, points: seq<int>)
    requires points == SortBy(keys, IntLeq)
    ensures Ascending(points) && |points| == |keys| && multiset(points) == multiset(keys)
  {
    SortBySorts(keys, IntLeq);
    assert |points| == |multiset(points)| == |multiset(keys)|;
    forall i, j | 0 <= i < j < |points| ensures points[i] <= points[j] { assert IntLeq(points[i], points[j]); }
  }

  // ----- round robin -----

  ghost function AllRanges(shards: seq<seq<Option<KeyRange>>>): multiset<Option<KeyRange>> {
    if shards == [] then multiset{} else AllRanges(shards[..|shards| - 1]) + multiset(shards[|shards| - 1])
  }

  lemma {:induction false} AllRangesUpdate(shards: seq<seq<Option<KeyRange>>>, i: nat, r: Option<KeyRange>)
    requires i < |shards|
    ensures AllRanges(shards[i := shards[i] + [r]]) == AllRanges(shards) + multiset{r}
  {
    var last := |shards| - 1;
    var shards' := shards[i := shards[i] + [r]];
    if i < last {
      AllRangesUpdate(shards[..last], i, r);
      assert shards'[..last] == shards[..last][i := shards[i] + [r]];
    } else {
      assert shards'[..last] == shards[..last];
    }
  }

  lemma {:induction false} AllRangesEmpty(n: nat)
    ensures AllRanges(seq(n, _ => [])) == multiset{}
  {
    if n > 0 {
      AllRangesEmpty(n - 1);
      var none: seq<seq<Option<KeyRange>>> := seq(n, _ => []);
      assert none[..n - 1] == seq(n - 1, _ => []);
    }
  }

  // The j-th hand holds every n-th entry from j on, in order.
  ghost predicate DealtInOrder(keyRanges: seq<Option<KeyRange>>, n: nat, j: nat, hand: seq<Option<KeyRange>>) {
    forall k :: 0 <= k < |hand| ==> EntryAt(keyRanges, n, j, hand, k)
  }

  ghost predicate EntryAt(keyRanges: seq<Option<KeyRange>>, n: nat, j: nat, hand: seq<Option<KeyRange>>, k: nat)
    requires k < |hand|
  {
    j + k * n < |keyRanges| && hand[k] == keyRanges[j + k * n]
  }

  // After i entries: the next one for this hand is not among them, the last one it got is.
  ghost predicate Dealt(keyRanges: seq<Option<KeyRange>>, n: nat, j: nat, hand: seq<Option<KeyRange>>, i: nat) {
    DealtInOrder(keyRanges, n, j, hand) && i <= j + |hand| * n && (hand != [] ==> j + |hand| * n < i + n)
  }

  lemma NextInHand(n: nat, i: nat, length: nat)
    requires n > 0 && i <= i % n + length * n && (length > 0 ==> i % n + length * n < i + n)
    ensures i == i % n + length * n
  {
    var q := i / n;
    assert i == q * n + i % n;
    Cancel(q, length, n);
    Distribute(q, 1, n);
    Cancel(length, q, n);
  }

  // Of multiples of n.
  lemma Cancel(x: nat, y: nat, n: nat)
    requires n > 0
    ensures x * n <= y * n ==> x <= y
  {
    if y < x {
      Times(n, y + 1, x);
      Distribute(y, 1, n);
    }
  }

  lemma DealOne(keyRanges: seq<Option<KeyRange>>, n: nat, hand: seq<Option<KeyRange>>, i: nat)
    requires n > 0 && i < |keyRanges| && Dealt(keyRanges, n, i % n, hand, i)
    ensures Dealt(keyRanges, n, i % n, hand + [keyRanges[i]], i + 1)
  {
    NextInHand(n, i, |hand|);
    Distribute(|hand|, 1, n);
    var longer := hand + [keyRanges[i]];
    forall k | 0 <= k < |longer|
      ensures EntryAt(keyRanges, n, i % n, longer, k)
    {
      if k < |hand| { assert EntryAt(keyRanges, n, i % n, hand, k); }
    }
  }

  lemma DealOther(keyRanges: seq<Option<KeyRange>>, n: nat, j: nat, hand: seq<Option<KeyRange>>, i: nat)
    requires n > 0 && j < n && j != i % n && Dealt(keyRanges, n, j, hand, i)
    ensures Dealt(keyRanges, n, j, hand, i + 1)
  {
    if i == j + |hand| * n {
      Remainder(n, j, |hand|);
    }
  }

  lemma Remainder(n: nat, j: nat, q: nat)
    requires j < n
    ensures (j + q * n) % n == j
  {
    QuotientAndRest(j + q * n, n);
    SameQuotient(n, (j + q * n) / n, (j + q * n) % n, q, j);
  }

  lemma QuotientAndRest(i: nat, n: nat)
    requires n > 0
    ensures (i / n) * n + i % n == i && i % n < n
  {}

  lemma SameQuotient(n: nat, p: nat, r: nat, q: nat, j: nat)
    requires r < n && j < n && p * n + r == q * n + j
    ensures p == q && r == j
  {
    Distribute(p, 1, n);
    Distribute(q, 1, n);
    Cancel(p, q, n);
    Cancel(q, p, n);
    Cancel(p + 1, q, n);
    Cancel(q + 1, p, n);
  }

  /** The assignment in _split_input_from_params: entry i goes to shard i modulo the shard count. */
  method RoundRobin(keyRanges: seq<Option<KeyRange>>, n: nat) returns (shards: seq<seq<Option<KeyRange>>>)
    requires n > 0
    ensures |shards| == n && AllRanges(shards) == multiset(keyRanges)
    ensures forall j :: 0 <= j < n ==> forall r :: r in shards[j] ==> exists i :: 0 <= i < |keyRanges| && i % n == j && keyRanges[i] == r
    ensures forall i :: 0 <= i < |keyRanges| ==> keyRanges[i] in shards[i % n]
    ensures forall j :: 0 <= j < n ==> DealtInOrder(keyRanges, n, j, shards[j])
  {
    hide AllRanges;
    shards := seq(n, _ => []);
    AllRangesEmpty(n);
    for i := 0 to |keyRanges|
      invariant |shards| == n && AllRanges(shards) == multiset(keyRanges[..i])
      invariant forall j :: 0 <= j < n ==> forall r :: r in shards[j] ==> exists k :: 0 <= k < i && k % n == j && keyRanges[k] == r
      invariant forall k :: 0 <= k < i ==> keyRanges[k] in shards[k % n]
      invariant forall j :: 0 <= j < n ==> Dealt(keyRanges, n, j, shards[j], i)
    {
      AllRangesUpdate(shards, i % n, keyRanges[i]);
      DealOne(keyRanges, n, shards[i % n], i);
      forall j | 0 <= j < n && j != i % n ensures Dealt(keyRanges, n, j, shards[j], i + 1) { DealOther(keyRanges, n, j, shards[j], i); }
      assert keyRanges[..i + 1] == keyRanges[..i] + [keyRanges[i]];
      shards := shards[i % n := shards[i % n] + [keyRanges[i]]];
    }
    assert keyRanges[..|keyRanges|] == keyRanges;
  }
}
