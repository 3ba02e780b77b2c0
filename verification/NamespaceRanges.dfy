/**
 Inclusive namespace ranges and their splitting (server/mapreduce/namespace_range.py).
 The datastore is a set of existing namespaces that may differ at every query, and can_query is an
 arbitrary sequence of answers, so the results hold whatever either of them says.
 */
module NamespaceRanges {
  import opened Wrappers
  import opened StringOrder
  import opened Sorting
  import opened NamespaceOrdinals

  datatype NsRange = NsRange(start: string, end: string) {
    predicate IsSingle() { start == end }
  }

  /** NamespaceRange.__init__ refuses a start behind the end. */
  function MakeRange(start: string, end: string): Result<NsRange> {
    if !StrLeq(start, end) then Failure(ValueError) else Success(NsRange(start, end))
  }

  ghost predicate ValidRange(c: Config, r: NsRange) {
    && c.Valid()
    && IsNamespace(c, r.start, c.maxLength)
    && IsNamespace(c, r.end, c.maxLength)
    && StrLeq(r.start, r.end)
  }

  function Lo(c: Config, r: NsRange): nat
    requires ValidRange(c, r)
  {
    Ord(c, r.start, c.maxLength)
  }

  function Hi(c: Config, r: NsRange): (n: nat)
    requires ValidRange(c, r)
    ensures Lo(c, r) <= n < LexDistance(|c.chars|, c.maxLength)
    ensures n == Lo(c, r) <==> r.IsSingle()
  {
    OrdinalOrder(c, r.start, r.end, c.maxLength);
    NamespaceRoundTrip(c, r.start, c.maxLength);
    NamespaceRoundTrip(c, r.end, c.maxLength);
    Ord(c, r.end, c.maxLength)
  }

  predicate Contains(r: NsRange, ns: string) {
    StrLeq(r.start, ns) && StrLeq(ns, r.end)
  }

  lemma ContainsByOrdinal(c: Config, r: NsRange, ns: string)
    requires ValidRange(c, r) && IsNamespace(c, ns, c.maxLength)
    ensures Contains(r, ns) <==> Lo(c, r) <= Ord(c, ns, c.maxLength) <= Hi(c, r)
  {
    OrdinalOrder(c, r.start, ns, c.maxLength);
    OrdinalOrder(c, ns, r.end, c.maxLength);
  }

  // The range between two ordinals, as the constructor calls of split_range build it.
  lemma RangeByOrdinals(c: Config, start: string, end: string)
    requires c.Valid() && IsNamespace(c, start, c.maxLength) && IsNamespace(c, end, c.maxLength)
    ensures MakeRange(start, end).Success? <==> Ord(c, start, c.maxLength) <= Ord(c, end, c.maxLength)
    ensures MakeRange(start, end).Success? ==> ValidRange(c, MakeRange(start, end).value)
  {
    OrdinalOrder(c, start, end, c.maxLength);
  }

  /** split_range: never raises, and cuts a longer range into two adjacent halves of nearly equal size. */
  function SplitRange(c: Config, r: NsRange): (halves: Result<seq<NsRange>>)
    requires ValidRange(c, r)
    ensures halves.Success?
    ensures r.IsSingle() ==> halves.value == [r]
    ensures !r.IsSingle() ==>
              && |halves.value| == 2
              && var left, right := halves.value[0], halves.value[1];
                 && ValidRange(c, left) && ValidRange(c, right)
                 && left.start == r.start && right.end == r.end
                 && Lo(c, right) == Hi(c, left) + 1
                 && 0 <= (Hi(c, left) - Lo(c, left)) - (Hi(c, right) - Lo(c, right)) <= 1
  {
    if r.IsSingle() then Success([r]) else
      var mid := (Lo(c, r) + Hi(c, r)) / 2;
      OrdinalRoundTrip(c, mid, c.maxLength);
      OrdinalRoundTrip(c, mid + 1, c.maxLength);
      var leftEnd, rightStart := OrdToNamespace(c, mid, c.maxLength), OrdToNamespace(c, mid + 1, c.maxLength);
      RangeByOrdinals(c, r.start, leftEnd);
      RangeByOrdinals(c, rightStart, r.end);
      match (MakeRange(r.start, leftEnd), MakeRange(rightStart, r.end))
      case (Success(left), Success(right)) => Success([left, right])
      case (_, _) => Failure(ValueError)
  }

  /** The halves together contain exactly the namespaces of the range, none of them twice. */
  lemma SplitRangePartitions(c: Config, r: NsRange, ns: string)
    requires ValidRange(c, r) && !r.IsSingle() && IsNamespace(c, ns, c.maxLength)
    ensures var halves := SplitRange(c, r).value;
            && (Contains(r, ns) <==> Contains(halves[0], ns) || Contains(halves[1], ns))
            && !(Contains(halves[0], ns) && Contains(halves[1], ns))
  {
    var halves := SplitRange(c, r).value;
    ContainsByOrdinal(c, r, ns);
    ContainsByOrdinal(c, halves[0], ns);
    ContainsByOrdinal(c, halves[1], ns);
  }

  /** with_start_after: an error past the end of the range, the index error past the last namespace. */
  function WithStartAfter(c: Config, r: NsRange, after: string): (res: Result<NsRange>)
    requires ValidRange(c, r) && IsNamespace(c, after, c.maxLength)
    ensures res.Success? <==> Ord(c, after, c.maxLength) < Hi(c, r)
    ensures res.Success? ==> ValidRange(c, res.value) && res.value.end == r.end
                             && Lo(c, res.value) == Ord(c, after, c.maxLength) + 1
    ensures res == Failure(IndexError) <==> Ord(c, after, c.maxLength) + 1 == LexDistance(|c.chars|, c.maxLength)
    ensures res.Failure? ==> res.error == IndexError || res.error == ValueError
  {
    var n := Ord(c, after, c.maxLength) + 1;
    if n == LexDistance(|c.chars|, c.maxLength) then Failure(IndexError) else
      OrdinalRoundTrip(c, n, c.maxLength);
      RangeByOrdinals(c, OrdToNamespace(c, n, c.maxLength), r.end);
      MakeRange(OrdToNamespace(c, n, c.maxLength), r.end)
  }

  /** The ascending __namespace__ query limited to one result. */
  function FirstExisting(c: Config, existing: set<string>, lo: nat, hi: nat): (first: Option<string>)
    requires c.Valid() && hi < LexDistance(|c.chars|, c.maxLength)
    ensures first.Some? ==>
              && first.value in existing && IsNamespace(c, first.value, c.maxLength)
              && lo <= Ord(c, first.value, c.maxLength) <= hi
    ensures forall ns :: ns in existing && IsNamespace(c, ns, c.maxLength) && lo <= Ord(c, ns, c.maxLength) <= hi ==>
              first.Some? && Ord(c, first.value, c.maxLength) <= Ord(c, ns, c.maxLength)
    decreases hi + 1 - lo
  {
    if lo > hi then None else
      OrdinalRoundTrip(c, lo, c.maxLength);
      var ns := OrdToNamespace(c, lo, c.maxLength);
      assert forall other :: IsNamespace(c, other, c.maxLength) && Ord(c, other, c.maxLength) == lo ==> other == ns by {
        forall other | IsNamespace(c, other, c.maxLength) && Ord(c, other, c.maxLength) == lo
          ensures other == ns
        {
          NamespaceRoundTrip(c, other, c.maxLength);
        }
      }
      if ns in existing then Some(ns) else FirstExisting(c, existing, lo + 1, hi)
  }

  /** normalized_start: the range cut at its first existing namespace, or None when it has none. */
  function NormalizedStart(c: Config, r: NsRange, existing: set<string>): (res: Option<NsRange>)
    requires ValidRange(c, r)
    ensures res.Some? ==>
              && ValidRange(c, res.value) && res.value.end == r.end
              && Lo(c, r) <= Lo(c, res.value) && res.value.start in existing
    ensures forall ns :: ns in existing && IsNamespace(c, ns, c.maxLength) && Contains(r, ns) ==>
              res.Some? && Contains(res.value, ns)
  {
    var first := FirstExisting(c, existing, Lo(c, r), Hi(c, r));
    if first.None? then
      assert forall ns :: IsNamespace(c, ns, c.maxLength) && Contains(r, ns) ==> Lo(c, r) <= Ord(c, ns, c.maxLength) <= Hi(c, r) by {
        forall ns | IsNamespace(c, ns, c.maxLength) { ContainsByOrdinal(c, r, ns); }
      }
      None
    else
      RangeByOrdinals(c, first.value, r.end);
      var cut := NsRange(first.value, r.end);
      assert forall ns :: ns in existing && IsNamespace(c, ns, c.maxLength) && Contains(r, ns) ==> Contains(cut, ns) by {
        forall ns | ns in existing && IsNamespace(c, ns, c.maxLength) && Contains(r, ns)
          ensures Contains(cut, ns)
        {
          ContainsByOrdinal(c, r, ns);
          ContainsByOrdinal(c, cut, ns);
        }
      }
      Some(cut)
  }

  // ----- families of disjoint ranges -----

  ghost predicate Apart(c: Config, x: NsRange, y: NsRange)
    requires ValidRange(c, x) && ValidRange(c, y)
  {
    Hi(c, x) < Lo(c, y) || Hi(c, y) < Lo(c, x)
  }

  ghost predicate Family(c: Config, m: multiset<NsRange>) {
    && (forall r :: r in m ==> ValidRange(c, r) && m[r] == 1)
    && (forall x, y :: x in m && y in m && x != y ==> Apart(c, x, y))
  }

  // Replacing a member by ranges inside it, apart from each other, keeps the family disjoint.
  lemma FamilyReplaceOne(c: Config, m: multiset<NsRange>, r: NsRange, x: NsRange)
    requires Family(c, m) && r in m && ValidRange(c, x) && Lo(c, r) <= Lo(c, x) && Hi(c, x) <= Hi(c, r)
    ensures Family(c, m - multiset{r} + multiset{x})
  {
    hide ValidRange, Lo, Hi;
    var m' := m - multiset{r} + multiset{x};
    assert forall y :: y in m && y != r ==> Apart(c, r, y);
    assert x in m ==> x == r;
    assert forall y :: y in m' ==> y == x || (y in m && y != r);
  }

  lemma FamilyReplaceTwo(c: Config, m: multiset<NsRange>, r: NsRange, x: NsRange, y: NsRange)
    requires Family(c, m) && r in m && ValidRange(c, x) && ValidRange(c, y)
    requires Lo(c, r) <= Lo(c, x) && Hi(c, x) < Lo(c, y) && Hi(c, y) <= Hi(c, r)
    ensures Family(c, m - multiset{r} + multiset{y} + multiset{x})
  {
    hide ValidRange, Lo, Hi;
    var m' := m - multiset{r} + multiset{y} + multiset{x};
    assert forall z :: z in m && z != r ==> Apart(c, r, z);
    assert x in m ==> x == r;
    assert y in m ==> y == r;
    assert forall z :: z in m' ==> z == x || z == y || (z in m && z != r);
  }
}
