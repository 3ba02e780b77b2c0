/**
 Sharding by namespace (split_input in server/mapreduce/input_readers.py with many namespaces): contiguous ranges from
 NamespaceRange.split, each read by a reader of its own in slices.
 */
module NamespaceShards {
  import opened Wrappers
  import opened Streams
  import opened StringOrder
  import opened NamespaceOrdinals
  import opened NamespaceRanges
  import opened NamespaceSplit
  import opened NamespaceReader
  import KeyRangeReader

  lemma ExistingStep(c: Config, existing: set<string>, lo: nat, hi: nat)
    requires c.Valid() && lo <= hi < LexDistance(|c.chars|, c.maxLength)
    ensures var ns := OrdToNamespace(c, lo, c.maxLength);
            Existing(c, existing, lo, hi) == (if ns in existing then [ns] else []) + Existing(c, existing, lo + 1, hi)
  {
    hide Ord, OrdToNamespace, LexDistance;
    OrdinalRoundTrip(c, lo, c.maxLength);
  }

  lemma NoneBehind(c: Config, existing: set<string>, lo: nat, hi: nat)
    requires c.Valid() && hi < lo && hi < LexDistance(|c.chars|, c.maxLength)
    ensures Existing(c, existing, lo, hi) == []
  {}

  /** The existing namespaces of two adjoining ranges are those of both. */
  lemma {:induction false} ExistingAdjoin(c: Config, existing: set<string>, lo: nat, mid: nat, hi: nat)
    requires c.Valid() && lo <= mid + 1 && mid <= hi < LexDistance(|c.chars|, c.maxLength)
    ensures Existing(c, existing, lo, mid) + Existing(c, existing, mid + 1, hi) == Existing(c, existing, lo, hi)
    decreases mid + 1 - lo
  {
    hide Existing, LexDistance, OrdToNamespace;
    if lo <= mid {
      ExistingStep(c, existing, lo, mid);
      ExistingStep(c, existing, lo, hi);
      ExistingAdjoin(c, existing, lo + 1, mid, hi);
    } else {
      NoneBehind(c, existing, lo, mid);
    }
  }

  lemma {:induction false} VisitAdjoin(store: Store, a: seq<string>, b: seq<string>)
    ensures Visit(store, a + b) == Visit(store, a) + Visit(store, b)
  {
    hide EntitiesOf;
    if a == [] {
      assert a + b == b;
    } else {
      assert (a + b)[1..] == a[1..] + b;
      VisitAdjoin(store, a[1..], b);
    }
  }

  lemma StepsAdjoin(c: Config, existing: set<string>, store: Store, lo: nat, mid: nat, hi: nat)
    requires c.Valid() && lo <= mid + 1 && mid <= hi < LexDistance(|c.chars|, c.maxLength)
    ensures FromOrdinal(c, existing, store, lo, mid) + FromOrdinal(c, existing, store, mid + 1, hi) == FromOrdinal(c, existing, store, lo, hi)
  {
    hide Existing, Visit, LexDistance;
    ExistingAdjoin(c, existing, lo, mid, hi);
    VisitAdjoin(store, Existing(c, existing, lo, mid), Existing(c, existing, mid + 1, hi));
  }

  // ----- all shards -----

  ghost predicate AllValid(c: Config, ranges: seq<NsRange>) {
    forall i :: 0 <= i < |ranges| ==> ValidRange(c, ranges[i])
  }

  /** What the reader of one range yields. */
  ghost function StepsIn(c: Config, existing: set<string>, store: Store, r: NsRange): seq<Step>
    requires ValidRange(c, r)
  {
    Stored(c, existing, store, NsCheckpoint(r, None))
  }

  ghost function ShardSteps(c: Config, existing: set<string>, store: Store, ranges: seq<NsRange>): seq<Step>
    requires AllValid(c, ranges)
  {
    if ranges == [] then [] else
      ShardSteps(c, existing, store, ranges[..|ranges| - 1]) + StepsIn(c, existing, store, ranges[|ranges| - 1])
  }

  lemma {:induction false} PrefixSteps(c: Config, existing: set<string>, store: Store, ranges: seq<NsRange>, m: nat)
    requires c.Valid() && Tiling(c, ranges) && 0 < m <= |ranges|
    ensures AllValid(c, ranges[..m]) && Hi(c, ranges[m - 1]) < LexDistance(|c.chars|, c.maxLength)
    ensures ShardSteps(c, existing, store, ranges[..m]) == FromOrdinal(c, existing, store, 0, Hi(c, ranges[m - 1]))
  {
    hide Ord, LexDistance, FromOrdinal, StrLeq;
    ValidBounds(c, ranges[m - 1]);
    assert ranges[..m][..m - 1] == ranges[..m - 1];
    if m > 1 {
      PrefixSteps(c, existing, store, ranges, m - 1);
      StepsAdjoin(c, existing, store, 0, Hi(c, ranges[m - 2]), Hi(c, ranges[m - 1]));
    } else {
      OrdOfEmpty(c, "", c.maxLength);
      assert ranges[..0] == [];
    }
  }

  lemma ValidBounds(c: Config, r: NsRange)
    requires ValidRange(c, r)
    ensures Lo(c, r) <= Hi(c, r) < LexDistance(|c.chars|, c.maxLength)
  {}

  /** The existing namespaces, ascending, each once. */
  ghost function AllExisting(c: Config, existing: set<string>): seq<string>
    requires c.Valid()
  {
    Existing(c, existing, 0, LexDistance(|c.chars|, c.maxLength) - 1)
  }

  lemma LastOrdinal(c: Config)
    requires c.Valid()
    ensures IsNamespace(c, MaxNamespace(c), c.maxLength) && Ord(c, MaxNamespace(c), c.maxLength) == LexDistance(|c.chars|, c.maxLength) - 1
  {
    hide Ord, LexDistance, StrLeq;
    var last := LexDistance(|c.chars|, c.maxLength) - 1;
    WholeRange(c);
    ValidBounds(c, NsRange("", MaxNamespace(c)));
    OrdinalRoundTrip(c, last, c.maxLength);
    ContainsByOrdinal(c, NsRange("", MaxNamespace(c)), OrdToNamespace(c, last, c.maxLength));
  }

  /** The readers of contiguous ranges together visit every existing namespace exactly once, in lexicographic order. */
  lemma ShardsVisitEachOnce(c: Config, existing: set<string>, store: Store, ranges: seq<NsRange>)
    requires c.Valid() && Tiling(c, ranges)
    ensures AllValid(c, ranges) && ShardSteps(c, existing, store, ranges) == Visit(store, AllExisting(c, existing))
    ensures var all := AllExisting(c, existing);
            && (forall ns :: ns in all <==> ns in existing && IsNamespace(c, ns, c.maxLength))
            && (forall i, j :: 0 <= i < j < |all| ==> StrLess(all[i], all[j]))
  {
    hide LexDistance, Ord, Existing, Visit, StrLeq, ShardSteps, Lo;
    LastOrdinal(c);
    PrefixSteps(c, existing, store, ranges, |ranges|);
    assert ranges[..|ranges|] == ranges;
    var all := AllExisting(c, existing);
    ExistingLists(c, existing, 0, LexDistance(|c.chars|, c.maxLength) - 1);
    forall ns | ns in existing && IsNamespace(c, ns, c.maxLength)
      ensures ns in all
    {
      OrdBelow(c, ns);
    }
    forall i, j | 0 <= i < j < |all|
      ensures StrLess(all[i], all[j])
    {
      OrdinalOrder(c, all[i], all[j], c.maxLength);
    }
  }

  lemma OrdBelow(c: Config, ns: string)
    requires c.Valid() && IsNamespace(c, ns, c.maxLength)
    ensures Ord(c, ns, c.maxLength) < LexDistance(|c.chars|, c.maxLength)
  {}

  function Joined(steps: seq<seq<Step>>): seq<Step> {
    if steps == [] then [] else Joined(steps[..|steps| - 1]) + steps[|steps| - 1]
  }

  lemma {:induction false} JoinedIsAll(c: Config, existing: set<string>, store: Store, ranges: seq<NsRange>, steps: seq<seq<Step>>)
    requires AllValid(c, ranges) && |steps| == |ranges|
    requires forall i :: 0 <= i < |ranges| ==> steps[i] == StepsIn(c, existing, store, ranges[i])
    ensures Joined(steps) == ShardSteps(c, existing, store, ranges)
  {
    hide StepsIn, ValidRange;
    if ranges != [] {
      JoinedIsAll(c, existing, store, ranges[..|ranges| - 1], steps[..|steps| - 1]);
    }
  }

  method RunRange(c: Config, existing: set<string>, store: Store, r: NsRange, slices: seq<nat>)
    returns (steps: seq<Step>, ended: bool)
    requires ValidRange(c, r) && KeyRangeReader.ValidStore(store)
    ensures steps <= StepsIn(c, existing, store, r) && (ended ==> steps == StepsIn(c, existing, store, r))
    ensures Sum(slices) > |StepsIn(c, existing, store, r)| ==> ended
  {
    hide Stored, ValidRange, KeyRangeReader.ValidStore;
    var own, rest := RunSlices(c, existing, store, NsCheckpoint(r, None), slices);
    steps, ended := own, rest.None?;
  }

  /**
   A job over all namespaces: contiguous ranges, whatever the datastore answered while splitting, then a reader for
   each range in slices of its own over an unchanging datastore. A reader given time for more than it has runs out;
   when all have, every existing namespace was visited exactly once, in lexicographic order.
   */
  method RunNamespaces(c: Config, n: nat, canQuery: nat -> bool, seen: nat -> set<string>, existing: set<string>, store: Store,
                       slices: nat -> seq<nat>)
    returns (ranges: seq<NsRange>, steps: seq<seq<Step>>, finished: bool)
    requires c.Valid() && n >= 1 && NamespaceSplit.ValidStore(c, seen) && KeyRangeReader.ValidStore(store)
    ensures |ranges| <= n && AllValid(c, ranges) && |steps| == |ranges|
    ensures forall i :: 0 <= i < |ranges| ==> steps[i] <= StepsIn(c, existing, store, ranges[i])
    ensures (forall i :: 0 <= i < |ranges| ==> Sum(slices(i)) > |StepsIn(c, existing, store, ranges[i])|) ==> finished
    ensures finished ==> Joined(steps) == Visit(store, AllExisting(c, existing))
  {
    hide Tiling, StepsIn, ValidRange, Joined, ShardSteps, KeyRangeReader.ValidStore, NamespaceSplit.ValidStore;
    var split := Split(c, n, true, canQuery, seen);
    ranges := split.value;
    ShardsVisitEachOnce(c, existing, store, ranges);
    steps, finished := [], true;
    for s := 0 to |ranges|
      invariant |steps| == s
      invariant forall i :: 0 <= i < s ==> steps[i] <= StepsIn(c, existing, store, ranges[i])
      invariant finished ==> forall i :: 0 <= i < s ==> steps[i] == StepsIn(c, existing, store, ranges[i])
      invariant (forall i :: 0 <= i < s ==> Sum(slices(i)) > |StepsIn(c, existing, store, ranges[i])|) ==> finished
    {
      var own, ended := RunRange(c, existing, store, ranges[s], slices(s));
      finished := finished && ended;
      steps := steps + [own];
    }
    if finished {
      JoinedIsAll(c, existing, store, ranges, steps);
    }
  }
}
