/** NamespaceRange.split (server/mapreduce/namespace_range.py): the worklist and its stitching. */
module NamespaceSplit {
  import opened Wrappers
  import opened StringOrder
  import opened Sorting
  import opened NamespaceOrdinals
  import opened NamespaceRanges

  ghost predicate ValidStore(c: Config, store: nat -> set<string>) {
    forall t: nat, ns :: ns in store(t) ==> IsNamespace(c, ns, c.maxLength)
  }

  // A namespace that no answer to a query omits.
  ghost predicate Persists(canQuery: nat -> bool, store: nat -> set<string>, ns: string) {
    forall t: nat :: canQuery(t) ==> ns in store(t)
  }

  // can_query never agrees.
  ghost predicate Unqueried(canQuery: nat -> bool) {
    forall t: nat :: !canQuery(t)
  }

  // can_query always agrees and the datastore does not change.
  ghost predicate FullyQueried(canQuery: nat -> bool, store: nat -> set<string>, existing: set<string>) {
    forall t: nat :: canQuery(t) && store(t) == existing
  }

  ghost predicate Covers(s: seq<NsRange>, ns: string) {
    exists i :: 0 <= i < |s| && Contains(s[i], ns)
  }

  ghost predicate Ascending(c: Config, s: seq<NsRange>) {
    && (forall i :: 0 <= i < |s| ==> ValidRange(c, s[i]))
    && (forall i, j :: 0 <= i < j < |s| ==> Hi(c, s[i]) < Lo(c, s[j]))
  }

  // Adjacent ranges from the first namespace to the last.
  ghost predicate Tiling(c: Config, s: seq<NsRange>) {
    && |s| > 0
    && (forall i :: 0 <= i < |s| ==> ValidRange(c, s[i]))
    && s[0].start == "" && s[|s| - 1].end == MaxNamespace(c)
    && (forall i :: 0 <= i < |s| - 1 ==> Lo(c, s[i + 1]) == Hi(c, s[i]) + 1)
  }

  /** In a tiling every namespace lies in exactly one range. */
  lemma {:induction false} TilingPartitions(c: Config, s: seq<NsRange>, ns: string)
    requires c.Valid() && Tiling(c, s) && IsNamespace(c, ns, c.maxLength)
    ensures Ascending(c, s)
    ensures exists i :: 0 <= i < |s| && Contains(s[i], ns) && forall j :: 0 <= j < |s| && Contains(s[j], ns) ==> j == i
  {
    TilingAscends(c, s);
    var n := Ord(c, ns, c.maxLength);
    var i := 0;
    while i < |s| - 1 && Hi(c, s[i]) < n
      invariant 0 <= i < |s|
      invariant Lo(c, s[i]) <= n
    {
      i := i + 1;
    }
    MaxNamespaceIsLast(c, ns, c.maxLength);
    assert seq(c.maxLength, _ => c.chars[|c.chars| - 1]) == MaxNamespace(c);
    OrdinalOrder(c, ns, MaxNamespace(c), c.maxLength);
    ContainsByOrdinal(c, s[i], ns);
    forall j | 0 <= j < |s| && Contains(s[j], ns)
      ensures j == i
    {
      ContainsByOrdinal(c, s[j], ns);
    }
  }

  lemma {:induction false} TilingAscends(c: Config, s: seq<NsRange>)
    requires c.Valid() && Tiling(c, s)
    ensures Ascending(c, s)
  {
    forall i, j | 0 <= i < j < |s|
      ensures Hi(c, s[i]) < Lo(c, s[j])
    {
      var k := i + 1;
      while k < j
        invariant i < k <= j && Hi(c, s[i]) < Lo(c, s[k])
      {
        k := k + 1;
      }
    }
  }

  predicate StartsBefore(x: NsRange, y: NsRange) { StrLeq(x.start, y.start) }

  lemma StartsBeforeIsTotalPreorder()
    ensures TotalPreorder(StartsBefore)
  {
    forall x: NsRange, y: NsRange ensures StartsBefore(x, y) || StartsBefore(y, x) { StrLeqTotal(x.start, y.start); }
    forall x: NsRange, y: NsRange, z: NsRange | StartsBefore(x, y) && StartsBefore(y, z) ensures StartsBefore(x, z) {
      StrLeqTransitive(x.start, y.start, z.start);
    }
  }

  lemma UniqueOccurrence(s: seq<NsRange>, i: nat, j: nat)
    requires i < j < |s| && multiset(s)[s[i]] == 1
    ensures s[i] != s[j]
  {
    assert s == s[..j] + [s[j]] + s[j + 1..];
    assert s[i] in multiset(s[..j]);
  }

  lemma SortedPermutation(s: seq<NsRange>, t: seq<NsRange>)
    requires t == SortBy(s, StartsBefore)
    ensures multiset(t) == multiset(s) && |t| == |s|
    ensures SortedBy(t, StartsBefore)
  {
    StartsBeforeIsTotalPreorder();
    SortBySorts(s, StartsBefore);
    assert |t| == |multiset(t)| == |s|;
  }

  lemma SortedFamilyAscends(c: Config, t: seq<NsRange>)
    requires c.Valid() && Family(c, multiset(t)) && SortedBy(t, StartsBefore)
    ensures Ascending(c, t)
  {
    hide ValidRange, Hi, StrLeq, Ord;
    assert forall i :: 0 <= i < |t| ==> t[i] in multiset(t);
    forall i, j | 0 <= i < j < |t|
      ensures Hi(c, t[i]) < Lo(c, t[j])
    {
      UniqueOccurrence(t, i, j);
      SortedApart(c, t[i], t[j]);
    }
  }

  lemma SortedApart(c: Config, x: NsRange, y: NsRange)
    requires ValidRange(c, x) && ValidRange(c, y) && Apart(c, x, y) && StartsBefore(x, y)
    ensures Hi(c, x) < Lo(c, y)
  {
    OrdinalOrder(c, x.start, y.start, c.maxLength);
  }

  // The termination measure of the worklist: twice the size minus one, summed over the pending ranges.
  ghost function Pending(c: Config, s: seq<NsRange>): nat
    requires forall i :: 0 <= i < |s| ==> ValidRange(c, s[i])
  {
    if s == [] then 0 else 2 * (Hi(c, s[|s| - 1]) - Lo(c, s[|s| - 1])) + 1 + Pending(c, s[..|s| - 1])
  }

  lemma {:induction false} PendingPop(c: Config, s: seq<NsRange>)
    requires s != [] && forall i :: 0 <= i < |s| ==> ValidRange(c, s[i])
    ensures Pending(c, s) == Pending(c, s[1..]) + 2 * (Hi(c, s[0]) - Lo(c, s[0])) + 1
  {
    hide ValidRange, Lo, Hi;
    if |s| > 1 {
      PendingPop(c, s[..|s| - 1]);
      assert s[..|s| - 1][1..] == s[1..][..|s| - 2];
    } else {
      assert s[1..] == s[..0] == [];
    }
  }

  lemma PendingPush(c: Config, s: seq<NsRange>, r: NsRange)
    requires ValidRange(c, r) && forall i :: 0 <= i < |s| ==> ValidRange(c, s[i])
    ensures Pending(c, s + [r]) == Pending(c, s) + 2 * (Hi(c, r) - Lo(c, r)) + 1
  {
    assert (s + [r])[..|s|] == s;
  }

  ghost predicate Holds(m: multiset<NsRange>, ns: string) {
    exists r :: r in m && Contains(r, ns)
  }

  ghost predicate WorkInvariant(c: Config, m: multiset<NsRange>, canQuery: nat -> bool, store: nat -> set<string>) {
    && Family(c, m)
    && (forall ns :: IsNamespace(c, ns, c.maxLength) && Persists(canQuery, store, ns) ==> Holds(m, ns))
    && (forall existing :: FullyQueried(canQuery, store, existing) ==> forall r :: r in m ==> r.start in existing)
  }

  // What one round of the loop does to the pending ranges: r is replaced by left and, when present, cut.
  function Replaced(m: multiset<NsRange>, r: NsRange, left: NsRange, cut: Option<NsRange>): multiset<NsRange> {
    m - multiset{r} + (if cut.Some? then multiset{cut.value} else multiset{}) + multiset{left}
  }

  ghost predicate Cut(c: Config, r: NsRange, left: NsRange, right: NsRange, cut: Option<NsRange>,
                      canQuery: nat -> bool, store: nat -> set<string>, t: nat)
  {
    && ValidRange(c, r) && !r.IsSingle() && SplitRange(c, r).value == [left, right]
    && cut == if canQuery(t) then NormalizedStart(c, right, store(t)) else Some(right)
  }

  lemma WorkStepFamily(c: Config, m: multiset<NsRange>, r: NsRange, left: NsRange, right: NsRange, cut: Option<NsRange>,
                       canQuery: nat -> bool, store: nat -> set<string>, t: nat)
    requires r in m && Family(c, m) && Cut(c, r, left, right, cut, canQuery, store, t)
    ensures Family(c, Replaced(m, r, left, cut))
  {
    hide Family, Ord, StrLeq, OrdToNamespace;
    if cut.Some? {
      FamilyReplaceTwo(c, m, r, left, cut.value);
    } else {
      FamilyReplaceOne(c, m, r, left);
      assert Replaced(m, r, left, cut) == m - multiset{r} + multiset{left};
    }
  }

  lemma WorkStepHolds(c: Config, m: multiset<NsRange>, r: NsRange, left: NsRange, right: NsRange, cut: Option<NsRange>,
                      canQuery: nat -> bool, store: nat -> set<string>, t: nat, ns: string)
    requires r in m && Cut(c, r, left, right, cut, canQuery, store, t)
    requires IsNamespace(c, ns, c.maxLength) && Persists(canQuery, store, ns) && Holds(m, ns)
    ensures Holds(Replaced(m, r, left, cut), ns)
  {
    hide Ord, StrLeq, OrdToNamespace, SplitRange, NormalizedStart, Contains;
    var x :| x in m && Contains(x, ns);
    SplitRangePartitions(c, r, ns);
    var holder := if x != r then x else if Contains(left, ns) then left else cut.value;
    assert holder in Replaced(m, r, left, cut) && Contains(holder, ns);
  }

  // One round of the loop on a range that is longer than one namespace.
  lemma WorkStep(c: Config, m: multiset<NsRange>, r: NsRange, left: NsRange, right: NsRange, cut: Option<NsRange>,
                 canQuery: nat -> bool, store: nat -> set<string>, t: nat)
    requires r in m && WorkInvariant(c, m, canQuery, store) && Cut(c, r, left, right, cut, canQuery, store, t)
    ensures WorkInvariant(c, Replaced(m, r, left, cut), canQuery, store)
  {
    hide Family, Ord, StrLeq, OrdToNamespace, SplitRange, NormalizedStart, Holds, IsNamespace, Lo, Hi;
    WorkStepFamily(c, m, r, left, right, cut, canQuery, store, t);
    forall ns | IsNamespace(c, ns, c.maxLength) && Persists(canQuery, store, ns)
      ensures Holds(Replaced(m, r, left, cut), ns)
    {
      WorkStepHolds(c, m, r, left, right, cut, canQuery, store, t, ns);
    }
    forall existing, x | FullyQueried(canQuery, store, existing) && x in Replaced(m, r, left, cut)
      ensures x.start in existing
    {
      assert canQuery(t) && store(t) == existing;
      assert x in m || x == left || cut == Some(x);
    }
  }

  function AfterRound(ranges: seq<NsRange>, left: NsRange, cut: Option<NsRange>): seq<NsRange>
    requires ranges != []
  {
    ranges[1..] + (if cut.Some? then [cut.value] else []) + [left]
  }

  lemma RoundMultiset(singles: seq<NsRange>, ranges: seq<NsRange>, left: NsRange, cut: Option<NsRange>)
    requires ranges != []
    ensures multiset(singles + AfterRound(ranges, left, cut)) == Replaced(multiset(singles + ranges), ranges[0], left, cut)
  {
    assert ranges == [ranges[0]] + ranges[1..];
    assert multiset(singles + ranges) == multiset(singles) + multiset{ranges[0]} + multiset(ranges[1..]);
  }

  lemma RoundPending(c: Config, ranges: seq<NsRange>, left: NsRange, right: NsRange, cut: Option<NsRange>,
                     canQuery: nat -> bool, store: nat -> set<string>, t: nat)
    requires ranges != [] && Cut(c, ranges[0], left, right, cut, canQuery, store, t)
    requires forall i :: 0 <= i < |ranges| ==> ValidRange(c, ranges[i])
    ensures forall i :: 0 <= i < |AfterRound(ranges, left, cut)| ==> ValidRange(c, AfterRound(ranges, left, cut)[i])
    ensures Pending(c, AfterRound(ranges, left, cut)) < Pending(c, ranges)
  {
    hide ValidRange, Lo, Hi, SplitRange, NormalizedStart, Pending;
    var rest := ranges[1..];
    PendingPop(c, ranges);
    if cut.Some? {
      PendingPush(c, rest, cut.value);
      PendingPush(c, rest + [cut.value], left);
    } else {
      PendingPush(c, rest, left);
      assert rest + [] == rest;
    }
    CutIsSmaller(c, ranges[0], left, right, cut, canQuery, store, t);
  }

  lemma CutIsSmaller(c: Config, r: NsRange, left: NsRange, right: NsRange, cut: Option<NsRange>,
                     canQuery: nat -> bool, store: nat -> set<string>, t: nat)
    requires Cut(c, r, left, right, cut, canQuery, store, t)
    ensures ValidRange(c, left) && (cut.Some? ==> ValidRange(c, cut.value))
    ensures (Hi(c, left) - Lo(c, left)) + (if cut.Some? then 1 + Hi(c, cut.value) - Lo(c, cut.value) else 0) <= Hi(c, r) - Lo(c, r)
    ensures Hi(c, left) - Lo(c, left) < Hi(c, r) - Lo(c, r)
  {
    hide Ord, StrLeq, OrdToNamespace;
  }

  lemma SplitRound(c: Config, singles: seq<NsRange>, ranges: seq<NsRange>, left: NsRange, right: NsRange, cut: Option<NsRange>,
                   canQuery: nat -> bool, store: nat -> set<string>, t: nat)
    requires ranges != [] && WorkInvariant(c, multiset(singles + ranges), canQuery, store)
    requires Cut(c, ranges[0], left, right, cut, canQuery, store, t)
    requires forall i :: 0 <= i < |ranges| ==> ValidRange(c, ranges[i])
    ensures WorkInvariant(c, multiset(singles + AfterRound(ranges, left, cut)), canQuery, store)
    ensures forall i :: 0 <= i < |AfterRound(ranges, left, cut)| ==> ValidRange(c, AfterRound(ranges, left, cut)[i])
    ensures Pending(c, AfterRound(ranges, left, cut)) < Pending(c, ranges)
  {
    hide *;
    assert (singles + ranges)[|singles|] == ranges[0];
    WorkStep(c, multiset(singles + ranges), ranges[0], left, right, cut, canQuery, store, t);
    RoundMultiset(singles, ranges, left, cut);
    RoundPending(c, ranges, left, right, cut, canQuery, store, t);
  }

  lemma InvariantMember(c: Config, m: multiset<NsRange>, r: NsRange, canQuery: nat -> bool, store: nat -> set<string>)
    requires r in m && WorkInvariant(c, m, canQuery, store)
    ensures ValidRange(c, r)
  {}

  lemma SingleRound(c: Config, singles: seq<NsRange>, ranges: seq<NsRange>)
    requires ranges != [] && forall i :: 0 <= i < |ranges| ==> ValidRange(c, ranges[i])
    ensures multiset((singles + [ranges[0]]) + ranges[1..]) == multiset(singles + ranges)
    ensures Pending(c, ranges[1..]) < Pending(c, ranges)
  {
    hide ValidRange, Pending, Lo, Hi;
    PendingPop(c, ranges);
    assert (singles + [ranges[0]]) + ranges[1..] == singles + ranges;
  }

  // The halves of a range, the right one cut at its first existing namespace where a query is allowed.
  method CutInTwo(c: Config, r: NsRange, canQuery: nat -> bool, store: nat -> set<string>, t: nat)
    returns (left: NsRange, ghost right: NsRange, cut: Option<NsRange>)
    requires ValidRange(c, r) && !r.IsSingle()
    ensures Cut(c, r, left, right, cut, canQuery, store, t)
  {
    hide ValidRange, NormalizedStart;
    var halves := SplitRange(c, r).value;
    left, right, cut := halves[0], halves[1], Some(halves[1]);
    if canQuery(t) {
      cut := NormalizedStart(c, halves[1], store(t));
    }
    assert halves == [left, right];
  }

  // ----- how equal the ranges are -----

  function Size(c: Config, r: NsRange): nat
    requires ValidRange(c, r)
  {
    Hi(c, r) - Lo(c, r) + 1
  }

  // No range is larger than twice another, plus two.
  ghost predicate NearlyEqual(c: Config, s: seq<NsRange>) {
    && (forall r :: r in s ==> ValidRange(c, r))
    && forall x, y :: x in s && y in s ==> Size(c, x) <= 2 * Size(c, y) + 2
  }

  // Where the worklist stands: the first old ranges have size a or a + 1, those behind them are halves of such.
  datatype Level = Level(front: nat, a: nat)

  ghost predicate SizeAt(c: Config, r: NsRange, a: nat) {
    ValidRange(c, r) && a <= Size(c, r) <= a + 1
  }

  ghost predicate Leveled(c: Config, singles: seq<NsRange>, ranges: seq<NsRange>, level: Level) {
    && level.front <= |ranges|
    && (forall i :: 0 <= i < level.front ==> SizeAt(c, ranges[i], level.a))
    && (forall i :: level.front <= i < |ranges| ==> SizeAt(c, ranges[i], level.a / 2))
    && (singles != [] ==> level.a <= 1)
    && (forall r :: r in singles ==> ValidRange(c, r) && r.IsSingle())
  }

  ghost function FirstLevel(c: Config, first: NsRange): Level {
    Level(1, if ValidRange(c, first) then Size(c, first) else 0)
  }

  lemma StartLeveled(c: Config, first: NsRange)
    ensures ValidRange(c, first) ==> Leveled(c, [], [first], FirstLevel(c, first))
  {}

  // The level of a non-empty worklist, seen from its front.
  ghost function Advanced(level: Level, n: nat): Level {
    if level.front == 0 then Level(n, level.a / 2) else level
  }

  lemma AdvancedIsLeveled(c: Config, singles: seq<NsRange>, ranges: seq<NsRange>, level: Level)
    requires Leveled(c, singles, ranges, level) && ranges != []
    ensures Leveled(c, singles, ranges, Advanced(level, |ranges|)) && Advanced(level, |ranges|).front > 0
  {}

  lemma LevelSingle(c: Config, singles: seq<NsRange>, ranges: seq<NsRange>, level: Level) returns (next: Level)
    requires Leveled(c, singles, ranges, level) && ranges != [] && ranges[0].IsSingle()
    ensures Leveled(c, singles + [ranges[0]], ranges[1..], next)
  {
    hide Ord, StrLeq;
    AdvancedIsLeveled(c, singles, ranges, level);
    var now := Advanced(level, |ranges|);
    next := Level(now.front - 1, now.a);
    assert SizeAt(c, ranges[0], now.a);
  }

  lemma LevelSplit(c: Config, singles: seq<NsRange>, ranges: seq<NsRange>, left: NsRange, right: NsRange, cut: Option<NsRange>,
                   canQuery: nat -> bool, store: nat -> set<string>, t: nat, level: Level) returns (next: Level)
    requires Leveled(c, singles, ranges, level) && ranges != [] && Cut(c, ranges[0], left, right, cut, canQuery, store, t)
    requires Unqueried(canQuery)
    ensures Leveled(c, singles, AfterRound(ranges, left, cut), next)
  {
    hide Ord, StrLeq, NormalizedStart;
    AdvancedIsLeveled(c, singles, ranges, level);
    var now := Advanced(level, |ranges|);
    next := Level(now.front - 1, now.a);
    assert SizeAt(c, ranges[0], now.a);
    HalvesAtLevel(c, ranges[0], left, right, now.a);
    assert cut == Some(right);
  }

  lemma HalvesAtLevel(c: Config, r: NsRange, left: NsRange, right: NsRange, a: nat)
    requires SizeAt(c, r, a) && !r.IsSingle() && SplitRange(c, r).value == [left, right]
    ensures SizeAt(c, left, a / 2) && SizeAt(c, right, a / 2)
  {
    hide Ord, StrLeq, OrdToNamespace;
  }

  lemma LeveledNearlyEqual(c: Config, singles: seq<NsRange>, ranges: seq<NsRange>, level: Level)
    requires Leveled(c, singles, ranges, level)
    ensures NearlyEqual(c, singles + ranges)
  {
    hide Ord, StrLeq, ValidRange;
    forall r | r in singles + ranges
      ensures ValidRange(c, r) && level.a / 2 <= Size(c, r) <= (if level.a == 0 then 1 else level.a + 1)
    {
      if r in singles {
        SingleSize(c, r);
      } else {
        var i :| 0 <= i < |ranges| && ranges[i] == r;
        assert SizeAt(c, ranges[i], if i < level.front then level.a else level.a / 2);
      }
    }
  }

  lemma SingleSize(c: Config, r: NsRange)
    requires ValidRange(c, r) && r.IsSingle()
    ensures Size(c, r) == 1
  {}

  lemma SamePermutation(c: Config, s: seq<NsRange>, t: seq<NsRange>)
    requires t == SortBy(s, StartsBefore)
    ensures NearlyEqual(c, s) ==> NearlyEqual(c, t)
  {
    hide ValidRange, SortBy;
    SortedPermutation(s, t);
    assert forall r :: r in t ==> r in multiset(t) && r in multiset(s);
  }

  ghost predicate AllValid(c: Config, s: seq<NsRange>) {
    forall i :: 0 <= i < |s| ==> ValidRange(c, s[i])
  }

  // What the loop keeps.
  ghost predicate Running(c: Config, singles: seq<NsRange>, ranges: seq<NsRange>, canQuery: nat -> bool, store: nat -> set<string>,
                          level: Level)
  {
    && WorkInvariant(c, multiset(singles + ranges), canQuery, store) && AllValid(c, ranges)
    && (forall r :: r in singles ==> r.IsSingle())
    && (Unqueried(canQuery) ==> Leveled(c, singles, ranges, level))
  }

  lemma StartRunning(c: Config, first: NsRange, canQuery: nat -> bool, store: nat -> set<string>) returns (level: Level)
    requires WorkInvariant(c, multiset{first}, canQuery, store)
    ensures Running(c, [], [first], canQuery, store, level) && AllValid(c, [first])
  {
    hide ValidRange, WorkInvariant, Leveled;
    level := FirstLevel(c, first);
    assert [] + [first] == [first] && multiset([first]) == multiset{first};
    InvariantMember(c, multiset{first}, first, canQuery, store);
    StartLeveled(c, first);
  }

  lemma SingleStep(c: Config, singles: seq<NsRange>, ranges: seq<NsRange>, canQuery: nat -> bool, store: nat -> set<string>, level: Level)
    returns (next: Level)
    requires ranges != [] && ranges[0].IsSingle() && Running(c, singles, ranges, canQuery, store, level)
    ensures Running(c, singles + [ranges[0]], ranges[1..], canQuery, store, next) && AllValid(c, ranges[1..]) && AllValid(c, ranges)
    ensures Pending(c, ranges[1..]) < Pending(c, ranges)
  {
    hide ValidRange, WorkInvariant, Leveled, Pending, Unqueried;
    SingleRound(c, singles, ranges);
    next := level;
    if Unqueried(canQuery) {
      next := LevelSingle(c, singles, ranges, level);
    }
  }

  lemma SplitStep(c: Config, singles: seq<NsRange>, ranges: seq<NsRange>, left: NsRange, right: NsRange, cut: Option<NsRange>,
                  canQuery: nat -> bool, store: nat -> set<string>, t: nat, level: Level)
    returns (next: Level)
    requires ranges != [] && Running(c, singles, ranges, canQuery, store, level)
    requires Cut(c, ranges[0], left, right, cut, canQuery, store, t)
    ensures Running(c, singles, AfterRound(ranges, left, cut), canQuery, store, next)
    ensures AllValid(c, AfterRound(ranges, left, cut)) && AllValid(c, ranges)
    ensures Pending(c, AfterRound(ranges, left, cut)) < Pending(c, ranges)
  {
    hide ValidRange, WorkInvariant, Leveled, Pending, Cut, AfterRound, Unqueried;
    SplitRound(c, singles, ranges, left, right, cut, canQuery, store, t);
    next := level;
    if Unqueried(canQuery) {
      next := LevelSplit(c, singles, ranges, left, right, cut, canQuery, store, t, level);
    }
  }

  lemma Finished(c: Config, singles: seq<NsRange>, ranges: seq<NsRange>, canQuery: nat -> bool, store: nat -> set<string>, level: Level)
    requires Running(c, singles, ranges, canQuery, store, level)
    ensures WorkInvariant(c, multiset(singles + ranges), canQuery, store)
    ensures forall r :: r in singles ==> r.IsSingle()
    ensures Unqueried(canQuery) ==> NearlyEqual(c, singles + ranges)
  {
    hide ValidRange, WorkInvariant, Leveled, Unqueried, NearlyEqual;
    if Unqueried(canQuery) {
      LeveledNearlyEqual(c, singles, ranges, level);
    }
  }

  /**
   The worklist part of split. Popping at the front, cutting in two and pushing right before left
   terminates, keeps the ranges disjoint, and loses no namespace that the datastore keeps reporting.
   */
  method SplitWorklist(c: Config, n: nat, first: NsRange, canQuery: nat -> bool, store: nat -> set<string>)
    returns (sorted: seq<NsRange>)
    requires c.Valid() && n >= 1
    requires WorkInvariant(c, multiset{first}, canQuery, store)
    ensures 1 <= |sorted| <= n && SortedBy(sorted, StartsBefore)
    ensures WorkInvariant(c, multiset(sorted), canQuery, store)
    ensures |sorted| == n || forall r :: r in sorted ==> r.IsSingle()
    ensures Unqueried(canQuery) ==> NearlyEqual(c, sorted)
  {
    hide ValidRange, Lo, Hi, StrLeq, Ord, OrdToNamespace, Cut, SortBy, Pending, WorkInvariant, StartsBefore, SortedBy, IsNamespace,
         LexDistance, Running, Unqueried, NearlyEqual;
    var t := 1;
    var ranges, singles := [first], [];
    ghost var level := StartRunning(c, first, canQuery, store);
    while ranges != [] && |ranges| + |singles| < n
      invariant 1 <= |singles| + |ranges| <= n
      invariant Running(c, singles, ranges, canQuery, store, level)
      invariant AllValid(c, ranges)
      decreases Pending(c, ranges)
    {
      var r, rest := ranges[0], ranges[1..];
      if r.IsSingle() {
        level := SingleStep(c, singles, ranges, canQuery, store, level);
        singles := singles + [r];
        ranges := rest;
      } else {
        var left, right, cut := CutInTwo(c, r, canQuery, store, t);
        level := SplitStep(c, singles, ranges, left, right, cut, canQuery, store, t, level);
        ghost var after := AfterRound(ranges, left, cut);
        t := t + 1;
        ranges := rest;
        if cut.Some? {
          ranges := ranges + [cut.value];
        }
        ranges := ranges + [left];
        assert ranges == after;
      }
    }
    Finished(c, singles, ranges, canQuery, store, level);
    sorted := SortBy(singles + ranges, StartsBefore);
    SamePermutation(c, singles + ranges, sorted);
    SortedPermutation(singles + ranges, sorted);
    assert forall r :: r in sorted ==> r in multiset(sorted) && r in multiset(singles + ranges);
  }

  /** The contiguous variant: ranges stretched to meet each other and both ends of the name space. */
  method Stitch(c: Config, sorted: seq<NsRange>) returns (tiles: seq<NsRange>)
    requires c.Valid() && sorted != [] && Ascending(c, sorted)
    ensures |tiles| == |sorted| && Tiling(c, tiles)
    ensures forall i :: 0 <= i < |sorted| ==> Contains(tiles[i], sorted[i].start)
  {
    hide Ord, OrdToNamespace, LexDistance, Contains, ValidRange, Lo, Hi, StrLeq;
    tiles := [];
    for i := 0 to |sorted|
      invariant |tiles| == i
      invariant forall k :: 0 <= k < i ==> IsTile(c, sorted, k, tiles[k])
    {
      LaterStart(c, sorted, i);
      var start := if i == 0 then "" else sorted[i].start;
      var end := if i == |sorted| - 1 then MaxNamespace(c) else Predecessor(c, sorted[i + 1].start);
      TileIsValid(c, sorted, i, start, end);
      tiles := tiles + [MakeRange(start, end).value];
    }
    TilesTile(c, sorted, tiles);
  }

  // _ord_to_namespace(_namespace_to_ord(ns) - 1)
  function Predecessor(c: Config, ns: string): (p: string)
    requires c.Valid() && IsNamespace(c, ns, c.maxLength) && ns != ""
    ensures IsNamespace(c, p, c.maxLength) && Ord(c, p, c.maxLength) + 1 == Ord(c, ns, c.maxLength)
  {
    OrdinalRoundTrip(c, Ord(c, ns, c.maxLength) - 1, c.maxLength);
    OrdToNamespace(c, Ord(c, ns, c.maxLength) - 1, c.maxLength)
  }

  ghost predicate IsTile(c: Config, sorted: seq<NsRange>, i: nat, tile: NsRange)
    requires i < |sorted| && Ascending(c, sorted)
  {
    && ValidRange(c, tile) && Contains(tile, sorted[i].start)
    && tile.start == (if i == 0 then "" else sorted[i].start)
    && (if i == |sorted| - 1 then tile.end == MaxNamespace(c) else Hi(c, tile) + 1 == Lo(c, sorted[i + 1]))
  }

  lemma LaterStart(c: Config, sorted: seq<NsRange>, i: nat)
    requires c.Valid() && i < |sorted| && Ascending(c, sorted)
    ensures i < |sorted| - 1 ==> IsNamespace(c, sorted[i + 1].start, c.maxLength) && sorted[i + 1].start != ""
  {
    hide StrLeq, LexDistance;
    if i < |sorted| - 1 {
      assert ValidRange(c, sorted[i]) && Hi(c, sorted[i]) < Lo(c, sorted[i + 1]);
    }
  }

  lemma TileIsValid(c: Config, sorted: seq<NsRange>, i: nat, start: string, end: string)
    requires c.Valid() && i < |sorted| && Ascending(c, sorted)
    requires start == if i == 0 then "" else sorted[i].start
    requires i < |sorted| - 1 ==> sorted[i + 1].start != ""
    requires end == if i == |sorted| - 1 then MaxNamespace(c) else Predecessor(c, sorted[i + 1].start)
    ensures MakeRange(start, end).Success? && IsTile(c, sorted, i, MakeRange(start, end).value)
  {
    hide Ord, OrdToNamespace, LexDistance, StrLeq, IsNamespace;
    assert ValidRange(c, sorted[i]);
    WholeRange(c);
    assert i < |sorted| - 1 ==> Hi(c, sorted[i]) < Lo(c, sorted[i + 1]);
    OrdinalOrder(c, sorted[i].start, end, c.maxLength);
    RangeByOrdinals(c, start, end);
    ContainsByOrdinal(c, NsRange(start, end), sorted[i].start);
  }

  lemma TilesTile(c: Config, sorted: seq<NsRange>, tiles: seq<NsRange>)
    requires c.Valid() && |tiles| == |sorted| > 0 && Ascending(c, sorted)
    requires forall k :: 0 <= k < |tiles| ==> IsTile(c, sorted, k, tiles[k])
    ensures Tiling(c, tiles)
  {
    hide ValidRange, Lo, Hi, Ascending, Contains;
    assert IsTile(c, sorted, 0, tiles[0]) && IsTile(c, sorted, |tiles| - 1, tiles[|tiles| - 1]);
    forall i | 0 <= i < |tiles|
      ensures ValidRange(c, tiles[i]) && (i > 0 ==> Lo(c, tiles[i]) == Hi(c, tiles[i - 1]) + 1)
    {
      assert IsTile(c, sorted, i, tiles[i]);
      if i > 0 {
        assert IsTile(c, sorted, i - 1, tiles[i - 1]);
        SameStart(c, sorted, i, tiles[i]);
      }
    }
  }

  lemma SameStart(c: Config, sorted: seq<NsRange>, i: nat, tile: NsRange)
    requires 0 < i < |sorted| && Ascending(c, sorted) && IsTile(c, sorted, i, tile)
    ensures Lo(c, tile) == Lo(c, sorted[i])
  {}

  /**
   NamespaceRange.split. It raises exactly when n < 1; otherwise there are at most n ranges, and the
   contiguous ones tile the whole name space whatever can_query and the datastore answer. There are as many as asked
   for: one for each existing namespace, or each namespace at all when nothing may be queried, if those are fewer than n.
   */
  method Split(c: Config, n: int, contiguous: bool, canQuery: nat -> bool, store: nat -> set<string>)
    returns (res: Result<seq<NsRange>>)
    requires c.Valid() && ValidStore(c, store)
    ensures res.Success? <==> n >= 1
    ensures res.Failure? ==> res.error == ValueError
    ensures res.Success? ==> |res.value| <= n && Ascending(c, res.value)
    ensures res.Success? && contiguous ==> Tiling(c, res.value)
    ensures res.Success? ==> forall ns :: IsNamespace(c, ns, c.maxLength) && Persists(canQuery, store, ns) ==> Covers(res.value, ns)
    ensures res.Success? ==> forall existing :: FullyQueried(canQuery, store, existing) && existing != {} ==>
              res.value != [] &&
              forall i :: 0 <= i < |res.value| ==> exists ns :: ns in existing && Contains(res.value[i], ns)
    ensures res.Success? ==> forall existing :: FullyQueried(canQuery, store, existing) && existing == {} ==>
              res.value == if contiguous then [NsRange("", MaxNamespace(c))] else []
    ensures res.Success? ==> forall existing :: FullyQueried(canQuery, store, existing) && existing != {} ==>
              |res.value| == if n < |existing| then n else |existing|
    ensures res.Success? && Unqueried(canQuery) ==>
              |res.value| == if n < LexDistance(|c.chars|, c.maxLength) then n else LexDistance(|c.chars|, c.maxLength)
  {
    hide ValidRange, Lo, Hi, StrLeq, Ord, OrdToNamespace, SplitRange, NormalizedStart, Tiling, Contains, LexDistance;
    if n < 1 {
      return Failure(ValueError);
    }
    WholeRange(c);
    var whole := NsRange("", MaxNamespace(c));
    var first := whole;
    if canQuery(0) {
      var cut := NormalizedStart(c, whole, store(0));
      if cut.None? {
        NothingPersists(c, canQuery, store);
        if contiguous {
          return Success([whole]);
        } else {
          return Success([]);
        }
      }
      first := cut.value;
    }
    FirstIsCovering(c, first, canQuery, store);
    var sorted := SplitWorklist(c, n, first, canQuery, store);
    SortedResult(c, sorted, canQuery, store);
    HowMany(c, sorted, n, canQuery, store);
    // The worklist never runs empty, so the source's guard for that case is dead.
    if contiguous {
      var tiles := Stitch(c, sorted);
      TilingAscends(c, tiles);
      TilingCovers(c, tiles);
      return Success(tiles);
    } else {
      return Success(sorted);
    }
  }

  lemma TilingCovers(c: Config, s: seq<NsRange>)
    requires c.Valid() && Tiling(c, s)
    ensures forall ns :: IsNamespace(c, ns, c.maxLength) ==> Covers(s, ns)
  {
    hide Tiling, Contains;
    forall ns | IsNamespace(c, ns, c.maxLength)
      ensures Covers(s, ns)
    {
      TilingPartitions(c, s, ns);
    }
  }

  lemma SortedResult(c: Config, sorted: seq<NsRange>, canQuery: nat -> bool, store: nat -> set<string>)
    requires c.Valid() && sorted != [] && WorkInvariant(c, multiset(sorted), canQuery, store) && SortedBy(sorted, StartsBefore)
    ensures Ascending(c, sorted)
    ensures forall ns :: IsNamespace(c, ns, c.maxLength) && Persists(canQuery, store, ns) ==> Covers(sorted, ns)
    ensures forall existing :: FullyQueried(canQuery, store, existing) ==>
              existing != {} && forall i :: 0 <= i < |sorted| ==> sorted[i].start in existing && Contains(sorted[i], sorted[i].start)
  {
    hide ValidRange, StrLeq, Ord, IsNamespace;
    SortedFamilyAscends(c, sorted);
    forall existing | FullyQueried(canQuery, store, existing)
      ensures existing != {} && forall i :: 0 <= i < |sorted| ==> sorted[i].start in existing && Contains(sorted[i], sorted[i].start)
    {
      forall i | 0 <= i < |sorted|
        ensures sorted[i].start in existing && Contains(sorted[i], sorted[i].start)
      {
        assert sorted[i] in multiset(sorted);
        StrLeqReflexive(sorted[i].start);
        assert ValidRange(c, sorted[i]);
        ValidEndpoints(c, sorted[i]);
      }
      assert sorted[0].start in existing;
    }
    forall ns | IsNamespace(c, ns, c.maxLength) && Persists(canQuery, store, ns)
      ensures Covers(sorted, ns)
    {
      assert Holds(multiset(sorted), ns);
    }
  }

  // ----- how many ranges -----

  function Starts(s: seq<NsRange>): set<string> {
    set r | r in s :: r.start
  }

  lemma {:induction false} DistinctStarts(c: Config, s: seq<NsRange>)
    requires Ascending(c, s)
    ensures |Starts(s)| == |s|
  {
    hide ValidRange, Lo, Hi, Starts;
    if s != [] {
      var init, last := s[..|s| - 1], s[|s| - 1];
      DistinctStarts(c, init);
      StartsAppend(init, last);
      assert s == init + [last];
      LastStartIsNew(c, s);
    } else {
      NoStarts();
    }
  }

  lemma NoStarts()
    ensures Starts([]) == {}
  {}

  lemma LastStartIsNew(c: Config, s: seq<NsRange>)
    requires Ascending(c, s) && s != []
    ensures s[|s| - 1].start !in Starts(s[..|s| - 1])
  {
    hide ValidRange, Lo, Hi, Ascending;
    var init, last := s[..|s| - 1], s[|s| - 1];
    forall r | r in init
      ensures r.start != last.start
    {
      var i :| 0 <= i < |init| && init[i] == r;
      StartsApart(c, s, i, |s| - 1);
    }
  }

  lemma StartsAppend(s: seq<NsRange>, r: NsRange)
    ensures Starts(s + [r]) == Starts(s) + {r.start}
  {
    forall x | x in Starts(s) + {r.start} ensures x in Starts(s + [r]) {
      if x in Starts(s) {
        var y :| y in s && y.start == x;
        assert y in s + [r];
      } else {
        assert r in s + [r];
      }
    }
  }

  lemma StartsApart(c: Config, s: seq<NsRange>, i: nat, j: nat)
    requires Ascending(c, s) && i < j < |s|
    ensures s[i].start != s[j].start
  {
    hide Ord, StrLeq;
    assert Hi(c, s[i]) < Lo(c, s[j]);
  }

  lemma CardinalityLeq(a: set<string>, b: set<string>)
    requires a <= b
    ensures |a| <= |b|
  {
    assert b == a + (b - a);
  }

  // Every range starts with one of these namespaces, and each of them lies in some range.
  ghost predicate Meets(c: Config, s: seq<NsRange>, names: set<string>) {
    && (forall r :: r in s ==> r.start in names)
    && (forall ns :: ns in names ==> IsNamespace(c, ns, c.maxLength) && Covers(s, ns))
  }

  lemma CountRanges(c: Config, s: seq<NsRange>, n: nat, names: set<string>)
    requires Ascending(c, s) && |s| <= n && (|s| == n || forall r :: r in s ==> r.IsSingle()) && Meets(c, s, names)
    ensures |s| == if n < |names| then n else |names|
  {
    DistinctStarts(c, s);
    assert Starts(s) <= names;
    CardinalityLeq(Starts(s), names);
    if forall r :: r in s ==> r.IsSingle() {
      forall ns | ns in names
        ensures ns in Starts(s)
      {
        assert Covers(s, ns);
        var i :| 0 <= i < |s| && Contains(s[i], ns);
        assert s[i] in s;
        StrLeqAntisymmetric(s[i].start, ns);
      }
      CardinalityLeq(names, Starts(s));
    }
  }

  /** The first k namespaces. */
  function FirstNamespaces(c: Config, k: nat): (names: set<string>)
    requires c.Valid() && k <= LexDistance(|c.chars|, c.maxLength)
  {
    if k == 0 then {} else FirstNamespaces(c, k - 1) + {OrdToNamespace(c, k - 1, c.maxLength)}
  }

  lemma {:induction false} FirstNamespacesAre(c: Config, k: nat)
    requires c.Valid() && k <= LexDistance(|c.chars|, c.maxLength)
    ensures |FirstNamespaces(c, k)| == k
    ensures forall ns :: ns in FirstNamespaces(c, k) <==> IsNamespace(c, ns, c.maxLength) && Ord(c, ns, c.maxLength) < k
  {
    hide Ord, OrdToNamespace, LexDistance, IsNamespace;
    if k > 0 {
      FirstNamespacesAre(c, k - 1);
      OneOfEach(c, k - 1);
    }
  }

  lemma OneOfEach(c: Config, k: nat)
    requires c.Valid() && k < LexDistance(|c.chars|, c.maxLength)
    ensures forall ns :: ns == OrdToNamespace(c, k, c.maxLength) <==> IsNamespace(c, ns, c.maxLength) && Ord(c, ns, c.maxLength) == k
  {
    hide Ord, OrdToNamespace, LexDistance, IsNamespace;
    OrdinalRoundTrip(c, k, c.maxLength);
    forall ns | IsNamespace(c, ns, c.maxLength) && Ord(c, ns, c.maxLength) == k
      ensures ns == OrdToNamespace(c, k, c.maxLength)
    {
      NamespaceRoundTrip(c, ns, c.maxLength);
    }
  }

  lemma AllNamespaces(c: Config) returns (names: set<string>)
    requires c.Valid()
    ensures |names| == LexDistance(|c.chars|, c.maxLength)
    ensures forall ns :: ns in names <==> IsNamespace(c, ns, c.maxLength)
  {
    names := FirstNamespaces(c, LexDistance(|c.chars|, c.maxLength));
    FirstNamespacesAre(c, LexDistance(|c.chars|, c.maxLength));
    forall ns | IsNamespace(c, ns, c.maxLength)
      ensures Ord(c, ns, c.maxLength) < LexDistance(|c.chars|, c.maxLength)
    {
    }
  }

  lemma HowMany(c: Config, sorted: seq<NsRange>, n: nat, canQuery: nat -> bool, store: nat -> set<string>)
    requires c.Valid() && ValidStore(c, store) && |sorted| <= n && Ascending(c, sorted)
    requires |sorted| == n || forall r :: r in sorted ==> r.IsSingle()
    requires forall ns :: IsNamespace(c, ns, c.maxLength) && Persists(canQuery, store, ns) ==> Covers(sorted, ns)
    requires forall existing :: FullyQueried(canQuery, store, existing) ==> forall i :: 0 <= i < |sorted| ==> sorted[i].start in existing
    ensures forall existing :: FullyQueried(canQuery, store, existing) ==> |sorted| == if n < |existing| then n else |existing|
    ensures Unqueried(canQuery) ==>
              |sorted| == if n < LexDistance(|c.chars|, c.maxLength) then n else LexDistance(|c.chars|, c.maxLength)
  {
    hide Covers, LexDistance, Ord;
    forall existing | FullyQueried(canQuery, store, existing)
      ensures |sorted| == if n < |existing| then n else |existing|
    {
      forall ns | ns in existing ensures IsNamespace(c, ns, c.maxLength) && Covers(sorted, ns) {
        assert ns in store(0);
        assert Persists(canQuery, store, ns);
      }
      CountRanges(c, sorted, n, existing);
    }
    if Unqueried(canQuery) {
      var names := AllNamespaces(c);
      forall r | r in sorted ensures r.start in names {
        assert ValidRange(c, r);
      }
      CountRanges(c, sorted, n, names);
    }
  }

  lemma ValidEndpoints(c: Config, r: NsRange)
    requires ValidRange(c, r)
    ensures StrLeq(r.start, r.end)
  {}

  lemma WholeRange(c: Config)
    requires c.Valid()
    ensures ValidRange(c, NsRange("", MaxNamespace(c)))
    ensures forall ns :: IsNamespace(c, ns, c.maxLength) ==> Contains(NsRange("", MaxNamespace(c)), ns)
    ensures Tiling(c, [NsRange("", MaxNamespace(c))])
  {
    forall ns | IsNamespace(c, ns, c.maxLength)
      ensures StrLeq(ns, MaxNamespace(c))
    {
      MaxNamespaceIsLast(c, ns, c.maxLength);
      assert seq(c.maxLength, _ => c.chars[|c.chars| - 1]) == MaxNamespace(c);
    }
  }

  lemma NothingPersists(c: Config, canQuery: nat -> bool, store: nat -> set<string>)
    requires c.Valid() && canQuery(0) && NormalizedStart(c, (WholeRange(c); NsRange("", MaxNamespace(c))), store(0)).None?
    ensures forall ns :: IsNamespace(c, ns, c.maxLength) ==> !Persists(canQuery, store, ns)
    ensures ValidStore(c, store) ==> store(0) == {}
  {
    WholeRange(c);
    assert forall ns :: IsNamespace(c, ns, c.maxLength) ==> ns !in store(0);
  }

  lemma FirstIsCovering(c: Config, first: NsRange, canQuery: nat -> bool, store: nat -> set<string>)
    requires c.Valid() && ValidRange(c, first)
    requires var whole := (WholeRange(c); NsRange("", MaxNamespace(c)));
             if canQuery(0) then NormalizedStart(c, whole, store(0)) == Some(first) else first == whole
    ensures WorkInvariant(c, multiset{first}, canQuery, store)
  {
    WholeRange(c);
    assert first in multiset{first};
  }
}
