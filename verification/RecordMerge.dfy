/**
 What the merge phase of the shuffler computes (server/mapreduce/shuffler.py), stated on sequences:
 the order in which records leave several files, and their grouping by key under value limits.
 */
module RecordMerge {
  import opened Wrappers
  import opened StringOrder

  // A KeyValue protocol message; a file is the sequence of its records, an offset an index into it.
  datatype Record = Record(key: string, value: string)
  type File = seq<Record>

  // The heap tuples (key, value, index, reader): None for a file not read yet.
  datatype Entry = Entry(head: Option<Record>, index: nat)

  /** Python's comparison of the heap tuples; None is below every string. */
  predicate EntryLeq(x: Entry, y: Entry) {
    if x.head.None? then y.head.Some? || x.index <= y.index
    else if y.head.None? then false
    else if x.head.value.key != y.head.value.key then StrLeq(x.head.value.key, y.head.value.key)
    else if x.head.value.value != y.head.value.value then StrLeq(x.head.value.value, y.head.value.value)
    else x.index <= y.index
  }

  lemma EntryLeqTotal(x: Entry, y: Entry)
    ensures EntryLeq(x, y) || EntryLeq(y, x)
  {
    if x.head.Some? && y.head.Some? {
      StrLeqTotal(x.head.value.key, y.head.value.key);
      StrLeqTotal(x.head.value.value, y.head.value.value);
    }
  }

  lemma EntryLeqTransitive(x: Entry, y: Entry, z: Entry)
    requires EntryLeq(x, y) && EntryLeq(y, z)
    ensures EntryLeq(x, z)
  {
    if x.head.Some? && y.head.Some? && z.head.Some? {
      var a, b, c := x.head.value, y.head.value, z.head.value;
      StringsCompose(a.key, b.key, c.key);
      StringsCompose(a.value, b.value, c.value);
    }
  }

  lemma StringsCompose(a: string, b: string, c: string)
    ensures StrLeq(a, b) && StrLeq(b, c) ==> StrLeq(a, c) && (a == c ==> a == b)
  {
    if StrLeq(a, b) && StrLeq(b, c) {
      StrLeqTransitive(a, b, c);
      if a == c { StrLeqAntisymmetric(a, b); }
    }
  }

  lemma EntryLeqAntisymmetric(x: Entry, y: Entry)
    requires EntryLeq(x, y) && EntryLeq(y, x)
    ensures x.index == y.index
  {
    if x.head.Some? && y.head.Some? {
      StringsCompose(x.head.value.key, y.head.value.key, x.head.value.key);
      StringsCompose(x.head.value.value, y.head.value.value, x.head.value.value);
    }
  }

  ghost predicate ValidOffsets(files: seq<File>, offsets: seq<nat>) {
    |offsets| == |files| && forall i :: 0 <= i < |files| ==> offsets[i] <= |files[i]|
  }

  function HeadOf(files: seq<File>, offsets: seq<nat>, i: nat): Entry
    requires i < |files| == |offsets| && offsets[i] < |files[i]|
  {
    Entry(Some(files[i][offsets[i]]), i)
  }

  ghost predicate IsLeast(files: seq<File>, offsets: seq<nat>, n: nat, i: nat)
    requires n <= |files| == |offsets|
  {
    && i < n && offsets[i] < |files[i]|
    && forall j :: 0 <= j < n && offsets[j] < |files[j]| ==> EntryLeq(HeadOf(files, offsets, i), HeadOf(files, offsets, j))
  }

  /** The file, among the first n, whose next record is least. */
  ghost function LeastHead(files: seq<File>, offsets: seq<nat>, n: nat): (least: Option<nat>)
    requires n <= |files| == |offsets|
    ensures least.Some? ==> IsLeast(files, offsets, n, least.value)
    ensures least.None? ==> forall j :: 0 <= j < n ==> offsets[j] >= |files[j]|
  {
    if n == 0 then None else
      var before := LeastHead(files, offsets, n - 1);
      if offsets[n - 1] >= |files[n - 1]| then before
      else if before.None? then
        EntryLeqTotal(HeadOf(files, offsets, n - 1), HeadOf(files, offsets, n - 1));
        Some(n - 1)
      else
        var x, y := HeadOf(files, offsets, before.value), HeadOf(files, offsets, n - 1);
        EntryLeqTotal(x, y);
        EntryLeqTotal(y, y);
        assert EntryLeq(y, x) ==> IsLeast(files, offsets, n, n - 1) by {
          if EntryLeq(y, x) {
            forall j | 0 <= j < n - 1 && offsets[j] < |files[j]|
              ensures EntryLeq(y, HeadOf(files, offsets, j))
            {
              EntryLeqTransitive(y, x, HeadOf(files, offsets, j));
            }
          }
        }
        if EntryLeq(x, y) then before else Some(n - 1)
  }

  lemma LeastIsUnique(files: seq<File>, offsets: seq<nat>, i: nat)
    requires |files| == |offsets| && IsLeast(files, offsets, |files|, i)
    ensures LeastHead(files, offsets, |files|) == Some(i)
  {
    var least := LeastHead(files, offsets, |files|);
    EntryLeqAntisymmetric(HeadOf(files, offsets, i), HeadOf(files, offsets, least.value));
  }

  ghost function Left(files: seq<File>, offsets: seq<nat>, n: nat): nat
    requires ValidOffsets(files, offsets) && n <= |files|
  {
    if n == 0 then 0 else |files[n - 1]| - offsets[n - 1] + Left(files, offsets, n - 1)
  }

  lemma {:induction false} LeftAdvance(files: seq<File>, offsets: seq<nat>, n: nat, i: nat)
    requires ValidOffsets(files, offsets) && n <= |files| && i < |files| && offsets[i] < |files[i]|
    ensures Left(files, offsets[i := offsets[i] + 1], n) == Left(files, offsets, n) - (if i < n then 1 else 0)
  {
    if n > 0 {
      LeftAdvance(files, offsets, n - 1, i);
    }
  }

  /** The records behind the offsets in the order the heap releases them. */
  ghost function Merged(files: seq<File>, offsets: seq<nat>): seq<Record>
    requires ValidOffsets(files, offsets)
    decreases Left(files, offsets, |files|)
  {
    match LeastHead(files, offsets, |files|)
    case None => []
    case Some(i) =>
      LeftAdvance(files, offsets, |files|, i);
      [files[i][offsets[i]]] + Merged(files, offsets[i := offsets[i] + 1])
  }

  // ----- the merge neither loses nor reorders by key -----

  ghost function UnreadOf(file: File, at: nat): multiset<Record>
    requires at <= |file|
  {
    multiset(file[at..])
  }

  lemma UnreadOfSteps(file: File, at: nat)
    requires at <= |file|
    ensures at == |file| ==> UnreadOf(file, at) == multiset{}
    ensures at < |file| ==> UnreadOf(file, at) == UnreadOf(file, at + 1) + multiset{file[at]}
  {
    if at < |file| {
      assert file[at..] == [file[at]] + file[at + 1..];
    }
  }

  ghost function Unread(files: seq<File>, offsets: seq<nat>, n: nat): multiset<Record>
    requires ValidOffsets(files, offsets) && n <= |files|
  {
    if n == 0 then multiset{} else Unread(files, offsets, n - 1) + UnreadOf(files[n - 1], offsets[n - 1])
  }

  lemma {:induction false} UnreadAdvance(files: seq<File>, offsets: seq<nat>, n: nat, i: nat)
    requires ValidOffsets(files, offsets) && n <= |files| && i < |files| && offsets[i] < |files[i]|
    ensures Unread(files, offsets, n) ==
            Unread(files, offsets[i := offsets[i] + 1], n) + (if i < n then multiset{files[i][offsets[i]]} else multiset{})
  {
    hide UnreadOf;
    if n > 0 {
      UnreadAdvance(files, offsets, n - 1, i);
      UnreadOfSteps(files[i], offsets[i]);
    }
  }

  lemma {:induction false} UnreadNothing(files: seq<File>, offsets: seq<nat>, n: nat)
    requires ValidOffsets(files, offsets) && n <= |files|
    requires forall j :: 0 <= j < n ==> offsets[j] >= |files[j]|
    ensures Unread(files, offsets, n) == multiset{}
  {
    if n > 0 {
      UnreadNothing(files, offsets, n - 1);
      UnreadOfSteps(files[n - 1], offsets[n - 1]);
    }
  }

  /** Conservation: the merged stream holds exactly the unread records, with multiplicity. */
  lemma {:induction false} MergedConserves(files: seq<File>, offsets: seq<nat>)
    requires ValidOffsets(files, offsets)
    ensures multiset(Merged(files, offsets)) == Unread(files, offsets, |files|)
    decreases Left(files, offsets, |files|)
  {
    hide LeastHead, EntryLeq, Unread, Left, Merged;
    var least := MergedStep(files, offsets);
    if least.None? {
      UnreadNothing(files, offsets, |files|);
    } else {
      var i := least.value;
      MergedConserves(files, offsets[i := offsets[i] + 1]);
      UnreadAdvance(files, offsets, |files|, i);
      MultisetOfCons(files[i][offsets[i]], Merged(files, offsets[i := offsets[i] + 1]));
    }
  }

  lemma MergedStep(files: seq<File>, offsets: seq<nat>) returns (least: Option<nat>)
    requires ValidOffsets(files, offsets)
    ensures least.None? ==> Merged(files, offsets) == [] && forall j :: 0 <= j < |files| ==> offsets[j] >= |files[j]|
    ensures least.Some? ==>
              var i := least.value;
              && i < |files| && offsets[i] < |files[i]| && ValidOffsets(files, offsets[i := offsets[i] + 1])
              && Left(files, offsets[i := offsets[i] + 1], |files|) < Left(files, offsets, |files|)
              && Merged(files, offsets) == [files[i][offsets[i]]] + Merged(files, offsets[i := offsets[i] + 1])
  {
    least := LeastHead(files, offsets, |files|);
    if least.Some? {
      LeftAdvance(files, offsets, |files|, least.value);
    }
  }

  lemma MultisetOfCons(r: Record, rest: seq<Record>)
    ensures multiset([r] + rest) == multiset(rest) + multiset{r}
  {}

  ghost predicate KeySorted(s: seq<Record>) {
    forall i, j :: 0 <= i < j < |s| ==> StrLeq(s[i].key, s[j].key)
  }

  ghost predicate AtLeast(files: seq<File>, offsets: seq<nat>, key: string)
    requires ValidOffsets(files, offsets)
  {
    forall i, p :: 0 <= i < |files| && offsets[i] <= p < |files[i]| ==> StrLeq(key, files[i][p].key)
  }

  /** For key-sorted files the merged stream is key-sorted. */
  lemma {:induction false} MergedSorted(files: seq<File>, offsets: seq<nat>, floor: string)
    requires ValidOffsets(files, offsets) && AtLeast(files, offsets, floor)
    requires forall i :: 0 <= i < |files| ==> KeySorted(files[i])
    ensures KeySorted(Merged(files, offsets))
    ensures forall k :: 0 <= k < |Merged(files, offsets)| ==> StrLeq(floor, Merged(files, offsets)[k].key)
    decreases Left(files, offsets, |files|)
  {
    var least := LeastHead(files, offsets, |files|);
    if least.Some? {
      var i := least.value;
      var head := files[i][offsets[i]];
      LeftAdvance(files, offsets, |files|, i);
      var offsets' := offsets[i := offsets[i] + 1];
      forall j, p | 0 <= j < |files| && offsets'[j] <= p < |files[j]|
        ensures StrLeq(head.key, files[j][p].key)
      {
        assert EntryLeq(HeadOf(files, offsets, i), HeadOf(files, offsets, j));
        StrLeqReflexive(head.key);
        if offsets[j] < p {
          StrLeqTransitive(head.key, files[j][offsets[j]].key, files[j][p].key);
        }
      }
      MergedSorted(files, offsets', head.key);
      var rest := Merged(files, offsets');
      forall k | 0 <= k < |rest|
        ensures StrLeq(floor, rest[k].key)
      {
        StrLeqTransitive(floor, head.key, rest[k].key);
      }
    }
  }

  // ----- grouping -----

  // The (key, values, partial) triples the reader yields; -1 switches a limit off.
  datatype Group = Group(key: string, values: seq<string>, partial: bool)
  datatype Limits = Limits(maxCount: int, maxSize: int)

  /** The yield condition for a value of the current key, given the two running counters. */
  predicate LimitHit(limits: Limits, count: nat, size: nat) {
    (limits.maxCount != -1 && count >= limits.maxCount) || (limits.maxSize != -1 && size >= limits.maxSize)
  }

  /** The groups still to be yielded, with a group being filled. */
  function GroupsFrom(current: Group, count: nat, size: nat, records: seq<Record>, limits: Limits): seq<Group>
    decreases |records|
  {
    if records == [] then [current] else
      var r, count', size' := records[0], count + 1, size + |records[0].value|;
      if r.key != current.key then
        [current] + GroupsFrom(Group(r.key, [r.value], false), 0, 0, records[1..], limits)
      else if LimitHit(limits, count', size') then
        [current.(partial := true)] + GroupsFrom(Group(r.key, [r.value], false), 0, 0, records[1..], limits)
      else
        GroupsFrom(current.(values := current.values + [r.value]), count', size', records[1..], limits)
  }

  function Groups(records: seq<Record>, limits: Limits): seq<Group> {
    if records == [] then [] else
      GroupsFrom(Group(records[0].key, [records[0].value], false), 0, 0, records[1..], limits)
  }

  function RecordsOf(g: Group): seq<Record> {
    seq(|g.values|, i requires 0 <= i < |g.values| => Record(g.key, g.values[i]))
  }

  function Ungroup(groups: seq<Group>): seq<Record> {
    if groups == [] then [] else RecordsOf(groups[0]) + Ungroup(groups[1..])
  }

  function TotalSize(values: seq<string>): nat {
    if values == [] then 0 else TotalSize(values[..|values| - 1]) + |values[|values| - 1]|
  }

  // Would the value v close a group already holding these values? The first value is never counted.
  predicate Closes(limits: Limits, values: seq<string>, v: string)
    requires values != []
  {
    LimitHit(limits, |values|, TotalSize(values[1..]) + |v|)
  }

  /** Group i was not closed too late, is marked partial exactly when its key goes on, and then a limit closed it. */
  ghost predicate GreedyAt(groups: seq<Group>, i: nat, limits: Limits)
    requires i < |groups|
  {
    var g := groups[i];
    && g.values != []
    && (forall k :: 1 <= k < |g.values| ==> !Closes(limits, g.values[..k], g.values[k]))
    && (g.partial <==> i + 1 < |groups| && groups[i + 1].key == g.key)
    && (g.partial && groups[i + 1].values != [] ==> Closes(limits, g.values, groups[i + 1].values[0]))
  }

  ghost predicate Greedy(groups: seq<Group>, limits: Limits) {
    forall i :: 0 <= i < |groups| ==> GreedyAt(groups, i, limits)
  }

  ghost predicate Filling(current: Group, count: nat, size: nat, limits: Limits) {
    && current.values != [] && !current.partial
    && count + 1 == |current.values| && size == TotalSize(current.values[1..])
    && forall k :: 1 <= k < |current.values| ==> !Closes(limits, current.values[..k], current.values[k])
  }

  lemma TotalSizeAppend(values: seq<string>, v: string)
    ensures TotalSize(values + [v]) == TotalSize(values) + |v|
  {
    assert (values + [v])[..|values|] == values;
  }

  lemma FillOne(current: Group, count: nat, size: nat, v: string, limits: Limits)
    requires Filling(current, count, size, limits)
    ensures LimitHit(limits, count + 1, size + |v|) <==> Closes(limits, current.values, v)
    ensures !LimitHit(limits, count + 1, size + |v|) ==>
              Filling(current.(values := current.values + [v]), count + 1, size + |v|, limits)
  {
    if !LimitHit(limits, count + 1, size + |v|) {
      var values := current.values + [v];
      assert values[1..] == current.values[1..] + [v];
      TotalSizeAppend(current.values[1..], v);
      forall k | 1 <= k < |values|
        ensures !Closes(limits, values[..k], values[k])
      {
        if k == |current.values| {
          assert values[..k] == current.values;
        } else {
          assert values[..k] == current.values[..k];
        }
      }
    }
  }

  lemma FillingFirst(r: Record, limits: Limits)
    ensures Filling(Group(r.key, [r.value], false), 0, 0, limits)
  {}

  lemma {:induction false} GroupsFromLaws(current: Group, count: nat, size: nat, records: seq<Record>, limits: Limits)
    requires Filling(current, count, size, limits)
    ensures var gs := GroupsFrom(current, count, size, records, limits);
            && gs != [] && gs[0].key == current.key && gs[0].values != [] && gs[0].values[0] == current.values[0]
            && Greedy(gs, limits) && Ungroup(gs) == RecordsOf(current) + records
    decreases |records|
  {
    hide Closes, LimitHit, TotalSize;
    var gs := GroupsFrom(current, count, size, records, limits);
    if records == [] {
      assert Ungroup(gs[1..]) == [];
    } else {
      var r := records[0];
      assert records == [r] + records[1..];
      FillOne(current, count, size, r.value, limits);
      if r.key == current.key && !LimitHit(limits, count + 1, size + |r.value|) {
        var fuller := current.(values := current.values + [r.value]);
        GroupsFromLaws(fuller, count + 1, size + |r.value|, records[1..], limits);
        assert RecordsOf(fuller) == RecordsOf(current) + [r];
      } else {
        var fresh' := Group(r.key, [r.value], false);
        FillingFirst(r, limits);
        GroupsFromLaws(fresh', 0, 0, records[1..], limits);
        assert RecordsOf(fresh') == [r];
        assert gs[1..] == GroupsFrom(fresh', 0, 0, records[1..], limits);
        GreedyCons(gs, limits);
      }
    }
  }

  lemma GreedyCons(gs: seq<Group>, limits: Limits)
    requires gs != []
    ensures Greedy(gs, limits) <==> GreedyAt(gs, 0, limits) && Greedy(gs[1..], limits)
  {
    var tail := gs[1..];
    forall i | 1 <= i < |gs|
      ensures GreedyAt(gs, i, limits) <==> GreedyAt(tail, i - 1, limits)
    {
      assert gs[i] == tail[i - 1];
    }
    assert forall j :: 0 <= j < |tail| ==> (GreedyAt(gs, j + 1, limits) <==> GreedyAt(tail, j, limits));
  }

  /**
   The grouping loses nothing, never fills a group past a limit, and marks a group partial exactly
   when the next group has the same key.
   */
  lemma GroupsLaws(records: seq<Record>, limits: Limits)
    ensures Greedy(Groups(records, limits), limits)
    ensures Ungroup(Groups(records, limits)) == records
  {
    if records != [] {
      var first := Group(records[0].key, [records[0].value], false);
      GroupsFromLaws(first, 0, 0, records[1..], limits);
      assert RecordsOf(first) == [records[0]];
    }
  }

  /** Those laws leave no freedom: a greedy grouping of the same records is the same grouping. */
  lemma {:induction false} GreedyIsUnique(xs: seq<Group>, ys: seq<Group>, limits: Limits)
    requires Greedy(xs, limits) && Greedy(ys, limits) && Ungroup(xs) == Ungroup(ys)
    ensures xs == ys
  {
    if xs != [] && ys != [] {
      FirstGroupNotShorter(xs, ys, limits);
      FirstGroupNotShorter(ys, xs, limits);
      SameFirstGroup(xs, ys, limits);
      GreedyCons(xs, limits);
      GreedyCons(ys, limits);
      hide Greedy, GreedyAt, Ungroup;
      GreedyIsUnique(xs[1..], ys[1..], limits);
      assert xs == [xs[0]] + xs[1..] && ys == [ys[0]] + ys[1..];
    } else if xs != [] {
      UngroupHead(xs, limits);
    } else if ys != [] {
      UngroupHead(ys, limits);
    }
  }

  // The first group seen from the record stream.
  lemma UngroupHead(xs: seq<Group>, limits: Limits)
    requires xs != [] && Greedy(xs, limits)
    ensures var n, rs := |xs[0].values|, Ungroup(xs);
            && 1 <= n <= |rs| && rs[n..] == Ungroup(xs[1..])
            && (forall k :: 0 <= k < n ==> rs[k] == Record(xs[0].key, xs[0].values[k]))
            && (n < |rs| <==> |xs| > 1)
            && (|xs| > 1 ==> xs[1].values != [] && rs[n] == Record(xs[1].key, xs[1].values[0]))
  {
    assert GreedyAt(xs, 0, limits);
    var n, rs := |xs[0].values|, Ungroup(xs);
    assert rs[..n] == RecordsOf(xs[0]) && rs[n..] == Ungroup(xs[1..]);
    forall k | 0 <= k < n
      ensures rs[k] == Record(xs[0].key, xs[0].values[k])
    {
      assert rs[k] == RecordsOf(xs[0])[k];
    }
    if |xs| > 1 {
      assert GreedyAt(xs, 1, limits);
      assert rs[n] == Ungroup(xs[1..])[0] == RecordsOf(xs[1])[0];
    }
  }

  lemma FirstGroupNotShorter(xs: seq<Group>, ys: seq<Group>, limits: Limits)
    requires Greedy(xs, limits) && Greedy(ys, limits) && Ungroup(xs) == Ungroup(ys)
    requires xs != [] && ys != []
    ensures |xs[0].values| >= |ys[0].values|
  {
    hide Ungroup;
    var n := |xs[0].values|;
    assert GreedyAt(xs, 0, limits) && GreedyAt(ys, 0, limits);
    assert xs[0].values[..n] == xs[0].values;
    UngroupHead(xs, limits);
    UngroupHead(ys, limits);
    if n < |ys[0].values| {
      SamePrefix(Ungroup(xs), xs[0], ys[0], n);
      assert false;
    }
  }

  lemma SamePrefix(rs: seq<Record>, x: Group, y: Group, n: nat)
    requires n <= |x.values| && n <= |y.values| && n <= |rs|
    requires forall k :: 0 <= k < n ==> rs[k] == Record(x.key, x.values[k])
    requires forall k :: 0 <= k < n ==> rs[k] == Record(y.key, y.values[k])
    ensures x.values[..n] == y.values[..n] && (n > 0 ==> x.key == y.key)
  {
    forall k | 0 <= k < n
      ensures x.values[k] == y.values[k]
    {
      assert rs[k].value == x.values[k] && rs[k].value == y.values[k];
    }
    if n > 0 { assert rs[0].key == x.key; }
  }

  lemma SameFirstGroup(xs: seq<Group>, ys: seq<Group>, limits: Limits)
    requires Greedy(xs, limits) && Greedy(ys, limits) && Ungroup(xs) == Ungroup(ys)
    requires xs != [] && ys != [] && |xs[0].values| == |ys[0].values|
    ensures xs[0] == ys[0] && Ungroup(xs[1..]) == Ungroup(ys[1..])
  {
    hide Ungroup;
    UngroupHead(xs, limits);
    UngroupHead(ys, limits);
    SamePrefix(Ungroup(xs), xs[0], ys[0], |xs[0].values|);
    assert GreedyAt(xs, 0, limits) && GreedyAt(ys, 0, limits);
    assert xs[0].values[..|xs[0].values|] == xs[0].values && ys[0].values[..|ys[0].values|] == ys[0].values;
  }

  /** The value limits as bounds on each yielded group. */
  lemma GroupBounds(records: seq<Record>, limits: Limits, i: nat)
    requires i < |Groups(records, limits)|
    ensures var g := Groups(records, limits)[i];
            && 1 <= |g.values|
            && (limits.maxCount > 0 ==> |g.values| <= limits.maxCount)
            && (limits.maxSize > 0 ==> TotalSize(g.values[1..]) < limits.maxSize)
            && (limits.maxCount == 0 || limits.maxCount < -1 || limits.maxSize == 0 || limits.maxSize < -1 ==> |g.values| == 1)
  {
    GroupsLaws(records, limits);
    var g := Groups(records, limits)[i];
    assert GreedyAt(Groups(records, limits), i, limits);
    var n := |g.values| - 1;
    if n >= 1 {
      assert !Closes(limits, g.values[..n], g.values[n]);
      assert g.values[1..] == g.values[..n][1..] + [g.values[n]];
      TotalSizeAppend(g.values[..n][1..], g.values[n]);
    }
  }

  /** A group is cut short only by a limit that is switched on: by the number of its values, or by their size with the next. */
  lemma CutOnlyAtALimit(records: seq<Record>, limits: Limits, i: nat)
    requires i < |Groups(records, limits)| && Groups(records, limits)[i].partial
    ensures var gs := Groups(records, limits);
            && i + 1 < |gs| && gs[i + 1].key == gs[i].key && gs[i].values != [] && gs[i + 1].values != []
            && ((limits.maxCount != -1 && |gs[i].values| >= limits.maxCount)
                || (limits.maxSize != -1 && TotalSize(gs[i].values[1..]) + |gs[i + 1].values[0]| >= limits.maxSize))
  {
    GroupsLaws(records, limits);
    assert GreedyAt(Groups(records, limits), i, limits);
    assert GreedyAt(Groups(records, limits), i + 1, limits);
  }

  /** With both limits switched off no group is partial and neighbouring groups have different keys. */
  lemma UnlimitedGroups(records: seq<Record>, i: nat)
    requires i < |Groups(records, Limits(-1, -1))|
    ensures var gs := Groups(records, Limits(-1, -1));
            !gs[i].partial && (i + 1 < |gs| ==> gs[i + 1].key != gs[i].key)
  {
    GroupsLaws(records, Limits(-1, -1));
    assert GreedyAt(Groups(records, Limits(-1, -1)), i, Limits(-1, -1));
    if Groups(records, Limits(-1, -1))[i].partial {
      CutOnlyAtALimit(records, Limits(-1, -1), i);
    }
  }

  // ----- what the heap releases -----

  /** The next record of the merge is a next record of some file, and none has a smaller key, or for that key a smaller value. */
  lemma ReleasesLeast(files: seq<File>, offsets: seq<nat>)
    requires ValidOffsets(files, offsets) && Merged(files, offsets) != []
    ensures var r := Merged(files, offsets)[0];
            && (exists i :: 0 <= i < |files| && offsets[i] < |files[i]| && files[i][offsets[i]] == r)
            && forall j :: 0 <= j < |files| && offsets[j] < |files[j]| ==>
                 StrLess(r.key, files[j][offsets[j]].key)
                 || (r.key == files[j][offsets[j]].key && StrLeq(r.value, files[j][offsets[j]].value))
  {
    var least := LeastHead(files, offsets, |files|);
    LeftAdvance(files, offsets, |files|, least.value);
    forall j | 0 <= j < |files| && offsets[j] < |files[j]|
      ensures var r, other := Merged(files, offsets)[0], files[j][offsets[j]];
              StrLess(r.key, other.key) || (r.key == other.key && StrLeq(r.value, other.value))
    {
      assert EntryLeq(HeadOf(files, offsets, least.value), HeadOf(files, offsets, j));
      StrLeqReflexive(files[j][offsets[j]].value);
    }
  }
}
