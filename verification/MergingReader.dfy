/**
 _MergingReader (server/mapreduce/shuffler.py): the generator as an object whose fields are the
 generator's frame. Next runs the loop up to the following yield.
 */
module MergingReader {
  import opened Wrappers
  import opened Sorting
  import opened Streams
  import opened RecordMerge

  // ----- heapq, by its contract: slot 0 holds the least entry -----

  ghost predicate IsHeap(heap: seq<Entry>) {
    SortedBy(heap, EntryLeq)
  }

  lemma EntryLeqIsTotalPreorder()
    ensures TotalPreorder(EntryLeq)
  {
    forall x: Entry, y: Entry ensures EntryLeq(x, y) || EntryLeq(y, x) { EntryLeqTotal(x, y); }
    forall x: Entry, y: Entry, z: Entry | EntryLeq(x, y) && EntryLeq(y, z) ensures EntryLeq(x, z) {
      EntryLeqTransitive(x, y, z);
    }
  }

  function HeapReplace(heap: seq<Entry>, e: Entry): (h: seq<Entry>)
    requires heap != [] && IsHeap(heap)
    ensures IsHeap(h) && multiset(h) == multiset(heap) - multiset{heap[0]} + multiset{e}
  {
    EntryLeqIsTotalPreorder();
    InsertSorted(heap[1..], e, EntryLeq);
    assert heap == [heap[0]] + heap[1..];
    Insert(heap[1..], e, EntryLeq)
  }

  function HeapPop(heap: seq<Entry>): (h: seq<Entry>)
    requires heap != [] && IsHeap(heap)
    ensures IsHeap(h) && multiset(h) == multiset(heap) - multiset{heap[0]} && |h| < |heap|
  {
    assert heap == [heap[0]] + heap[1..];
    heap[1..]
  }

  // ----- the heap against files and offsets -----

  ghost predicate EntryFits(files: seq<File>, offsets: seq<nat>, e: Entry)
    requires ValidOffsets(files, offsets)
  {
    && e.index < |files|
    && (e.head.Some? ==> offsets[e.index] < |files[e.index]| && e == HeadOf(files, offsets, e.index))
  }

  ghost predicate AllFit(files: seq<File>, offsets: seq<nat>, m: multiset<Entry>)
    requires ValidOffsets(files, offsets)
  {
    forall e :: e in m ==> EntryFits(files, offsets, e)
  }

  ghost predicate OnePerFile(m: multiset<Entry>) {
    && (forall e :: e in m ==> m[e] == 1)
    && (forall e, f :: e in m && f in m && e.index == f.index ==> e == f)
  }

  ghost predicate EveryUnfinished(files: seq<File>, offsets: seq<nat>, m: multiset<Entry>)
    requires ValidOffsets(files, offsets)
  {
    forall i :: 0 <= i < |files| && offsets[i] < |files[i]| ==> exists e :: e in m && e.index == i
  }

  ghost predicate HeapFits(files: seq<File>, offsets: seq<nat>, m: multiset<Entry>)
    requires ValidOffsets(files, offsets)
  {
    AllFit(files, offsets, m) && OnePerFile(m) && EveryUnfinished(files, offsets, m)
  }

  lemma TopIsLeast(files: seq<File>, offsets: seq<nat>, heap: seq<Entry>)
    requires ValidOffsets(files, offsets) && IsHeap(heap) && HeapFits(files, offsets, multiset(heap))
    requires heap != [] && heap[0].head.Some?
    ensures heap[0] in multiset(heap) && EntryFits(files, offsets, heap[0])
    ensures LeastHead(files, offsets, |files|) == Some(heap[0].index)
  {
    hide LeastHead;
    assert heap[0] in multiset(heap);
    var i := heap[0].index;
    EntryLeqTotal(heap[0], heap[0]);
    forall j | 0 <= j < |files| && offsets[j] < |files[j]|
      ensures EntryLeq(HeadOf(files, offsets, i), HeadOf(files, offsets, j))
    {
      var e :| e in multiset(heap) && e.index == j;
      var k :| 0 <= k < |heap| && heap[k] == e;
      assert EntryLeq(heap[0], heap[k]);
      assert heap[0] == HeadOf(files, offsets, i);
    }
    LeastIsUnique(files, offsets, i);
  }

  lemma EmptyHeapIsDone(files: seq<File>, offsets: seq<nat>)
    requires ValidOffsets(files, offsets) && HeapFits(files, offsets, multiset{})
    ensures Merged(files, offsets) == []
  {
    assert LeastHead(files, offsets, |files|).None?;
  }

  // What is on the heap after the top entry's file was read once more.
  ghost predicate Reread(files: seq<File>, offsets': seq<nat>, m: multiset<Entry>, top: Entry, m': multiset<Entry>)
    requires ValidOffsets(files, offsets') && top.index < |files|
  {
    m' == m - multiset{top} + (if offsets'[top.index] < |files[top.index]| then multiset{HeadOf(files, offsets', top.index)} else multiset{})
  }

  lemma TellIsValid(files: seq<File>, offsets: seq<nat>, top: Entry)
    requires ValidOffsets(files, offsets) && EntryFits(files, offsets, top)
    ensures top.index < |files| == |offsets| && (top.head.Some? ==> offsets[top.index] < |files[top.index]|)
    ensures ValidOffsets(files, offsets[top.index := offsets[top.index] + (if top.head.Some? then 1 else 0)])
  {}

  // The members of m' and nothing else: the old ones of other files, and the file's new head if there is one.
  ghost predicate RereadSet(files: seq<File>, offsets': seq<nat>, m: multiset<Entry>, i: nat, m': multiset<Entry>)
    requires ValidOffsets(files, offsets') && i < |files|
  {
    && (forall e :: e in m' ==> (e in m && e.index != i) || (offsets'[i] < |files[i]| && e == HeadOf(files, offsets', i)))
    && (forall e :: e in m && e.index != i ==> e in m')
    && (offsets'[i] < |files[i]| ==> HeadOf(files, offsets', i) in m')
  }

  lemma RereadMembers(files: seq<File>, offsets': seq<nat>, m: multiset<Entry>, top: Entry, m': multiset<Entry>)
    requires ValidOffsets(files, offsets') && top.index < |files| && Reread(files, offsets', m, top, m')
    requires top in m && OnePerFile(m)
    ensures RereadSet(files, offsets', m, top.index, m') && OnePerFile(m')
  {
    forall e
      ensures e in m' <==> (e in m && e.index != top.index) || (offsets'[top.index] < |files[top.index]| && e == HeadOf(files, offsets', top.index))
      ensures e in m' ==> m'[e] == 1
    {
      if e == top {
        assert (m - multiset{top})[e] == 0;
      } else {
        assert (m - multiset{top})[e] == m[e];
      }
    }
  }

  // One turn of the reading part: the offset moves behind the top entry, then the next record replaces it.
  lemma Advance(files: seq<File>, offsets: seq<nat>, m: multiset<Entry>, top: Entry, offsets': seq<nat>, m': multiset<Entry>)
    requires ValidOffsets(files, offsets) && HeapFits(files, offsets, m) && top in m
    requires top.index < |files| && offsets' == offsets[top.index := offsets[top.index] + (if top.head.Some? then 1 else 0)]
    requires ValidOffsets(files, offsets') && Reread(files, offsets', m, top, m')
    ensures HeapFits(files, offsets', m')
    ensures forall e :: e in m' ==> e.head.Some? || (e in m && e != top)
  {
    hide Reread, AllFit, OnePerFile, EveryUnfinished, RereadSet;
    RereadMembers(files, offsets', m, top, m');
    AdvanceFits(files, offsets, m, top, offsets', m');
    AdvanceCovers(files, offsets, m, top, offsets', m');
  }

  lemma AdvanceCovers(files: seq<File>, offsets: seq<nat>, m: multiset<Entry>, top: Entry, offsets': seq<nat>, m': multiset<Entry>)
    requires ValidOffsets(files, offsets) && ValidOffsets(files, offsets') && top.index < |files|
    requires offsets' == offsets[top.index := offsets'[top.index]]
    requires EveryUnfinished(files, offsets, m) && RereadSet(files, offsets', m, top.index, m')
    ensures EveryUnfinished(files, offsets', m')
    ensures forall e :: e in m' ==> e.head.Some? || (e in m && e != top)
  {
    forall i | 0 <= i < |files| && offsets'[i] < |files[i]|
      ensures exists e :: e in m' && e.index == i
    {
      if i == top.index {
        assert HeadOf(files, offsets', i) in m' && HeadOf(files, offsets', i).index == i;
      } else {
        var e :| e in m && e.index == i;
        assert e in m';
      }
    }
  }

  lemma AdvanceFits(files: seq<File>, offsets: seq<nat>, m: multiset<Entry>, top: Entry, offsets': seq<nat>, m': multiset<Entry>)
    requires ValidOffsets(files, offsets) && ValidOffsets(files, offsets') && top.index < |files|
    requires offsets' == offsets[top.index := offsets'[top.index]]
    requires AllFit(files, offsets, m) && RereadSet(files, offsets', m, top.index, m')
    ensures AllFit(files, offsets', m')
  {
    forall e | e in m'
      ensures EntryFits(files, offsets', e)
    {
      if e.index != top.index {
        StillFits(files, offsets, offsets', e, top.index);
      }
    }
  }

  lemma StillFits(files: seq<File>, offsets: seq<nat>, offsets': seq<nat>, e: Entry, i: nat)
    requires ValidOffsets(files, offsets) && ValidOffsets(files, offsets') && EntryFits(files, offsets, e)
    requires i < |files| && offsets' == offsets[i := offsets'[i]] && e.index != i
    ensures EntryFits(files, offsets', e)
  {}

  // Unread entries sort first and in file order, so the index of an unread top only grows.
  ghost function UnreadTop(files: seq<File>, heap: seq<Entry>): int {
    if heap != [] && heap[0].head.None? then |files| - heap[0].index else 0
  }

  lemma UnreadTopDrops(files: seq<File>, offsets: seq<nat>, heap: seq<Entry>, heap': seq<Entry>)
    requires ValidOffsets(files, offsets) && IsHeap(heap) && HeapFits(files, offsets, multiset(heap)) && heap != []
    requires heap[0].head.None?
    requires forall e :: e in multiset(heap') ==> e.head.Some? || (e in multiset(heap) && e != heap[0])
    ensures 0 <= UnreadTop(files, heap') < UnreadTop(files, heap)
  {
    assert heap[0] in multiset(heap);
    if heap' != [] && heap'[0].head.None? {
      var f := heap'[0];
      assert f in multiset(heap');
      assert f in multiset(heap) && f != heap[0];
      var k :| 0 <= k < |heap| && heap[k] == f;
      assert EntryLeq(heap[0], heap[k]);
    }
  }

  // The two halves of a turn together.
  lemma TurnDone(files: seq<File>, offsets: seq<nat>, heap: seq<Entry>, offsets': seq<nat>, heap': seq<Entry>)
    requires ValidOffsets(files, offsets) && IsHeap(heap) && HeapFits(files, offsets, multiset(heap)) && heap != []
    requires heap[0].index < |files| && ValidOffsets(files, offsets')
    requires offsets' == offsets[heap[0].index := offsets[heap[0].index] + (if heap[0].head.Some? then 1 else 0)]
    requires Reread(files, offsets', multiset(heap), heap[0], multiset(heap'))
    ensures HeapFits(files, offsets', multiset(heap'))
    ensures heap[0].head.None? ==> offsets' == offsets && 0 <= UnreadTop(files, heap') < UnreadTop(files, heap)
  {
    hide HeapFits, IsHeap, EntryLeq, Reread, UnreadTop;
    assert heap[0] in multiset(heap);
    Advance(files, offsets, multiset(heap), heap[0], offsets', multiset(heap'));
    if heap[0].head.None? {
      assert offsets' == offsets;
      UnreadTopDrops(files, offsets, heap, heap');
    }
  }

  // The heap list the generator starts from.
  function InitialHeap(n: nat): seq<Entry> {
    seq(n, (i: nat) => Entry(None, i))
  }

  lemma InitialHeapFits(files: seq<File>, offsets: seq<nat>)
    requires ValidOffsets(files, offsets)
    ensures IsHeap(InitialHeap(|files|)) && HeapFits(files, offsets, multiset(InitialHeap(|files|)))
  {
    var heap := InitialHeap(|files|);
    var m := multiset(heap);
    forall e: Entry | e in m
      ensures EntryFits(files, offsets, e) && m[e] == 1 && e.head.None?
    {
      var i :| 0 <= i < |heap| && heap[i] == e;
      assert heap == heap[..i] + [e] + heap[i + 1..];
      assert e !in heap[..i] && e !in heap[i + 1..];
      assert m == multiset(heap[..i]) + multiset{e} + multiset(heap[i + 1..]);
    }
    assert forall e: Entry, f: Entry :: e in m && f in m && e.index == f.index ==> e == f;
    forall i | 0 <= i < |files| && offsets[i] < |files[i]|
      ensures exists e: Entry :: e in m && e.index == i
    {
      assert heap[i] in m && heap[i].index == i;
    }
    assert multiset(InitialHeap(|files|)) == m;
  }

  /** The records of a reader's remaining input, grouped: what a freshly restored reader would yield. */
  ghost function Remaining(files: seq<File>, offsets: seq<nat>, limits: Limits): seq<Group>
    requires ValidOffsets(files, offsets)
  {
    Groups(Merged(files, offsets), limits)
  }

  // The serialised state.
  datatype Checkpoint = Checkpoint(offsets: seq<nat>, limits: Limits)

  class MergingReader {
    var offsets: seq<nat>
    const limits: Limits

    // The frame of the generator; suspended means it stands at a yield inside the loop.
    var files: seq<File>
    var readers: seq<Entry>
    var current: Option<Group>
    var count: nat
    var size: nat
    var suspended: bool

    ghost predicate Valid()
      reads this
    {
      && ValidOffsets(files, offsets)
      && IsHeap(readers) && HeapFits(files, offsets, multiset(readers))
      && (current.None? || suspended)
      && (suspended ==> readers != [] && readers[0].head.Some?)
    }

    /** __init__ and from_json. */
    constructor (json: Checkpoint)
      ensures offsets == json.offsets && limits == json.limits
    {
      offsets, limits := json.offsets, json.limits;
      files, readers, current, count, size, suspended := [], [], None, 0, 0, false;
    }

    method ToJson() returns (json: Checkpoint)
      ensures json == Checkpoint(offsets, limits)
    {
      json := Checkpoint(offsets, limits);
    }

    /** The part of __iter__ before the loop; the number of offsets must match the files. */
    method Iter(filesOfShard: seq<File>) returns (res: Result<()>)
      requires |offsets| == |filesOfShard| ==> ValidOffsets(filesOfShard, offsets)
      modifies this
      ensures res.Success? <==> |offsets| == |filesOfShard|
      ensures res.Failure? ==> res.error == Exception
      ensures offsets == old(offsets)
      ensures res.Success? ==> Valid() && files == filesOfShard
    {
      if |filesOfShard| != |offsets| {
        return Failure(Exception);
      }
      files, current, suspended := filesOfShard, None, false;
      readers := InitialHeap(|files|);
      InitialHeapFits(files, offsets);
      return Success(());
    }

    /**
     The reading half of a turn: the offset of the top entry's file becomes tell(), which stands behind
     the record on top, and the file's next record takes its place on the heap; at the end of file it leaves.
     */
    method ReadNext()
      requires ValidOffsets(files, offsets) && IsHeap(readers) && HeapFits(files, offsets, multiset(readers))
      requires readers != [] && EntryFits(files, offsets, readers[0])
      modifies `offsets, `readers
      ensures ValidOffsets(files, offsets) && IsHeap(readers) && HeapFits(files, offsets, multiset(readers))
      ensures var top := old(readers[0]);
              && offsets == old(offsets)[top.index := old(offsets)[top.index] + (if top.head.Some? then 1 else 0)]
              && (top.head.None? ==> offsets == old(offsets) && 0 <= UnreadTop(files, readers) < UnreadTop(files, old(readers)))
    {
      hide HeapFits, IsHeap, EntryLeq, UnreadTop, HeapReplace, HeapPop, ValidOffsets;
      var top := readers[0];
      TellIsValid(files, offsets, top);
      ghost var before := offsets;
      ghost var heap := readers;
      var tell := offsets[top.index] + (if top.head.Some? then 1 else 0);
      offsets := offsets[top.index := tell];
      if tell < |files[top.index]| {
        readers := HeapReplace(readers, HeadOf(files, offsets, top.index));
      } else {
        readers := HeapPop(readers);
      }
      TurnDone(files, before, heap, offsets, readers);
    }

    /**
     Up to the next yield. What comes out is the first of the remaining groups, and the offsets are
     then exactly behind the records already emitted: the rest is what a restored reader would yield.
     */
    method Next() returns (out: Option<Group>)
      requires Valid()
      modifies this
      ensures Valid() && files == old(files)
      ensures var todo := old(Remaining(files, offsets, limits));
              && (todo == [] ==> out.None? && Merged(files, offsets) == [])
              && (todo != [] ==> out == Some(todo[0]) && Remaining(files, offsets, limits) == todo[1..])
      ensures old(Merged(files, offsets)) == (if out.Some? then RecordsOf(out.value) else []) + Merged(files, offsets)
    {
      hide HeapFits, IsHeap, EntryLeq, LeastHead, Merged, GroupsFrom, Groups, Left, Filling, RecordsOf, UnreadTop;
      ghost var todo, stream := Remaining(files, offsets, limits), Merged(files, offsets);
      while readers != []
        invariant files == old(files) && ValidOffsets(files, offsets)
        invariant IsHeap(readers) && HeapFits(files, offsets, multiset(readers))
        invariant suspended ==> readers != [] && readers[0].head.Some?
        invariant InLoop(current, suspended, count, size, Merged(files, offsets), limits, todo, stream)
        decreases Left(files, offsets, |files|), UnreadTop(files, readers)
      {
        Fits(files, offsets, readers);
        if readers[0].head.Some? {
          ghost var rest := Unfold(files, offsets, readers);
          var stop := TakeTop(todo, stream, rest);
          if stop {
            return current;
          }
        }
        ReadNext();
      }
      assert multiset(readers) == multiset{};
      EmptyHeapIsDone(files, offsets);
      NoMoreRecords(current, count, size, limits);
      out := current;
      current, suspended := None, false;
    }

    /**
     The grouping half of a turn, on a record at the top: either the group being filled is to be yielded
     first, or the record joins a group. Resumed behind a yield, the record opens a new group.
     */
    method TakeTop(ghost todo: seq<Group>, ghost stream: seq<Record>, ghost rest: seq<Record>) returns (stop: bool)
      requires readers != [] && readers[0].head.Some?
      requires InLoop(current, suspended, count, size, [readers[0].head.value] + rest, limits, todo, stream)
      modifies `current, `count, `size, `suspended
      ensures !stop ==> !suspended && InLoop(current, false, count, size, rest, limits, todo, stream)
      ensures stop ==>
                && current.Some? && suspended
                && todo == [current.value] + Groups([readers[0].head.value] + rest, limits)
                && stream == RecordsOf(current.value) + ([readers[0].head.value] + rest)
    {
      hide GroupsFrom, Groups, Filling, RecordsOf, LimitHit;
      var top := readers[0].head.value;
      var key, value := top.key, top.value;
      if current.Some? && !suspended {
        GroupContinues(current.value, count, size, top, rest, limits);
      }
      GroupStarts(top, rest, limits);
      if !suspended {
        count, size := count + 1, size + |value|;
        if current.Some? {
          if key != current.value.key {
            suspended := true;
          } else if LimitHit(limits, count, size) {
            current := Some(current.value.(partial := true));
            suspended := true;
          }
        }
        if suspended {
          return true;
        }
      }
      if current.None? || suspended {
        current, count, size, suspended := Some(Group(key, [], false)), 0, 0, false;
      }
      current := Some(current.value.(values := current.value.values + [value]));
      return false;
    }
  }

  // The loop invariant: what was to be yielded at entry, against the group being filled and the unread records.
  ghost predicate InLoop(current: Option<Group>, suspended: bool, count: nat, size: nat, unread: seq<Record>,
                         limits: Limits, todo: seq<Group>, stream: seq<Record>)
  {
    if current.None? || suspended then
      todo == Groups(unread, limits) && stream == unread
    else
      && Filling(current.value, count, size, limits)
      && todo == GroupsFrom(current.value, count, size, unread, limits)
      && stream == RecordsOf(current.value) + unread
  }

  lemma Fits(files: seq<File>, offsets: seq<nat>, heap: seq<Entry>)
    requires ValidOffsets(files, offsets) && HeapFits(files, offsets, multiset(heap)) && heap != []
    ensures EntryFits(files, offsets, heap[0])
  {
    assert heap[0] in multiset(heap);
  }

  // The record on top of the heap is the next of the merged stream.
  lemma Unfold(files: seq<File>, offsets: seq<nat>, heap: seq<Entry>) returns (rest: seq<Record>)
    requires ValidOffsets(files, offsets) && IsHeap(heap) && HeapFits(files, offsets, multiset(heap))
    requires heap != [] && heap[0].head.Some?
    ensures EntryFits(files, offsets, heap[0])
    ensures var i := heap[0].index;
            && ValidOffsets(files, offsets[i := offsets[i] + 1])
            && rest == Merged(files, offsets[i := offsets[i] + 1])
            && Merged(files, offsets) == [heap[0].head.value] + rest
            && Left(files, offsets[i := offsets[i] + 1], |files|) < Left(files, offsets, |files|)
  {
    hide HeapFits, IsHeap, EntryLeq;
    TopIsLeast(files, offsets, heap);
    rest := UnfoldAt(files, offsets, heap[0].index);
  }

  lemma UnfoldAt(files: seq<File>, offsets: seq<nat>, i: nat) returns (rest: seq<Record>)
    requires ValidOffsets(files, offsets) && i < |files| && LeastHead(files, offsets, |files|) == Some(i)
    ensures offsets[i] < |files[i]| && ValidOffsets(files, offsets[i := offsets[i] + 1])
    ensures rest == Merged(files, offsets[i := offsets[i] + 1]) && Merged(files, offsets) == [files[i][offsets[i]]] + rest
    ensures Left(files, offsets[i := offsets[i] + 1], |files|) < Left(files, offsets, |files|)
  {
    hide EntryLeq;
    LeftAdvance(files, offsets, |files|, i);
    rest := Merged(files, offsets[i := offsets[i] + 1]);
  }

  lemma GroupStarts(r: Record, rest: seq<Record>, limits: Limits)
    ensures var g := Group(r.key, [] + [r.value], false);
            && Groups([r] + rest, limits) == GroupsFrom(g, 0, 0, rest, limits)
            && Filling(g, 0, 0, limits) && RecordsOf(g) == [r]
  {
    assert ([r] + rest)[1..] == rest && [] + [r.value] == [r.value];
  }

  lemma GroupContinues(current: Group, count: nat, size: nat, r: Record, rest: seq<Record>, limits: Limits)
    requires Filling(current, count, size, limits)
    ensures var todo := GroupsFrom(current, count, size, [r] + rest, limits);
            if r.key != current.key then
              todo == [current] + Groups([r] + rest, limits)
            else if LimitHit(limits, count + 1, size + |r.value|) then
              todo == [current.(partial := true)] + Groups([r] + rest, limits)
            else
              var fuller := current.(values := current.values + [r.value]);
              && todo == GroupsFrom(fuller, count + 1, size + |r.value|, rest, limits)
              && Filling(fuller, count + 1, size + |r.value|, limits)
              && RecordsOf(fuller) == RecordsOf(current) + [r]
    ensures RecordsOf(current.(partial := true)) == RecordsOf(current)
  {
    assert ([r] + rest)[1..] == rest;
    FillOne(current, count, size, r.value, limits);
  }

  lemma NoMoreRecords(current: Option<Group>, count: nat, size: nat, limits: Limits)
    ensures Groups([], limits) == []
    ensures current.Some? ==> GroupsFrom(current.value, count, size, [], limits) == [current.value]
  {}

  /** Between two offset lists exactly these groups were yielded: nothing skipped, nothing repeated. */
  ghost predicate Progress(files: seq<File>, from: seq<nat>, to: seq<nat>, limits: Limits, yielded: seq<Group>)
    requires ValidOffsets(files, from) && ValidOffsets(files, to)
  {
    && Remaining(files, from, limits) == yielded + Remaining(files, to, limits)
    && Merged(files, from) == Ungroup(yielded) + Merged(files, to)
  }

  lemma ProgressNone(files: seq<File>, at: seq<nat>, limits: Limits)
    requires ValidOffsets(files, at)
    ensures Progress(files, at, at, limits, [])
  {}

  lemma ProgressOne(files: seq<File>, from: seq<nat>, to: seq<nat>, limits: Limits, g: Group)
    requires ValidOffsets(files, from) && ValidOffsets(files, to)
    requires Remaining(files, from, limits) != [] && g == Remaining(files, from, limits)[0]
    requires Remaining(files, to, limits) == Remaining(files, from, limits)[1..]
    requires Merged(files, from) == RecordsOf(g) + Merged(files, to)
    ensures Progress(files, from, to, limits, [g])
  {
    hide Merged, Remaining, RecordsOf;
    assert Ungroup([g]) == RecordsOf(g) + Ungroup([]);
  }

  lemma ProgressEnd(files: seq<File>, from: seq<nat>, to: seq<nat>, limits: Limits)
    requires ValidOffsets(files, from) && ValidOffsets(files, to)
    requires Merged(files, from) == [] && Merged(files, to) == []
    ensures Progress(files, from, to, limits, [])
  {}

  lemma ProgressCompose(files: seq<File>, a: seq<nat>, b: seq<nat>, c: seq<nat>, limits: Limits, xs: seq<Group>, ys: seq<Group>)
    requires ValidOffsets(files, a) && ValidOffsets(files, b) && ValidOffsets(files, c)
    requires Progress(files, a, b, limits, xs) && Progress(files, b, c, limits, ys)
    ensures Progress(files, a, c, limits, xs + ys)
  {
    hide Merged, Remaining, Ungroup;
    UngroupConcat(xs, ys);
  }

  /**
   A job run in slices: each slice restores a reader from the last checkpoint, takes as many groups as it
   is given time for, and serialises. No group is skipped or repeated, for any number of files, limits and slice
   lengths, and as many groups come out as there was time for unless all records are through.
   */
  method RunSlices(files: seq<File>, start: Checkpoint, slices: seq<nat>) returns (yielded: seq<Group>, end: Checkpoint)
    requires ValidOffsets(files, start.offsets)
    ensures ValidOffsets(files, end.offsets) && end.limits == start.limits
    ensures Progress(files, start.offsets, end.offsets, start.limits, yielded)
    ensures |yielded| == Sum(slices) || (|yielded| < Sum(slices) && Merged(files, end.offsets) == [])
  {
    hide Progress, Merged;
    yielded, end := [], start;
    ProgressNone(files, start.offsets, start.limits);
    for s := 0 to |slices|
      invariant ValidOffsets(files, end.offsets) && end.limits == start.limits
      invariant Progress(files, start.offsets, end.offsets, start.limits, yielded)
      invariant |yielded| == Sum(slices[..s]) || (|yielded| < Sum(slices[..s]) && Merged(files, end.offsets) == [])
    {
      SumNext(slices, s);
      var slice, next := RunSlice(files, end, slices[s]);
      NothingLeft(files, end.offsets, next.offsets, start.limits, slice);
      ProgressCompose(files, start.offsets, end.offsets, next.offsets, start.limits, yielded, slice);
      yielded, end := yielded + slice, next;
    }
    assert slices[..|slices|] == slices;
  }

  lemma NothingLeft(files: seq<File>, from: seq<nat>, to: seq<nat>, limits: Limits, yielded: seq<Group>)
    requires ValidOffsets(files, from) && ValidOffsets(files, to) && Progress(files, from, to, limits, yielded)
    ensures Merged(files, from) == [] ==> yielded == [] && Merged(files, to) == []
  {
    hide Merged;
  }

  method RunSlice(files: seq<File>, start: Checkpoint, n: nat) returns (yielded: seq<Group>, end: Checkpoint)
    requires ValidOffsets(files, start.offsets)
    ensures ValidOffsets(files, end.offsets) && end.limits == start.limits
    ensures Progress(files, start.offsets, end.offsets, start.limits, yielded)
    ensures |yielded| == n || (|yielded| < n && Merged(files, end.offsets) == [])
  {
    hide Merged, Groups, Progress, HeapFits, IsHeap, Ungroup, RecordsOf;
    var reader := new MergingReader(start);
    var started := reader.Iter(files);
    yielded := [];
    ProgressNone(files, start.offsets, start.limits);
    while |yielded| < n
      invariant |yielded| <= n
      invariant fresh(reader) && reader.Valid() && reader.files == files && reader.limits == start.limits
      invariant Progress(files, start.offsets, reader.offsets, start.limits, yielded)
    {
      ghost var before := reader.offsets;
      var out := reader.Next();
      if out.None? {
        ProgressEnd(files, before, reader.offsets, start.limits);
        ProgressCompose(files, start.offsets, before, reader.offsets, start.limits, yielded, []);
        assert yielded + [] == yielded;
        break;
      }
      ProgressOne(files, before, reader.offsets, start.limits, out.value);
      ProgressCompose(files, start.offsets, before, reader.offsets, start.limits, yielded, [out.value]);
      yielded := yielded + [out.value];
    }
    end := reader.ToJson();
  }

  lemma {:induction false} UngroupConcat(xs: seq<Group>, ys: seq<Group>)
    ensures Ungroup(xs + ys) == Ungroup(xs) + Ungroup(ys)
    ensures |ys| == 1 ==> Ungroup(ys) == RecordsOf(ys[0])
  {
    if |ys| == 1 {
      assert ys[1..] == [] && Ungroup(ys[1..]) == [];
    }
    if xs == [] {
      assert xs + ys == ys;
    } else {
      UngroupConcat(xs[1..], ys);
      assert (xs + ys)[1..] == xs[1..] + ys;
    }
  }
}
