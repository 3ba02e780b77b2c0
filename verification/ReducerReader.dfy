/**
 _ReducerReader (server/mapreduce/mapreduce_pipeline.py) on top of RecordsReader
 (server/mapreduce/input_readers.py): it joins the partial groups of a key again. No combiner.
 */
module ReducerReader {
  import opened Wrappers
  import opened StringOrder
  import opened RecordMerge

  // What __iter__ produces: a finished key, the checkpoint marker, or the raised assertion.
  datatype Event = Pair(key: string, values: seq<string>) | AllowCheckpoint | Inconsistent

  // current_key and current_values.
  datatype Pending = Pending(key: string, values: seq<string>)

  function Joined(pending: Option<Pending>, g: Group): Pending {
    Pending(g.key, (if pending.Some? then pending.value.values else []) + g.values)
  }

  /** The events still to come; the assertion ends the iteration. */
  function Reduce(pending: Option<Pending>, groups: seq<Group>): seq<Event>
    decreases |groups|
  {
    if groups == [] then [] else
      var g, next := groups[0], Joined(pending, groups[0]);
      if pending.Some? && pending.value.key != g.key then [Inconsistent]
      else if g.partial then [AllowCheckpoint] + Reduce(Some(next), groups[1..])
      else [Pair(next.key, next.values)] + Reduce(None, groups[1..])
  }

  function Pairs(events: seq<Event>): seq<Event> {
    if events == [] then []
    else (if events[0].Pair? then [events[0]] else []) + Pairs(events[1..])
  }

  lemma PairsArePairs(events: seq<Event>)
    ensures forall i :: 0 <= i < |Pairs(events)| ==> Pairs(events)[i].Pair?
  {}

  function PairRecords(p: Event): seq<Record>
    requires p.Pair?
  {
    RecordsOf(Group(p.key, p.values, false))
  }

  function Flatten(pairs: seq<Event>): seq<Record>
    requires forall i :: 0 <= i < |pairs| ==> pairs[i].Pair?
  {
    if pairs == [] then [] else PairRecords(pairs[0]) + Flatten(pairs[1..])
  }

  // Every partial group is followed by the next one of its key, and a finished key does not go on.
  ghost predicate ChainedAt(groups: seq<Group>, i: nat)
    requires i < |groups|
  {
    groups[i].values != [] && (groups[i].partial <==> i + 1 < |groups| && groups[i + 1].key == groups[i].key)
  }

  ghost predicate Chained(groups: seq<Group>) {
    forall i :: 0 <= i < |groups| ==> ChainedAt(groups, i)
  }

  lemma GreedyChains(groups: seq<Group>, limits: Limits)
    requires Greedy(groups, limits)
    ensures Chained(groups)
  {
    forall i | 0 <= i < |groups|
      ensures ChainedAt(groups, i)
    {
      assert GreedyAt(groups, i, limits);
    }
  }

  // A pending key continues in the first group, unless nothing is left.
  ghost predicate Continues(pending: Option<Pending>, groups: seq<Group>) {
    pending.Some? ==> groups != [] && groups[0].key == pending.value.key && pending.value.values != []
  }

  function PendingRecords(pending: Option<Pending>): seq<Record> {
    if pending.Some? then RecordsOf(Group(pending.value.key, pending.value.values, true)) else []
  }

  lemma JoinedRecords(pending: Option<Pending>, g: Group)
    requires pending.Some? ==> pending.value.key == g.key
    ensures PendingRecords(Some(Joined(pending, g))) == PendingRecords(pending) + RecordsOf(g)
  {}

  lemma PairsCons(e: Event, events: seq<Event>)
    ensures Pairs([e] + events) == (if e.Pair? then [e] else []) + Pairs(events)
  {
    assert ([e] + events)[1..] == events;
  }

  lemma FlattenCons(p: Event, pairs: seq<Event>)
    requires p.Pair? && forall i :: 0 <= i < |pairs| ==> pairs[i].Pair?
    ensures Flatten([p] + pairs) == PendingRecords(Some(Pending(p.key, p.values))) + Flatten(pairs)
  {
    assert ([p] + pairs)[1..] == pairs;
    assert PairRecords(p) == PendingRecords(Some(Pending(p.key, p.values)));
  }

  // Finished keys with at least one value each, no two neighbours with the same key.
  ghost predicate KeysChange(pairs: seq<Event>) {
    && (forall i :: 0 <= i < |pairs| ==> pairs[i].Pair? && pairs[i].values != [])
    && (forall i :: 0 <= i < |pairs| - 1 ==> pairs[i].key != pairs[i + 1].key)
  }

  lemma KeysChangeCons(p: Event, pairs: seq<Event>)
    requires p.Pair? && p.values != [] && KeysChange(pairs) && (pairs != [] ==> pairs[0].key != p.key)
    ensures KeysChange([p] + pairs)
  {
    assert forall i :: 1 <= i < |[p] + pairs| ==> ([p] + pairs)[i] == pairs[i - 1];
  }

  /**
   Reducing a chained stream: the assertion never fires, the pairs carry all the records in order
   (the pending ones first), and no two neighbouring pairs have the same key.
   */
  lemma {:induction false} ReduceLaws(pending: Option<Pending>, groups: seq<Group>)
    requires Chained(groups) && Continues(pending, groups)
    ensures Inconsistent !in Reduce(pending, groups)
    ensures var pairs := Pairs(Reduce(pending, groups));
            && KeysChange(pairs)
            && (if groups == [] then pairs == [] else pairs != [] && pairs[0].key == groups[0].key)
            && Flatten(pairs) == PendingRecords(pending) + Ungroup(groups)
    decreases |groups|
  {
    hide Pairs, Flatten, PairRecords, RecordsOf, PendingRecords, Chained, KeysChange;
    if groups == [] {
      NothingToReduce(pending);
    } else {
      var g, next := groups[0], Joined(pending, groups[0]);
      JoinedRecords(pending, g);
      ChainedTail(groups);
      if g.partial {
        ReduceLaws(Some(next), groups[1..]);
        PairsCons(AllowCheckpoint, Reduce(Some(next), groups[1..]));
        assert [] + Pairs(Reduce(Some(next), groups[1..])) == Pairs(Reduce(Some(next), groups[1..]));
      } else {
        ReduceLaws(None, groups[1..]);
        var first, events := Pair(next.key, next.values), Reduce(None, groups[1..]);
        PairsCons(first, events);
        PairsArePairs(events);
        FlattenCons(first, Pairs(events));
        KeysChangeCons(first, Pairs(events));
        NoPendingRecords();
        assert [] + Ungroup(groups[1..]) == Ungroup(groups[1..]);
      }
      assert (PendingRecords(pending) + RecordsOf(g)) + Ungroup(groups[1..]) == PendingRecords(pending) + (RecordsOf(g) + Ungroup(groups[1..]));
    }
  }

  /** One event for each group read: a checkpoint for a partial group, a finished key for any other. */
  lemma {:induction false} EventPerGroup(pending: Option<Pending>, groups: seq<Group>)
    requires Chained(groups) && Continues(pending, groups)
    ensures |Reduce(pending, groups)| == |groups|
    ensures forall i :: 0 <= i < |groups| ==>
              if groups[i].partial then Reduce(pending, groups)[i] == AllowCheckpoint
              else Reduce(pending, groups)[i].Pair? && Reduce(pending, groups)[i].key == groups[i].key
    decreases |groups|
  {
    if groups != [] {
      assert ChainedAt(groups, 0);
      ChainedTail(groups);
      var g := groups[0];
      EventPerGroup(if g.partial then Some(Joined(pending, g)) else None, groups[1..]);
    }
  }

  lemma NothingToReduce(pending: Option<Pending>)
    requires pending.None?
    ensures Pairs(Reduce(pending, [])) == [] && KeysChange([]) && Flatten([]) == PendingRecords(pending) + Ungroup([])
  {}

  lemma NoPendingRecords()
    ensures PendingRecords(None) == []
  {}

  lemma ChainedTail(groups: seq<Group>)
    requires groups != [] && Chained(groups)
    ensures Chained(groups[1..]) && groups[0].values != []
    ensures groups[0].partial ==> |groups| > 1 && groups[1].key == groups[0].key
    ensures !groups[0].partial && |groups| > 1 ==> groups[1].key != groups[0].key
  {
    assert ChainedAt(groups, 0);
    forall i | 0 <= i < |groups[1..]|
      ensures ChainedAt(groups[1..], i)
    {
      assert ChainedAt(groups, i + 1);
    }
  }

  // ----- checkpoints -----

  /** current_key and current_values after the first j groups. */
  function StateAfter(groups: seq<Group>, j: nat): Option<Pending>
    requires j <= |groups|
  {
    if j == 0 || !groups[j - 1].partial then None
    else Some(Joined(StateAfter(groups, j - 1), groups[j - 1]))
  }

  lemma {:induction false} StateContinues(groups: seq<Group>, j: nat)
    requires Chained(groups) && j <= |groups|
    ensures Chained(groups[j..]) && Continues(StateAfter(groups, j), groups[j..])
  {
    if j > 0 {
      StateContinues(groups, j - 1);
      ChainedTail(groups[j - 1..]);
      assert groups[j - 1..][1..] == groups[j..];
    } else {
      assert groups[0..] == groups;
    }
  }

  /**
   A restored reader forgets the pending key when iteration starts again. So a resume behind group j
   yields what the uninterrupted run still had to yield exactly when no key was pending there.
   */
  lemma ResumeExactlyWhenNothingPending(groups: seq<Group>, j: nat)
    requires Chained(groups) && j <= |groups|
    ensures Pairs(Reduce(None, groups[j..])) == Pairs(Reduce(StateAfter(groups, j), groups[j..]))
            <==> StateAfter(groups, j).None?
  {
    StateContinues(groups, j);
    var pending := StateAfter(groups, j);
    ReduceLaws(pending, groups[j..]);
    ReduceLaws(None, groups[j..]);
    if pending.Some? {
      assert |PendingRecords(pending)| > 0;
    }
  }

  /** A concrete loss: a key split in two groups and resumed between them arrives without its first value. */
  lemma ResumeMidKeyLosesValues()
    ensures var groups := [Group("k", ["a"], true), Group("k", ["b"], false)];
            && Pairs(Reduce(None, groups)) == [Pair("k", ["a", "b"])]
            && Pairs(Reduce(None, groups[1..])) == [Pair("k", ["b"])]
  {
    var g0, g1 := Group("k", ["a"], true), Group("k", ["b"], false);
    assert [g0, g1][1..] == [g1] && [g1][1..] == [];
    assert Joined(None, g0) == Pending("k", ["a"]) && Joined(Some(Pending("k", ["a"])), g1) == Pending("k", ["a", "b"]);
    assert Joined(None, g1) == Pending("k", ["b"]);
    assert Reduce(None, [g1]) == [Pair("k", ["b"])];
    assert Reduce(Some(Pending("k", ["a"])), [g1]) == [Pair("k", ["a", "b"])];
    assert Reduce(None, [g0, g1]) == [AllowCheckpoint, Pair("k", ["a", "b"])];
    assert [AllowCheckpoint, Pair("k", ["a", "b"])][1..] == [Pair("k", ["a", "b"])];
    assert [Pair("k", ["a", "b"])][1..] == [] && [Pair("k", ["b"])][1..] == [];
  }

  /** One reader over several merged files gives what separate readers would: no key is pending at a file's end. */
  lemma {:induction false} ReduceFiles(pending: Option<Pending>, xs: seq<Group>, ys: seq<Group>)
    requires Chained(xs) && Continues(pending, xs)
    ensures Reduce(pending, xs + ys) == Reduce(pending, xs) + Reduce(None, ys)
    decreases |xs|
  {
    if xs == [] {
      assert xs + ys == ys;
    } else {
      hide Chained;
      assert (xs + ys)[1..] == xs[1..] + ys;
      ChainedTail(xs);
      if xs[0].partial {
        ReduceFiles(Some(Joined(pending, xs[0])), xs[1..], ys);
      } else {
        ReduceFiles(None, xs[1..], ys);
      }
    }
  }

  lemma ReduceStep(pending: Option<Pending>, groups: seq<Group>)
    ensures groups == [] ==> Reduce(pending, groups) == []
    ensures groups != [] ==>
              Reduce(pending, groups) ==
                if pending.Some? && pending.value.key != groups[0].key then [Inconsistent]
                else if groups[0].partial then [AllowCheckpoint] + Reduce(Some(Joined(pending, groups[0])), groups[1..])
                else [Pair(groups[0].key, Joined(pending, groups[0]).values)] + Reduce(None, groups[1..])
  {}

  // ----- the reader object -----

  function Concat(files: seq<seq<Group>>): seq<Group> {
    if files == [] then [] else files[0] + Concat(files[1..])
  }

  datatype ReducerCheckpoint = ReducerCheckpoint(filenames: seq<seq<Group>>, position: nat, key: Option<Pending>)

  class ReducerReader {
    // RecordsReader: the files not finished yet and the position in the first of them.
    var filenames: seq<seq<Group>>
    var position: nat
    var current: Option<Pending>
    var failed: bool

    ghost predicate Valid()
      reads this
    {
      position <= if filenames == [] then 0 else |filenames[0]|
    }

    ghost function Unread(): seq<Group>
      requires Valid()
      reads this
    {
      if filenames == [] then [] else filenames[0][position..] + Concat(filenames[1..])
    }

    ghost function Todo(): seq<Event>
      requires Valid()
      reads this
    {
      if failed then [] else Reduce(current, Unread())
    }

    /** from_json: position and pending key are restored. */
    constructor (json: ReducerCheckpoint)
      requires json.position <= if json.filenames == [] then 0 else |json.filenames[0]|
      ensures Valid() && filenames == json.filenames && position == json.position && current == json.key && !failed
    {
      filenames, position, current, failed := json.filenames, json.position, json.key, false;
    }

    method ToJson() returns (json: ReducerCheckpoint)
      ensures json == ReducerCheckpoint(filenames, if filenames == [] then 0 else position, current)
    {
      json := ReducerCheckpoint(filenames, if filenames == [] then 0 else position, current);
    }

    /** The first statements of __iter__ drop whatever key was pending. */
    method Iter()
      requires Valid()
      modifies `current
      ensures Valid() && Todo() == if failed then [] else Reduce(None, Unread())
    {
      current := None;
    }

    /** RecordsReader.__iter__ up to its next record. */
    method ReadRecord() returns (g: Option<Group>)
      requires Valid()
      modifies `filenames, `position
      ensures Valid()
      ensures old(Unread()) == [] ==> g.None? && Unread() == []
      ensures old(Unread()) != [] ==> g == Some(old(Unread())[0]) && Unread() == old(Unread())[1..]
    {
      while filenames != []
        invariant Valid() && Unread() == old(Unread())
        decreases |filenames|
      {
        if position < |filenames[0]| {
          g := Some(filenames[0][position]);
          assert filenames[0][position..] == [filenames[0][position]] + filenames[0][position + 1..];
          position := position + 1;
          return;
        }
        assert filenames[0][position..] == [];
        filenames, position := filenames[1..], 0;
        assert filenames != [] ==> filenames[0][0..] == filenames[0];
      }
      return None;
    }

    /** Up to the next yield, or to the raised assertion. */
    method Next() returns (out: Option<Event>)
      requires Valid() && !failed
      modifies this
      ensures Valid()
      ensures old(Todo()) == [] ==> out.None? && Todo() == []
      ensures old(Todo()) != [] ==> out == Some(old(Todo())[0]) && Todo() == old(Todo())[1..]
      ensures failed <==> out == Some(Inconsistent)
    {
      hide Reduce;
      ReduceStep(current, Unread());
      var g := ReadRecord();
      if g.None? {
        return None;
      }
      if current.None? {
        current := Some(Pending(g.value.key, []));
      } else if g.value.key != current.value.key {
        failed := true;
        return Some(Inconsistent);
      }
      current := Some(Pending(current.value.key, current.value.values + g.value.values));
      assert [] + g.value.values == g.value.values;
      if g.value.partial {
        return Some(AllowCheckpoint);
      }
      out := Some(Pair(current.value.key, current.value.values));
      current := None;
    }
  }
}
