/** The statements of the controller and of the worker's scan (server/mapreduce/handlers.py) that the protocol takes as steps. */
module JobHandlers {
  import opened Wrappers
  import opened Counters
  import opened JobProtocol

  // ----- ControllerCallbackHandler.handle -----

  /** The MapreduceState entity as the controller holds it. */
  class MapreduceState {
    var active: bool
    var result: Option<Status>
    var counters: CounterValues

    ghost function State(): JobState
      reads this
    {
      JobState(active, result, counters)
    }

    constructor (stored: JobState)
      ensures State() == stored
    {
      active, result, counters := stored.active, stored.result, stored.counters;
    }

    /** From the check of the shard count to aggregate_state; lost says that the abort command is sent. */
    method Supervise(n: nat, abort: bool, states: seq<ShardState>) returns (lost: bool)
      modifies this
      ensures (State(), lost) == Decide(n, old(State()), abort, states)
    {
      lost := false;
      if active && |states| != n {
        active, result, lost := false, Some(Failed), true;
      }
      var activeShards := 0;
      for k := 0 to |states|
        invariant activeShards > 0 <==> exists j :: 0 <= j < k && states[j].active
      {
        if states[k].active {
          activeShards := activeShards + 1;
        }
      }
      if active {
        active := activeShards > 0;
      }
      if !active && abort {
        result := Some(Aborted);
      }
      if !active && result.None? {
        var unsuccessful := 0;
        for k := 0 to |states|
          invariant unsuccessful > 0 <==> exists j :: 0 <= j < k && states[j].result != Some(Succeeded)
        {
          if states[k].result != Some(Succeeded) {
            unsuccessful := unsuccessful + 1;
          }
        }
        result := Some(if unsuccessful > 0 then Failed else Succeeded);
      }
      Aggregate(states);
    }

    method Aggregate(states: seq<ShardState>)
      modifies `counters
      ensures counters == SumCounters(states)
    {
      counters := map[];
      for k := 0 to |states|
        invariant counters == SumCounters(states[..k])
      {
        assert states[..k + 1][..k] == states[..k];
        counters := AddAll(counters, states[k].counters);
      }
      assert states[..|states|] == states;
    }
  }

  // ----- MapperWorkerCallbackHandler.handle: the scan -----

  /** A worker's copy after one more item. */
  function NextItem(w: Worker): (v: Worker)
    requires w.pos < |w.reader|
    ensures v.reader == w.reader && v.pos == w.pos + 1
  {
    w.(pos := w.pos + 1, pending := w.pending + {w.reader[w.pos]}, local := w.local.(counters := Increment(w.local.counters, CALLS, 1)))
  }

  /** A worker's copy after k more items. */
  function AfterItems(w: Worker, k: nat): (v: Worker)
    requires w.pos + k <= |w.reader|
    ensures v.reader == w.reader && v.pos == w.pos + k
  {
    if k == 0 then w else NextItem(AfterItems(w, k - 1))
  }

  lemma {:induction false} AfterItemsIs(w: Worker, k: nat)
    requires w.pos + k <= |w.reader|
    ensures var v := AfterItems(w, k);
            && v.pos == w.pos + k && v.reader == w.reader && v.shard == w.shard && v.slice == w.slice && v.phase == w.phase
            && v.local.active == w.local.active && v.local.result == w.local.result
            && Get(v.local.counters, CALLS) == Get(w.local.counters, CALLS) + k
            && forall x :: x in v.pending <==> x in w.pending || x in w.reader[w.pos..w.pos + k]
  {
    if k > 0 {
      AfterItemsIs(w, k - 1);
      OneLonger(w.reader, w.pos, w.pos + k - 1);
    }
  }

  lemma OneLonger(reader: seq<Item>, from: nat, to: nat)
    requires from <= to < |reader|
    ensures forall x :: x in reader[from..to + 1] <==> x in reader[from..to] || x == reader[to]
  {
    assert reader[from..to + 1] == reader[from..to] + [reader[to]];
  }

  function Items(id: nat, k: nat): seq<Step> {
    if k == 0 then [] else Items(id, k - 1) + [WorkerItem(id)]
  }

  lemma OneItem(n: nat, s: System, id: nat)
    requires Shape(n, s) && Enabled(n, s, WorkerItem(id))
    ensures Perform(n, s, [WorkerItem(id)]) == Some(s.(workers := s.workers[id := NextItem(s.workers[id])]))
  {
    hide Increment, ApplyJob, ApplyController;
    assert [WorkerItem(id)][1..] == [];
    assert Perform(n, Apply(n, s, WorkerItem(id)), []) == Some(Apply(n, s, WorkerItem(id)));
  }

  /** The items one execution scans are so many steps of the protocol, if nobody else steps in between. */
  lemma {:induction false} ItemsAreSteps(n: nat, s: System, id: nat, k: nat)
    requires Shape(n, s) && id in s.workers
    requires s.workers[id].phase == Scanning && s.workers[id].shard < n && s.workers[id].pos + k <= |s.workers[id].reader|
    ensures Perform(n, s, Items(id, k)) == Some(s.(workers := s.workers[id := AfterItems(s.workers[id], k)]))
  {
    hide Increment, Apply, Perform, NextItem;
    if k > 0 {
      ItemsAreSteps(n, s, id, k - 1);
      AfterItemsIs(s.workers[id], k - 1);
      PerformInParts(n, s, Items(id, k - 1), [WorkerItem(id)]);
      var mid := s.(workers := s.workers[id := AfterItems(s.workers[id], k - 1)]);
      OneItem(n, mid, id);
      assert mid.workers[id := AfterItems(s.workers[id], k)] == s.workers[id := AfterItems(s.workers[id], k)];
    } else {
      NoStep(n, s);
      assert s.workers[id := s.workers[id]] == s.workers;
    }
  }

  lemma NoStep(n: nat, s: System)
    requires Shape(n, s)
    ensures Perform(n, s, []) == Some(s)
  {}

  /** The shard state and the input reader of one execution. */
  class Slice {
    var copy: Worker

    constructor (copy: Worker)
      ensures this.copy == copy
    {
      this.copy := copy;
    }

    /**
     The loop over the reader: mayStart tells whether there is quota for a first item, mayGoOn after each item whether
     quota and time are left. The scan ends at the end of the input, which marks the shard successful, or is aborted
     before or after some item.
     */
    method Scan(mayStart: bool, mayGoOn: nat -> bool) returns (scanned: nat, scanAborted: bool)
      requires copy.pos <= |copy.reader|
      modifies this
      ensures old(copy).pos + scanned <= |old(copy).reader|
      ensures !scanAborted <==> mayStart && old(copy).pos + scanned == |old(copy).reader|
                                && forall k :: old(copy).pos < k <= |old(copy).reader| ==> mayGoOn(k)
      ensures !mayStart ==> scanned == 0
      ensures forall k :: old(copy).pos < k < old(copy).pos + scanned ==> mayGoOn(k)
      ensures copy == var v := AfterItems(old(copy), scanned);
                      if scanAborted then v else v.(local := v.local.(active := false, result := Some(Succeeded)))
    {
      hide NextItem;
      scanned, scanAborted := 0, !mayStart;
      while copy.pos < |copy.reader| && !scanAborted
        invariant copy.pos == old(copy).pos + scanned <= |copy.reader| && copy.reader == old(copy).reader
        invariant copy == AfterItems(old(copy), scanned)
        invariant !mayStart ==> scanned == 0 && scanAborted
        invariant forall k :: old(copy).pos < k < copy.pos ==> mayGoOn(k)
        invariant scanAborted <==> !mayStart || exists k :: old(copy).pos < k <= copy.pos && !mayGoOn(k)
        decreases |copy.reader| - copy.pos, !scanAborted
      {
        copy := NextItem(copy);
        scanned := scanned + 1;
        scanAborted := !mayGoOn(copy.pos);
      }
      if !scanAborted {
        copy := copy.(local := copy.local.(active := false, result := Some(Succeeded)));
      }
    }
  }
}
