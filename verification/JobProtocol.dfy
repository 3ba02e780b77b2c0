/**
 The worker, controller and kickoff tasks of one job (server/mapreduce/handlers.py, server/mapreduce/model.py) as a
 transition system. Every datastore call is a step of its own. A queued task may be executed any number
 of times, also at once, because tasks are never taken off the queue; an execution that crashes is one that takes
 no further step. The slice deadline and the quota may end a scan anywhere.
 */
module JobProtocol {
  import opened Wrappers
  import opened Counters

  datatype Status = Succeeded | Failed | Aborted

  // The ShardState entity and the MapreduceState entity.
  datatype ShardState = ShardState(active: bool, result: Option<Status>, counters: CounterValues)
  datatype JobState = JobState(active: bool, result: Option<Status>, counters: CounterValues)

  // An input item, identified by number.
  type Item = nat

  // The payload of a worker task: an input reader, as the items it yields, and its position.
  datatype Task = Task(reader: seq<Item>, pos: nat)

  // An execution of a worker task: its copy of the shard state, its reader and position, unflushed items.
  datatype Phase = AbortSeen | Scanning | Flushed | Committed
  datatype Worker = Worker(shard: nat, slice: nat, reader: seq<Item>, pos: nat, local: ShardState, pending: set<Item>, phase: Phase)

  // An execution of the controller task: what it has read so far.
  datatype Controller = Controller(job: JobState, abort: bool, seen: map<nat, Option<ShardState>>)

  // An execution of the kickoff task, with the readers that its own split_input gave.
  datatype Kickoff = Starting(split: seq<seq<Item>>) | Looked(split: seq<seq<Item>>, existing: set<nat>) | Created(split: seq<seq<Item>>)

  datatype System = System(
    job: JobState,
    abort: bool,                               // the MapreduceControl entity
    shards: seq<Option<ShardState>>,
    queue: seq<map<nat, Task>>,                // per shard: slice number of each named task ever added, to its payload
    flushed: seq<set<Item>>,                   // per shard: the items whose effects are durable
    workers: map<nat, Worker>,
    controllers: map<nat, Controller>,
    kickoffs: map<nat, Kickoff>,
    controllerQueued: bool,
    finalizing: bool)

  datatype Step =
    | AbortJob
    | KickoffStart(id: nat, split: seq<seq<Item>>) | KickoffLook(id: nat) | KickoffCreate(id: nat) | KickoffSchedule(id: nat, shard: nat) | KickoffController(id: nat)
    | WorkerStart(id: nat, shard: nat, slice: nat) | WorkerAbort(id: nat) | WorkerItem(id: nat) | WorkerSpill(id: nat, items: set<Item>)
    | WorkerEnd(id: nat) | WorkerFlush(id: nat) | WorkerCommit(id: nat) | WorkerReschedule(id: nat)
    | ControllerStart(id: nat) | ControllerRead(id: nat, shard: nat) | ControllerWrite(id: nat)
    | Finalize

  const CALLS := "mapper-calls"
  const FRESH := ShardState(true, None, map[])

  /** A job as StartJobHandler leaves it. */
  function Initial(n: nat): System {
    System(JobState(true, None, map[]), false, seq(n, _ => None), seq(n, _ => map[]), seq(n, _ => {}),
           map[], map[], map[], false, false)
  }

  predicate Shape(n: nat, s: System) {
    |s.shards| == |s.queue| == |s.flushed| == n
  }

  predicate Enabled(n: nat, s: System, step: Step)
    requires Shape(n, s)
  {
    match step
    case AbortJob => true
    case KickoffStart(id, split) => id !in s.kickoffs && |split| == n
    case KickoffLook(id) => id in s.kickoffs && s.kickoffs[id].Starting?
    case KickoffCreate(id) => id in s.kickoffs && s.kickoffs[id].Looked?
    case KickoffSchedule(id, i) => id in s.kickoffs && s.kickoffs[id].Created? && i < n && i < |s.kickoffs[id].split|
    case KickoffController(id) => id in s.kickoffs && s.kickoffs[id].Created?
    case WorkerStart(id, i, k) => id !in s.workers && i < n && k in s.queue[i]
    case WorkerAbort(id) => id in s.workers && s.workers[id].phase == AbortSeen && s.workers[id].shard < n
    case WorkerItem(id) =>
      id in s.workers && s.workers[id].phase == Scanning && s.workers[id].shard < n && s.workers[id].pos < |s.workers[id].reader|
    case WorkerSpill(id, items) => id in s.workers && items <= s.workers[id].pending && s.workers[id].shard < n
    case WorkerEnd(id) =>
      id in s.workers && s.workers[id].phase == Scanning && s.workers[id].shard < n && s.workers[id].pos == |s.workers[id].reader|
    case WorkerFlush(id) => id in s.workers && s.workers[id].phase == Scanning && s.workers[id].shard < n
    case WorkerCommit(id) => id in s.workers && s.workers[id].phase == Flushed && s.workers[id].shard < n
    case WorkerReschedule(id) =>
      id in s.workers && s.workers[id].phase == Committed && s.workers[id].local.active && s.workers[id].shard < n
    case ControllerStart(id) => id !in s.controllers && s.controllerQueued
    case ControllerRead(id, i) => id in s.controllers && i < n && i !in s.controllers[id].seen
    case ControllerWrite(id) => id in s.controllers && forall i :: 0 <= i < n ==> i in s.controllers[id].seen
    case Finalize => s.finalizing
  }

  /** _schedule_slice: a task whose name was used before is dropped. */
  function Enqueue(tasks: map<nat, Task>, slice: nat, task: Task): map<nat, Task> {
    if slice in tasks then tasks else tasks[slice := task]
  }

  /** db.get of all shards of the job. */
  function Existing(shards: seq<Option<ShardState>>): (r: set<nat>)
    ensures forall i :: i in r <==> 0 <= i < |shards| && shards[i].Some?
    ensures (forall i :: 0 <= i < |shards| ==> shards[i].None?) ==> r == {}
  {
    set i | 0 <= i < |shards| && shards[i].Some?
  }

  /** db.put of the shards found missing. */
  function CreateMissing(shards: seq<Option<ShardState>>, existing: set<nat>): seq<Option<ShardState>> {
    seq(|shards|, i requires 0 <= i < |shards| => if i in existing then shards[i] else Some(FRESH))
  }

  function Present(n: nat, seen: map<nat, Option<ShardState>>): seq<ShardState>
    requires forall i :: 0 <= i < n ==> i in seen
  {
    if n == 0 then [] else Present(n - 1, seen) + (if seen[n - 1].Some? then [seen[n - 1].value] else [])
  }

  function SumCounters(states: seq<ShardState>): CounterValues {
    if states == [] then map[] else AddAll(SumCounters(states[..|states| - 1]), states[|states| - 1].counters)
  }

  function AddAll(m: CounterValues, other: CounterValues): (r: CounterValues)
    ensures forall name :: Get(r, name) == Get(m, name) + Get(other, name)
  {
    map name | name in m.Keys + other.Keys :: Get(m, name) + Get(other, name)
  }

  /** ControllerCallbackHandler.handle on what it read; also whether it sends the abort command itself. */
  function Decide(n: nat, job: JobState, abort: bool, states: seq<ShardState>): (JobState, bool) {
    var lost := job.active && |states| != n;
    var s1 := if lost then JobState(false, Some(Failed), job.counters) else job;
    var s2 := if s1.active then s1.(active := exists k :: 0 <= k < |states| && states[k].active) else s1;
    var s3 := if !s2.active && abort then s2.(result := Some(Aborted)) else s2;
    var s4 := if !s3.active && s3.result.None? then
                s3.(result := Some(if exists k :: 0 <= k < |states| && states[k].result != Some(Succeeded) then Failed else Succeeded))
              else s3;
    (s4.(counters := SumCounters(states)), lost)
  }

  predicate SameShape(s: System, r: System) {
    |r.shards| == |s.shards| && |r.queue| == |s.queue| && |r.flushed| == |s.flushed|
    && r.controllers == s.controllers && r.kickoffs == s.kickoffs
  }

  /** MapperWorkerCallbackHandler.handle up to the scan. */
  function StartWorker(s: System, id: nat, shard: nat, slice: nat): (r: System)
    requires shard < |s.shards| == |s.queue| && slice in s.queue[shard]
    ensures SameShape(s, r) && r.queue == s.queue
  {
    if s.shards[shard].None? || !s.shards[shard].value.active then s else
      s.(workers := s.workers[id := Worker(shard, slice, s.queue[shard][slice].reader, s.queue[shard][slice].pos, s.shards[shard].value, {},
                                           if s.abort then AbortSeen else Scanning)])
  }

  /** An abort command was read: the stored state is overwritten. */
  function AbortWorker(s: System, id: nat): (r: System)
    requires id in s.workers && s.workers[id].shard < |s.shards|
    ensures SameShape(s, r) && r.queue == s.queue
  {
    var w := s.workers[id];
    s.(shards := s.shards[w.shard := Some(w.local.(active := false, result := Some(Aborted)))], abort := true, workers := s.workers - {id})
  }

  /** A pool that is full writes some items ahead of the flush. */
  function SpillWorker(s: System, id: nat, items: set<Item>): (r: System)
    requires id in s.workers && s.workers[id].shard < |s.flushed|
    ensures SameShape(s, r) && r.queue == s.queue
  {
    var w := s.workers[id];
    s.(flushed := s.flushed[w.shard := s.flushed[w.shard] + items], workers := s.workers[id := w.(pending := w.pending - items)])
  }

  function FlushWorker(s: System, id: nat): (r: System)
    requires id in s.workers && s.workers[id].shard < |s.flushed|
    ensures SameShape(s, r) && r.queue == s.queue
  {
    var w := s.workers[id];
    s.(flushed := s.flushed[w.shard := s.flushed[w.shard] + w.pending], workers := s.workers[id := w.(pending := {}, phase := Flushed)])
  }

  function RescheduleWorker(s: System, id: nat): (r: System)
    requires id in s.workers && s.workers[id].shard < |s.queue|
    ensures SameShape(s, r)
  {
    var w := s.workers[id];
    s.(queue := s.queue[w.shard := Enqueue(s.queue[w.shard], w.slice + 1, Task(w.reader, w.pos))], workers := s.workers - {id})
  }

  /** Its transactional verification: a state found inactive stays as it is and stops the worker. */
  function CommitWorker(s: System, id: nat): (r: System)
    requires id in s.workers && s.workers[id].shard < |s.shards|
    ensures SameShape(s, r) && r.queue == s.queue
  {
    var w := s.workers[id];
    if s.shards[w.shard].None? then s.(workers := s.workers - {id})
    else if !s.shards[w.shard].value.active then
      s.(workers := s.workers[id := w.(local := w.local.(active := false), phase := Committed)])
    else
      s.(shards := s.shards[w.shard := Some(w.local)], workers := s.workers[id := w.(phase := Committed)])
  }

  predicate OfWorker(step: Step) {
    step.WorkerStart? || step.WorkerAbort? || step.WorkerItem? || step.WorkerSpill? || step.WorkerEnd? || step.WorkerFlush?
    || step.WorkerCommit? || step.WorkerReschedule?
  }

  predicate OfController(step: Step) {
    step.ControllerStart? || step.ControllerRead? || step.ControllerWrite?
  }

  predicate OfJob(step: Step) {
    !OfWorker(step) && !OfController(step)
  }

  function ApplyJob(n: nat, s: System, step: Step): (r: System)
    requires Shape(n, s) && Enabled(n, s, step) && OfJob(step)
    ensures Shape(n, r)
  {
    match step
    case AbortJob => s.(abort := true)
    case KickoffStart(id, split) => s.(job := JobState(true, None, map[]), kickoffs := s.kickoffs[id := Starting(split)])
    case KickoffLook(id) => s.(kickoffs := s.kickoffs[id := Looked(s.kickoffs[id].split, Existing(s.shards))])
    case KickoffCreate(id) =>
      var k := s.kickoffs[id];
      s.(shards := CreateMissing(s.shards, k.existing), kickoffs := s.kickoffs[id := Created(k.split)])
    case KickoffSchedule(id, i) => s.(queue := s.queue[i := Enqueue(s.queue[i], 0, Task(s.kickoffs[id].split[i], 0))])
    case KickoffController(id) => s.(controllerQueued := true)
    case Finalize => s.(abort := false, shards := seq(n, _ => None))
  }

  function ApplyWorker(n: nat, s: System, step: Step): (r: System)
    requires Shape(n, s) && Enabled(n, s, step) && OfWorker(step)
    ensures Shape(n, r)
  {
    match step
    case WorkerStart(id, i, k) => StartWorker(s, id, i, k)
    case WorkerAbort(id) => AbortWorker(s, id)
    case WorkerItem(id) =>
      var w := s.workers[id];
      s.(workers := s.workers[id := w.(pos := w.pos + 1, pending := w.pending + {w.reader[w.pos]},
                                       local := w.local.(counters := Increment(w.local.counters, CALLS, 1)))])
    case WorkerSpill(id, items) => SpillWorker(s, id, items)
    case WorkerEnd(id) =>
      var w := s.workers[id];
      s.(workers := s.workers[id := w.(local := w.local.(active := false, result := Some(Succeeded)))])
    case WorkerFlush(id) => FlushWorker(s, id)
    case WorkerCommit(id) => CommitWorker(s, id)
    case WorkerReschedule(id) => RescheduleWorker(s, id)
  }

  function ApplyController(n: nat, s: System, step: Step): (r: System)
    requires Shape(n, s) && Enabled(n, s, step) && OfController(step)
    ensures Shape(n, r)
  {
    match step
    case ControllerStart(id) => s.(controllers := s.controllers[id := Controller(s.job, s.abort, map[])])
    case ControllerRead(id, i) =>
      var c := s.controllers[id];
      s.(controllers := s.controllers[id := c.(seen := c.seen[i := s.shards[i]])])
    case ControllerWrite(id) =>
      var c := s.controllers[id];
      var (job, lost) := Decide(n, c.job, c.abort, Present(n, c.seen));
      s.(job := job, abort := s.abort || lost, controllers := s.controllers - {id}, finalizing := s.finalizing || !job.active)
  }

  function Apply(n: nat, s: System, step: Step): (r: System)
    requires Shape(n, s) && Enabled(n, s, step)
    ensures Shape(n, r)
  {
    if OfWorker(step) then ApplyWorker(n, s, step)
    else if OfController(step) then ApplyController(n, s, step)
    else ApplyJob(n, s, step)
  }

  // ----- the safety invariant -----

  // The reader's items before pos are durable.
  predicate Done(flushed: set<Item>, reader: seq<Item>, pos: nat) {
    pos <= |reader| && forall k :: 0 <= k < pos ==> reader[k] in flushed
  }

  predicate Within(items: set<Item>, reader: seq<Item>) {
    forall x :: x in items ==> x in reader
  }

  predicate HasSucceeded(state: Option<ShardState>) {
    state.Some? && state.value.result == Some(Succeeded)
  }

  // Slice 0 was queued by some kickoff, and every item of its reader is durable.
  predicate DoneAll(tasks: map<nat, Task>, flushed: set<Item>) {
    0 in tasks && Done(flushed, tasks[0].reader, |tasks[0].reader|)
  }

  // A stored shard has a result exactly when it has stopped, and that is never failure.
  predicate ResultFits(state: Option<ShardState>) {
    state.Some? ==> (state.value.active <==> state.value.result.None?) && state.value.result != Some(Failed)
  }

  predicate ShardOk(tasks: map<nat, Task>, flushed: set<Item>, state: Option<ShardState>) {
    (HasSucceeded(state) ==> DoneAll(tasks, flushed)) && ResultFits(state)
  }

  // Every queued payload has the reader of slice 0, and what lies before its position is durable; positions only grow
  // with the slice number; nothing but the reader's items is durable.
  predicate QueueOk(tasks: map<nat, Task>, flushed: set<Item>) {
    && (forall k :: k in tasks ==>
          && 0 in tasks && tasks[k].reader == tasks[0].reader && Done(flushed, tasks[k].reader, tasks[k].pos)
          && (k > 0 ==> k - 1 in tasks && tasks[k - 1].pos <= tasks[k].pos))
    && (flushed != {} ==> 0 in tasks && Within(flushed, tasks[0].reader))
  }

  predicate WorkerOk(tasks: map<nat, Task>, flushed: set<Item>, w: Worker) {
    && w.slice in tasks && tasks[w.slice].pos <= w.pos && 0 in tasks && w.reader == tasks[0].reader
    && Within(w.pending, w.reader) && Done(flushed + w.pending, w.reader, w.pos)
    && (w.phase == Flushed || w.phase == Committed ==> w.pending == {})
    && (w.local.result == Some(Succeeded) ==> Done(flushed + w.pending, w.reader, |w.reader|))
    && w.local.result != Some(Failed) && (w.phase != Committed ==> (w.local.active <==> w.local.result.None?))
  }

  ghost predicate AllHandled(s: System) {
    |s.queue| == |s.flushed| && forall i :: 0 <= i < |s.queue| ==> DoneAll(s.queue[i], s.flushed[i])
  }

  ghost predicate JobOk(s: System, job: JobState) {
    && (job.active <==> job.result.None?)
    && (job.result == Some(Succeeded) ==> AllHandled(s))
  }

  ghost predicate ShardsOk(s: System)
    requires |s.shards| == |s.queue| == |s.flushed|
  {
    forall i :: 0 <= i < |s.shards| ==> ShardOk(s.queue[i], s.flushed[i], s.shards[i])
  }

  ghost predicate QueuesOk(s: System)
    requires |s.queue| == |s.flushed|
  {
    forall i :: 0 <= i < |s.queue| ==> QueueOk(s.queue[i], s.flushed[i])
  }

  ghost predicate WorkerFits(s: System, w: Worker)
    requires |s.queue| == |s.flushed|
  {
    w.shard < |s.queue| && WorkerOk(s.queue[w.shard], s.flushed[w.shard], w)
  }

  ghost predicate WorkersOk(s: System)
    requires |s.queue| == |s.flushed|
  {
    forall id :: id in s.workers ==> WorkerFits(s, s.workers[id])
  }

  ghost predicate ControllerOk(s: System, c: Controller)
    requires |s.queue| == |s.flushed|
  {
    JobOk(s, c.job) && forall i :: i in c.seen && i < |s.queue| ==> ShardOk(s.queue[i], s.flushed[i], c.seen[i])
  }

  ghost predicate ControllersOk(s: System)
    requires |s.queue| == |s.flushed|
  {
    forall id :: id in s.controllers ==> ControllerOk(s, s.controllers[id])
  }

  ghost predicate Safe(n: nat, s: System) {
    Shape(n, s) && JobOk(s, s.job) && ShardsOk(s) && QueuesOk(s) && WorkersOk(s) && ControllersOk(s)
  }

  lemma InitialIsSafe(n: nat)
    ensures Safe(n, Initial(n))
  {}

  // ----- what was said of a shard stays true -----

  // More items durable, more slices queued.
  ghost predicate LaterAt(tasks: map<nat, Task>, tasks': map<nat, Task>, flushed: set<Item>, flushed': set<Item>) {
    flushed <= flushed' && forall k :: k in tasks ==> k in tasks' && tasks'[k] == tasks[k]
  }

  ghost predicate Later(s: System, s': System) {
    && |s.queue| == |s'.queue| == |s.flushed| == |s'.flushed|
    && forall i :: 0 <= i < |s.queue| ==> LaterAt(s.queue[i], s'.queue[i], s.flushed[i], s'.flushed[i])
  }

  lemma DoneGrows(flushed: set<Item>, flushed': set<Item>, reader: seq<Item>, pos: nat)
    requires flushed <= flushed' && Done(flushed, reader, pos)
    ensures Done(flushed', reader, pos)
  {}

  lemma DoneNext(flushed: set<Item>, reader: seq<Item>, pos: nat)
    requires Done(flushed, reader, pos) && pos < |reader|
    ensures Done(flushed + {reader[pos]}, reader, pos + 1)
  {}

  lemma LaterShard(tasks: map<nat, Task>, tasks': map<nat, Task>, flushed: set<Item>, flushed': set<Item>, state: Option<ShardState>)
    requires LaterAt(tasks, tasks', flushed, flushed') && ShardOk(tasks, flushed, state)
    ensures ShardOk(tasks', flushed', state)
  {}

  lemma LaterWorker(tasks: map<nat, Task>, tasks': map<nat, Task>, flushed: set<Item>, flushed': set<Item>, w: Worker)
    requires LaterAt(tasks, tasks', flushed, flushed') && WorkerOk(tasks, flushed, w)
    ensures WorkerOk(tasks', flushed', w)
  {
    DoneGrows(flushed + w.pending, flushed' + w.pending, w.reader, w.pos);
    if w.local.result == Some(Succeeded) {
      DoneGrows(flushed + w.pending, flushed' + w.pending, w.reader, |w.reader|);
    }
  }

  lemma LaterJob(s: System, s': System, job: JobState)
    requires Later(s, s') && JobOk(s, job)
    ensures JobOk(s', job)
  {
    if AllHandled(s) {
      forall i | 0 <= i < |s.queue| ensures DoneAll(s'.queue[i], s'.flushed[i]) {
        assert LaterAt(s.queue[i], s'.queue[i], s.flushed[i], s'.flushed[i]);
      }
    }
  }

  lemma LaterController(s: System, s': System, c: Controller)
    requires Later(s, s') && ControllerOk(s, c)
    ensures ControllerOk(s', c)
  {
    hide JobOk, ShardOk, LaterAt;
    LaterJob(s, s', c.job);
    forall i | i in c.seen && i < |s.queue| ensures ShardOk(s'.queue[i], s'.flushed[i], c.seen[i]) {
      LaterShard(s.queue[i], s'.queue[i], s.flushed[i], s'.flushed[i], c.seen[i]);
    }
  }

  // The entities and the other executions are as they were.
  ghost predicate RestKept(s: System, s': System) {
    && s'.job == s.job && s'.shards == s.shards && s'.controllers == s.controllers
  }

  ghost predicate OthersKept(workers: map<nat, Worker>, workers': map<nat, Worker>, id: nat) {
    forall k :: k in workers' && k != id ==> k in workers && workers'[k] == workers[k]
  }

  // A step that makes items durable or queues a slice: what is left to show.
  lemma LaterSafe(n: nat, s: System, s': System, id: nat)
    requires Safe(n, s) && Later(s, s') && RestKept(s, s') && OthersKept(s.workers, s'.workers, id)
    requires QueuesOk(s') && (id in s'.workers ==> WorkerFits(s', s'.workers[id]))
    ensures Safe(n, s')
  {
    hide WorkerOk, QueueOk, ShardOk, JobOk, ControllerOk, LaterAt, QueuesOk;
    LaterJob(s, s', s.job);
    forall i | 0 <= i < n ensures ShardOk(s'.queue[i], s'.flushed[i], s'.shards[i]) {
      LaterShard(s.queue[i], s'.queue[i], s.flushed[i], s'.flushed[i], s.shards[i]);
    }
    forall k | k in s'.workers ensures WorkerFits(s', s'.workers[k]) {
      if k != id {
        var w := s.workers[k];
        assert WorkerFits(s, w);
        LaterWorker(s.queue[w.shard], s'.queue[w.shard], s.flushed[w.shard], s'.flushed[w.shard], w);
      }
    }
    forall k | k in s'.controllers ensures ControllerOk(s', s'.controllers[k]) {
      assert ControllerOk(s, s.controllers[k]);
      LaterController(s, s', s.controllers[k]);
    }
  }

  // ----- steps that leave queue and durable items alone -----

  ghost predicate SameLog(s: System, s': System) {
    s'.queue == s.queue && s'.flushed == s.flushed
  }

  lemma SameLogIsLater(s: System, s': System)
    requires |s.queue| == |s.flushed| && SameLog(s, s')
    ensures Later(s, s')
  {}

  lemma SameQueues(s: System, s': System)
    requires |s.queue| == |s.flushed| && QueuesOk(s) && SameLog(s, s')
    ensures QueuesOk(s')
  {}

  lemma SameJob(s: System, s': System, job: JobState)
    requires JobOk(s, job) && SameLog(s, s')
    ensures JobOk(s', job)
  {}

  lemma SameWorkers(s: System, s': System)
    requires |s.queue| == |s.flushed| && WorkersOk(s) && SameLog(s, s')
    requires forall id :: id in s'.workers ==> id in s.workers && s'.workers[id] == s.workers[id]
    ensures WorkersOk(s')
  {
    hide WorkerOk;
    forall id | id in s'.workers ensures WorkerFits(s', s'.workers[id]) { assert WorkerFits(s, s.workers[id]); }
  }

  lemma SameControllers(s: System, s': System)
    requires |s.queue| == |s.flushed| && ControllersOk(s) && SameLog(s, s')
    requires forall id :: id in s'.controllers ==> id in s.controllers && s'.controllers[id] == s.controllers[id]
    ensures ControllersOk(s')
  {
    hide ControllerOk, JobOk, Later;
    SameLogIsLater(s, s');
    forall id | id in s'.controllers ensures ControllerOk(s', s'.controllers[id]) {
      assert ControllerOk(s, s.controllers[id]);
      LaterController(s, s', s.controllers[id]);
    }
  }

  ghost predicate IsKickoff(step: Step) {
    step.AbortJob? || step.KickoffStart? || step.KickoffLook? || step.KickoffCreate? || step.KickoffController? || step.Finalize?
  }

  lemma KickoffFrame(n: nat, s: System, step: Step)
    requires Shape(n, s) && Enabled(n, s, step) && IsKickoff(step)
    ensures var s' := Apply(n, s, step);
            && SameLog(s, s') && s'.workers == s.workers && s'.controllers == s.controllers
            && (s'.job == s.job || s'.job == JobState(true, None, map[]))
            && forall i :: 0 <= i < n ==> s'.shards[i] == s.shards[i] || s'.shards[i] == Some(FRESH) || s'.shards[i].None?
  {
    hide ApplyWorker, ApplyController;
  }

  lemma KickoffSafe(n: nat, s: System, step: Step)
    requires Safe(n, s) && Enabled(n, s, step) && IsKickoff(step)
    ensures Safe(n, Apply(n, s, step))
  {
    hide Apply, Enabled, QueuesOk, WorkersOk, ControllersOk, DoneAll;
    var s' := Apply(n, s, step);
    KickoffFrame(n, s, step);
    SameQueues(s, s');
    SameWorkers(s, s');
    SameControllers(s, s');
  }

  // ----- steps of workers -----

  lemma OneQueue(n: nat, s: System, i: nat)
    requires Safe(n, s) && i < n
    ensures QueueOk(s.queue[i], s.flushed[i])
  {}

  lemma OneShard(n: nat, s: System, i: nat)
    requires Safe(n, s) && i < n
    ensures ShardOk(s.queue[i], s.flushed[i], s.shards[i])
  {}

  lemma OneWorker(n: nat, s: System, id: nat)
    requires Safe(n, s) && id in s.workers
    ensures s.workers[id].shard < n && WorkerOk(s.queue[s.workers[id].shard], s.flushed[s.workers[id].shard], s.workers[id])
  {
    assert WorkerFits(s, s.workers[id]);
  }

  lemma EnqueueOk(tasks: map<nat, Task>, flushed: set<Item>, slice: nat, task: Task)
    requires QueueOk(tasks, flushed) && Done(flushed, task.reader, task.pos)
    requires slice == 0 ==> task.pos == 0
    requires slice > 0 ==> slice - 1 in tasks && 0 in tasks && task.reader == tasks[0].reader && tasks[slice - 1].pos <= task.pos
    requires slice !in tasks ==> slice + 1 !in tasks
    ensures QueueOk(Enqueue(tasks, slice, task), flushed) && LaterAt(tasks, Enqueue(tasks, slice, task), flushed, flushed)
  {}

  lemma ScheduleSafe(n: nat, s: System, i: nat, slice: nat, task: Task, s': System, id: nat)
    requires Safe(n, s) && i < n && Done(s.flushed[i], task.reader, task.pos) && (slice == 0 ==> task.pos == 0)
    requires slice > 0 ==> slice - 1 in s.queue[i] && 0 in s.queue[i] && task.reader == s.queue[i][0].reader
                           && s.queue[i][slice - 1].pos <= task.pos
    requires s'.queue == s.queue[i := Enqueue(s.queue[i], slice, task)] && s'.flushed == s.flushed && RestKept(s, s')
    requires OthersKept(s.workers, s'.workers, id) && (id in s'.workers ==> id in s.workers && s'.workers[id] == s.workers[id])
    ensures Safe(n, s')
  {
    hide Done, JobOk, ControllersOk, ShardsOk, WorkerOk;
    OneQueue(n, s, i);
    EnqueueOk(s.queue[i], s.flushed[i], slice, task);
    hide QueueOk, Enqueue;
    forall j | 0 <= j < n ensures QueueOk(s'.queue[j], s'.flushed[j]) { OneQueue(n, s, j); }
    LaterWhere(s, s', i);
    if id in s'.workers {
      OneWorker(n, s, id);
      var w := s.workers[id];
      LaterWorker(s.queue[w.shard], s'.queue[w.shard], s.flushed[w.shard], s'.flushed[w.shard], w);
    }
    LaterSafe(n, s, s', id);
  }

  // One shard moves on.
  lemma LaterWhere(s: System, s': System, i: nat)
    requires |s.queue| == |s.flushed| == |s'.queue| == |s'.flushed| && i < |s.queue|
    requires LaterAt(s.queue[i], s'.queue[i], s.flushed[i], s'.flushed[i])
    requires forall j :: 0 <= j < |s.queue| && j != i ==> s'.queue[j] == s.queue[j] && s'.flushed[j] == s.flushed[j]
    ensures Later(s, s')
  {}

  // Some pending items become durable.
  lemma FlushedQueue(tasks: map<nat, Task>, flushed: set<Item>, w: Worker, items: set<Item>)
    requires QueueOk(tasks, flushed) && WorkerOk(tasks, flushed, w) && items <= w.pending
    ensures QueueOk(tasks, flushed + items) && LaterAt(tasks, tasks, flushed, flushed + items)
  {
    forall k | k in tasks ensures Done(flushed + items, tasks[k].reader, tasks[k].pos) {
      DoneGrows(flushed, flushed + items, tasks[k].reader, tasks[k].pos);
    }
  }

  lemma FlushedWorker(tasks: map<nat, Task>, flushed: set<Item>, w: Worker, items: set<Item>, w': Worker)
    requires WorkerOk(tasks, flushed, w) && items <= w.pending && w' == w.(pending := w.pending - items, phase := w'.phase)
    requires w'.phase == w.phase || (w.phase == Scanning && w'.phase == Flushed && items == w.pending)
    ensures WorkerOk(tasks, flushed + items, w')
  {
    assert (flushed + items) + (w.pending - items) == flushed + w.pending;
  }

  lemma FlushFrame(n: nat, s: System, step: Step)
    requires Shape(n, s) && Enabled(n, s, step) && (step.WorkerSpill? || step.WorkerFlush?)
    ensures var s', w := Apply(n, s, step), s.workers[step.id];
            var items := if step.WorkerSpill? then step.items else w.pending;
            && w.shard < n && items <= w.pending
            && s'.queue == s.queue && s'.flushed == s.flushed[w.shard := s.flushed[w.shard] + items] && RestKept(s, s')
            && OthersKept(s.workers, s'.workers, step.id) && step.id in s'.workers
            && s'.workers[step.id] == w.(pending := w.pending - items, phase := s'.workers[step.id].phase)
            && s'.workers[step.id].phase == (if step.WorkerSpill? then w.phase else Flushed)
            && (step.WorkerFlush? ==> w.phase == Scanning)
  {
    hide ApplyJob, ApplyController;
    var w := s.workers[step.id];
    assert w.pending - w.pending == {};
  }

  lemma FlushingSafe(n: nat, s: System, step: Step)
    requires Safe(n, s) && Enabled(n, s, step) && (step.WorkerSpill? || step.WorkerFlush?)
    ensures Safe(n, Apply(n, s, step))
  {
    hide Apply, JobOk, ControllersOk, ShardsOk, WorkersOk, OthersKept, WorkerOk, QueueOk;
    var s' := Apply(n, s, step);
    FlushFrame(n, s, step);
    var w := s.workers[step.id];
    var items := if step.WorkerSpill? then step.items else w.pending;
    OneWorker(n, s, step.id);
    OneQueue(n, s, w.shard);
    FlushedQueue(s.queue[w.shard], s.flushed[w.shard], w, items);
    FlushedWorker(s.queue[w.shard], s.flushed[w.shard], w, items, s'.workers[step.id]);
    forall j | 0 <= j < n ensures QueueOk(s'.queue[j], s'.flushed[j]) { OneQueue(n, s, j); }
    LaterWhere(s, s', w.shard);
    LaterSafe(n, s, s', step.id);
  }

  // Steps of one worker that leave queue and durable items alone.
  ghost predicate IsWorkerStep(step: Step) {
    step.WorkerStart? || step.WorkerAbort? || step.WorkerItem? || step.WorkerEnd? || step.WorkerCommit?
  }

  ghost predicate OnlyWorker(s: System, s': System, id: nat) {
    s'.job == s.job && SameLog(s, s') && s'.controllers == s.controllers && OthersKept(s.workers, s'.workers, id)
  }

  lemma ChangeOne(workers: map<nat, Worker>, id: nat, w: Worker)
    ensures OthersKept(workers, workers[id := w], id) && OthersKept(workers, workers - {id}, id) && OthersKept(workers, workers, id)
  {}

  lemma CommitFrame(s: System, id: nat)
    requires id in s.workers && s.workers[id].shard < |s.shards|
    ensures OnlyWorker(s, CommitWorker(s, id), id)
  {
    hide OthersKept;
    var w, s' := s.workers[id], CommitWorker(s, id);
    if id in s'.workers {
      ChangeOne(s.workers, id, s'.workers[id]);
      assert s'.workers == s.workers[id := s'.workers[id]];
    } else {
      ChangeOne(s.workers, id, w);
    }
  }

  lemma WriteFrame(n: nat, s: System, step: Step)
    requires Shape(n, s) && Enabled(n, s, step) && (step.WorkerAbort? || step.WorkerCommit?)
    ensures OnlyWorker(s, Apply(n, s, step), step.id)
    ensures step.WorkerAbort? ==> step.id !in Apply(n, s, step).workers
  {
    hide ApplyJob, ApplyController, OthersKept, CommitWorker;
    if step.WorkerCommit? {
      CommitFrame(s, step.id);
    } else {
      ChangeOne(s.workers, step.id, s.workers[step.id]);
    }
  }

  lemma ScanFrame(n: nat, s: System, step: Step)
    requires Shape(n, s) && Enabled(n, s, step) && (step.WorkerStart? || step.WorkerItem? || step.WorkerEnd?)
    ensures OnlyWorker(s, Apply(n, s, step), step.id) && Apply(n, s, step).shards == s.shards
  {
    hide ApplyJob, ApplyController, Increment, OthersKept;
    var s' := Apply(n, s, step);
    if s' != s {
      ChangeOne(s.workers, step.id, s'.workers[step.id]);
    } else {
      ChangeOne(s.workers, step.id, NOBODY);
    }
  }

  const NOBODY := Worker(0, 0, [], 0, FRESH, {}, Scanning)

  lemma WorkerStartOk(n: nat, s: System, step: Step)
    requires Safe(n, s) && Enabled(n, s, step) && step.WorkerStart? && Apply(n, s, step) != s
    ensures var s' := Apply(n, s, step); step.id in s'.workers && WorkerFits(s', s'.workers[step.id])
  {
    hide ApplyJob, ApplyController, QueuesOk, JobOk, ControllersOk, WorkersOk, ShardsOk;
    OneQueue(n, s, step.shard);
    OneShard(n, s, step.shard);
    assert s.flushed[step.shard] + {} == s.flushed[step.shard];
  }

  lemma ItemOk(tasks: map<nat, Task>, flushed: set<Item>, w: Worker, counters: CounterValues)
    requires WorkerOk(tasks, flushed, w) && w.pos < |w.reader| && w.phase == Scanning
    ensures WorkerOk(tasks, flushed, w.(pos := w.pos + 1, pending := w.pending + {w.reader[w.pos]},
                                        local := w.local.(counters := counters)))
  {
    hide Done;
    var all, grown := flushed + w.pending, flushed + (w.pending + {w.reader[w.pos]});
    assert grown == all + {w.reader[w.pos]};
    DoneNext(all, w.reader, w.pos);
    if w.local.result == Some(Succeeded) {
      DoneGrows(all, grown, w.reader, |w.reader|);
    }
  }

  lemma WorkerItemOk(n: nat, s: System, step: Step)
    requires Safe(n, s) && Enabled(n, s, step) && step.WorkerItem?
    ensures var s' := Apply(n, s, step); step.id in s'.workers && WorkerFits(s', s'.workers[step.id])
  {
    hide ApplyJob, ApplyController, QueuesOk, JobOk, ControllersOk, WorkersOk, ShardsOk, WorkerOk, Increment;
    OneWorker(n, s, step.id);
    var w := s.workers[step.id];
    ItemOk(s.queue[w.shard], s.flushed[w.shard], w, Increment(w.local.counters, CALLS, 1));
  }

  lemma EndedOk(tasks: map<nat, Task>, flushed: set<Item>, w: Worker)
    requires WorkerOk(tasks, flushed, w) && w.pos == |w.reader| && w.phase == Scanning
    ensures WorkerOk(tasks, flushed, w.(local := w.local.(active := false, result := Some(Succeeded))))
  {
    hide Done, Within;
  }

  lemma CommittedOk(tasks: map<nat, Task>, flushed: set<Item>, w: Worker)
    requires WorkerOk(tasks, flushed, w) && w.phase == Flushed
    ensures WorkerOk(tasks, flushed, w.(phase := Committed))
    ensures WorkerOk(tasks, flushed, w.(local := w.local.(active := false), phase := Committed))
  {
    hide Done, Within;
  }

  lemma WorkerCopyOk(n: nat, s: System, step: Step)
    requires Safe(n, s) && Enabled(n, s, step) && (step.WorkerEnd? || step.WorkerCommit?)
    ensures var s' := Apply(n, s, step); step.id in s'.workers ==> WorkerFits(s', s'.workers[step.id])
  {
    hide ApplyJob, ApplyController, QueuesOk, JobOk, ControllersOk, WorkersOk, ShardsOk, WorkerOk;
    OneWorker(n, s, step.id);
    var w := s.workers[step.id];
    if step.WorkerEnd? {
      EndedOk(s.queue[w.shard], s.flushed[w.shard], w);
    } else {
      CommittedOk(s.queue[w.shard], s.flushed[w.shard], w);
    }
  }

  // What a worker writes over its shard's state.
  lemma WrittenOk(tasks: map<nat, Task>, flushed: set<Item>, w: Worker)
    requires WorkerOk(tasks, flushed, w)
    ensures ShardOk(tasks, flushed, Some(w.local.(active := false, result := Some(Aborted))))
    ensures w.phase == Flushed ==> ShardOk(tasks, flushed, Some(w.local))
  {
    hide Done;
    if w.pending == {} {
      assert flushed + {} == flushed;
    }
  }

  lemma WorkerWritesOk(n: nat, s: System, step: Step)
    requires Safe(n, s) && Enabled(n, s, step) && (step.WorkerAbort? || step.WorkerCommit?)
    ensures ShardsOk(Apply(n, s, step))
  {
    hide ApplyJob, ApplyController, QueuesOk, JobOk, ControllersOk, WorkersOk, WorkerOk, ShardOk;
    OneWorker(n, s, step.id);
    WrittenOk(s.queue[s.workers[step.id].shard], s.flushed[s.workers[step.id].shard], s.workers[step.id]);
  }

  lemma OneWorkerSafe(n: nat, s: System, s': System, id: nat)
    requires Safe(n, s) && OnlyWorker(s, s', id) && |s'.shards| == n && ShardsOk(s')
    requires id in s'.workers ==> WorkerFits(s', s'.workers[id])
    ensures Safe(n, s')
  {
    hide WorkerOk, QueuesOk, ShardsOk, JobOk, ControllersOk;
    SameQueues(s, s');
    SameControllers(s, s');
    SameJob(s, s', s.job);
    forall k | k in s'.workers ensures WorkerFits(s', s'.workers[k]) {
      if k != id { assert WorkerFits(s, s.workers[k]); }
    }
  }

  lemma SameShards(s: System, s': System)
    requires |s.shards| == |s.queue| == |s.flushed| && ShardsOk(s) && s'.shards == s.shards && SameLog(s, s')
    ensures ShardsOk(s')
  {}

  lemma WorkerSafe(n: nat, s: System, step: Step)
    requires Safe(n, s) && Enabled(n, s, step) && IsWorkerStep(step)
    ensures Safe(n, Apply(n, s, step))
  {
    hide Apply, ShardsOk, QueuesOk, WorkersOk, WorkerFits, JobOk, ControllersOk, Enabled;
    var s' := Apply(n, s, step);
    if s' != s {
      if step.WorkerAbort? || step.WorkerCommit? {
        WriteFrame(n, s, step);
        WorkerWritesOk(n, s, step);
      } else {
        ScanFrame(n, s, step);
        SameShards(s, s');
      }
      if step.WorkerStart? {
        WorkerStartOk(n, s, step);
      } else if step.WorkerItem? {
        WorkerItemOk(n, s, step);
      } else if !step.WorkerAbort? {
        WorkerCopyOk(n, s, step);
      }
      OneWorkerSafe(n, s, s', step.id);
    }
  }

  // ----- the controller's decision -----

  lemma {:induction false} PresentFacts(n: nat, seen: map<nat, Option<ShardState>>)
    requires forall i :: 0 <= i < n ==> i in seen
    ensures |Present(n, seen)| <= n
    ensures |Present(n, seen)| == n ==> forall i :: 0 <= i < n ==> seen[i] == Some(Present(n, seen)[i])
    ensures (forall i :: 0 <= i < n ==> seen[i].Some?) ==> |Present(n, seen)| == n
  {
    if n > 0 {
      PresentFacts(n - 1, seen);
    }
  }

  predicate AllSucceeded(n: nat, seen: map<nat, Option<ShardState>>)
    requires forall i :: 0 <= i < n ==> i in seen
  {
    forall i :: 0 <= i < n ==> seen[i].Some? && !seen[i].value.active && seen[i].value.result == Some(Succeeded)
  }

  predicate SomeMissing(n: nat, seen: map<nat, Option<ShardState>>)
    requires forall i :: 0 <= i < n ==> i in seen
  {
    exists i :: 0 <= i < n && seen[i].None?
  }

  predicate SomeActive(n: nat, seen: map<nat, Option<ShardState>>)
    requires forall i :: 0 <= i < n ==> i in seen
  {
    exists i :: 0 <= i < n && seen[i].Some? && seen[i].value.active
  }

  /**
   What a controller makes of what it read. A job stays active while no shard is missing and some shard works; it
   ends aborted if an abort command was read, else in success exactly if every shard was present, stopped and
   successful, else in failure; a job that had ended keeps its result unless aborted. Only a loss aborts the shards.
   */
  lemma ControllerDecides(n: nat, job: JobState, abort: bool, seen: map<nat, Option<ShardState>>)
    requires (job.active <==> job.result.None?) && forall i :: 0 <= i < n ==> i in seen
    ensures var (next, lost) := Decide(n, job, abort, Present(n, seen));
            && (next.active <==> job.active && !SomeMissing(n, seen) && SomeActive(n, seen))
            && (lost <==> job.active && SomeMissing(n, seen))
            && next.result == (if next.active then None
                               else if abort then Some(Aborted)
                               else if !job.active then job.result
                               else Some(if AllSucceeded(n, seen) then Succeeded else Failed))
  {
    hide SumCounters;
    PresentFacts(n, seen);
    var states := Present(n, seen);
    if |states| == n {
      assert forall i :: 0 <= i < n ==> seen[i].Some? && seen[i].value == states[i];
    } else {
      assert SomeMissing(n, seen);
    }
  }

  /** The counters it writes are the pointwise sum over the shards it saw. */
  lemma {:induction false} ControllerCounters(states: seq<ShardState>, values: seq<CounterValues>)
    requires |values| == |states| && forall k :: 0 <= k < |states| ==> values[k] == states[k].counters
    ensures IsTotal(SumCounters(states), values)
  {
    if states != [] {
      ControllerCounters(states[..|states| - 1], values[..|values| - 1]);
    }
  }

  lemma DecideOk(n: nat, s: System, c: Controller)
    requires Shape(n, s) && ControllerOk(s, c) && forall i :: 0 <= i < n ==> i in c.seen
    ensures JobOk(s, Decide(n, c.job, c.abort, Present(n, c.seen)).0)
  {
    hide Decide, DoneAll;
    ControllerDecides(n, c.job, c.abort, c.seen);
  }

  /**
   A controller ends a job in failure exactly if it read no abort command and saw a shard missing, or saw all shards
   stopped and some of them aborted.
   */
  lemma ControllerFails(n: nat, job: JobState, abort: bool, seen: map<nat, Option<ShardState>>)
    requires job.active && job.result.None? && forall i :: 0 <= i < n ==> i in seen
    requires forall i :: 0 <= i < n ==> ResultFits(seen[i])
    ensures Decide(n, job, abort, Present(n, seen)).0.result == Some(Failed) <==>
              !abort && (SomeMissing(n, seen) || (!SomeActive(n, seen) && SomeAborted(n, seen)))
  {
    hide Decide;
    ControllerDecides(n, job, abort, seen);
    forall i | 0 <= i < n && seen[i].Some?
      ensures seen[i].value.active || HasSucceeded(seen[i]) || seen[i].value.result == Some(Aborted)
    {
      StoppedResult(seen[i]);
    }
  }

  lemma StoppedResult(state: Option<ShardState>)
    requires ResultFits(state) && state.Some?
    ensures state.value.result == if state.value.active then None else if HasSucceeded(state) then Some(Succeeded) else Some(Aborted)
  {
    match state.value.result
    case None =>
    case Some(Succeeded) =>
    case Some(Failed) =>
    case Some(Aborted) =>
  }

  predicate SomeAborted(n: nat, seen: map<nat, Option<ShardState>>)
    requires forall i :: 0 <= i < n ==> i in seen
  {
    exists i :: 0 <= i < n && seen[i].Some? && seen[i].value.result == Some(Aborted)
  }

  lemma ControllerFrame(n: nat, s: System, step: Step)
    requires Shape(n, s) && Enabled(n, s, step) && OfController(step)
    ensures var s' := Apply(n, s, step);
            && SameLog(s, s') && s'.workers == s.workers && s'.shards == s.shards
            && (!step.ControllerWrite? ==> s'.job == s.job)
            && (step.ControllerWrite? ==> s'.job == Decide(n, s.controllers[step.id].job, s.controllers[step.id].abort,
                                                          Present(n, s.controllers[step.id].seen)).0)
  {
    hide ApplyJob, ApplyWorker, Decide;
  }

  lemma ControllerReadsOk(n: nat, s: System, step: Step)
    requires Safe(n, s) && Enabled(n, s, step) && OfController(step)
    ensures ControllersOk(Apply(n, s, step))
  {
    hide ApplyJob, ApplyWorker, QueuesOk, JobOk, WorkersOk, ShardOk, Decide;
    var s' := Apply(n, s, step);
    forall id | id in s'.controllers ensures ControllerOk(s', s'.controllers[id]) {
      if id in s.controllers {
        assert ControllerOk(s, s.controllers[id]);
        SameJob(s, s', s.controllers[id].job);
      } else {
        SameJob(s, s', s.job);
      }
      if step.ControllerRead? && id == step.id {
        OneShard(n, s, step.shard);
      }
    }
  }

  lemma ControllerSafe(n: nat, s: System, step: Step)
    requires Safe(n, s) && Enabled(n, s, step) && OfController(step)
    ensures Safe(n, Apply(n, s, step))
  {
    hide Apply, QueuesOk, JobOk, WorkersOk, ShardsOk, Decide;
    var s' := Apply(n, s, step);
    ControllerFrame(n, s, step);
    SameQueues(s, s');
    SameWorkers(s, s');
    SameShards(s, s');
    ControllerReadsOk(n, s, step);
    if step.ControllerWrite? {
      assert ControllerOk(s, s.controllers[step.id]);
      DecideOk(n, s, s.controllers[step.id]);
      SameJob(s, s', s'.job);
    } else {
      SameJob(s, s', s.job);
    }
  }

  lemma QueueSafe(n: nat, s: System, step: Step)
    requires Safe(n, s) && Enabled(n, s, step) && (step.KickoffSchedule? || step.WorkerReschedule?)
    ensures Safe(n, Apply(n, s, step))
  {
    hide ApplyController, QueuesOk, JobOk, ControllersOk, ShardsOk, Decide, Enqueue;
    var s' := Apply(n, s, step);
    if step.KickoffSchedule? {
      ScheduleSafe(n, s, step.shard, 0, Task(s.kickoffs[step.id].split[step.shard], 0), s', step.id);
    } else {
      OneWorker(n, s, step.id);
      var w := s.workers[step.id];
      assert s.flushed[w.shard] + {} == s.flushed[w.shard];
      ScheduleSafe(n, s, w.shard, w.slice + 1, Task(w.reader, w.pos), s', step.id);
    }
  }

  /** Every step of every task keeps the invariant, whatever the others are doing. */
  lemma StepIsSafe(n: nat, s: System, step: Step)
    requires Safe(n, s) && Enabled(n, s, step)
    ensures Safe(n, Apply(n, s, step))
  {
    hide Safe, Apply, Enabled;
    if IsKickoff(step) {
      KickoffSafe(n, s, step);
    } else if step.KickoffSchedule? || step.WorkerReschedule? {
      QueueSafe(n, s, step);
    } else if step.WorkerSpill? || step.WorkerFlush? {
      FlushingSafe(n, s, step);
    } else if OfController(step) {
      ControllerSafe(n, s, step);
    } else {
      WorkerSafe(n, s, step);
    }
  }

  // ----- runs -----

  ghost predicate IsRun(n: nat, run: seq<System>, steps: seq<Step>) {
    && |run| == |steps| + 1 && run[0] == Initial(n)
    && forall k :: 0 <= k < |steps| ==>
         && Shape(n, run[k])
         && Enabled(n, run[k], steps[k]) && run[k + 1] == Apply(n, run[k], steps[k])
  }

  lemma {:induction false} RunIsSafe(n: nat, run: seq<System>, steps: seq<Step>, k: nat)
    requires IsRun(n, run, steps) && k < |run|
    ensures Safe(n, run[k])
  {
    hide Safe, Apply, Enabled;
    if k == 0 {
      InitialIsSafe(n);
    } else {
      RunIsSafe(n, run, steps, k - 1);
      StepIsSafe(n, run[k - 1], steps[k - 1]);
    }
  }

  /** The reader that a shard works with: the one of whichever kickoff queued its slice 0 first. */
  function Winner(s: System, i: nat): seq<Item>
    requires i < |s.queue|
  {
    if 0 in s.queue[i] then s.queue[i][0].reader else []
  }

  /**
   In every run, with crashes, retries, duplicate and overlapping executions of every task, and kickoffs that split
   differently: a queued slice has the winning reader of its shard and starts behind durable items only, a shard stored
   as successful has had every item of that reader handled, and so has every shard of a job stored as successful.
   */
  lemma SuccessMeansHandled(n: nat, run: seq<System>, steps: seq<Step>, k: nat)
    requires IsRun(n, run, steps) && k < |run|
    ensures Shape(n, run[k])
    ensures forall i, slice :: 0 <= i < n && slice in run[k].queue[i] ==>
              && run[k].queue[i][slice].reader == Winner(run[k], i)
              && Done(run[k].flushed[i], Winner(run[k], i), run[k].queue[i][slice].pos)
    ensures forall i :: 0 <= i < n && HasSucceeded(run[k].shards[i]) ==>
              Done(run[k].flushed[i], Winner(run[k], i), |Winner(run[k], i)|)
    ensures run[k].job.result == Some(Succeeded) ==>
              forall i :: 0 <= i < n ==> Done(run[k].flushed[i], Winner(run[k], i), |Winner(run[k], i)|)
  {
    RunIsSafe(n, run, steps, k);
    var s := run[k];
    assert forall i :: 0 <= i < n ==> QueueOk(s.queue[i], s.flushed[i]) && ShardOk(s.queue[i], s.flushed[i], s.shards[i]);
  }

  /** Handled: durable for some shard. Covered: yielded by the winning reader of some shard. */
  ghost predicate Handled(s: System, x: Item) {
    exists i :: 0 <= i < |s.flushed| && x in s.flushed[i]
  }

  ghost predicate Covered(s: System, x: Item) {
    exists i :: 0 <= i < |s.queue| && x in Winner(s, i)
  }

  /**
   What a successful job has handled is what the winning readers yield: so it has handled the whole input if and only
   if the readers that won slice 0 cover it.
   */
  lemma SuccessCoversExactly(n: nat, run: seq<System>, steps: seq<Step>, k: nat, input: set<Item>)
    requires IsRun(n, run, steps) && k < |run| && run[k].job.result == Some(Succeeded)
    ensures forall x :: Handled(run[k], x) <==> Covered(run[k], x)
    ensures (forall x :: x in input ==> Handled(run[k], x)) <==> (forall x :: x in input ==> Covered(run[k], x))
  {
    hide Safe, Apply, Enabled;
    RunIsSafe(n, run, steps, k);
    SuccessMeansHandled(n, run, steps, k);
    var s := run[k];
    forall x ensures Handled(s, x) <==> Covered(s, x) {
      if Handled(s, x) {
        var i :| 0 <= i < |s.flushed| && x in s.flushed[i];
        OneQueue(n, s, i);
        assert x in Winner(s, i);
      }
      if Covered(s, x) {
        var i :| 0 <= i < |s.queue| && x in Winner(s, i);
        var p :| 0 <= p < |Winner(s, i)| && Winner(s, i)[p] == x;
        assert x in s.flushed[i];
      }
    }
  }

  // All kickoffs so far had this split, and every slice 0 has its reader.
  ghost predicate SplitIs(s: System, split: seq<seq<Item>>) {
    && |s.queue| == |split|
    && (forall id :: id in s.kickoffs ==> s.kickoffs[id].split == split)
    && (forall i :: 0 <= i < |split| && 0 in s.queue[i] ==> s.queue[i][0].reader == split[i])
  }

  lemma SplitStays(n: nat, s: System, step: Step, split: seq<seq<Item>>)
    requires Shape(n, s) && Enabled(n, s, step) && SplitIs(s, split) && (step.KickoffStart? ==> step.split == split)
    ensures SplitIs(Apply(n, s, step), split)
  {
    hide Decide, Increment, CreateMissing, StartWorker, CommitWorker;
    if OfWorker(step) {
      hide ApplyJob, ApplyController;
      WorkerKeepsSplit(n, s, step, split);
    } else if OfController(step) {
      hide ApplyJob, ApplyWorker;
    } else {
      hide ApplyWorker, ApplyController;
    }
  }

  lemma WorkerKeepsSplit(n: nat, s: System, step: Step, split: seq<seq<Item>>)
    requires Shape(n, s) && Enabled(n, s, step) && SplitIs(s, split) && OfWorker(step)
    ensures SplitIs(ApplyWorker(n, s, step), split)
  {
    hide Increment, SplitIs, CommitWorker, AbortWorker, StartWorker, SpillWorker, FlushWorker, RescheduleWorker;
    if step.WorkerReschedule? {
      RescheduleKeepsSplit(s, step.id, split);
    } else {
      WorkerKeepsQueue(n, s, step);
      SameSplit(s, ApplyWorker(n, s, step), split);
    }
  }

  lemma SameSplit(s: System, s': System, split: seq<seq<Item>>)
    requires SplitIs(s, split) && s'.queue == s.queue && s'.kickoffs == s.kickoffs
    ensures SplitIs(s', split)
  {}

  lemma RescheduleKeepsSplit(s: System, id: nat, split: seq<seq<Item>>)
    requires id in s.workers && s.workers[id].shard < |s.queue| && SplitIs(s, split)
    ensures SplitIs(RescheduleWorker(s, id), split)
  {}

  lemma WorkerKeepsQueue(n: nat, s: System, step: Step)
    requires Shape(n, s) && Enabled(n, s, step) && OfWorker(step) && !step.WorkerReschedule?
    ensures ApplyWorker(n, s, step).queue == s.queue && ApplyWorker(n, s, step).kickoffs == s.kickoffs
  {
    hide Increment, CommitWorker, AbortWorker, StartWorker, SpillWorker, FlushWorker, RescheduleWorker, Enqueue;
  }

  lemma {:induction false} SplitAlways(n: nat, run: seq<System>, steps: seq<Step>, k: nat, split: seq<seq<Item>>)
    requires IsRun(n, run, steps) && k < |run| && |split| == n && forall j :: 0 <= j < |steps| && steps[j].KickoffStart? ==> steps[j].split == split
    ensures SplitIs(run[k], split)
  {
    hide Apply, Enabled;
    if k > 0 {
      SplitAlways(n, run, steps, k - 1, split);
      SplitStays(n, run[k - 1], steps[k - 1], split);
    }
  }

  /** If all kickoffs split alike, a successful job has handled exactly the items of their split. */
  lemma OneSplitIsHandled(n: nat, run: seq<System>, steps: seq<Step>, k: nat, split: seq<seq<Item>>)
    requires IsRun(n, run, steps) && k < |run| && |split| == n && forall j :: 0 <= j < |steps| && steps[j].KickoffStart? ==> steps[j].split == split
    requires run[k].job.result == Some(Succeeded)
    ensures forall x :: Handled(run[k], x) <==> exists i :: 0 <= i < n && x in split[i]
  {
    hide Apply, Enabled;
    SplitAlways(n, run, steps, k, split);
    SuccessCoversExactly(n, run, steps, k, {});
    RunIsSafe(n, run, steps, k);
    var s := run[k];
    assert forall i :: 0 <= i < n ==> DoneAll(s.queue[i], s.flushed[i]) && Winner(s, i) == split[i];
  }

  /** In every run a stored shard that has stopped has succeeded or was aborted; an active one has no result. */
  lemma StoredResults(n: nat, run: seq<System>, steps: seq<Step>, k: nat, i: nat)
    requires IsRun(n, run, steps) && k < |run| && i < n
    ensures Shape(n, run[k])
    ensures run[k].shards[i].Some? ==>
              run[k].shards[i].value.result ==
                if run[k].shards[i].value.active then None
                else if HasSucceeded(run[k].shards[i]) then Some(Succeeded) else Some(Aborted)
  {
    RunIsSafe(n, run, steps, k);
    OneShard(n, run[k], i);
    if run[k].shards[i].Some? {
      StoppedResult(run[k].shards[i]);
    }
  }

  /**
   In every run a controller ends an active job in failure exactly if it read no abort command and saw a shard missing,
   or saw every shard stopped and some of them aborted.
   */
  lemma FailedWrite(n: nat, run: seq<System>, steps: seq<Step>, k: nat)
    requires IsRun(n, run, steps) && k < |steps| && steps[k].ControllerWrite? && run[k].controllers[steps[k].id].job.active
    ensures var c := run[k].controllers[steps[k].id];
            run[k + 1].job.result == Some(Failed) <==>
              !c.abort && (SomeMissing(n, c.seen) || (!SomeActive(n, c.seen) && SomeAborted(n, c.seen)))
  {
    hide Safe, Decide, ApplyJob, ApplyWorker;
    RunIsSafe(n, run, steps, k);
    var c := run[k].controllers[steps[k].id];
    SafeParts(n, run[k], steps[k].id);
    assert forall i :: 0 <= i < n ==> ShardOk(run[k].queue[i], run[k].flushed[i], c.seen[i]);
    ControllerFails(n, c.job, c.abort, c.seen);
    ControllerFrame(n, run[k], steps[k]);
  }

  // ----- stopped shards -----

  predicate Stopped(state: Option<ShardState>) {
    state.Some? && !state.value.active
  }

  ghost predicate StoppedStay(s: System, s': System)
    requires |s.shards| == |s'.shards|
  {
    forall i :: 0 <= i < |s.shards| && Stopped(s.shards[i]) ==> Stopped(s'.shards[i])
  }

  // The kickoff's list of existing shards names every shard that has stopped by now.
  ghost predicate SnapshotCurrent(s: System, existing: set<nat>) {
    forall i :: 0 <= i < |s.shards| && Stopped(s.shards[i]) ==> i in existing
  }

  /** Until the job is cleaned up, a step revives a stopped shard exactly if it creates shards from a stale list. */
  lemma StoppedStayExactly(n: nat, s: System, step: Step)
    requires Shape(n, s) && Enabled(n, s, step) && !step.Finalize?
    ensures StoppedStay(s, Apply(n, s, step)) <==> (step.KickoffCreate? ==> SnapshotCurrent(s, s.kickoffs[step.id].existing))
  {
    hide ApplyJob, ApplyWorker, ApplyController;
    if OfWorker(step) {
      WorkerKeepsStopped(n, s, step);
    } else if OfController(step) {
      ControllerKeepsShards(n, s, step);
    } else {
      JobKeepsStopped(n, s, step);
    }
  }

  lemma WorkerKeepsStopped(n: nat, s: System, step: Step)
    requires Shape(n, s) && Enabled(n, s, step) && OfWorker(step)
    ensures StoppedStay(s, ApplyWorker(n, s, step))
  {
    hide Enqueue, Increment;
  }

  lemma ControllerKeepsShards(n: nat, s: System, step: Step)
    requires Shape(n, s) && Enabled(n, s, step) && OfController(step)
    ensures ApplyController(n, s, step).shards == s.shards
  {
    hide Decide;
  }

  lemma JobKeepsStopped(n: nat, s: System, step: Step)
    requires Shape(n, s) && Enabled(n, s, step) && OfJob(step) && !step.Finalize?
    ensures StoppedStay(s, ApplyJob(n, s, step)) <==> (step.KickoffCreate? ==> SnapshotCurrent(s, s.kickoffs[step.id].existing))
  {
    hide Enqueue;
    if step.KickoffCreate? {
      var s' := ApplyJob(n, s, step);
      forall i | 0 <= i < |s.shards| && Stopped(s.shards[i])
        ensures Stopped(s'.shards[i]) <==> i in s.kickoffs[step.id].existing
      {
      }
    }
  }

  // Looking for existing shards and creating the missing ones happen together; the job is not yet cleaned up.
  ghost predicate AtomicKickoffs(steps: seq<Step>) {
    forall k :: 0 <= k < |steps| ==>
      !steps[k].Finalize? && (steps[k].KickoffCreate? ==> k > 0 && steps[k - 1] == KickoffLook(steps[k].id))
  }

  lemma AtomicStep(n: nat, run: seq<System>, steps: seq<Step>, k: nat)
    requires IsRun(n, run, steps) && AtomicKickoffs(steps) && k < |steps|
    ensures |run[k].shards| == |run[k + 1].shards| == n && StoppedStay(run[k], run[k + 1])
  {
    hide ApplyWorker, ApplyController;
    StoppedStayExactly(n, run[k], steps[k]);
    if steps[k].KickoffCreate? {
      assert run[k] == Apply(n, run[k - 1], steps[k - 1]);
    }
  }

  /** In a run with atomic kickoffs, until the job is cleaned up, a stored inactive shard never becomes active again. */
  lemma {:induction false} StoppedForever(n: nat, run: seq<System>, steps: seq<Step>, j: nat, k: nat)
    requires IsRun(n, run, steps) && AtomicKickoffs(steps) && j <= k < |run|
    ensures |run[j].shards| == |run[k].shards| == n && StoppedStay(run[j], run[k])
    decreases k - j
  {
    hide Apply, Enabled;
    if j < k {
      AtomicStep(n, run, steps, k - 1);
      StoppedForever(n, run, steps, j, k - 1);
    } else {
      RunIsSafe(n, run, steps, j);
    }
  }

  // What a controller saw stopped is stopped in the datastore.
  ghost predicate SeenStopped(s: System) {
    forall id, i :: id in s.controllers && i in s.controllers[id].seen && i < |s.shards| && Stopped(s.controllers[id].seen[i]) ==>
      Stopped(s.shards[i])
  }

  lemma SeenStep(n: nat, s: System, step: Step)
    requires Shape(n, s) && Enabled(n, s, step) && SeenStopped(s)
    requires StoppedStay(s, Apply(n, s, step))
    ensures SeenStopped(Apply(n, s, step))
  {
    hide Decide, Enqueue, Stopped, StartWorker, CommitWorker, CreateMissing, ApplyWorker, ApplyJob;
    var s' := Apply(n, s, step);
    if OfController(step) {
      ControllerKeepsShards(n, s, step);
      forall id, i | id in s'.controllers && i in s'.controllers[id].seen && i < |s'.shards| && Stopped(s'.controllers[id].seen[i])
        ensures Stopped(s'.shards[i])
      {
        if id in s.controllers && i in s.controllers[id].seen {
          assert s'.controllers[id].seen[i] == s.controllers[id].seen[i];
        }
      }
    } else {
      ControllersKept(n, s, step);
    }
  }

  lemma ControllersKept(n: nat, s: System, step: Step)
    requires Shape(n, s) && Enabled(n, s, step) && !OfController(step)
    ensures Apply(n, s, step).controllers == s.controllers
  {
    hide Enqueue, CreateMissing, Increment;
  }

  lemma {:induction false} SeenAlways(n: nat, run: seq<System>, steps: seq<Step>, k: nat)
    requires IsRun(n, run, steps) && AtomicKickoffs(steps) && k < |run|
    ensures SeenStopped(run[k])
  {
    hide Apply, Enabled;
    if k > 0 {
      SeenAlways(n, run, steps, k - 1);
      AtomicStep(n, run, steps, k - 1);
      SeenStep(n, run[k - 1], steps[k - 1]);
    }
  }

  /**
   When a controller ends an active job in success, it read no abort command and saw every shard successful; with
   atomic kickoffs every shard is stored and inactive at that very moment, whatever ran between its reads and its
   write; and every item of every shard has been handled.
   */
  lemma SuccessfulWrite(n: nat, run: seq<System>, steps: seq<Step>, k: nat)
    requires IsRun(n, run, steps) && AtomicKickoffs(steps) && k < |steps| && steps[k].ControllerWrite?
    requires run[k].controllers[steps[k].id].job.active && run[k + 1].job.result == Some(Succeeded)
    ensures Shape(n, run[k + 1])
    ensures !run[k].controllers[steps[k].id].abort && AllSucceeded(n, run[k].controllers[steps[k].id].seen)
    ensures AllStopped(run[k + 1])
    ensures AllHandled(run[k + 1])
  {
    hide Safe, Decide, SeenStopped, ApplyWorker, ApplyJob;
    var s, id := run[k], steps[k].id;
    RunIsSafe(n, run, steps, k);
    RunIsSafe(n, run, steps, k + 1);
    SafeParts(n, s, id);
    SafeJob(n, run[k + 1]);
    ControllerDecides(n, s.controllers[id].job, s.controllers[id].abort, s.controllers[id].seen);
    SeenAlways(n, run, steps, k);
    AllSeenStopped(s, id);
    ControllerKeepsShards(n, s, steps[k]);
  }

  ghost predicate AllStopped(s: System) {
    forall state :: state in s.shards ==> Stopped(state)
  }

  lemma AllSeenStopped(s: System, id: nat)
    requires SeenStopped(s) && id in s.controllers && forall i :: 0 <= i < |s.shards| ==> i in s.controllers[id].seen
    requires AllSucceeded(|s.shards|, s.controllers[id].seen)
    ensures AllStopped(s)
  {
    forall state | state in s.shards ensures Stopped(state) {
      var i :| 0 <= i < |s.shards| && s.shards[i] == state;
      assert Stopped(s.controllers[id].seen[i]);
    }
  }

  lemma SafeParts(n: nat, s: System, id: nat)
    requires Safe(n, s) && id in s.controllers
    ensures |s.queue| == |s.flushed| && ControllerOk(s, s.controllers[id])
  {}

  lemma SafeJob(n: nat, s: System)
    requires Safe(n, s)
    ensures Shape(n, s) && JobOk(s, s.job)
  {}

  // ----- performing steps one after the other -----

  function Perform(n: nat, s: System, steps: seq<Step>): (r: Option<System>)
    requires Shape(n, s)
    ensures r.Some? ==> Shape(n, r.value)
    decreases |steps|
  {
    if steps == [] then Some(s)
    else if Enabled(n, s, steps[0]) then Perform(n, Apply(n, s, steps[0]), steps[1..])
    else None
  }

  lemma {:induction false} PerformInParts(n: nat, s: System, first: seq<Step>, rest: seq<Step>)
    requires Shape(n, s) && Perform(n, s, first).Some?
    ensures Perform(n, s, first + rest) == Perform(n, Perform(n, s, first).value, rest)
    decreases |first|
  {
    hide Apply, Enabled;
    if first == [] {
      assert first + rest == rest;
    } else {
      assert (first + rest)[1..] == first[1..] + rest;
      PerformInParts(n, Apply(n, s, first[0]), first[1..], rest);
    }
  }

  // ----- a retried kickoff that split differently -----

  const NEW_JOB := JobState(true, None, map[])
  const FIRST_SPLIT := [[], [0]]
  const SECOND_SPLIT := [[0], []]
  const DONE := ShardState(false, Some(Succeeded), map[])
  const EMPTY_TASK := Task([], 0)
  const BY_FIRST := [KickoffStart(0, FIRST_SPLIT), KickoffLook(0), KickoffCreate(0), KickoffSchedule(0, 0)]
  const BY_SECOND := [KickoffStart(1, SECOND_SPLIT), KickoffLook(1), KickoffCreate(1), KickoffSchedule(1, 0), KickoffSchedule(1, 1),
                      KickoffController(1)]
  const BY_CONTROLLER := [ControllerStart(0), ControllerRead(0, 0), ControllerRead(0, 1), ControllerWrite(0)]
  const AFTER_FIRST := System(NEW_JOB, false, [Some(FRESH), Some(FRESH)], [map[0 := EMPTY_TASK], map[]], [{}, {}], map[], map[],
                              map[0 := Created(FIRST_SPLIT)], false, false)
  const AFTER_SECOND := System(NEW_JOB, false, [Some(FRESH), Some(FRESH)], [map[0 := EMPTY_TASK], map[0 := EMPTY_TASK]], [{}, {}],
                               map[], map[], map[0 := Created(FIRST_SPLIT), 1 := Created(SECOND_SPLIT)], true, false)

  function ByWorker(i: nat): seq<Step> {
    [WorkerStart(i, i, 0), WorkerEnd(i), WorkerFlush(i), WorkerCommit(i)]
  }

  // Each of these systems follows from the one before by the step of its place.
  ghost predicate Chain(n: nat, systems: seq<System>, steps: seq<Step>) {
    && |systems| == |steps| + 1
    && forall k :: 0 <= k < |steps| ==> Leads(n, systems[k], steps[k], systems[k + 1])
  }

  lemma {:induction false} ChainPerforms(n: nat, systems: seq<System>, steps: seq<Step>)
    requires Chain(n, systems, steps) && Shape(n, systems[0])
    ensures Perform(n, systems[0], steps) == Some(systems[|steps|])
    decreases |steps|
  {
    hide Apply, Enabled;
    if steps != [] {
      ChainPerforms(n, systems[1..], steps[1..]);
    }
  }

  ghost predicate Leads(n: nat, s: System, step: Step, s': System) {
    Shape(n, s) && Enabled(n, s, step) && Apply(n, s, step) == s'
  }

  lemma Started(n: nat, s: System, id: nat, split: seq<seq<Item>>)
    requires Shape(n, s) && id !in s.kickoffs && |split| == n && s.job == NEW_JOB
    ensures Leads(n, s, KickoffStart(id, split), s.(kickoffs := s.kickoffs[id := Starting(split)]))
  {}

  lemma LookedFor(n: nat, s: System, id: nat, split: seq<seq<Item>>, existing: set<nat>)
    requires Shape(n, s) && id in s.kickoffs && s.kickoffs[id] == Starting(split) && Existing(s.shards) == existing
    ensures Leads(n, s, KickoffLook(id), s.(kickoffs := s.kickoffs[id := Looked(split, existing)]))
  {}

  lemma CreatedAll(n: nat, s: System, id: nat, split: seq<seq<Item>>, existing: set<nat>)
    requires Shape(n, s) && id in s.kickoffs && s.kickoffs[id] == Looked(split, existing)
    ensures Leads(n, s, KickoffCreate(id), s.(shards := CreateMissing(s.shards, existing), kickoffs := s.kickoffs[id := Created(split)]))
  {}

  lemma QueuedSlice(n: nat, s: System, id: nat, split: seq<seq<Item>>, i: nat)
    requires Shape(n, s) && id in s.kickoffs && s.kickoffs[id] == Created(split) && i < n == |split|
    ensures Leads(n, s, KickoffSchedule(id, i), s.(queue := s.queue[i := Enqueue(s.queue[i], 0, Task(split[i], 0))]))
  {}

  lemma QueuedController(n: nat, s: System, id: nat, split: seq<seq<Item>>)
    requires Shape(n, s) && id in s.kickoffs && s.kickoffs[id] == Created(split)
    ensures Leads(n, s, KickoffController(id), s.(controllerQueued := true))
  {}

  lemma FirstKickoff()
    ensures Perform(2, Initial(2), BY_FIRST) == Some(AFTER_FIRST)
  {
    hide Enabled, Apply, Perform;
    var s0 := Initial(2);
    assert s0.shards == [None, None] && s0.queue == [map[], map[]] && s0.flushed == [{}, {}];
    var s1 := s0.(kickoffs := map[0 := Starting(FIRST_SPLIT)]);
    var s2 := s0.(kickoffs := map[0 := Looked(FIRST_SPLIT, {})]);
    var s3 := s0.(shards := [Some(FRESH), Some(FRESH)], kickoffs := map[0 := Created(FIRST_SPLIT)]);
    Started(2, s0, 0, FIRST_SPLIT);
    LookedFor(2, s1, 0, FIRST_SPLIT, {});
    assert CreateMissing(s2.shards, {}) == [Some(FRESH), Some(FRESH)];
    CreatedAll(2, s2, 0, FIRST_SPLIT, {});
    QueuedSlice(2, s3, 0, FIRST_SPLIT, 0);
    ChainPerforms(2, [s0, s1, s2, s3, AFTER_FIRST], BY_FIRST);
  }

  lemma SecondKickoff()
    ensures Perform(2, AFTER_FIRST, BY_SECOND) == Some(AFTER_SECOND)
  {
    hide Enabled, Apply, Perform;
    var s0, k := AFTER_FIRST, AFTER_FIRST.kickoffs;
    var s1 := s0.(kickoffs := k[1 := Starting(SECOND_SPLIT)]);
    var s2 := s0.(kickoffs := k[1 := Looked(SECOND_SPLIT, {0, 1})]);
    var s3 := s0.(kickoffs := k[1 := Created(SECOND_SPLIT)]);
    var s4 := s3.(queue := [map[0 := EMPTY_TASK], map[0 := EMPTY_TASK]]);
    Started(2, s0, 1, SECOND_SPLIT);
    assert Existing(s1.shards) == {0, 1};
    LookedFor(2, s1, 1, SECOND_SPLIT, {0, 1});
    assert CreateMissing(s2.shards, {0, 1}) == s2.shards;
    CreatedAll(2, s2, 1, SECOND_SPLIT, {0, 1});
    QueuedSlice(2, s3, 1, SECOND_SPLIT, 0);
    QueuedSlice(2, s3, 1, SECOND_SPLIT, 1);
    QueuedController(2, s4, 1, SECOND_SPLIT);
    assert Leads(2, s3, BY_SECOND[3], s3) && Leads(2, s3, BY_SECOND[4], s4);
    ChainPerforms(2, [s0, s1, s2, s3, s3, s4, AFTER_SECOND], BY_SECOND);
  }

  // An execution that scans nothing and commits success.
  lemma EmptyShardWorked(n: nat, s: System, i: nat)
    requires Shape(n, s) && i < n && i !in s.workers && s.shards[i] == Some(FRESH) && !s.abort
    requires 0 in s.queue[i] && s.queue[i][0] == EMPTY_TASK
    ensures Perform(n, s, ByWorker(i)) ==
            Some(s.(shards := s.shards[i := Some(DONE)], workers := s.workers[i := Worker(i, 0, [], 0, DONE, {}, Committed)]))
  {
    hide Enabled, Apply, Perform;
    var w := Worker(i, 0, [], 0, FRESH, {}, Scanning);
    var s1 := s.(workers := s.workers[i := w]);
    var s2 := s.(workers := s.workers[i := w.(local := DONE)]);
    var s3 := s.(workers := s.workers[i := w.(local := DONE, phase := Flushed)]);
    var s4 := s.(shards := s.shards[i := Some(DONE)], workers := s.workers[i := w.(local := DONE, phase := Committed)]);
    WorkerBegan(n, s, i, w);
    WorkerEnded(n, s1, i, w);
    assert s1.workers[i := w.(local := DONE)] == s2.workers;
    WorkerFlushed(n, s2, i, w.(local := DONE));
    assert s2.workers[i := w.(local := DONE, phase := Flushed)] == s3.workers;
    WorkerCommitted(n, s3, i, w.(local := DONE, phase := Flushed));
    assert s3.workers[i := w.(local := DONE, phase := Committed)] == s4.workers;
    ChainPerforms(n, [s, s1, s2, s3, s4], ByWorker(i));
  }

  lemma WorkerBegan(n: nat, s: System, i: nat, w: Worker)
    requires Shape(n, s) && i < n && i !in s.workers && s.shards[i] == Some(FRESH) && !s.abort
    requires 0 in s.queue[i] && s.queue[i][0] == EMPTY_TASK && w == Worker(i, 0, [], 0, FRESH, {}, Scanning)
    ensures Leads(n, s, WorkerStart(i, i, 0), s.(workers := s.workers[i := w]))
  {}

  lemma WorkerEnded(n: nat, s: System, i: nat, w: Worker)
    requires Shape(n, s) && i < n && i in s.workers && s.workers[i] == w == Worker(i, 0, [], 0, FRESH, {}, Scanning)
    ensures Leads(n, s, WorkerEnd(i), s.(workers := s.workers[i := w.(local := DONE)]))
  {}

  lemma WorkerFlushed(n: nat, s: System, i: nat, w: Worker)
    requires Shape(n, s) && i < n && i in s.workers && s.workers[i] == w == Worker(i, 0, [], 0, DONE, {}, Scanning)
    ensures Leads(n, s, WorkerFlush(i), s.(workers := s.workers[i := w.(phase := Flushed)]))
  {
    assert s.flushed[i] + {} == s.flushed[i] && s.flushed[i := s.flushed[i]] == s.flushed;
  }

  lemma WorkerCommitted(n: nat, s: System, i: nat, w: Worker)
    requires Shape(n, s) && i < n && i in s.workers && s.workers[i] == w == Worker(i, 0, [], 0, DONE, {}, Flushed)
    requires s.shards[i] == Some(FRESH)
    ensures Leads(n, s, WorkerCommit(i), s.(shards := s.shards[i := Some(DONE)], workers := s.workers[i := w.(phase := Committed)]))
  {}

  lemma ControllerBegan(s: System)
    requires Shape(2, s) && s.controllerQueued && s.job == NEW_JOB && !s.abort && s.controllers == map[]
    ensures Leads(2, s, ControllerStart(0), s.(controllers := map[0 := Controller(NEW_JOB, false, map[])]))
  {}

  lemma ControllerRead1(s: System, i: nat, seen: map<nat, Option<ShardState>>)
    requires Shape(2, s) && i < 2 && i !in seen && s.controllers == map[0 := Controller(NEW_JOB, false, seen)] && s.shards[i] == Some(DONE)
    ensures Leads(2, s, ControllerRead(0, i), s.(controllers := map[0 := Controller(NEW_JOB, false, seen[i := Some(DONE)])]))
  {}

  lemma ControllerWrote(s: System)
    requires Shape(2, s) && s.controllers == map[0 := Controller(NEW_JOB, false, map[0 := Some(DONE), 1 := Some(DONE)])]
    ensures Enabled(2, s, ControllerWrite(0))
    ensures Apply(2, s, ControllerWrite(0)).job.result == Some(Succeeded) && Apply(2, s, ControllerWrite(0)).flushed == s.flushed
  {
    hide ApplyJob, ApplyWorker, Decide;
    ControllerDecides(2, NEW_JOB, false, map[0 := Some(DONE), 1 := Some(DONE)]);
  }

  lemma ControllerSucceeds(s: System)
    requires Shape(2, s) && s.shards == [Some(DONE), Some(DONE)] && s.job == NEW_JOB && !s.abort && s.controllerQueued && s.controllers == map[]
    ensures var r := Perform(2, s, BY_CONTROLLER); r.Some? && r.value.job.result == Some(Succeeded) && r.value.flushed == s.flushed
  {
    hide Enabled, Apply, Perform;
    var s1 := s.(controllers := map[0 := Controller(NEW_JOB, false, map[])]);
    var s2 := s.(controllers := map[0 := Controller(NEW_JOB, false, map[0 := Some(DONE)])]);
    var s3 := s.(controllers := map[0 := Controller(NEW_JOB, false, map[0 := Some(DONE), 1 := Some(DONE)])]);
    ControllerBegan(s);
    ControllerRead1(s1, 0, map[]);
    ControllerRead1(s2, 1, map[0 := Some(DONE)]);
    ControllerWrote(s3);
    ChainPerforms(2, [s, s1, s2, s3, Apply(2, s3, ControllerWrite(0))], BY_CONTROLLER);
  }

  /**
   The first kickoff stops after queueing shard 0 and the retry splits the same item the other way round: each shard
   works with an empty reader, the job succeeds and the item that both splits cover was never handled.
   */
  lemma DifferentSplitsLoseItems()
    ensures 0 in FIRST_SPLIT[1] && 0 in SECOND_SPLIT[0]
    ensures var s := Perform(2, Initial(2), BY_FIRST + BY_SECOND + ByWorker(0) + ByWorker(1) + BY_CONTROLLER);
            s.Some? && s.value.job.result == Some(Succeeded) && !Handled(s.value, 0)
  {
    hide Perform, ApplyJob, ApplyWorker, ApplyController, ByWorker;
    FirstKickoff();
    PerformInParts(2, Initial(2), BY_FIRST, BY_SECOND);
    SecondKickoff();
    var one := BY_FIRST + BY_SECOND;
    EmptyShardWorked(2, AFTER_SECOND, 0);
    PerformInParts(2, Initial(2), one, ByWorker(0));
    var s1 := Perform(2, Initial(2), one + ByWorker(0)).value;
    EmptyShardWorked(2, s1, 1);
    PerformInParts(2, Initial(2), one + ByWorker(0), ByWorker(1));
    var s2 := Perform(2, Initial(2), one + ByWorker(0) + ByWorker(1)).value;
    assert s2.shards == [Some(DONE), Some(DONE)];
    ControllerSucceeds(s2);
    PerformInParts(2, Initial(2), one + ByWorker(0) + ByWorker(1), BY_CONTROLLER);
  }

  // ----- a second kickoff that looked too early -----

  const ONE_SPLIT := [[]]
  const BOTH_LOOK := [KickoffStart(0, ONE_SPLIT), KickoffLook(0), KickoffStart(1, ONE_SPLIT), KickoffLook(1), KickoffCreate(0), KickoffSchedule(0, 0)]
  const AFTER_BOTH := System(NEW_JOB, false, [Some(FRESH)], [map[0 := EMPTY_TASK]], [{}], map[], map[],
                             map[0 := Created(ONE_SPLIT), 1 := Looked(ONE_SPLIT, {})], false, false)

  lemma BothLook()
    ensures Perform(1, Initial(1), BOTH_LOOK) == Some(AFTER_BOTH)
  {
    hide Enabled, Apply, Perform;
    var s0 := Initial(1);
    assert s0.shards == [None] && s0.queue == [map[]] && s0.flushed == [{}];
    var s1 := s0.(kickoffs := map[0 := Starting(ONE_SPLIT)]);
    var s2 := s0.(kickoffs := map[0 := Looked(ONE_SPLIT, {})]);
    var s3 := s0.(kickoffs := map[0 := Looked(ONE_SPLIT, {}), 1 := Starting(ONE_SPLIT)]);
    var s4 := s0.(kickoffs := map[0 := Looked(ONE_SPLIT, {}), 1 := Looked(ONE_SPLIT, {})]);
    var s5 := s0.(shards := [Some(FRESH)], kickoffs := map[0 := Created(ONE_SPLIT), 1 := Looked(ONE_SPLIT, {})]);
    Started(1, s0, 0, ONE_SPLIT);
    LookedFor(1, s1, 0, ONE_SPLIT, {});
    Started(1, s2, 1, ONE_SPLIT);
    LookedFor(1, s3, 1, ONE_SPLIT, {});
    assert CreateMissing(s4.shards, {}) == [Some(FRESH)];
    CreatedAll(1, s4, 0, ONE_SPLIT, {});
    QueuedSlice(1, s5, 0, ONE_SPLIT, 0);
    ChainPerforms(1, [s0, s1, s2, s3, s4, s5, AFTER_BOTH], BOTH_LOOK);
  }

  /** Without atomicity: an empty shard succeeds, and a retried kickoff that had looked before makes it active again. */
  lemma StaleKickoffRevives()
    ensures var s := Perform(1, Initial(1), BOTH_LOOK + ByWorker(0));
            && s.Some? && Enabled(1, s.value, KickoffCreate(1))
            && s.value.shards[0] == Some(DONE)
            && Apply(1, s.value, KickoffCreate(1)).shards[0] == Some(FRESH)
  {
    hide Perform, ApplyWorker, ApplyController, ByWorker;
    BothLook();
    EmptyShardWorked(1, AFTER_BOTH, 0);
    PerformInParts(1, Initial(1), BOTH_LOOK, ByWorker(0));
  }
}
