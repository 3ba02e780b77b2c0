/**
 What the steps of the protocol bring about (server/mapreduce/handlers.py): a worker that is not done queues its next
 slice, an abort command is obeyed, and without faults a job ends in success with every item handled.
 */
module JobProgress {
  import opened Wrappers
  import opened Counters
  import opened JobProtocol
  import opened JobHandlers

  // ----- single steps -----

  /** An active worker's last step puts the next slice on the queue, with its reader and, if the name is new, its position. */
  lemma RescheduleQueues(n: nat, s: System, id: nat)
    requires Safe(n, s) && Enabled(n, s, WorkerReschedule(id))
    ensures var w, s' := s.workers[id], Apply(n, s, WorkerReschedule(id));
            && w.slice + 1 in s'.queue[w.shard] && s'.queue[w.shard][w.slice + 1].reader == w.reader
            && (w.slice + 1 !in s.queue[w.shard] ==> s'.queue[w.shard][w.slice + 1].pos == w.pos)
            && (w.slice + 1 in s.queue[w.shard] ==> s'.queue == s.queue)
  {
    hide ApplyJob, ApplyController, QueuesOk, JobOk, ControllersOk, ShardsOk, WorkersOk, Done;
    OneWorker(n, s, id);
    OneQueue(n, s, s.workers[id].shard);
  }

  /** A worker that saw the abort command stores its shard as aborted and stopped, and repeats the command. */
  lemma AbortStops(n: nat, s: System, id: nat)
    requires Shape(n, s) && Enabled(n, s, WorkerAbort(id))
    ensures var s' := Apply(n, s, WorkerAbort(id));
            var state := s'.shards[s.workers[id].shard];
            s'.abort && state.Some? && !state.value.active && state.value.result == Some(Aborted)
  {}

  /** Aborting stores the command; cleaning up deletes it and the shards. */
  lemma CommandsAreStored(n: nat, s: System)
    requires Shape(n, s)
    ensures Apply(n, s, AbortJob).abort
    ensures Enabled(n, s, Finalize) ==> !Apply(n, s, Finalize).abort && forall i :: 0 <= i < n ==> Apply(n, s, Finalize).shards[i].None?
  {}

  /** A controller that misses a shard of an active job sends the abort command; one that ends the job has it cleaned up. */
  lemma ControllerSends(n: nat, s: System, id: nat)
    requires Shape(n, s) && Enabled(n, s, ControllerWrite(id))
    requires s.controllers[id].job.active <==> s.controllers[id].job.result.None?
    ensures var c, s' := s.controllers[id], Apply(n, s, ControllerWrite(id));
            && (s'.abort <==> s.abort || (c.job.active && SomeMissing(n, c.seen)))
            && (s'.finalizing <==> s.finalizing || !s'.job.active)
  {
    hide ApplyJob, ApplyWorker, Decide;
    ControllerDecides(n, s.controllers[id].job, s.controllers[id].abort, s.controllers[id].seen);
  }

  /** An execution for a missing or stopped shard ends at once; any other takes the stored state and the queued payload. */
  lemma StartReads(n: nat, s: System, id: nat, i: nat, k: nat)
    requires Shape(n, s) && Enabled(n, s, WorkerStart(id, i, k))
    ensures var s' := Apply(n, s, WorkerStart(id, i, k));
            if s.shards[i].None? || !s.shards[i].value.active then s' == s
            else id in s'.workers && s'.workers[id].local == s.shards[i].value && s'.workers[id].slice == k && s'.workers[id].shard == i
                 && s'.workers[id].reader == s.queue[i][k].reader && s'.workers[id].pos == s.queue[i][k].pos
                 && (s'.workers[id].phase == AbortSeen <==> s.abort)
  {
    hide ApplyJob, ApplyController;
  }

  /** A worker that finds its shard stopped writes nothing and queues no further slice; nor does one whose scan has ended. */
  lemma StopsWhenStopped(n: nat, s: System, id: nat)
    requires Safe(n, s) && Enabled(n, s, WorkerCommit(id))
    requires s.workers[id].local.result == Some(Succeeded) || Stopped(s.shards[s.workers[id].shard])
    ensures var s' := Apply(n, s, WorkerCommit(id));
            && (Stopped(s.shards[s.workers[id].shard]) ==> s'.shards == s.shards)
            && s'.queue == s.queue && !Enabled(n, s', WorkerReschedule(id))
  {
    hide ApplyJob, ApplyController, QueuesOk, JobOk, ControllersOk, ShardsOk, WorkersOk, Done;
    OneWorker(n, s, id);
  }

  /** The controller decides on what is stored when it reads. */
  lemma ControllerReadsStored(n: nat, s: System, id: nat, i: nat)
    requires Shape(n, s)
    ensures Enabled(n, s, ControllerStart(id)) ==>
              var s' := Apply(n, s, ControllerStart(id)); id in s'.controllers && s'.controllers[id] == Controller(s.job, s.abort, map[])
    ensures Enabled(n, s, ControllerRead(id, i)) ==>
              var s' := Apply(n, s, ControllerRead(id, i));
              id in s'.controllers && i in s'.controllers[id].seen && s'.controllers[id].seen[i] == s.shards[i]
  {
    hide ApplyJob, ApplyWorker;
  }

  /** A kickoff overwrites the job's state with a new one, whatever it was. */
  lemma KickoffResets(n: nat, s: System, id: nat, split: seq<seq<Item>>)
    requires Shape(n, s) && Enabled(n, s, KickoffStart(id, split))
    ensures var job := Apply(n, s, KickoffStart(id, split)).job; job.active && job.result.None? && job.counters == map[]
  {
    hide ApplyWorker, ApplyController;
  }

  // ----- no abort without a command, no cleanup before the end -----

  ghost predicate Unaborted(s: System) {
    && !s.abort
    && (forall state :: state in s.shards && state.Some? ==> state.value.result != Some(Aborted))
    && (forall id :: id in s.workers ==> s.workers[id].phase != AbortSeen && s.workers[id].local.result != Some(Aborted))
  }

  ghost predicate NotAborted(state: ShardState) {
    state.result != Some(Aborted)
  }

  // One worker's copy changed, and its shard's state was perhaps overwritten by such a copy.
  lemma UnabortedStep(s: System, s': System, id: nat)
    requires Unaborted(s) && !s'.abort && OthersKept(s.workers, s'.workers, id)
    requires id in s'.workers ==> s'.workers[id].phase != AbortSeen && NotAborted(s'.workers[id].local)
    requires forall state :: state in s'.shards ==> state in s.shards || (state.Some? && NotAborted(state.value))
    ensures Unaborted(s')
  {}

  lemma CommitUnaborted(s: System, id: nat)
    requires Unaborted(s) && id in s.workers && s.workers[id].shard < |s.shards|
    ensures Unaborted(CommitWorker(s, id))
  {
    CommitFrame(s, id);
    UnabortedStep(s, CommitWorker(s, id), id);
  }

  lemma StartUnaborted(s: System, id: nat, i: nat, k: nat)
    requires Unaborted(s) && i < |s.shards| == |s.queue| && k in s.queue[i]
    ensures Unaborted(StartWorker(s, id, i, k))
  {
    var s' := StartWorker(s, id, i, k);
    if s' != s {
      ChangeOne(s.workers, id, s'.workers[id]);
      UnabortedStep(s, s', id);
    }
  }

  lemma WorkerStaysUnaborted(n: nat, s: System, step: Step)
    requires Shape(n, s) && Enabled(n, s, step) && OfWorker(step) && Unaborted(s)
    ensures Unaborted(ApplyWorker(n, s, step))
  {
    hide Increment, Enqueue, Unaborted, CommitWorker, StartWorker, AbortWorker;
    if step.WorkerCommit? {
      CommitUnaborted(s, step.id);
    } else if step.WorkerStart? {
      StartUnaborted(s, step.id, step.shard, step.slice);
    } else {
      WorkerIsUnaborted(s, step.id);
      var s' := ApplyWorker(n, s, step);
      if step.id in s'.workers {
        ChangeOne(s.workers, step.id, s'.workers[step.id]);
      } else {
        ChangeOne(s.workers, step.id, NOBODY);
      }
      UnabortedStep(s, s', step.id);
    }
  }

  lemma WorkerIsUnaborted(s: System, id: nat)
    requires Unaborted(s) && id in s.workers
    ensures !s.abort && s.workers[id].phase != AbortSeen && NotAborted(s.workers[id].local)
  {}

  lemma StaysUnaborted(n: nat, s: System, step: Step)
    requires Shape(n, s) && Enabled(n, s, step) && Unaborted(s) && !Apply(n, s, step).abort
    ensures Unaborted(Apply(n, s, step))
  {
    if OfWorker(step) {
      hide ApplyWorker, ApplyJob, ApplyController;
      WorkerStaysUnaborted(n, s, step);
    } else if OfController(step) {
      hide ApplyWorker, ApplyJob, Decide;
    } else {
      hide ApplyWorker, ApplyController, Enqueue;
    }
  }

  lemma {:induction false} UnabortedSoFar(n: nat, run: seq<System>, steps: seq<Step>, k: nat)
    requires IsRun(n, run, steps) && k < |run| && forall j :: 0 <= j <= k ==> !run[j].abort
    ensures Unaborted(run[k])
  {
    hide Apply, Enabled, Unaborted;
    if k == 0 {
      NewIsUnaborted(n);
    } else {
      UnabortedSoFar(n, run, steps, k - 1);
      assert run[k] == run[k - 1 + 1] == Apply(n, run[k - 1], steps[k - 1]) && !run[k].abort;
      StaysUnaborted(n, run[k - 1], steps[k - 1]);
    }
  }

  lemma NewIsUnaborted(n: nat)
    ensures Unaborted(Initial(n))
  {}

  /** In every run a shard is stored as aborted only after an abort command was stored. */
  lemma AbortedOnlyOnCommand(n: nat, run: seq<System>, steps: seq<Step>, k: nat, i: nat)
    requires IsRun(n, run, steps) && k < |run| && i < |run[k].shards| && run[k].shards[i].Some?
    requires run[k].shards[i].value.result == Some(Aborted)
    ensures exists j :: 0 <= j <= k && run[j].abort
  {
    hide IsRun;
    assert run[k].shards[i] in run[k].shards;
    if forall j :: 0 <= j <= k ==> !run[j].abort {
      UnabortedSoFar(n, run, steps, k);
    }
  }

  /** In every run the job is cleaned up only after a controller has ended it. */
  lemma {:induction false} CleanedUpOnlyWhenEnded(n: nat, run: seq<System>, steps: seq<Step>, k: nat)
    requires IsRun(n, run, steps) && k < |run| && (run[k].finalizing || (k < |steps| && steps[k].Finalize?))
    ensures exists j :: 0 <= j < k && steps[j].ControllerWrite? && !run[j + 1].job.active
  {
    hide Apply;
    if k > 0 && run[k - 1].finalizing {
      CleanedUpOnlyWhenEnded(n, run, steps, k - 1);
    } else if k > 0 {
      NewlyFinalizing(n, run[k - 1], steps[k - 1]);
      assert steps[k - 1].ControllerWrite? && !run[k - 1 + 1].job.active;
    }
  }

  lemma NewlyFinalizing(n: nat, s: System, step: Step)
    requires Shape(n, s) && Enabled(n, s, step) && !s.finalizing
    ensures Apply(n, s, step).finalizing <==> step.ControllerWrite? && !Apply(n, s, step).job.active
  {
    hide Decide, Enqueue, Increment;
    if OfWorker(step) {
      hide ApplyJob, ApplyController;
    } else if OfController(step) {
      hide ApplyJob, ApplyWorker;
    } else {
      hide ApplyWorker, ApplyController;
    }
  }

  // ----- executions that begin under an abort command -----

  ghost predicate Obeys(s: System, id: nat, w: Worker) {
    id in s.workers ==> s.workers[id] == w
  }

  lemma ObeysOn(n: nat, s: System, step: Step, id: nat, w: Worker)
    requires Shape(n, s) && Enabled(n, s, step) && Obeys(s, id, w) && w.phase == AbortSeen && w.pending == {}
    requires !(step.WorkerStart? && step.id == id)
    ensures Obeys(Apply(n, s, step), id, w)
  {
    hide Increment, Enqueue, Decide;
    if OfWorker(step) {
      hide ApplyJob, ApplyController;
      WorkerObeys(n, s, step, id, w);
    }
  }

  lemma WorkerObeys(n: nat, s: System, step: Step, id: nat, w: Worker)
    requires Shape(n, s) && Enabled(n, s, step) && OfWorker(step) && Obeys(s, id, w) && w.phase == AbortSeen && w.pending == {}
    requires !(step.WorkerStart? && step.id == id)
    ensures Obeys(ApplyWorker(n, s, step), id, w)
  {
    hide Increment, Enqueue;
    if step.WorkerSpill? && step.id == id && id in s.workers {
      assert w.pending - step.items == {};
    }
  }

  /**
   In every run, an execution that starts after an abort command was stored handles no item, for as long as it lasts:
   until another execution takes its number, its copy stays as it was read.
   */
  lemma {:induction false} AbortedStartHandlesNothing(n: nat, run: seq<System>, steps: seq<Step>, j: nat, k: nat)
    requires IsRun(n, run, steps) && j < k < |run| && steps[j].WorkerStart? && run[j].abort && steps[j].id in run[j + 1].workers
    requires forall m :: j < m < k ==> !(steps[m].WorkerStart? && steps[m].id == steps[j].id)
    ensures var w := run[j + 1].workers[steps[j].id];
            w.phase == AbortSeen && w.pending == {} && Obeys(run[k], steps[j].id, w)
    ensures k < |steps| ==> !((steps[k].WorkerItem? || steps[k].WorkerFlush? || steps[k].WorkerCommit?) && steps[k].id == steps[j].id)
    decreases k
  {
    hide Apply;
    StartUnderAbort(n, run[j], steps[j]);
    if k > j + 1 {
      AbortedStartHandlesNothing(n, run, steps, j, k - 1);
      ObeysOn(n, run[k - 1], steps[k - 1], steps[j].id, run[j + 1].workers[steps[j].id]);
    }
  }

  lemma StartUnderAbort(n: nat, s: System, step: Step)
    requires Shape(n, s) && Enabled(n, s, step) && step.WorkerStart? && s.abort && step.id in Apply(n, s, step).workers
    ensures var w := Apply(n, s, step).workers[step.id]; w.phase == AbortSeen && w.pending == {}
  {
    hide ApplyJob, ApplyController;
  }

  // ----- one slice without faults -----

  function EndStep(id: nat, last: bool): seq<Step> {
    if last then [WorkerEnd(id)] else []
  }

  function NextStep(id: nat, last: bool): seq<Step> {
    if last then [] else [WorkerReschedule(id)]
  }

  /** Slice k of shard i: its items, the end of the scan if it is the last one, flush, commit, and else the next slice. */
  function SliceSteps(i: nat, k: nat, len: nat, last: bool): seq<Step> {
    [WorkerStart(i, i, k)] + Items(i, len) + (EndStep(i, last) + [WorkerFlush(i), WorkerCommit(i)] + NextStep(i, last))
  }

  // A shard at work whose slice k is queued, and nothing behind it.
  ghost predicate SliceReady(n: nat, s: System, i: nat, k: nat, len: nat) {
    && Shape(n, s) && i < n && i !in s.workers && !s.abort
    && s.shards[i].Some? && s.shards[i].value.active
    && k in s.queue[i] && s.queue[i][k].pos + len <= |s.queue[i][k].reader| && k + 1 !in s.queue[i]
  }

  function Opened(s: System, i: nat, k: nat): Worker
    requires i < |s.shards| == |s.queue| && k in s.queue[i] && s.shards[i].Some?
  {
    Worker(i, k, s.queue[i][k].reader, s.queue[i][k].pos, s.shards[i].value, {}, Scanning)
  }

  function Ended(w: Worker, last: bool): Worker {
    if last then w.(local := w.local.(active := false, result := Some(Succeeded))) else w
  }

  function WithTask(tasks: map<nat, Task>, slice: nat, task: Task): map<nat, Task> {
    tasks[slice := task]
  }

  // The state behind the commit.
  function Written(s: System, i: nat, w: Worker): System
    requires i < |s.shards| && i < |s.flushed|
  {
    s.(shards := s.shards[i := Some(w.local)], flushed := s.flushed[i := s.flushed[i] + w.pending],
       workers := s.workers[i := w.(pending := {}, phase := Committed)])
  }

  ghost function AfterSlice(n: nat, s: System, i: nat, k: nat, len: nat, last: bool): System
    requires SliceReady(n, s, i, k, len)
  {
    var w := Ended(AfterItems(Opened(s, i, k), len), last);
    if last then Written(s, i, w)
    else Written(s, i, w).(queue := s.queue[i := WithTask(s.queue[i], k + 1, Task(w.reader, w.pos))], workers := s.workers)
  }

  lemma Begins(n: nat, s: System, i: nat, k: nat, len: nat)
    requires SliceReady(n, s, i, k, len)
    ensures Leads(n, s, WorkerStart(i, i, k), s.(workers := s.workers[i := Opened(s, i, k)]))
  {
    hide ApplyJob, ApplyController;
  }

  lemma Ends(n: nat, s: System, i: nat, w: Worker)
    requires Shape(n, s) && i < n && i in s.workers && s.workers[i] == w && w.shard == i && w.phase == Scanning && w.pos == |w.reader|
    ensures Leads(n, s, WorkerEnd(i), s.(workers := s.workers[i := Ended(w, true)]))
  {
    hide ApplyJob, ApplyController;
  }

  lemma Flushes(n: nat, s: System, i: nat, w: Worker)
    requires Shape(n, s) && i < n && i in s.workers && s.workers[i] == w && w.shard == i && w.phase == Scanning
    ensures Leads(n, s, WorkerFlush(i), s.(flushed := s.flushed[i := s.flushed[i] + w.pending],
                                            workers := s.workers[i := w.(pending := {}, phase := Flushed)]))
  {
    hide ApplyJob, ApplyController;
  }

  lemma Commits(n: nat, s: System, i: nat, w: Worker)
    requires Shape(n, s) && i < n && i in s.workers && s.workers[i] == w && w.shard == i && w.phase == Flushed
    requires s.shards[i].Some? && s.shards[i].value.active
    ensures Leads(n, s, WorkerCommit(i), s.(shards := s.shards[i := Some(w.local)], workers := s.workers[i := w.(phase := Committed)]))
  {
    hide ApplyJob, ApplyController;
  }

  lemma Reschedules(n: nat, s: System, i: nat, w: Worker)
    requires Shape(n, s) && i < n && i in s.workers && s.workers[i] == w && w.shard == i && w.phase == Committed && w.local.active
    requires w.slice + 1 !in s.queue[i]
    ensures Leads(n, s, WorkerReschedule(i), s.(queue := s.queue[i := WithTask(s.queue[i], w.slice + 1, Task(w.reader, w.pos))],
                                                 workers := s.workers - {i}))
  {
    hide ApplyJob, ApplyController;
  }

  // Flush and commit of a scan that is over.
  lemma Writes(n: nat, s: System, i: nat, w: Worker, base: map<nat, Worker>)
    requires Shape(n, s) && i < n && s.workers == base[i := w] && w.shard == i && w.phase == Scanning
    requires s.shards[i].Some? && s.shards[i].value.active
    ensures Shape(n, Written(s, i, w)) && Perform(n, s, [WorkerFlush(i), WorkerCommit(i)]) == Some(Written(s, i, w))
  {
    hide Enabled, Apply, Perform;
    var mid := s.(flushed := s.flushed[i := s.flushed[i] + w.pending], workers := s.workers[i := w.(pending := {}, phase := Flushed)]);
    Flushes(n, s, i, w);
    Commits(n, mid, i, w.(pending := {}, phase := Flushed));
    assert mid.workers[i := w.(pending := {}, phase := Committed)] == s.workers[i := w.(pending := {}, phase := Committed)];
    ChainPerforms(n, [s, mid, Written(s, i, w)], [WorkerFlush(i), WorkerCommit(i)]);
  }

  lemma OneStep(n: nat, s: System, step: Step, s': System)
    requires Leads(n, s, step, s')
    ensures Perform(n, s, [step]) == Some(s')
  {
    hide Enabled, Apply, Perform;
    ChainPerforms(n, [s, s'], [step]);
  }

  lemma NoSteps(n: nat, s: System)
    requires Shape(n, s)
    ensures Perform(n, s, []) == Some(s)
  {}

  // What follows the items.
  lemma Closes(n: nat, s: System, i: nat, w: Worker, base: map<nat, Worker>, last: bool)
    requires Shape(n, s) && i < n && i !in base && s.workers == base[i := w] && w.shard == i && w.phase == Scanning
    requires s.shards[i].Some? && s.shards[i].value.active && w.local.active
    requires if last then w.pos == |w.reader| else w.slice + 1 !in s.queue[i]
    ensures Perform(n, s, EndStep(i, last) + [WorkerFlush(i), WorkerCommit(i)] + NextStep(i, last)) ==
            Some(if last then Written(s, i, Ended(w, true))
                 else Written(s, i, w).(queue := s.queue[i := WithTask(s.queue[i], w.slice + 1, Task(w.reader, w.pos))], workers := base))
  {
    hide Enabled, Apply, Perform;
    if last {
      var ended := s.(workers := s.workers[i := Ended(w, true)]);
      Ends(n, s, i, w);
      OneStep(n, s, WorkerEnd(i), ended);
      assert ended.workers == base[i := Ended(w, true)];
      Writes(n, ended, i, Ended(w, true), base);
      PerformInParts(n, s, [WorkerEnd(i)], [WorkerFlush(i), WorkerCommit(i)]);
      assert [WorkerEnd(i)] + [WorkerFlush(i), WorkerCommit(i)] + [] == [WorkerEnd(i)] + [WorkerFlush(i), WorkerCommit(i)];
      assert Written(ended, i, Ended(w, true)).workers == Written(s, i, Ended(w, true)).workers;
    } else {
      Writes(n, s, i, w, base);
      var written := Written(s, i, w);
      Reschedules(n, written, i, w.(pending := {}, phase := Committed));
      assert written.workers - {i} == base;
      OneStep(n, written, WorkerReschedule(i),
              written.(queue := s.queue[i := WithTask(s.queue[i], w.slice + 1, Task(w.reader, w.pos))], workers := base));
      PerformInParts(n, s, [WorkerFlush(i), WorkerCommit(i)], [WorkerReschedule(i)]);
      assert [] + [WorkerFlush(i), WorkerCommit(i)] + [WorkerReschedule(i)] == [WorkerFlush(i), WorkerCommit(i)] + [WorkerReschedule(i)];
    }
  }

  lemma SliceRuns(n: nat, s: System, i: nat, k: nat, len: nat, last: bool)
    requires SliceReady(n, s, i, k, len) && (last ==> s.queue[i][k].pos + len == |s.queue[i][k].reader|)
    ensures Perform(n, s, SliceSteps(i, k, len, last)) == Some(AfterSlice(n, s, i, k, len, last))
  {
    hide Enabled, Apply, Perform, EndStep, NextStep, AfterItems, Items;
    var w0 := Opened(s, i, k);
    var s1 := s.(workers := s.workers[i := w0]);
    Begins(n, s, i, k, len);
    OneStep(n, s, WorkerStart(i, i, k), s1);
    ItemsAreSteps(n, s1, i, len);
    AfterItemsIs(w0, len);
    var w := AfterItems(w0, len);
    var s2 := s1.(workers := s1.workers[i := w]);
    PerformInParts(n, s, [WorkerStart(i, i, k)], Items(i, len));
    assert s2.workers == s.workers[i := w];
    Closes(n, s2, i, w, s.workers, last);
    PerformInParts(n, s, [WorkerStart(i, i, k)] + Items(i, len), EndStep(i, last) + [WorkerFlush(i), WorkerCommit(i)] + NextStep(i, last));
    assert s2.workers[i := Ended(w, last).(pending := {}, phase := Committed)] == s.workers[i := Ended(w, last).(pending := {}, phase := Committed)];
  }

  // ----- one shard without faults -----

  function Total(slices: seq<nat>): nat {
    if slices == [] then 0 else slices[0] + Total(slices[1..])
  }

  /** The slices of shard i from number k on. */
  function ShardSteps(i: nat, k: nat, slices: seq<nat>): seq<Step>
    requires slices != []
    decreases |slices|
  {
    if |slices| == 1 then SliceSteps(i, k, slices[0], true)
    else SliceSteps(i, k, slices[0], false) + ShardSteps(i, k + 1, slices[1..])
  }

  // The items so far are durable and counted, and slice k is the newest.
  ghost predicate ShardAt(n: nat, s: System, i: nat, k: nat, reader: seq<Item>, pos: nat) {
    && Shape(n, s) && i < n && i !in s.workers && !s.abort
    && s.shards[i].Some? && s.shards[i].value.active && Get(s.shards[i].value.counters, CALLS) == pos
    && k in s.queue[i] && s.queue[i][k] == Task(reader, pos) && (forall m :: m in s.queue[i] ==> m <= k)
    && Done(s.flushed[i], reader, pos)
  }

  // The shard is stored as successful, all its items durable and counted.
  ghost predicate ShardDone(n: nat, s: System, i: nat, reader: seq<Item>) {
    && Shape(n, s) && i < n
    && HasSucceeded(s.shards[i]) && !s.shards[i].value.active && Get(s.shards[i].value.counters, CALLS) == |reader|
    && Done(s.flushed[i], reader, |reader|)
  }

  ghost predicate OthersAlone(s: System, s': System, i: nat) {
    && s'.job == s.job && s'.abort == s.abort && s'.controllers == s.controllers && s'.kickoffs == s.kickoffs
    && s'.controllerQueued == s.controllerQueued && s'.finalizing == s.finalizing
    && |s'.shards| == |s.shards| && |s'.queue| == |s.queue| && |s'.flushed| == |s.flushed|
    && (forall j :: 0 <= j < |s.shards| && j != i ==> s'.shards[j] == s.shards[j])
    && (forall j :: 0 <= j < |s.queue| && j != i ==> s'.queue[j] == s.queue[j])
    && (forall j :: 0 <= j < |s.flushed| && j != i ==> s'.flushed[j] == s.flushed[j])
    && (forall id :: id != i ==> (id in s'.workers <==> id in s.workers))
  }

  lemma DoneFurther(flushed: set<Item>, reader: seq<Item>, pos: nat, items: set<Item>, to: nat)
    requires Done(flushed, reader, pos) && pos <= to <= |reader| && forall x :: x in items <==> x in reader[pos..to]
    ensures Done(flushed + items, reader, to)
  {
    forall k | 0 <= k < to ensures reader[k] in flushed + items {
      if k >= pos {
        assert reader[pos..to][k - pos] == reader[k];
      }
    }
  }

  lemma WrittenAlone(s: System, i: nat, w: Worker)
    requires i < |s.shards| == |s.queue| == |s.flushed|
    ensures OthersAlone(s, Written(s, i, w), i)
  {}

  lemma AfterSliceAlone(n: nat, s: System, i: nat, k: nat, len: nat, last: bool)
    requires SliceReady(n, s, i, k, len)
    ensures Shape(n, AfterSlice(n, s, i, k, len, last)) && OthersAlone(s, AfterSlice(n, s, i, k, len, last), i)
  {
    hide AfterItems, Ended, WithTask;
    WrittenAlone(s, i, Ended(AfterItems(Opened(s, i, k), len), last));
  }

  lemma LastSlice(n: nat, s: System, i: nat, k: nat, reader: seq<Item>, pos: nat, len: nat)
    requires ShardAt(n, s, i, k, reader, pos) && pos + len == |reader|
    ensures SliceReady(n, s, i, k, len) && ShardDone(n, AfterSlice(n, s, i, k, len, true), i, reader)
  {
    AfterItemsIs(Opened(s, i, k), len);
    hide AfterItems, Done;
    DoneFurther(s.flushed[i], reader, pos, AfterItems(Opened(s, i, k), len).pending, pos + len);
  }

  lemma NextSlice(n: nat, s: System, i: nat, k: nat, reader: seq<Item>, pos: nat, len: nat)
    requires ShardAt(n, s, i, k, reader, pos) && pos + len <= |reader|
    ensures SliceReady(n, s, i, k, len) && ShardAt(n, AfterSlice(n, s, i, k, len, false), i, k + 1, reader, pos + len)
  {
    AfterItemsIs(Opened(s, i, k), len);
    hide AfterItems, Done;
    DoneFurther(s.flushed[i], reader, pos, AfterItems(Opened(s, i, k), len).pending, pos + len);
  }

  lemma SliceAdvances(n: nat, s: System, i: nat, k: nat, reader: seq<Item>, pos: nat, len: nat, last: bool)
    requires ShardAt(n, s, i, k, reader, pos) && pos + len <= |reader| && (last ==> pos + len == |reader|)
    ensures Shape(n, s)
    ensures var r := Perform(n, s, SliceSteps(i, k, len, last));
            && r.Some? && OthersAlone(s, r.value, i)
            && (if last then ShardDone(n, r.value, i, reader) else ShardAt(n, r.value, i, k + 1, reader, pos + len))
  {
    hide Perform, SliceSteps, Done, AfterSlice, OthersAlone, ShardDone;
    if last {
      LastSlice(n, s, i, k, reader, pos, len);
    } else {
      NextSlice(n, s, i, k, reader, pos, len);
    }
    SliceRuns(n, s, i, k, len, last);
    AfterSliceAlone(n, s, i, k, len, last);
  }

  lemma OthersAloneTwice(s: System, s1: System, s2: System, i: nat)
    requires OthersAlone(s, s1, i) && OthersAlone(s1, s2, i)
    ensures OthersAlone(s, s2, i)
  {}

  /** For every reader and all slice lengths that add up to it: the shard ends successful with every item durable. */
  lemma {:induction false} ShardSucceeds(n: nat, s: System, i: nat, k: nat, reader: seq<Item>, pos: nat, slices: seq<nat>)
    requires ShardAt(n, s, i, k, reader, pos) && slices != [] && pos + Total(slices) == |reader|
    ensures var r := Perform(n, s, ShardSteps(i, k, slices));
            r.Some? && OthersAlone(s, r.value, i) && ShardDone(n, r.value, i, reader)
    decreases |slices|
  {
    hide Perform, SliceSteps, ShardAt, ShardDone, OthersAlone;
    var last := |slices| == 1;
    assert last ==> Total(slices[1..]) == 0;
    ShapeOf(n, s, i, k, reader, pos);
    SliceAdvances(n, s, i, k, reader, pos, slices[0], last);
    if !last {
      var next := Perform(n, s, SliceSteps(i, k, slices[0], false)).value;
      ShardSucceeds(n, next, i, k + 1, reader, pos + slices[0], slices[1..]);
      PerformInParts(n, s, SliceSteps(i, k, slices[0], false), ShardSteps(i, k + 1, slices[1..]));
      OthersAloneTwice(s, next, Perform(n, next, ShardSteps(i, k + 1, slices[1..])).value, i);
    }
  }

  lemma ShapeOf(n: nat, s: System, i: nat, k: nat, reader: seq<Item>, pos: nat)
    requires ShardAt(n, s, i, k, reader, pos)
    ensures Shape(n, s)
  {}

  // ----- a whole job without faults -----

  function Schedules(m: nat): seq<Step> {
    if m == 0 then [] else Schedules(m - 1) + [KickoffSchedule(0, m - 1)]
  }

  function KickoffSteps(n: nat, split: seq<seq<Item>>): seq<Step> {
    [KickoffStart(0, split), KickoffLook(0), KickoffCreate(0)] + Schedules(n) + [KickoffController(0)]
  }

  function Reads(m: nat): seq<Step> {
    if m == 0 then [] else Reads(m - 1) + [ControllerRead(0, m - 1)]
  }

  function ControllerSteps(n: nat): seq<Step> {
    [ControllerStart(0)] + Reads(n) + [ControllerWrite(0)]
  }

  function AllShardSteps(slices: seq<seq<nat>>, m: nat): seq<Step>
    requires m <= |slices| && forall i :: 0 <= i < |slices| ==> slices[i] != []
  {
    if m == 0 then [] else AllShardSteps(slices, m - 1) + ShardSteps(m - 1, 0, slices[m - 1])
  }

  function JobSteps(split: seq<seq<Item>>, slices: seq<seq<nat>>): seq<Step>
    requires |slices| == |split| && forall i :: 0 <= i < |slices| ==> slices[i] != []
  {
    KickoffSteps(|split|, split) + AllShardSteps(slices, |slices|) + ControllerSteps(|split|)
  }

  // The kickoff has queued slice 0 of the first m shards.
  function Kicked(n: nat, split: seq<seq<Item>>, m: nat, queued: bool): System
    requires |split| == n
  {
    System(NEW_JOB, false, seq(n, _ => Some(FRESH)), seq(n, i requires 0 <= i < n => FirstTask(split, i, m)), seq(n, _ => {}),
           map[], map[], map[0 := Created(split)], queued, false)
  }

  function FirstTask(split: seq<seq<Item>>, i: nat, m: nat): map<nat, Task>
    requires i < |split|
  {
    if i < m then map[0 := Task(split[i], 0)] else map[]
  }

  lemma JobCreated(n: nat, split: seq<seq<Item>>)
    requires |split| == n
    ensures Perform(n, Initial(n), [KickoffStart(0, split), KickoffLook(0), KickoffCreate(0)]) == Some(Kicked(n, split, 0, false))
  {
    hide Enabled, Apply, Perform;
    var s0 := Initial(n);
    var s1 := s0.(kickoffs := map[0 := Starting(split)]);
    var s2 := s0.(kickoffs := map[0 := Looked(split, {})]);
    Started(n, s0, 0, split);
    assert s0.kickoffs[0 := Starting(split)] == s1.kickoffs;
    LookedFor(n, s1, 0, split, {});
    assert s1.kickoffs[0 := Looked(split, {})] == s2.kickoffs;
    CreatedAll(n, s2, 0, split, {});
    var s3 := Kicked(n, split, 0, false);
    assert CreateMissing(s2.shards, {}) == s3.shards && s2.kickoffs[0 := Created(split)] == s3.kickoffs && s0.queue == s3.queue;
    ChainPerforms(n, [s0, s1, s2, s3], [KickoffStart(0, split), KickoffLook(0), KickoffCreate(0)]);
  }

  lemma {:induction false} AllScheduled(n: nat, split: seq<seq<Item>>, m: nat)
    requires |split| == n && m <= n
    ensures Perform(n, Kicked(n, split, 0, false), Schedules(m)) == Some(Kicked(n, split, m, false))
  {
    hide Enabled, Apply, Perform;
    if m == 0 {
      NoSteps(n, Kicked(n, split, 0, false));
    } else {
      AllScheduled(n, split, m - 1);
      var s, s' := Kicked(n, split, m - 1, false), Kicked(n, split, m, false);
      QueuedSlice(n, s, 0, split, m - 1);
      assert s.queue[m - 1 := Enqueue(s.queue[m - 1], 0, Task(split[m - 1], 0))] == s'.queue;
      OneStep(n, s, KickoffSchedule(0, m - 1), s');
      PerformInParts(n, Kicked(n, split, 0, false), Schedules(m - 1), [KickoffSchedule(0, m - 1)]);
    }
  }

  lemma JobKicked(n: nat, split: seq<seq<Item>>)
    requires |split| == n
    ensures Perform(n, Initial(n), KickoffSteps(n, split)) == Some(Kicked(n, split, n, true))
  {
    hide Enabled, Apply, Perform, Schedules;
    var create := [KickoffStart(0, split), KickoffLook(0), KickoffCreate(0)];
    JobCreated(n, split);
    AllScheduled(n, split, n);
    PerformInParts(n, Initial(n), create, Schedules(n));
    QueuedController(n, Kicked(n, split, n, false), 0, split);
    OneStep(n, Kicked(n, split, n, false), KickoffController(0), Kicked(n, split, n, true));
    PerformInParts(n, Initial(n), create + Schedules(n), [KickoffController(0)]);
  }

  // The first m shards are done, the others as the kickoff left them.
  ghost predicate Worked(n: nat, s: System, split: seq<seq<Item>>, m: nat) {
    && |split| == n && Shape(n, s) && s.job == NEW_JOB && !s.abort && s.controllers == map[] && s.controllerQueued && !s.finalizing
    && (forall i :: 0 <= i < m && i < n ==> ShardDone(n, s, i, split[i]))
    && (forall i :: m <= i < n ==> ShardAt(n, s, i, 0, split[i], 0))
  }

  lemma KickedIsWorked(n: nat, split: seq<seq<Item>>)
    requires |split| == n
    ensures Worked(n, Kicked(n, split, n, true), split, 0)
  {}

  lemma OneMoreShard(n: nat, s: System, s': System, split: seq<seq<Item>>, m: nat)
    requires Worked(n, s, split, m) && m < n && OthersAlone(s, s', m) && ShardDone(n, s', m, split[m])
    ensures Worked(n, s', split, m + 1)
  {}

  lemma {:induction false} AllShardsSucceed(n: nat, s: System, split: seq<seq<Item>>, slices: seq<seq<nat>>, m: nat)
    requires Worked(n, s, split, 0) && |slices| == n && m <= n && forall i :: 0 <= i < n ==> slices[i] != [] && Total(slices[i]) == |split[i]|
    ensures var r := Perform(n, s, AllShardSteps(slices, m)); r.Some? && Worked(n, r.value, split, m)
  {
    hide Perform, ShardSteps, ShardAt, ShardDone, OthersAlone;
    if m == 0 {
      NoSteps(n, s);
    } else {
      AllShardsSucceed(n, s, split, slices, m - 1);
      var mid := Perform(n, s, AllShardSteps(slices, m - 1)).value;
      ShardSucceeds(n, mid, m - 1, 0, split[m - 1], 0, slices[m - 1]);
      PerformInParts(n, s, AllShardSteps(slices, m - 1), ShardSteps(m - 1, 0, slices[m - 1]));
      OneMoreShard(n, mid, Perform(n, mid, ShardSteps(m - 1, 0, slices[m - 1])).value, split, m - 1);
    }
  }

  // ----- the controller at its end -----

  function Read(s: System, m: nat): map<nat, Option<ShardState>>
    requires m <= |s.shards|
  {
    map i | 0 <= i < m :: s.shards[i]
  }

  function Reading(s: System, m: nat): System
    requires m <= |s.shards|
  {
    s.(controllers := map[0 := Controller(s.job, s.abort, Read(s, m))])
  }

  lemma {:induction false} AllRead(n: nat, s: System, m: nat)
    requires Shape(n, s) && m <= n
    ensures Perform(n, Reading(s, 0), Reads(m)) == Some(Reading(s, m))
  {
    hide Enabled, Apply, Perform;
    if m == 0 {
      NoSteps(n, Reading(s, 0));
    } else {
      AllRead(n, s, m - 1);
      ReadOne(n, s, m - 1);
      OneStep(n, Reading(s, m - 1), ControllerRead(0, m - 1), Reading(s, m));
      PerformInParts(n, Reading(s, 0), Reads(m - 1), [ControllerRead(0, m - 1)]);
    }
  }

  lemma ReadIs(n: nat, s: System, id: nat, i: nat, c: Controller)
    requires Shape(n, s) && i < n && id in s.controllers && s.controllers[id] == c && i !in c.seen
    ensures Leads(n, s, ControllerRead(id, i), s.(controllers := s.controllers[id := c.(seen := c.seen[i := s.shards[i]])]))
  {
    hide ApplyJob, ApplyWorker;
  }

  lemma ReadOne(n: nat, s: System, m: nat)
    requires Shape(n, s) && m < n
    ensures Leads(n, Reading(s, m), ControllerRead(0, m), Reading(s, m + 1))
  {
    hide Leads;
    ReadIs(n, Reading(s, m), 0, m, Controller(s.job, s.abort, Read(s, m)));
    assert Read(s, m)[m := s.shards[m]] == Read(s, m + 1);
    assert Reading(s, m).controllers[0 := Controller(s.job, s.abort, Read(s, m + 1))] == Reading(s, m + 1).controllers;
  }

  lemma StartReading(n: nat, s: System)
    requires Shape(n, s) && s.controllers == map[] && s.controllerQueued
    ensures Leads(n, s, ControllerStart(0), Reading(s, 0))
  {
    hide ApplyJob, ApplyWorker;
    assert Read(s, 0) == map[];
  }

  function Sizes(split: seq<seq<Item>>, m: nat): nat
    requires m <= |split|
  {
    if m == 0 then 0 else Sizes(split, m - 1) + |split[m - 1]|
  }

  lemma CallsOf(n: nat, s: System, split: seq<seq<Item>>, i: nat)
    requires Worked(n, s, split, n) && i < n
    ensures s.shards[i].Some? && Get(s.shards[i].value.counters, CALLS) == |split[i]|
  {
    hide ShardAt;
    assert ShardDone(n, s, i, split[i]);
  }

  lemma SumOneMore(states: seq<ShardState>, state: ShardState)
    ensures Get(SumCounters(states + [state]), CALLS) == Get(SumCounters(states), CALLS) + Get(state.counters, CALLS)
  {
    hide Get;
    assert (states + [state])[..|states|] == states;
  }

  lemma {:induction false} CallsCounted(n: nat, s: System, split: seq<seq<Item>>, seen: map<nat, Option<ShardState>>, m: nat)
    requires Worked(n, s, split, n) && m <= n && forall i :: 0 <= i < m ==> i in seen && seen[i] == s.shards[i]
    ensures Get(SumCounters(Present(m, seen)), CALLS) == Sizes(split, m)
  {
    hide ShardAt, ShardDone, Get;
    if m > 0 {
      CallsCounted(n, s, split, seen, m - 1);
      CallsOf(n, s, split, m - 1);
      hide SumCounters;
      SumOneMore(Present(m - 1, seen), seen[m - 1].value);
    } else {
      NoCalls();
    }
  }

  lemma NoCalls()
    ensures Get(SumCounters([]), CALLS) == 0
  {}

  lemma WriteEnds(n: nat, s: System, split: seq<seq<Item>>)
    requires Worked(n, s, split, n)
    ensures Enabled(n, Reading(s, n), ControllerWrite(0))
    ensures var s' := Apply(n, Reading(s, n), ControllerWrite(0));
            && s'.job.result == Some(Succeeded) && !s'.job.active && Get(s'.job.counters, CALLS) == Sizes(split, n)
            && s'.shards == s.shards && s'.flushed == s.flushed && s'.queue == s.queue
  {
    hide ApplyJob, ApplyWorker, Done, ShardAt;
    var seen := Read(s, n);
    ControllerDecides(n, NEW_JOB, false, seen);
    CallsCounted(n, s, split, seen, n);
    forall i | 0 <= i < n
      ensures seen[i].Some? && !seen[i].value.active && seen[i].value.result == Some(Succeeded)
    {
      assert ShardDone(n, s, i, split[i]);
    }
    DecidedCounters(n, NEW_JOB, false, Present(n, seen));
    hide Decide;
  }

  lemma DecidedCounters(n: nat, job: JobState, abort: bool, states: seq<ShardState>)
    ensures Decide(n, job, abort, states).0.counters == SumCounters(states)
  {}

  /**
   For every split and all slice lengths that add up to its readers: without faults the job ends in success, every
   shard stored as successful, every item durable, and as many handler calls counted as there are items.
   */
  lemma JobSucceeds(n: nat, split: seq<seq<Item>>, slices: seq<seq<nat>>)
    requires |split| == |slices| == n && forall i :: 0 <= i < n ==> slices[i] != [] && Total(slices[i]) == |split[i]|
    ensures var r := Perform(n, Initial(n), JobSteps(split, slices));
            && r.Some? && r.value.job.result == Some(Succeeded) && !r.value.job.active
            && Get(r.value.job.counters, "mapper-calls") == Sizes(split, n)
            && forall i :: 0 <= i < n ==> ShardDone(n, r.value, i, split[i])
  {
    hide Enabled, Apply, Perform, KickoffSteps, AllShardSteps, Reads, Done;
    JobKicked(n, split);
    KickedIsWorked(n, split);
    var s0 := Kicked(n, split, n, true);
    AllShardsSucceed(n, s0, split, slices, n);
    var s := Perform(n, s0, AllShardSteps(slices, n)).value;
    PerformInParts(n, Initial(n), KickoffSteps(n, split), AllShardSteps(slices, n));
    StartReading(n, s);
    OneStep(n, s, ControllerStart(0), Reading(s, 0));
    AllRead(n, s, n);
    PerformInParts(n, s, [ControllerStart(0)], Reads(n));
    WriteEnds(n, s, split);
    var end := Apply(n, Reading(s, n), ControllerWrite(0));
    OneStep(n, Reading(s, n), ControllerWrite(0), end);
    PerformInParts(n, s, [ControllerStart(0)] + Reads(n), [ControllerWrite(0)]);
    PerformInParts(n, Initial(n), KickoffSteps(n, split) + AllShardSteps(slices, n), ControllerSteps(n));
    forall i | 0 <= i < n ensures ShardDone(n, end, i, split[i]) {
      assert ShardDone(n, s, i, split[i]);
    }
  }
}
