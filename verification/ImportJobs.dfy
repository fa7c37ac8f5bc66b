/** The life of an import job: handlers, background workers, and restarts, interleaved. */
module ImportJobs {
  import opened Text
  import opened Sets

  datatype Status = Uploaded | Scanning | AwaitingMapping | Importing | Completed | Failed | Cancelled

  predicate Active(s: Status) { s.Uploaded? || s.Scanning? || s.Importing? }

  predicate Terminal(s: Status) { s.Completed? || s.Failed? || s.Cancelled? }

  /** `spooled` says that the job still names a spool file; `routed` that it has a routing or a default vCenter. */
  datatype Job = Job(status: Status, spooled: bool, routed: bool, cancelRequested: bool)

  /** A background task, from the moment it is queued until it returns. */
  datatype Worker = ScanQueued | InScan | ImportQueued | InImport

  datatype System = System(jobs: map<int, Job>, workers: map<int, Worker>)

  datatype Step =
    | Upload(id: int, routed: bool)          // POST /imports/rvtools
    | StartImport(id: int, routed: bool)     // POST /imports/{id}/start
    | CancelImport(id: int)                  // POST /imports/{id}/cancel
    | ScanBegins(id: int)                    // the queued scan is picked up
    | ScanEnds(id: int, failed: bool)        // ... and has read the file
    | ImportBegins(id: int)                  // the queued import is picked up
    | ImportEnds(id: int, outcome: Status)   // ... and has reached its end
    | Restart(files: set<int>)               // the appliance comes back with these spool files

  function Finish(job: Job, status: Status): Job
  {
    job.(status := status, spooled := false)
  }

  predicate Busy(s: System)
  {
    exists id :: id in s.jobs && Active(s.jobs[id].status)
  }

  /** Startup recovery of one job. */
  function Recover(job: Job, fileExists: bool): Job
  {
    if Active(job.status) || (job.status.AwaitingMapping? && !(job.spooled && fileExists)) then Finish(job, Failed)
    else job
  }

  /** Whether the step can happen at all; a refused request is no step. */
  predicate Enabled(s: System, step: Step)
  {
    match step
    case Upload(id, _) => id !in s.jobs && !Busy(s)
    case StartImport(id, routed) => id in s.jobs && s.jobs[id].status == AwaitingMapping && routed && !Busy(s)
    case CancelImport(id) => id in s.jobs
    case ScanBegins(id) => id in s.jobs && id in s.workers && s.workers[id] == ScanQueued
    case ScanEnds(id, _) => id in s.jobs && id in s.workers && s.workers[id] == InScan
    case ImportBegins(id) => id in s.jobs && id in s.workers && s.workers[id] == ImportQueued
    case ImportEnds(id, outcome) =>
      && id in s.jobs && id in s.workers && s.workers[id] == InImport && Terminal(outcome)
      && (outcome.Cancelled? ==> s.jobs[id].cancelRequested)
    case Restart(_) => true
  }

  function Next(s: System, step: Step): System
    requires Enabled(s, step)
  {
    match step
    case Upload(id, routed) =>
      System(s.jobs[id := Job(Uploaded, true, routed, false)], s.workers[id := ScanQueued])
    case StartImport(id, routed) =>
      System(s.jobs[id := s.jobs[id].(status := Importing, routed := routed)], s.workers[id := ImportQueued])
    case CancelImport(id) =>
      var job := s.jobs[id];
      s.(jobs := s.jobs[id := if Terminal(job.status) then job
                              else if job.status.AwaitingMapping? then Finish(job, Cancelled)
                              else job.(cancelRequested := true)])
    case ScanBegins(id) =>
      if s.jobs[id].status != Uploaded then s.(workers := s.workers - {id})
      else System(s.jobs[id := s.jobs[id].(status := Scanning)], s.workers[id := InScan])
    case ScanEnds(id, failed) =>
      if failed then System(s.jobs[id := Finish(s.jobs[id], Failed)], s.workers - {id})
      else if s.jobs[id].routed then System(s.jobs[id := s.jobs[id].(status := Importing)], s.workers[id := InImport])
      else System(s.jobs[id := s.jobs[id].(status := AwaitingMapping)], s.workers - {id})
    case ImportBegins(id) =>
      if s.jobs[id].status != Importing then s.(workers := s.workers - {id})
      else s.(workers := s.workers[id := InImport])
    case ImportEnds(id, outcome) =>
      System(s.jobs[id := Finish(s.jobs[id], outcome)], s.workers - {id})
    case Restart(files) =>
      System(map id | id in s.jobs :: Recover(s.jobs[id], id in files), map[])
  }

  // ------------------------------------------------------------------
  // The handlers as they run
  // ------------------------------------------------------------------

  class ImportService {
    var jobs: map<int, Job>
    var workers: map<int, Worker>

    function View(): System
      reads this
    {
      System(jobs, workers)
    }

    constructor ()
      ensures View() == System(map[], map[])
    {
      jobs, workers := map[], map[];
    }

    method AnotherIsRunning() returns (busy: bool)
      ensures busy == Busy(View())
    {
      var rest := jobs.Keys;
      busy := false;
      while |rest| > 0
        invariant rest <= jobs.Keys
        invariant busy == exists id :: id in jobs.Keys - rest && Active(jobs[id].status)
        decreases rest
      {
        var id := Pick(rest);
        rest := rest - {id};
        if Active(jobs[id].status) {
          busy := true;
        }
      }
    }

    /** Refused while another import is active. */
    method UploadRvtools(id: int, routed: bool) returns (accepted: bool)
      requires id !in jobs
      modifies this
      ensures accepted == Enabled(old(View()), Upload(id, routed))
      ensures View() == if accepted then Next(old(View()), Upload(id, routed)) else old(View())
    {
      var busy := AnotherIsRunning();
      if busy {
        return false;
      }
      jobs := jobs[id := Job(Uploaded, true, routed, false)];
      workers := workers[id := ScanQueued];
      return true;
    }

    /** Only a job that waits for routing can be started, and only with a routing. */
    method Start(id: int, routed: bool) returns (accepted: bool)
      modifies this
      ensures accepted == Enabled(old(View()), StartImport(id, routed))
      ensures View() == if accepted then Next(old(View()), StartImport(id, routed)) else old(View())
    {
      if id !in jobs || jobs[id].status != AwaitingMapping || !routed {
        return false;
      }
      var busy := AnotherIsRunning();
      if busy {
        return false;
      }
      jobs := jobs[id := jobs[id].(status := Importing, routed := routed)];
      workers := workers[id := ImportQueued];
      return true;
    }

    method Cancel(id: int) returns (found: bool)
      modifies this
      ensures found == Enabled(old(View()), CancelImport(id))
      ensures View() == if found then Next(old(View()), CancelImport(id)) else old(View())
    {
      if id !in jobs {
        return false;
      }
      var job := jobs[id];
      if Terminal(job.status) {
        assert jobs[id := job] == jobs;
        return true;
      }
      if job.status.AwaitingMapping? {
        jobs := jobs[id := Finish(job, Cancelled)];
      } else {
        jobs := jobs[id := job.(cancelRequested := true)];
      }
      return true;
    }

    /** Startup: no worker has survived; whatever was in flight is failed. */
    method FailOrphanImports(files: set<int>)
      modifies this
      ensures View() == Next(old(View()), Restart(files))
    {
      workers := map[];
      var rest := jobs.Keys;
      while |rest| > 0
        invariant workers == map[] && rest <= jobs.Keys == old(jobs).Keys
        invariant forall id :: id in jobs ==>
          jobs[id] == if id in rest then old(jobs)[id] else Recover(old(jobs)[id], id in files)
        decreases rest
      {
        var id := Pick(rest);
        rest := rest - {id};
        var job := jobs[id];
        if !(job.status.AwaitingMapping? && job.spooled && id in files)
          && (Active(job.status) || job.status.AwaitingMapping?)
        {
          jobs := jobs[id := Finish(job, Failed)];
        }
      }
      assert rest == {};
      assert forall id :: id in jobs ==> jobs[id] == Recover(old(jobs)[id], id in files);
      assert jobs == Next(old(View()), Restart(files)).jobs;
    }
  }

  // ------------------------------------------------------------------
  // What every interleaving keeps
  // ------------------------------------------------------------------

  predicate WorkerMatches(w: Worker, status: Status)
  {
    match w
    case ScanQueued => status.Uploaded?
    case InScan => status.Scanning?
    case ImportQueued => status.Importing?
    case InImport => status.Importing?
  }

  /** At most one job is active. */
  ghost predicate OneActive(s: System)
  {
    forall a, b :: a in s.jobs && b in s.jobs && Active(s.jobs[a].status) && Active(s.jobs[b].status) ==> a == b
  }

  /** The active job has a live worker in the matching stage, and no other job has one. */
  ghost predicate Staffed(s: System)
  {
    && (forall id :: id in s.workers ==> id in s.jobs && WorkerMatches(s.workers[id], s.jobs[id].status))
    && (forall id :: id in s.jobs && Active(s.jobs[id].status) ==> id in s.workers)
  }

  /** A finished job has let go of its spool file, and only a finished one has. */
  ghost predicate SpoolsHeld(s: System)
  {
    forall id :: id in s.jobs ==> (s.jobs[id].spooled <==> !Terminal(s.jobs[id].status))
  }

  ghost predicate Inv(s: System) { OneActive(s) && Staffed(s) && SpoolsHeld(s) }

  lemma {:induction false} StepKeepsOneActive(s: System, step: Step)
    requires Inv(s) && Enabled(s, step)
    ensures OneActive(Next(s, step))
  {
  }

  lemma {:induction false} StepKeepsStaffed(s: System, step: Step)
    requires Inv(s) && Enabled(s, step)
    ensures Staffed(Next(s, step))
  {
  }

  lemma {:induction false} StepKeepsSpools(s: System, step: Step)
    requires Inv(s) && Enabled(s, step)
    ensures SpoolsHeld(Next(s, step))
  {
  }

  lemma {:induction false} StepKeeps(s: System, step: Step)
    requires Inv(s) && Enabled(s, step)
    ensures Inv(Next(s, step))
  {
    StepKeepsOneActive(s, step);
    StepKeepsStaffed(s, step);
    StepKeepsSpools(s, step);
  }

  /** A finished job never changes again, whatever happens. */
  lemma {:induction false} TerminalIsAbsorbing(s: System, step: Step, id: int)
    requires Inv(s) && Enabled(s, step) && id in s.jobs && s.jobs[id].status in {Completed, Failed, Cancelled}
    ensures id in Next(s, step).jobs && Next(s, step).jobs[id] == s.jobs[id]
  {
  }

  /** Right after a restart nothing is active, and a job waits for routing only if its file is still there. */
  lemma {:induction false} RecoveryLeavesNothingActive(s: System, files: set<int>)
    requires Inv(s)
    ensures !Busy(Next(s, Restart(files)))
    ensures forall id :: id in s.jobs ==>
      var after := Next(s, Restart(files)).jobs[id];
      Terminal(after.status) || (after == s.jobs[id] && after.status.AwaitingMapping? && id in files)
  {
  }

  predicate Legal(s: System, steps: seq<Step>)
    decreases |steps|
  {
    steps == [] || (Enabled(s, steps[0]) && Legal(Next(s, steps[0]), steps[1..]))
  }

  function After(s: System, steps: seq<Step>): System
    requires Legal(s, steps)
    decreases |steps|
  {
    if steps == [] then s else After(Next(s, steps[0]), steps[1..])
  }

  /** Over any run from an invariant state: the invariant holds at the end, and finished jobs are as they were. */
  lemma {:induction false} EveryRun(s: System, steps: seq<Step>)
    requires Inv(s) && Legal(s, steps)
    ensures Inv(After(s, steps))
    ensures forall id :: id in s.jobs && Terminal(s.jobs[id].status) ==>
      id in After(s, steps).jobs && After(s, steps).jobs[id] == s.jobs[id]
    decreases |steps|
  {
    if steps != [] {
      var t := Next(s, steps[0]);
      StepKeeps(s, steps[0]);
      forall id | id in s.jobs && Terminal(s.jobs[id].status) ensures id in t.jobs && t.jobs[id] == s.jobs[id] {
        TerminalIsAbsorbing(s, steps[0], id);
      }
      EveryRun(t, steps[1..]);
    }
  }

  /** What one step does to the status of a job, by the statuses' names. */
  ghost predicate Moves(step: Step, id: int, before: Job, after: Status)
  {
    match step
    case Upload(_, _) => after == before.status
    case StartImport(i, _) => if i == id then before.status == AwaitingMapping && after == Importing else after == before.status
    case CancelImport(i) => after == if i == id && before.status == AwaitingMapping then Cancelled else before.status
    case ScanBegins(i) => after == if i == id && before.status == Uploaded then Scanning else before.status
    case ScanEnds(i, failed) =>
      after == if i != id then before.status else if failed then Failed else if before.routed then Importing else AwaitingMapping
    case ImportBegins(_) => after == before.status
    case ImportEnds(i, outcome) => after == if i == id then outcome else before.status
    case Restart(files) =>
      after == match before.status
               case Completed => Completed
               case Failed => Failed
               case Cancelled => Cancelled
               case AwaitingMapping => if before.spooled && id in files then AwaitingMapping else Failed
               case _ => Failed
  }

  /** Every step, status by status; a job that comes to its end gives up its spool file, and no job ever goes away. */
  lemma {:induction false} StatusExactly(s: System, step: Step, id: int)
    requires Enabled(s, step) && id in s.jobs
    ensures id in Next(s, step).jobs
    ensures Moves(step, id, s.jobs[id], Next(s, step).jobs[id].status)
    ensures var after := Next(s, step).jobs[id];
      after.status != s.jobs[id].status && after.status in {Completed, Failed, Cancelled} ==> !after.spooled
  {
  }

  /** A request to upload or to start is refused exactly while some job is uploaded, being scanned or being imported. */
  lemma {:induction false} BusyExactly(s: System)
    ensures Busy(s) <==> exists id :: id in s.jobs && s.jobs[id].status !in {AwaitingMapping, Completed, Failed, Cancelled}
  {
  }

  ghost predicate AtWork(s: System, id: int) { id in s.jobs && s.jobs[id].status in {Uploaded, Scanning, Importing} }

  /** From an empty appliance, no run ever has two active jobs, or an active job that nobody works on. */
  lemma {:induction false} OneImportAtATime(steps: seq<Step>)
    requires Legal(System(map[], map[]), steps)
    ensures var s := After(System(map[], map[]), steps);
      && Inv(s)
      && (forall a, b :: AtWork(s, a) && AtWork(s, b) ==> a == b)
      && forall a :: AtWork(s, a) ==> a in s.workers
  {
    EveryRun(System(map[], map[]), steps);
    OneAtWork(After(System(map[], map[]), steps));
  }

  lemma {:induction false} OneAtWork(s: System)
    requires Inv(s)
    ensures forall a, b :: AtWork(s, a) && AtWork(s, b) ==> a == b
    ensures forall a :: AtWork(s, a) ==> a in s.workers
  {
  }

  /** Asked to stop, and neither stopped nor past its routing. */
  predicate Deferred(job: Job)
  {
    job.cancelRequested && !job.routed && job.spooled && (job.status.Uploaded? || job.status.Scanning? || job.status.AwaitingMapping?)
  }

  /** Nothing that decides about the job: no second cancel, no start, no restart, and no failure of its scan. */
  predicate LeavesBe(step: Step, id: int)
  {
    && step != CancelImport(id) && step != ScanEnds(id, true) && !step.Restart?
    && !(step.StartImport? && step.id == id)
  }

  lemma {:induction false} StaysDeferred(s: System, id: int, steps: seq<Step>)
    requires Inv(s) && id in s.jobs && Deferred(s.jobs[id]) && Legal(s, steps)
    requires forall i :: 0 <= i < |steps| ==> LeavesBe(steps[i], id)
    ensures id in After(s, steps).jobs && Deferred(After(s, steps).jobs[id])
    ensures s.jobs[id].status.AwaitingMapping? || ScanEnds(id, false) in steps ==> After(s, steps).jobs[id].status.AwaitingMapping?
    decreases |steps|
  {
    if steps != [] {
      assert LeavesBe(steps[0], id);
      StepKeeps(s, steps[0]);
      StaysDeferred(Next(s, steps[0]), id, steps[1..]);
      assert ScanEnds(id, false) in steps ==> steps[0] == ScanEnds(id, false) || ScanEnds(id, false) in steps[1..];
    }
  }

  /** A cancel that arrives while the file of a job without routing is waiting or being scanned is not acted upon by
      anything that follows on its own: the job goes on to wait for routing. */
  lemma {:induction false} EarlyCancelIsDeferred(s: System, id: int, steps: seq<Step>)
    requires Inv(s) && id in s.jobs && !s.jobs[id].routed && (s.jobs[id].status.Uploaded? || s.jobs[id].status.Scanning?)
    requires Legal(s, [CancelImport(id)] + steps) && forall i :: 0 <= i < |steps| ==> LeavesBe(steps[i], id)
    ensures var after := After(s, [CancelImport(id)] + steps).jobs;
      && id in after && Deferred(after[id])
      && (ScanEnds(id, false) in steps ==> after[id].status.AwaitingMapping?)
  {
    var run := [CancelImport(id)] + steps;
    assert run[0] == CancelImport(id) && run[1..] == steps;
    StepKeeps(s, CancelImport(id));
    StaysDeferred(Next(s, CancelImport(id)), id, steps);
  }
}
