/** Bulk baseline capture: a task store, and workers that share two levels of permits. */
module BulkCapture {
  import opened Text
  import opened Sets

  // ------------------------------------------------------------------
  // The task store
  // ------------------------------------------------------------------

  datatype VmStatus = Queued | Capturing | Completed | Failed

  datatype VmResult = VmResult(vmName: string, status: VmStatus, error: Option<string>, elapsedSeconds: Option<nat>)

  datatype TaskStatus = Running | Finished | Crashed

  datatype Task = Task(
    status: TaskStatus, total: nat, completed: nat, failed: nat,
    currentVm: Option<string>, perVm: map<int, VmResult>)

  /** One status report: the entry is created or updated, and a terminal status is counted. */
  function Report(t: Task, vmId: int, vmName: string, status: VmStatus,
                  error: Option<string>, elapsedSeconds: Option<nat>): Task
  {
    var entry := if vmId in t.perVm then t.perVm[vmId] else VmResult(vmName, Queued, None, None);
    var updated := VmResult(entry.vmName, status,
                            if error.Some? then error else entry.error,
                            if elapsedSeconds.Some? then elapsedSeconds else entry.elapsedSeconds);
    t.(perVm := t.perVm[vmId := updated],
       currentVm := if status == Capturing then Some(vmName) else t.currentVm,
       completed := t.completed + if status == Completed then 1 else 0,
       failed := t.failed + if status == Failed then 1 else 0)
  }

  function Close(t: Task, status: TaskStatus): Task
  {
    t.(status := status, currentVm := None)
  }

  class BulkCaptureTaskStore {
    var tasks: map<string, Task>

    constructor ()
      ensures tasks == map[]
    {
      tasks := map[];
    }

    method Create(taskId: string, total: nat)
      modifies this
      ensures tasks == old(tasks)[taskId := Task(Running, total, 0, 0, None, map[])]
    {
      tasks := tasks[taskId := Task(Running, total, 0, 0, None, map[])];
    }

    method Get(taskId: string) returns (t: Option<Task>)
      ensures t == if taskId in tasks then Some(tasks[taskId]) else None
    {
      if taskId in tasks {
        return Some(tasks[taskId]);
      }
      return None;
    }

    /** Reports for an unknown task are dropped. */
    method SetVmStatus(taskId: string, vmId: int, vmName: string, status: VmStatus,
                       error: Option<string>, elapsedSeconds: Option<nat>)
      modifies this
      ensures tasks == if taskId !in old(tasks) then old(tasks) else
        old(tasks)[taskId := Report(old(tasks)[taskId], vmId, vmName, status, error, elapsedSeconds)]
    {
      if taskId !in tasks {
        return;
      }
      var t := tasks[taskId];
      var entry := if vmId in t.perVm then t.perVm[vmId] else VmResult(vmName, Queued, None, None);
      entry := entry.(status := status);
      if error.Some? {
        entry := entry.(error := error);
      }
      if elapsedSeconds.Some? {
        entry := entry.(elapsedSeconds := elapsedSeconds);
      }
      t := t.(perVm := t.perVm[vmId := entry]);
      if status == Capturing {
        t := t.(currentVm := Some(vmName));
      }
      if status == Completed {
        t := t.(completed := t.completed + 1);
      }
      if status == Failed {
        t := t.(failed := t.failed + 1);
      }
      tasks := tasks[taskId := t];
    }

    method Finalize(taskId: string, status: TaskStatus)
      modifies this
      ensures tasks == if taskId !in old(tasks) then old(tasks) else
        old(tasks)[taskId := Close(old(tasks)[taskId], status)]
    {
      if taskId in tasks {
        tasks := tasks[taskId := Close(tasks[taskId], status)];
      }
    }
  }

  // ------------------------------------------------------------------
  // The workers, as interleaved steps
  // ------------------------------------------------------------------

  datatype Vm = Vm(name: string, vcenter: Option<int>)

  /** The VMs driven (one row each, by primary key) and the two rate limits asked for. */
  datatype Batch = Batch(vms: map<int, Vm>, maxParallel: int, perVcenterParallel: int) {

    function GlobalPermits(): nat { if maxParallel > 1 then maxParallel else 1 }

    function VcenterPermits(): nat { if perVcenterParallel > 1 then perVcenterParallel else 1 }

    function Vcenters(): set<int>
    {
      set id | id in vms && vms[id].vcenter.Some? :: vms[id].vcenter.value
    }
  }

  /** Where one worker is between its two nested `async with` blocks. */
  datatype Phase =
    | Waiting                 // no permit yet
    | HoldsGlobal             // inside the outer block
    | HoldsBoth               // inside the inner block, about to report "capturing"
    | InCapture               // the capture thread is at work
    | Reported(ok: bool)      // outcome reported, permits still held
    | LeftVcenter(ok: bool)   // inner block left
    | Done(ok: bool)          // both blocks left

  datatype State = State(phases: map<int, Phase>, globalFree: nat, vcenterFree: map<int, nat>, task: Task, closed: bool)

  datatype Step =
    | AcquireGlobal(id: int)
    | AcquireVcenter(id: int)
    | Start(id: int)
    | Outcome(id: int, error: Option<string>, elapsed: nat)
    | ReleaseVcenter(id: int)
    | ReleaseGlobal(id: int)
    | FinalizeBatch

  function Init(b: Batch): State
  {
    State(map id | id in b.vms :: Waiting,
          b.GlobalPermits(),
          map vc | vc in b.Vcenters() :: b.VcenterPermits(),
          Task(Running, |b.vms|, 0, 0, None, map id | id in b.vms :: VmResult(b.vms[id].name, Queued, None, None)),
          false)
  }

  predicate Enabled(b: Batch, s: State, step: Step)
  {
    !s.closed &&
    match step
    case AcquireGlobal(id) => id in b.vms && id in s.phases && s.phases[id] == Waiting && s.globalFree > 0
    case AcquireVcenter(id) =>
      && id in b.vms && id in s.phases && s.phases[id] == HoldsGlobal && b.vms[id].vcenter.Some?
      && b.vms[id].vcenter.value in s.vcenterFree && s.vcenterFree[b.vms[id].vcenter.value] > 0
    case Start(id) =>
      id in b.vms && id in s.phases && s.phases[id] == if b.vms[id].vcenter.Some? then HoldsBoth else HoldsGlobal
    case Outcome(id, _, _) => id in b.vms && id in s.phases && s.phases[id] == InCapture
    case ReleaseVcenter(id) =>
      && id in b.vms && id in s.phases && s.phases[id].Reported? && b.vms[id].vcenter.Some?
      && b.vms[id].vcenter.value in s.vcenterFree
    case ReleaseGlobal(id) =>
      id in b.vms && id in s.phases && if b.vms[id].vcenter.Some? then s.phases[id].LeftVcenter? else s.phases[id].Reported?
    case FinalizeBatch => forall id :: id in b.vms ==> id in s.phases && s.phases[id].Done?
  }

  function Next(b: Batch, s: State, step: Step): State
    requires Enabled(b, s, step)
  {
    match step
    case AcquireGlobal(id) => s.(phases := s.phases[id := HoldsGlobal], globalFree := s.globalFree - 1)
    case AcquireVcenter(id) =>
      var vc := b.vms[id].vcenter.value;
      s.(phases := s.phases[id := HoldsBoth], vcenterFree := s.vcenterFree[vc := s.vcenterFree[vc] - 1])
    case Start(id) =>
      s.(phases := s.phases[id := InCapture], task := Report(s.task, id, b.vms[id].name, Capturing, None, None))
    case Outcome(id, error, elapsed) =>
      s.(phases := s.phases[id := Reported(error.None?)],
         task := Report(s.task, id, b.vms[id].name, if error.None? then Completed else Failed, error, Some(elapsed)))
    case ReleaseVcenter(id) =>
      var vc := b.vms[id].vcenter.value;
      s.(phases := s.phases[id := LeftVcenter(s.phases[id].ok)],
         vcenterFree := s.vcenterFree[vc := s.vcenterFree[vc] + 1])
    case ReleaseGlobal(id) =>
      s.(phases := s.phases[id := Done(s.phases[id].ok)], globalFree := s.globalFree + 1)
    case FinalizeBatch => s.(task := Close(s.task, Finished), closed := true)
  }

  predicate Legal(b: Batch, s: State, steps: seq<Step>)
    decreases |steps|
  {
    steps == [] || (Enabled(b, s, steps[0]) && Legal(b, Next(b, s, steps[0]), steps[1..]))
  }

  function After(b: Batch, s: State, steps: seq<Step>): State
    requires Legal(b, s, steps)
    decreases |steps|
  {
    if steps == [] then s else After(b, Next(b, s, steps[0]), steps[1..])
  }

  // ------------------------------------------------------------------
  // What every reachable state keeps
  // ------------------------------------------------------------------

  predicate OwnsGlobal(p: Phase) { !p.Waiting? && !p.Done? }

  predicate OwnsVcenter(p: Phase) { p.HoldsBoth? || p.InCapture? || p.Reported? }

  function StatusAt(p: Phase): VmStatus
  {
    match p
    case InCapture => Capturing
    case Reported(ok) => if ok then Completed else Failed
    case LeftVcenter(ok) => if ok then Completed else Failed
    case Done(ok) => if ok then Completed else Failed
    case _ => Queued
  }

  ghost function GlobalHolders(s: State): set<int>
  {
    set id | id in s.phases && OwnsGlobal(s.phases[id])
  }

  ghost function VcenterHolders(b: Batch, s: State, vc: int): set<int>
  {
    set id | id in s.phases && id in b.vms && b.vms[id].vcenter == Some(vc) && OwnsVcenter(s.phases[id])
  }

  ghost function WithStatus(s: State, status: VmStatus): set<int>
  {
    set id | id in s.phases && StatusAt(s.phases[id]) == status
  }

  ghost predicate WellFormed(b: Batch, s: State)
  {
    && s.phases.Keys == b.vms.Keys && s.vcenterFree.Keys == b.Vcenters()
    && (forall id :: id in b.vms && b.vms[id].vcenter.None? ==> !s.phases[id].HoldsBoth? && !s.phases[id].LeftVcenter?)
    && (s.closed ==> forall id :: id in b.vms ==> s.phases[id].Done?)
  }

  /** Free permits plus holders never change, globally and per vCenter. */
  ghost predicate GlobalConserved(b: Batch, s: State)
  {
    s.globalFree + |GlobalHolders(s)| == b.GlobalPermits()
  }

  ghost predicate VcenterConserved(b: Batch, s: State)
  {
    s.vcenterFree.Keys == b.Vcenters()
    && forall vc :: vc in b.Vcenters() ==> s.vcenterFree[vc] + |VcenterHolders(b, s, vc)| == b.VcenterPermits()
  }

  /** The task's entries and counters mirror the workers. */
  ghost predicate TaskMirrors(b: Batch, s: State)
  {
    && s.phases.Keys == b.vms.Keys && s.task.perVm.Keys == b.vms.Keys
    && (forall id :: id in b.vms ==> s.task.perVm[id].status == StatusAt(s.phases[id]))
    && s.task.completed == |WithStatus(s, Completed)|
    && s.task.failed == |WithStatus(s, Failed)|
  }

  ghost predicate Inv(b: Batch, s: State)
  {
    WellFormed(b, s) && GlobalConserved(b, s) && VcenterConserved(b, s) && TaskMirrors(b, s)
  }

  lemma {:induction false} InitHolds(b: Batch)
    ensures Inv(b, Init(b))
  {
    var s := Init(b);
    assert forall id :: id !in GlobalHolders(s) && id !in WithStatus(s, Completed) && id !in WithStatus(s, Failed);
    assert GlobalHolders(s) == {} && WithStatus(s, Completed) == {} && WithStatus(s, Failed) == {};
    forall vc | vc in b.Vcenters() ensures VcenterHolders(b, s, vc) == {} {
      assert forall id :: id !in VcenterHolders(b, s, vc);
    }
  }

  function Put(s: set<int>, id: int, present: bool): set<int>
  {
    if present then s + {id} else s - {id}
  }

  lemma {:induction false} PutSize(s: set<int>, id: int, present: bool)
    ensures (id in s) == present ==> Put(s, id, present) == s
    ensures |Put(s, id, present)| == |s| + (if present then 1 else 0) - (if id in s then 1 else 0)
  {
  }

  lemma {:induction false} GlobalMoves(s: State, t: State, id: int, p: Phase)
    requires id in s.phases && t.phases == s.phases[id := p]
    ensures |GlobalHolders(t)| == |GlobalHolders(s)|
      + (if OwnsGlobal(p) then 1 else 0) - (if OwnsGlobal(s.phases[id]) then 1 else 0)
  {
    PutSize(GlobalHolders(s), id, OwnsGlobal(p));
    assert GlobalHolders(t) == Put(GlobalHolders(s), id, OwnsGlobal(p));
  }

  lemma {:induction false} GlobalKept(b: Batch, s: State, step: Step)
    requires WellFormed(b, s) && GlobalConserved(b, s) && Enabled(b, s, step)
    ensures GlobalConserved(b, Next(b, s, step))
  {
    var t := Next(b, s, step);
    if step.FinalizeBatch? {
      assert GlobalHolders(t) == GlobalHolders(s);
    } else {
      GlobalMoves(s, t, step.id, t.phases[step.id]);
    }
  }

  lemma {:induction false} VcenterMoves(b: Batch, s: State, t: State, id: int, p: Phase, vc: int)
    requires id in s.phases && id in b.vms && t.phases == s.phases[id := p]
    ensures |VcenterHolders(b, t, vc)| == |VcenterHolders(b, s, vc)|
      + (if b.vms[id].vcenter == Some(vc) && OwnsVcenter(p) then 1 else 0)
      - (if b.vms[id].vcenter == Some(vc) && OwnsVcenter(s.phases[id]) then 1 else 0)
  {
    if b.vms[id].vcenter == Some(vc) {
      PutSize(VcenterHolders(b, s, vc), id, OwnsVcenter(p));
      assert VcenterHolders(b, t, vc) == Put(VcenterHolders(b, s, vc), id, OwnsVcenter(p));
    } else {
      assert VcenterHolders(b, t, vc) == VcenterHolders(b, s, vc);
    }
  }

  lemma {:induction false} VcenterKept(b: Batch, s: State, step: Step)
    requires WellFormed(b, s) && VcenterConserved(b, s) && Enabled(b, s, step)
    ensures VcenterConserved(b, Next(b, s, step))
  {
    var t := Next(b, s, step);
    forall vc | vc in b.Vcenters()
      ensures t.vcenterFree[vc] + |VcenterHolders(b, t, vc)| == b.VcenterPermits()
    {
      if step.FinalizeBatch? {
        assert VcenterHolders(b, t, vc) == VcenterHolders(b, s, vc);
      } else {
        VcenterMoves(b, s, t, step.id, t.phases[step.id], vc);
      }
    }
  }

  lemma {:induction false} CounterMoves(s: State, t: State, id: int, p: Phase, status: VmStatus)
    requires id in s.phases && t.phases == s.phases[id := p]
    ensures |WithStatus(t, status)| == |WithStatus(s, status)|
      + (if StatusAt(p) == status then 1 else 0) - (if StatusAt(s.phases[id]) == status then 1 else 0)
  {
    PutSize(WithStatus(s, status), id, StatusAt(p) == status);
    assert WithStatus(t, status) == Put(WithStatus(s, status), id, StatusAt(p) == status);
  }

  lemma {:induction false} TaskKept(b: Batch, s: State, step: Step)
    requires WellFormed(b, s) && TaskMirrors(b, s) && Enabled(b, s, step)
    ensures TaskMirrors(b, Next(b, s, step))
  {
    EntriesKept(b, s, step);
    CountersKept(b, s, step);
  }

  lemma {:induction false} EntriesKept(b: Batch, s: State, step: Step)
    requires WellFormed(b, s) && TaskMirrors(b, s) && Enabled(b, s, step)
    ensures var t := Next(b, s, step);
      && t.phases.Keys == b.vms.Keys && t.task.perVm.Keys == b.vms.Keys
      && forall id :: id in b.vms ==> t.task.perVm[id].status == StatusAt(t.phases[id])
  {
  }

  lemma {:induction false} CountersKept(b: Batch, s: State, step: Step)
    requires WellFormed(b, s) && TaskMirrors(b, s) && Enabled(b, s, step)
    ensures var t := Next(b, s, step);
      t.task.completed == |WithStatus(t, Completed)| && t.task.failed == |WithStatus(t, Failed)|
  {
    var t := Next(b, s, step);
    if step.FinalizeBatch? {
      assert WithStatus(t, Completed) == WithStatus(s, Completed) && WithStatus(t, Failed) == WithStatus(s, Failed);
    } else {
      CounterMoves(s, t, step.id, t.phases[step.id], Completed);
      CounterMoves(s, t, step.id, t.phases[step.id], Failed);
    }
  }

  /** No interleaving of worker steps breaks permit conservation or the counters. */
  lemma {:induction false} StepKeeps(b: Batch, s: State, step: Step)
    requires Inv(b, s) && Enabled(b, s, step)
    ensures Inv(b, Next(b, s, step))
  {
    GlobalKept(b, s, step);
    VcenterKept(b, s, step);
    TaskKept(b, s, step);
  }

  // ------------------------------------------------------------------
  // Limits, progress, termination
  // ------------------------------------------------------------------

  ghost function CapturingIn(b: Batch, s: State, vc: int): set<int>
  {
    set id | id in s.phases && id in b.vms && s.phases[id].InCapture? && b.vms[id].vcenter == Some(vc)
  }

  /** Never more captures at once than the limits allow, in all and on any one vCenter. */
  lemma {:induction false} LimitsHold(b: Batch, s: State, vc: int)
    requires Inv(b, s)
    ensures |WithStatus(s, Capturing)| <= b.GlobalPermits()
    ensures |CapturingIn(b, s, vc)| <= b.VcenterPermits()
  {
    forall id | id in WithStatus(s, Capturing) ensures id in GlobalHolders(s) {
      assert s.phases[id].InCapture?;
    }
    SubsetIsNoLarger(WithStatus(s, Capturing), GlobalHolders(s));
    forall id | id in CapturingIn(b, s, vc) ensures id in VcenterHolders(b, s, vc) {
    }
    SubsetIsNoLarger(CapturingIn(b, s, vc), VcenterHolders(b, s, vc));
    if vc !in b.Vcenters() {
      assert forall id :: id !in VcenterHolders(b, s, vc);
      assert VcenterHolders(b, s, vc) == {};
    }
  }

  /** A batch that is not finalized always has a step to take: the nested permits cannot deadlock. */
  lemma {:induction false} NeverStuck(b: Batch, s: State) returns (step: Step)
    requires Inv(b, s) && !s.closed
    ensures Enabled(b, s, step)
  {
    if id :| id in b.vms && !s.phases[id].Waiting? && !s.phases[id].HoldsGlobal? && !s.phases[id].Done? {
      step := match s.phases[id]
        case HoldsBoth => Start(id)
        case InCapture => Outcome(id, None, 0)
        case Reported(_) => if b.vms[id].vcenter.Some? then ReleaseVcenter(id) else ReleaseGlobal(id)
        case _ => ReleaseGlobal(id);
    } else if id :| id in b.vms && s.phases[id].HoldsGlobal? {
      if b.vms[id].vcenter.None? {
        step := Start(id);
      } else {
        var vc := b.vms[id].vcenter.value;
        assert forall other :: other !in VcenterHolders(b, s, vc);
        assert VcenterHolders(b, s, vc) == {};
        step := AcquireVcenter(id);
      }
    } else if id :| id in b.vms && s.phases[id].Waiting? {
      assert forall other :: other !in GlobalHolders(s);
      assert GlobalHolders(s) == {};
      step := AcquireGlobal(id);
    } else {
      step := FinalizeBatch;
    }
  }

  function Rank(p: Phase): nat
  {
    match p
    case Waiting => 6
    case HoldsGlobal => 5
    case HoldsBoth => 4
    case InCapture => 3
    case Reported(_) => 2
    case LeftVcenter(_) => 1
    case Done(_) => 0
  }

  /** The workers with at least `r` steps still to take. */
  ghost function AtLeast(phases: map<int, Phase>, r: nat): set<int>
  {
    set id | id in phases && Rank(phases[id]) >= r
  }

  ghost function Work(s: State): nat
  {
    Levels(s.phases) + if s.closed then 0 else 1
  }

  lemma {:induction false} LevelMoves(phases: map<int, Phase>, id: int, p: Phase, r: nat)
    requires id in phases
    ensures |AtLeast(phases[id := p], r)| == |AtLeast(phases, r)|
      + (if Rank(p) >= r then 1 else 0) - (if Rank(phases[id]) >= r then 1 else 0)
  {
    PutSize(AtLeast(phases, r), id, Rank(p) >= r);
    assert AtLeast(phases[id := p], r) == Put(AtLeast(phases, r), id, Rank(p) >= r);
  }

  lemma {:induction false} StepDoesWork(b: Batch, s: State, step: Step)
    requires Inv(b, s) && Enabled(b, s, step)
    ensures Work(Next(b, s, step)) < Work(s)
  {
    if !step.FinalizeBatch? {
      var p := Next(b, s, step).phases[step.id];
      assert Next(b, s, step).phases == s.phases[step.id := p];
      AllLevelsMove(s.phases, step.id, p);
    }
  }

  ghost function Levels(phases: map<int, Phase>): nat
  {
    |AtLeast(phases, 1)| + |AtLeast(phases, 2)| + |AtLeast(phases, 3)| + |AtLeast(phases, 4)|
    + |AtLeast(phases, 5)| + |AtLeast(phases, 6)|
  }

  lemma {:induction false} AllLevelsMove(phases: map<int, Phase>, id: int, p: Phase)
    requires id in phases && Rank(p) < Rank(phases[id])
    ensures Levels(phases[id := p]) < Levels(phases)
  {
    LevelMoves(phases, id, p, 1);
    LevelMoves(phases, id, p, 2);
    LevelMoves(phases, id, p, 3);
    LevelMoves(phases, id, p, 4);
    LevelMoves(phases, id, p, 5);
    LevelMoves(phases, id, p, 6);
  }

  /** The invariants hold after any run whatever, and a run is never longer than the work there was. */
  lemma {:induction false} RunKeeps(b: Batch, s: State, steps: seq<Step>)
    requires Inv(b, s) && Legal(b, s, steps)
    ensures Inv(b, After(b, s, steps))
    ensures |steps| + Work(After(b, s, steps)) <= Work(s)
    decreases |steps|
  {
    if steps != [] {
      StepKeeps(b, s, steps[0]);
      StepDoesWork(b, s, steps[0]);
      RunKeeps(b, Next(b, s, steps[0]), steps[1..]);
    }
  }

  /** A limit counts as one when it is set lower. */
  predicate AtMost(n: nat, limit: int) { n <= 1 || n <= limit }

  /** The VMs the task reports as being captured. */
  ghost function AllCapturing(s: State): set<int>
  {
    set id | id in s.task.perVm && s.task.perVm[id].status == Capturing
  }

  /** The limits hold in every state any run reaches. */
  lemma {:induction false} LimitsOverEveryRun(b: Batch, steps: seq<Step>, vc: int)
    requires Legal(b, Init(b), steps)
    ensures var s := After(b, Init(b), steps);
      && AtMost(|AllCapturing(s)|, b.maxParallel) && AtMost(|CapturingIn(b, s, vc)|, b.perVcenterParallel)
  {
    InitHolds(b);
    RunKeeps(b, Init(b), steps);
    LimitsHold(b, After(b, Init(b), steps), vc);
    CapturingIsReported(b, After(b, Init(b), steps));
  }

  lemma {:induction false} CapturingIsReported(b: Batch, s: State)
    requires TaskMirrors(b, s)
    ensures AllCapturing(s) == WithStatus(s, Capturing)
  {
    forall id ensures id in AllCapturing(s) <==> id in WithStatus(s, Capturing) {
    }
  }

  lemma {:induction false} InitialWork(b: Batch)
    ensures Work(Init(b)) == 6 * |b.vms| + 1
  {
    forall r: nat | r <= 6 ensures AtLeast(Init(b).phases, r) == b.vms.Keys {
      assert forall id :: id in AtLeast(Init(b).phases, r) <==> id in b.vms;
    }
    assert |b.vms.Keys| == |b.vms|;
  }

  /** Every run takes at most 6n + 1 steps, and one that cannot go on has captured and counted every VM. */
  lemma {:induction false} EveryRunFinishes(b: Batch, steps: seq<Step>)
    requires Legal(b, Init(b), steps)
    ensures |steps| <= 6 * |b.vms| + 1
    ensures var s := After(b, Init(b), steps);
      (forall step :: !Enabled(b, s, step)) ==>
        && s.closed && s.task.completed + s.task.failed == |b.vms|
        && s.task.completed == |set id | id in b.vms && id in s.task.perVm && s.task.perVm[id].status == Completed|
        && s.task.failed == |set id | id in b.vms && id in s.task.perVm && s.task.perVm[id].status == Failed|
        && s.globalFree == b.GlobalPermits()
  {
    InitHolds(b);
    RunKeeps(b, Init(b), steps);
    InitialWork(b);
    var s := After(b, Init(b), steps);
    if !s.closed {
      var step := NeverStuck(b, s);
    } else {
      FinalCounts(b, s);
    }
  }

  lemma {:induction false} FinalCounts(b: Batch, s: State)
    requires Inv(b, s) && s.closed
    ensures s.task.completed + s.task.failed == |b.vms|
    ensures s.task.completed == |set id | id in b.vms && id in s.task.perVm && s.task.perVm[id].status == Completed|
    ensures s.task.failed == |set id | id in b.vms && id in s.task.perVm && s.task.perVm[id].status == Failed|
    ensures s.globalFree == b.GlobalPermits()
  {
    var done, failed := WithStatus(s, Completed), WithStatus(s, Failed);
    forall id
      ensures id in done <==> id in b.vms && id in s.task.perVm && s.task.perVm[id].status == Completed
      ensures id in failed <==> id in b.vms && id in s.task.perVm && s.task.perVm[id].status == Failed
      ensures id in b.vms ==> id in done || id in failed
    {
      if id in b.vms {
        assert s.phases[id].Done?;
      }
    }
    assert done == set id | id in b.vms && id in s.task.perVm && s.task.perVm[id].status == Completed;
    assert failed == set id | id in b.vms && id in s.task.perVm && s.task.perVm[id].status == Failed;
    assert done !! failed && done + failed == b.vms.Keys;
    assert |done + failed| == |done| + |failed| && |b.vms.Keys| == |b.vms|;
    assert forall id :: id !in GlobalHolders(s);
    assert GlobalHolders(s) == {};
  }

  // ------------------------------------------------------------------
  // One vCenter in the way of another
  // ------------------------------------------------------------------

  ghost function VmsOf(b: Batch, vc: int): set<int> { set id | id in b.vms && b.vms[id].vcenter == Some(vc) }

  /** `v` can do nothing but wait, and every global permit is in the hands of one vCenter's VMs. */
  ghost predicate Starved(b: Batch, s: State, v: int, vc: int)
  {
    && v in s.phases && s.phases[v].Waiting? && s.globalFree == 0
    && forall id :: id in GlobalHolders(s) ==> id in VmsOf(b, vc)
  }

  ghost predicate CanStarve(b: Batch, v: int, vc: int)
  {
    exists steps :: Legal(b, Init(b), steps) && Starved(b, After(b, Init(b), steps), v, vc)
  }

  lemma {:induction false} StarvedNeedsMany(b: Batch, s: State, v: int, vc: int)
    requires Inv(b, s) && Starved(b, s, v, vc)
    ensures |VmsOf(b, vc)| >= b.GlobalPermits()
  {
    forall id | id in GlobalHolders(s) ensures id in VmsOf(b, vc) {
      assert s.phases[id] != Waiting;
    }
    SubsetIsNoLarger(GlobalHolders(s), VmsOf(b, vc));
  }

  /** Some of the given VMs, all still waiting, have taken a permit each; nothing else has happened. */
  ghost predicate Grabbed(s: State, t: State, some: set<int>)
  {
    && t.phases.Keys == s.phases.Keys && t.closed == s.closed
    && forall id :: id in s.phases ==> t.phases[id] == s.phases[id] || (id in some && t.phases[id] == HoldsGlobal)
  }

  /** `k` VMs of the given ones take a permit each. */
  lemma {:induction false} Grab(b: Batch, s: State, k: nat, some: set<int>) returns (steps: seq<Step>)
    requires !s.closed && k <= s.globalFree && k <= |some|
    requires forall id :: id in some ==> id in b.vms && id in s.phases && s.phases[id] == Waiting
    ensures Legal(b, s, steps) && Grabbed(s, After(b, s, steps), some) && After(b, s, steps).globalFree == s.globalFree - k
    decreases k
  {
    if k == 0 {
      steps := [];
    } else {
      var id := AnyOf(some);
      var t := Next(b, s, AcquireGlobal(id));
      assert |some - {id}| == |some| - 1;
      var rest := Grab(b, t, k - 1, some - {id});
      steps := [AcquireGlobal(id)] + rest;
      assert steps[1..] == rest;
    }
  }

  /** The VMs of one vCenter can keep a VM of another one waiting, with every global permit in their hands, exactly
      when there are as many of them as permits; the per-vCenter limit does not come into it. */
  lemma {:induction false} StarvationExactly(b: Batch, v: int, vc: int)
    requires v in b.vms && b.vms[v].vcenter != Some(vc)
    ensures CanStarve(b, v, vc) <==> |VmsOf(b, vc)| >= b.maxParallel && VmsOf(b, vc) != {}
  {
    InitHolds(b);
    assert VmsOf(b, vc) == {} <==> |VmsOf(b, vc)| == 0;
    if CanStarve(b, v, vc) {
      var steps :| Legal(b, Init(b), steps) && Starved(b, After(b, Init(b), steps), v, vc);
      RunKeeps(b, Init(b), steps);
      StarvedNeedsMany(b, After(b, Init(b), steps), v, vc);
    }
    if |VmsOf(b, vc)| >= b.GlobalPermits() {
      var steps := Grab(b, Init(b), b.GlobalPermits(), VmsOf(b, vc));
      assert Starved(b, After(b, Init(b), steps), v, vc);
    }
  }

  /** In such a state no more VMs capture than the one vCenter may, however many global permits are held. */
  lemma {:induction false} StarvingIdlesPermits(b: Batch, s: State, v: int, vc: int)
    requires Inv(b, s) && Starved(b, s, v, vc)
    ensures |WithStatus(s, Capturing)| <= b.VcenterPermits() && |GlobalHolders(s)| == b.GlobalPermits()
  {
    LimitsHold(b, s, vc);
    forall id | id in WithStatus(s, Capturing) ensures id in CapturingIn(b, s, vc) {
      assert s.phases[id].InCapture? && id in GlobalHolders(s);
    }
    SubsetIsNoLarger(WithStatus(s, Capturing), CapturingIn(b, s, vc));
  }

  // ------------------------------------------------------------------
  // How much runs at once
  // ------------------------------------------------------------------

  ghost predicate CanCapture(b: Batch, vc: int, n: nat)
  {
    exists steps :: Legal(b, Init(b), steps) && |CapturingIn(b, After(b, Init(b), steps), vc)| >= n
  }

  /** Some of the waiting VMs of a vCenter are being captured; the others still wait. */
  ghost predicate Capturers(b: Batch, s: State, vc: int, busy: set<int>)
  {
    && busy <= VmsOf(b, vc) && !s.closed && s.phases.Keys == b.vms.Keys && vc in s.vcenterFree
    && (forall id :: id in VmsOf(b, vc) ==> s.phases[id] == if id in busy then InCapture else Waiting)
    && s.globalFree + |busy| == b.GlobalPermits() && s.vcenterFree[vc] + |busy| == b.VcenterPermits()
  }

  lemma {:induction false} CaptureOneMore(b: Batch, s: State, vc: int, busy: set<int>, id: int)
    requires Capturers(b, s, vc, busy) && id in VmsOf(b, vc) - busy
    requires |busy| < b.GlobalPermits() && |busy| < b.VcenterPermits()
    ensures Enabled(b, s, AcquireGlobal(id))
    ensures var s1 := Next(b, s, AcquireGlobal(id));
      && Enabled(b, s1, AcquireVcenter(id))
      && var s2 := Next(b, s1, AcquireVcenter(id));
         && Enabled(b, s2, Start(id)) && Capturers(b, Next(b, s2, Start(id)), vc, busy + {id})
  {
    assert |busy + {id}| == |busy| + 1;
  }

  lemma {:induction false} CaptureMany(b: Batch, s: State, vc: int, busy: set<int>, n: nat) returns (steps: seq<Step>)
    requires Capturers(b, s, vc, busy) && |busy| <= n <= |VmsOf(b, vc)| && n <= b.GlobalPermits() && n <= b.VcenterPermits()
    ensures Legal(b, s, steps) && |CapturingIn(b, After(b, s, steps), vc)| >= n
    decreases n - |busy|
  {
    if |busy| == n {
      steps := [];
      forall id | id in busy ensures id in CapturingIn(b, s, vc) {
      }
      SubsetIsNoLarger(busy, CapturingIn(b, s, vc));
    } else {
      assert VmsOf(b, vc) == busy + (VmsOf(b, vc) - busy);
      var id := AnyOf(VmsOf(b, vc) - busy);
      CaptureOneMore(b, s, vc, busy, id);
      var s1 := Next(b, s, AcquireGlobal(id));
      var s2 := Next(b, s1, AcquireVcenter(id));
      var s3 := Next(b, s2, Start(id));
      assert |busy + {id}| == |busy| + 1;
      var rest := CaptureMany(b, s3, vc, busy + {id}, n);
      var last, two := [Start(id)] + rest, [AcquireVcenter(id), Start(id)] + rest;
      steps := [AcquireGlobal(id), AcquireVcenter(id), Start(id)] + rest;
      assert last[1..] == rest && two[1..] == last && steps[1..] == two;
      assert Legal(b, s2, last) && After(b, s2, last) == After(b, s3, rest);
      assert Legal(b, s1, two) && After(b, s1, two) == After(b, s3, rest);
    }
  }

  /** `n` VMs of one vCenter can be captured at once exactly when it has as many and both limits allow it. */
  lemma {:induction false} CapturesExactly(b: Batch, vc: int, n: nat)
    ensures CanCapture(b, vc, n) <==> n <= |VmsOf(b, vc)| && AtMost(n, b.maxParallel) && AtMost(n, b.perVcenterParallel)
  {
    InitHolds(b);
    if CanCapture(b, vc, n) {
      var steps :| Legal(b, Init(b), steps) && |CapturingIn(b, After(b, Init(b), steps), vc)| >= n;
      var s := After(b, Init(b), steps);
      RunKeeps(b, Init(b), steps);
      LimitsHold(b, s, vc);
      SubsetIsNoLarger(CapturingIn(b, s, vc), VmsOf(b, vc));
      forall id | id in CapturingIn(b, s, vc) ensures id in WithStatus(s, Capturing) {
        assert s.phases[id].InCapture?;
      }
      SubsetIsNoLarger(CapturingIn(b, s, vc), WithStatus(s, Capturing));
    }
    if n == 0 {
      assert Legal(b, Init(b), []);
    } else if n <= |VmsOf(b, vc)| && AtMost(n, b.maxParallel) && AtMost(n, b.perVcenterParallel) {
      assert vc in b.Vcenters() by {
        assert VmsOf(b, vc) != {};
        var id := AnyOf(VmsOf(b, vc));
        assert b.vms[id].vcenter.Some?;
      }
      var steps := CaptureMany(b, Init(b), vc, {}, n);
    }
  }

  // ------------------------------------------------------------------
  // Outcomes
  // ------------------------------------------------------------------

  function Succeeded(step: Step): nat { if step.Outcome? && step.error.None? then 1 else 0 }

  function Raised(step: Step): nat { if step.Outcome? && step.error.Some? then 1 else 0 }

  function Count(f: Step -> nat, steps: seq<Step>): nat
  {
    if steps == [] then 0 else f(steps[0]) + Count(f, steps[1..])
  }

  /** What is reported about a VM before its capture has ended. */
  predicate NoOutcomeYet(b: Batch, id: int, r: VmResult)
    requires id in b.vms
  {
    r.vmName == b.vms[id].name && (r.status == Queued || r.status == Capturing) && r.error == None && r.elapsedSeconds == None
  }

  /** What is reported about it afterwards, and for good. */
  function ResultOf(b: Batch, id: int, error: Option<string>, elapsed: nat): VmResult
    requires id in b.vms
  {
    VmResult(b.vms[id].name, if error.Some? then Failed else Completed, error, Some(elapsed))
  }

  predicate Open(p: Phase) { p.Waiting? || p.HoldsGlobal? || p.HoldsBoth? || p.InCapture? }

  ghost predicate EntryOpen(b: Batch, s: State, id: int)
  {
    id in b.vms && id in s.phases && Open(s.phases[id]) && id in s.task.perVm && NoOutcomeYet(b, id, s.task.perVm[id])
  }

  ghost predicate EntryClosed(b: Batch, s: State, id: int, r: VmResult)
  {
    id in b.vms && id in s.phases && !Open(s.phases[id]) && id in s.task.perVm && s.task.perVm[id] == r
  }

  lemma {:induction false} ClosedEntryStays(b: Batch, s: State, steps: seq<Step>, id: int, r: VmResult)
    requires Legal(b, s, steps) && EntryClosed(b, s, id, r)
    ensures EntryClosed(b, After(b, s, steps), id, r)
    ensures forall i :: 0 <= i < |steps| ==> !(steps[i].Outcome? && steps[i].id == id)
    decreases |steps|
  {
    if steps != [] {
      ClosedEntryStays(b, Next(b, s, steps[0]), steps[1..], id, r);
      forall i | 0 <= i < |steps| ensures !(steps[i].Outcome? && steps[i].id == id) {
        assert i > 0 ==> steps[i] == steps[1..][i - 1];
      }
    }
  }

  /** Step `i` is the end of the VM's capture, and the only one. */
  predicate OnlyOutcome(steps: seq<Step>, id: int, i: nat, error: Option<string>, elapsed: nat)
  {
    && i < |steps| && steps[i] == Outcome(id, error, elapsed)
    && forall j :: 0 <= j < |steps| && j != i ==> !(steps[j].Outcome? && steps[j].id == id)
  }

  predicate Ends(step: Step, id: int) { step.Outcome? && step.id == id }

  lemma {:induction false} OpenEntryMoves(b: Batch, s: State, step: Step, id: int)
    requires Enabled(b, s, step) && EntryOpen(b, s, id)
    ensures !Ends(step, id) ==> EntryOpen(b, Next(b, s, step), id)
    ensures Ends(step, id) ==> EntryClosed(b, Next(b, s, step), id, ResultOf(b, id, step.error, step.elapsed))
  {
  }

  lemma {:induction false} OutcomeIsKept(b: Batch, s: State, steps: seq<Step>, id: int)
    requires Legal(b, s, steps) && EntryOpen(b, s, id)
    ensures (forall i :: 0 <= i < |steps| ==> !Ends(steps[i], id)) ==> EntryOpen(b, After(b, s, steps), id)
    ensures forall i :: 0 <= i < |steps| && Ends(steps[i], id) ==>
      && OnlyOutcome(steps, id, i, steps[i].error, steps[i].elapsed)
      && EntryClosed(b, After(b, s, steps), id, ResultOf(b, id, steps[i].error, steps[i].elapsed))
    decreases |steps|
  {
    if steps != [] {
      var first, rest, t := steps[0], steps[1..], Next(b, s, steps[0]);
      OpenEntryMoves(b, s, first, id);
      if Ends(first, id) {
        ClosedEntryStays(b, t, rest, id, ResultOf(b, id, first.error, first.elapsed));
        assert forall j :: 0 < j < |steps| ==> steps[j] == rest[j - 1];
      } else {
        OutcomeIsKept(b, t, rest, id);
        forall i | 0 <= i < |steps| && Ends(steps[i], id)
          ensures OnlyOutcome(steps, id, i, steps[i].error, steps[i].elapsed)
          ensures EntryClosed(b, After(b, s, steps), id, ResultOf(b, id, steps[i].error, steps[i].elapsed))
        {
          assert rest[i - 1] == steps[i] && OnlyOutcome(rest, id, i - 1, rest[i - 1].error, rest[i - 1].elapsed);
          assert forall j :: 0 < j < |steps| ==> steps[j] == rest[j - 1];
        }
        if forall i :: 0 <= i < |steps| ==> !Ends(steps[i], id) {
          assert forall i :: 0 <= i < |rest| ==> rest[i] == steps[i + 1];
        }
      }
    }
  }

  lemma {:induction false} CountersCount(b: Batch, s: State, steps: seq<Step>)
    requires Legal(b, s, steps)
    ensures var t := After(b, s, steps).task;
      && t.completed == s.task.completed + Count(Succeeded, steps) && t.failed == s.task.failed + Count(Raised, steps)
    decreases |steps|
  {
    if steps != [] {
      CountersCount(b, Next(b, s, steps[0]), steps[1..]);
    }
  }

  /** Over every run: a VM whose capture ended without an error is reported as completed, one whose capture raised as
      failed, with that error; no capture ends twice, and until it ends nothing of the kind is reported. The two
      counters are the numbers of captures that ended without and with an error. */
  lemma {:induction false} OutcomesExactly(b: Batch, steps: seq<Step>, id: int)
    requires Legal(b, Init(b), steps) && id in b.vms
    ensures var task := After(b, Init(b), steps).task;
      && id in task.perVm
      && (forall i :: 0 <= i < |steps| && Ends(steps[i], id) ==>
            && OnlyOutcome(steps, id, i, steps[i].error, steps[i].elapsed)
            && task.perVm[id] == ResultOf(b, id, steps[i].error, steps[i].elapsed))
      && ((forall i :: 0 <= i < |steps| ==> !Ends(steps[i], id)) ==> NoOutcomeYet(b, id, task.perVm[id]))
      && task.completed == Count(Succeeded, steps) && task.failed == Count(Raised, steps)
  {
    OutcomeIsKept(b, Init(b), steps, id);
    CountersCount(b, Init(b), steps);
  }

  /** A run that is over has ended the capture of every VM, and the task is closed as finished: failures show in the entries. */
  lemma {:induction false} FinishedRun(b: Batch, s: State, steps: seq<Step>)
    requires Legal(b, s, steps) && !s.closed && s.task.status == Running
    ensures var n := After(b, s, steps);
      && (n.closed <==> n.task.status == Finished) && (!n.closed <==> n.task.status == Running)
      && (n.closed ==> steps != [] && steps[|steps| - 1] == FinalizeBatch && n.task.currentVm == None)
    decreases |steps|
  {
    if steps != [] {
      if steps[0].FinalizeBatch? {
        assert steps[1..] == [] by {
          assert Legal(b, Next(b, s, steps[0]), steps[1..]);
        }
      } else {
        FinishedRun(b, Next(b, s, steps[0]), steps[1..]);
      }
    }
  }

  // ------------------------------------------------------------------
  // An example
  // ------------------------------------------------------------------

  /** Two VMs of vCenter 7 and one of vCenter 8; two at once, one per vCenter. */
  function ThreeVms(): Batch
  {
    Batch(map[1 := Vm("a", Some(7)), 2 := Vm("b", Some(7)), 3 := Vm("c", Some(8))], 2, 1)
  }

  /** The second VM waits for the first one's vCenter permit and holds the last global one meanwhile: the third VM,
      whose vCenter is idle, cannot start. */
  lemma {:induction false} StarvationExample()
    ensures var b, steps := ThreeVms(), [AcquireGlobal(1), AcquireGlobal(2), AcquireVcenter(1), Start(1)];
      && Legal(b, Init(b), steps)
      && var s := After(b, Init(b), steps);
         && s.phases == map[1 := InCapture, 2 := HoldsGlobal, 3 := Waiting]
         && !Enabled(b, s, AcquireVcenter(2)) && !Enabled(b, s, AcquireGlobal(3))
         && 8 in s.vcenterFree && s.vcenterFree[8] == b.VcenterPermits()
  {
    var b := ThreeVms();
    var s0 := Init(b);
    var s1 := Next(b, s0, AcquireGlobal(1));
    var s2 := Next(b, s1, AcquireGlobal(2));
    assert 7 in b.Vcenters() && 8 in b.Vcenters() by {
      assert 1 in b.vms && 3 in b.vms;
    }
    var s3 := Next(b, s2, AcquireVcenter(1));
    var s4 := Next(b, s3, Start(1));
    assert s4.phases == map[1 := InCapture, 2 := HoldsGlobal, 3 := Waiting];
    var steps := [AcquireGlobal(1), AcquireGlobal(2), AcquireVcenter(1), Start(1)];
    assert steps[1..] == [AcquireGlobal(2), AcquireVcenter(1), Start(1)];
    assert steps[1..][1..] == [AcquireVcenter(1), Start(1)];
    assert steps[1..][1..][1..] == [Start(1)];
    assert steps[1..][1..][1..][1..] == [];
    assert Legal(b, s4, []) && After(b, s4, []) == s4;
    assert Legal(b, s3, steps[1..][1..][1..]) && After(b, s3, steps[1..][1..][1..]) == s4;
    assert Legal(b, s2, steps[1..][1..]) && After(b, s2, steps[1..][1..]) == s4;
    assert Legal(b, s1, steps[1..]) && After(b, s1, steps[1..]) == s4;
    assert Legal(b, s0, steps) && After(b, s0, steps) == s4;
  }
}
