/** The same life of an import job with the handlers taken apart: a request checks first, and writes its row later. */
module ImportRaces {
  import opened Text
  import opened Sets
  import opened ImportJobs

  /** A request that has passed its checks and has not written yet. */
  datatype Ticket = Uploading(job: int, routed: bool) | Starting(job: int, routed: bool)

  datatype Task = Task(job: int, stage: Worker)

  datatype Races = Races(jobs: map<int, Job>, open: map<int, Ticket>, tasks: map<int, Task>)

  datatype Move =
    | Check(req: int, ticket: Ticket)        // the request has passed its checks
    | Abandon(req: int)                      // the upload turns out too large, or empty
    | Land(req: int)                         // the row is written and the task queued
    | Cancel(job: int)
    | ScanOn(task: int)                      // the queued scan is picked up
    | ScanOff(task: int, failed: bool)       // ... and has read the file
    | ImportOn(task: int)                    // the queued import is picked up
    | ImportOff(task: int, outcome: Status)  // ... and has reached its end
    | Reboot(files: set<int>)

  const EMPTY_RACES := Races(map[], map[], map[])

  predicate BusyJobs(jobs: map<int, Job>) { exists id :: id in jobs && Active(jobs[id].status) }

  predicate Passes(s: Races, ticket: Ticket)
  {
    && !BusyJobs(s.jobs)
    && match ticket
       case Uploading(job, _) => job !in s.jobs && forall r :: r in s.open ==> s.open[r].job != job
       case Starting(job, routed) => job in s.jobs && s.jobs[job].status == AwaitingMapping && routed
  }

  predicate Possible(s: Races, m: Move)
  {
    match m
    case Check(req, ticket) => req !in s.open && req !in s.tasks && Passes(s, ticket)
    case Abandon(req) => req in s.open
    case Land(req) => req in s.open && (s.open[req].Starting? ==> s.open[req].job in s.jobs)
    case Cancel(job) => job in s.jobs
    case ScanOn(t) => t in s.tasks && s.tasks[t].stage == ScanQueued && s.tasks[t].job in s.jobs
    case ScanOff(t, _) => t in s.tasks && s.tasks[t].stage == InScan && s.tasks[t].job in s.jobs
    case ImportOn(t) => t in s.tasks && s.tasks[t].stage == ImportQueued && s.tasks[t].job in s.jobs
    case ImportOff(t, outcome) =>
      && t in s.tasks && s.tasks[t].stage == InImport && s.tasks[t].job in s.jobs && Terminal(outcome)
      && (outcome.Cancelled? ==> s.jobs[s.tasks[t].job].cancelRequested)
    case Reboot(_) => true
  }

  /** Landing writes what the checks allowed, whatever has happened since. */
  function Landed(s: Races, req: int): Races
    requires Possible(s, Land(req))
  {
    match s.open[req]
    case Uploading(job, routed) =>
      Races(s.jobs[job := Job(Uploaded, true, routed, false)], s.open - {req}, s.tasks[req := Task(job, ScanQueued)])
    case Starting(job, routed) =>
      Races(s.jobs[job := s.jobs[job].(status := Importing, routed := routed)], s.open - {req},
            s.tasks[req := Task(job, ImportQueued)])
  }

  function Moved(s: Races, m: Move): Races
    requires Possible(s, m)
  {
    match m
    case Check(req, ticket) => s.(open := s.open[req := ticket])
    case Abandon(req) => s.(open := s.open - {req})
    case Land(req) => Landed(s, req)
    case Cancel(id) =>
      var job := s.jobs[id];
      s.(jobs := s.jobs[id := if Terminal(job.status) then job
                              else if job.status.AwaitingMapping? then Finish(job, Cancelled)
                              else job.(cancelRequested := true)])
    case ScanOn(t) =>
      var id := s.tasks[t].job;
      if s.jobs[id].status != Uploaded then s.(tasks := s.tasks - {t})
      else s.(jobs := s.jobs[id := s.jobs[id].(status := Scanning)], tasks := s.tasks[t := Task(id, InScan)])
    case ScanOff(t, failed) =>
      var id := s.tasks[t].job;
      if failed then s.(jobs := s.jobs[id := Finish(s.jobs[id], Failed)], tasks := s.tasks - {t})
      else if s.jobs[id].routed then
        s.(jobs := s.jobs[id := s.jobs[id].(status := Importing)], tasks := s.tasks[t := Task(id, InImport)])
      else s.(jobs := s.jobs[id := s.jobs[id].(status := AwaitingMapping)], tasks := s.tasks - {t})
    case ImportOn(t) =>
      var id := s.tasks[t].job;
      if s.jobs[id].status != Importing then s.(tasks := s.tasks - {t}) else s.(tasks := s.tasks[t := Task(id, InImport)])
    case ImportOff(t, outcome) =>
      var id := s.tasks[t].job;
      s.(jobs := s.jobs[id := Finish(s.jobs[id], outcome)], tasks := s.tasks - {t})
    case Reboot(files) =>
      Races(map id | id in s.jobs :: Recover(s.jobs[id], id in files), map[], map[])
  }

  predicate Lawful(s: Races, moves: seq<Move>)
    decreases |moves|
  {
    moves == [] || (Possible(s, moves[0]) && Lawful(Moved(s, moves[0]), moves[1..]))
  }

  function Reached(s: Races, moves: seq<Move>): Races
    requires Lawful(s, moves)
    decreases |moves|
  {
    if moves == [] then s else Reached(Moved(s, moves[0]), moves[1..])
  }

  // ------------------------------------------------------------------
  // The handlers, in their two halves
  // ------------------------------------------------------------------

  class RacingHandlers {
    var jobs: map<int, Job>
    var open: map<int, Ticket>
    var tasks: map<int, Task>

    function View(): Races
      reads this
    {
      Races(jobs, open, tasks)
    }

    constructor ()
      ensures View() == EMPTY_RACES
    {
      jobs, open, tasks := map[], map[], map[];
    }

    method AnotherIsActive() returns (busy: bool)
      ensures busy == BusyJobs(jobs)
    {
      var rest := jobs.Keys;
      busy := false;
      while |rest| > 0
        invariant rest <= jobs.Keys
        invariant busy == exists id :: id in jobs.Keys - rest && Active(jobs[id].status)
        decreases rest
      {
        var id := Pick(rest);
        rest := rest - {id};
        if Active(jobs[id].status) {
          busy := true;
        }
      }
    }

    /** The first half of an upload. The job's id is drawn later, and is new. */
    method CheckUpload(req: int, job: int, routed: bool) returns (passed: bool)
      requires req !in open && req !in tasks && job !in jobs && forall r :: r in open ==> open[r].job != job
      modifies this
      ensures passed == Possible(old(View()), Check(req, Uploading(job, routed)))
      ensures View() == if passed then Moved(old(View()), Check(req, Uploading(job, routed))) else old(View())
    {
      var busy := AnotherIsActive();
      passed := !busy;
      if passed {
        open := open[req := Uploading(job, routed)];
      }
    }

    /** The first half of a start. */
    method CheckStart(req: int, job: int, routed: bool) returns (passed: bool)
      requires req !in open && req !in tasks
      modifies this
      ensures passed == Possible(old(View()), Check(req, Starting(job, routed)))
      ensures View() == if passed then Moved(old(View()), Check(req, Starting(job, routed))) else old(View())
    {
      if job !in jobs || jobs[job].status != AwaitingMapping || !routed {
        return false;
      }
      var busy := AnotherIsActive();
      passed := !busy;
      if passed {
        open := open[req := Starting(job, routed)];
      }
    }

    /** The second half of either. */
    method Write(req: int)
      requires Possible(View(), Land(req))
      modifies this
      ensures View() == Moved(old(View()), Land(req))
    {
      match open[req] {
        case Uploading(job, routed) =>
          jobs := jobs[job := Job(Uploaded, true, routed, false)];
          tasks := tasks[req := Task(job, ScanQueued)];
        case Starting(job, routed) =>
          jobs := jobs[job := jobs[job].(status := Importing, routed := routed)];
          tasks := tasks[req := Task(job, ImportQueued)];
      }
      open := open - {req};
    }
  }

  // ------------------------------------------------------------------
  // One at a time, or not
  // ------------------------------------------------------------------

  /** At most one task is at work, and at most one job is active. */
  ghost predicate Exclusive(s: Races)
  {
    && (forall a, b :: a in s.tasks && b in s.tasks ==> a == b)
    && (forall a, b :: a in s.jobs && b in s.jobs && Active(s.jobs[a].status) && Active(s.jobs[b].status) ==> a == b)
  }

  ghost predicate HasTask(s: Races, job: int) { exists t :: t in s.tasks && s.tasks[t].job == job }

  ghost predicate InHand(s: Races, r: int) { r in s.open || r in s.tasks }

  /** What holds as long as checks do not overlap. */
  ghost predicate Alone(s: Races)
  {
    && (forall a, b :: InHand(s, a) && InHand(s, b) ==> a == b)
    && s.open.Keys !! s.tasks.Keys
    && (forall id :: id in s.jobs && Active(s.jobs[id].status) ==> HasTask(s, id))
    && (forall t :: t in s.tasks ==> s.tasks[t].job in s.jobs && WorkerMatches(s.tasks[t].stage, s.jobs[s.tasks[t].job].status))
    && (forall r :: r in s.open ==> (s.open[r].Starting? <==> s.open[r].job in s.jobs))
  }

  lemma {:induction false} AloneIsExclusive(s: Races)
    requires Alone(s)
    ensures Exclusive(s)
  {
    forall a, b | a in s.jobs && b in s.jobs && Active(s.jobs[a].status) && Active(s.jobs[b].status) ensures a == b {
      assert HasTask(s, a) && HasTask(s, b);
      var t: int :| t in s.tasks && s.tasks[t].job == a;
      var u: int :| u in s.tasks && s.tasks[u].job == b;
      assert InHand(s, t) && InHand(s, u);
    }
    forall a, b | a in s.tasks && b in s.tasks ensures a == b {
      assert InHand(s, a) && InHand(s, b);
    }
  }

  lemma {:induction false} NotBusyNoTasks(s: Races)
    requires Alone(s) && !BusyJobs(s.jobs)
    ensures s.tasks == map[]
  {
    forall t ensures t !in s.tasks {
      assert t in s.tasks ==> Active(s.jobs[s.tasks[t].job].status);
    }
  }

  lemma {:induction false} CheckKeepsAlone(s: Races, req: int, ticket: Ticket)
    requires Alone(s) && Possible(s, Check(req, ticket)) && s.open == map[]
    ensures Alone(Moved(s, Check(req, ticket)))
  {
    NotBusyNoTasks(s);
  }

  lemma {:induction false} OpenMeansIdle(s: Races, req: int)
    requires Alone(s) && req in s.open
    ensures s.tasks == map[] && forall id :: id in s.jobs ==> !Active(s.jobs[id].status)
  {
    assert InHand(s, req);
    forall t ensures t !in s.tasks {
      assert t in s.tasks ==> InHand(s, t);
    }
    forall id ensures !HasTask(s, id) {
    }
  }

  lemma {:induction false} LandKeepsAlone(s: Races, req: int)
    requires Alone(s) && Possible(s, Land(req))
    ensures Alone(Moved(s, Land(req)))
  {
    var t := Moved(s, Land(req));
    forall r ensures InHand(t, r) <==> r == req {
      assert InHand(s, req);
      assert InHand(t, r) ==> r == req || InHand(s, r);
    }
    forall r ensures r !in t.open && (r in t.tasks <==> r == req) {
      assert InHand(t, r) <==> r == req;
    }
    OpenMeansIdle(s, req);
    assert t.tasks[req].job in t.jobs && HasTask(t, t.tasks[req].job);
  }

  lemma {:induction false} TaskKeepsAlone(s: Races, m: Move, t: int)
    requires Alone(s) && Possible(s, m)
    requires m == ScanOn(t) || (m.ScanOff? && m.task == t) || m == ImportOn(t) || (m.ImportOff? && m.task == t)
    ensures Alone(Moved(s, m))
  {
    var n := Moved(s, m);
    assert InHand(s, t);
    forall r ensures InHand(n, r) ==> r == t {
      assert InHand(n, r) ==> InHand(s, r);
    }
    forall r ensures r !in n.open && (r in n.tasks ==> r == t) {
      assert InHand(n, r) ==> r == t;
    }
    forall id | id in n.jobs && Active(n.jobs[id].status) ensures HasTask(n, id) {
      if id == s.tasks[t].job {
        assert t in n.tasks && n.tasks[t].job == id;
      } else {
        assert HasTask(s, id);
        var u: int :| u in s.tasks && s.tasks[u].job == id;
        assert InHand(s, u);
      }
    }
  }

  lemma {:induction false} RestKeepsAlone(s: Races, m: Move)
    requires Alone(s) && Possible(s, m) && (m.Abandon? || m.Cancel? || m.Reboot?)
    ensures Alone(Moved(s, m))
  {
    var n := Moved(s, m);
    forall r ensures InHand(n, r) ==> InHand(s, r) {
    }
    forall id | id in n.jobs && Active(n.jobs[id].status) ensures HasTask(n, id) {
      assert HasTask(s, id);
      var u: int :| u in s.tasks && s.tasks[u].job == id;
      assert u in n.tasks;
    }
  }

  lemma {:induction false} MoveKeepsAlone(s: Races, m: Move)
    requires Alone(s) && Possible(s, m) && (m.Check? ==> s.open == map[])
    ensures Alone(Moved(s, m))
  {
    match m
    case Check(req, ticket) => CheckKeepsAlone(s, req, ticket);
    case Land(req) => LandKeepsAlone(s, req);
    case ScanOn(t) => TaskKeepsAlone(s, m, t);
    case ScanOff(t, _) => TaskKeepsAlone(s, m, t);
    case ImportOn(t) => TaskKeepsAlone(s, m, t);
    case ImportOff(t, _) => TaskKeepsAlone(s, m, t);
    case _ => RestKeepsAlone(s, m);
  }

  // ------------------------------------------------------------------
  // Exactly when two can be at work
  // ------------------------------------------------------------------

  /** No check passes while another accepted request has not landed. */
  predicate NoOverlap(s: Races, moves: seq<Move>)
    requires Lawful(s, moves)
    decreases |moves|
  {
    moves == [] || ((moves[0].Check? ==> s.open == map[]) && NoOverlap(Moved(s, moves[0]), moves[1..]))
  }

  predicate AllLand(moves: seq<Move>) { forall i :: 0 <= i < |moves| ==> moves[i].Land? }

  /** Requests that have passed have only to land for two tasks, or two jobs, to be at work. */
  ghost predicate CanCollide(s: Races)
  {
    exists landings :: Lawful(s, landings) && AllLand(landings) && !Exclusive(Reached(s, landings))
  }

  /** ... at some point of a run. */
  ghost predicate EverCanCollide(s: Races, moves: seq<Move>)
    requires Lawful(s, moves)
    decreases |moves|
  {
    CanCollide(s) || (moves != [] && EverCanCollide(Moved(s, moves[0]), moves[1..]))
  }

  lemma {:induction false} LandingsKeepAlone(s: Races, landings: seq<Move>)
    requires Alone(s) && Lawful(s, landings) && AllLand(landings)
    ensures Exclusive(Reached(s, landings))
    decreases |landings|
  {
    if landings == [] {
      AloneIsExclusive(s);
    } else {
      MoveKeepsAlone(s, landings[0]);
      LandingsKeepAlone(Moved(s, landings[0]), landings[1..]);
    }
  }

  /** Two open requests land one after the other, and both have a task. */
  lemma {:induction false} BothLand(s: Races, a: int, b: int)
    requires a != b && Possible(s, Land(a)) && Possible(s, Land(b))
    ensures CanCollide(s)
  {
    var landings := [Land(a), Land(b)];
    var t := Moved(s, Land(a));
    assert landings[1..] == [Land(b)] && landings[1..][1..] == [];
    assert Possible(t, Land(b));
    var n := Moved(t, Land(b));
    assert Lawful(n, []) && Reached(n, []) == n;
    assert Lawful(t, [Land(b)]) && Reached(t, [Land(b)]) == n;
    assert Lawful(s, landings) && Reached(s, landings) == n;
    assert a in n.tasks && b in n.tasks;
    assert AllLand(landings) && !Exclusive(n);
  }

  lemma {:induction false} CollidesExactly(s: Races, moves: seq<Move>)
    requires Alone(s) && Lawful(s, moves)
    ensures EverCanCollide(s, moves) <==> !NoOverlap(s, moves)
    decreases |moves|
  {
    forall landings | Lawful(s, landings) && AllLand(landings) ensures Exclusive(Reached(s, landings)) {
      LandingsKeepAlone(s, landings);
    }
    if moves != [] {
      var t := Moved(s, moves[0]);
      if moves[0].Check? && s.open != map[] {
        assert s.open.Keys == {} ==> s.open == map[];
        var r := AnyOf(s.open.Keys);
        assert Possible(t, Land(r)) && Possible(t, Land(moves[0].req));
        BothLand(t, r, moves[0].req);
      } else {
        MoveKeepsAlone(s, moves[0]);
        CollidesExactly(t, moves[1..]);
      }
    }
  }

  /** From an empty appliance: two imports can come to be at work exactly when, in the run, a check passes while
      another accepted request has not landed. */
  lemma {:induction false} RaceExactly(moves: seq<Move>)
    requires Lawful(EMPTY_RACES, moves)
    ensures EverCanCollide(EMPTY_RACES, moves) <==> !NoOverlap(EMPTY_RACES, moves)
  {
    CollidesExactly(EMPTY_RACES, moves);
  }

  lemma {:induction false} RunStaysAlone(s: Races, moves: seq<Move>)
    requires Alone(s) && Lawful(s, moves) && NoOverlap(s, moves)
    ensures Alone(Reached(s, moves)) && Exclusive(Reached(s, moves))
    decreases |moves|
  {
    if moves == [] {
      AloneIsExclusive(s);
    } else {
      MoveKeepsAlone(s, moves[0]);
      RunStaysAlone(Moved(s, moves[0]), moves[1..]);
    }
  }

  /** Two uploads: the second checks while the first is still being stored. */
  lemma {:induction false} TwoUploadsExample()
    ensures var moves := [Check(1, Uploading(10, false)), Check(2, Uploading(11, false)), Land(1), Land(2)];
      && Lawful(EMPTY_RACES, moves)
      && var s := Reached(EMPTY_RACES, moves);
         && s.jobs == map[10 := Job(Uploaded, true, false, false), 11 := Job(Uploaded, true, false, false)]
         && !Exclusive(s)
  {
    var s0 := EMPTY_RACES;
    var s1 := Moved(s0, Check(1, Uploading(10, false)));
    var s2 := Moved(s1, Check(2, Uploading(11, false)));
    var s3 := Moved(s2, Land(1));
    var s4 := Moved(s3, Land(2));
    var moves := [Check(1, Uploading(10, false)), Check(2, Uploading(11, false)), Land(1), Land(2)];
    assert moves[1..] == [Check(2, Uploading(11, false)), Land(1), Land(2)];
    assert moves[1..][1..] == [Land(1), Land(2)] && moves[1..][1..][1..] == [Land(2)];
    assert moves[1..][1..][1..][1..] == [];
    assert Lawful(s4, []) && Reached(s4, []) == s4;
    assert Lawful(s3, [Land(2)]) && Reached(s3, [Land(2)]) == s4;
    assert Lawful(s2, moves[1..][1..]) && Reached(s2, moves[1..][1..]) == s4;
    assert Lawful(s1, moves[1..]) && Reached(s1, moves[1..]) == s4;
    assert Lawful(s0, moves) && Reached(s0, moves) == s4;
    assert 10 in s4.jobs && 11 in s4.jobs && Active(s4.jobs[10].status) && Active(s4.jobs[11].status);
  }

  // ------------------------------------------------------------------
  // Finished jobs
  // ------------------------------------------------------------------

  /** A finished job changes exactly when a start that was checked before it finished lands on it. */
  lemma {:induction false} FinishedChangesExactly(s: Races, m: Move, id: int)
    requires Alone(s) && Possible(s, m) && id in s.jobs && Terminal(s.jobs[id].status)
    ensures id in Moved(s, m).jobs
    ensures Moved(s, m).jobs[id] != s.jobs[id] <==> m.Land? && s.open[m.req].Starting? && s.open[m.req].job == id
  {
  }

  /** A job cancelled between the two halves of its start is imported after all, or tries to be: its file is gone. */
  lemma {:induction false} RevivedExample(s: Races, req: int, id: int)
    requires Alone(s) && !BusyJobs(s.jobs) && req !in s.open && req !in s.tasks
    requires id in s.jobs && s.jobs[id].status == AwaitingMapping
    ensures var moves := [Check(req, Starting(id, true)), Cancel(id), Land(req)];
      && Lawful(s, moves)
      && var n := Reached(s, moves);
         id in n.jobs && n.jobs[id].status == Importing && !n.jobs[id].spooled
  {
    var s1 := Moved(s, Check(req, Starting(id, true)));
    var s2 := Moved(s1, Cancel(id));
    var s3 := Moved(s2, Land(req));
    var moves := [Check(req, Starting(id, true)), Cancel(id), Land(req)];
    assert moves[1..] == [Cancel(id), Land(req)] && moves[1..][1..] == [Land(req)] && moves[1..][1..][1..] == [];
    assert Lawful(s3, []) && Reached(s3, []) == s3;
    assert Lawful(s2, [Land(req)]) && Reached(s2, [Land(req)]) == s3;
    assert Lawful(s1, moves[1..]) && Reached(s1, moves[1..]) == s3;
  }

  // ------------------------------------------------------------------
  // Handlers in one piece
  // ------------------------------------------------------------------

  /** A request that lands at once does what the handler does in one step. */
  lemma {:induction false} LandedAtOnce(s: Races, req: int, ticket: Ticket, workers: map<int, Worker>)
    requires Possible(s, Check(req, ticket))
    ensures Possible(Moved(s, Check(req, ticket)), Land(req))
    ensures var whole := if ticket.Uploading? then Upload(ticket.job, ticket.routed) else StartImport(ticket.job, ticket.routed);
      && Enabled(System(s.jobs, workers), whole)
      && Moved(Moved(s, Check(req, ticket)), Land(req)).jobs == Next(System(s.jobs, workers), whole).jobs
  {
  }

  /** The step of a whole-handler run that a move of a task, a cancel or a restart stands for. */
  function StepOf(s: Races, m: Move): Option<Step>
    requires Possible(s, m)
  {
    match m
    case Cancel(id) => Some(CancelImport(id))
    case ScanOn(t) => Some(ScanBegins(s.tasks[t].job))
    case ScanOff(t, failed) => Some(ScanEnds(s.tasks[t].job, failed))
    case ImportOn(t) => Some(ImportBegins(s.tasks[t].job))
    case ImportOff(t, outcome) => Some(ImportEnds(s.tasks[t].job, outcome))
    case Reboot(files) => Some(Restart(files))
    case _ => None
  }

  /** Every other move does to the jobs what the step does that it stands for; a check and a withdrawal do nothing. */
  lemma {:induction false} OtherMovesAgree(s: Races, m: Move, workers: map<int, Worker>)
    requires Possible(s, m)
    requires forall t :: t in s.tasks ==> s.tasks[t].job in workers && workers[s.tasks[t].job] == s.tasks[t].stage
    ensures StepOf(s, m).Some? ==>
      && Enabled(System(s.jobs, workers), StepOf(s, m).value)
      && Moved(s, m).jobs == Next(System(s.jobs, workers), StepOf(s, m).value).jobs
    ensures m.Check? || m.Abandon? ==> Moved(s, m).jobs == s.jobs
  {
  }
}
