/**
 Where the protocol promises less than it seems to: runs from an empty table that break the
 naive statement. When a FAILED job stays on its way is settled here; when a claim, the retry
 bound and a reap hold up is settled in Ownership, RetryBound and Reapers.
 */
module ProtocolEdges {
  import opened Basics
  import opened Jobs
  import opened JobTable
  import opened Protocol

  const J: JobId := 7

  function Row(state: JobState, attempts: int, maxAttempts: int, lease: Option<Time>): Job {
    Job(Train, map[], state, attempts, maxAttempts, None, Gpu, 0, 0, lease)
  }

  const DEAD: Job := Row(Running, 0, 3, Some(5))

  /** No jobs, no results, no process: where every run starts. */
  const EMPTY: State := State(map[], map[], map[])

  function Alone(j: Job): State {
    State(map[J := j], map[], map[])
  }

  /** How many commits of the run took the job out of RUNNING. */
  function Exits(s: State, acts: seq<Action>, id: JobId): nat
    decreases |acts|
  {
    if acts == [] then 0
    else (if Releases(s, acts[0], id) then 1 else 0) + Exits(Do(s, acts[0]), acts[1..], id)
  }

  /** Some run leads from s to t, and takes the job out of RUNNING n times on the way. */
  ghost predicate Leads(s: State, t: State, n: nat) {
    exists acts :: Run(s, acts) == t && Exits(s, acts, J) == n
  }

  lemma {:induction false} RunAppend(s: State, acts: seq<Action>, a: Action)
    ensures Run(s, acts + [a]) == Do(Run(s, acts), a)
    ensures Exits(s, acts + [a], J) == Exits(s, acts, J) + (if Releases(Run(s, acts), a, J) then 1 else 0)
    decreases |acts|
  {
    if acts == [] {
      assert Run(Do(s, a), []) == Do(s, a);
      assert ([] + [a])[1..] == [];
    } else {
      RunAppend(Do(s, acts[0]), acts[1..], a);
      assert (acts + [a])[1..] == acts[1..] + [a];
    }
  }

  lemma Go(s0: State, s: State, n: nat, a: Action)
    requires Leads(s0, s, n)
    ensures Leads(s0, Do(s, a), n + (if Releases(s, a, J) then 1 else 0))
  {
    var acts :| Run(s0, acts) == s && Exits(s0, acts, J) == n;
    RunAppend(s0, acts, a);
  }

  lemma Stay(s: State)
    ensures Leads(s, s, 0)
  {
    assert Run(s, []) == s && Exits(s, [], J) == 0;
  }

  // The states of a concrete run, each an update of the state before.
  function SetProc(s: State, p: Pid, proc: Proc): State {
    s.(procs := s.procs[p := proc])
  }

  function SetRow(s: State, j: Job): State {
    s.(jobs := s.jobs[J := j])
  }

  lemma QuietStep(s0: State, s: State, n: nat, p: Pid, c: Command, next: Proc)
    requires Leads(s0, s, n)
    requires !c.CommitWrite? && !c.TryClaim? && !c.RecordResult?
    requires NextProc(s, By(p, c)) == next
    ensures Leads(s0, SetProc(s, p, next), n)
  {
    Go(s0, s, n, By(p, c));
  }

  lemma CommitStep(s0: State, s: State, n: nat, p: Pid, w: Write, why: Why)
    requires Leads(s0, s, n)
    requires At(s, p) == Writing(J, w, why) && Hits(s.jobs, J, w.from)
    ensures Leads(s0, SetProc(SetRow(s, Written(s.jobs[J], w)), p, AfterWrite(J, why, true)),
                  n + (if w.from == Running then 1 else 0))
  {
    Go(s0, s, n, By(p, CommitWrite));
  }

  /** The claim of a PENDING row that nobody contests: SELECT, then UPDATE. */
  lemma ClaimSteps(s0: State, s: State, n: nat, p: Pid, lease: Time, worker: bool)
    requires Leads(s0, s, n)
    requires At(s, p) == Idle && Hits(s.jobs, J, Pending)
    ensures Leads(s0, SetProc(SetRow(s, s.jobs[J].(state := Running, lease := Some(lease))),
                              p, if worker then Holding(J) else Idle), n)
  {
    hide Leads;
    var mid := Claiming([J], lease, worker);
    QuietStep(s0, s, n, p, QueryClaim([J], lease, worker), mid);
    var s1 := SetProc(s, p, mid);
    Go(s0, s1, n, By(p, TryClaim));
    var last := if worker then Holding(J) else Idle;
    assert Do(s1, By(p, TryClaim)).procs == s.procs[p := mid][p := last] == s.procs[p := last];
  }

  /** A reaper that holds the row's id fails whatever claim of the row it finds. */
  lemma ReapSteps(s0: State, s: State, n: nat, p: Pid)
    requires Leads(s0, s, n)
    requires At(s, p) == Reaping([J]) && Hits(s.jobs, J, Running) && !Exhausted(s.jobs[J])
    ensures Leads(s0, SetProc(SetRow(s, FailedJob(s.jobs[J], LeaseExpired)), p, Reaping([])), n + 1)
  {
    hide Leads;
    FailPathLegalIffRunning(Running, false);
    assert [J][1..] == [];
    var w := Write(Running, Pending, s.jobs[J].attempts + 1, Some(LeaseExpired));
    QuietStep(s0, s, n, p, BeginReapRow, Writing(J, w, ReapRow([])));
    var s1 := SetProc(s, p, Writing(J, w, ReapRow([])));
    CommitStep(s0, s1, n, p, w, ReapRow([]));
    assert s1.procs[p := Reaping([])] == s.procs[p := Reaping([])];
  }

  /** The job has no result yet, so the worker that claimed it turns to its handler. */
  lemma CheckSteps(s0: State, s: State, n: nat, p: Pid)
    requires Leads(s0, s, n) && At(s, p) == Holding(J) && J !in s.results
    ensures Leads(s0, SetProc(s, p, Handling(J)), n)
  {
    QuietStep(s0, s, n, p, CheckLedger, Handling(J));
  }

  /** A reaper selects the row once its lease has expired. */
  lemma SelectSteps(s0: State, s: State, n: nat, p: Pid)
    requires Leads(s0, s, n) && At(s, p) == Idle && s.jobs == Alone(DEAD).jobs
    ensures Leads(s0, SetProc(s, p, Reaping([J])), n)
  {
    hide Leads;
    assert Expired(s.jobs[J], 10);
    QuietStep(s0, s, n, p, QueryReap([J], 10), Reaping([J]));
  }

  lemma JobCreated(maxAttempts: int)
    ensures Leads(EMPTY, Alone(Row(Pending, 0, maxAttempts, None)), 0)
  {
    Stay(EMPTY);
    Go(EMPTY, EMPTY, 0, Create(J, Row(Pending, 0, maxAttempts, None)));
  }

  /** The job, claimed with a lease until 5 by a process that then dies or goes on. */
  lemma JobClaimed(p: Pid, worker: bool)
    ensures Leads(EMPTY, SetProc(Alone(DEAD), p, if worker then Holding(J) else Idle), 0)
  {
    JobCreated(3);
    hide Leads;
    var s := Alone(Row(Pending, 0, 3, None));
    ClaimSteps(EMPTY, s, 0, p, 5, worker);
    assert SetRow(s, DEAD) == Alone(DEAD);
  }

  // ------------------------------------------------------------ FAILED is transient, but for crashes

  /** The process is on its way to store DEAD_LETTER for the FAILED job. */
  predicate MovingOn(proc: Proc, id: JobId) {
    || (proc.DeadLettering? && proc.id == id)
    || (proc.Writing? && proc.id == id && proc.w.from == Failed && proc.w.to == DeadLetter && proc.why == Operator)
  }

  ghost predicate FailedInTransit(s: State) {
    forall id :: Hits(s.jobs, id, Failed) ==> exists p :: MovingOn(At(s, p), id)
  }

  /** Only _dead_letter_now writes FAILED, and nothing writes RETRYING. */
  ghost predicate FailedOnlyFromDeadLetterNow(s: State) {
    forall p :: At(s, p).Writing? ==>
      && (At(s, p).w.to == Failed ==> At(s, p).why.DeadLetterFirst?)
      && At(s, p).w.to != Retrying
  }

  predicate NoHandFail(a: Action) {
    a.By? && a.c.BeginTransition? ==> a.c.to !in {Failed, Retrying}
  }

  /** The crash of the only process that was moving some FAILED job on. */
  ghost predicate Strands(s: State, a: Action) {
    && a.By? && a.c.Crash?
    && exists id :: Hits(s.jobs, id, Failed) && MovingOn(At(s, a.p), id)
                    && forall q :: q != a.p ==> !MovingOn(At(s, q), id)
  }

  lemma StepKeepsWritersOfFailed(s: State, a: Action)
    requires FailedOnlyFromDeadLetterNow(s) && NoHandFail(a)
    ensures FailedOnlyFromDeadLetterNow(Do(s, a))
  {
    NextAt(s, a);
    if a.By? && NextProc(s, a).Writing? {
      assert NextProc(s, a).w.to == Failed ==> NextProc(s, a).why.DeadLetterFirst?;
      assert NextProc(s, a).w.to != Retrying;
    }
  }

  /** A process that moves a FAILED job on still does after its own step, or has dead-lettered it, unless it crashed. */
  lemma MoverGoesOn(s: State, a: Action, p: Pid, id: JobId)
    requires MovingOn(At(s, p), id) && Hits(s.jobs, id, Failed) && Hits(Do(s, a).jobs, id, Failed)
    ensures MovingOn(At(Do(s, a), p), id) <==> !(a.By? && a.p == p && a.c.Crash?)
  {
    NextAt(s, a);
  }

  /** FAILED is stored by a process that goes on to dead-letter the job. */
  lemma FailedByMover(s: State, a: Action, id: JobId)
    requires FailedOnlyFromDeadLetterNow(s)
    requires !Hits(s.jobs, id, Failed) && Hits(Do(s, a).jobs, id, Failed)
    ensures a.By? && !a.c.Crash? && MovingOn(At(Do(s, a), a.p), id)
  {
    assert a.By? && a.c.CommitWrite?;
    NextAt(s, a);
  }

  /** Each step keeps FAILED jobs on their way exactly if it is not a stranding crash. */
  lemma InTransitUnlessStranded(s: State, a: Action)
    requires FailedInTransit(s) && FailedOnlyFromDeadLetterNow(s) && NoHandFail(a)
    ensures FailedInTransit(Do(s, a)) <==> !Strands(s, a)
  {
    var s' := Do(s, a);
    if !Strands(s, a) {
      forall id | Hits(s'.jobs, id, Failed) ensures exists p :: MovingOn(At(s', p), id) {
        if Hits(s.jobs, id, Failed) {
          var p :| MovingOn(At(s, p), id) && !(a.By? && a.p == p && a.c.Crash?);
          MoverGoesOn(s, a, p, id);
        } else {
          FailedByMover(s, a, id);
        }
      }
    } else {
      var id :| Hits(s.jobs, id, Failed) && MovingOn(At(s, a.p), id)
                && forall q :: q != a.p ==> !MovingOn(At(s, q), id);
      NextAt(s, a);
      assert Hits(s'.jobs, id, Failed) && forall q :: !MovingOn(At(s', q), id);
    }
  }

  /** FAILED jobs are on their way in every state of the run. */
  ghost predicate AlwaysInTransit(s: State, acts: seq<Action>)
    decreases |acts|
  {
    FailedInTransit(s) && (acts != [] ==> AlwaysInTransit(Do(s, acts[0]), acts[1..]))
  }

  ghost predicate NeverStrands(s: State, acts: seq<Action>)
    decreases |acts|
  {
    acts != [] ==> !Strands(s, acts[0]) && NeverStrands(Do(s, acts[0]), acts[1..])
  }

  /** Over whole runs: a FAILED job always has a process about to dead-letter it, exactly if no crash strands one. */
  lemma {:induction false} FailedIsTransientIff(s: State, acts: seq<Action>)
    requires FailedInTransit(s) && FailedOnlyFromDeadLetterNow(s)
    requires forall k :: 0 <= k < |acts| ==> NoHandFail(acts[k])
    ensures AlwaysInTransit(s, acts) <==> NeverStrands(s, acts)
    decreases |acts|
  {
    if acts != [] {
      InTransitUnlessStranded(s, acts[0]);
      StepKeepsWritersOfFailed(s, acts[0]);
      if !Strands(s, acts[0]) {
        FailedIsTransientIff(Do(s, acts[0]), acts[1..]);
      }
    }
  }

  /** Nobody is about to change the FAILED job. */
  ghost predicate Stranded(s: State, id: JobId) {
    && Hits(s.jobs, id, Failed)
    && forall p :: !(At(s, p).DeadLettering? && At(s, p).id == id)
                   && !(At(s, p).Writing? && At(s, p).id == id && At(s, p).w.from == Failed)
  }

  /** A stranded job stays FAILED for good: no worker, reaper or recovery helps it, only an operator's transition(). */
  lemma {:induction false} StrandedStaysFailed(s: State, acts: seq<Action>, id: JobId)
    requires Stranded(s, id)
    requires forall k :: 0 <= k < |acts| && acts[k].By? && acts[k].c.BeginTransition? ==> acts[k].c.id != id
    ensures Stranded(Run(s, acts), id)
    decreases |acts|
  {
    if acts != [] {
      StrandedStep(s, acts[0], id);
      StrandedStaysFailed(Do(s, acts[0]), acts[1..], id);
    }
  }

  lemma StrandedStep(s: State, a: Action, id: JobId)
    requires Stranded(s, id) && (a.By? && a.c.BeginTransition? ==> a.c.id != id)
    ensures Stranded(Do(s, a), id)
  {
    NextAt(s, a);
    FailPathLegalIffRunning(Failed, Exhausted(s.jobs[id]));
    assert Hits(Do(s, a).jobs, id, Failed);
    if a.By? && a.c.BeginReapRow? && At(s, a.p).Reaping? && At(s, a.p).ids != [] {
      PlansAreLegal(s.jobs, At(s, a.p).ids[0], Failed, None, false, LeaseExpired);
    }
  }

  /** The first of _dead_letter_now's two commits, and then a crash. */
  lemma HalfDeadLettered(s: State) returns (s': State)
    requires Leads(EMPTY, s, 0) && At(s, 0) == Idle && s.jobs == Alone(DEAD).jobs
    ensures Leads(EMPTY, s', 1) && Hits(s'.jobs, J, Failed)
    ensures forall p :: At(s', p) == if p == 0 then Idle else At(s, p)
  {
    hide Leads;
    var w := Write(Running, Failed, 1, None);
    var s1 := SetProc(s, 0, Writing(J, w, DeadLetterFirst(None)));
    var s2 := SetProc(SetRow(s1, Written(DEAD, w)), 0, DeadLettering(J, None));
    s' := SetProc(s2, 0, Idle);
    QuietStep(EMPTY, s, 0, 0, BeginDeadLetterNow(J, None), Writing(J, w, DeadLetterFirst(None)));
    CommitStep(EMPTY, s1, 0, 0, w, DeadLetterFirst(None));
    QuietStep(EMPTY, s2, 1, 0, Crash, Idle);
  }

  /** _dead_letter_now makes two commits: a crash in between strands the job in FAILED. */
  lemma CrashStrandsFailed()
    ensures exists s :: Leads(EMPTY, s, 1) && Stranded(s, J) && forall p :: At(s, p) == Idle
  {
    JobClaimed(1, false);
    hide Leads;
    var s := HalfDeadLettered(SetProc(Alone(DEAD), 1, Idle));
    assert forall p :: At(s, p) == Idle;
    assert Stranded(s, J);
  }

  /** Nothing but _dead_letter_now or an operator's own transition() stores FAILED or RETRYING. */
  ghost predicate NoLimbo(s: State) {
    && (forall id :: id in s.jobs ==> s.jobs[id].state !in {Failed, Retrying})
    && (forall p :: At(s, p).Writing? ==> At(s, p).w.to !in {Failed, Retrying})
  }

  predicate AvoidsLimbo(a: Action) {
    a.By? ==>
      && !a.c.BeginDeadLetterNow?
      && (a.c.BeginTransition? ==> a.c.to !in {Failed, Retrying})
  }

  /** fail() is a single write: with it alone, crashes never leave FAILED or RETRYING behind. */
  lemma {:induction false} SingleWriteFailNeverStrands(s: State, acts: seq<Action>)
    requires NoLimbo(s)
    requires forall k :: 0 <= k < |acts| ==> AvoidsLimbo(acts[k])
    ensures NoLimbo(Run(s, acts))
    decreases |acts|
  {
    if acts != [] {
      NoLimboStep(s, acts[0]);
      SingleWriteFailNeverStrands(Do(s, acts[0]), acts[1..]);
    }
  }

  lemma NoLimboStep(s: State, a: Action)
    requires NoLimbo(s) && AvoidsLimbo(a)
    ensures NoLimbo(Do(s, a))
  {
    NextAt(s, a);
    if a.By? {
      var next := NextProc(s, a);
      assert next.Writing? ==> next.w.to !in {Failed, Retrying};
    }
  }

  // ------------------------------------------------------------ leases carry no owner

  /** A reaper fails the row it has selected, and another worker claims the job again. */
  lemma Reclaimed(s: State, n: nat, r: Pid, w: Pid) returns (s': State)
    requires Leads(EMPTY, s, n) && r != w && At(s, r) == Reaping([J]) && At(s, w) == Idle
    requires s.jobs == Alone(DEAD).jobs && s.results == map[]
    ensures Leads(EMPTY, s', n + 1) && s'.results == map[]
    ensures Hits(s'.jobs, J, Running)
    ensures s'.jobs[J] == DEAD.(attempts := 1, error := Some(LeaseExpired), lease := Some(100))
    ensures forall q :: At(s', q) == if q == w then Holding(J) else if q == r then Reaping([]) else At(s, q)
  {
    hide Leads;
    var s1 := SetProc(SetRow(s, FailedJob(DEAD, LeaseExpired)), r, Reaping([]));
    s' := SetProc(SetRow(s1, s1.jobs[J].(state := Running, lease := Some(100))), w, Holding(J));
    ReapSteps(EMPTY, s, n, r);
    ClaimSteps(EMPTY, s1, n + 1, w, 100, true);
  }

  /** Worker 0 is reaped but alive, and worker 1 claims the job again: both run its handler. */
  lemma TwoHandlers() returns (s: State)
    ensures Leads(EMPTY, s, 1) && s.results == map[]
    ensures Hits(s.jobs, J, Running) && At(s, 0) == Handling(J) && At(s, 1) == Handling(J)
  {
    JobClaimed(0, true);
    hide Leads, SetProc, At, Expired;
    var s0 := SetProc(Alone(DEAD), 0, Holding(J));
    var s1 := SetProc(s0, 0, Handling(J));
    var s2 := SetProc(s1, 2, Reaping([J]));
    SetAt(Alone(DEAD), 0, Holding(J));
    SetAt(s0, 0, Handling(J));
    SetAt(s1, 2, Reaping([J]));
    NobodyAt(Alone(DEAD));
    CheckSteps(EMPTY, s0, 0, 0);
    SelectSteps(EMPTY, s1, 0, 2);
    var s3 := Reclaimed(s2, 0, 2, 1);
    CheckSteps(EMPTY, s3, 1, 1);
    s := SetProc(s3, 1, Handling(J));
    SetAt(s3, 1, Handling(J));
  }

  lemma SetAt(s: State, p: Pid, proc: Proc)
    ensures var s' := SetProc(s, p, proc);
            && s'.jobs == s.jobs && s'.results == s.results
            && At(s', p) == proc && forall q :: q != p ==> At(s', q) == At(s, q)
  {
  }

  lemma NobodyAt(s: State)
    requires s.procs == map[]
    ensures forall p :: At(s, p) == Idle
  {
  }

  /** From there worker 0 completes worker 1's claim while worker 1 still runs it. */
  lemma ReapedWorkerCompletesAnothersClaim()
    ensures exists s, t ::
      && Leads(EMPTY, s, 1)
      && Hits(s.jobs, J, Running) && At(s, 0) == Handling(J) && At(s, 1) == Handling(J)
      && Leads(s, t, 1)
      && Hits(t.jobs, J, Succeeded) && At(t, 0) == Idle && At(t, 1) == Handling(J)
  {
    hide Leads;
    var s := TwoHandlers();
    var t := LateCompletion(s, 0);
    assert Leads(EMPTY, s, 1) && Leads(s, t, 1);
  }

  /** A worker whose handler runs completes whatever claim of the job it finds RUNNING. */
  lemma LateCompletion(s: State, p: Pid) returns (t: State)
    requires At(s, p) == Handling(J) && Hits(s.jobs, J, Running) && J !in s.results
    ensures Leads(s, t, 1)
    ensures Hits(t.jobs, J, Succeeded) && At(t, p) == Idle
    ensures forall q :: q != p ==> At(t, q) == At(s, q)
  {
    hide Leads;
    var s1 := SetProc(s, p, Recording(J, []));
    var s2 := SetProc(s1, p, Finishing(J, true)).(results := s.results[J := []]);
    var f := Write(Running, Succeeded, s.jobs[J].attempts, None);
    var s3 := SetProc(s2, p, Writing(J, f, WorkerComplete(true)));
    t := SetProc(SetRow(s3, Written(s.jobs[J], f)), p, Idle);
    Stay(s);
    QuietStep(s, s, 0, p, HandlerReturns([]), Recording(J, []));
    Go(s, s1, 0, By(p, RecordResult));
    assert Do(s1, By(p, RecordResult)) == s2;
    QuietStep(s, s2, 0, p, BeginComplete, Writing(J, f, WorkerComplete(true)));
    CommitStep(s, s3, 0, p, f, WorkerComplete(true));
  }

  /** Two reapers select one dead worker's row; the first fails it, and worker 2 claims the job again. */
  lemma SecondReaper() returns (s: State)
    ensures Leads(EMPTY, s, 1) && At(s, 1) == Reaping([J]) && At(s, 2) == Holding(J)
    ensures Hits(s.jobs, J, Running)
    ensures s.jobs[J] == DEAD.(attempts := 1, error := Some(LeaseExpired), lease := Some(100))
  {
    JobClaimed(3, false);
    hide Leads;
    var s0 := SetProc(Alone(DEAD), 3, Idle);
    var s1 := SetProc(s0, 1, Reaping([J]));
    SelectSteps(EMPTY, s0, 0, 1);
    SelectSteps(EMPTY, s1, 0, 0);
    s := Reclaimed(SetProc(s1, 0, Reaping([J])), 0, 0, 2);
  }

  /** The second reaper then fails the fresh claim, whose lease is good. */
  lemma StaleReaperFailsHealthyClaim()
    ensures exists s, t ::
      && Leads(EMPTY, s, 1) && At(s, 1) == Reaping([J])
      && Hits(s.jobs, J, Running) && s.jobs[J].lease == Some(100) && At(s, 2) == Holding(J)
      && Leads(s, t, 1)
      && Hits(t.jobs, J, Pending) && t.jobs[J].attempts == 2 && At(t, 2) == Holding(J)
  {
    var s := SecondReaper();
    Stay(s);
    hide Leads;
    var t := SetProc(SetRow(s, FailedJob(s.jobs[J], LeaseExpired)), 1, Reaping([]));
    ReapSteps(s, s, 0, 1);
    assert Leads(EMPTY, s, 1) && Leads(s, t, 1);
  }

  // ------------------------------------------------------------ attempts are written from the earlier read

  const FRESH: State := State(map[J := Row(Pending, 0, 2, None)], map[], map[0 := Idle, 1 := Idle])

  /** One round: a pause reads, a worker claims and fails, the stale pause commits, a resume. */
  lemma RoundRestoresAttempts(s0: State, n: nat)
    requires Leads(s0, FRESH, n)
    ensures Leads(s0, FRESH, n + 1)
  {
    hide Leads;
    var pause := Write(Pending, Paused, 0, None);
    var fail := Write(Running, Pending, 1, Some(Repr([])));
    var resume := Write(Paused, Pending, 0, None);
    var j := Row(Pending, 0, 2, None);
    var s1 := SetProc(FRESH, 0, Writing(J, pause, Operator));
    var s2 := SetProc(SetRow(s1, Row(Running, 0, 2, Some(100))), 1, Idle);
    var s3 := SetProc(s2, 1, Writing(J, fail, Operator));
    var s4 := SetProc(SetRow(s3, Row(Pending, 1, 2, None).(error := Some(Repr([])))), 1, Idle);
    var s5 := SetProc(SetRow(s4, Row(Paused, 0, 2, None)), 0, Idle);
    var s6 := SetProc(s5, 0, Writing(J, resume, Operator));
    QuietStep(s0, FRESH, n, 0, BeginTransition(J, Paused, None, false), Writing(J, pause, Operator));
    ClaimSteps(s0, s1, n, 1, 100, false);
    FailPathLegalIffRunning(Running, false);
    QuietStep(s0, s2, n, 1, BeginFail(J, Repr([])), Writing(J, fail, Operator));
    CommitStep(s0, s3, n, 1, fail, Operator);
    CommitStep(s0, s4, n + 1, 0, pause, Operator);
    QuietStep(s0, s5, n + 1, 0, BeginTransition(J, Pending, None, false), Writing(J, resume, Operator));
    CommitStep(s0, s6, n + 1, 0, resume, Operator);
    var s7 := SetProc(SetRow(s6, j), 0, Idle);
    assert s7.procs == FRESH.procs && s7.jobs == FRESH.jobs;
  }

  lemma FreshIsReachable()
    ensures Leads(EMPTY, FRESH, 0)
  {
    JobCreated(2);
    hide Leads;
    var s := Alone(Row(Pending, 0, 2, None));
    QuietStep(EMPTY, s, 0, 0, Crash, Idle);
    QuietStep(EMPTY, SetProc(s, 0, Idle), 0, 1, Crash, Idle);
    assert SetProc(SetProc(s, 0, Idle), 1, Idle) == FRESH;
  }

  /** The retry bound does not bound failures: a job of two attempts fails any number of times and is as new. */
  lemma {:induction false} StaleWritesUndoTheRetryBound(n: nat)
    ensures Leads(EMPTY, FRESH, n)
  {
    hide Leads;
    if n == 0 {
      FreshIsReachable();
    } else {
      StaleWritesUndoTheRetryBound(n - 1);
      RoundRestoresAttempts(EMPTY, n - 1);
    }
  }
}
