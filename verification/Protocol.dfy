/**
 The job queue as many interleaved processes on one table.

 The read and the guarded UPDATE of an operation are separate steps; a process may
 crash between any two of its steps, and any number of other steps may come in
 between. Each database statement is one step. The rows a SELECT returned are kept
 in the process and grow stale.
 */
module Protocol {
  import opened Basics
  import opened Jobs
  import opened JobTable

  type Pid = nat

  /** What a pending guarded UPDATE is part of, and so what its process does next. */
  datatype Why =
    | Operator                                // one call of transition() or fail(), then done
    | WorkerComplete(inTry: bool)             // run_once's complete(); in the try block or before it
    | ReapRow(rest: seq<JobId>)               // one row of reap_expired()
    | DeadLetterFirst(error: Option<JobError>)  // the first of _dead_letter_now's two transitions

  datatype Proc =
    | Idle
    | Claiming(cands: seq<JobId>, lease: Time, worker: bool)  // SELECT done, UPDATEs to try
    | Holding(id: JobId)                      // run_once right after a won claim
    | Handling(id: JobId)                     // the ledger had no result: the handler runs
    | Recording(id: JobId, result: JobResult) // the handler returned
    | Finishing(id: JobId, inTry: bool)       // about to call complete()
    | Failing(id: JobId, error: JobError)       // the handler raised: about to call fail()
    | Writing(id: JobId, w: Write, why: Why)  // read and validated: UPDATE to run
    | Reaping(ids: seq<JobId>)                // expired rows still to be failed
    | DeadLettering(id: JobId, reason: Option<JobError>)  // FAILED committed, DEAD_LETTER to come

  datatype State = State(jobs: Table, results: map<JobId, JobResult>, procs: map<Pid, Proc>)

  /** One step of a process. */
  datatype Command =
    | BeginTransition(id: JobId, to: JobState, error: Option<JobError>, bump: bool)
    | BeginFail(id: JobId, msg: JobError)
    | CommitWrite
    | QueryClaim(cands: seq<JobId>, lease: Time, worker: bool)
    | TryClaim
    | CheckLedger
    | HandlerReturns(result: JobResult)
    | HandlerRaises(msg: JobError)
    | RecordResult
    | BeginComplete
    | BeginWorkerFail
    | QueryReap(ids: seq<JobId>, now: Time)
    | BeginReapRow
    | BeginDeadLetterNow(id: JobId, error: Option<JobError>)
    | BeginSecond
    | Crash

  /** A statement that stands alone, or one step of process p. */
  datatype Action =
    | Create(newId: JobId, job: Job)
    | UpdatePayload(payloadId: JobId, payload: Payload)
    | RenewLease(renewId: JobId, newLease: Time)
    | By(p: Pid, c: Command)

  function At(s: State, p: Pid): Proc {
    if p in s.procs then s.procs[p] else Idle
  }

  function NextJobs(s: State, a: Action): Table {
    match a
    case Create(id, j) => if id in s.jobs then s.jobs else s.jobs[id := NewJob(j)]
    case UpdatePayload(id, payload) => SetPayload(s.jobs, id, payload)
    case RenewLease(id, lease) => Renew(s.jobs, id, lease)
    case By(p, CommitWrite) =>
      var proc := At(s, p);
      if proc.Writing? then Commit(s.jobs, proc.id, proc.w) else s.jobs
    case By(p, TryClaim) =>
      var proc := At(s, p);
      if proc.Claiming? && proc.cands != [] then Claim(s.jobs, proc.cands[0], proc.lease) else s.jobs
    case _ => s.jobs
  }

  /** INSERT OR IGNORE: the first result of a job stays. */
  function NextResults(s: State, a: Action): map<JobId, JobResult> {
    match a
    case By(p, RecordResult) =>
      var proc := At(s, p);
      if proc.Recording? && proc.id !in s.results then s.results[proc.id := proc.result]
      else s.results
    case _ => s.results
  }

  /** The continuation of a process after its guarded UPDATE hit a row or missed. */
  function AfterWrite(id: JobId, why: Why, hit: bool): Proc {
    match why
    case Operator => Idle
    case WorkerComplete(inTry) =>
      if !hit && inTry then Failing(id, RaisedConcurrentModification) else Idle
    case ReapRow(rest) => if hit then Reaping(rest) else Idle
    case DeadLetterFirst(error) => if hit then DeadLettering(id, error) else Idle
  }

  /** A planned write goes ahead; a refused one raises, which run_once's try block turns into fail(). */
  function Planned(id: JobId, plan: Result<Write, StoreError>, why: Why): Proc {
    match plan
    case Ok(w) => Writing(id, w, why)
    case Err(_) =>
      if why.WorkerComplete? && why.inTry then Failing(id, RaisedInvalidTransition) else Idle
  }

  function NextProc(s: State, a: Action): Proc
    requires a.By?
  {
    var proc := At(s, a.p);
    match a.c
    case BeginTransition(id, to, error, bump) =>
      if proc.Idle? then Planned(id, PlanTransition(s.jobs, id, to, error, bump), Operator) else proc
    case BeginFail(id, msg) =>
      if proc.Idle? then Planned(id, PlanFail(s.jobs, id, msg), Operator) else proc
    case CommitWrite =>
      if proc.Writing? then AfterWrite(proc.id, proc.why, Hits(s.jobs, proc.id, proc.w.from)) else proc
    case QueryClaim(cands, lease, worker) =>
      // A new claim, or the re-query once every candidate was contested.
      if (proc.Idle? || (proc.Claiming? && proc.cands == [] && proc.worker == worker))
         && |cands| <= 8 && forall c :: c in cands ==> Hits(s.jobs, c, Pending)
      then (if cands == [] then Idle else Claiming(cands, lease, worker))
      else proc
    case TryClaim =>
      if proc.Claiming? && proc.cands != [] then
        if !Hits(s.jobs, proc.cands[0], Pending) then proc.(cands := proc.cands[1..])
        else if proc.worker then Holding(proc.cands[0])
        else Idle
      else proc
    case CheckLedger =>
      if proc.Holding? then
        (if proc.id in s.results then Finishing(proc.id, false) else Handling(proc.id))
      else proc
    case HandlerReturns(result) => if proc.Handling? then Recording(proc.id, result) else proc
    case HandlerRaises(msg) => if proc.Handling? then Failing(proc.id, msg) else proc
    case RecordResult => if proc.Recording? then Finishing(proc.id, true) else proc
    case BeginComplete =>
      if proc.Finishing? then
        Planned(proc.id, PlanTransition(s.jobs, proc.id, Succeeded, None, false), WorkerComplete(proc.inTry))
      else proc
    case BeginWorkerFail =>
      if proc.Failing? then Planned(proc.id, PlanFail(s.jobs, proc.id, proc.error), Operator) else proc
    case QueryReap(ids, now) =>
      if proc.Idle? && Distinct(ids) && forall i :: i in ids ==> i in s.jobs && Expired(s.jobs[i], now)
      then Reaping(ids) else proc
    case BeginReapRow =>
      if proc.Reaping? then
        if proc.ids == [] then Idle
        else Planned(proc.ids[0], PlanFail(s.jobs, proc.ids[0], LeaseExpired), ReapRow(proc.ids[1..]))
      else proc
    case BeginDeadLetterNow(id, error) =>
      if proc.Idle? then
        Planned(id, PlanTransition(s.jobs, id, Failed, error, true), DeadLetterFirst(error))
      else proc
    case BeginSecond =>
      if proc.DeadLettering? then
        Planned(proc.id, PlanTransition(s.jobs, proc.id, DeadLetter, proc.reason, false), Operator)
      else proc
    case Crash => Idle
  }

  function NextProcs(s: State, a: Action): map<Pid, Proc> {
    if a.By? then s.procs[a.p := NextProc(s, a)] else s.procs
  }

  /** One step. An action that its process is not ready for changes nothing. */
  function Do(s: State, a: Action): State {
    State(NextJobs(s, a), NextResults(s, a), NextProcs(s, a))
  }

  function Run(s: State, acts: seq<Action>): State
    decreases |acts|
  {
    if acts == [] then s else Run(Do(s, acts[0]), acts[1..])
  }

  lemma {:induction false} RunSplit(s: State, acts: seq<Action>, k: nat)
    requires k <= |acts|
    ensures Run(s, acts) == Run(Run(s, acts[..k]), acts[k..])
    decreases |acts|
  {
    if k > 0 {
      RunSplit(Do(s, acts[0]), acts[1..], k - 1);
      assert acts[1..][..k - 1] == acts[..k][1..];
      assert acts[1..][k - 1..] == acts[k..];
    }
  }

  lemma RunSnoc(s: State, acts: seq<Action>)
    requires acts != []
    ensures Run(s, acts) == Do(Run(s, acts[..|acts| - 1]), acts[|acts| - 1])
  {
    var n := |acts| - 1;
    RunSplit(s, acts, n);
    assert acts[n..] == [acts[n]];
    assert Run(Run(s, acts[..n]), [acts[n]]) == Run(Do(Run(s, acts[..n]), acts[n]), []);
  }

  /** A step changes the program of its own process only. */
  lemma NextAt(s: State, a: Action)
    ensures forall q :: At(Do(s, a), q) == if a.By? && q == a.p then NextProc(s, a) else At(s, q)
  {
  }

  // ------------------------------------------------------------ legality of every commit

  /** Every write that is waiting to be committed was validated against the graph. */
  ghost predicate WritesLegal(s: State) {
    forall p :: At(s, p).Writing? ==> LegalWrite(At(s, p).w)
  }

  ghost predicate LegalChange(t: Table, t': Table) {
    && t.Keys <= t'.Keys
    && forall id :: id in t ==> t[id].state == t'[id].state || StoredMove(t[id].state, t'[id].state)
  }

  lemma PlannedWriteLegal(s: State, a: Action)
    requires a.By?
    requires WritesLegal(s)
    ensures NextProc(s, a).Writing? ==> LegalWrite(NextProc(s, a).w)
  {
    var proc := At(s, a.p);
    match a.c
    case BeginTransition(id, to, error, bump) => PlansAreLegal(s.jobs, id, to, error, bump, LeaseExpired);
    case BeginFail(id, msg) => PlansAreLegal(s.jobs, id, Failed, None, false, msg);
    case BeginComplete =>
      if proc.Finishing? { PlansAreLegal(s.jobs, proc.id, Succeeded, None, false, LeaseExpired); }
    case BeginWorkerFail =>
      if proc.Failing? { PlansAreLegal(s.jobs, proc.id, Failed, None, false, proc.error); }
    case BeginReapRow =>
      if proc.Reaping? && proc.ids != [] {
        PlansAreLegal(s.jobs, proc.ids[0], Failed, None, false, LeaseExpired);
      }
    case BeginDeadLetterNow(id, error) => PlansAreLegal(s.jobs, id, Failed, error, true, LeaseExpired);
    case BeginSecond =>
      if proc.DeadLettering? { PlansAreLegal(s.jobs, proc.id, DeadLetter, proc.reason, false, LeaseExpired); }
    case _ =>
  }

  lemma StepLegal(s: State, a: Action)
    requires WritesLegal(s)
    ensures WritesLegal(Do(s, a))
    ensures LegalChange(s.jobs, Do(s, a).jobs)
  {
    NextAt(s, a);
    if a.By? {
      PlannedWriteLegal(s, a);
    }
  }

  lemma {:induction false} RunKeepsWritesLegal(s: State, acts: seq<Action>)
    requires WritesLegal(s)
    ensures WritesLegal(Run(s, acts))
    decreases |acts|
  {
    if acts != [] {
      StepLegal(s, acts[0]);
      RunKeepsWritesLegal(Do(s, acts[0]), acts[1..]);
    }
  }

  /** Whatever the interleaving, staleness and crashes: each step moves each job along the graph. */
  lemma EveryStepFollowsGraph(s: State, acts: seq<Action>, k: nat)
    requires WritesLegal(s)
    requires k < |acts|
    ensures LegalChange(Run(s, acts[..k]).jobs, Run(s, acts[..k + 1]).jobs)
  {
    RunKeepsWritesLegal(s, acts[..k]);
    RunSnoc(s, acts[..k + 1]);
    assert acts[..k + 1][..k] == acts[..k];
    StepLegal(Run(s, acts[..k]), acts[k]);
  }

  lemma StepFreezesTerminal(s: State, a: Action, id: JobId)
    requires WritesLegal(s)
    requires id in s.jobs && s.jobs[id].state in TERMINAL
    ensures id in Do(s, a).jobs
    ensures Do(s, a).jobs[id] == s.jobs[id].(payload := Do(s, a).jobs[id].payload)
  {
    if a.By? && a.c.CommitWrite? && At(s, a.p).Writing? && At(s, a.p).id == id && Hits(s.jobs, id, At(s, a.p).w.from) {
      StoredMoveFollowsGraph(s.jobs[id].state, At(s, a.p).w.to);
      assert false;
    }
  }

  /** A finished job is never resurrected: after any run its row is the same but for the payload. */
  lemma {:induction false} TerminalIsForever(s: State, acts: seq<Action>, id: JobId)
    requires WritesLegal(s)
    requires id in s.jobs && s.jobs[id].state in TERMINAL
    ensures id in Run(s, acts).jobs
    ensures Run(s, acts).jobs[id] == s.jobs[id].(payload := Run(s, acts).jobs[id].payload)
    decreases |acts|
  {
    if acts != [] {
      StepFreezesTerminal(s, acts[0], id);
      StepLegal(s, acts[0]);
      TerminalIsForever(Do(s, acts[0]), acts[1..], id);
    }
  }

  // ------------------------------------------------------------ exclusive claiming

  /** This step is a claim of the job whose UPDATE reported one row. */
  predicate WinsClaim(s: State, a: Action, id: JobId) {
    && a.By? && a.c.TryClaim?
    && At(s, a.p).Claiming?
    && At(s, a.p).cands != []
    && At(s, a.p).cands[0] == id
    && Hits(s.jobs, id, Pending)
  }

  /** This step is a committed write of the job with this from-state. */
  predicate Commits(s: State, a: Action, id: JobId) {
    && a.By? && a.c.CommitWrite?
    && At(s, a.p).Writing?
    && At(s, a.p).id == id
    && Hits(s.jobs, id, At(s, a.p).w.from)
  }

  predicate StartsByHand(s: State, a: Action, id: JobId) {
    Commits(s, a, id) && At(s, a.p).w.to == Running
  }

  predicate Releases(s: State, a: Action, id: JobId) {
    Commits(s, a, id) && At(s, a.p).w.from == Running
  }

  /** Claims won plus transitions into RUNNING, less the committed exits, over a run. */
  function Balance(s: State, acts: seq<Action>, id: JobId): int
    decreases |acts|
  {
    if acts == [] then 0
    else
      One(WinsClaim(s, acts[0], id)) + One(StartsByHand(s, acts[0], id)) - One(Releases(s, acts[0], id))
      + Balance(Do(s, acts[0]), acts[1..], id)
  }

  lemma StepBalance(s: State, a: Action, id: JobId)
    requires WritesLegal(s)
    ensures One(Hits(Do(s, a).jobs, id, Running)) - One(Hits(s.jobs, id, Running))
         == One(WinsClaim(s, a, id)) + One(StartsByHand(s, a, id)) - One(Releases(s, a, id))
  {
    if Commits(s, a, id) {
      assert LegalWrite(At(s, a.p).w);
    }
  }

  /** However stale the candidate lists: wins and starts exceed exits by one exactly while RUNNING. */
  lemma {:induction false} ClaimsAreExclusive(s: State, acts: seq<Action>, id: JobId)
    requires WritesLegal(s)
    ensures Balance(s, acts, id)
         == One(Hits(Run(s, acts).jobs, id, Running)) - One(Hits(s.jobs, id, Running))
    decreases |acts|
  {
    if acts != [] {
      StepBalance(s, acts[0], id);
      StepLegal(s, acts[0]);
      ClaimsAreExclusive(Do(s, acts[0]), acts[1..], id);
    }
  }

  lemma {:induction false} NoReleaseKeepsRunning(s: State, acts: seq<Action>, id: JobId)
    requires WritesLegal(s)
    requires Hits(s.jobs, id, Running)
    requires forall k :: 0 <= k < |acts| ==> !Releases(Run(s, acts[..k]), acts[k], id)
    ensures Hits(Run(s, acts).jobs, id, Running)
    decreases |acts|
  {
    if acts != [] {
      StepBalance(s, acts[0], id);
      assert acts[..0] == [];
      StepLegal(s, acts[0]);
      forall k | 0 <= k < |acts| - 1
        ensures !Releases(Run(Do(s, acts[0]), acts[1..][..k]), acts[1..][k], id)
      {
        assert acts[..k + 1][1..] == acts[1..][..k];
        assert acts[..k + 1][0] == acts[0];
      }
      NoReleaseKeepsRunning(Do(s, acts[0]), acts[1..], id);
    }
  }

  lemma WinStarts(s: State, a: Action, id: JobId)
    requires WinsClaim(s, a, id)
    ensures Hits(Do(s, a).jobs, id, Running)
  {
  }

  /** Two claims of one job are never both won in the same PENDING episode. */
  lemma TwoWinsNeedAReleaseBetween(s: State, acts: seq<Action>, id: JobId, i: nat, j: nat)
    requires WritesLegal(s)
    requires i < j < |acts|
    requires WinsClaim(Run(s, acts[..i]), acts[i], id)
    requires WinsClaim(Run(s, acts[..j]), acts[j], id)
    ensures exists k :: i < k < j && Releases(Run(s, acts[..k]), acts[k], id)
  {
    hide Do, Releases, WritesLegal;
    if forall k :: i < k < j ==> !Releases(Run(s, acts[..k]), acts[k], id) {
      var s1, mid := Run(s, acts[..i + 1]), acts[i + 1..j];
      RunKeepsWritesLegal(s, acts[..i + 1]);
      WinStarts(Run(s, acts[..i]), acts[i], id);
      RunOneMore(s, acts, i);
      forall k | 0 <= k < |mid| ensures !Releases(Run(s1, mid[..k]), mid[k], id) {
        RunMiddle(s, acts, i + 1, j, k);
        assert mid[k] == acts[i + 1 + k];
      }
      RunMiddle(s, acts, i + 1, j, |mid|);
      assert mid[..|mid|] == mid;
      NoReleaseKeepsRunning(s1, mid, id);
      assert false;
    }
  }

  lemma RunOneMore(s: State, acts: seq<Action>, i: nat)
    requires i < |acts|
    ensures Run(s, acts[..i + 1]) == Do(Run(s, acts[..i]), acts[i])
  {
    RunSnoc(s, acts[..i + 1]);
    assert acts[..i + 1][..i] == acts[..i];
  }

  /** A run up to some point within a stretch of it is the run up to the stretch and then into it. */
  lemma RunMiddle(s: State, acts: seq<Action>, i: nat, j: nat, k: nat)
    requires i <= j <= |acts| && k <= j - i
    ensures Run(s, acts[..i + k]) == Run(Run(s, acts[..i]), acts[i..j][..k])
  {
    RunSplit(s, acts[..i + k], i);
    assert acts[..i + k][..i] == acts[..i];
    assert acts[..i + k][i..] == acts[i..j][..k];
  }

  // ------------------------------------------------------------ leases

  ghost predicate LeaseOnlyWhileRunning(t: Table) {
    forall id :: id in t && t[id].lease.Some? ==> t[id].state == Running
  }

  ghost predicate RunningHasLease(t: Table) {
    forall id :: id in t && t[id].state == Running ==> t[id].lease.Some?
  }

  /** No pending write, and no call of transition(), sets a job RUNNING: only claims start jobs. */
  ghost predicate NoStartWaiting(s: State) {
    forall p :: At(s, p).Writing? ==> At(s, p).w.to != Running
  }

  ghost predicate StartsOnlyByClaim(acts: seq<Action>) {
    forall k :: 0 <= k < |acts| && acts[k].By? && acts[k].c.BeginTransition? ==> acts[k].c.to != Running
  }

  lemma StepKeepsNoStartWaiting(s: State, a: Action)
    requires NoStartWaiting(s)
    requires a.By? && a.c.BeginTransition? ==> a.c.to != Running
    ensures NoStartWaiting(Do(s, a))
  {
    NextAt(s, a);
    assert a.By? && NextProc(s, a).Writing? ==> NextProc(s, a).w.to != Running;
  }

  /** A lease is held only by a RUNNING job, in every run. */
  lemma {:induction false} LeaseImpliesRunning(s: State, acts: seq<Action>)
    requires LeaseOnlyWhileRunning(s.jobs)
    ensures LeaseOnlyWhileRunning(Run(s, acts).jobs)
    decreases |acts|
  {
    if acts != [] {
      assert LeaseOnlyWhileRunning(Do(s, acts[0]).jobs);
      LeaseImpliesRunning(Do(s, acts[0]), acts[1..]);
    }
  }

  /** If jobs are started only by claiming, every RUNNING job has a lease, in every run. */
  lemma {:induction false} ClaimedRunsAlwaysLeased(s: State, acts: seq<Action>)
    requires RunningHasLease(s.jobs) && NoStartWaiting(s) && StartsOnlyByClaim(acts)
    ensures RunningHasLease(Run(s, acts).jobs)
    decreases |acts|
  {
    if acts != [] {
      StepKeepsNoStartWaiting(s, acts[0]);
      assert RunningHasLease(Do(s, acts[0]).jobs);
      ClaimedRunsAlwaysLeased(Do(s, acts[0]), acts[1..]);
    }
  }

  // ------------------------------------------------------------ the idempotency ledger

  /** A recorded result is never overwritten or lost. */
  lemma {:induction false} FirstResultStays(s: State, acts: seq<Action>, id: JobId)
    requires id in s.results
    ensures id in Run(s, acts).results
    ensures Run(s, acts).results[id] == s.results[id]
    decreases |acts|
  {
    if acts != [] {
      FirstResultStays(Do(s, acts[0]), acts[1..], id);
    }
  }

  ghost predicate NobodyHandling(s: State, id: JobId) {
    forall p :: At(s, p) != Handling(id)
  }

  /** Once a job has a result and no handler is still at it, its handler never runs again. */
  lemma {:induction false} HandlerNeverRunsAgain(s: State, acts: seq<Action>, id: JobId)
    requires id in s.results
    requires NobodyHandling(s, id)
    ensures NobodyHandling(Run(s, acts), id)
    decreases |acts|
  {
    if acts != [] {
      var a := acts[0];
      NextAt(s, a);
      assert a.By? ==> NextProc(s, a) != Handling(id);
      HandlerNeverRunsAgain(Do(s, a), acts[1..], id);
    }
  }

  /** A worker that is completing a job, and every job already SUCCEEDED, has its result recorded. */
  ghost predicate SuccessRecorded(s: State) {
    && (forall id :: id in s.jobs && s.jobs[id].state == Succeeded ==> id in s.results)
    && (forall p :: At(s, p).Finishing? ==> At(s, p).id in s.results)
    && (forall p :: At(s, p).Writing? && At(s, p).w.to == Succeeded ==> At(s, p).id in s.results)
  }

  /** Nobody but workers calls complete(). */
  ghost predicate OnlyWorkersComplete(acts: seq<Action>) {
    forall k :: 0 <= k < |acts| && acts[k].By? && acts[k].c.BeginTransition? ==> acts[k].c.to != Succeeded
  }

  lemma StepKeepsSuccessRecorded(s: State, a: Action)
    requires SuccessRecorded(s)
    requires a.By? && a.c.BeginTransition? ==> a.c.to != Succeeded
    ensures SuccessRecorded(Do(s, a))
  {
    var s' := Do(s, a);
    assert s.results.Keys <= s'.results.Keys;
    NextAt(s, a);
    if a.By? {
      var proc := NextProc(s, a);
      assert proc.Finishing? ==> proc.id in s'.results;
      assert proc.Writing? && proc.w.to == Succeeded ==> proc.id in s'.results;
    }
  }

  /** Crashes and redelivery included: what workers drive to SUCCEEDED has a recorded result. */
  lemma {:induction false} SucceededHasResult(s: State, acts: seq<Action>)
    requires SuccessRecorded(s)
    requires OnlyWorkersComplete(acts)
    ensures SuccessRecorded(Run(s, acts))
    decreases |acts|
  {
    if acts != [] {
      StepKeepsSuccessRecorded(s, acts[0]);
      SucceededHasResult(Do(s, acts[0]), acts[1..]);
    }
  }
}
