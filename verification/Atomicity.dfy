/**
 The two granularities compared: when nothing comes in between, the steps of a process
 are the store's atomic operation; and when something does, exactly when they still are.
 */
module Atomicity {
  import opened Basics
  import opened Jobs
  import opened JobTable
  import opened Protocol
  import H = Histories
  import W = Workers

  predicate LeavesAlone(acts: seq<Action>, p: Pid) {
    forall k :: 0 <= k < |acts| ==> !(acts[k].By? && acts[k].p == p)
  }

  /** What others do neither moves a process nor removes a job nor changes its bound. */
  lemma {:induction false} OthersRun(s: State, acts: seq<Action>, p: Pid, id: JobId)
    requires LeavesAlone(acts, p) && id in s.jobs
    ensures At(Run(s, acts), p) == At(s, p)
    ensures id in Run(s, acts).jobs && Run(s, acts).jobs[id].maxAttempts == s.jobs[id].maxAttempts
    decreases |acts|
  {
    if acts != [] {
      NextAt(s, acts[0]);
      OthersRun(Do(s, acts[0]), acts[1..], p, id);
    }
  }

  /**
   fail() with anything happening between its read and its UPDATE: the outcome is that of
   an atomic fail() at the moment of the UPDATE exactly if the job is no longer RUNNING
   or its attempts are what was read.
   */
  lemma StaleFailIsFreshIff(s: State, p: Pid, id: JobId, msg: JobError, acts: seq<Action>)
    requires At(s, p) == Idle && Hits(s.jobs, id, Running) && LeavesAlone(acts, p)
    ensures var s1 := Run(Do(s, By(p, BeginFail(id, msg))), acts);
            && id in s1.jobs
            && (Do(s1, By(p, CommitWrite)).jobs == H.OrElse(Fail(s1.jobs, id, msg), s1.jobs) <==>
                  s1.jobs[id].state != Running || s1.jobs[id].attempts == s.jobs[id].attempts)
  {
    FailPathLegalIffRunning(Running, Exhausted(s.jobs[id]));
    var s0 := Do(s, By(p, BeginFail(id, msg)));
    OthersRun(s0, acts, p, id);
    var s1 := Run(s0, acts);
    FailMeaning(s1.jobs, id, msg);
    var w := At(s1, p).w;
    var stale := Do(s1, By(p, CommitWrite)).jobs;
    assert w.from == Running && w.attempts == s.jobs[id].attempts + 1;
    if Hits(s1.jobs, id, Running) {
      assert stale[id].attempts == s.jobs[id].attempts + 1;
      assert Fail(s1.jobs, id, msg).value[id].attempts == s1.jobs[id].attempts + 1;
    }
  }

  /**
   transition() likewise: exactly if the job is in the state that was read, with the
   attempts that were read, or in another state that the move is refused from.
   */
  lemma StaleTransitionIsFreshIff(s: State, p: Pid, id: JobId, to: JobState, error: Option<JobError>, bump: bool,
                                  acts: seq<Action>)
    requires At(s, p) == Idle && LeavesAlone(acts, p)
    requires id in s.jobs && CanTransition(s.jobs[id].state, to)
    ensures var s1 := Run(Do(s, By(p, BeginTransition(id, to, error, bump))), acts);
            && id in s1.jobs
            && (Do(s1, By(p, CommitWrite)).jobs == H.OrElse(Transition(s1.jobs, id, to, error, bump), s1.jobs) <==>
                  if s1.jobs[id].state == s.jobs[id].state then s1.jobs[id].attempts == s.jobs[id].attempts
                  else !CanTransition(s1.jobs[id].state, to))
  {
    var s0 := Do(s, By(p, BeginTransition(id, to, error, bump)));
    OthersRun(s0, acts, p, id);
    var s1 := Run(s0, acts);
    var inc := if bump then 1 else 0;
    assert At(s1, p) == Writing(id, Write(s.jobs[id].state, to, s.jobs[id].attempts + inc, error), Operator);
    var stale := Do(s1, By(p, CommitWrite)).jobs;
    var atomic := H.OrElse(Transition(s1.jobs, id, to, error, bump), s1.jobs);
    if CanTransition(s1.jobs[id].state, to) {
      assert atomic[id].state == to && to != s1.jobs[id].state;
      assert atomic[id].attempts == s1.jobs[id].attempts + inc;
    }
  }

  // ------------------------------------------------------------ a reap that nothing interrupts

  function ReapActions(p: Pid, n: nat): seq<Action> {
    if n == 0 then [] else [By(p, BeginReapRow), By(p, CommitWrite)] + ReapActions(p, n - 1)
  }

  predicate ReapReady(t: Table, ids: seq<JobId>, now: Time) {
    Distinct(ids) && forall i :: 0 <= i < |ids| ==> ids[i] in t && Expired(t[ids[i]], now)
  }

  function ReapedRows(t: Table, ids: seq<JobId>): Table {
    map id | id in t :: if id in ids then FailedJob(t[id], LeaseExpired) else t[id]
  }

  lemma OneReapRow(s: State, p: Pid, ids: seq<JobId>, now: Time)
    requires At(s, p) == Reaping(ids) && ids != [] && ReapReady(s.jobs, ids, now)
    ensures var s' := Do(Do(s, By(p, BeginReapRow)), By(p, CommitWrite));
            && At(s', p) == Reaping(ids[1..])
            && s'.jobs == s.jobs[ids[0] := FailedJob(s.jobs[ids[0]], LeaseExpired)]
  {
    FailPathLegalIffRunning(Running, Exhausted(s.jobs[ids[0]]));
  }

  lemma {:induction false} ReapRows(s: State, p: Pid, ids: seq<JobId>, now: Time)
    requires At(s, p) == Reaping(ids) && ReapReady(s.jobs, ids, now)
    ensures Run(s, ReapActions(p, |ids|)).jobs == ReapedRows(s.jobs, ids)
    decreases |ids|
  {
    if ids != [] {
      var acts := ReapActions(p, |ids|);
      var s1 := Do(s, By(p, BeginReapRow));
      var s' := Do(s1, By(p, CommitWrite));
      OneReapRow(s, p, ids, now);
      hide Do, FailedJob, Expired, ReapedRows;
      assert acts[1..][1..] == ReapActions(p, |ids| - 1) && acts[1..][0] == By(p, CommitWrite);
      assert Run(s, acts) == Run(s1, acts[1..]) == Run(s', ReapActions(p, |ids| - 1));
      ReapRows(s', p, ids[1..], now);
      RestReaped(s.jobs, ids);
    }
  }

  lemma RestReaped(t: Table, ids: seq<JobId>)
    requires ids != [] && ids[0] in t && Distinct(ids)
    ensures ReapedRows(t[ids[0] := FailedJob(t[ids[0]], LeaseExpired)], ids[1..]) == ReapedRows(t, ids)
  {
    hide FailedJob;
    assert ids == [ids[0]] + ids[1..];
  }

  /** The reaper's query and its row-by-row fail() calls, uninterrupted, are the atomic reap. */
  lemma UninterruptedReapIsAtomic(s: State, p: Pid, ids: seq<JobId>, now: Time)
    requires At(s, p) == Idle && ReapReady(s.jobs, ids, now)
    requires forall id :: id in s.jobs && Expired(s.jobs[id], now) ==> id in ids
    ensures Run(s, [By(p, QueryReap(ids, now))] + ReapActions(p, |ids|)).jobs == Reap(s.jobs, now)
  {
    var acts := [By(p, QueryReap(ids, now))] + ReapActions(p, |ids|);
    var s1 := Do(s, acts[0]);
    assert forall i :: i in ids ==> i in s.jobs && Expired(s.jobs[i], now);
    assert At(s1, p) == Reaping(ids) && s1.jobs == s.jobs;
    assert acts[1..] == ReapActions(p, |ids|);
    ReapRows(s1, p, ids, now);
  }

  // ------------------------------------------------------------ a run_once that nothing interrupts

  function CompleteActions(p: Pid): seq<Action> {
    [By(p, BeginComplete)] + [By(p, CommitWrite)]
  }

  function HandlerActions(p: Pid, outcome: W.Outcome): seq<Action> {
    match outcome
    case Returns(result) => [By(p, HandlerReturns(result))] + ([By(p, RecordResult)] + CompleteActions(p))
    case Raises(error) => [By(p, HandlerRaises(error))] + ([By(p, BeginWorkerFail)] + [By(p, CommitWrite)])
  }

  /** The steps of run_once on a job that it claims, as the ledger and the handler decide. */
  function RunOnceActions(p: Pid, id: JobId, lease: Time, recorded: bool, outcome: W.Outcome): seq<Action> {
    [By(p, QueryClaim([id], lease, true))] + ([By(p, TryClaim)] + ([By(p, CheckLedger)]
    + if recorded then CompleteActions(p) else HandlerActions(p, outcome)))
  }

  lemma Step(s: State, a: Action, rest: seq<Action>)
    ensures Run(s, [a] + rest) == Run(Do(s, a), rest)
  {
    assert ([a] + rest)[1..] == rest;
  }

  lemma TwoSteps(s: State, a: Action, b: Action)
    ensures Run(s, [a] + [b]) == Do(Do(s, a), b)
  {
    hide Do;
    Step(s, a, [b]);
    assert [b] + [] == [b];
    Step(Do(s, a), b, []);
  }

  /** What a run of run_once's steps leaves: the process done, one row and perhaps the ledger changed. */
  ghost predicate Leaves(s: State, s': State, p: Pid, id: JobId, j: Job, results: map<JobId, JobResult>) {
    At(s', p) == Idle && s'.jobs == s.jobs[id := j] && s'.results == results
  }

  /** A worker that nobody interferes with does to the job and the ledger what the atomic run_once does. */
  lemma UninterruptedRunOnceIsAtomic(s: State, p: Pid, id: JobId, lease: Time, outcome: W.Outcome)
    requires At(s, p) == Idle && Hits(s.jobs, id, Pending)
    ensures var recorded := id in s.results;
            var results := if !recorded && outcome.Returns? then s.results[id := outcome.result] else s.results;
            Leaves(s, Run(s, RunOnceActions(p, id, lease, recorded, outcome)), p, id,
                   W.Finished(s.jobs[id], recorded, true, outcome), results)
  {
    hide Do, Run, HandlerActions, CompleteActions, W.Finished;
    var recorded := id in s.results;
    var tail := if recorded then CompleteActions(p) else HandlerActions(p, outcome);
    var a, b, c := By(p, QueryClaim([id], lease, true)), By(p, TryClaim), By(p, CheckLedger);
    var s3 := Do(Do(Do(s, a), b), c);
    Step(s, a, [b] + ([c] + tail));
    Step(Do(s, a), b, [c] + tail);
    Step(Do(Do(s, a), b), c, tail);
    ClaimAndCheck(s, p, id, lease);
    var done := W.Finished(s.jobs[id], recorded, true, outcome);
    if recorded {
      CompleteSteps(s3, p, id, false);
    } else {
      HandledSteps(s3, p, id, outcome);
    }
    FinishedOfRunning(s.jobs[id], lease, recorded, outcome);
    assert s.jobs[id := s3.jobs[id]][id := done] == s.jobs[id := done];
  }

  lemma FinishedOfRunning(j: Job, lease: Time, recorded: bool, outcome: W.Outcome)
    ensures W.Finished(j.(state := Running, lease := Some(lease)), recorded, true, outcome)
         == W.Finished(j, recorded, true, outcome)
    ensures W.Finished(j, true, true, outcome) == Completed(j)
  {
  }

  lemma ClaimAndCheck(s: State, p: Pid, id: JobId, lease: Time)
    requires At(s, p) == Idle && Hits(s.jobs, id, Pending)
    ensures var s3 := Do(Do(Do(s, By(p, QueryClaim([id], lease, true))), By(p, TryClaim)), By(p, CheckLedger));
            && s3.jobs == s.jobs[id := s.jobs[id].(state := Running, lease := Some(lease))]
            && s3.results == s.results
            && At(s3, p) == if id in s.results then Finishing(id, false) else Handling(id)
  {
    var s1 := Do(s, By(p, QueryClaim([id], lease, true)));
    assert At(s1, p) == Claiming([id], lease, true);
    assert At(Do(s1, By(p, TryClaim)), p) == Holding(id);
  }

  lemma HandledSteps(s: State, p: Pid, id: JobId, outcome: W.Outcome)
    requires At(s, p) == Handling(id) && Hits(s.jobs, id, Running) && id !in s.results
    ensures Leaves(s, Run(s, HandlerActions(p, outcome)), p, id, W.Finished(s.jobs[id], false, true, outcome),
                   if outcome.Returns? then s.results[id := outcome.result] else s.results)
  {
    hide Do, Run, CompleteActions;
    match outcome
    case Returns(result) =>
      var a, b := By(p, HandlerReturns(result)), By(p, RecordResult);
      Step(s, a, [b] + CompleteActions(p));
      Step(Do(s, a), b, CompleteActions(p));
      Returned(s, p, id, result);
      CompleteSteps(Do(Do(s, a), b), p, id, true);
    case Raises(error) =>
      var a := By(p, HandlerRaises(error));
      Step(s, a, [By(p, BeginWorkerFail)] + [By(p, CommitWrite)]);
      Raised(s, p, id, error);
      FailSteps(Do(s, a), p, id, error);
  }

  lemma Returned(s: State, p: Pid, id: JobId, result: JobResult)
    requires At(s, p) == Handling(id) && id !in s.results
    ensures var s' := Do(Do(s, By(p, HandlerReturns(result))), By(p, RecordResult));
            At(s', p) == Finishing(id, true) && s'.jobs == s.jobs && s'.results == s.results[id := result]
  {
  }

  lemma Raised(s: State, p: Pid, id: JobId, error: JobError)
    requires At(s, p) == Handling(id)
    ensures var s' := Do(s, By(p, HandlerRaises(error)));
            At(s', p) == Failing(id, error) && s'.jobs == s.jobs && s'.results == s.results
  {
  }

  function Completed(j: Job): Job {
    j.(state := Succeeded, error := None, lease := None)
  }

  lemma CompleteSteps(s: State, p: Pid, id: JobId, inTry: bool)
    requires At(s, p) == Finishing(id, inTry) && Hits(s.jobs, id, Running)
    ensures Leaves(s, Run(s, CompleteActions(p)), p, id, Completed(s.jobs[id]), s.results)
  {
    TwoSteps(s, By(p, BeginComplete), By(p, CommitWrite));
    hide Run;
    var w := Write(Running, Succeeded, s.jobs[id].attempts, None);
    assert At(Do(s, By(p, BeginComplete)), p) == Writing(id, w, WorkerComplete(inTry));
  }

  lemma FailSteps(s: State, p: Pid, id: JobId, error: JobError)
    requires At(s, p) == Failing(id, error) && Hits(s.jobs, id, Running)
    ensures Leaves(s, Run(s, [By(p, BeginWorkerFail)] + [By(p, CommitWrite)]), p, id,
                   FailedJob(s.jobs[id], error), s.results)
  {
    TwoSteps(s, By(p, BeginWorkerFail), By(p, CommitWrite));
    FailPlanned(s, p, id, error);
    FailCommitted(Do(s, By(p, BeginWorkerFail)), p, id, error);
    hide Run, Do, FailedJob, FailWrite;
  }

  function FailWrite(j: Job, error: JobError): Write {
    Write(Running, if Exhausted(j) then DeadLetter else Pending, j.attempts + 1, Some(error))
  }

  lemma FailPlanned(s: State, p: Pid, id: JobId, error: JobError)
    requires At(s, p) == Failing(id, error) && Hits(s.jobs, id, Running)
    ensures var s1 := Do(s, By(p, BeginWorkerFail));
            && At(s1, p) == Writing(id, FailWrite(s.jobs[id], error), Operator)
            && s1.jobs == s.jobs && s1.results == s.results
  {
    FailPathLegalIffRunning(Running, Exhausted(s.jobs[id]));
  }

  lemma FailCommitted(s: State, p: Pid, id: JobId, error: JobError)
    requires Hits(s.jobs, id, Running) && At(s, p) == Writing(id, FailWrite(s.jobs[id], error), Operator)
    ensures Leaves(s, Do(s, By(p, CommitWrite)), p, id, FailedJob(s.jobs[id], error), s.results)
  {
  }

  // ------------------------------------------------------------ what the programs do when they lose a race

  /**
   claim(): a query finds up to eight PENDING candidates; the process tries them in order, passes
   over those that others took, and queries again once all are gone. It gives up only on an empty
   query.
   */
  lemma ClaimRetries(s: State, p: Pid, cands: seq<JobId>, lease: Time, worker: bool, before: Time)
    requires |cands| <= 8 && forall c :: c in cands ==> Hits(s.jobs, c, Pending)
    ensures At(s, p) == Idle || At(s, p) == Claiming([], before, worker) ==>
              At(Do(s, By(p, QueryClaim(cands, lease, worker))), p)
              == (if cands == [] then Idle else Claiming(cands, lease, worker))
    ensures cands != [] && At(s, p) == Claiming(cands, lease, worker) ==>
              var s' := Do(s, By(p, TryClaim));
              s'.jobs[cands[0]].state == Running && s'.jobs[cands[0]].lease == Some(lease)
              && At(s', p) == (if worker then Holding(cands[0]) else Idle)
  {
    NextAt(s, By(p, TryClaim));
    assert cands != [] ==> cands[0] in cands;
  }

  /** A contested candidate is passed over, and nothing is changed. */
  lemma ContestedIsSkipped(s: State, p: Pid, cands: seq<JobId>, lease: Time, worker: bool)
    requires cands != [] && At(s, p) == Claiming(cands, lease, worker) && !Hits(s.jobs, cands[0], Pending)
    ensures var s' := Do(s, By(p, TryClaim)); s'.jobs == s.jobs && At(s', p) == Claiming(cands[1..], lease, worker)
  {
  }

  /** A query offers neither more than eight rows nor rows that are not PENDING, and interrupts no other program. */
  lemma QueryOffersPendingOnly(s: State, p: Pid, cands: seq<JobId>, lease: Time, worker: bool)
    requires || |cands| > 8 || (exists c :: c in cands && !Hits(s.jobs, c, Pending))
             || !(At(s, p) == Idle || (At(s, p).Claiming? && At(s, p).cands == [] && At(s, p).worker == worker))
    ensures var s' := Do(s, By(p, QueryClaim(cands, lease, worker))); s'.jobs == s.jobs && At(s', p) == At(s, p)
  {
  }

  /**
   run_once's except branch: a worker whose complete() lost its race, or was refused, calls fail().
   If by then somebody else runs the job again, that claim is failed with this worker's error.
   */
  lemma LateWorkerFailsAnothersClaim(s: State, p: Pid, id: JobId, w: Write, acts: seq<Action>)
    requires At(s, p) == Writing(id, w, WorkerComplete(true)) && id in s.jobs && s.jobs[id].state != w.from
    requires LeavesAlone(acts, p)
    requires var s1 := Run(Do(s, By(p, CommitWrite)), acts); Hits(s1.jobs, id, Running)
    ensures var s1 := Run(Do(s, By(p, CommitWrite)), acts);
            var s2 := Do(Do(s1, By(p, BeginWorkerFail)), By(p, CommitWrite));
            s2.jobs == s1.jobs[id := FailedJob(s1.jobs[id], RaisedConcurrentModification)] && At(s2, p) == Idle
  {
    var s0 := Do(s, By(p, CommitWrite));
    assert At(s0, p) == Failing(id, RaisedConcurrentModification) && s0.jobs == s.jobs;
    OthersRun(s0, acts, p, id);
    var s1 := Run(s0, acts);
    hide Run, Do;
    FailTwice(s1, p, id, RaisedConcurrentModification);
  }

  lemma FailTwice(s: State, p: Pid, id: JobId, error: JobError)
    requires At(s, p) == Failing(id, error) && Hits(s.jobs, id, Running)
    ensures var s2 := Do(Do(s, By(p, BeginWorkerFail)), By(p, CommitWrite));
            s2.jobs == s.jobs[id := FailedJob(s.jobs[id], error)] && At(s2, p) == Idle
  {
    FailSteps(s, p, id, error);
    TwoSteps(s, By(p, BeginWorkerFail), By(p, CommitWrite));
    hide Run, Do, FailedJob;
  }

  /** A completion that is refused makes the worker fail() too, unless it was the early one for a recorded result. */
  lemma RefusedCompletion(s: State, p: Pid, id: JobId, inTry: bool)
    requires At(s, p) == Finishing(id, inTry) && !Hits(s.jobs, id, Running)
    ensures var s' := Do(s, By(p, BeginComplete));
            s'.jobs == s.jobs && At(s', p) == (if inTry then Failing(id, RaisedInvalidTransition) else Idle)
  {
    TransitionSucceedsExactly(s.jobs, id, Succeeded, None, false);
  }

  /** A reaper with nothing left on its list is done, and one whose row is gone gives up. */
  lemma ReaperEnds(s: State, p: Pid, ids: seq<JobId>)
    requires At(s, p) == Reaping(ids) && (ids == [] || !Hits(s.jobs, ids[0], Running))
    ensures var s' := Do(s, By(p, BeginReapRow)); s'.jobs == s.jobs && At(s', p) == Idle
  {
    if ids != [] && ids[0] in s.jobs {
      FailPathLegalIffRunning(s.jobs[ids[0]].state, Exhausted(s.jobs[ids[0]]));
    }
  }
}
