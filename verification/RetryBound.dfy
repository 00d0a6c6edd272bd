/** When the retry bound holds in the interleaved protocol: as long as every write counts from the attempts it finds. */
module RetryBound {
  import opened Basics
  import opened Jobs
  import opened JobTable
  import opened Protocol

  /** The step commits a failure of the RUNNING job. */
  predicate Fails(s: State, a: Action, id: JobId) {
    Releases(s, a, id) && At(s, a.p).w.to in {Pending, DeadLetter, Failed}
  }

  /** A committed write of the job carries the attempts current at its UPDATE, one more for a failure. */
  predicate CountsFromNow(s: State, a: Action, id: JobId) {
    Commits(s, a, id) ==> At(s, a.p).w.attempts == s.jobs[id].attempts + One(Fails(s, a, id))
  }

  predicate FreshRun(s: State, acts: seq<Action>, id: JobId)
    decreases |acts|
  {
    acts == [] || (CountsFromNow(s, acts[0], id) && FreshRun(Do(s, acts[0]), acts[1..], id))
  }

  function Failures(s: State, acts: seq<Action>, id: JobId): nat
    decreases |acts|
  {
    if acts == [] then 0 else One(Fails(s, acts[0], id)) + Failures(Do(s, acts[0]), acts[1..], id)
  }

  predicate NoRetryByHand(a: Action, id: JobId) {
    a.By? && a.c.BeginTransition? && a.c.id == id ==> a.c.to != Retrying
  }

  /** A write to RETRYING is not waiting, and a failure that requeues was planned with attempts left. */
  predicate PlannedWithin(proc: Proc, id: JobId, maxAttempts: int) {
    proc.Writing? && proc.id == id ==>
      && proc.w.to != Retrying
      && (proc.w.from == Running && proc.w.to == Pending ==> proc.w.attempts < maxAttempts)
  }

  predicate RowWithin(j: Job) {
    && j.attempts <= Max(1, j.maxAttempts)
    && (j.state in {Pending, Running, Paused} ==> j.attempts < Max(1, j.maxAttempts))
    && j.state != Retrying
  }

  ghost predicate Within(s: State, id: JobId) {
    && WritesLegal(s)
    && id in s.jobs && RowWithin(s.jobs[id])
    && forall p :: PlannedWithin(At(s, p), id, s.jobs[id].maxAttempts)
  }

  lemma PlanStaysWithin(s: State, a: Action, id: JobId)
    requires a.By? && id in s.jobs && NoRetryByHand(a, id)
    requires PlannedWithin(At(s, a.p), id, s.jobs[id].maxAttempts)
    ensures PlannedWithin(NextProc(s, a), id, s.jobs[id].maxAttempts)
  {
    FailPathLegalIffRunning(s.jobs[id].state, Exhausted(s.jobs[id]));
  }

  lemma RowStaysWithin(s: State, a: Action, id: JobId)
    requires Within(s, id) && CountsFromNow(s, a, id)
    ensures id in Do(s, a).jobs && Do(s, a).jobs[id].maxAttempts == s.jobs[id].maxAttempts
    ensures RowWithin(Do(s, a).jobs[id])
    ensures Do(s, a).jobs[id].attempts == s.jobs[id].attempts + One(Fails(s, a, id))
  {
    if Commits(s, a, id) {
      assert PlannedWithin(At(s, a.p), id, s.jobs[id].maxAttempts);
      assert LegalWrite(At(s, a.p).w);
    }
  }

  /**
   Whatever the interleaving: if every committed write of the job counts from the attempts it
   finds, attempts are exactly the failures, and they never exceed the bound.
   */
  lemma {:induction false} FreshWritesKeepTheBound(s: State, acts: seq<Action>, id: JobId)
    requires Within(s, id) && FreshRun(s, acts, id)
    requires forall k :: 0 <= k < |acts| ==> NoRetryByHand(acts[k], id)
    ensures Within(Run(s, acts), id)
    ensures Run(s, acts).jobs[id].attempts == s.jobs[id].attempts + Failures(s, acts, id)
    ensures s.jobs[id].attempts + Failures(s, acts, id) <= Max(1, s.jobs[id].maxAttempts)
    decreases |acts|
  {
    if acts != [] {
      var a, s1 := acts[0], Do(s, acts[0]);
      RowStaysWithin(s, a, id);
      StepLegal(s, a);
      NextAt(s, a);
      if a.By? {
        PlanStaysWithin(s, a, id);
      }
      hide Do, NextProc, Fails, CountsFromNow, RowWithin, PlannedWithin, WritesLegal;
      assert Within(s1, id);
      FreshWritesKeepTheBound(s1, acts[1..], id);
    }
  }

  // ------------------------------------------------------------ runs with stale writes

  /** What the run's writes of the job take off its attempts: what each should have written less what it wrote. */
  function Undone(s: State, acts: seq<Action>, id: JobId): int
    decreases |acts|
  {
    if acts == [] then 0 else UndoneBy(s, acts[0], id) + Undone(Do(s, acts[0]), acts[1..], id)
  }

  function UndoneBy(s: State, a: Action, id: JobId): int {
    if Commits(s, a, id) then s.jobs[id].attempts + One(Fails(s, a, id)) - At(s, a.p).w.attempts else 0
  }

  /** Operators neither retry the job by hand nor count up its attempts. */
  predicate NoHandCount(a: Action, id: JobId) {
    a.By? && a.c.BeginTransition? && a.c.id == id ==> a.c.to != Retrying && !a.c.bump
  }

  /** However old its read, a waiting write of the job leaves a row within the bound. */
  predicate WritesWithin(proc: Proc, id: JobId, maxAttempts: int) {
    proc.Writing? && proc.id == id ==>
      && proc.w.to != Retrying
      && proc.w.attempts <= Max(1, maxAttempts)
      && (proc.w.to in {Pending, Running, Paused} ==> proc.w.attempts < Max(1, maxAttempts))
  }

  ghost predicate Bounded(s: State, id: JobId) {
    && id in s.jobs && RowWithin(s.jobs[id])
    && forall p :: WritesWithin(At(s, p), id, s.jobs[id].maxAttempts)
  }

  lemma PlanStaysBounded(s: State, a: Action, id: JobId)
    requires a.By? && id in s.jobs && RowWithin(s.jobs[id]) && NoHandCount(a, id)
    requires WritesWithin(At(s, a.p), id, s.jobs[id].maxAttempts)
    ensures WritesWithin(NextProc(s, a), id, s.jobs[id].maxAttempts)
  {
    FailPathLegalIffRunning(s.jobs[id].state, Exhausted(s.jobs[id]));
  }

  lemma RowStaysBounded(s: State, a: Action, id: JobId)
    requires Bounded(s, id)
    ensures id in Do(s, a).jobs && Do(s, a).jobs[id].maxAttempts == s.jobs[id].maxAttempts
    ensures RowWithin(Do(s, a).jobs[id])
    ensures Do(s, a).jobs[id].attempts == s.jobs[id].attempts + One(Fails(s, a, id)) - UndoneBy(s, a, id)
  {
    if Commits(s, a, id) {
      assert WritesWithin(At(s, a.p), id, s.jobs[id].maxAttempts);
    }
  }

  lemma StepStaysBounded(s: State, a: Action, id: JobId)
    requires Bounded(s, id) && NoHandCount(a, id)
    ensures Bounded(Do(s, a), id)
  {
    RowStaysBounded(s, a, id);
    NextAt(s, a);
    if a.By? {
      PlanStaysBounded(s, a, id);
    }
  }

  /**
   Any run at all, stale writes included: attempts are the failures less what was undone, and
   never exceed the bound. So a job fails more often than its bound by no more than was undone.
   */
  lemma {:induction false} FailuresAreBoundedByUndone(s: State, acts: seq<Action>, id: JobId)
    requires Bounded(s, id)
    requires forall k :: 0 <= k < |acts| ==> NoHandCount(acts[k], id)
    ensures Bounded(Run(s, acts), id)
    ensures Run(s, acts).jobs[id].attempts == s.jobs[id].attempts + Failures(s, acts, id) - Undone(s, acts, id)
    ensures Run(s, acts).jobs[id].maxAttempts == s.jobs[id].maxAttempts
    ensures s.jobs[id].attempts + Failures(s, acts, id) <= Max(1, s.jobs[id].maxAttempts) + Undone(s, acts, id)
    decreases |acts|
  {
    if acts != [] {
      var a := acts[0];
      RowStaysBounded(s, a, id);
      StepStaysBounded(s, a, id);
      hide Do, Fails, UndoneBy, WritesWithin;
      FailuresAreBoundedByUndone(Do(s, a), acts[1..], id);
    }
  }

  /** At every step of the run attempts are start and the failures so far. */
  predicate CountsAlways(s: State, acts: seq<Action>, id: JobId, start: int)
    decreases |acts|
  {
    && id in s.jobs && s.jobs[id].attempts == start
    && (acts != [] ==> CountsAlways(Do(s, acts[0]), acts[1..], id, start + One(Fails(s, acts[0], id))))
  }

  /** Attempts count the failures at every step exactly if every write counts from the attempts it finds. */
  lemma {:induction false} CountsAlwaysIffFresh(s: State, acts: seq<Action>, id: JobId)
    requires id in s.jobs
    ensures CountsAlways(s, acts, id, s.jobs[id].attempts) <==> FreshRun(s, acts, id)
    decreases |acts|
  {
    if acts != [] {
      var a, s1 := acts[0], Do(s, acts[0]);
      AttemptsAfter(s, a, id);
      hide Do, Fails, UndoneBy, CountsFromNow;
      CountsAlwaysIffFresh(s1, acts[1..], id);
      assert CountsAlways(s1, acts[1..], id, s.jobs[id].attempts + One(Fails(s, a, id))) ==>
          s1.jobs[id].attempts == s.jobs[id].attempts + One(Fails(s, a, id));
    }
  }

  lemma AttemptsAfter(s: State, a: Action, id: JobId)
    requires id in s.jobs
    ensures id in Do(s, a).jobs
    ensures Do(s, a).jobs[id].attempts == s.jobs[id].attempts + One(Fails(s, a, id)) <==> CountsFromNow(s, a, id)
    ensures CountsFromNow(s, a, id) <==> UndoneBy(s, a, id) == 0
  {
  }
}
