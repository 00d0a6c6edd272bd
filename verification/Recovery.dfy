/** Failure classes and the recovery each one drives. */
module Recovery {
  import opened Basics
  import opened Jobs
  import opened JobStores
  import T = JobTable
  import H = Histories

  /** The verdict of classify(); how it reads exception names and texts is not modelled. */
  datatype FailureClass = Transient | Oom | Permanent | Unknown

  datatype RecoveryAction = Retry | RetryWithAdjustment | RestoreAndRetry | GiveUp

  datatype BatchPlan = BatchPlan(microbatch: int, gradAccum: int)

  function Effective(p: BatchPlan): int {
    p.microbatch * p.gradAccum
  }

  predicate CanShrink(p: BatchPlan) {
    p.microbatch > 1
  }

  function Shrink(p: BatchPlan): BatchPlan {
    var newMb := Max(1, p.microbatch / 2);
    var factor := p.microbatch / newMb;
    BatchPlan(newMb, p.gradAccum * factor)
  }

  function FromPayload(payload: Payload): BatchPlan {
    BatchPlan(if MicrobatchSize in payload then payload[MicrobatchSize] else 8,
              if GradAccumSteps in payload then payload[GradAccumSteps] else 1)
  }

  function WithPlan(payload: Payload, p: BatchPlan): Payload {
    payload[MicrobatchSize := p.microbatch][GradAccumSteps := p.gradAccum]
  }

  datatype RecoveryEvent = RecoveryEvent(
    action: RecoveryAction,
    attempt: int,
    resultingState: JobState,
    before: Option<BatchPlan>,
    after: Option<BatchPlan>,
    restored: Option<string>)

  /** What handle() leaves of the table, whether it then returns or raises. */
  function Handled(t: T.Table, enabled: bool, id: JobId, seen: Job, fc: FailureClass, error: JobError): T.Table {
    if !enabled then H.OrElse(T.Fail(t, id, error), t)
    else
      match fc
      case Permanent => H.DeadLettered(t, id, error)
      case Oom =>
        var plan := FromPayload(seen.payload);
        if CanShrink(plan) then
          var t1 := T.SetPayload(t, id, WithPlan(seen.payload, Shrink(plan)));
          H.OrElse(T.Fail(t1, id, error), t1)
        else H.DeadLettered(t, id, error)
      case Transient => H.OrElse(T.Fail(t, id, error), t)
      case Unknown => H.OrElse(T.Fail(t, id, error), t)
  }

  /** The exception that a failure of a missing or stopped job raises. */
  function Refusal(t: T.Table, id: JobId): T.StoreError {
    if id in t then T.IllegalEdge(t[id].state, Failed) else T.NotFound
  }

  class RecoveryController {
    const store: JobStore
    const enabled: bool

    constructor (store: JobStore, enabled: bool)
      ensures this.store == store && this.enabled == enabled
    {
      this.store := store;
      this.enabled := enabled;
    }

    /** Skip the retry ladder: FAILED with a counted attempt, then DEAD_LETTER. */
    method DeadLetterNow(id: JobId, error: JobError) returns (r: Result<Job, T.StoreError>)
      modifies store`jobs
      ensures store.jobs == H.DeadLettered(old(store.jobs), id, error)
      ensures r.Ok? <==> T.Hits(old(store.jobs), id, Running)
      ensures r.Ok? ==> r.value == store.jobs[id]
      ensures r.Err? ==> r.error == Refusal(old(store.jobs), id)
    {
      r := store.Transition(id, Failed, Some(error), true);
      if r.Err? {
        return;
      }
      r := store.Transition(id, DeadLetter, Some(error), false);
    }

    /** seen is the job as the caller read it; latest is the newest checkpoint, if any. */
    method Handle(id: JobId, seen: Job, fc: FailureClass, error: JobError, latest: Option<string>)
      returns (r: Result<RecoveryEvent, T.StoreError>)
      modifies store`jobs
      ensures store.jobs == Handled(old(store.jobs), enabled, id, seen, fc, error)
      ensures r.Ok? <==> T.Hits(old(store.jobs), id, Running)
      ensures r.Err? ==> r.error == Refusal(old(store.jobs), id)
      ensures r.Ok? ==>
                && r.value.attempt == store.jobs[id].attempts == old(store.jobs)[id].attempts + 1
                && r.value.resultingState == store.jobs[id].state
                && var shrunk := enabled && fc == Oom && CanShrink(FromPayload(seen.payload));
                && r.value.before == (if shrunk then Some(FromPayload(seen.payload)) else None)
                && r.value.after == (if shrunk then Some(Shrink(FromPayload(seen.payload))) else None)
                && r.value.restored == (if shrunk then latest else None)
                && (r.value.action == GiveUp <==> !shrunk && store.jobs[id].state == DeadLetter)
                && (r.value.action == RestoreAndRetry <==> shrunk && latest.Some?)
                && (r.value.action == RetryWithAdjustment <==> shrunk && latest.None?)
    {
      T.FailMeaning(store.jobs, id, error);
      var final: Result<Job, T.StoreError>;
      var before, after: Option<BatchPlan> := None, None;
      var restored: Option<string> := None;
      var adjusted := false;
      if enabled && fc == Permanent {
        final := DeadLetterNow(id, error);
      } else if enabled && fc == Oom {
        var plan := FromPayload(seen.payload);
        if CanShrink(plan) {
          adjusted := true;
          var smaller := Shrink(plan);
          before, after, restored := Some(plan), Some(smaller), latest;
          var updated := store.UpdatePayload(id, WithPlan(seen.payload, smaller));
          if updated.Err? {
            return Err(updated.error);
          }
          T.FailMeaning(store.jobs, id, error);
          final := store.Fail(id, error);
        } else {
          final := DeadLetterNow(id, error);
        }
      } else {
        final := store.Fail(id, error);
      }
      if final.Err? {
        return Err(final.error);
      }
      var action := if adjusted then (if restored.Some? then RestoreAndRetry else RetryWithAdjustment)
                    else if final.value.state == DeadLetter then GiveUp else Retry;
      r := Ok(RecoveryEvent(action, final.value.attempts, final.value.state, before, after, restored));
    }
  }

  // ------------------------------------------------------------ the job after handle()

  /** Retrying cannot help: a permanent error, or an OOM at the smallest microbatch. */
  predicate Hopeless(fc: FailureClass, plan: BatchPlan) {
    fc == Permanent || (fc == Oom && !CanShrink(plan))
  }

  /** A RUNNING job is requeued or dead-lettered with one attempt counted, never left in between. */
  lemma HandleNeverStrands(t: T.Table, enabled: bool, id: JobId, seen: Job, fc: FailureClass, error: JobError)
    requires T.Hits(t, id, Running)
    ensures var t' := Handled(t, enabled, id, seen, fc, error);
            && t'.Keys == t.Keys
            && t'[id].state in {Pending, DeadLetter}
            && t'[id].attempts == t[id].attempts + 1
            && t'[id].lease == None && t'[id].error == Some(error)
            && (t'[id].state == DeadLetter <==>
                  T.Exhausted(t[id]) || (enabled && Hopeless(fc, FromPayload(seen.payload))))
            && forall x :: x in t && x != id ==> t'[x] == t[x]
  {
    T.FailMeaning(t, id, error);
    T.FailMeaning(T.SetPayload(t, id, WithPlan(seen.payload, Shrink(FromPayload(seen.payload)))), id, error);
  }

  /**
   On a job that is not RUNNING handle() raises. It has changed the job by then exactly
   in one case: a shrinkable OOM has already replaced the payload.
   */
  lemma HandleOnStoppedJob(t: T.Table, enabled: bool, id: JobId, seen: Job, fc: FailureClass, error: JobError)
    requires id in t && t[id].state != Running
    ensures var plan := FromPayload(seen.payload);
            Handled(t, enabled, id, seen, fc, error)
            == if enabled && fc == Oom && CanShrink(plan)
               then t[id := t[id].(payload := WithPlan(seen.payload, Shrink(plan)))]
               else t
  {
    T.FailMeaning(t, id, error);
    T.FailMeaning(T.SetPayload(t, id, WithPlan(seen.payload, Shrink(FromPayload(seen.payload)))), id, error);
  }

  // ------------------------------------------------------------ batch arithmetic

  lemma MulAtLeast(a: int, q: int)
    requires q >= 1
    ensures a >= 1 ==> a * q >= q
    ensures a <= -1 ==> a * q <= -q
  {
    assert a * q - q == (a - 1) * q && a * q + q == (a + 1) * q;
  }

  lemma QuotientIs(k: int, q: int, r: int)
    requires 0 <= r < q
    ensures (k * q + r) / q == k
  {
    var n := k * q + r;
    var d, m := n / q, n % q;
    assert d * q + m == n;
    assert (d - k) * q == r - m;
    MulAtLeast(d - k, q);
  }

  /**
   The effective batch is held exactly for an even microbatch and for 1 and 3; any
   other odd microbatch loses one round of gradient accumulation.
   */
  lemma ShrinkEffect(p: BatchPlan)
    requires p.microbatch >= 1
    ensures 1 <= Shrink(p).microbatch
    ensures CanShrink(p) ==> Shrink(p).microbatch < p.microbatch
    ensures Effective(Shrink(p))
         == Effective(p) - (if p.microbatch % 2 == 0 || p.microbatch <= 3 then 0 else p.gradAccum)
  {
    var q := p.microbatch / 2;
    if p.microbatch == 1 {
      assert Shrink(p) == p;
    } else if p.microbatch == 3 {
      assert Shrink(p) == BatchPlan(1, p.gradAccum * 3);
    } else if p.microbatch % 2 == 0 {
      QuotientIs(2, q, 0);
      assert Shrink(p) == BatchPlan(q, p.gradAccum * 2);
      assert q * (p.gradAccum * 2) == (2 * q) * p.gradAccum;
    } else {
      QuotientIs(2, q, 1);
      assert p.microbatch == 2 * q + 1;
      assert Shrink(p) == BatchPlan(q, p.gradAccum * 2);
      assert q * (p.gradAccum * 2) == (2 * q) * p.gradAccum;
      assert (2 * q + 1) * p.gradAccum == (2 * q) * p.gradAccum + p.gradAccum;
    }
  }

  function ShrinkTimes(p: BatchPlan, n: nat): BatchPlan
    decreases n
  {
    if n == 0 then p else ShrinkTimes(Shrink(p), n - 1)
  }

  function Pow2(k: nat): (r: nat)
    ensures r >= 1
  {
    if k == 0 then 1 else 2 * Pow2(k - 1)
  }

  /** From a power of two the effective batch never changes, however often the plan shrinks. */
  lemma {:induction false} PowerOfTwoKeepsBatch(p: BatchPlan, k: nat, n: nat)
    requires p.microbatch == Pow2(k)
    ensures Effective(ShrinkTimes(p, n)) == Effective(p)
    decreases n
  {
    if n > 0 {
      ShrinkEffect(p);
      if k == 0 {
        assert Shrink(p) == p;
        PowerOfTwoKeepsBatch(p, 0, n - 1);
      } else {
        assert p.microbatch == 2 * Pow2(k - 1);
        PowerOfTwoKeepsBatch(Shrink(p), k - 1, n - 1);
      }
    }
  }

  // ------------------------------------------------------------ one job, one OOM after another

  function Log2(n: int): nat {
    if n < 2 then 0 else 1 + Log2(n / 2)
  }

  /** Log2 is the rounded-down logarithm. */
  lemma {:induction false} Log2Meaning(n: int)
    requires n >= 1
    ensures Pow2(Log2(n)) <= n < 2 * Pow2(Log2(n))
  {
    if n >= 2 {
      Log2Meaning(n / 2);
    }
  }

  /** A RUNNING job after handle() with an OOM. */
  function AfterOom(j: Job, error: JobError): Job {
    var plan := FromPayload(j.payload);
    if CanShrink(plan) then T.FailedJob(j.(payload := WithPlan(j.payload, Shrink(plan))), error)
    else j.(state := DeadLetter, attempts := j.attempts + 1, error := Some(error), lease := None)
  }

  lemma HandleOom(t: T.Table, id: JobId, error: JobError)
    requires T.Hits(t, id, Running)
    ensures Handled(t, true, id, t[id], Oom, error) == t[id := AfterOom(t[id], error)]
  {
    var plan := FromPayload(t[id].payload);
    T.FailMeaning(T.SetPayload(t, id, WithPlan(t[id].payload, Shrink(plan))), id, error);
  }

  /** How many OOMs in a row, each after a new claim, until the job is dead-lettered. */
  function OomsToDeath(j: Job, error: JobError): nat
    decreases FromPayload(j.payload).microbatch
  {
    var after := AfterOom(j, error);
    if after.state == DeadLetter then 1
    else
      assert FromPayload(after.payload) == Shrink(FromPayload(j.payload));
      ShrinkEffect(FromPayload(j.payload));
      1 + OomsToDeath(after.(state := Running), error)
  }

  /** The series ends at the retry bound or when the microbatch reaches 1, whichever comes first. */
  lemma {:induction false} OomSeriesLength(j: Job, error: JobError)
    requires FromPayload(j.payload).microbatch >= 1
    ensures OomsToDeath(j, error)
         == Min(Max(1, j.maxAttempts - j.attempts), Log2(FromPayload(j.payload).microbatch) + 1)
    decreases FromPayload(j.payload).microbatch
  {
    var plan, after := FromPayload(j.payload), AfterOom(j, error);
    if after.state != DeadLetter {
      assert FromPayload(after.payload) == Shrink(plan);
      ShrinkEffect(plan);
      OomSeriesLength(after.(state := Running), error);
    }
  }

  // ------------------------------------------------------------ the payload after handle()

  /** microbatch_size and grad_accum_steps with their defaults. */
  predicate Reads(payload: Payload, microbatch: int, gradAccum: int) {
    && microbatch == (if MicrobatchSize in payload then payload[MicrobatchSize] else 8)
    && gradAccum == (if GradAccumSteps in payload then payload[GradAccumSteps] else 1)
  }

  /**
   A shrinkable OOM halves the microbatch and raises the accumulation by the same factor, and
   leaves every other key of the payload that the caller had read.
   */
  lemma OomChangesTwoKeys(t: T.Table, id: JobId, seen: Job, error: JobError, m: int, g: int)
    requires id in t && Reads(seen.payload, m, g) && m > 1
    ensures var payload := Handled(t, true, id, seen, Oom, error)[id].payload;
            && payload.Keys == seen.payload.Keys + {MicrobatchSize, GradAccumSteps}
            && payload[MicrobatchSize] == m / 2
            && payload[GradAccumSteps] == g * (m / (m / 2))
            && forall k :: k in seen.payload && k != MicrobatchSize && k != GradAccumSteps ==>
                 payload[k] == seen.payload[k]
  {
    var t1 := T.SetPayload(t, id, WithPlan(seen.payload, Shrink(FromPayload(seen.payload))));
    T.FailMeaning(t1, id, error);
  }

  /** Any other failure leaves the payload alone. */
  lemma OthersKeepPayload(t: T.Table, enabled: bool, id: JobId, seen: Job, fc: FailureClass, error: JobError,
                          m: int, g: int)
    requires id in t && Reads(seen.payload, m, g)
    requires !enabled || fc != Oom || m <= 1
    ensures Handled(t, enabled, id, seen, fc, error)[id].payload == t[id].payload
  {
    T.FailMeaning(t, id, error);
  }

  /** A payload without the two keys starts at a microbatch of eight, so it survives three OOMs at most. */
  lemma DefaultPlanOoms(j: Job, error: JobError)
    requires j.payload == map[]
    ensures OomsToDeath(j, error) == Min(Max(1, j.maxAttempts - j.attempts), 4)
  {
    assert Log2(8) == 1 + Log2(4) && Log2(4) == 1 + Log2(2) && Log2(2) == 1 + Log2(1);
    OomSeriesLength(j, error);
  }

  /** The plan in the event is what the payload says, or the defaults. */
  lemma PlanReadsPayload(payload: Payload)
    ensures Reads(payload, FromPayload(payload).microbatch, FromPayload(payload).gradAccum)
  {
  }

  /** What handle() raises is what fail() would raise. */
  lemma RefusalIsFails(t: T.Table, id: JobId, error: JobError)
    requires !T.Hits(t, id, Running)
    ensures T.Fail(t, id, error) == Err(Refusal(t, id))
  {
    T.FailMeaning(t, id, error);
  }
}
