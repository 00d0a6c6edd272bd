/**
 Runs of uninterrupted store operations: what counting and leases promise when no
 operation acts on a stale read.
 */
module Histories {
  import opened Basics
  import opened Jobs
  import opened JobTable

  datatype Event =
    | Submit(id: JobId, job: Job)
    | ClaimOf(id: JobId, lease: Time)
    | RenewTo(id: JobId, lease: Time)
    | Move(id: JobId, to: JobState)                  // complete, cancel, pause, resume
    | FailOf(id: JobId, error: JobError)
    | DeadLetterNow(id: JobId, error: JobError)      // both commits
    | Repayload(id: JobId, payload: Payload)
    | ReapAt(now: Time)

  function OrElse(r: Result<Table, StoreError>, t: Table): Table {
    match r
    case Ok(t') => t'
    case Err(_) => t
  }

  function DeadLettered(t: Table, id: JobId, error: JobError): Table {
    match Transition(t, id, Failed, Some(error), true)
    case Err(_) => t
    case Ok(t1) => OrElse(Transition(t1, id, DeadLetter, Some(error), false), t1)
  }

  /** A refused operation leaves the table as it was. */
  function Apply(t: Table, e: Event): Table {
    match e
    case Submit(id, j) =>
      if id in t then t else t[id := NewJob(j)]
    case ClaimOf(id, lease) => Claim(t, id, lease)
    case RenewTo(id, lease) => Renew(t, id, lease)
    case Move(id, to) => OrElse(Transition(t, id, to, None, false), t)
    case FailOf(id, error) => OrElse(Fail(t, id, error), t)
    case DeadLetterNow(id, error) => DeadLettered(t, id, error)
    case Repayload(id, payload) => SetPayload(t, id, payload)
    case ReapAt(now) => Reap(t, now)
  }

  /**
   Submitting adds the job untried and PENDING, without error or lease, and otherwise as given; a used
   id is refused.
   */
  lemma SubmitMeaning(t: Table, id: JobId, j: Job)
    ensures id in t ==> Apply(t, Submit(id, j)) == t
    ensures id !in t ==>
              && Apply(t, Submit(id, j)) == t[id := NewJob(j)]
              && NewJob(j) == Job(j.kind, j.payload, Pending, 0, j.maxAttempts, None, j.resource, j.priority,
                                  j.createdAt, None)
  {
  }

  function Replay(t: Table, es: seq<Event>): Table
    decreases |es|
  {
    if es == [] then t else Replay(Apply(t, es[0]), es[1..])
  }

  // ------------------------------------------------------------ attempts

  /** The event is a failure of this job: a fail(), a dead-lettering, or a reap of its expired lease. */
  predicate IsFailure(t: Table, e: Event, id: JobId) {
    match e
    case FailOf(i, _) => i == id && Hits(t, id, Running)
    case DeadLetterNow(i, _) => i == id && Hits(t, id, Running)
    case ReapAt(now) => id in t && Expired(t[id], now)
    case _ => false
  }

  function FailuresOf(t: Table, es: seq<Event>, id: JobId): nat
    decreases |es|
  {
    if es == [] then 0
    else (if IsFailure(t, es[0], id) then 1 else 0) + FailuresOf(Apply(t, es[0]), es[1..], id)
  }

  /** A job that can still be tried has attempts left; the first try is always granted. */
  predicate WithinBudget(j: Job) {
    && j.attempts <= Max(1, j.maxAttempts)
    && (j.state in {Pending, Running, Paused} ==> j.attempts < Max(1, j.maxAttempts))
    && j.state !in {Failed, Retrying}
  }

  /** Operators do not push jobs into or out of FAILED and RETRYING by hand. */
  predicate Plain(e: Event) {
    e.Move? ==> e.to !in {Failed, Retrying, DeadLetter}
  }

  lemma StepCounts(t: Table, e: Event, id: JobId)
    requires id in t && WithinBudget(t[id]) && Plain(e)
    ensures id in Apply(t, e)
    ensures WithinBudget(Apply(t, e)[id]) && Apply(t, e)[id].maxAttempts == t[id].maxAttempts
    ensures Apply(t, e)[id].attempts == t[id].attempts + (if IsFailure(t, e, id) then 1 else 0)
  {
    match e
    case FailOf(i, error) => FailMeaning(t, i, error);
    case _ =>
  }

  /**
   Uninterrupted, attempts counts the failures exactly, and so no job fails more often
   than its bound. (Compare StaleWritesUndoTheRetryBound for the interleaved protocol.)
   */
  lemma {:induction false} AttemptsCountFailures(t: Table, es: seq<Event>, id: JobId)
    requires id in t && WithinBudget(t[id])
    requires forall k :: 0 <= k < |es| ==> Plain(es[k])
    ensures id in Replay(t, es)
    ensures Replay(t, es)[id].attempts == t[id].attempts + FailuresOf(t, es, id)
    ensures t[id].attempts + FailuresOf(t, es, id) <= Max(1, t[id].maxAttempts)
    ensures WithinBudget(Replay(t, es)[id])
    decreases |es|
  {
    if es != [] {
      StepCounts(t, es[0], id);
      AttemptsCountFailures(Apply(t, es[0]), es[1..], id);
    }
  }

  // ------------------------------------------------------------ leases in time

  /** After an uninterrupted reap nothing RUNNING is expired, and only expired jobs have moved. */
  lemma ReapClearsExpired(t: Table, now: Time, id: JobId)
    requires id in t
    ensures var j := Reap(t, now)[id];
            && !Expired(j, now)
            && (Expired(t[id], now) ==>
                  && j.state == (if Exhausted(t[id]) then DeadLetter else Pending)
                  && j.attempts == t[id].attempts + 1 && j.lease == None)
            && (!Expired(t[id], now) ==> j == t[id])
  {
  }

  datatype Timed = Timed(at: Time, e: Event)

  function Events(h: seq<Timed>): seq<Event> {
    seq(|h|, i requires 0 <= i < |h| => h[i].e)
  }

  predicate Touches(e: Event, id: JobId) {
    !e.ReapAt? && e.id == id
  }

  /**
   The history of a job while its worker lives: times do not go back, reapers use the
   current time, the only events on the job are its worker's renewals, each no later
   than the expiry then current, and the worker is done no later than the last expiry.
   */
  predicate KeptAlive(h: seq<Timed>, id: JobId, now: Time, expiry: Time, done: Time) {
    if h == [] then now <= done <= expiry
    else
      && now <= h[0].at
      && (h[0].e.ReapAt? ==> h[0].e.now == h[0].at)
      && if Touches(h[0].e, id)
         then h[0].e.RenewTo? && h[0].at <= expiry && KeptAlive(h[1..], id, h[0].at, h[0].e.lease, done)
         else KeptAlive(h[1..], id, h[0].at, expiry, done)
  }

  /** No moment of such a history lies beyond the expiry then current. */
  lemma {:induction false} AliveBeforeExpiry(h: seq<Timed>, id: JobId, now: Time, expiry: Time, done: Time)
    requires KeptAlive(h, id, now, expiry, done)
    ensures now <= expiry
  {
    if h != [] && !Touches(h[0].e, id) {
      AliveBeforeExpiry(h[1..], id, h[0].at, expiry, done);
    }
  }

  /** A worker that renews no later than its current expiry is never reaped. */
  lemma {:induction false} RenewingWorkerIsNeverReaped(t: Table, h: seq<Timed>, id: JobId, now: Time, expiry: Time,
                                                       done: Time)
    requires Hits(t, id, Running) && t[id].lease == Some(expiry)
    requires KeptAlive(h, id, now, expiry, done)
    ensures Hits(Replay(t, Events(h)), id, Running)
    ensures Replay(t, Events(h))[id].attempts == t[id].attempts
    decreases |h|
  {
    if h != [] {
      var e := h[0].e;
      assert Events(h)[1..] == Events(h[1..]);
      if Touches(e, id) {
        RenewingWorkerIsNeverReaped(Apply(t, e), h[1..], id, h[0].at, e.lease, done);
      } else {
        AliveBeforeExpiry(h[1..], id, h[0].at, expiry, done);
        UntouchedRow(t, e, id);
        RenewingWorkerIsNeverReaped(Apply(t, e), h[1..], id, h[0].at, expiry, done);
      }
    }
  }

  lemma UntouchedRow(t: Table, e: Event, id: JobId)
    requires id in t && !Touches(e, id)
    requires e.ReapAt? ==> !Expired(t[id], e.now)
    ensures id in Apply(t, e) && Apply(t, e)[id] == t[id]
  {
    match e
    case FailOf(i, error) => FailMeaning(t, i, error);
    case _ =>
  }

  /** No reaper finds the lease expired: each uses a time no later than the lease then current. */
  predicate LeaseCovers(es: seq<Event>, id: JobId, lease: Time)
    decreases |es|
  {
    es == [] ||
    match es[0]
    case ReapAt(now) => now <= lease && LeaseCovers(es[1..], id, lease)
    case RenewTo(i, to) => LeaseCovers(es[1..], id, if i == id then to else lease)
    case _ => LeaseCovers(es[1..], id, lease)
  }

  /** A running job that only its worker's renewals touch keeps running exactly if its lease covers every reap. */
  lemma {:induction false} KeptExactlyIfCovered(t: Table, es: seq<Event>, id: JobId, lease: Time)
    requires Hits(t, id, Running) && t[id].lease == Some(lease)
    requires forall k :: 0 <= k < |es| && Touches(es[k], id) ==> es[k].RenewTo?
    ensures Hits(Replay(t, es), id, Running) <==> LeaseCovers(es, id, lease)
    decreases |es|
  {
    if es != [] {
      var e := es[0];
      if Touches(e, id) {
        KeptExactlyIfCovered(Apply(t, e), es[1..], id, e.lease);
      } else if e.ReapAt? && Expired(t[id], e.now) {
        StaysOut(Apply(t, e), es[1..], id);
      } else {
        UntouchedRow(t, e, id);
        KeptExactlyIfCovered(Apply(t, e), es[1..], id, lease);
      }
    }
  }

  lemma {:induction false} StaysOut(t: Table, es: seq<Event>, id: JobId)
    requires id in t && t[id].state != Running
    requires forall k :: 0 <= k < |es| && Touches(es[k], id) ==> es[k].RenewTo?
    ensures id in Replay(t, es) && Replay(t, es)[id].state != Running
    decreases |es|
  {
    if es != [] {
      if !Touches(es[0], id) {
        UntouchedRow(t, es[0], id);
      }
      StaysOut(Apply(t, es[0]), es[1..], id);
    }
  }

  predicate NoEventOn(h: seq<Timed>, id: JobId) {
    forall k :: 0 <= k < |h| ==> !Touches(h[k].e, id)
  }

  /** A worker that died holding a lease: the first reap after its expiry frees the job or gives it up. */
  lemma {:induction false} DeadWorkersJobIsRecovered(t: Table, h: seq<Timed>, id: JobId, expiry: Time, now: Time)
    requires Hits(t, id, Running) && t[id].lease == Some(expiry) && expiry < now
    requires NoEventOn(h, id)
    requires forall k :: 0 <= k < |h| && h[k].e.ReapAt? ==> h[k].e.now <= expiry
    ensures var after := Reap(Replay(t, Events(h)), now);
            && id in after
            && after[id].state == (if Exhausted(t[id]) then DeadLetter else Pending)
            && after[id].attempts == t[id].attempts + 1
    decreases |h|
  {
    if h != [] {
      assert Events(h)[1..] == Events(h[1..]);
      UntouchedRow(t, h[0].e, id);
      DeadWorkersJobIsRecovered(Apply(t, h[0].e), h[1..], id, expiry, now);
    }
  }
}
