/**
 The jobs table as a value, and every statement the store runs against it.

 transition() and fail() are a read followed by a guarded UPDATE. Each half is its
 own function here (a Plan function for the read and validation, Commit for the
 UPDATE), so that the atomic store and the interleaved protocol share them.
 */
module JobTable {
  import opened Basics
  import opened Jobs

  type Table = map<JobId, Job>

  datatype StoreError =
    | NotFound
    | IllegalEdge(src: JobState, dst: JobState)
    | LostRace
    | DuplicateId

  /** SET state, attempts, error, lease = NULL WHERE state = from. */
  datatype Write = Write(from: JobState, to: JobState, attempts: int, error: Option<JobError>)

  /** The WHERE clause id = ? AND state = ?: does the UPDATE touch a row? */
  predicate Hits(t: Table, id: JobId, from: JobState) {
    id in t && t[id].state == from
  }

  function Written(j: Job, w: Write): Job {
    j.(state := w.to, attempts := w.attempts, error := w.error, lease := None)
  }

  function Commit(t: Table, id: JobId, w: Write): Table {
    if Hits(t, id, w.from) then t[id := Written(t[id], w)] else t
  }

  /** transition(): the read, the edge check and the values to be written. */
  function PlanTransition(t: Table, id: JobId, to: JobState, error: Option<JobError>, bump: bool)
    : Result<Write, StoreError>
  {
    if id !in t then Err(NotFound)
    else if !CanTransition(t[id].state, to) then Err(IllegalEdge(t[id].state, to))
    else Ok(Write(t[id].state, to, t[id].attempts + (if bump then 1 else 0), error))
  }

  predicate Exhausted(j: Job) {
    j.attempts + 1 >= j.maxAttempts
  }

  /** fail(): the read, the validation of the whole path, the final state. */
  function PlanFail(t: Table, id: JobId, error: JobError): Result<Write, StoreError> {
    if id !in t then Err(NotFound)
    else
      var j := t[id];
      var path := FailPath(j.state, Exhausted(j));
      if !LegalPath(path) then Err(IllegalEdge(j.state, Failed))
      else Ok(Write(j.state, path[|path| - 1], j.attempts + 1, Some(error)))
  }

  function Transition(t: Table, id: JobId, to: JobState, error: Option<JobError>, bump: bool)
    : Result<Table, StoreError>
  {
    match PlanTransition(t, id, to, error, bump)
    case Err(e) => Err(e)
    case Ok(w) => Ok(Commit(t, id, w))
  }

  function Fail(t: Table, id: JobId, error: JobError): Result<Table, StoreError> {
    match PlanFail(t, id, error)
    case Err(e) => Err(e)
    case Ok(w) => Ok(Commit(t, id, w))
  }

  function Claim(t: Table, id: JobId, lease: Time): Table {
    if Hits(t, id, Pending) then t[id := t[id].(state := Running, lease := Some(lease))] else t
  }

  function Renew(t: Table, id: JobId, lease: Time): Table {
    if Hits(t, id, Running) then t[id := t[id].(lease := Some(lease))] else t
  }

  function SetPayload(t: Table, id: JobId, payload: Payload): Table {
    if id in t then t[id := t[id].(payload := payload)] else t
  }

  /** The reaper's WHERE clause. */
  predicate Expired(j: Job, now: Time) {
    j.state == Running && j.lease.Some? && j.lease.value < now
  }

  /** What the retry policy leaves of a running job that failed. */
  function FailedJob(j: Job, error: JobError): Job {
    j.(state := if Exhausted(j) then DeadLetter else Pending,
       attempts := j.attempts + 1,
       error := Some(error),
       lease := None)
  }

  /** A reaper pass that nothing interrupts. */
  function Reap(t: Table, now: Time): Table {
    map id | id in t :: if Expired(t[id], now) then FailedJob(t[id], LeaseExpired) else t[id]
  }

  /** fail() succeeds exactly on a RUNNING job, and then never leaves FAILED or RETRYING behind. */
  lemma FailMeaning(t: Table, id: JobId, error: JobError)
    ensures Fail(t, id, error).Ok? <==> Hits(t, id, Running)
    ensures Fail(t, id, error).Ok? ==> Fail(t, id, error).value == t[id := FailedJob(t[id], error)]
    ensures id in t && t[id].state != Running ==>
              Fail(t, id, error) == Err(IllegalEdge(t[id].state, Failed))
    ensures id !in t ==> Fail(t, id, error) == Err(NotFound)
  {
    if id in t {
      FailPathLegalIffRunning(t[id].state, Exhausted(t[id]));
    }
  }

  /** Which calls of transition() succeed, state by state, and what they leave. */
  lemma TransitionSucceedsExactly(t: Table, id: JobId, to: JobState, error: Option<JobError>, bump: bool)
    ensures id !in t ==> Transition(t, id, to, error, bump) == Err(NotFound)
    ensures id in t ==>
              var from, r := t[id].state, Transition(t, id, to, error, bump);
              && (r.Err? ==> r == Err(IllegalEdge(from, to)))
              && (to == Cancelled ==> (r.Ok? <==> from in {Pending, Running, Paused}))
              && (to == Paused ==> (r.Ok? <==> from in {Pending, Running}))
              && (to == Pending ==> (r.Ok? <==> from in {Paused, Retrying}))
              && (to == Running ==> (r.Ok? <==> from == Pending))
              && (to == Succeeded || to == Failed ==> (r.Ok? <==> from == Running))
              && (to == Retrying ==> (r.Ok? <==> from == Failed))
              && (to == DeadLetter ==> (r.Ok? <==> from in {Failed, Retrying}))
    ensures Transition(t, id, to, error, bump).Ok? ==>
              var t' := Transition(t, id, to, error, bump).value;
              && t'.Keys == t.Keys
              && t'[id].state == to && t'[id].error == error && t'[id].lease == None
              && t'[id].attempts == t[id].attempts + One(bump)
              && t'[id].payload == t[id].payload && t'[id].maxAttempts == t[id].maxAttempts
              && forall x :: x in t && x != id ==> t'[x] == t[x]
  {
    if id in t {
      var from := t[id].state;
      assert from == Pending ==> Transitions(from) == {Running, Paused, Cancelled};
      assert from == Running ==> Transitions(from) == {Succeeded, Failed, Paused, Cancelled};
      assert from == Paused ==> Transitions(from) == {Pending, Cancelled};
      assert from == Failed ==> Transitions(from) == {Retrying, DeadLetter};
      assert from == Retrying ==> Transitions(from) == {Pending, DeadLetter};
    }
  }

  /** A write whose two states form a stored move changes state only along the graph. */
  predicate LegalWrite(w: Write) {
    StoredMove(w.from, w.to)
  }

  lemma PlansAreLegal(t: Table, id: JobId, to: JobState, error: Option<JobError>, bump: bool, msg: JobError)
    ensures PlanTransition(t, id, to, error, bump).Ok? ==>
              CanTransition(PlanTransition(t, id, to, error, bump).value.from, to)
              && PlanTransition(t, id, to, error, bump).value.to == to
    ensures PlanFail(t, id, msg).Ok? ==>
              var w := PlanFail(t, id, msg).value;
              w.from == Running && (w.to == Pending || w.to == DeadLetter)
  {
    if id in t {
      FailPathLegalIffRunning(t[id].state, Exhausted(t[id]));
    }
  }
}
