/** The store as one object: each method runs uninterrupted and is proved against the table's functions. */
module JobStores {
  import opened Basics
  import opened Jobs
  import T = JobTable
  import H = Histories

  /** ORDER BY priority DESC, created_at ASC, or by created_at alone. */
  predicate Before(byPriority: bool, a: Job, b: Job) {
    if byPriority && a.priority != b.priority then a.priority > b.priority
    else a.createdAt < b.createdAt
  }

  /** A row that may come first in the query's order; equal keys may come in any order. */
  predicate First(t: T.Table, rows: set<JobId>, byPriority: bool, id: JobId)
    requires rows <= t.Keys
  {
    id in rows && forall x :: x in rows ==> !Before(byPriority, t[x], t[id])
  }

  lemma {:induction false} SomeRowIsFirst(t: T.Table, rows: set<JobId>, byPriority: bool)
    requires rows <= t.Keys && rows != {}
    ensures exists id :: First(t, rows, byPriority, id)
  {
    var x :| x in rows;
    var rest := rows - {x};
    if rest == {} {
      assert rows == {x};
      assert First(t, rows, byPriority, x);
    } else {
      SomeRowIsFirst(t, rest, byPriority);
      var y :| First(t, rest, byPriority, y);
      assert First(t, rows, byPriority, if Before(byPriority, t[x], t[y]) then x else y);
    }
  }

  /** A PENDING job of the kinds than which none of them was created earlier. */
  ghost predicate Oldest(t: T.Table, kinds: set<Kind>, id: JobId) {
    && T.Hits(t, id, Pending) && (kinds == {} || t[id].kind in kinds)
    && forall x :: T.Hits(t, x, Pending) && (kinds == {} || t[x].kind in kinds) ==> t[id].createdAt <= t[x].createdAt
  }

  /** A PENDING job of the class than which none has a higher priority, nor the same one and an earlier creation. */
  ghost predicate Foremost(t: T.Table, r: Resource, id: JobId) {
    && T.Hits(t, id, Pending) && t[id].resource == r
    && forall x :: T.Hits(t, x, Pending) && t[x].resource == r ==>
         && t[id].priority >= t[x].priority
         && (t[id].priority == t[x].priority ==> t[id].createdAt <= t[x].createdAt)
  }

  /** The first row of claim()'s query is an oldest job, and the other way round. */
  lemma FirstIsOldest(t: T.Table, kinds: set<Kind>, id: JobId)
    ensures First(t, PendingOfKinds(t, kinds), false, id) <==> Oldest(t, kinds, id)
  {
    assert forall x :: x in PendingOfKinds(t, kinds) <==> T.Hits(t, x, Pending) && (kinds == {} || t[x].kind in kinds);
  }

  /** The first row of claim_priority()'s query is a foremost job, and the other way round. */
  lemma FirstIsForemost(t: T.Table, r: Resource, id: JobId)
    ensures First(t, PendingOf(t, r), true, id) <==> Foremost(t, r, id)
  {
    assert forall x :: x in PendingOf(t, r) <==> T.Hits(t, x, Pending) && t[x].resource == r;
  }

  /** PENDING rows of the given kinds; an empty list of kinds does not filter. */
  function PendingOfKinds(t: T.Table, kinds: set<Kind>): set<JobId> {
    set id | id in t && t[id].state == Pending && (kinds == {} || t[id].kind in kinds)
  }

  function PendingOf(t: T.Table, r: Resource): set<JobId> {
    set id | id in t && t[id].state == Pending && t[id].resource == r
  }

  function RunningOf(t: T.Table, r: Resource): set<JobId> {
    set id | id in t && t[id].state == Running && t[id].resource == r
  }

  function AllRunning(t: T.Table): set<JobId> {
    set id | id in t && t[id].state == Running
  }

  function ExpiredRows(t: T.Table, now: Time): set<JobId> {
    set id | id in t && T.Expired(t[id], now)
  }

  class JobStore {
    var jobs: T.Table
    var results: map<JobId, JobResult>

    constructor ()
      ensures jobs == map[] && results == map[]
    {
      jobs := map[];
      results := map[];
    }

    method Create(id: JobId, kind: Kind, payload: Payload, maxAttempts: int, resource: Resource,
                  priority: int, now: Time)
      returns (r: Result<Job, T.StoreError>)
      modifies this`jobs
      ensures id in old(jobs) ==> r == Err(T.DuplicateId) && jobs == old(jobs)
      ensures jobs == H.Apply(old(jobs), H.Submit(id, Job(kind, payload, Pending, 0, maxAttempts, None, resource,
                                                         priority, now, None)))
      ensures id !in old(jobs) ==>
                && r == Ok(Job(kind, payload, Pending, 0, maxAttempts, None, resource, priority, now, None))
                && jobs == old(jobs)[id := r.value]
    {
      if id in jobs {
        return Err(T.DuplicateId);
      }
      var job := Job(kind, payload, Pending, 0, maxAttempts, None, resource, priority, now, None);
      jobs := jobs[id := job];
      return Ok(job);
    }

    method Transition(id: JobId, to: JobState, error: Option<JobError>, bump: bool)
      returns (r: Result<Job, T.StoreError>)
      modifies this`jobs
      ensures match T.Transition(old(jobs), id, to, error, bump)
              case Ok(t) => jobs == t && r == Ok(t[id])
              case Err(e) => jobs == old(jobs) && r == Err(e)
    {
      if id !in jobs {
        return Err(T.NotFound);
      }
      var job := jobs[id];
      if !CanTransition(job.state, to) {
        return Err(T.IllegalEdge(job.state, to));
      }
      var attempts := job.attempts + if bump then 1 else 0;
      jobs := jobs[id := job.(state := to, attempts := attempts, error := error, lease := None)];
      return Ok(jobs[id]);
    }

    method UpdatePayload(id: JobId, payload: Payload) returns (r: Result<Job, T.StoreError>)
      modifies this`jobs
      ensures jobs == T.SetPayload(old(jobs), id, payload)
      ensures r == if id in old(jobs) then Ok(jobs[id]) else Err(T.NotFound)
    {
      if id !in jobs {
        return Err(T.NotFound);
      }
      jobs := jobs[id := jobs[id].(payload := payload)];
      return Ok(jobs[id]);
    }

    /** The oldest PENDING job of the given kinds, if there is one. */
    method Claim(kinds: set<Kind>, leaseSeconds: Time, now: Time) returns (claimed: Option<JobId>)
      modifies this`jobs
      ensures claimed == None <==> PendingOfKinds(old(jobs), kinds) == {}
      ensures claimed == None ==> jobs == old(jobs)
      ensures claimed.Some? ==>
                && First(old(jobs), PendingOfKinds(old(jobs), kinds), false, claimed.value)
                && jobs == T.Claim(old(jobs), claimed.value, now + leaseSeconds)
      ensures claimed.Some? ==> Oldest(old(jobs), kinds, claimed.value)
    {
      var rows := PendingOfKinds(jobs, kinds);
      if rows == {} {
        return None;
      }
      SomeRowIsFirst(jobs, rows, false);
      var id :| id in rows && First(jobs, rows, false, id);
      FirstIsOldest(jobs, kinds, id);
      jobs := jobs[id := jobs[id].(state := Running, lease := Some(now + leaseSeconds))];
      return Some(id);
    }

    /** The highest-priority PENDING job of the resource class; ties go to the oldest. */
    method ClaimPriority(resource: Resource, leaseSeconds: Time, now: Time) returns (claimed: Option<JobId>)
      modifies this`jobs
      ensures claimed == None <==> PendingOf(old(jobs), resource) == {}
      ensures claimed == None ==> jobs == old(jobs)
      ensures claimed.Some? ==>
                && First(old(jobs), PendingOf(old(jobs), resource), true, claimed.value)
                && jobs == T.Claim(old(jobs), claimed.value, now + leaseSeconds)
      ensures claimed.Some? ==> Foremost(old(jobs), resource, claimed.value)
    {
      var rows := PendingOf(jobs, resource);
      if rows == {} {
        return None;
      }
      SomeRowIsFirst(jobs, rows, true);
      var id :| id in rows && First(jobs, rows, true, id);
      FirstIsForemost(jobs, resource, id);
      jobs := jobs[id := jobs[id].(state := Running, lease := Some(now + leaseSeconds))];
      return Some(id);
    }

    method RenewLease(id: JobId, leaseSeconds: Time, now: Time) returns (r: Result<Job, T.StoreError>)
      modifies this`jobs
      ensures jobs == T.Renew(old(jobs), id, now + leaseSeconds)
      ensures r == if T.Hits(old(jobs), id, Running) then Ok(jobs[id]) else Err(T.LostRace)
    {
      if id !in jobs || jobs[id].state != Running {
        return Err(T.LostRace);
      }
      jobs := jobs[id := jobs[id].(lease := Some(now + leaseSeconds))];
      return Ok(jobs[id]);
    }

    method Complete(id: JobId) returns (r: Result<Job, T.StoreError>)
      modifies this`jobs
      ensures match T.Transition(old(jobs), id, Succeeded, None, false)
              case Ok(t) => jobs == t && r == Ok(t[id])
              case Err(e) => jobs == old(jobs) && r == Err(e)
    {
      r := Transition(id, Succeeded, None, false);
    }

    method Fail(id: JobId, error: JobError) returns (r: Result<Job, T.StoreError>)
      modifies this`jobs
      ensures match T.Fail(old(jobs), id, error)
              case Ok(t) => jobs == t && r == Ok(t[id])
              case Err(e) => jobs == old(jobs) && r == Err(e)
    {
      if id !in jobs {
        return Err(T.NotFound);
      }
      var job := jobs[id];
      var attempts := job.attempts + 1;
      var final := if attempts >= job.maxAttempts then DeadLetter else Pending;
      FailPathLegalIffRunning(job.state, T.Exhausted(job));
      if !CanTransition(job.state, Failed) {
        return Err(T.IllegalEdge(job.state, Failed));
      }
      jobs := jobs[id := job.(state := final, attempts := attempts, error := Some(error), lease := None)];
      return Ok(jobs[id]);
    }

    /** Fails every RUNNING job whose lease has run out; the selected rows go in any order. */
    method ReapExpired(now: Time) returns (reaped: seq<JobId>)
      modifies this`jobs
      ensures jobs == T.Reap(old(jobs), now)
      ensures forall id :: id in reaped <==> id in ExpiredRows(old(jobs), now)
      ensures Distinct(reaped)
    {
      var rows := ExpiredRows(jobs, now);
      ghost var before := jobs;
      reaped := [];
      while rows != {}
        invariant rows <= ExpiredRows(before, now)
        invariant forall id :: id in reaped <==> id in ExpiredRows(before, now) - rows
        invariant Distinct(reaped)
        invariant jobs.Keys == before.Keys
        invariant forall id :: id in before ==>
                    jobs[id] == if id in reaped then T.FailedJob(before[id], LeaseExpired) else before[id]
        decreases rows
      {
        var id :| id in rows;
        T.FailMeaning(jobs, id, LeaseExpired);
        var r := Fail(id, LeaseExpired);
        reaped := reaped + [id];
        rows := rows - {id};
      }
    }

    /** True exactly if the result is new; an existing result stays. */
    method RecordResult(id: JobId, result: JobResult) returns (isNew: bool)
      modifies this`results
      ensures isNew == (id !in old(results))
      ensures results == if id in old(results) then old(results) else old(results)[id := result]
    {
      isNew := id !in results;
      if isNew {
        results := results[id := result];
      }
    }

    predicate HasResult(id: JobId)
      reads this`results
    {
      id in results
    }
  }
}
