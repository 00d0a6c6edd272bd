/** One worker alone on the queue: a single run_once, and draining the queue. */
module Workers {
  import opened Basics
  import opened Jobs
  import opened JobStores
  import D = Drains
  import T = JobTable

  datatype Outcome = Returns(result: JobResult) | Raises(error: JobError)

  /** The job as run_once leaves it: claimed, then completed or failed. */
  function Finished(j: Job, recorded: bool, handled: bool, outcome: Outcome): Job {
    if recorded || (handled && outcome.Returns?) then j.(state := Succeeded, error := None, lease := None)
    else T.FailedJob(j, if handled then outcome.error else NoHandler(j.kind))
  }

  class Worker {
    const store: JobStore
    const handled: set<Kind>               // the kinds that have a handler
    const handler: (Job, nat) -> Outcome   // any behaviour: it may differ from call to call
    const leaseSeconds: Time
    var calls: nat                         // handler calls so far

    constructor (store: JobStore, handled: set<Kind>, handler: (Job, nat) -> Outcome, leaseSeconds: Time)
      ensures this.store == store && this.handled == handled && this.handler == handler
      ensures this.leaseSeconds == leaseSeconds && calls == 0
    {
      this.store := store;
      this.handled := handled;
      this.handler := handler;
      this.leaseSeconds := leaseSeconds;
      calls := 0;
    }

    /** The job as the handler sees it. */
    function AsClaimed(j: Job, now: Time): Job {
      j.(state := Running, lease := Some(now + leaseSeconds))
    }

    /** One run_once that claimed the job: its effect on the queue, the ledger and the handler calls. */
    ghost predicate Ran(kinds: set<Kind>, now: Time, id: JobId, t: T.Table, results: map<JobId, JobResult>, n: nat,
                        t': T.Table, results': map<JobId, JobResult>, n': nat)
    {
      && First(t, PendingOfKinds(t, kinds), false, id)
      && var recorded, handles := id in results, t[id].kind in handled;
      && var outcome := handler(AsClaimed(t[id], now), n);
      && t' == t[id := Finished(t[id], recorded, handles, outcome)]
      && results' == (if !recorded && handles && outcome.Returns? then results[id := outcome.result] else results)
      && n' == n + (if !recorded && handles then 1 else 0)
    }

    method RunOnce(kinds: set<Kind>, now: Time) returns (claimed: Option<JobId>)
      modifies store, this`calls
      ensures claimed == None <==> PendingOfKinds(old(store.jobs), kinds) == {}
      ensures claimed == None ==>
                store.jobs == old(store.jobs) && store.results == old(store.results) && calls == old(calls)
      ensures claimed.Some? ==>
                Ran(kinds, now, claimed.value, old(store.jobs), old(store.results), old(calls),
                    store.jobs, store.results, calls)
    {
      ghost var t := store.jobs;
      claimed := store.Claim(kinds, leaseSeconds, now);
      if claimed == None {
        return;
      }
      var id := claimed.value;
      var job := store.jobs[id];
      assert job == AsClaimed(t[id], now);
      if store.HasResult(id) {
        var r := store.Complete(id);
        return;
      }
      T.FailMeaning(store.jobs, id, NoHandler(job.kind));
      if job.kind !in handled {
        var r := store.Fail(id, NoHandler(job.kind));
        return;
      }
      var outcome := handler(job, calls);
      calls := calls + 1;
      match outcome
      case Returns(result) =>
        var isNew := store.RecordResult(id, result);
        var r := store.Complete(id);
      case Raises(error) =>
        T.FailMeaning(store.jobs, id, error);
        var r := store.Fail(id, error);
    }

    lemma RanAdvances(kinds: set<Kind>, now: Time, id: JobId, t: T.Table, results: map<JobId, JobResult>, n: nat,
                      t': T.Table, results': map<JobId, JobResult>, n': nat)
      requires Ran(kinds, now, id, t, results, n, t', results', n')
      ensures Advance(t, t', kinds, id)
      ensures Total(D.Ranks(t')) < Total(D.Ranks(t))
      ensures Keeps(results, results')
      ensures t'[id].state == Succeeded ==> id in results'
    {
      var outcome := handler(AsClaimed(t[id], now), n);
      assert t' == t[id := Finished(t[id], id in results, t[id].kind in handled, outcome)];
      RankDrops(t, t', kinds, id);
    }

    /**
     run_forever with drain_and_exit: it ends, whatever the handlers do, with nothing left
     to claim. claims counts how often each job was claimed.
     */
    method Drain(kinds: set<Kind>, clock: nat -> Time) returns (ghost claims: multiset<JobId>)
      modifies store, this`calls
      ensures PendingOfKinds(store.jobs, kinds) == {}
      ensures Progress(old(store.jobs), store.jobs, store.results, kinds, claims)
      ensures Keeps(old(store.results), store.results)
    {
      hide *;
      ghost var t0 := store.jobs;
      claims := multiset{};
      var tick := 0;
      NoProgressYet(t0, store.results, kinds);
      while true
        invariant Progress(t0, store.jobs, store.results, kinds, claims)
        invariant Keeps(old(store.results), store.results)
        decreases Total(D.Ranks(store.jobs))
      {
        ghost var t, results, n := store.jobs, store.results, calls;
        var claimed := RunOnce(kinds, clock(tick));
        if claimed == None {
          return;
        }
        RanAdvances(kinds, clock(tick), claimed.value, t, results, n, store.jobs, store.results, calls);
        KeepsOn(old(store.results), results, store.results);
        tick := tick + 1;
        ClaimMakesProgress(t0, t, results, store.jobs, store.results, kinds, claims, claimed.value);
        claims := claims + multiset{claimed.value};
      }
    }
  }

  /**
   How far a drain has come: every job that was waiting is still waiting, or SUCCEEDED
   with a recorded result, or DEAD_LETTER, with its claims accounted for; no other job
   was claimed or changed.
   */
  ghost predicate Progress(t0: T.Table, t: T.Table, results: map<JobId, JobResult>, kinds: set<Kind>,
                           claims: multiset<JobId>)
  {
    && t.Keys == t0.Keys
    && (forall id :: id in PendingOfKinds(t0, kinds) ==> OnItsWay(t0[id], t[id], claims[id], id in results))
    && (forall id :: id in t0 && id !in PendingOfKinds(t0, kinds) ==> t[id] == t0[id] && claims[id] == 0)
  }

  /** A job that was waiting, n claims later. */
  predicate OnItsWay(before: Job, after: Job, n: nat, hasResult: bool) {
    && after.state in {Pending, Succeeded, DeadLetter}
    && (after.state == Succeeded ==> hasResult)
    && Accounted(before, after, n)
  }

  lemma NoProgressYet(t: T.Table, results: map<JobId, JobResult>, kinds: set<Kind>)
    ensures Progress(t, t, results, kinds, multiset{})
    ensures Keeps(results, results)
  {
  }

  lemma ClaimMakesProgress(t0: T.Table, t: T.Table, results: map<JobId, JobResult>, t': T.Table,
                           results': map<JobId, JobResult>, kinds: set<Kind>, claims: multiset<JobId>, id: JobId)
    requires Advance(t, t', kinds, id)
    requires Keeps(results, results')
    requires t'[id].state == Succeeded ==> id in results'
    requires Progress(t0, t, results, kinds, claims)
    ensures Progress(t0, t', results', kinds, claims + multiset{id})
  {
    var waiting, claims' := PendingOfKinds(t0, kinds), claims + multiset{id};
    assert id in waiting && id in t;
    assert forall x :: claims'[x] == claims[x] + One(x == id);
    OneMoreClaim(t, t', kinds, id, t0[id], claims[id], id in results');
    assert forall x :: x in t && x != id ==> x in t' && t'[x] == t[x];
    hide PendingOfKinds, Finished, Accounted, Advance, OnItsWay;
    forall x | x in waiting ensures OnItsWay(t0[x], t'[x], claims'[x], x in results') {
      if x != id {
        StillOnItsWay(t0[x], t[x], claims[x], x in results, x in results');
      }
    }
  }

  lemma StillOnItsWay(before: Job, after: Job, n: nat, hasResult: bool, hasResult': bool)
    requires OnItsWay(before, after, n, hasResult) && (hasResult ==> hasResult')
    ensures OnItsWay(before, after, n, hasResult')
  {
  }

  lemma OneMoreClaim(t: T.Table, t': T.Table, kinds: set<Kind>, id: JobId, before: Job, n: nat, hasResult: bool)
    requires Advance(t, t', kinds, id)
    requires Accounted(before, t[id], n) && (t'[id].state == Succeeded ==> hasResult)
    ensures OnItsWay(before, t'[id], n + 1, hasResult)
    ensures t'.Keys == t.Keys
  {
  }

  /** What is left of a drained job: it ended, within its budget of claims. */
  lemma DrainedJobsEnded(t0: T.Table, t: T.Table, results: map<JobId, JobResult>, kinds: set<Kind>,
                         claims: multiset<JobId>, id: JobId)
    requires Progress(t0, t, results, kinds, claims) && PendingOfKinds(t, kinds) == {}
    requires id in PendingOfKinds(t0, kinds)
    ensures t[id].state in {Succeeded, DeadLetter}
    ensures t[id].state == Succeeded ==> id in results
    ensures claims[id] <= Max(1, t0[id].maxAttempts - t0[id].attempts)
    ensures t[id].state == DeadLetter ==> claims[id] == Max(1, t0[id].maxAttempts - t0[id].attempts)
  {
    assert Accounted(t0[id], t[id], claims[id]);
    assert id !in PendingOfKinds(t, kinds);
  }

  /** A recorded result is neither lost nor changed. */
  predicate Keeps(results: map<JobId, JobResult>, results': map<JobId, JobResult>) {
    forall id :: id in results ==> id in results' && results'[id] == results[id]
  }

  lemma KeepsOn(a: map<JobId, JobResult>, b: map<JobId, JobResult>, c: map<JobId, JobResult>)
    requires Keeps(a, b) && Keeps(b, c)
    ensures Keeps(a, c)
  {
  }

  /** One waiting job was claimed and finished, in whatever way. */
  ghost predicate Advance(t: T.Table, t': T.Table, kinds: set<Kind>, id: JobId) {
    && id in PendingOfKinds(t, kinds)
    && exists recorded, handled, outcome :: t' == t[id := Finished(t[id], recorded, handled, outcome)]
  }

  /** A waiting job and the same job n claims later, counted against its attempts. */
  predicate Accounted(before: Job, after: Job, n: nat) {
    var bound := Max(1, before.maxAttempts - before.attempts);
    && after.kind == before.kind && after.maxAttempts == before.maxAttempts
    && n == after.attempts - before.attempts + (if after.state == Succeeded then 1 else 0)
    && n <= bound
    && (after.state == Pending ==> n < bound)
    && (after.state == DeadLetter ==> n == bound)
  }

  /** Every claim, however it ends, lowers the rank of the queue. */
  lemma RankDrops(t: T.Table, t': T.Table, kinds: set<Kind>, id: JobId)
    requires Advance(t, t', kinds, id)
    ensures Total(D.Ranks(t')) < Total(D.Ranks(t))
  {
    assert D.Rank(t'[id]) < D.Rank(t[id]);
    assert forall x :: x in t && x != id ==> t'[x] == t[x];
    hide D.Rank;
    D.TotalPays(D.Ranks(t), D.Ranks(t'), {id});
  }

  /** What a claimed job's run_once comes to, case by case. */
  ghost predicate EndedWell(j: Job, j': Job) {
    && j'.state == Succeeded && j'.error == None && j'.lease == None
    && j'.attempts == j.attempts && j'.payload == j.payload && j'.maxAttempts == j.maxAttempts
  }

  ghost predicate EndedBadly(j: Job, j': Job, error: JobError) {
    && j'.state == (if j.attempts + 1 >= j.maxAttempts then DeadLetter else Pending)
    && j'.error == Some(error) && j'.lease == None
    && j'.attempts == j.attempts + 1 && j'.payload == j.payload && j'.maxAttempts == j.maxAttempts
  }

  /**
   One run_once: an oldest job is taken; a recorded result completes it without a handler call,
   a kind without handler fails it, and otherwise one handler call decides and is recorded.
   */
  lemma RunOnceMeaning(w: Worker, kinds: set<Kind>, now: Time, id: JobId, t: T.Table, results: map<JobId, JobResult>,
                       n: nat, t': T.Table, results': map<JobId, JobResult>, n': nat)
    requires w.Ran(kinds, now, id, t, results, n, t', results', n')
    ensures Oldest(t, kinds, id) && t'.Keys == t.Keys && forall x :: x in t && x != id ==> t'[x] == t[x]
    ensures id in results ==> EndedWell(t[id], t'[id]) && results' == results && n' == n
    ensures id !in results && t[id].kind !in w.handled ==>
              EndedBadly(t[id], t'[id], NoHandler(t[id].kind)) && results' == results && n' == n
    ensures id !in results && t[id].kind in w.handled ==>
              var seen := t[id].(state := Running, lease := Some(now + w.leaseSeconds));
              && n' == n + 1
              && match w.handler(seen, n)
                 case Returns(result) => EndedWell(t[id], t'[id]) && results' == results[id := result]
                 case Raises(error) => EndedBadly(t[id], t'[id], error) && results' == results
  {
    FirstIsOldest(t, kinds, id);
  }
}
