/**
 Draining the queue with any number of workers and reapers: every operation that changes
 a row uses up some of a finite rank, so claims and failures cannot go on for ever.
 */
module Drains {
  import opened Basics
  import opened Jobs
  import opened JobTable
  import opened Histories

  function TriesLeft(j: Job): nat {
    Max(1, j.maxAttempts - j.attempts)
  }

  /** How often the job can still be claimed. */
  function ClaimsLeft(j: Job): nat {
    match j.state
    case Pending => TriesLeft(j)
    case Running => TriesLeft(j) - 1
    case _ => 0
  }

  /** A claim and the failure after it for every try that is left. */
  function Rank(j: Job): nat {
    match j.state
    case Pending => 2 * TriesLeft(j)
    case Running => 2 * TriesLeft(j) - 1
    case Paused => 1
    case _ => 0
  }

  /** What workers, reapers and recovery do, and cancelling; nobody submits, pauses or moves jobs back. */
  predicate Draining(e: Event) {
    && !e.Submit?
    && (e.Move? ==> e.to in {Succeeded, Cancelled})
  }

  /** The rows whose state the event changes. */
  function Changed(t: Table, e: Event): set<JobId> {
    set id | id in t && id in Apply(t, e) && Apply(t, e)[id].state != t[id].state
  }

  predicate WonClaim(t: Table, e: Event, id: JobId) {
    e.ClaimOf? && e.id == id && Hits(t, id, Pending)
  }

  /** The event lowers the job's rank exactly if it changes its state, and adds no claim. */
  ghost predicate LowersRank(t: Table, e: Event, id: JobId)
    requires id in t
  {
    && Apply(t, e).Keys == t.Keys
    && (id in Changed(t, e) ==> Rank(Apply(t, e)[id]) < Rank(t[id]))
    && (id !in Changed(t, e) ==> Rank(Apply(t, e)[id]) == Rank(t[id]))
    && ClaimsLeft(Apply(t, e)[id]) <= ClaimsLeft(t[id])
  }

  /** Whatever changes a row's state lowers its rank; a won claim uses up one of the claims left. */
  lemma EventLowersRank(t: Table, e: Event, id: JobId)
    requires id in t && Draining(e)
    ensures LowersRank(t, e, id)
    ensures ClaimsLeft(Apply(t, e)[id]) + One(WonClaim(t, e, id)) <= ClaimsLeft(t[id])
  {
    match e
    case FailOf(i, error) => FailLowersRank(t, i, error, id);
    case ReapAt(now) => ReapLowersRank(t, now, id);
    case DeadLetterNow(i, error) => DeadLetterLowersRank(t, i, error, id);
    case _ =>
      hide TriesLeft;
  }

  /** A failure leaves a try less, and the claim that it ended is not counted again. */
  lemma FailedRank(j: Job, error: JobError)
    requires j.state == Running
    ensures FailedJob(j, error).state != Running
    ensures Rank(FailedJob(j, error)) < Rank(j) && ClaimsLeft(FailedJob(j, error)) <= ClaimsLeft(j)
  {
  }

  lemma FailLowersRank(t: Table, i: JobId, error: JobError, id: JobId)
    requires id in t
    ensures LowersRank(t, FailOf(i, error), id)
  {
    FailMeaning(t, i, error);
    if Hits(t, i, Running) {
      FailedRank(t[i], error);
    }
    hide Rank, ClaimsLeft, FailedJob, Fail;
  }

  lemma ReapLowersRank(t: Table, now: Time, id: JobId)
    requires id in t
    ensures LowersRank(t, ReapAt(now), id)
  {
    if Expired(t[id], now) {
      FailedRank(t[id], LeaseExpired);
    }
    hide Rank, ClaimsLeft, FailedJob;
  }

  lemma DeadLetterLowersRank(t: Table, i: JobId, error: JobError, id: JobId)
    requires id in t
    ensures LowersRank(t, DeadLetterNow(i, error), id)
  {
    hide TriesLeft;
    assert i in t && t[i].state != Running ==> Apply(t, DeadLetterNow(i, error)) == t;
  }

  function Ranks(t: Table): map<JobId, nat> {
    map id | id in t :: Rank(t[id])
  }

  /** Every row change costs the table at least one unit of rank. */
  lemma ChangesArePaid(t: Table, e: Event)
    requires Draining(e)
    ensures Total(Ranks(Apply(t, e))) + |Changed(t, e)| <= Total(Ranks(t))
  {
    var t' := Apply(t, e);
    assert t'.Keys == t.Keys by {
      if id :| id in t { EventLowersRank(t, e, id); } else { assert t == map[]; }
    }
    forall id | id in t
      ensures Rank(t'[id]) + One(id in Changed(t, e)) <= Rank(t[id])
    {
      EventLowersRank(t, e, id);
    }
    hide Apply, Rank, Changed;
    TotalPays(Ranks(t), Ranks(t'), Changed(t, e));
  }

  /** A sum that drops by one at least at each of the given keys, and rises nowhere. */
  lemma {:induction false} TotalPays(m: map<JobId, nat>, m': map<JobId, nat>, drops: set<JobId>)
    requires m'.Keys == m.Keys && drops <= m.Keys
    requires forall k :: k in m ==> m'[k] + One(k in drops) <= m[k]
    ensures Total(m') + |drops| <= Total(m)
    decreases |m|
  {
    if m == map[] {
      assert drops == {} && m' == map[];
    } else {
      var k :| k in m;
      TotalRemove(m, k);
      TotalRemove(m', k);
      RemoveShrinks(m, k);
      TotalPays(m - {k}, m' - {k}, drops - {k});
      if k in drops {
        assert drops == drops - {k} + {k};
      } else {
        assert drops - {k} == drops;
      }
    }
  }

  /** How many row changes the events make in all. */
  function RowChanges(t: Table, es: seq<Event>): nat
    decreases |es|
  {
    if es == [] then 0 else |Changed(t, es[0])| + RowChanges(Apply(t, es[0]), es[1..])
  }

  function ClaimsOf(t: Table, es: seq<Event>, id: JobId): nat
    decreases |es|
  {
    if es == [] then 0 else One(WonClaim(t, es[0], id)) + ClaimsOf(Apply(t, es[0]), es[1..], id)
  }

  /** Any number of workers and reapers, in any order: claims, completions, failures and reaps come to an end. */
  lemma {:induction false} DrainingIsBounded(t: Table, es: seq<Event>)
    requires forall k :: 0 <= k < |es| ==> Draining(es[k])
    ensures Total(Ranks(Replay(t, es))) + RowChanges(t, es) <= Total(Ranks(t))
    decreases |es|
  {
    if es != [] {
      ChangesArePaid(t, es[0]);
      DrainingIsBounded(Apply(t, es[0]), es[1..]);
    }
  }

  /** No job is claimed more often than it has tries left, whoever claims and reaps. */
  lemma {:induction false} ClaimsAreBounded(t: Table, es: seq<Event>, id: JobId)
    requires id in t && forall k :: 0 <= k < |es| ==> Draining(es[k])
    ensures id in Replay(t, es)
    ensures ClaimsLeft(Replay(t, es)[id]) + ClaimsOf(t, es, id) <= ClaimsLeft(t[id])
    decreases |es|
  {
    if es != [] {
      EventLowersRank(t, es[0], id);
      ClaimsAreBounded(Apply(t, es[0]), es[1..], id);
    }
  }
}
