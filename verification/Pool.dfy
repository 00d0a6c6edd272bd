/**
 A pool of workers draining one queue: each claims, finishes what it claimed, and leaves
 once it finds nothing to claim. No job is submitted, moved or reaped meanwhile, so each
 claim and each finish acts on a row that nobody else touches and counts as one step.
 */
module Pool {
  import opened Basics
  import opened Jobs
  import opened JobTable
  import opened JobStores
  import D = Drains
  import W = Workers

  type WorkerId = nat

  datatype State = State(jobs: Table, active: set<WorkerId>, held: map<WorkerId, JobId>)

  datatype Event =
    | Take(w: WorkerId, id: JobId, lease: Time)
    | Finish(w: WorkerId, recorded: bool, handled: bool, outcome: W.Outcome)
    | Leave(w: WorkerId)

  predicate Enabled(kinds: set<Kind>, s: State, e: Event) {
    && e.w in s.active
    && match e
       case Take(w, id, _) => w !in s.held && id in PendingOfKinds(s.jobs, kinds)
       case Finish(w, _, _, _) => w in s.held && s.held[w] in s.jobs
       case Leave(w) => w !in s.held && PendingOfKinds(s.jobs, kinds) == {}
  }

  function Next(kinds: set<Kind>, s: State, e: Event): State
    requires Enabled(kinds, s, e)
  {
    match e
    case Take(w, id, lease) => s.(jobs := Claim(s.jobs, id, lease), held := s.held[w := id])
    case Finish(w, recorded, handled, outcome) =>
      var id := s.held[w];
      s.(jobs := s.jobs[id := W.Finished(s.jobs[id], recorded, handled, outcome)], held := s.held - {w})
    case Leave(w) => s.(active := s.active - {w})
  }

  predicate PoolRun(kinds: set<Kind>, s: State, es: seq<Event>)
    decreases |es|
  {
    es == [] || (Enabled(kinds, s, es[0]) && PoolRun(kinds, Next(kinds, s, es[0]), es[1..]))
  }

  function Final(kinds: set<Kind>, s: State, es: seq<Event>): State
    requires PoolRun(kinds, s, es)
    decreases |es|
  {
    if es == [] then s else Final(kinds, Next(kinds, s, es[0]), es[1..])
  }

  /** Each worker that holds a job has it RUNNING, for itself alone. */
  ghost predicate Holds(s: State) {
    && s.held.Keys <= s.active
    && (forall w :: w in s.held ==> Hits(s.jobs, s.held[w], Running))
    && (forall v, w :: v in s.held && w in s.held && v != w ==> s.held[v] != s.held[w])
  }

  ghost predicate IsHeld(s: State, id: JobId) {
    exists w :: w in s.held && s.held[w] == id
  }

  /** A job of the pool waits while a worker is there to take it, is held, or has ended. */
  ghost predicate Placed(s: State, id: JobId) {
    && id in s.jobs
    && match s.jobs[id].state
       case Pending => s.active != {}
       case Running => IsHeld(s, id)
       case Succeeded => true
       case DeadLetter => true
       case _ => false
  }

  ghost predicate Placing(kinds: set<Kind>, s: State, mine: set<JobId>) {
    && Holds(s)
    && forall id :: id in mine ==> Placed(s, id) && (kinds == {} || s.jobs[id].kind in kinds)
  }

  lemma StepKeepsPlacing(kinds: set<Kind>, s: State, e: Event, mine: set<JobId>)
    requires Placing(kinds, s, mine) && Enabled(kinds, s, e)
    ensures Placing(kinds, Next(kinds, s, e), mine)
  {
    var s' := Next(kinds, s, e);
    assert Holds(s');
    forall id | id in mine ensures Placed(s', id) && s'.jobs[id].kind == s.jobs[id].kind {
      if IsHeld(s, id) {
        var w :| w in s.held && s.held[w] == id;
        assert w == e.w || (w in s'.held && s'.held[w] == id);
      }
      if e.Take? && e.id == id {
        assert s'.held[e.w] == id;
      }
      assert s.jobs[id].state == Pending ==> id in PendingOfKinds(s.jobs, kinds);
    }
  }

  ghost function Measure(s: State): nat {
    Total(D.Ranks(s.jobs)) + |s.active|
  }

  lemma StepLowersMeasure(kinds: set<Kind>, s: State, e: Event)
    requires Holds(s) && Enabled(kinds, s, e)
    ensures Measure(Next(kinds, s, e)) < Measure(s)
  {
    var s' := Next(kinds, s, e);
    if e.Leave? {
      assert s.active == s'.active + {e.w};
    } else {
      var id := if e.Take? then e.id else s.held[e.w];
      assert D.Rank(s'.jobs[id]) < D.Rank(s.jobs[id]);
      hide D.Rank;
      D.TotalPays(D.Ranks(s.jobs), D.Ranks(s'.jobs), {id});
    }
  }

  /** However the workers interleave and whatever their handlers do, the pool ends. */
  lemma {:induction false} PoolEnds(kinds: set<Kind>, s: State, es: seq<Event>, mine: set<JobId>)
    requires Placing(kinds, s, mine) && PoolRun(kinds, s, es)
    ensures |es| + Measure(Final(kinds, s, es)) <= Measure(s)
    ensures Placing(kinds, Final(kinds, s, es), mine)
    decreases |es|
  {
    if es != [] {
      StepKeepsPlacing(kinds, s, es[0], mine);
      StepLowersMeasure(kinds, s, es[0]);
      PoolEnds(kinds, Next(kinds, s, es[0]), es[1..], mine);
    }
  }

  /** As long as a worker is left, some step is possible. */
  lemma PoolIsNeverStuck(kinds: set<Kind>, s: State, w: WorkerId)
    requires Holds(s) && w in s.active
    ensures exists e :: Enabled(kinds, s, e) && e.w == w
  {
    if w in s.held {
      assert Enabled(kinds, s, Finish(w, true, true, W.Returns([])));
    } else if id :| id in PendingOfKinds(s.jobs, kinds) {
      assert Enabled(kinds, s, Take(w, id, 0));
    } else {
      assert Enabled(kinds, s, Leave(w));
    }
  }

  /**
   A pool that starts with a worker at least, and has run until no step is possible, has
   brought every job that was waiting to SUCCEEDED or DEAD_LETTER.
   */
  lemma PoolDrains(kinds: set<Kind>, t: Table, workers: set<WorkerId>, es: seq<Event>, id: JobId)
    requires workers != {} && PoolRun(kinds, State(t, workers, map[]), es)
    requires forall e :: !Enabled(kinds, Final(kinds, State(t, workers, map[]), es), e)
    requires id in PendingOfKinds(t, kinds)
    ensures var end := Final(kinds, State(t, workers, map[]), es);
            end.active == {} && id in end.jobs && end.jobs[id].state in {Succeeded, DeadLetter}
  {
    var s := State(t, workers, map[]);
    assert Placing(kinds, s, PendingOfKinds(t, kinds));
    PoolEnds(kinds, s, es, PendingOfKinds(t, kinds));
    var end := Final(kinds, s, es);
    if w :| w in end.active {
      PoolIsNeverStuck(kinds, end, w);
      assert false;
    }
    assert Placed(end, id);
  }
}
