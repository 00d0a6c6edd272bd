/**
 Who can end a claim. Leases name no owner, so whether a RUNNING job is its worker's
 alone depends on what other processes still remember of it.
 */
module Ownership {
  import opened Basics
  import opened Jobs
  import opened JobTable
  import opened Protocol

  /** The row may become RUNNING yet. */
  predicate Alive(t: Table, id: JobId) {
    id in t ==> t[id].state !in TERMINAL
  }

  /** A reaper may get to the row: it gives up at the first row before it that is not RUNNING. */
  predicate Reaches(t: Table, ids: seq<JobId>, id: JobId)
    decreases |ids|
  {
    ids != [] && (ids[0] == id || (Alive(t, ids[0]) && Reaches(t, ids[1..], id)))
  }

  /** The process, on what it knows already, may take the RUNNING job out of RUNNING. */
  predicate CanRelease(t: Table, proc: Proc, id: JobId) {
    match proc
    case Holding(i) => i == id
    case Handling(i) => i == id
    case Recording(i, _) => i == id
    case Finishing(i, _) => i == id
    case Failing(i, _) => i == id
    case Reaping(ids) => Reaches(t, ids, id)
    case Writing(i, w, why) =>
      if i == id then w.from == Running
      else why.ReapRow? && Alive(t, i) && Reaches(t, why.rest, id)
    case _ => false
  }

  /** What the programs guarantee of the writes they prepare and the lists they keep. */
  predicate Sane(proc: Proc) {
    match proc
    case Reaping(ids) => Distinct(ids)
    case Writing(i, w, why) =>
      && (why.ReapRow? ==> w.from == Running && i !in why.rest && Distinct(why.rest))
      && (why.WorkerComplete? ==> w.from == Running)
    case _ => true
  }

  ghost predicate WellFormed(s: State) {
    WritesLegal(s) && forall p :: Sane(At(s, p))
  }

  /** The action starts an operation on the job, or a reap that selected it. */
  predicate Starts(a: Action, id: JobId) {
    a.By? &&
    match a.c
    case BeginTransition(i, _, _, _) => i == id
    case BeginFail(i, _) => i == id
    case BeginDeadLetterNow(i, _) => i == id
    case QueryReap(ids, _) => id in ids
    case _ => false
  }

  /** Somebody other than p turns to the job. */
  predicate TurnsTo(a: Action, p: Pid, id: JobId) {
    Starts(a, id) && a.p != p
  }

  /** The process may try to claim the job. */
  predicate Candidate(proc: Proc, id: JobId) {
    proc.Claiming? && id in proc.cands
  }

  ghost predicate Sole(s: State, p: Pid, id: JobId) {
    forall q :: q != p ==> !CanRelease(s.jobs, At(s, q), id)
  }

  /** Nobody but p turns to the job, and yet the first commit that ends its claim is not p's. */
  predicate Steals(s: State, acts: seq<Action>, p: Pid, id: JobId)
    decreases |acts|
  {
    && acts != []
    && !TurnsTo(acts[0], p, id)
    && if Releases(s, acts[0], id) then acts[0].p != p else Steals(Do(s, acts[0]), acts[1..], p, id)
  }

  ghost predicate Stealable(s: State, p: Pid, id: JobId) {
    exists acts :: Steals(s, acts, p, id)
  }

  // ------------------------------------------------------------ the programs keep their promises

  lemma StepKeepsWellFormed(s: State, a: Action)
    requires WellFormed(s)
    ensures WellFormed(Do(s, a))
  {
    StepLegal(s, a);
    NextAt(s, a);
    if a.By? {
      SaneNext(s, a);
    }
  }

  lemma SaneNext(s: State, a: Action)
    requires a.By? && Sane(At(s, a.p))
    ensures Sane(NextProc(s, a))
  {
    var proc := At(s, a.p);
    if a.c.BeginReapRow? && proc.Reaping? && proc.ids != [] {
      PlansAreLegal(s.jobs, proc.ids[0], Failed, None, false, LeaseExpired);
      assert proc.ids[0] !in proc.ids[1..];
    }
  }

  /** All runs from a state in which every process is idle are well formed. */
  lemma {:induction false} RunKeepsWellFormed(s: State, acts: seq<Action>)
    requires WellFormed(s)
    ensures WellFormed(Run(s, acts))
    decreases |acts|
  {
    if acts != [] {
      StepKeepsWellFormed(s, acts[0]);
      RunKeepsWellFormed(Do(s, acts[0]), acts[1..]);
    }
  }

  // ------------------------------------------------------------ alone, the owner alone ends its claim

  lemma {:induction false} ReachesIn(t: Table, ids: seq<JobId>, id: JobId)
    requires Reaches(t, ids, id)
    ensures id in ids
    decreases |ids|
  {
    if ids[0] != id {
      ReachesIn(t, ids[1..], id);
    }
  }

  /** Rows only die, so a reaper only loses reach. */
  lemma {:induction false} ReachShrinks(t: Table, t': Table, ids: seq<JobId>, id: JobId)
    requires forall x :: x in ids && Alive(t', x) ==> Alive(t, x)
    requires Reaches(t', ids, id)
    ensures Reaches(t, ids, id)
    decreases |ids|
  {
    if ids[0] != id {
      assert forall x :: x in ids[1..] ==> x in ids;
      assert ids[0] in ids;
      ReachShrinks(t, t', ids[1..], id);
    }
  }

  lemma DeadStaysDead(s: State, a: Action, x: JobId)
    requires WritesLegal(s)
    ensures Alive(Do(s, a).jobs, x) ==> Alive(s.jobs, x)
  {
    if !Alive(s.jobs, x) {
      StepFreezesTerminal(s, a, x);
    }
  }

  lemma CanReleaseShrinks(s: State, a: Action, proc: Proc, id: JobId)
    requires WritesLegal(s) && CanRelease(Do(s, a).jobs, proc, id)
    ensures CanRelease(s.jobs, proc, id)
  {
    forall x ensures Alive(Do(s, a).jobs, x) ==> Alive(s.jobs, x) {
      DeadStaysDead(s, a, x);
    }
    hide Do, Alive, WritesLegal;
    if proc.Reaping? {
      ReachShrinks(s.jobs, Do(s, a).jobs, proc.ids, id);
    } else if proc.Writing? && proc.id != id {
      ReachShrinks(s.jobs, Do(s, a).jobs, proc.why.rest, id);
    }
  }

  /** A process that cannot release the job and does not turn to it still cannot after its step. */
  lemma OwnStepKeepsOff(s: State, q: Pid, c: Command, id: JobId)
    requires WellFormed(s)
    requires Hits(s.jobs, id, Running) || !Candidate(At(s, q), id)
    requires !CanRelease(s.jobs, At(s, q), id) && !Starts(By(q, c), id)
    ensures !CanRelease(s.jobs, NextProc(s, By(q, c)), id)
  {
    var proc := At(s, q);
    assert Sane(proc);
    if c.QueryReap? && Reaches(s.jobs, c.ids, id) {
      ReachesIn(s.jobs, c.ids, id);
    }
    if c.BeginReapRow? && proc.Reaping? && proc.ids != [] {
      PlansAreLegal(s.jobs, proc.ids[0], Failed, None, false, LeaseExpired);
    }
  }

  lemma SoleStep(s: State, a: Action, p: Pid, id: JobId)
    requires WellFormed(s) && Hits(s.jobs, id, Running) && Sole(s, p, id) && !TurnsTo(a, p, id)
    ensures Releases(s, a, id) ==> a.p == p
    ensures !Releases(s, a, id) ==> Hits(Do(s, a).jobs, id, Running) && Sole(Do(s, a), p, id)
  {
    if Releases(s, a, id) {
      assert CanRelease(s.jobs, At(s, a.p), id);
    } else {
      assert Hits(Do(s, a).jobs, id, Running);
      NextAt(s, a);
      forall q | q != p ensures !CanRelease(Do(s, a).jobs, At(Do(s, a), q), id) {
        if a.By? && a.p == q {
          OwnStepKeepsOff(s, q, a.c, id);
        }
        if CanRelease(Do(s, a).jobs, At(Do(s, a), q), id) {
          CanReleaseShrinks(s, a, At(Do(s, a), q), id);
        }
      }
    }
  }

  lemma {:induction false} SoleIsSafe(s: State, acts: seq<Action>, p: Pid, id: JobId)
    requires WellFormed(s) && Hits(s.jobs, id, Running) && Sole(s, p, id)
    ensures !Steals(s, acts, p, id)
    decreases |acts|
  {
    if acts != [] && !TurnsTo(acts[0], p, id) {
      SoleStep(s, acts[0], p, id);
      StepKeepsWellFormed(s, acts[0]);
      if !Releases(s, acts[0], id) {
        SoleIsSafe(Do(s, acts[0]), acts[1..], p, id);
      }
    }
  }

  /** Nobody but p refers to the job, nor is about to claim it. */
  ghost predicate Aloof(s: State, p: Pid, id: JobId) {
    Sole(s, p, id) && forall q :: q != p ==> !Candidate(At(s, q), id)
  }

  predicate TriesToClaim(a: Action, p: Pid, id: JobId) {
    a.By? && a.p != p && a.c.QueryClaim? && id in a.c.cands
  }

  lemma AloofStep(s: State, a: Action, p: Pid, id: JobId)
    requires WellFormed(s) && Aloof(s, p, id) && !TurnsTo(a, p, id) && !TriesToClaim(a, p, id)
    ensures Releases(s, a, id) ==> a.p == p
    ensures Aloof(Do(s, a), p, id)
  {
    NextAt(s, a);
    assert Releases(s, a, id) ==> CanRelease(s.jobs, At(s, a.p), id);
    forall q | q != p ensures !CanRelease(Do(s, a).jobs, At(Do(s, a), q), id) {
      if a.By? && a.p == q {
        OwnStepKeepsOff(s, q, a.c, id);
      }
      if CanRelease(Do(s, a).jobs, At(Do(s, a), q), id) {
        CanReleaseShrinks(s, a, At(Do(s, a), q), id);
      }
    }
  }

  /**
   Over whole runs: if at first nobody but p refers to the job, and nobody else turns to it
   or claims it later, then every commit that takes it out of RUNNING is p's.
   */
  lemma {:induction false} EveryReleaseIsTheOwners(s: State, acts: seq<Action>, p: Pid, id: JobId, k: nat)
    requires WellFormed(s) && Aloof(s, p, id) && k < |acts|
    requires forall j :: 0 <= j < |acts| ==> !TurnsTo(acts[j], p, id) && !TriesToClaim(acts[j], p, id)
    requires Releases(Run(s, acts[..k]), acts[k], id)
    ensures acts[k].p == p
    decreases |acts|
  {
    AloofStep(s, acts[0], p, id);
    StepKeepsWellFormed(s, acts[0]);
    if k > 0 {
      assert acts[..k][1..] == acts[1..][..k - 1];
      EveryReleaseIsTheOwners(Do(s, acts[0]), acts[1..], p, id, k - 1);
    } else {
      assert acts[..0] == [];
    }
  }

  /** A reap query that goes by a time at which the job's lease is good. */
  predicate QueriesInTime(s: State, a: Action, id: JobId) {
    a.By? && a.c.QueryReap? && id in s.jobs && s.jobs[id].lease.Some? ==> a.c.now <= s.jobs[id].lease.value
  }

  /** Others start no transition, failure or claim of the job, and query for expired leases in time only. */
  predicate KeepsOff(s: State, a: Action, p: Pid, id: JobId) {
    && (TurnsTo(a, p, id) ==> a.c.QueryReap?)
    && !TriesToClaim(a, p, id)
    && (a.By? && a.p != p ==> QueriesInTime(s, a, id))
  }

  predicate KeepOff(s: State, acts: seq<Action>, p: Pid, id: JobId)
    decreases |acts|
  {
    acts == [] || (KeepsOff(s, acts[0], p, id) && KeepOff(Do(s, acts[0]), acts[1..], p, id))
  }

  lemma RefusedQuery(s: State, a: Action, p: Pid, id: JobId)
    requires WellFormed(s) && Aloof(s, p, id)
    requires TurnsTo(a, p, id) && a.c.QueryReap? && QueriesInTime(s, a, id)
    ensures !Releases(s, a, id) && Aloof(Do(s, a), p, id)
  {
    NextAt(s, a);
    assert NextProc(s, a) == At(s, a.p);
    assert Do(s, a).jobs == s.jobs;
  }

  /**
   A healthy claim: if at first nobody but p refers to the job, nobody else starts an operation
   on it, and no reaper's time lies beyond the lease then current, then however the reapers
   and all others interleave, every commit that takes it out of RUNNING is p's.
   */
  lemma {:induction false} HealthyClaimIsTheOwners(s: State, acts: seq<Action>, p: Pid, id: JobId, k: nat)
    requires WellFormed(s) && Aloof(s, p, id) && KeepOff(s, acts, p, id) && k < |acts|
    requires Releases(Run(s, acts[..k]), acts[k], id)
    ensures acts[k].p == p
    decreases |acts|
  {
    var a := acts[0];
    StepKeepsWellFormed(s, a);
    if TurnsTo(a, p, id) {
      RefusedQuery(s, a, p, id);
    } else {
      AloofStep(s, a, p, id);
    }
    if k > 0 {
      assert acts[..k][1..] == acts[1..][..k - 1];
      HealthyClaimIsTheOwners(Do(s, a), acts[1..], p, id, k - 1);
    } else {
      assert acts[..0] == [];
    }
  }

  // ------------------------------------------------------------ and otherwise somebody else may

  lemma StealNow(s: State, q: Pid, p: Pid, id: JobId)
    requires q != p && Hits(s.jobs, id, Running)
    requires At(s, q).Writing? && At(s, q).id == id && At(s, q).w.from == Running
    ensures Stealable(s, p, id)
  {
    var acts := [By(q, CommitWrite)];
    assert Releases(s, acts[0], id);
    assert Steals(s, acts, p, id);
  }

  lemma StealLater(s: State, a: Action, p: Pid, id: JobId)
    requires !TurnsTo(a, p, id) && !Releases(s, a, id) && Stealable(Do(s, a), p, id)
    ensures Stealable(s, p, id)
  {
    var acts :| Steals(Do(s, a), acts, p, id);
    assert ([a] + acts)[1..] == acts;
    assert Steals(s, [a] + acts, p, id);
  }

  /** A worker on its way through run_once completes or fails whatever claim it finds. */
  lemma WorkerSteals(s: State, q: Pid, p: Pid, id: JobId, n: nat)
    requires q != p && Hits(s.jobs, id, Running)
    requires var proc := At(s, q);
             || (proc.Holding? && proc.id == id && n == 4)
             || (proc.Handling? && proc.id == id && n == 3)
             || (proc.Recording? && proc.id == id && n == 2)
             || ((proc.Finishing? || proc.Failing?) && proc.id == id && n == 1)
    ensures Stealable(s, p, id)
    decreases n
  {
    hide Stealable;
    var proc := At(s, q);
    if n == 1 {
      FailPathLegalIffRunning(Running, Exhausted(s.jobs[id]));
      var a := By(q, if proc.Finishing? then BeginComplete else BeginWorkerFail);
      StealNow(Do(s, a), q, p, id);
      StealLater(s, a, p, id);
    } else {
      var a := By(q, if n == 4 then CheckLedger else if n == 3 then HandlerReturns([]) else RecordResult);
      var next := At(Do(s, a), q);
      WorkerSteals(Do(s, a), q, p, id, if next.Finishing? then 1 else n - 1);
      StealLater(s, a, p, id);
    }
  }

  lemma {:induction false} Bound(s: set<nat>) returns (b: nat)
    ensures forall x :: x in s ==> x < b
  {
    if s == {} {
      b := 0;
    } else {
      var x :| x in s;
      var rest := Bound(s - {x});
      b := Max(rest, x + 1);
      assert forall y :: y in s ==> y == x || y in s - {x};
    }
  }

  /** Steps of idle processes lead from s to s', which differs in row x alone. */
  ghost predicate Prepared(s: State, s': State, x: JobId, p: Pid, id: JobId) {
    && x in s'.jobs
    && s'.jobs == s.jobs[x := s'.jobs[x]]
    && (forall q :: At(s', q) == At(s, q))
    && (Stealable(s', p, id) ==> Stealable(s, p, id))
  }

  lemma Chain(s: State, s1: State, s2: State, x: JobId, p: Pid, id: JobId)
    requires Prepared(s, s1, x, p, id) && Prepared(s1, s2, x, p, id)
    ensures Prepared(s, s2, x, p, id)
  {
  }

  /** A hand move along an edge of the graph, uninterrupted. */
  lemma MoveRow(s: State, r: Pid, x: JobId, to: JobState, p: Pid, id: JobId) returns (s': State)
    requires x != id && x in s.jobs && CanTransition(s.jobs[x].state, to) && At(s, r) == Idle
    ensures Prepared(s, s', x, p, id) && s'.jobs[x].state == to
  {
    var a, b := By(r, BeginTransition(x, to, None, false)), By(r, CommitWrite);
    var s1 := Do(s, a);
    s' := Do(s1, b);
    NextAt(s, a);
    NextAt(s1, b);
    hide Stealable;
    if Stealable(s', p, id) {
      StealLater(s1, b, p, id);
      StealLater(s, a, p, id);
    }
  }

  lemma ClaimRow(s: State, r: Pid, x: JobId, p: Pid, id: JobId) returns (s': State)
    requires x != id && Hits(s.jobs, x, Pending) && At(s, r) == Idle
    ensures Prepared(s, s', x, p, id) && s'.jobs[x].state == Running
  {
    var a, b := By(r, QueryClaim([x], 0, false)), By(r, TryClaim);
    var s1 := Do(s, a);
    s' := Do(s1, b);
    NextAt(s, a);
    assert At(s1, r) == Claiming([x], 0, false);
    NextAt(s1, b);
    hide Stealable;
    if Stealable(s', p, id) {
      StealLater(s1, b, p, id);
      StealLater(s, a, p, id);
    }
  }

  lemma CreateRow(s: State, x: JobId, p: Pid, id: JobId) returns (s': State)
    requires x != id && x !in s.jobs
    ensures Prepared(s, s', x, p, id) && s'.jobs[x].state == Pending
  {
    var a := Create(x, Job(Train, map[], Pending, 0, 1, None, Gpu, 0, 0, None));
    s' := Do(s, a);
    hide Stealable;
    if Stealable(s', p, id) {
      StealLater(s, a, p, id);
    }
  }

  lemma MakeRunning(s: State, r: Pid, x: JobId, p: Pid, id: JobId) returns (s': State)
    requires x != id && Alive(s.jobs, x) && At(s, r) == Idle
    ensures Prepared(s, s', x, p, id) && s'.jobs[x].state == Running
    decreases if x !in s.jobs then 2 else if s.jobs[x].state == Pending then 1
              else if s.jobs[x].state == Running then 0 else if s.jobs[x].state == Failed then 3 else 2
  {
    hide Prepared;
    var s1: State;
    if Hits(s.jobs, x, Running) {
      s' := s;
      Unchanged(s, x, p, id);
      return;
    } else if x !in s.jobs {
      s1 := CreateRow(s, x, p, id);
    } else if s.jobs[x].state == Pending {
      s' := ClaimRow(s, r, x, p, id);
      return;
    } else {
      s1 := MoveRow(s, r, x, if s.jobs[x].state == Failed then Retrying else Pending, p, id);
    }
    PreparedMeans(s, s1, x, p, id);
    s' := MakeRunning(s1, r, x, p, id);
    Chain(s, s1, s', x, p, id);
  }

  lemma Unchanged(s: State, x: JobId, p: Pid, id: JobId)
    requires x in s.jobs
    ensures Prepared(s, s, x, p, id)
  {
  }

  /** A reaper whose list reaches the job can be led to it, row by row. */
  lemma {:induction false} ReaperSteals(s: State, q: Pid, r: Pid, p: Pid, id: JobId, ids: seq<JobId>)
    requires q != p && r != q && At(s, r) == Idle && Hits(s.jobs, id, Running)
    requires At(s, q) == Reaping(ids) && Distinct(ids) && Reaches(s.jobs, ids, id)
    ensures Stealable(s, p, id)
    decreases |ids|, 1
  {
    hide Stealable, Prepared;
    var x := ids[0];
    if x == id {
      FailPathLegalIffRunning(Running, Exhausted(s.jobs[id]));
      var a := By(q, BeginReapRow);
      StealNow(Do(s, a), q, p, id);
      StealLater(s, a, p, id);
    } else {
      var s1 := MakeRunning(s, r, x, p, id);
      PreparedMeans(s, s1, x, p, id);
      FailPathLegalIffRunning(Running, Exhausted(s1.jobs[x]));
      var a := By(q, BeginReapRow);
      var s2 := Do(s1, a);
      NextAt(s1, a);
      var rest := ids[1..];
      ReachesElsewhere(s.jobs, s1.jobs, rest, id, x);
      ReapRowSteals(s2, q, r, p, id, x, rest);
      StealLater(s1, a, p, id);
    }
  }

  lemma PreparedMeans(s: State, s': State, x: JobId, p: Pid, id: JobId)
    requires Prepared(s, s', x, p, id)
    ensures x in s'.jobs && s'.jobs == s.jobs[x := s'.jobs[x]]
    ensures forall q :: At(s', q) == At(s, q)
    ensures Stealable(s', p, id) ==> Stealable(s, p, id)
  {
  }

  lemma {:induction false} ReachesElsewhere(t: Table, t': Table, ids: seq<JobId>, id: JobId, x: JobId)
    requires x !in ids && forall y :: y != x ==> (y in t <==> y in t') && (y in t ==> t'[y] == t[y])
    requires Reaches(t, ids, id)
    ensures Reaches(t', ids, id)
    decreases |ids|
  {
    if ids[0] != id {
      ReachesElsewhere(t, t', ids[1..], id, x);
    }
  }

  /** A reaper about to fail a RUNNING row goes on to the rest of its list. */
  lemma {:induction false} ReapRowSteals(s: State, q: Pid, r: Pid, p: Pid, id: JobId, x: JobId, rest: seq<JobId>)
    requires q != p && r != q && At(s, r) == Idle && Hits(s.jobs, id, Running) && Hits(s.jobs, x, Running) && x != id
    requires At(s, q).Writing? && At(s, q).id == x && At(s, q).w.from == Running && At(s, q).why == ReapRow(rest)
    requires x !in rest && Distinct(rest) && Reaches(s.jobs, rest, id)
    ensures Stealable(s, p, id)
    decreases |rest|, 2
  {
    hide Stealable;
    var a := By(q, CommitWrite);
    var s1 := Do(s, a);
    NextAt(s, a);
    ReachesElsewhere(s.jobs, s1.jobs, rest, id, x);
    ReaperSteals(s1, q, r, p, id, rest);
    StealLater(s, a, p, id);
  }

  lemma OthersSteal(s: State, q: Pid, p: Pid, id: JobId)
    requires WellFormed(s) && Hits(s.jobs, id, Running)
    requires q != p && CanRelease(s.jobs, At(s, q), id)
    ensures Stealable(s, p, id)
  {
    hide Stealable, Prepared, WritesLegal;
    var proc := At(s, q);
    assert Sane(proc);
    var r := Bound(s.procs.Keys + {q});
    assert At(s, r) == Idle;
    match proc
    case Reaping(ids) => ReaperSteals(s, q, r, p, id, ids);
    case Writing(x, w, why) =>
      if x == id {
        StealNow(s, q, p, id);
      } else {
        var s1 := MakeRunning(s, r, x, p, id);
        PreparedMeans(s, s1, x, p, id);
        ReachesElsewhere(s.jobs, s1.jobs, why.rest, id, x);
        ReapRowSteals(s1, q, r, p, id, x, why.rest);
      }
    case Holding(_) => WorkerSteals(s, q, p, id, 4);
    case Handling(_) => WorkerSteals(s, q, p, id, 3);
    case Recording(_, _) => WorkerSteals(s, q, p, id, 2);
    case Finishing(_, _) => WorkerSteals(s, q, p, id, 1);
    case Failing(_, _) => WorkerSteals(s, q, p, id, 1);
    case _ =>
  }

  /**
   Whose claim it is: with nobody but p turning to the job any more, somebody else can end
   p's claim exactly if another process still refers to the job in one of these ways.
   */
  lemma OwnedExactlyIfForgotten(s: State, p: Pid, id: JobId)
    requires WellFormed(s) && Hits(s.jobs, id, Running)
    ensures Stealable(s, p, id) <==> exists q :: q != p && CanRelease(s.jobs, At(s, q), id)
  {
    if q :| q != p && CanRelease(s.jobs, At(s, q), id) {
      OthersSteal(s, q, p, id);
    } else {
      forall acts ensures !Steals(s, acts, p, id) {
        SoleIsSafe(s, acts, p, id);
      }
    }
  }
}
