/** serve_pending: one pass of reaping, admitting and running training jobs. */
module Control {
  import opened Basics
  import opened Jobs
  import opened JobStores
  import opened Schedulers
  import opened OomRetry
  import opened Recovery
  import T = JobTable
  import H = Histories

  const TRAIN_LEASE: Time := 120

  /**
   What happens in the queue while one training job runs, by its heartbeat, by operators, by
   the runner itself or by another server's reaper, and how the run ends.
   */
  datatype JobRun = JobRun(moves: seq<H.Event>, end: Ending)

  /** Pausing, resuming or cancelling any job, a reap, or the heartbeat of the job that runs. */
  predicate Outside(e: H.Event, own: JobId) {
    match e
    case Move(_, to) => to in {Paused, Pending, Cancelled}
    case ReapAt(_) => true
    case RenewTo(id, _) => id == own
    case _ => false
  }

  predicate OutsideMoves(moves: seq<H.Event>, own: JobId) {
    forall e :: e in moves ==> Outside(e, own)
  }

  /** Pausing, cancelling or reaping takes a RUNNING job out of RUNNING. */
  predicate TakesOut(moves: seq<H.Event>, id: JobId, j: Job) {
    || H.Move(id, Paused) in moves
    || H.Move(id, Cancelled) in moves
    || exists e :: e in moves && e.ReapAt? && T.Expired(j, e.now)
  }

  /** Something is done to the job, or a reaper finds its lease expired. */
  predicate Moves(moves: seq<H.Event>, id: JobId, j: Job) {
    exists e :: e in moves && (H.Touches(e, id) || (e.ReapAt? && T.Expired(j, e.now)))
  }

  datatype Summary =
    | Reaped(id: JobId, state: JobState)
    | FailedRun(id: JobId, error: JobError)
    | SucceededRun(id: JobId, ref: string)
    | CancelledRun(id: JobId, ref: string)

  /** The table when the run of the job ends, before the outcome is stored. */
  function RunEnds(t: T.Table, id: JobId, run: JobRun, wall: Time): T.Table {
    H.Replay(T.Renew(t, id, wall + TRAIN_LEASE), run.moves)
  }

  /** The table after one admitted job was served, or found to have left RUNNING before its turn. */
  function ServedJob(t: T.Table, id: JobId, kind: Kind, run: JobRun, wall: Time): T.Table {
    if !T.Hits(t, id, Running) then t
    else if kind != Train then H.Apply(t, H.FailOf(id, NoHandler(kind)))
    else
      match run.end
      case Raised(e) => H.Apply(RunEnds(t, id, run, wall), H.FailOf(id, e))
      case _ => H.Apply(RunEnds(t, id, run, wall), H.Move(id, Succeeded))
  }

  /**
   The pass raises: renew_lease() or fail() on a job that left RUNNING before its turn, or
   a TypeError right after complete() if the run had no result to summarise.
   */
  predicate Aborts(t: T.Table, id: JobId, kind: Kind, run: JobRun) {
    !T.Hits(t, id, Running) || NoSummary(kind, run)
  }

  predicate NoSummary(kind: Kind, run: JobRun) {
    kind == Train && run.end == NoResult
  }

  /** complete() succeeds exactly if the job was still RUNNING when its run ended. */
  function SummaryOf(t: T.Table, id: JobId, kind: Kind, run: JobRun, wall: Time): Summary
    requires !Aborts(t, id, kind, run)
  {
    if kind != Train then FailedRun(id, NoHandler(kind))
    else
      match run.end
      case Raised(e) => FailedRun(id, e)
      case Returned(ref) =>
        if T.Hits(RunEnds(t, id, run, wall), id, Running) then SucceededRun(id, ref) else CancelledRun(id, ref)
      case NoResult => CancelledRun(id, [])
  }

  datatype Served = Served(jobs: T.Table, summaries: seq<Summary>, aborted: bool)

  /** The admitted jobs in order, up to the first that makes the pass raise. */
  function ServeAll(t: T.Table, ids: seq<JobId>, kinds: map<JobId, Kind>, runs: JobId -> JobRun, wall: Time): Served
    requires forall id :: id in ids ==> id in kinds
    decreases |ids|
  {
    if ids == [] then Served(t, [], false)
    else
      var id := ids[0];
      var t1 := ServedJob(t, id, kinds[id], runs(id), wall);
      if Aborts(t, id, kinds[id], runs(id)) then Served(t1, [], true)
      else
        var rest := ServeAll(t1, ids[1..], kinds, runs, wall);
        rest.(summaries := [SummaryOf(t, id, kinds[id], runs(id), wall)] + rest.summaries)
  }

  function Kinds(t: T.Table): map<JobId, Kind> {
    map id | id in t :: t[id].kind
  }

  function ReapSummaries(t: T.Table, reaped: seq<JobId>): seq<Summary>
    requires forall id :: id in reaped ==> id in t
  {
    seq(|reaped|, i requires 0 <= i < |reaped| => Reaped(reaped[i], t[reaped[i]].state))
  }

  /** One pass: reap, then admit from what reaping left, then serve the admitted jobs in order. */
  ghost predicate ServePass(cfg: ResourceConfig, t: T.Table, now: Time, wall: Time, runs: JobId -> JobRun,
                            reaped: seq<JobId>, admitted: seq<JobId>, mid: T.Table,
                            summaries: seq<Summary>, aborted: bool, t': T.Table)
  {
    && Distinct(reaped) && Elements(reaped) == ExpiredRows(t, now)
    && Pass(cfg, T.Reap(t, now), now, admitted, mid)
    && (forall id :: id in reaped ==> id in T.Reap(t, now))
    && (forall id :: id in admitted ==> id in Kinds(mid))
    && var served := ServeAll(mid, admitted, Kinds(mid), runs, wall);
    && t' == served.jobs
    && aborted == served.aborted
    && summaries == ReapSummaries(T.Reap(t, now), reaped) + served.summaries
  }

  method ApplyMoves(store: JobStore, moves: seq<H.Event>, ghost own: JobId)
    requires OutsideMoves(moves, own)
    modifies store`jobs
    ensures store.jobs == H.Replay(old(store.jobs), moves)
  {
    ghost var t := store.jobs;
    for k := 0 to |moves|
      invariant H.Replay(store.jobs, moves[k..]) == H.Replay(t, moves)
    {
      assert moves[k..][0] == moves[k] && moves[k..][1..] == moves[k + 1..];
      assert moves[k] in moves;
      ApplyMove(store, moves[k], own);
    }
  }

  method ApplyMove(store: JobStore, e: H.Event, ghost own: JobId)
    requires Outside(e, own)
    modifies store`jobs
    ensures store.jobs == H.Apply(old(store.jobs), e)
  {
    match e
    case Move(id, to) =>
      var r := store.Transition(id, to, None, false);
    case ReapAt(now) =>
      var reaped := store.ReapExpired(now);
    case RenewTo(id, lease) =>
      var r := store.RenewLease(id, lease, 0);
  }

  method ServeJob(store: JobStore, id: JobId, kind: Kind, run: JobRun, wall: Time)
    returns (summary: Option<Summary>)
    requires OutsideMoves(run.moves, id)
    modifies store`jobs
    ensures store.jobs == ServedJob(old(store.jobs), id, kind, run, wall)
    ensures summary == if Aborts(old(store.jobs), id, kind, run) then None
                       else Some(SummaryOf(old(store.jobs), id, kind, run, wall))
  {
    T.FailMeaning(store.jobs, id, NoHandler(kind));
    if kind != Train {
      var r := store.Fail(id, NoHandler(kind));
      return if r.Ok? then Some(FailedRun(id, NoHandler(kind))) else None;
    }
    var renewed := store.RenewLease(id, TRAIN_LEASE, wall);
    if renewed.Err? {
      return None;
    }
    ApplyMoves(store, run.moves, id);
    match run.end
    case Raised(e) =>
      var r := store.Fail(id, e);   // a job that already left RUNNING is no error
      return Some(FailedRun(id, e));
    case NoResult =>
      var r := store.Complete(id);
      return None;
    case Returned(ref) =>
      var r := store.Complete(id);
      return Some(if r.Ok? then SucceededRun(id, ref) else CancelledRun(id, ref));
  }

  method ServePending(scheduler: Scheduler, runs: JobId -> JobRun, now: Time, wall: Time)
    returns (summaries: seq<Summary>, aborted: bool,
             ghost reaped: seq<JobId>, ghost admitted: seq<JobId>, ghost mid: T.Table)
    requires forall id :: OutsideMoves(runs(id).moves, id)
    modifies scheduler.store`jobs
    ensures ServePass(scheduler.cfg, old(scheduler.store.jobs), now, wall, runs, reaped, admitted, mid,
                      summaries, aborted, scheduler.store.jobs)
  {
    hide ServedJob, SummaryOf, Aborts, Pass;
    var store := scheduler.store;
    ghost var t0 := store.jobs;
    var reapedRows := store.ReapExpired(now);
    reaped := reapedRows;
    assert Elements(reaped) == ExpiredRows(t0, now);
    var afterReap := store.jobs;
    summaries := ReapSummaries(afterReap, reapedRows);
    var toServe := scheduler.Schedule(now);
    admitted := toServe;
    mid := store.jobs;
    var kinds := Kinds(store.jobs);
    forall id | id in toServe ensures id in kinds {
      AdmittedAreRunning(scheduler.cfg, afterReap, now, toServe, mid, id);
    }
    aborted := false;
    ghost var whole := ServeAll(mid, admitted, kinds, runs, wall);
    for k := 0 to |toServe|
      invariant var rest := ServeAll(store.jobs, toServe[k..], kinds, runs, wall);
                && rest.jobs == whole.jobs && rest.aborted == whole.aborted
                && summaries + rest.summaries == ReapSummaries(afterReap, reaped) + whole.summaries
    {
      var id := toServe[k];
      assert toServe[k..][0] == id && toServe[k..][1..] == toServe[k + 1..];
      var summary := ServeJob(store, id, kinds[id], runs(id), wall);
      if summary == None {
        aborted := true;
        return;
      }
      summaries := summaries + [summary.value];
    }
  }

  lemma AdmittedAreRunning(cfg: ResourceConfig, t: T.Table, now: Time, admitted: seq<JobId>, t': T.Table, id: JobId)
    requires Pass(cfg, t, now, admitted, t')
    requires id in admitted
    ensures id in t && T.Hits(t', id, Running)
  {
    var gpu, cpu := PassSets(cfg, t, now, admitted, t');
    assert id in Elements(admitted);
    PassTouchesOnlyAdmitted(cfg, t, now, admitted, t', id);
  }

  lemma AdmittedCanBeServed(cfg: ResourceConfig, t: T.Table, now: Time, admitted: seq<JobId>, mid: T.Table,
                            runs: JobId -> JobRun)
    requires Pass(cfg, t, now, admitted, mid)
    requires forall id :: OutsideMoves(runs(id).moves, id)
    ensures forall id :: id in admitted ==> id in Kinds(mid) && T.Hits(mid, id, Running)
    ensures Servable(mid, admitted, Kinds(mid), runs)
  {
    forall id | id in admitted ensures T.Hits(mid, id, Running) {
      AdmittedAreRunning(cfg, t, now, admitted, mid, id);
    }
    PassAdmitsOnce(cfg, t, now, admitted, mid);
  }

  // ------------------------------------------------------------ what serving one job means

  /** What others may do to a row, in whatever order. */
  predicate OperatedOn(j: Job, j': Job) {
    || j' == j
    || (j.state !in TERMINAL && j'.state in {Pending, Paused, Cancelled, DeadLetter} && j'.kind == j.kind)
  }

  /** One outside event: it takes a RUNNING job out, or leaves it as it is, and starts none. */
  lemma MoveMeaning(t: T.Table, e: H.Event, own: JobId, x: JobId)
    requires Outside(e, own) && x in t && x != own
    ensures var t' := H.Apply(t, e);
            && t'.Keys == t.Keys
            && OperatedOn(t[x], t'[x])
            && (T.Hits(t', x, Running) <==> T.Hits(t, x, Running) && !TakesOut([e], x, t[x]))
            && (T.Hits(t', x, Running) ==> t'[x] == t[x])
            && (!Moves([e], x, t[x]) ==> t'[x] == t[x])
  {
    assert forall d :: d in [e] <==> d == e;
    assert e in [e];
    assert Moves([e], x, t[x]) <==> H.Touches(e, x) || (e.ReapAt? && T.Expired(t[x], e.now));
    assert e.ReapAt? ==> (TakesOut([e], x, t[x]) <==> T.Expired(t[x], e.now));
  }

  lemma {:induction false} MovesMeaning(t: T.Table, moves: seq<H.Event>, own: JobId, x: JobId)
    requires OutsideMoves(moves, own) && x in t && x != own
    ensures var t' := H.Replay(t, moves);
            && t'.Keys == t.Keys
            && OperatedOn(t[x], t'[x])
            && (T.Hits(t', x, Running) <==> T.Hits(t, x, Running) && !TakesOut(moves, x, t[x]))
            && (T.Hits(t', x, Running) ==> t'[x] == t[x])
            && (!Moves(moves, x, t[x]) ==> t'[x] == t[x])
    decreases |moves|
  {
    if moves != [] {
      var e, t1 := moves[0], H.Apply(t, moves[0]);
      FirstMove(moves, x, t[x]);
      MoveMeaning(t, e, own, x);
      hide H.Apply, TakesOut, Moves;
      assert e in moves && OutsideMoves(moves[1..], own);
      MovesMeaning(t1, moves[1..], own, x);
    }
  }

  lemma FirstMove(moves: seq<H.Event>, x: JobId, j: Job)
    requires moves != []
    ensures TakesOut(moves, x, j) <==> TakesOut([moves[0]], x, j) || TakesOut(moves[1..], x, j)
    ensures Moves(moves, x, j) <==> Moves([moves[0]], x, j) || Moves(moves[1..], x, j)
  {
    assert moves == [moves[0]] + moves[1..];
    assert forall e :: e in moves <==> e in [moves[0]] || e in moves[1..];
  }

  /** The running job's own row: others may take it out of RUNNING, but nobody else completes it. */
  lemma {:induction false} OwnRow(t: T.Table, moves: seq<H.Event>, own: JobId)
    requires OutsideMoves(moves, own) && own in t
    requires t[own].state in {Running, Pending, Paused, Cancelled, DeadLetter}
    ensures var t' := H.Replay(t, moves);
            && t'.Keys == t.Keys
            && t'[own].state in {Running, Pending, Paused, Cancelled, DeadLetter}
            && t'[own].kind == t[own].kind
    decreases |moves|
  {
    if moves != [] {
      assert moves[0] in moves;
      OwnRow(H.Apply(t, moves[0]), moves[1..], own);
    }
  }

  /** The job is out of RUNNING for good, and reported succeeded exactly if it is SUCCEEDED. */
  predicate Settled(j: Job, succeeded: bool) {
    j.state != Running && (succeeded <==> j.state == Succeeded)
  }

  /** A served job is settled, and other jobs change only as operators move them. */
  lemma ServedJobLeavesRunning(t: T.Table, id: JobId, kind: Kind, run: JobRun, wall: Time)
    requires id in t && OutsideMoves(run.moves, id) && !Aborts(t, id, kind, run)
    ensures var t' := ServedJob(t, id, kind, run, wall);
            && t'.Keys == t.Keys
            && t'[id].state in {Succeeded, Pending, DeadLetter, Paused, Cancelled}
            && Settled(t'[id], SummaryOf(t, id, kind, run, wall).SucceededRun?)
            && SummaryOf(t, id, kind, run, wall).id == id
  {
    T.FailMeaning(t, id, NoHandler(kind));
    OwnRow(T.Renew(t, id, wall + TRAIN_LEASE), run.moves, id);
    if kind == Train && run.end.Raised? {
      T.FailMeaning(RunEnds(t, id, run, wall), id, run.end.error);
    }
  }

  lemma OthersWhenServed(t: T.Table, id: JobId, kind: Kind, run: JobRun, wall: Time, x: JobId)
    requires id in t && x in t && x != id && OutsideMoves(run.moves, id)
    ensures var t' := ServedJob(t, id, kind, run, wall);
            && t'.Keys == t.Keys
            && OperatedOn(t[x], t'[x])
            && (!Moves(run.moves, x, t[x]) ==> t'[x] == t[x])
            && (!Aborts(t, id, kind, run) ==>
                  (T.Hits(t', x, Running) <==>
                     T.Hits(t, x, Running) && !(kind == Train && TakesOut(run.moves, x, t[x]))))
            && (T.Hits(t', x, Running) ==> t'[x] == t[x])
  {
    T.FailMeaning(t, id, NoHandler(kind));
    OwnAndOther(t, id, run, wall, x);
    hide TakesOut, Moves, OutsideMoves;
    if kind == Train && run.end.Raised? {
      T.FailMeaning(RunEnds(t, id, run, wall), id, run.end.error);
    }
  }

  /**
   A row after the retry policy: dead-lettered at the bound and requeued before it, with the attempt
   and the error.
   */
  predicate RetriedOrDead(j: Job, j': Job, error: JobError) {
    && j'.state == (if j.attempts + 1 >= j.maxAttempts then DeadLetter else Pending)
    && j'.attempts == j.attempts + 1 && j'.error == Some(error) && j'.lease == None
    && j'.payload == j.payload && j'.kind == j.kind && j'.maxAttempts == j.maxAttempts
  }

  /**
   What a training run leaves of its job. Ended while RUNNING, a run that raised is a failed
   attempt and any other completes the job; a job that others took out of RUNNING stays as
   they left it. The summary says which.
   */
  lemma TrainingRunOutcome(t: T.Table, id: JobId, run: JobRun, wall: Time)
    requires T.Hits(t, id, Running) && OutsideMoves(run.moves, id)
    ensures var mid, t' := RunEnds(t, id, run, wall), ServedJob(t, id, Train, run, wall);
            && mid.Keys == t.Keys && t'.Keys == t.Keys
            && (forall x :: x in t && x != id ==> t'[x] == mid[x])
            && (mid[id].state != Running ==> t' == mid)
            && (mid[id].state == Running ==>
                  match run.end
                  case Raised(e) => RetriedOrDead(mid[id], t'[id], e)
                  case _ => t'[id].state == Succeeded && t'[id].attempts == mid[id].attempts
                            && t'[id].error == None && t'[id].lease == None && t'[id].payload == mid[id].payload)
            && match run.end
               case Raised(e) => SummaryOf(t, id, Train, run, wall) == FailedRun(id, e)
               case Returned(ref) =>
                 SummaryOf(t, id, Train, run, wall)
                 == (if mid[id].state == Running then SucceededRun(id, ref) else CancelledRun(id, ref))
               case NoResult => Aborts(t, id, Train, run)
  {
    OwnRow(T.Renew(t, id, wall + TRAIN_LEASE), run.moves, id);
    var mid := RunEnds(t, id, run, wall);
    if run.end.Raised? {
      T.FailMeaning(mid, id, run.end.error);
    } else {
      T.TransitionSucceedsExactly(mid, id, Succeeded, None, false);
    }
  }

  /** An admitted job that is not a training job is failed without running: nothing else changes. */
  lemma UnhandledKindOutcome(t: T.Table, id: JobId, kind: Kind, run: JobRun, wall: Time)
    requires T.Hits(t, id, Running) && kind != Train
    ensures var t' := ServedJob(t, id, kind, run, wall);
            && t'.Keys == t.Keys && (forall x :: x in t && x != id ==> t'[x] == t[x])
            && RetriedOrDead(t[id], t'[id], NoHandler(kind))
            && SummaryOf(t, id, kind, run, wall) == FailedRun(id, NoHandler(kind))
  {
    T.FailMeaning(t, id, NoHandler(kind));
  }

  /**
   A run that nobody pauses or cancels keeps its job exactly if its lease, two minutes at first, covers
   every reap.
   */
  lemma RunKeepsItsJobIff(t: T.Table, id: JobId, run: JobRun, wall: Time)
    requires T.Hits(t, id, Running) && OutsideMoves(run.moves, id)
    requires forall e :: e in run.moves && H.Touches(e, id) ==> e.RenewTo?
    ensures T.Hits(RunEnds(t, id, run, wall), id, Running) <==> H.LeaseCovers(run.moves, id, wall + 120)
  {
    var renewed := T.Renew(t, id, wall + TRAIN_LEASE);
    assert forall k :: 0 <= k < |run.moves| ==> run.moves[k] in run.moves;
    H.KeptExactlyIfCovered(renewed, run.moves, id, wall + 120);
  }

  lemma OwnAndOther(t: T.Table, id: JobId, run: JobRun, wall: Time, x: JobId)
    requires id in t && x in t && x != id && OutsideMoves(run.moves, id)
    ensures var t' := RunEnds(t, id, run, wall);
            && t'.Keys == t.Keys
            && OperatedOn(t[x], t'[x])
            && (T.Hits(t', x, Running) <==> T.Hits(t, x, Running) && !TakesOut(run.moves, x, t[x]))
            && (T.Hits(t', x, Running) ==> t'[x] == t[x])
            && (!Moves(run.moves, x, t[x]) ==> t'[x] == t[x])
  {
    MovesMeaning(T.Renew(t, id, wall + TRAIN_LEASE), run.moves, id, x);
  }

  // ------------------------------------------------------------ what a pass means

  predicate Servable(t: T.Table, ids: seq<JobId>, kinds: map<JobId, Kind>, runs: JobId -> JobRun) {
    && Distinct(ids)
    && forall i :: 0 <= i < |ids| ==> ids[i] in kinds && ids[i] in t && OutsideMoves(runs(ids[i]).moves, ids[i])
  }

  /** The rest of the admitted jobs is there once the first has been served. */
  lemma ServeFirst(t: T.Table, ids: seq<JobId>, kinds: map<JobId, Kind>, runs: JobId -> JobRun, wall: Time)
    requires ids != [] && Servable(t, ids, kinds, runs)
    ensures var t1 := ServedJob(t, ids[0], kinds[ids[0]], runs(ids[0]), wall);
            && t1.Keys == t.Keys
            && Servable(t1, ids[1..], kinds, runs)
            && forall i :: 0 <= i < |ids| - 1 ==> ids[1..][i] == ids[i + 1] && ids[i + 1] != ids[0]
  {
    if T.Hits(t, ids[0], Running) {
      var run := runs(ids[0]);
      T.FailMeaning(t, ids[0], NoHandler(kinds[ids[0]]));
      OwnRow(T.Renew(t, ids[0], wall + TRAIN_LEASE), run.moves, ids[0]);
    }
    hide ServedJob;
    forall i | 0 <= i < |ids[1..]|
      ensures ids[1..][i] == ids[i + 1] && ids[i + 1] != ids[0]
    {
    }
  }

  /** A job that is served no more changes only as operators move it. */
  lemma {:induction false} ServingOthers(t: T.Table, ids: seq<JobId>, kinds: map<JobId, Kind>,
                                         runs: JobId -> JobRun, wall: Time, x: JobId)
    requires Servable(t, ids, kinds, runs) && x in t && x !in ids
    ensures var t' := ServeAll(t, ids, kinds, runs, wall).jobs;
            && t'.Keys == t.Keys
            && OperatedOn(t[x], t'[x])
            && ((forall i :: 0 <= i < |ids| ==> !Moves(runs(ids[i]).moves, x, t[x])) ==> t'[x] == t[x])
    decreases |ids|
  {
    if ids != [] {
      var id := ids[0];
      ServeFirst(t, ids, kinds, runs, wall);
      OthersWhenServed(t, id, kinds[id], runs(id), wall, x);
      hide ServedJob, SummaryOf, Moves, Aborts;
      if !Aborts(t, id, kinds[id], runs(id)) {
        ServingOthers(ServedJob(t, id, kinds[id], runs(id), wall), ids[1..], kinds, runs, wall, x);
      }
    }
  }

  /** The pass raises at the k-th admitted job, if not before. */
  predicate Raises(t: T.Table, ids: seq<JobId>, kinds: map<JobId, Kind>, runs: JobId -> JobRun, k: nat)
    requires k < |ids| && forall id :: id in ids ==> id in kinds && id in t
  {
    || !T.Hits(t, ids[k], Running)
    || NoSummary(kinds[ids[k]], runs(ids[k]))
    || exists i :: 0 <= i < k && kinds[ids[i]] == Train && TakesOut(runs(ids[i]).moves, ids[k], t[ids[k]])
  }

  lemma RaisesAfterFirst(t: T.Table, ids: seq<JobId>, kinds: map<JobId, Kind>, runs: JobId -> JobRun, wall: Time,
                         k: nat)
    requires ids != [] && Servable(t, ids, kinds, runs) && 0 < k < |ids|
    requires !Aborts(t, ids[0], kinds[ids[0]], runs(ids[0]))
    ensures var t1 := ServedJob(t, ids[0], kinds[ids[0]], runs(ids[0]), wall);
            && Servable(t1, ids[1..], kinds, runs)
            && (Raises(t, ids, kinds, runs, k) <==> Raises(t1, ids[1..], kinds, runs, k - 1))
  {
    var id, rest, x := ids[0], ids[1..], ids[k];
    ServeFirst(t, ids, kinds, runs, wall);
    OthersWhenServed(t, id, kinds[id], runs(id), wall, x);
    hide ServedJob, TakesOut, Aborts, NoSummary, Moves;
    assert rest[k - 1] == x;
    if i :| 0 <= i < k && kinds[ids[i]] == Train && TakesOut(runs(ids[i]).moves, x, t[x]) {
      assert i > 0 ==> rest[i - 1] == ids[i];
    }
    var t1 := ServedJob(t, id, kinds[id], runs(id), wall);
    if i :| 0 <= i < k - 1 && kinds[rest[i]] == Train && TakesOut(runs(rest[i]).moves, x, t1[x]) {
      assert rest[i] == ids[i + 1];
    }
  }

  /**
   A pass is aborted exactly by a training run without a result, or by a pause, a cancel or
   another server's reap of an admitted job during the run of an earlier one; and it stops
   at the first of these.
   */
  lemma {:induction false} AbortedIff(t: T.Table, ids: seq<JobId>, kinds: map<JobId, Kind>,
                                      runs: JobId -> JobRun, wall: Time)
    requires Servable(t, ids, kinds, runs)
    ensures var served := ServeAll(t, ids, kinds, runs, wall);
            && (served.aborted <==> exists k :: 0 <= k < |ids| && Raises(t, ids, kinds, runs, k))
            && (!served.aborted ==> |served.summaries| == |ids|)
            && (served.aborted ==> |served.summaries| < |ids| && Raises(t, ids, kinds, runs, |served.summaries|)
                                   && forall k :: 0 <= k < |served.summaries| ==> !Raises(t, ids, kinds, runs, k))
    decreases |ids|
  {
    if ids != [] {
      var id := ids[0];
      ServeFirst(t, ids, kinds, runs, wall);
      var t1 := ServedJob(t, id, kinds[id], runs(id), wall);
      assert Aborts(t, id, kinds[id], runs(id)) <==> Raises(t, ids, kinds, runs, 0);
      if !Aborts(t, id, kinds[id], runs(id)) {
        forall k | 0 < k < |ids| ensures Raises(t, ids, kinds, runs, k) <==> Raises(t1, ids[1..], kinds, runs, k - 1) {
          RaisesAfterFirst(t, ids, kinds, runs, wall, k);
        }
        hide Raises, ServedJob, SummaryOf, Aborts;
        AbortedIff(t1, ids[1..], kinds, runs, wall);
        hide Servable;
        var rest := ServeAll(t1, ids[1..], kinds, runs, wall);
        if k :| 0 <= k < |ids[1..]| && Raises(t1, ids[1..], kinds, runs, k) {
          assert Raises(t, ids, kinds, runs, k + 1);
        }
        if k :| 0 <= k < |ids| && Raises(t, ids, kinds, runs, k) {
          assert k > 0 && Raises(t1, ids[1..], kinds, runs, k - 1);
        }
      }
    }
  }

  /** The i-th summary is about the i-th admitted job, which has left RUNNING, and tells how. */
  predicate Truthful(served: Served, ids: seq<JobId>, i: nat) {
    && i < |served.summaries| && i < |ids|
    && served.summaries[i].id == ids[i]
    && ids[i] in served.jobs
    && Settled(served.jobs[ids[i]], served.summaries[i].SucceededRun?)
  }

  /** Every job the pass reported on has left RUNNING, and the summaries name the SUCCEEDED ones exactly. */
  lemma {:induction false} SummariesTellTheTruth(t: T.Table, ids: seq<JobId>, kinds: map<JobId, Kind>,
                                                 runs: JobId -> JobRun, wall: Time, i: nat)
    requires Servable(t, ids, kinds, runs)
    requires i < |ServeAll(t, ids, kinds, runs, wall).summaries|
    ensures Truthful(ServeAll(t, ids, kinds, runs, wall), ids, i)
    decreases |ids|
  {
    var id := ids[0];
    ServeFirst(t, ids, kinds, runs, wall);
    ServedJobLeavesRunning(t, id, kinds[id], runs(id), wall);
    var t1 := ServedJob(t, id, kinds[id], runs(id), wall);
    hide ServedJob, SummaryOf, Aborts;
    if i > 0 {
      SummariesTellTheTruth(t1, ids[1..], kinds, runs, wall, i - 1);
    } else {
      ServingOthers(t1, ids[1..], kinds, runs, wall, id);
    }
  }

  /**
   An aborted pass: a job whose run had no result is SUCCEEDED if nobody touched it, yet
   unreported, and every job admitted after it that nobody moved or reaped is still RUNNING,
   exactly as admitted.
   */
  lemma {:induction false} AbortStrandsTheRest(t: T.Table, ids: seq<JobId>, kinds: map<JobId, Kind>,
                                               runs: JobId -> JobRun, wall: Time, x: JobId)
    requires Servable(t, ids, kinds, runs) && x in t
    requires ServeAll(t, ids, kinds, runs, wall).aborted
    requires forall i :: 0 <= i < |ids| && ids[i] != x ==> !Moves(runs(ids[i]).moves, x, t[x])
    ensures var served := ServeAll(t, ids, kinds, runs, wall);
            var k := |served.summaries|;
            && k < |ids|
            && served.jobs.Keys == t.Keys
            && (x == ids[k] && T.Hits(t, x, Running) && runs(x).moves == [] ==> served.jobs[x].state == Succeeded)
            && forall i :: k < i < |ids| && ids[i] == x ==> served.jobs[x] == t[x]
    decreases |ids|
  {
    var id := ids[0];
    ServeFirst(t, ids, kinds, runs, wall);
    if x != id {
      OthersWhenServed(t, id, kinds[id], runs(id), wall, x);
    }
    if Aborts(t, id, kinds[id], runs(id)) {
      if x == id && T.Hits(t, id, Running) && runs(id).moves == [] {
        AbortedJob(t, id, kinds[id], runs(id), wall);
      }
    } else {
      var t1 := ServedJob(t, id, kinds[id], runs(id), wall);
      hide ServedJob, SummaryOf, Aborts, Moves;
      if x != id {
        AbortStrandsTheRest(t1, ids[1..], kinds, runs, wall, x);
      } else {
        AbortedIff(t1, ids[1..], kinds, runs, wall);
        ServedKeys(t1, ids[1..], kinds, runs, wall);
      }
    }
  }

  lemma {:induction false} ServedKeys(t: T.Table, ids: seq<JobId>, kinds: map<JobId, Kind>,
                                      runs: JobId -> JobRun, wall: Time)
    requires Servable(t, ids, kinds, runs)
    ensures ServeAll(t, ids, kinds, runs, wall).jobs.Keys == t.Keys
    decreases |ids|
  {
    if ids != [] {
      ServeFirst(t, ids, kinds, runs, wall);
      hide ServedJob, SummaryOf, Aborts;
      ServedKeys(ServedJob(t, ids[0], kinds[ids[0]], runs(ids[0]), wall), ids[1..], kinds, runs, wall);
    }
  }

  lemma AbortedJob(t: T.Table, id: JobId, kind: Kind, run: JobRun, wall: Time)
    requires Aborts(t, id, kind, run) && T.Hits(t, id, Running) && run.moves == []
    ensures ServedJob(t, id, kind, run, wall)[id].state == Succeeded
  {
    assert RunEnds(t, id, run, wall) == T.Renew(t, id, wall + TRAIN_LEASE);
  }

  /** The summary of a reaped job names the state that the retry bound gave it. */
  predicate ReapReported(t: T.Table, id: JobId, summary: Summary) {
    && id in t && summary.Reaped? && summary.id == id
    && summary.state == (if t[id].attempts + 1 >= t[id].maxAttempts then DeadLetter else Pending)
  }

  lemma ReapsReported(t: T.Table, now: Time, reaped: seq<JobId>)
    requires Elements(reaped) == ExpiredRows(t, now)
    requires forall id :: id in reaped ==> id in T.Reap(t, now)
    ensures var s := ReapSummaries(T.Reap(t, now), reaped);
            |s| == |reaped| && forall i :: 0 <= i < |reaped| ==> ReapReported(t, reaped[i], s[i])
  {
    forall i | 0 <= i < |reaped| ensures ReapReported(t, reaped[i], ReapSummaries(T.Reap(t, now), reaped)[i]) {
      assert reaped[i] in Elements(reaped);
    }
  }

  /** One whole pass, whatever is paused, resumed, cancelled or reaped while its jobs run. */
  lemma ServePassOutcome(cfg: ResourceConfig, t: T.Table, now: Time, wall: Time, runs: JobId -> JobRun,
                         reaped: seq<JobId>, admitted: seq<JobId>, mid: T.Table,
                         summaries: seq<Summary>, aborted: bool, t': T.Table)
    requires ServePass(cfg, t, now, wall, runs, reaped, admitted, mid, summaries, aborted, t')
    requires forall id :: OutsideMoves(runs(id).moves, id)
    ensures Servable(mid, admitted, Kinds(mid), runs)
    ensures aborted <==> exists k :: 0 <= k < |admitted| && Raises(mid, admitted, Kinds(mid), runs, k)
    ensures !aborted ==> |summaries| == |reaped| + |admitted|
    ensures |reaped| <= |summaries| <= |reaped| + |admitted|
    ensures forall i :: 0 <= i < |reaped| ==> ReapReported(t, reaped[i], summaries[i])
    ensures forall i :: 0 <= i < |summaries| - |reaped| ==>
              Truthful(Served(t', summaries[|reaped|..], aborted), admitted, i)
  {
    AdmittedCanBeServed(cfg, T.Reap(t, now), now, admitted, mid, runs);
    AbortedIff(mid, admitted, Kinds(mid), runs, wall);
    ServedOutcome(mid, admitted, Kinds(mid), runs, wall);
    ReapsReported(t, now, reaped);
    hide Pass, ReapReported, T.Reap, ServeAll, Raises, Truthful, Servable;
    var served := ServeAll(mid, admitted, Kinds(mid), runs, wall);
    assert summaries[|reaped|..] == served.summaries;
    assert Served(t', summaries[|reaped|..], aborted) == served;
  }

  lemma ServedOutcome(t: T.Table, ids: seq<JobId>, kinds: map<JobId, Kind>, runs: JobId -> JobRun, wall: Time)
    requires Servable(t, ids, kinds, runs)
    ensures var served := ServeAll(t, ids, kinds, runs, wall);
            forall i :: 0 <= i < |served.summaries| ==> Truthful(served, ids, i)
  {
    hide Truthful;
    forall i | 0 <= i < |ServeAll(t, ids, kinds, runs, wall).summaries|
      ensures Truthful(ServeAll(t, ids, kinds, runs, wall), ids, i)
    {
      SummariesTellTheTruth(t, ids, kinds, runs, wall, i);
    }
  }

  /** If no run takes out a job that waits for its turn, only a training run without a result aborts the pass. */
  lemma AbortedIffNoResult(t: T.Table, ids: seq<JobId>, kinds: map<JobId, Kind>, runs: JobId -> JobRun, wall: Time)
    requires Servable(t, ids, kinds, runs)
    requires forall i :: 0 <= i < |ids| ==> T.Hits(t, ids[i], Running)
    requires forall i, k :: 0 <= i < k < |ids| ==> !TakesOut(runs(ids[i]).moves, ids[k], t[ids[k]])
    ensures ServeAll(t, ids, kinds, runs, wall).aborted
       <==> exists k :: 0 <= k < |ids| && NoSummary(kinds[ids[k]], runs(ids[k]))
  {
    AbortedIff(t, ids, kinds, runs, wall);
    hide ServeAll, NoSummary, TakesOut;
    forall k | 0 <= k < |ids| ensures Raises(t, ids, kinds, runs, k) <==> NoSummary(kinds[ids[k]], runs(ids[k])) {
    }
  }

  /**
   Only the job that runs has a heartbeat: if it runs beyond the lease that admission gave
   the next job, and another server reaps meanwhile, the pass is aborted.
   */
  lemma LongRunAborts(cfg: ResourceConfig, t: T.Table, now: Time, wall: Time, runs: JobId -> JobRun,
                      reaped: seq<JobId>, admitted: seq<JobId>, mid: T.Table,
                      summaries: seq<Summary>, aborted: bool, t': T.Table, i: nat, k: nat, later: Time)
    requires ServePass(cfg, t, now, wall, runs, reaped, admitted, mid, summaries, aborted, t')
    requires forall id :: OutsideMoves(runs(id).moves, id)
    requires i < k < |admitted| && Kinds(mid)[admitted[i]] == Train
    requires H.ReapAt(later) in runs(admitted[i]).moves && later > now + 30
    ensures aborted
  {
    ServePassOutcome(cfg, t, now, wall, runs, reaped, admitted, mid, summaries, aborted, t');
    AdmittedLease(cfg, T.Reap(t, now), now, admitted, mid, k);
    hide Pass, ServeAll, OutsideMoves, Servable, T.Reap, Kinds;
    assert TakesOut(runs(admitted[i]).moves, admitted[k], mid[admitted[k]]);
    assert Raises(mid, admitted, Kinds(mid), runs, k);
  }

  lemma AdmittedLease(cfg: ResourceConfig, t: T.Table, now: Time, admitted: seq<JobId>, mid: T.Table, k: nat)
    requires Pass(cfg, t, now, admitted, mid) && k < |admitted|
    ensures T.Hits(mid, admitted[k], Running) && mid[admitted[k]].lease == Some(now + CLAIM_LEASE)
  {
    AdmittedAreRunning(cfg, t, now, admitted, mid, admitted[k]);
    PassTouchesOnlyAdmitted(cfg, t, now, admitted, mid, admitted[k]);
  }

  /** Two GPU jobs on two slots, each of which returns its result, and one reap during each run: the pass is aborted. */
  lemma SomeAbortedPass(now: Time, wall: Time)
    returns (cfg: ResourceConfig, t: T.Table, runs: JobId -> JobRun, admitted: seq<JobId>, mid: T.Table,
             summaries: seq<Summary>, t': T.Table)
    ensures ServePass(cfg, t, now, wall, runs, [], admitted, mid, summaries, true, t')
    ensures |admitted| == 2
    ensures forall id :: runs(id) == JobRun([H.ReapAt(now + CLAIM_LEASE + 1)], Returned([]))
  {
    cfg := ResourceConfig(2, 0, 2);
    runs := _ => JobRun([H.ReapAt(now + CLAIM_LEASE + 1)], Returned([]));
    t, admitted, mid := TwoAdmitted(cfg, now);
    hide Pass, ServeAll, ExpiredRows, T.Reap;
    assert forall id :: OutsideMoves(runs(id).moves, id);
    AdmittedCanBeServed(cfg, t, now, admitted, mid, runs);
    var served := ServeAll(mid, admitted, Kinds(mid), runs, wall);
    summaries, t' := served.summaries, served.jobs;
    assert ReapSummaries(t, []) == [] && Elements<JobId>([]) == {};
    assert ServePass(cfg, t, now, wall, runs, [], admitted, mid, summaries, served.aborted, t');
    hide ServePass, OutsideMoves, Kinds;
    assert H.ReapAt(now + CLAIM_LEASE + 1) in runs(admitted[0]).moves;
    LongRunAborts(cfg, t, now, wall, runs, [], admitted, mid, summaries, served.aborted, t', 0, 1,
                  now + CLAIM_LEASE + 1);
  }

  lemma TwoAdmitted(cfg: ResourceConfig, now: Time) returns (t: T.Table, admitted: seq<JobId>, mid: T.Table)
    requires cfg == ResourceConfig(2, 0, 2)
    ensures ExpiredRows(t, now) == {} && T.Reap(t, now) == t
    ensures Pass(cfg, t, now, admitted, mid) && |admitted| == 2
    ensures admitted[0] in Kinds(mid) && Kinds(mid)[admitted[0]] == Train
  {
    var gpu := SomeIds(0, 2);
    t := Waiting(gpu, {});
    assert ExpiredRows(t, now) == {};
    NothingExpired(t, now);
    admitted, mid := SomePass(cfg, t, now);
    assert |admitted| == 2;
    AdmittedAreRunning(cfg, t, now, admitted, mid, admitted[0]);
    PassTouchesOnlyAdmitted(cfg, t, now, admitted, mid, admitted[0]);
  }

  /**
   A training job that runs out of memory on every try: if the tries run out while the
   batch could still shrink, the job is stored as SUCCEEDED, and only otherwise does it
   go the way of a failure.
   */
  lemma OutOfMemoryStoredAsSuccess(t: T.Table, id: JobId, c: BatchConfig, runner: (Call, nat) -> Attempt,
                                   latest: nat -> Option<string>, bound: nat, calls: seq<Call>, end: Ending, wall: Time)
    requires T.Hits(t, id, Running) && t[id].kind == Train
    requires Valid(c) && RecoveryRun(c, runner, latest, bound, calls, end)
    requires forall call, i :: 0 <= i < bound ==> runner(call, i).OutOfMemory?
    ensures ServedJob(t, id, Train, JobRun([], end), wall)[id].state == Succeeded <==> bound <= Shrinks(c)
  {
    AlwaysOom(c, runner, latest, bound, calls, end);
    var renewed := T.Renew(t, id, wall + TRAIN_LEASE);
    assert H.Replay(renewed, []) == renewed;
    if end.Raised? {
      T.FailMeaning(renewed, id, end.error);
    }
  }

  /**
   With the default of four retries, a training job of 32 prompts and two samples a step that
   never fits is stored as SUCCEEDED after five runs.
   */
  lemma DefaultRetriesStoreSuccess(t: T.Table, id: JobId, oom: JobError, wall: Time)
    returns (runner: (Call, nat) -> Attempt, calls: seq<Call>)
    requires T.Hits(t, id, Running) && t[id].kind == Train
    ensures forall call, i :: runner(call, i) == OutOfMemory(oom)
    ensures |calls| == 5 && RecoveryRun(BatchConfig(32, 2), runner, _ => None, 5, calls, NoResult)
    ensures ServedJob(t, id, Train, JobRun([], NoResult), wall)[id].state == Succeeded
  {
    var c, none := BatchConfig(32, 2), (_: nat) => None;
    runner := (_, _) => OutOfMemory(oom);
    FiveShrinks(c);
    forall i | 0 <= i <= 5 ensures ShrunkBy(c, i).Some? {
      ShrinksAreCounted(c, i);
    }
    calls := seq(5, i requires 0 <= i < 5 => CallAt(c, none, i));
    hide ShrunkBy, Shrinks, T.Hits;
    assert RecoveryRun(c, runner, none, 5, calls, NoResult);
    OutOfMemoryStoredAsSuccess(t, id, c, runner, none, 5, calls, NoResult, wall);
  }

  lemma FiveShrinks(c: BatchConfig)
    requires c == BatchConfig(32, 2)
    ensures Shrinks(c) == 5
  {
    assert Log2(32) == 1 + Log2(16) && Log2(16) == 1 + Log2(8) && Log2(8) == 1 + Log2(4);
  }

  /**
   A job the pass has just reaped competes for a slot in the same pass: it runs again, or its
   class or the cap is full and nothing that it comes before was admitted.
   */
  lemma ReapedJobRunsAgain(cfg: ResourceConfig, t: T.Table, now: Time, admitted: seq<JobId>, mid: T.Table, id: JobId)
    requires id in t && T.Expired(t[id], now) && !T.Exhausted(t[id]) && t[id].resource in {Gpu, Cpu}
    requires Pass(cfg, T.Reap(t, now), now, admitted, mid)
    ensures id in mid && mid[id].attempts == t[id].attempts + 1
    ensures mid[id].state == if id in admitted then Running else Pending
    ensures id !in admitted ==>
              var r := t[id].resource;
              && (|RunningOf(mid, r)| >= Slots(cfg, r) || |AllRunning(mid)| >= cfg.maxConcurrent)
              && forall x :: x in admitted && x in t && t[x].resource == r ==>
                   && t[x].priority >= t[id].priority
                   && (t[x].priority == t[id].priority ==> t[x].createdAt <= t[id].createdAt)
  {
    var t1 := T.Reap(t, now);
    PassTouchesOnlyAdmitted(cfg, t1, now, admitted, mid, id);
    if id !in admitted {
      var r := t[id].resource;
      assert id in PendingOf(mid, r);
      if |RunningOf(mid, r)| < Slots(cfg, r) && |AllRunning(mid)| < cfg.maxConcurrent {
        PassIsWorkConserving(cfg, t1, now, admitted, mid, r);
        assert false;
      }
      forall x | x in admitted && x in t && t[x].resource == r
        ensures t[x].priority >= t[id].priority
        ensures t[x].priority == t[id].priority ==> t[x].createdAt <= t[id].createdAt
      {
        AdmittedBefore(cfg, t1, now, admitted, mid, x, id);
      }
    }
  }

  /**
   When a pass has nothing to report, and so when serve_forever stops draining: exactly if
   no lease has expired and neither class has a waiting job, a free slot and room together.
   */
  lemma IdlePassIff(cfg: ResourceConfig, t: T.Table, now: Time, wall: Time, runs: JobId -> JobRun,
                    reaped: seq<JobId>, admitted: seq<JobId>, mid: T.Table,
                    summaries: seq<Summary>, aborted: bool, t': T.Table)
    requires ServePass(cfg, t, now, wall, runs, reaped, admitted, mid, summaries, aborted, t')
    requires forall id :: OutsideMoves(runs(id).moves, id)
    ensures summaries == [] && !aborted <==> Idle(cfg, t, now)
    ensures summaries == [] && !aborted ==> admitted == [] && t' == t
  {
    var t1 := T.Reap(t, now);
    AdmittedCanBeServed(cfg, t1, now, admitted, mid, runs);
    AbortedIff(mid, admitted, Kinds(mid), runs, wall);
    hide ServeAll, Raises, Servable;
    assert |summaries| >= |reaped|;
    assert reaped != [] ==> reaped[0] in Elements(reaped);
    if ExpiredRows(t, now) == {} {
      assert reaped == [];
      NothingExpired(t, now);
      assert admitted == [] <==> GpuQuota(cfg, t) == 0 && CpuQuota(cfg, t) == 0;
      if admitted == [] {
        EmptyPass(cfg, t, now, mid, runs, wall);
      }
    }
  }

  lemma NothingExpired(t: T.Table, now: Time)
    requires ExpiredRows(t, now) == {}
    ensures T.Reap(t, now) == t
  {
    assert forall id :: id in t ==> id !in ExpiredRows(t, now);
  }

  lemma EmptyPass(cfg: ResourceConfig, t: T.Table, now: Time, mid: T.Table, runs: JobId -> JobRun, wall: Time)
    requires Pass(cfg, t, now, [], mid)
    ensures mid == t && ServeAll(mid, [], Kinds(mid), runs, wall) == Served(t, [], false)
  {
    assert Elements<JobId>([]) == {};
    assert mid == Started(t, {}, now + CLAIM_LEASE) == t;
  }

  /** No pass can start the job as the table stands. */
  predicate Blocked(cfg: ResourceConfig, t: T.Table, j: Job) {
    || j.resource.OtherResource?
    || |RunningOf(t, j.resource)| >= Slots(cfg, j.resource)
    || |AllRunning(t)| >= cfg.maxConcurrent
  }

  predicate Idle(cfg: ResourceConfig, t: T.Table, now: Time) {
    ExpiredRows(t, now) == {} && GpuQuota(cfg, t) == 0 && CpuQuota(cfg, t) == 0
  }

  /** So draining stops exactly when no lease has expired and every job that waits is blocked. */
  lemma IdleIffAllBlocked(cfg: ResourceConfig, t: T.Table, now: Time)
    ensures Idle(cfg, t, now) <==>
              ExpiredRows(t, now) == {} && forall id :: T.Hits(t, id, Pending) ==> Blocked(cfg, t, t[id])
  {
    forall id | T.Hits(t, id, Pending) && !t[id].resource.OtherResource? ensures |PendingOf(t, t[id].resource)| > 0 {
      assert id in PendingOf(t, t[id].resource);
    }
    if forall id :: T.Hits(t, id, Pending) ==> Blocked(cfg, t, t[id]) {
      forall r | r in {Gpu, Cpu} && PendingOf(t, r) != {}
        ensures |RunningOf(t, r)| >= Slots(cfg, r) || |AllRunning(t)| >= cfg.maxConcurrent
      {
        var id :| id in PendingOf(t, r);
        assert T.Hits(t, id, Pending);
      }
    }
  }

  /**
   serve_forever stops draining with jobs waiting: one whose slot a foreign job holds, and
   one of a class that has no slots at all.
   */
  lemma DrainStopsEarly(now: Time)
    ensures exists cfg: ResourceConfig, t: T.Table ::
              Idle(cfg, t, now)
              && T.Hits(t, 1, Pending) && t[1].resource == Gpu
              && T.Hits(t, 2, Pending) && t[2].resource.OtherResource?
  {
    var cfg := ResourceConfig(1, 4, 8);
    var j := Job(Train, map[], Pending, 0, 3, None, Gpu, 0, 0, None);
    var foreign := j.(state := Running, lease := Some(now));
    var t: T.Table := map[0 := foreign, 1 := j, 2 := j.(resource := OtherResource([]))];
    assert ExpiredRows(t, now) == {} && RunningOf(t, Gpu) == {0} && PendingOf(t, Cpu) == {};
    assert Idle(cfg, t, now);
  }
}
