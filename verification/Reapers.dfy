/** What a reaper sees, and what it gives up on. */
module Reapers {
  import opened Basics
  import opened Jobs
  import opened JobTable
  import opened Protocol

  // ------------------------------------------------------------ jobs that no reaper sees

  predicate InReapList(proc: Proc, id: JobId) {
    match proc
    case Reaping(ids) => id in ids
    case Writing(i, _, why) => why.ReapRow? && (i == id || id in why.rest)
    case _ => false
  }

  /** The row is RUNNING without a lease and on no reaper's list. */
  ghost predicate Invisible(s: State, id: JobId) {
    && Hits(s.jobs, id, Running) && s.jobs[id].lease == None
    && forall p :: !InReapList(At(s, p), id)
  }

  /** No commit takes the job out of RUNNING and no renewal leases it. */
  predicate Undisturbed(s: State, acts: seq<Action>, id: JobId)
    decreases |acts|
  {
    acts == [] ||
    (&& !Releases(s, acts[0], id)
     && !(acts[0].RenewLease? && acts[0].renewId == id)
     && Undisturbed(Do(s, acts[0]), acts[1..], id))
  }

  lemma InvisibleStep(s: State, a: Action, id: JobId)
    requires Invisible(s, id) && !Releases(s, a, id) && !(a.RenewLease? && a.renewId == id)
    ensures Invisible(Do(s, a), id)
  {
    NextAt(s, a);
    assert a.By? ==> !InReapList(NextProc(s, a), id);
  }

  lemma {:induction false} InvisibleRun(s: State, acts: seq<Action>, id: JobId)
    requires Invisible(s, id) && Undisturbed(s, acts, id)
    ensures Invisible(Run(s, acts), id)
    decreases |acts|
  {
    if acts != [] {
      InvisibleStep(s, acts[0], id);
      InvisibleRun(Do(s, acts[0]), acts[1..], id);
    }
  }

  /**
   A job that transition() set RUNNING has no lease: whoever queries, it gets on no reaper's
   list until a commit takes it out of RUNNING or a renewal leases it.
   */
  lemma HandStartedIsInvisible(s: State, p: Pid, acts: seq<Action>, id: JobId)
    requires StartsByHand(s, By(p, CommitWrite), id)
    requires forall q :: !InReapList(At(s, q), id)
    requires Undisturbed(Do(s, By(p, CommitWrite)), acts, id)
    ensures Invisible(Run(Do(s, By(p, CommitWrite)), acts), id)
  {
    NextAt(s, By(p, CommitWrite));
    InvisibleRun(Do(s, By(p, CommitWrite)), acts, id);
  }

  // ------------------------------------------------------------ rows that a reaper gives up on

  predicate IsReaping(proc: Proc) {
    proc.Reaping? || (proc.Writing? && proc.why.ReapRow?)
  }

  /** The rows the reaper has selected and not failed yet. */
  function Todo(proc: Proc): seq<JobId> {
    match proc
    case Reaping(ids) => ids
    case Writing(i, _, why) => if why.ReapRow? then [i] + why.rest else []
    case _ => []
  }

  /** One whole reap of p from some point on: p is reaping until the last step, and does not crash. */
  predicate ReapRun(s: State, acts: seq<Action>, p: Pid)
    decreases |acts|
  {
    if acts == [] then At(s, p) == Idle
    else IsReaping(At(s, p)) && acts[0] != By(p, Crash) && ReapRun(Do(s, acts[0]), acts[1..], p)
  }

  /** The step commits the failure of the row at hand. */
  predicate ReapsRow(s: State, a: Action, p: Pid) {
    && a == By(p, CommitWrite) && At(s, p).Writing? && At(s, p).why.ReapRow?
    && Hits(s.jobs, At(s, p).id, At(s, p).w.from)
  }

  /** The reaper finds that the row at hand is not RUNNING, when it reads it or when it updates it. */
  predicate LosesRow(s: State, a: Action, p: Pid) {
    var proc := At(s, p);
    || (a == By(p, BeginReapRow) && proc.Reaping? && proc.ids != [] && !Hits(s.jobs, proc.ids[0], Running))
    || (a == By(p, CommitWrite) && proc.Writing? && proc.why.ReapRow? && !Hits(s.jobs, proc.id, proc.w.from))
  }

  function ReapedRows(s: State, acts: seq<Action>, p: Pid): seq<JobId>
    decreases |acts|
  {
    if acts == [] then []
    else (if ReapsRow(s, acts[0], p) then [At(s, p).id] else []) + ReapedRows(Do(s, acts[0]), acts[1..], p)
  }

  predicate Loses(s: State, acts: seq<Action>, p: Pid)
    decreases |acts|
  {
    acts != [] && (LosesRow(s, acts[0], p) || Loses(Do(s, acts[0]), acts[1..], p))
  }

  /** What one step does to the reaper's list. */
  lemma ReapStep(s: State, a: Action, p: Pid)
    requires IsReaping(At(s, p)) && a != By(p, Crash)
    ensures var next := At(Do(s, a), p);
            && (ReapsRow(s, a, p) ==> IsReaping(next) && [At(s, p).id] + Todo(next) == Todo(At(s, p)))
            && (LosesRow(s, a, p) ==> next == Idle && Todo(At(s, p)) != [])
            && (!ReapsRow(s, a, p) && !LosesRow(s, a, p) ==>
                  Todo(next) == Todo(At(s, p)) && (IsReaping(next) || (next == Idle && Todo(At(s, p)) == [])))
  {
    NextAt(s, a);
    var proc := At(s, p);
    if a == By(p, BeginReapRow) && proc.Reaping? && proc.ids != [] {
      if proc.ids[0] in s.jobs {
        var j := s.jobs[proc.ids[0]];
        FailPathLegalIffRunning(j.state, Exhausted(j));
      }
    }
  }

  /**
   reap_expired() with anything in between: it fails its rows in order and gives up the rest
   at the first lost race, so it fails every selected row exactly if it never finds one that
   is not RUNNING any more.
   */
  lemma {:induction false} ReapStopsAtFirstLostRow(s: State, acts: seq<Action>, p: Pid)
    requires IsReaping(At(s, p)) && ReapRun(s, acts, p)
    ensures ReapedRows(s, acts, p) <= Todo(At(s, p))
    ensures ReapedRows(s, acts, p) == Todo(At(s, p)) <==> !Loses(s, acts, p)
    decreases |acts|
  {
    var s1 := Do(s, acts[0]);
    ReapStep(s, acts[0], p);
    if IsReaping(At(s1, p)) {
      ReapStopsAtFirstLostRow(s1, acts[1..], p);
    } else {
      assert acts[1..] == [];
    }
  }
}
