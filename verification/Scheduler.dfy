/** Admission control: one pass in closed form, and capacity over whole runs. */
module Schedulers {
  import opened Basics
  import opened Jobs
  import opened JobStores
  import T = JobTable
  import H = Histories

  datatype ResourceConfig = ResourceConfig(gpuSlots: int, cpuSlots: int, maxConcurrent: int)

  const CLAIM_LEASE: Time := 30

  function Slots(cfg: ResourceConfig, r: Resource): int {
    match r
    case Gpu => cfg.gpuSlots
    case Cpu => cfg.cpuSlots
    case OtherResource(_) => 0
  }

  /** The table with the chosen rows claimed. */
  function Started(t: T.Table, ids: set<JobId>, lease: Time): T.Table {
    map id | id in t :: if id in ids then t[id].(state := Running, lease := Some(lease)) else t[id]
  }

  /** No job left waiting comes before an admitted one; admission follows the same order. */
  ghost predicate TopOf(t: T.Table, rows: set<JobId>, admitted: seq<JobId>)
    requires rows <= t.Keys
  {
    && Distinct(admitted)
    && Elements(admitted) <= rows
    && (forall i, x :: 0 <= i < |admitted| && x in rows - Elements(admitted) ==> !Before(true, t[x], t[admitted[i]]))
    && (forall i, j :: 0 <= i < j < |admitted| ==> !Before(true, t[admitted[j]], t[admitted[i]]))
  }

  /** How many of the waiting jobs fit: free slots of the class, and room under the global cap. */
  function Quota(waiting: nat, free: int, room: int): nat {
    Max(0, Min(waiting, Min(free, room)))
  }

  function GpuQuota(cfg: ResourceConfig, t: T.Table): nat {
    Quota(|PendingOf(t, Gpu)|, cfg.gpuSlots - |RunningOf(t, Gpu)|, cfg.maxConcurrent - |AllRunning(t)|)
  }

  function CpuQuota(cfg: ResourceConfig, t: T.Table): nat {
    Quota(|PendingOf(t, Cpu)|, cfg.cpuSlots - |RunningOf(t, Cpu)|,
          cfg.maxConcurrent - |AllRunning(t)| - GpuQuota(cfg, t))
  }

  /** The inner loop on counts that may be old: as many of the waiting jobs as they allow, a top-k. */
  ghost predicate Admits(t: T.Table, r: Resource, free: int, room: int, now: Time, admitted: seq<JobId>, t': T.Table) {
    && |admitted| == Quota(|PendingOf(t, r)|, free, room)
    && TopOf(t, PendingOf(t, r), admitted)
    && t' == Started(t, Elements(admitted), now + CLAIM_LEASE)
  }

  /** One pass: GPU jobs, then CPU jobs, each a top-k of its class, and nothing else changed. */
  ghost predicate Pass(cfg: ResourceConfig, t: T.Table, now: Time, admitted: seq<JobId>, t': T.Table) {
    var g := GpuQuota(cfg, t);
    && |admitted| == g + CpuQuota(cfg, t)
    && TopOf(t, PendingOf(t, Gpu), admitted[..g])
    && TopOf(t, PendingOf(t, Cpu), admitted[g..])
    && t' == Started(t, Elements(admitted), now + CLAIM_LEASE)
  }

  class Scheduler {
    const store: JobStore
    const cfg: ResourceConfig

    constructor (store: JobStore, cfg: ResourceConfig)
      ensures this.store == store && this.cfg == cfg
    {
      this.store := store;
      this.cfg := cfg;
    }

    /** The inner loop of schedule(), for one resource class. */
    method Admit(r: Resource, free0: int, total0: int, now: Time) returns (admitted: seq<JobId>)
      modifies store`jobs
      ensures Admits(old(store.jobs), r, free0, cfg.maxConcurrent - total0, now, admitted, store.jobs)
    {
      ghost var t := store.jobs;
      ghost var rows := PendingOf(t, r);
      admitted := [];
      var free, total := free0, total0;
      assert store.jobs == Started(t, Elements([]), now + CLAIM_LEASE);
      while free > 0 && total < cfg.maxConcurrent
        invariant TopOf(t, rows, admitted)
        invariant |admitted| <= |rows|
        invariant store.jobs == Started(t, Elements(admitted), now + CLAIM_LEASE)
        invariant free == free0 - |admitted| && total == total0 + |admitted|
        invariant |admitted| > 0 ==> |admitted| <= free0 && |admitted| <= cfg.maxConcurrent - total0
        decreases free
      {
        PendingShrinks(t, r, admitted, now + CLAIM_LEASE);
        var claimed := store.ClaimPriority(r, CLAIM_LEASE, now);
        if claimed == None {
          break;
        }
        Extend(t, rows, admitted, claimed.value);
        StartOneMore(t, admitted, claimed.value, now + CLAIM_LEASE);
        admitted := admitted + [claimed.value];
        DistinctSize(admitted);
        SubsetSize(Elements(admitted), rows);
        free := free - 1;
        total := total + 1;
      }
    }

    method Schedule(now: Time) returns (admitted: seq<JobId>)
      modifies store`jobs
      ensures Pass(cfg, old(store.jobs), now, admitted, store.jobs)
    {
      ghost var t := store.jobs;
      var total := |AllRunning(store.jobs)|;
      var gpuFree := cfg.gpuSlots - |RunningOf(store.jobs, Gpu)|;
      var cpuFree := cfg.cpuSlots - |RunningOf(store.jobs, Cpu)|;
      var gpu := Admit(Gpu, gpuFree, total, now);
      ghost var t1 := store.jobs;
      var cpu := Admit(Cpu, cpuFree, total + |gpu|, now);
      assert |gpu| == GpuQuota(cfg, t);
      admitted := gpu + cpu;
      TwoClasses(cfg, t, gpu, t1, cpu, store.jobs, now);
    }
  }

  // ------------------------------------------------------------ helpers of the loop

  lemma {:induction false} DistinctSize(s: seq<JobId>)
    requires Distinct(s)
    ensures |Elements(s)| == |s|
  {
    if s != [] {
      var n := |s| - 1;
      DistinctSize(s[..n]);
      assert Elements(s) == Elements(s[..n]) + {s[n]};
      assert s[n] !in s[..n];
    } else {
      assert Elements(s) == {};
    }
  }

  lemma {:induction false} SubsetSize<X>(a: set<X>, b: set<X>)
    requires a <= b
    ensures |a| <= |b|
    ensures |b - a| == |b| - |a|
  {
    assert b == a + (b - a);
  }

  lemma PendingShrinks(t: T.Table, r: Resource, admitted: seq<JobId>, lease: Time)
    requires Distinct(admitted) && Elements(admitted) <= PendingOf(t, r)
    ensures PendingOf(Started(t, Elements(admitted), lease), r) == PendingOf(t, r) - Elements(admitted)
    ensures |PendingOf(t, r) - Elements(admitted)| == |PendingOf(t, r)| - |admitted|
  {
    DistinctSize(admitted);
    SubsetSize(Elements(admitted), PendingOf(t, r));
  }

  lemma Extend(t: T.Table, rows: set<JobId>, admitted: seq<JobId>, id: JobId)
    requires rows <= t.Keys && TopOf(t, rows, admitted)
    requires First(t, rows - Elements(admitted), true, id)
    ensures TopOf(t, rows, admitted + [id])
  {
    var more := admitted + [id];
    assert Elements(more) == Elements(admitted) + {id};
    forall i, x | 0 <= i < |more| && x in rows - Elements(more) ensures !Before(true, t[x], t[more[i]]) {
      assert x in rows - Elements(admitted);
    }
    forall i, j | 0 <= i < j < |more| ensures !Before(true, t[more[j]], t[more[i]]) && more[i] != more[j] {
      assert more[i] in Elements(admitted);
      if j == |admitted| {
        assert id in rows - Elements(admitted);
      }
    }
  }

  lemma StartOneMore(t: T.Table, admitted: seq<JobId>, id: JobId, lease: Time)
    requires id in t && id !in admitted && t[id].state == Pending
    ensures T.Claim(Started(t, Elements(admitted), lease), id, lease) == Started(t, Elements(admitted + [id]), lease)
  {
    assert Elements(admitted + [id]) == Elements(admitted) + {id};
  }

  /** Admitting the second class does not see, and does not disturb, the first. */
  lemma TwoClasses(cfg: ResourceConfig, t: T.Table, gpu: seq<JobId>, t1: T.Table, cpu: seq<JobId>, t2: T.Table,
                   now: Time)
    requires |gpu| == GpuQuota(cfg, t)
    requires TopOf(t, PendingOf(t, Gpu), gpu) && t1 == Started(t, Elements(gpu), now + CLAIM_LEASE)
    requires TopOf(t1, PendingOf(t1, Cpu), cpu) && t2 == Started(t1, Elements(cpu), now + CLAIM_LEASE)
    requires |cpu| == Quota(|PendingOf(t1, Cpu)|, cfg.cpuSlots - |RunningOf(t, Cpu)|,
                            cfg.maxConcurrent - |AllRunning(t)| - |gpu|)
    ensures Pass(cfg, t, now, gpu + cpu, t2)
  {
    assert PendingOf(t1, Cpu) == PendingOf(t, Cpu);
    assert TopOf(t, PendingOf(t, Cpu), cpu) by {
      assert forall x :: x in PendingOf(t, Cpu) ==> t1[x] == t[x];
      assert forall i :: 0 <= i < |cpu| ==> cpu[i] in Elements(cpu);
    }
    assert t2 == Started(t, Elements(gpu + cpu), now + CLAIM_LEASE) by {
      assert Elements(gpu + cpu) == Elements(gpu) + Elements(cpu);
    }
    assert (gpu + cpu)[..|gpu|] == gpu && (gpu + cpu)[|gpu|..] == cpu;
  }

  // ------------------------------------------------------------ what a pass means

  lemma SplitIds(s: seq<JobId>, g: nat)
    requires g <= |s|
    ensures Elements(s) == Elements(s[..g]) + Elements(s[g..])
  {
    assert s == s[..g] + s[g..];
  }

  /** Starting some waiting jobs of a class, and jobs of other classes beside them. */
  lemma StartedInClass(t: T.Table, ids: set<JobId>, mine: set<JobId>, r: Resource, lease: Time)
    requires mine <= PendingOf(t, r) && mine <= ids
    requires forall x :: x in ids - mine ==> x in t && t[x].resource != r
    ensures |RunningOf(Started(t, ids, lease), r)| == |RunningOf(t, r)| + |mine|
  {
    assert RunningOf(Started(t, ids, lease), r) == RunningOf(t, r) + mine;
    assert RunningOf(t, r) !! mine;
  }

  lemma LeftWaiting(t: T.Table, ids: set<JobId>, mine: set<JobId>, r: Resource, lease: Time)
    requires mine <= PendingOf(t, r) && mine <= ids
    requires forall x :: x in ids - mine ==> x in t && t[x].resource != r
    ensures |PendingOf(Started(t, ids, lease), r)| == |PendingOf(t, r)| - |mine|
  {
    assert PendingOf(Started(t, ids, lease), r) == PendingOf(t, r) - mine;
    SubsetSize(mine, PendingOf(t, r));
  }

  lemma StartedInAll(t: T.Table, ids: set<JobId>, lease: Time)
    requires forall x :: x in ids ==> T.Hits(t, x, Pending)
    ensures |AllRunning(Started(t, ids, lease))| == |AllRunning(t)| + |ids|
  {
    assert AllRunning(Started(t, ids, lease)) == AllRunning(t) + ids && AllRunning(t) !! ids;
  }

  /** The jobs a pass admits, as two sets. */
  lemma PassSets(cfg: ResourceConfig, t: T.Table, now: Time, admitted: seq<JobId>, t': T.Table)
    returns (gpu: set<JobId>, cpu: set<JobId>)
    requires Pass(cfg, t, now, admitted, t')
    ensures gpu <= PendingOf(t, Gpu) && cpu <= PendingOf(t, Cpu)
    ensures |gpu| == GpuQuota(cfg, t) && |cpu| == CpuQuota(cfg, t)
    ensures Elements(admitted) == gpu + cpu
    ensures t' == Started(t, gpu + cpu, now + CLAIM_LEASE)
  {
    var g := GpuQuota(cfg, t);
    gpu, cpu := Elements(admitted[..g]), Elements(admitted[g..]);
    DistinctSize(admitted[..g]);
    DistinctSize(admitted[g..]);
    SplitIds(admitted, g);
  }

  /** The counts after a pass. */
  lemma PassCounts(cfg: ResourceConfig, t: T.Table, now: Time, admitted: seq<JobId>, t': T.Table)
    requires Pass(cfg, t, now, admitted, t')
    ensures |RunningOf(t', Gpu)| == |RunningOf(t, Gpu)| + GpuQuota(cfg, t)
    ensures |RunningOf(t', Cpu)| == |RunningOf(t, Cpu)| + CpuQuota(cfg, t)
    ensures |AllRunning(t')| == |AllRunning(t)| + GpuQuota(cfg, t) + CpuQuota(cfg, t)
    ensures |PendingOf(t', Gpu)| == |PendingOf(t, Gpu)| - GpuQuota(cfg, t)
    ensures |PendingOf(t', Cpu)| == |PendingOf(t, Cpu)| - CpuQuota(cfg, t)
  {
    var gpu, cpu := PassSets(cfg, t, now, admitted, t');
    hide Pass;
    StartedInClass(t, gpu + cpu, gpu, Gpu, now + CLAIM_LEASE);
    StartedInClass(t, gpu + cpu, cpu, Cpu, now + CLAIM_LEASE);
    LeftWaiting(t, gpu + cpu, gpu, Gpu, now + CLAIM_LEASE);
    LeftWaiting(t, gpu + cpu, cpu, Cpu, now + CLAIM_LEASE);
    StartedInAll(t, gpu + cpu, now + CLAIM_LEASE);
    assert gpu !! cpu;
  }

  /** A pass is work-conserving: a free slot with room under the cap means nothing is waiting for it. */
  lemma PassIsWorkConserving(cfg: ResourceConfig, t: T.Table, now: Time, admitted: seq<JobId>, t': T.Table,
                             r: Resource)
    requires Pass(cfg, t, now, admitted, t')
    requires r == Gpu || r == Cpu
    requires |RunningOf(t', r)| < Slots(cfg, r) && |AllRunning(t')| < cfg.maxConcurrent
    ensures PendingOf(t', r) == {}
  {
    PassCounts(cfg, t, now, admitted, t');
    assert |PendingOf(t', r)| == 0;
  }

  /** An immediate second pass admits nothing and changes nothing. */
  lemma SecondPassIsIdle(cfg: ResourceConfig, t: T.Table, now: Time, admitted: seq<JobId>, t1: T.Table,
                         later: Time, again: seq<JobId>, t2: T.Table)
    requires Pass(cfg, t, now, admitted, t1)
    requires Pass(cfg, t1, later, again, t2)
    ensures again == [] && t2 == t1
  {
    PassCounts(cfg, t, now, admitted, t1);
    assert GpuQuota(cfg, t1) == 0 && CpuQuota(cfg, t1) == 0;
    assert t2 == Started(t1, Elements(again), later + CLAIM_LEASE);
  }

  /** Jobs of any other resource class are never admitted; admitted jobs were PENDING and now hold a lease. */
  lemma PassTouchesOnlyAdmitted(cfg: ResourceConfig, t: T.Table, now: Time, admitted: seq<JobId>, t': T.Table,
                                id: JobId)
    requires Pass(cfg, t, now, admitted, t')
    requires id in t
    ensures id in t'
    ensures id in admitted ==> T.Hits(t, id, Pending) && t[id].resource in {Gpu, Cpu}
                               && t'[id] == t[id].(state := Running, lease := Some(now + CLAIM_LEASE))
    ensures id !in admitted ==> t'[id] == t[id]
  {
    var gpu, cpu := PassSets(cfg, t, now, admitted, t');
    hide Pass;
    assert id in admitted <==> id in Elements(admitted);
  }

  /** A waiting job that was not admitted does not come before an admitted one of its class. */
  lemma AdmittedBefore(cfg: ResourceConfig, t: T.Table, now: Time, admitted: seq<JobId>, mid: T.Table,
                       x: JobId, id: JobId)
    requires Pass(cfg, t, now, admitted, mid)
    requires x in admitted && x in t && t[x].resource in {Gpu, Cpu}
    requires id in PendingOf(t, t[x].resource) && id !in admitted
    ensures !Before(true, t[id], t[x])
  {
    var g := GpuQuota(cfg, t);
    var gpu, cpu := admitted[..g], admitted[g..];
    assert x in gpu || x in cpu;
    assert id !in gpu && id !in cpu;
    assert x in gpu ==> x in Elements(gpu);
    assert x in cpu ==> x in Elements(cpu);
    var mine := if x in gpu then gpu else cpu;
    var i :| 0 <= i < |mine| && mine[i] == x;
    assert id in PendingOf(t, t[x].resource) - Elements(mine);
  }

  /**
   No job left waiting has a higher priority than an admitted one of its class, nor the same and an
   earlier creation.
   */
  lemma PassFollowsPriority(cfg: ResourceConfig, t: T.Table, now: Time, admitted: seq<JobId>, t': T.Table,
                            x: JobId, id: JobId)
    requires Pass(cfg, t, now, admitted, t')
    requires x in admitted && x in t && T.Hits(t', id, Pending) && id in t && t[id].resource == t[x].resource
    ensures T.Hits(t, x, Pending) && T.Hits(t', x, Running) && t'[x].lease == Some(now + 30)
    ensures t[x].priority >= t[id].priority
    ensures t[x].priority == t[id].priority ==> t[x].createdAt <= t[id].createdAt
  {
    PassTouchesOnlyAdmitted(cfg, t, now, admitted, t', x);
    PassTouchesOnlyAdmitted(cfg, t, now, admitted, t', id);
    AdmittedBefore(cfg, t, now, admitted, t', x, id);
  }

  /** No job is admitted twice. */
  lemma PassAdmitsOnce(cfg: ResourceConfig, t: T.Table, now: Time, admitted: seq<JobId>, t': T.Table)
    requires Pass(cfg, t, now, admitted, t')
    ensures Distinct(admitted)
  {
    var g := GpuQuota(cfg, t);
    var a, b := admitted[..g], admitted[g..];
    assert Elements(a) <= PendingOf(t, Gpu) && Elements(b) <= PendingOf(t, Cpu);
    JoinDistinct(a, b);
    assert a + b == admitted;
  }

  lemma JoinDistinct(a: seq<JobId>, b: seq<JobId>)
    requires Distinct(a) && Distinct(b) && Elements(a) !! Elements(b)
    ensures Distinct(a + b)
  {
    forall i, j | 0 <= i < j < |a + b| ensures (a + b)[i] != (a + b)[j] {
      if i < |a| <= j {
        assert a[i] in Elements(a) && b[j - |a|] in Elements(b);
      }
    }
  }

  // ------------------------------------------------------------ capacity over whole runs

  ghost predicate WithinCapacity(cfg: ResourceConfig, t: T.Table) {
    && |RunningOf(t, Gpu)| <= cfg.gpuSlots
    && |RunningOf(t, Cpu)| <= cfg.cpuSlots
    && |AllRunning(t)| <= cfg.maxConcurrent
  }

  /** Everything but starting a job: submit, complete, fail, cancel, pause, resume, renew, reap. */
  predicate StartsNothing(e: H.Event) {
    !e.ClaimOf? && (e.Move? ==> e.to != Running)
  }

  /** One uninterrupted step of a system in which jobs are started by schedule() alone. */
  ghost predicate SystemStep(cfg: ResourceConfig, t: T.Table, t': T.Table) {
    || (exists e :: StartsNothing(e) && t' == H.Apply(t, e))
    || (exists now, admitted :: Pass(cfg, t, now, admitted, t'))
  }

  lemma QuietEventsOnlyFreeSlots(cfg: ResourceConfig, t: T.Table, e: H.Event)
    requires StartsNothing(e)
    requires WithinCapacity(cfg, t)
    ensures WithinCapacity(cfg, H.Apply(t, e))
  {
    var t' := H.Apply(t, e);
    forall id | id in t' && t'[id].state == Running
      ensures id in t && t[id].state == Running && t'[id].resource == t[id].resource
    {
      match e
      case FailOf(i, error) => T.FailMeaning(t, i, error);
      case _ =>
    }
    SubsetSize(RunningOf(t', Gpu), RunningOf(t, Gpu));
    SubsetSize(RunningOf(t', Cpu), RunningOf(t, Cpu));
    SubsetSize(AllRunning(t'), AllRunning(t));
  }

  /** Running jobs never exceed the slots of their class nor the global cap, in any run. */
  lemma {:induction false} CapacityIsNeverExceeded(cfg: ResourceConfig, run: seq<T.Table>, k: nat)
    requires k < |run|
    requires WithinCapacity(cfg, run[0])
    requires forall i :: 0 <= i < |run| - 1 ==> SystemStep(cfg, run[i], run[i + 1])
    ensures WithinCapacity(cfg, run[k])
  {
    if k > 0 {
      CapacityIsNeverExceeded(cfg, run, k - 1);
      var t, t' := run[k - 1], run[k];
      assert SystemStep(cfg, run[k - 1], run[k - 1 + 1]);
      if e :| StartsNothing(e) && t' == H.Apply(t, e) {
        QuietEventsOnlyFreeSlots(cfg, t, e);
      } else {
        var now, admitted :| Pass(cfg, t, now, admitted, t');
        PassCounts(cfg, t, now, admitted, t');
      }
    }
  }

  // ------------------------------------------------------------ passes exist

  /** Any number of the waiting rows can be taken in order. */
  lemma {:induction false} SomeTop(t: T.Table, rows: set<JobId>, k: nat) returns (top: seq<JobId>)
    requires rows <= t.Keys && k <= |rows|
    ensures |top| == k && TopOf(t, rows, top)
  {
    if k == 0 {
      top := [];
    } else {
      var before := SomeTop(t, rows, k - 1);
      DistinctSize(before);
      SubsetSize(Elements(before), rows);
      hide TopOf;
      TopWithin(t, rows, before);
      SomeRowIsFirst(t, rows - Elements(before), true);
      var id :| First(t, rows - Elements(before), true, id);
      Extend(t, rows, before, id);
      top := before + [id];
    }
  }

  lemma TopWithin(t: T.Table, rows: set<JobId>, top: seq<JobId>)
    requires rows <= t.Keys && TopOf(t, rows, top)
    ensures Elements(top) <= rows && Distinct(top)
  {
  }

  lemma SomeAdmits(t: T.Table, r: Resource, free: int, room: int, now: Time)
    returns (admitted: seq<JobId>, t': T.Table)
    ensures Admits(t, r, free, room, now, admitted, t')
  {
    admitted := SomeTop(t, PendingOf(t, r), Quota(|PendingOf(t, r)|, free, room));
    t' := Started(t, Elements(admitted), now + CLAIM_LEASE);
  }

  /** A pass is possible on every table. */
  lemma SomePass(cfg: ResourceConfig, t: T.Table, now: Time) returns (admitted: seq<JobId>, t': T.Table)
    ensures Pass(cfg, t, now, admitted, t')
  {
    var gpu, t1 := SomeAdmits(t, Gpu, cfg.gpuSlots - |RunningOf(t, Gpu)|, cfg.maxConcurrent - |AllRunning(t)|, now);
    var cpu, t2 := SomeAdmits(t1, Cpu, cfg.cpuSlots - |RunningOf(t, Cpu)|,
                              cfg.maxConcurrent - |AllRunning(t)| - |gpu|, now);
    TwoClasses(cfg, t, gpu, t1, cpu, t2, now);
    admitted, t' := gpu + cpu, t2;
  }

  // ------------------------------------------------------------ overlapping passes

  /** What a pass reads before it admits anything: the jobs waiting, the free slots and the room under the cap. */
  datatype Reading = Reading(gpuWaiting: nat, cpuWaiting: nat, gpuFree: nat, cpuFree: nat, room: nat)

  ghost function ReadingOf(cfg: ResourceConfig, t: T.Table): Reading
    requires WithinCapacity(cfg, t)
  {
    Reading(|PendingOf(t, Gpu)|, |PendingOf(t, Cpu)|,
            cfg.gpuSlots - |RunningOf(t, Gpu)|, cfg.cpuSlots - |RunningOf(t, Cpu)|,
            cfg.maxConcurrent - |AllRunning(t)|)
  }

  /** A whole pass that goes by the reading: GPU jobs, then CPU jobs with the room those left it. */
  ghost predicate StalePassBy(c: Reading, t: T.Table, now: Time, gpu: seq<JobId>, t1: T.Table, cpu: seq<JobId>,
                              t': T.Table)
  {
    && Admits(t, Gpu, c.gpuFree, c.room, now, gpu, t1)
    && Admits(t1, Cpu, c.cpuFree, c.room - |gpu|, now, cpu, t')
  }

  ghost predicate StalePass(c: Reading, t: T.Table, t': T.Table) {
    exists now, gpu, t1, cpu :: StalePassBy(c, t, now, gpu, t1, cpu, t')
  }

  /** Any number of passes, one after the other, that all go by the same reading. */
  ghost predicate Overlap(c: Reading, run: seq<T.Table>) {
    run != [] && forall i :: 0 <= i < |run| - 1 ==> StalePass(c, run[i], run[i + 1])
  }

  /** The GPU jobs that k such passes start. */
  function GpuBy(c: Reading, k: nat): nat {
    Min(c.gpuWaiting, k * Min(c.gpuFree, c.room))
  }

  /** The CPU jobs that k such passes start; each has the room that its own GPU jobs left. */
  function CpuBy(c: Reading, k: nat): (n: nat)
    ensures n <= c.cpuWaiting
  {
    if k == 0 then 0
    else
      var before := CpuBy(c, k - 1);
      before + Quota(c.cpuWaiting - before, c.cpuFree, c.room - (GpuBy(c, k) - GpuBy(c, k - 1)))
  }

  lemma AdmitsCounts(t: T.Table, r: Resource, free: int, room: int, now: Time, admitted: seq<JobId>, t': T.Table)
    requires Admits(t, r, free, room, now, admitted, t')
    ensures |RunningOf(t', r)| == |RunningOf(t, r)| + |admitted|
    ensures |AllRunning(t')| == |AllRunning(t)| + |admitted|
    ensures |PendingOf(t', r)| == |PendingOf(t, r)| - |admitted|
  {
    var ids := Elements(admitted);
    DistinctSize(admitted);
    hide TopOf, Started;
    StartedInClass(t, ids, ids, r, now + CLAIM_LEASE);
    LeftWaiting(t, ids, ids, r, now + CLAIM_LEASE);
    StartedInAll(t, ids, now + CLAIM_LEASE);
  }

  /** Admitting jobs of one class leaves the counts of another as they are. */
  lemma OtherClassCounts(t: T.Table, r: Resource, other: Resource, free: int, room: int, now: Time,
                         admitted: seq<JobId>, t': T.Table)
    requires Admits(t, r, free, room, now, admitted, t') && other != r
    ensures |RunningOf(t', other)| == |RunningOf(t, other)| && |PendingOf(t', other)| == |PendingOf(t, other)|
  {
    var ids := Elements(admitted);
    hide TopOf, Started;
    TopWithin(t, PendingOf(t, r), admitted);
    StartedInClass(t, ids, {}, other, now + CLAIM_LEASE);
    LeftWaiting(t, ids, {}, other, now + CLAIM_LEASE);
  }

  lemma QuotaAdds(waiting: nat, n: nat, free: nat, room: nat)
    requires n > 0
    ensures var m := Min(free, room);
            var before := Min(waiting, (n - 1) * m);
            0 <= before <= waiting && before + Quota(waiting - before, free, room) == Min(waiting, n * m)
  {
    var m := Min(free, room);
    assert n * m == (n - 1) * m + m && (n - 1) * m >= 0;
  }

  /** The table after passes that started this many jobs of each class. */
  ghost predicate Grown(t: T.Table, t': T.Table, gpu: nat, cpu: nat) {
    && |RunningOf(t', Gpu)| == |RunningOf(t, Gpu)| + gpu && |PendingOf(t', Gpu)| == |PendingOf(t, Gpu)| - gpu
    && |RunningOf(t', Cpu)| == |RunningOf(t, Cpu)| + cpu && |PendingOf(t', Cpu)| == |PendingOf(t, Cpu)| - cpu
    && |AllRunning(t')| == |AllRunning(t)| + gpu + cpu
  }

  lemma OnePassMore(c: Reading, t0: T.Table, t: T.Table, t': T.Table, k: nat)
    requires k > 0 && StalePass(c, t, t') && Grown(t0, t, GpuBy(c, k - 1), CpuBy(c, k - 1))
    requires c.gpuWaiting == |PendingOf(t0, Gpu)| && c.cpuWaiting == |PendingOf(t0, Cpu)|
    ensures Grown(t0, t', GpuBy(c, k), CpuBy(c, k))
  {
    hide RunningOf, PendingOf, AllRunning, Quota;
    var now, gpu, t1, cpu :| StalePassBy(c, t, now, gpu, t1, cpu, t');
    AdmitsCounts(t, Gpu, c.gpuFree, c.room, now, gpu, t1);
    OtherClassCounts(t, Gpu, Cpu, c.gpuFree, c.room, now, gpu, t1);
    AdmitsCounts(t1, Cpu, c.cpuFree, c.room - |gpu|, now, cpu, t');
    OtherClassCounts(t1, Cpu, Gpu, c.cpuFree, c.room - |gpu|, now, cpu, t');
    AdmitsSize(t, Gpu, c.gpuFree, c.room, now, gpu, t1);
    AdmitsSize(t1, Cpu, c.cpuFree, c.room - |gpu|, now, cpu, t');
    hide Admits;
    QuotaAdds(c.gpuWaiting, k, c.gpuFree, c.room);
    assert |gpu| == GpuBy(c, k) - GpuBy(c, k - 1);
  }

  lemma AdmitsSize(t: T.Table, r: Resource, free: int, room: int, now: Time, admitted: seq<JobId>, t': T.Table)
    requires Admits(t, r, free, room, now, admitted, t')
    ensures |admitted| == Quota(|PendingOf(t, r)|, free, room)
  {
  }

  /** What k overlapping passes start. */
  lemma {:induction false} OverlapCounts(c: Reading, run: seq<T.Table>)
    requires Overlap(c, run)
    requires c.gpuWaiting == |PendingOf(run[0], Gpu)| && c.cpuWaiting == |PendingOf(run[0], Cpu)|
    ensures Grown(run[0], run[|run| - 1], GpuBy(c, |run| - 1), CpuBy(c, |run| - 1))
    decreases |run|
  {
    hide Grown, StalePass, GpuBy, CpuBy, PendingOf;
    var n := |run| - 1;
    if n == 0 {
      GrownByNone(c, run[0]);
    } else {
      var before := run[..n];
      forall i | 0 <= i < n - 1 ensures StalePass(c, before[i], before[i + 1]) {
        assert StalePass(c, run[i], run[i + 1]);
      }
      OverlapCounts(c, before);
      assert StalePass(c, run[n - 1], run[n - 1 + 1]);
      OnePassMore(c, run[0], run[n - 1], run[n], n);
    }
  }

  lemma GrownByNone(c: Reading, t: T.Table)
    ensures Grown(t, t, GpuBy(c, 0), CpuBy(c, 0))
  {
    assert 0 * Min(c.gpuFree, c.room) == 0;
  }

  /** When overlapping passes oversubscribe the GPU slots, the CPU slots, and the cap. */
  lemma OverlapExceedsIff(cfg: ResourceConfig, run: seq<T.Table>)
    requires run != [] && WithinCapacity(cfg, run[0]) && Overlap(ReadingOf(cfg, run[0]), run)
    ensures var c, t', n := ReadingOf(cfg, run[0]), run[|run| - 1], |run| - 1;
            && (|RunningOf(t', Gpu)| > cfg.gpuSlots <==> GpuBy(c, n) > c.gpuFree)
            && (|RunningOf(t', Cpu)| > cfg.cpuSlots <==> CpuBy(c, n) > c.cpuFree)
            && (|AllRunning(t')| > cfg.maxConcurrent <==> GpuBy(c, n) + CpuBy(c, n) > c.room)
  {
    OverlapCounts(ReadingOf(cfg, run[0]), run);
  }

  /** One pass alone stays within what it read, so it takes two to oversubscribe. */
  lemma OnePassFits(c: Reading)
    ensures GpuBy(c, 1) <= c.gpuFree && CpuBy(c, 1) <= c.cpuFree && GpuBy(c, 1) + CpuBy(c, 1) <= c.room
  {
    assert 1 * Min(c.gpuFree, c.room) == Min(c.gpuFree, c.room) && 0 * Min(c.gpuFree, c.room) == 0;
  }

  /** Two passes on one reading can be taken on every table. */
  lemma SomeOverlap(c: Reading, t: T.Table) returns (run: seq<T.Table>)
    ensures |run| == 3 && run[0] == t && Overlap(c, run)
  {
    var t1 := SomeStalePass(c, t);
    var t2 := SomeStalePass(c, t1);
    hide StalePass;
    run := [t, t1, t2];
  }

  lemma SomeStalePass(c: Reading, t: T.Table) returns (t': T.Table)
    ensures StalePass(c, t, t')
  {
    var gpu, t1 := SomeAdmits(t, Gpu, c.gpuFree, c.room, 0);
    var cpu, t2 := SomeAdmits(t1, Cpu, c.cpuFree, c.room - |gpu|, 0);
    t' := t2;
    assert StalePassBy(c, t, 0, gpu, t1, cpu, t');
  }

  /** Waiting jobs and nothing else. */
  lemma Waiting(gpu: set<JobId>, cpu: set<JobId>) returns (t: T.Table)
    requires gpu !! cpu
    ensures |RunningOf(t, Gpu)| == |RunningOf(t, Cpu)| == |AllRunning(t)| == 0
    ensures |PendingOf(t, Gpu)| == |gpu| && |PendingOf(t, Cpu)| == |cpu|
    ensures forall id :: id in t ==> t[id].kind == Train && t[id].state == Pending
  {
    var j := Job(Train, map[], Pending, 0, 3, None, Gpu, 0, 0, None);
    t := map id | id in gpu + cpu :: if id in gpu then j else j.(resource := Cpu);
    assert RunningOf(t, Gpu) == {} && RunningOf(t, Cpu) == {} && AllRunning(t) == {};
    assert PendingOf(t, Gpu) == gpu && PendingOf(t, Cpu) == cpu;
  }

  lemma {:induction false} SomeIds(from: nat, n: nat) returns (ids: set<JobId>)
    ensures |ids| == n && forall x :: x in ids ==> from <= x < from + n
  {
    if n == 0 {
      ids := {};
    } else {
      var fewer := SomeIds(from, n - 1);
      ids := fewer + {from + n - 1};
    }
  }

  /** Two passes on a table with nothing running and these jobs waiting, judged by the numbers alone. */
  lemma OverlapOf(cfg: ResourceConfig, c: Reading) returns (run: seq<T.Table>)
    requires cfg == ResourceConfig(c.gpuFree, c.cpuFree, c.room)
    ensures |run| == 3 && WithinCapacity(cfg, run[0]) && Overlap(ReadingOf(cfg, run[0]), run)
    ensures |RunningOf(run[2], Gpu)| > cfg.gpuSlots <==> GpuBy(c, 2) > c.gpuFree
    ensures |RunningOf(run[2], Cpu)| > cfg.cpuSlots <==> CpuBy(c, 2) > c.cpuFree
    ensures |AllRunning(run[2])| > cfg.maxConcurrent <==> GpuBy(c, 2) + CpuBy(c, 2) > c.room
  {
    var gpu := SomeIds(0, c.gpuWaiting);
    var cpu := SomeIds(c.gpuWaiting, c.cpuWaiting);
    hide RunningOf, PendingOf, AllRunning, Overlap, GpuBy, CpuBy;
    var t := Waiting(gpu, cpu);
    run := SomeOverlap(ReadingOf(cfg, t), t);
    OverlapExceedsIff(cfg, run);
  }

  /** Two passes with one GPU slot free and two jobs waiting for it start both. */
  lemma OverlappingPassesOversubscribe()
    ensures exists cfg: ResourceConfig, run: seq<T.Table> ::
      && |run| == 3 && WithinCapacity(cfg, run[0]) && Overlap(ReadingOf(cfg, run[0]), run)
      && |RunningOf(run[2], Gpu)| > cfg.gpuSlots
  {
    hide *;
    var c := Reading(2, 0, 1, 4, 8);
    GpuNumbers(c, 2);
    var run := OverlapOf(ResourceConfig(1, 4, 8), c);
    assert |RunningOf(run[2], Gpu)| > 1;
  }

  /** Two passes that keep to the slots of both classes start three jobs under a cap of two. */
  lemma OverlappingPassesExceedTheCapAlone()
    ensures exists cfg: ResourceConfig, run: seq<T.Table> ::
      && |run| == 3 && WithinCapacity(cfg, run[0]) && Overlap(ReadingOf(cfg, run[0]), run)
      && |RunningOf(run[2], Gpu)| <= cfg.gpuSlots && |RunningOf(run[2], Cpu)| <= cfg.cpuSlots
      && |AllRunning(run[2])| > cfg.maxConcurrent
  {
    hide *;
    var c := Reading(1, 2, 1, 4, 2);
    ThreeUnderTwo(c);
    var run := OverlapOf(ResourceConfig(1, 4, 2), c);
    assert |AllRunning(run[2])| > 2;
  }

  lemma GpuNumbers(c: Reading, k: nat)
    requires c.gpuFree == 1 && c.room >= 1
    ensures GpuBy(c, k) == Min(c.gpuWaiting, k) && Min(2, 2) == 2
  {
    assert k * Min(c.gpuFree, c.room) == k;
  }

  /** One GPU and two CPU jobs waiting, room for two: the second pass has its room for the CPU job. */
  lemma ThreeUnderTwo(c: Reading)
    requires c == Reading(1, 2, 1, 4, 2)
    ensures GpuBy(c, 2) == 1 && CpuBy(c, 2) == 2
  {
    GpuNumbers(c, 0);
    GpuNumbers(c, 1);
    GpuNumbers(c, 2);
    CpuStep(c, 1);
    CpuStep(c, 2);
    assert CpuBy(c, 0) == 0;
    hide GpuBy, CpuBy;
    assert CpuBy(c, 1) == 1;
  }

  lemma CpuStep(c: Reading, k: nat)
    requires k > 0
    ensures CpuBy(c, k) == CpuBy(c, k - 1) + Quota(c.cpuWaiting - CpuBy(c, k - 1), c.cpuFree,
                                                  c.room - (GpuBy(c, k) - GpuBy(c, k - 1)))
  {
  }
}
