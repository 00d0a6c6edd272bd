/**
 The policy registry: publishers that number their version from the newest one they
 saw, and then ingest it. Any number of them interleave step by step.
 */
module Policy {
  import opened Basics
  import opened Ingest

  /** The committed version numbers. */
  function Versions(d: Disk): set<nat> {
    set name | name in d.final && name.Version? && ManifestFile in d.final[name] :: name.n
  }

  /** _next_version: one above the newest version, or 1. latest() is what the publisher read. */
  function NextVersion(latest: Option<nat>): nat {
    match latest
    case None => 1
    case Some(n) => n + 1
  }

  ghost predicate IsLatest(d: Disk, latest: Option<nat>) {
    match latest
    case None => Versions(d) == {}
    case Some(n) => n in Versions(d) && forall m :: m in Versions(d) ==> m <= n
  }

  /** A publisher starts by reading the latest version; nothing else starts an ingest here. */
  ghost predicate PublisherStep(s: State, a: Step) {
    a.Start? ==>
      && !a.job.overwrite
      && exists latest :: IsLatest(s.disk, latest) && a.job.dest == Version(NextVersion(latest))
  }

  ghost predicate PublisherRun(c: Codec, s: State, steps: seq<Step>)
    decreases |steps|
  {
    steps == [] || (PublisherStep(s, steps[0]) && Quiet(s, steps[0])
                    && PublisherRun(c, Do(c, s, steps[0]), steps[1..]))
  }

  /** Exactly the versions 1 to n are committed. */
  ghost predicate Contiguous(d: Disk, n: nat) {
    && (forall k: nat :: k in Versions(d) <==> 1 <= k <= n)
    && (forall name :: name in d.final && name.Version? ==> ManifestFile in d.final[name])
  }

  /** No publisher in flight is more than one version ahead of what is committed. */
  ghost predicate NoneAhead(s: State, n: nat) {
    forall p :: p in s.writers && Live(s.writers[p]) ==>
      && s.writers[p].job.dest.Version?
      && 1 <= s.writers[p].job.dest.n <= n + 1
  }

  ghost predicate RegistryInv(c: Codec, s: State, n: nat) {
    Inv(c, s) && Contiguous(s.disk, n) && NoneAhead(s, n)
  }

  lemma VersionCommitted(d: Disk, n: nat, k: nat)
    requires Contiguous(d, n)
    ensures Version(k) in d.final <==> 1 <= k <= n
  {
    assert Version(k) in d.final ==> k in Versions(d);
    if 1 <= k <= n {
      assert k in Versions(d);
    }
  }

  lemma LatestIs(d: Disk, n: nat)
    requires Contiguous(d, n)
    ensures forall latest :: IsLatest(d, latest) <==> latest == (if n == 0 then None else Some(n))
  {
    assert n > 0 ==> n in Versions(d);
    assert n > 0 ==> 1 in Versions(d);
    forall latest ensures IsLatest(d, latest) <==> latest == (if n == 0 then None else Some(n)) {
      if latest.Some? && IsLatest(d, latest) {
        assert latest.value in Versions(d);
      }
    }
  }

  /** A publish that goes through. */
  predicate Wins(s: State, a: Step, k: nat) {
    CommitsAt(s, a) && s.writers[a.p].job.dest == Version(k)
  }

  /** A rename that goes through adds version n + 1; any other step changes no version. */
  lemma StepKeepsContiguous(c: Codec, s: State, a: Step, n: nat)
    requires RegistryInv(c, s, n) && PublisherStep(s, a) && Quiet(s, a)
    ensures CommitsAt(s, a) ==> s.writers[a.p].job.dest == Version(n + 1)
    ensures RegistryInv(c, Do(c, s, a), if CommitsAt(s, a) then n + 1 else n)
  {
    hide Do, Inv, Complete;
    var s' := Do(c, s, a);
    StepKeepsInv(c, s, a);
    StepIsAllOrNothing(c, s, a);
    StepKeepsNoneAhead(c, s, a, n);
    if CommitsAt(s, a) {
      var job := s.writers[a.p].job;
      assert Live(s.writers[a.p]);
      VersionCommitted(s.disk, n, job.dest.n);
      assert job.dest == Version(n + 1);
      AddedVersion(c, s.disk, s'.disk, n, job);
    } else {
      assert Versions(s'.disk) == Versions(s.disk);
      assert Contiguous(s'.disk, n);
    }
  }

  lemma StepKeepsNoneAhead(c: Codec, s: State, a: Step, n: nat)
    requires RegistryInv(c, s, n) && PublisherStep(s, a)
    ensures NoneAhead(Do(c, s, a), n)
  {
    hide Inv, Contiguous;
    if a.Start? {
      LatestIs(s.disk, n);
    }
    var s' := Do(c, s, a);
    forall p | p in s'.writers && Live(s'.writers[p])
      ensures s'.writers[p].job.dest.Version? && 1 <= s'.writers[p].job.dest.n <= n + 1
    {
      if p in s.writers && Live(s.writers[p]) {
        assert s'.writers[p].job == s.writers[p].job;
      }
    }
  }

  lemma AddedVersion(c: Codec, d: Disk, d': Disk, n: nat, job: Ingest.Job)
    requires Contiguous(d, n) && DistinctPaths(job.source) && job.dest == Version(n + 1)
    requires d'.final == d.final[job.dest := Complete(c, job)]
    ensures Contiguous(d', n + 1)
  {
    assert Versions(d') == Versions(d) + {n + 1} by {
      forall k | k in Versions(d) + {n + 1} ensures k in Versions(d') {
        assert Version(k) in d'.final && ManifestFile in d'.final[Version(k)];
      }
    }
  }

  /** How many publishes of version k went through in the run. */
  function WinsOf(c: Codec, s: State, steps: seq<Step>, k: nat): nat
    decreases |steps|
  {
    if steps == [] then 0 else One(Wins(s, steps[0], k)) + WinsOf(c, Do(c, s, steps[0]), steps[1..], k)
  }

  /**
   Any number of publishers, interleaved and crashing anywhere: the committed versions stay
   contiguous from 1, they only grow, none is overwritten, and each number is won at most once.
   */
  lemma {:induction false} VersionsStayContiguous(c: Codec, s: State, steps: seq<Step>, n: nat, k: nat) returns (m: nat)
    requires RegistryInv(c, s, n) && PublisherRun(c, s, steps)
    ensures n <= m && RegistryInv(c, Run(c, s, steps), m)
    ensures WinsOf(c, s, steps, k) == One(n < k <= m)
    ensures 1 <= k <= n ==>
              && Version(k) in s.disk.final && Version(k) in Run(c, s, steps).disk.final
              && Run(c, s, steps).disk.final[Version(k)] == s.disk.final[Version(k)]
    decreases |steps|
  {
    if steps == [] {
      m := n;
      VersionCommitted(s.disk, n, k);
    } else {
      var a, s1 := steps[0], Do(c, s, steps[0]);
      StepKeepsContiguous(c, s, a, n);
      StepIsAllOrNothing(c, s, a);
      var n1 := if CommitsAt(s, a) then n + 1 else n;
      m := VersionsStayContiguous(c, s1, steps[1..], n1, k);
      VersionCommitted(s.disk, n, k);
      if CommitsAt(s, a) {
        VersionCommitted(s.disk, n, n + 1);
      }
    }
  }

  // ------------------------------------------------------------ reading the registry

  /** A worker's handle: the version it generates with, and the simulated lag. */
  class PolicyClient {
    var version: Option<nat>
    var pinned: Option<nat>

    constructor ()
      ensures version == None && pinned == None
    {
      version, pinned := None, None;
    }

    method Pin(v: nat)
      modifies this`pinned
      ensures pinned == Some(v)
    {
      pinned := Some(v);
    }

    /**
     The pinned version, or the newest on the disk. A client that is never pinned sees no
     older version than at its last refresh, whatever publishers did in between.
     */
    method Refresh(d: Disk) returns (v: Option<nat>)
      modifies this`version
      ensures v == version
      ensures pinned.Some? ==> version == pinned
      ensures pinned == None ==> IsLatest(d, version)
      ensures forall c, s, steps, n ::
                (RegistryInv(c, s, n) && PublisherRun(c, s, steps) && Run(c, s, steps).disk == d
                 && pinned == None && IsLatest(s.disk, old(version))) ==> NoOlder(old(version), version)
    {
      if pinned.Some? {
        version := pinned;
      } else {
        version := Latest(d);
      }
      v := version;
      forall c, s, steps, n
        | RegistryInv(c, s, n) && PublisherRun(c, s, steps) && Run(c, s, steps).disk == d
          && pinned == None && IsLatest(s.disk, old(version))
        ensures NoOlder(old(version), version)
      {
        RefreshNeverGoesBack(c, s, steps, n, old(version), version);
      }
    }
  }

  /** latest(): the last of the sorted version directories. */
  method Latest(d: Disk) returns (latest: Option<nat>)
    ensures IsLatest(d, latest)
  {
    hide Versions;
    latest := None;
    var all := Versions(d);
    var rest := all;
    while rest != {}
      invariant rest <= all
      invariant latest == None ==> rest == all
      invariant latest.Some? ==> latest.value in all && forall m :: m in all && m !in rest ==> m <= latest.value
      decreases rest
    {
      var n :| n in rest;
      rest := rest - {n};
      if latest == None || latest.value < n {
        latest := Some(n);
      }
    }
  }

  predicate NoOlder(before: Option<nat>, after: Option<nat>) {
    before.Some? ==> after.Some? && before.value <= after.value
  }

  function Staleness(current: int, trajectory: int): int {
    current - trajectory
  }

  datatype Mode = Warn | Reject | Off

  datatype Gate = Pass(staleness: int) | Flagged(staleness: int) | StaleTrajectory

  function StalenessGate(current: int, trajectory: int, maxStaleness: int, mode: Mode): Gate {
    var s := Staleness(current, trajectory);
    if mode == Off || s <= maxStaleness then Pass(s)
    else if mode == Reject then StaleTrajectory
    else Flagged(s)
  }

  /**
   A trajectory tagged by an unpinned refresh, judged later against the latest version:
   its staleness is the number of publishes in between, so it is never negative, and
   the gate flags it exactly if more than the bound were published.
   */
  lemma StalenessCountsPublishes(c: Codec, s: State, steps: seq<Step>, n: nat, tagged: nat, current: nat,
                                 maxStaleness: nat, mode: Mode)
    requires RegistryInv(c, s, n) && PublisherRun(c, s, steps)
    requires IsLatest(s.disk, Some(tagged)) && IsLatest(Run(c, s, steps).disk, Some(current))
    ensures Staleness(current, tagged) >= 0
    ensures forall k: nat :: WinsOf(c, s, steps, k) == One(tagged < k <= current)
    ensures StalenessGate(current, tagged, maxStaleness, mode).Pass?
       <==> mode == Off || current <= tagged + maxStaleness
  {
    LatestIs(s.disk, n);
    assert tagged == n;
    forall k: nat ensures WinsOf(c, s, steps, k) == One(tagged < k <= current) && tagged <= current {
      var m := VersionsStayContiguous(c, s, steps, n, k);
      LatestIs(Run(c, s, steps).disk, m);
      assert IsLatest(Run(c, s, steps).disk, Some(current));
    }
    assert WinsOf(c, s, steps, 0) == One(tagged < 0 <= current);
  }

  /** What an unpinned refresh returns never goes back: not to an older version, nor to none. */
  lemma RefreshNeverGoesBack(c: Codec, s: State, steps: seq<Step>, n: nat, before: Option<nat>, after: Option<nat>)
    requires RegistryInv(c, s, n) && PublisherRun(c, s, steps)
    requires IsLatest(s.disk, before) && IsLatest(Run(c, s, steps).disk, after)
    ensures NoOlder(before, after)
  {
    LatestIs(s.disk, n);
    var m := VersionsStayContiguous(c, s, steps, n, 0);
    LatestIs(Run(c, s, steps).disk, m);
  }

  lemma EmptyRegistry(c: Codec)
    ensures RegistryInv(c, State(Disk(map[], map[]), map[]), 0)
  {
    assert Versions(Disk(map[], map[])) == {};
  }

  /** From an empty registry: whatever the publishers do, the versions there are 1 to the number of publishes. */
  lemma FromEmptyRegistry(c: Codec, steps: seq<Step>) returns (m: nat)
    requires PublisherRun(c, State(Disk(map[], map[]), map[]), steps)
    ensures var s := State(Disk(map[], map[]), map[]);
            forall k: nat :: (k in Versions(Run(c, s, steps).disk) <==> 1 <= k <= m)
                             && WinsOf(c, s, steps, k) == One(1 <= k <= m)
  {
    var s := State(Disk(map[], map[]), map[]);
    EmptyRegistry(c);
    m := VersionsStayContiguous(c, s, steps, 0, 0);
    forall k: nat ensures WinsOf(c, s, steps, k) == One(1 <= k <= m) {
      var m' := VersionsStayContiguous(c, s, steps, 0, k);
      SameCount(Run(c, s, steps).disk, m, m');
    }
  }

  lemma SameCount(d: Disk, m: nat, n: nat)
    requires Contiguous(d, m) && Contiguous(d, n)
    ensures m == n
  {
    assert m in Versions(d) <==> 1 <= m <= n;
    assert n in Versions(d) <==> 1 <= n <= m;
  }

  /** A publisher that nobody interferes with publishes the version after the newest it read. */
  lemma AlonePublishSucceeds(c: Codec, s: State, p: Pid, job: Ingest.Job, latest: Option<nat>, n: nat)
    requires RegistryInv(c, s, n) && IsLatest(s.disk, latest) && job.dest == Version(NextVersion(latest))
    requires DistinctPaths(job.source) && (At(s, p) ==> !Live(s.writers[p])) && FreshToken(s, job.token)
    ensures var s' := Run(c, s, AloneRun(p, job));
            && At(s', p) && s'.writers[p] == Committed
            && job.dest == Version(n + 1) && Contiguous(s'.disk, n + 1)
  {
    LatestIs(s.disk, n);
    VersionCommitted(s.disk, n, n + 1);
    AloneIngestCommits(c, s, p, job);
    hide Run, Complete, AloneRun, Inv;
    AddedVersion(c, s.disk, Run(c, s, AloneRun(p, job)).disk, n, job);
  }

  /**
   The gate by mode: off never flags, warn returns the staleness flagged, reject raises, each beyond
   the bound only.
   */
  lemma GateByMode(current: int, trajectory: int, maxStaleness: int, mode: Mode)
    ensures var behind, gate := current - trajectory, StalenessGate(current, trajectory, maxStaleness, mode);
            && (gate == StaleTrajectory <==> mode == Reject && behind > maxStaleness)
            && (gate == Flagged(behind) <==> mode == Warn && behind > maxStaleness)
            && (gate == Pass(behind) <==> mode == Off || behind <= maxStaleness)
  {
  }
}
