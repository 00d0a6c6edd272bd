/**
 Crash-atomic directory ingest, as file-system steps of any number of writers.

 The disk holds the committed directories and the staging directories; a directory is
 a map from relative paths to bytes. The rename of a staging directory onto its final
 name is the single commit point. A writer may crash between any two steps.
 */
module Ingest {
  import opened Basics

  type Bytes = seq<int>
  type Digest = nat
  type Token = nat    // the unique part of a staging directory's name
  type Pid = nat

  /** Paths inside one directory; manifest.json at its top is set apart. */
  datatype Rel = ManifestFile | StateFile | OtherFile(path: string)

  /** Directory names under a registry root. */
  datatype Name = Checkpoint(step: nat, suffix: nat) | Version(n: nat) | Foreign(name: string)

  type Dir = map<Rel, Bytes>

  datatype FileEntry = FileEntry(path: Rel, digest: Digest, size: nat)

  datatype Manifest = Manifest(name: Name, createdAt: int, files: seq<FileEntry>)

  /** sha256 and the JSON form of manifests, as parameters. */
  datatype Codec = Codec(hash: Bytes -> Digest, render: Manifest -> Bytes, parse: Bytes -> Option<Manifest>)

  ghost predicate Sound(c: Codec) {
    && (forall m :: c.parse(c.render(m)) == Some(m))
    && (forall a, b :: c.hash(a) == c.hash(b) ==> a == b)
  }

  datatype Disk = Disk(final: map<Name, Dir>, staging: map<Token, Dir>)

  type Source = seq<(Rel, Bytes)>

  predicate DistinctPaths(source: Source) {
    forall i, j :: 0 <= i < j < |source| ==> source[i].0 != source[j].0
  }

  function EntryOf(c: Codec, file: (Rel, Bytes)): FileEntry {
    FileEntry(file.0, c.hash(file.1), |file.1|)
  }

  function Entries(c: Codec, source: Source): seq<FileEntry> {
    seq(|source|, i requires 0 <= i < |source| => EntryOf(c, source[i]))
  }

  function Copied(source: Source): Dir
    requires DistinctPaths(source)
  {
    map i | 0 <= i < |source| :: source[i].0 := source[i].1
  }

  datatype Job = Job(dest: Name, overwrite: bool, token: Token, source: Source, createdAt: int)

  function ManifestOf(c: Codec, job: Job): Manifest {
    Manifest(job.dest, job.createdAt, Entries(c, job.source))
  }

  /** What a completed ingest puts under its final name. */
  function Complete(c: Codec, job: Job): Dir
    requires DistinctPaths(job.source)
  {
    Copied(job.source)[ManifestFile := c.render(ManifestOf(c, job))]
  }

  datatype Writer =
    | Named(job: Job)                                            // destination chosen
    | Checked(job: Job)                                          // no such directory seen
    | Copying(job: Job, i: nat, entries: seq<FileEntry>)         // i files copied and hashed
    | Ready(job: Job)                                            // manifest written
    | Committed
    | Raised

  datatype State = State(disk: Disk, writers: map<Pid, Writer>)

  datatype Step =
    | Start(p: Pid, job: Job)
    | CheckFinal(p: Pid)
    | MakeStaging(p: Pid)
    | CopyPart(p: Pid, part: Bytes)
    | CopyFile(p: Pid)
    | WritePart(p: Pid, part: Bytes)
    | WriteManifest(p: Pid)
    | Rename(p: Pid)
    | Crash(p: Pid)
    | SweepOne(token: Token)

  predicate At(s: State, p: Pid) {
    p in s.writers
  }

  /** mkdir(parents, exist_ok) and a write: the staging directory is made again if it is gone. */
  function Put(staging: map<Token, Dir>, token: Token, rel: Rel, bytes: Bytes): map<Token, Dir> {
    staging[token := (if token in staging then staging[token] else map[])[rel := bytes]]
  }

  /** Staging directories get names nobody uses. */
  predicate FreshToken(s: State, token: Token) {
    token !in s.disk.staging && forall p :: p in s.writers && Live(s.writers[p]) ==> s.writers[p].job.token != token
  }

  predicate Live(w: Writer) {
    !w.Committed? && !w.Raised?
  }

  function NextDisk(c: Codec, s: State, a: Step): Disk {
    var d := s.disk;
    if a.SweepOne? then d.(staging := d.staging - {a.token})
    else if !At(s, a.p) then d
    else
      var w := s.writers[a.p];
      match a
      case MakeStaging(_) => if w.Checked? then d.(staging := d.staging[w.job.token := map[]]) else d
      case CopyPart(_, part) =>
        if w.Copying? && w.i < |w.job.source|
        then d.(staging := Put(d.staging, w.job.token, w.job.source[w.i].0, part)) else d
      case CopyFile(_) =>
        if w.Copying? && w.i < |w.job.source|
        then d.(staging := Put(d.staging, w.job.token, w.job.source[w.i].0, w.job.source[w.i].1)) else d
      case WritePart(_, part) =>
        if w.Copying? && w.i == |w.job.source| && w.job.token in d.staging
        then d.(staging := Put(d.staging, w.job.token, ManifestFile, part)) else d
      case WriteManifest(_) =>
        if w.Copying? && w.i == |w.job.source| && w.job.token in d.staging
        then d.(staging := Put(d.staging, w.job.token, ManifestFile,
                               c.render(Manifest(w.job.dest, w.job.createdAt, w.entries)))) else d
      case Rename(_) =>
        if Renames(s, a.p)
        then Disk(d.final[w.job.dest := d.staging[w.job.token]], d.staging - {w.job.token}) else d
      case _ => d
  }

  /** os.replace succeeds: the staging directory exists and the target is absent or an empty directory. */
  predicate Renames(s: State, p: Pid) {
    && p in s.writers
    && s.writers[p].Ready?
    && s.writers[p].job.token in s.disk.staging
    && (s.writers[p].job.dest in s.disk.final ==> s.disk.final[s.writers[p].job.dest] == map[])
  }

  function NextWriter(c: Codec, s: State, a: Step): Writer
    requires !a.SweepOne? && !a.Start? && At(s, a.p)
  {
    var w := s.writers[a.p];
    match a
    case CheckFinal(_) =>
      if w.Named? then
        (if w.job.dest in s.disk.final && !w.job.overwrite then Raised else Checked(w.job))
      else w
    case MakeStaging(_) => if w.Checked? then Copying(w.job, 0, []) else w
    case CopyFile(_) =>
      if w.Copying? && w.i < |w.job.source|
      then Copying(w.job, w.i + 1, w.entries + [EntryOf(c, w.job.source[w.i])]) else w
    case WriteManifest(_) =>
      if w.Copying? && w.i == |w.job.source| then
        (if w.job.token in s.disk.staging then Ready(w.job) else Raised)
      else w
    case Rename(_) => if w.Ready? then (if Renames(s, a.p) then Committed else Raised) else w
    case _ => w
  }

  function Do(c: Codec, s: State, a: Step): State {
    if a.SweepOne? then State(NextDisk(c, s, a), s.writers)
    else if a.Crash? then State(s.disk, s.writers - {a.p})
    else if a.Start? then
      // One ingest per process at a time, its staging name unique, its source paths distinct.
      if (a.p !in s.writers || !Live(s.writers[a.p])) && FreshToken(s, a.job.token) && DistinctPaths(a.job.source)
      then State(s.disk, s.writers[a.p := Named(a.job)]) else s
    else if At(s, a.p) then State(NextDisk(c, s, a), s.writers[a.p := NextWriter(c, s, a)])
    else s
  }

  function Run(c: Codec, s: State, steps: seq<Step>): State
    decreases |steps|
  {
    if steps == [] then s else Run(c, Do(c, s, steps[0]), steps[1..])
  }

  // ------------------------------------------------------------ reading a registry

  /** list() and get(): every committed directory that has a manifest. */
  function View(c: Codec, d: Disk): map<Name, Option<Manifest>> {
    map n | n in d.final && ManifestFile in d.final[n] :: c.parse(d.final[n][ManifestFile])
  }

  datatype Verdict = Intact(manifest: Manifest) | NotFound | Unreadable | Corrupt(path: Rel)

  predicate Matches(c: Codec, dir: Dir, e: FileEntry) {
    e.path in dir && c.hash(dir[e.path]) == e.digest && |dir[e.path]| == e.size
  }

  /** The first manifested file that is missing or differs. */
  function FirstMismatch(c: Codec, dir: Dir, files: seq<FileEntry>): Option<Rel> {
    if files == [] then None
    else if !Matches(c, dir, files[0]) then Some(files[0].path)
    else FirstMismatch(c, dir, files[1..])
  }

  function VerifyDir(c: Codec, dir: Dir): Verdict {
    if ManifestFile !in dir then NotFound
    else
      match c.parse(dir[ManifestFile])
      case None => Unreadable
      case Some(m) =>
        match FirstMismatch(c, dir, m.files)
        case None => Intact(m)
        case Some(path) => Corrupt(path)
  }

  function Verify(c: Codec, d: Disk, n: Name): Verdict {
    if n in d.final then VerifyDir(c, d.final[n]) else NotFound
  }

  lemma {:induction false} NoMismatchIff(c: Codec, dir: Dir, files: seq<FileEntry>)
    ensures FirstMismatch(c, dir, files) == None <==> forall i :: 0 <= i < |files| ==> Matches(c, dir, files[i])
  {
    if files != [] {
      NoMismatchIff(c, dir, files[1..]);
      if Matches(c, dir, files[0]) && FirstMismatch(c, dir, files[1..]) == None {
        forall i | 0 <= i < |files| ensures Matches(c, dir, files[i]) {
          if i > 0 { assert files[1..][i - 1] == files[i]; }
        }
      }
      if forall i :: 0 <= i < |files| ==> Matches(c, dir, files[i]) {
        forall i | 0 <= i < |files[1..]| ensures Matches(c, dir, files[1..][i]) {
          assert files[1..][i] == files[i + 1];
        }
      }
    }
  }

  lemma CopiedAt(source: Source, i: nat)
    requires DistinctPaths(source) && i < |source|
    ensures source[i].0 in Copied(source) && Copied(source)[source[i].0] == source[i].1
  {
  }

  /**
   A directory that carries the manifest of an ingest verifies exactly if each ingested
   file is there with the bytes the source had: any other change of a file is detected.
   */
  lemma VerifyDetectsEveryChange(c: Codec, job: Job, dir: Dir)
    requires Sound(c) && DistinctPaths(job.source)
    requires ManifestFile in dir && dir[ManifestFile] == c.render(ManifestOf(c, job))
    ensures VerifyDir(c, dir) == Intact(ManifestOf(c, job))
       <==> forall i :: 0 <= i < |job.source| ==> job.source[i].0 in dir && dir[job.source[i].0] == job.source[i].1
  {
    var m := ManifestOf(c, job);
    assert c.parse(c.render(m)) == Some(m);
    NoMismatchIff(c, dir, m.files);
    forall i | 0 <= i < |job.source|
      ensures Matches(c, dir, m.files[i]) <==> job.source[i].0 in dir && dir[job.source[i].0] == job.source[i].1
    {
      assert m.files[i] == EntryOf(c, job.source[i]);
    }
  }

  /**
   A completed ingest verifies, unless its source held a top-level file of the manifest's
   name: that file is overwritten, and then only the manifest's own text could match it.
   */
  lemma CompleteVerifiesIff(c: Codec, job: Job)
    requires Sound(c) && DistinctPaths(job.source)
    ensures VerifyDir(c, Complete(c, job)) == Intact(ManifestOf(c, job))
       <==> forall i :: 0 <= i < |job.source| && job.source[i].0 == ManifestFile ==>
                          job.source[i].1 == c.render(ManifestOf(c, job))
  {
    var dir := Complete(c, job);
    VerifyDetectsEveryChange(c, job, dir);
    forall i | 0 <= i < |job.source| && job.source[i].0 != ManifestFile
      ensures job.source[i].0 in dir && dir[job.source[i].0] == job.source[i].1
    {
      CopiedAt(job.source, i);
    }
  }

  /** load_state(): what verified is what save_state() wrote, whatever happened to the directory since. */
  lemma LoadedStateIsSavedState(c: Codec, job: Job, saved: Bytes, dir: Dir)
    requires Sound(c) && job.source == [(StateFile, saved)]
    requires ManifestFile in dir && dir[ManifestFile] == c.render(ManifestOf(c, job))
    requires VerifyDir(c, dir).Intact?
    ensures StateFile in dir && dir[StateFile] == saved
  {
    var m := ManifestOf(c, job);
    assert c.parse(c.render(m)) == Some(m);
    assert VerifyDir(c, dir) == Intact(m);
    VerifyDetectsEveryChange(c, job, dir);
    assert job.source[0].0 == StateFile;
  }

  // ------------------------------------------------------------ all or nothing

  /**
   The first i files are there in full. Besides them there may be a part of the file
   being written, and a file of the manifest's name.
   */
  ghost predicate Holds(dir: Dir, source: Source, i: nat)
    requires i <= |source|
  {
    && (forall k :: 0 <= k < i ==>
          source[k].0 in dir && (source[k].0 != ManifestFile ==> dir[source[k].0] == source[k].1))
    && (forall r :: r in dir && r != ManifestFile ==> exists k :: 0 <= k < |source| && k <= i && source[k].0 == r)
  }

  /** A live writer's staging directory holds what the writer has written so far. */
  ghost predicate WriterOk(c: Codec, staging: map<Token, Dir>, w: Writer) {
    && (Live(w) ==> DistinctPaths(w.job.source))
    && (w.Named? || w.Checked? ==> w.job.token !in staging)
    && (w.Copying? ==>
          && w.i <= |w.job.source|
          && w.entries == Entries(c, w.job.source[..w.i])
          && w.job.token in staging
          && Holds(staging[w.job.token], w.job.source, w.i))
    && (w.Ready? ==> w.job.token in staging && staging[w.job.token] == Complete(c, w.job))
  }

  ghost predicate Inv(c: Codec, s: State) {
    && (forall p :: p in s.writers ==> WriterOk(c, s.disk.staging, s.writers[p]))
    && (forall p, q :: p in s.writers && q in s.writers && p != q && Live(s.writers[p]) && Live(s.writers[q]) ==>
          s.writers[p].job.token != s.writers[q].job.token)
  }

  /** A sweep that touches no staging directory of a live writer. */
  predicate Quiet(s: State, a: Step) {
    a.SweepOne? ==> forall p :: p in s.writers && Live(s.writers[p]) ==> s.writers[p].job.token != a.token
  }

  /** The writer's own staging directory after its step. */
  lemma OwnStep(c: Codec, s: State, a: Step)
    requires Inv(c, s) && !a.SweepOne? && !a.Start? && !a.Crash? && At(s, a.p)
    ensures WriterOk(c, NextDisk(c, s, a).staging, NextWriter(c, s, a))
  {
    var w := s.writers[a.p];
    assert WriterOk(c, s.disk.staging, w);
    if w.Copying? {
      var source, dir := w.job.source, s.disk.staging[w.job.token];
      if w.i < |source| && (a.CopyPart? || a.CopyFile?) {
        var content := if a.CopyFile? then source[w.i].1 else a.part;
        var dir' := dir[source[w.i].0 := content];
        assert NextDisk(c, s, a).staging[w.job.token] == dir';
        PutKeepsHolding(dir, source, w.i, content);
        if a.CopyFile? {
          assert source[..w.i + 1] == source[..w.i] + [source[w.i]];
          assert Entries(c, source[..w.i + 1]) == Entries(c, source[..w.i]) + [EntryOf(c, source[w.i])];
        }
      } else if w.i == |source| && (a.WritePart? || a.WriteManifest?) {
        assert source[..w.i] == source;
        if a.WriteManifest? {
          CompleteOnceHeld(c, w.job, dir);
        }
      }
    }
  }

  lemma PutKeepsHolding(dir: Dir, source: Source, i: nat, content: Bytes)
    requires DistinctPaths(source) && i < |source| && Holds(dir, source, i)
    ensures Holds(dir[source[i].0 := content], source, i)
    ensures content == source[i].1 ==> Holds(dir[source[i].0 := content], source, i + 1)
  {
    var dir' := dir[source[i].0 := content];
    forall r | r in dir' && r != ManifestFile ensures exists k :: 0 <= k < |source| && k <= i && source[k].0 == r {
      if r == source[i].0 {
        assert 0 <= i < |source| && i <= i && source[i].0 == r;
      }
    }
  }

  lemma CompleteOnceHeld(c: Codec, job: Job, dir: Dir)
    requires DistinctPaths(job.source) && Holds(dir, job.source, |job.source|)
    ensures dir[ManifestFile := c.render(ManifestOf(c, job))] == Complete(c, job)
  {
    var want := Copied(job.source);
    forall r | r != ManifestFile ensures r in dir <==> r in want
                                 ensures r in dir ==> dir[r] == want[r] {
      HeldMeansCopied(job.source, dir, r);
    }
    hide Copied, Holds, DistinctPaths;
    assert dir[ManifestFile := c.render(ManifestOf(c, job))] == want[ManifestFile := c.render(ManifestOf(c, job))];
  }

  lemma HeldMeansCopied(source: Source, dir: Dir, r: Rel)
    requires DistinctPaths(source) && Holds(dir, source, |source|) && r != ManifestFile
    ensures r in dir <==> r in Copied(source)
    ensures r in dir ==> dir[r] == Copied(source)[r]
  {
    if r in dir {
      var k :| 0 <= k < |source| && source[k].0 == r;
      CopiedAt(source, k);
    }
  }

  /** A step leaves the other writers' staging directories alone. */
  lemma OthersKeep(c: Codec, s: State, a: Step, q: Pid)
    requires Inv(c, s) && Quiet(s, a)
    requires q in s.writers && (a.SweepOne? || a.Start? || q != a.p)
    ensures WriterOk(c, Do(c, s, a).disk.staging, s.writers[q])
  {
    var w := s.writers[q];
    assert WriterOk(c, s.disk.staging, w);
    if Live(w) {
      var st, st' := s.disk.staging, Do(c, s, a).disk.staging;
      assert w.job.token in st <==> w.job.token in st';
      assert w.job.token in st ==> st'[w.job.token] == st[w.job.token];
    }
  }

  lemma StepKeepsInv(c: Codec, s: State, a: Step)
    requires Inv(c, s) && Quiet(s, a)
    ensures Inv(c, Do(c, s, a))
  {
    var s' := Do(c, s, a);
    forall q | q in s'.writers ensures WriterOk(c, s'.disk.staging, s'.writers[q]) {
      if a.SweepOne? || q != a.p {
        OthersKeep(c, s, a, q);
      } else if !a.Start? && !a.Crash? {
        OwnStep(c, s, a);
      } else if q in s.writers && s'.writers[q] == s.writers[q] {
        OthersKeep(c, s, a, q);
      }
    }
  }

  /** This step is a rename that goes through. */
  predicate CommitsAt(s: State, a: Step) {
    a.Rename? && Renames(s, a.p)
  }

  /** One step either leaves every committed directory as it is, or adds exactly one complete one. */
  lemma StepIsAllOrNothing(c: Codec, s: State, a: Step)
    requires Inv(c, s)
    ensures !CommitsAt(s, a) ==> Do(c, s, a).disk.final == s.disk.final
    ensures CommitsAt(s, a) ==>
              var job := s.writers[a.p].job;
              && DistinctPaths(job.source)
              && (job.dest in s.disk.final ==> s.disk.final[job.dest] == map[])
              && Do(c, s, a).disk.final == s.disk.final[job.dest := Complete(c, job)]
  {
    if CommitsAt(s, a) {
      assert WriterOk(c, s.disk.staging, s.writers[a.p]);
    }
  }

  /** Whatever else runs, sweeps and crashes: without a successful rename no reader sees any change. */
  lemma {:induction false} BeforeTheRenameNothing(c: Codec, s: State, steps: seq<Step>)
    requires forall k :: 0 <= k < |steps| ==> !CommitsAt(Run(c, s, steps[..k]), steps[k])
    ensures Run(c, s, steps).disk.final == s.disk.final
    ensures View(c, Run(c, s, steps).disk) == View(c, s.disk)
    decreases |steps|
  {
    if steps != [] {
      assert steps[..0] == [] && !CommitsAt(Run(c, s, steps[..0]), steps[0]);
      var s1 := Do(c, s, steps[0]);
      forall k | 0 <= k < |steps[1..]| ensures !CommitsAt(Run(c, s1, steps[1..][..k]), steps[1..][k]) {
        assert steps[..k + 1][1..] == steps[1..][..k];
        assert !CommitsAt(Run(c, s, steps[..k + 1]), steps[k + 1]);
      }
      BeforeTheRenameNothing(c, s1, steps[1..]);
    }
  }

  /** Every sweep in the run leaves the live writers alone. */
  ghost predicate QuietRun(c: Codec, s: State, steps: seq<Step>)
    decreases |steps|
  {
    steps == [] || (Quiet(s, steps[0]) && QuietRun(c, Do(c, s, steps[0]), steps[1..]))
  }

  /** Every directory that readers see is the complete result of one ingest. */
  ghost predicate AllComplete(c: Codec, d: Disk) {
    forall n :: n in d.final && d.final[n] != map[] ==>
      exists job: Job :: DistinctPaths(job.source) && job.dest == n && d.final[n] == Complete(c, job)
  }

  lemma StepKeepsComplete(c: Codec, s: State, a: Step)
    requires Inv(c, s) && AllComplete(c, s.disk)
    ensures AllComplete(c, Do(c, s, a).disk)
    ensures forall n :: n in s.disk.final && s.disk.final[n] != map[] ==>
              n in Do(c, s, a).disk.final && Do(c, s, a).disk.final[n] == s.disk.final[n]
  {
    StepIsAllOrNothing(c, s, a);
  }

  /**
   Any number of writers, crashes and quiet sweeps: what is committed stays exactly as it
   is, and whatever appears is complete.
   */
  lemma {:induction false} CommittedStaysComplete(c: Codec, s: State, steps: seq<Step>)
    requires Inv(c, s) && AllComplete(c, s.disk) && QuietRun(c, s, steps)
    ensures Inv(c, Run(c, s, steps)) && AllComplete(c, Run(c, s, steps).disk)
    ensures forall n :: n in s.disk.final && s.disk.final[n] != map[] ==>
              n in Run(c, s, steps).disk.final && Run(c, s, steps).disk.final[n] == s.disk.final[n]
    decreases |steps|
  {
    if steps != [] {
      StepKeepsInv(c, s, steps[0]);
      StepKeepsComplete(c, s, steps[0]);
      CommittedStaysComplete(c, Do(c, s, steps[0]), steps[1..]);
    }
  }

  /** A successful rename adds one entry to the view; it verifies if the source held no foreign manifest. */
  lemma CommitAddsOneVerifiedEntry(c: Codec, s: State, a: Step)
    requires Sound(c) && Inv(c, s) && CommitsAt(s, a)
    ensures var job, d' := s.writers[a.p].job, Do(c, s, a).disk;
            && job.dest !in View(c, s.disk)
            && View(c, d') == View(c, s.disk)[job.dest := Some(ManifestOf(c, job))]
            && (Verify(c, d', job.dest) == Intact(ManifestOf(c, job)) <==>
                  forall i :: 0 <= i < |job.source| && job.source[i].0 == ManifestFile ==>
                    job.source[i].1 == c.render(ManifestOf(c, job)))
  {
    StepIsAllOrNothing(c, s, a);
    var job := s.writers[a.p].job;
    assert c.parse(c.render(ManifestOf(c, job))) == Some(ManifestOf(c, job));
    CompleteVerifiesIff(c, job);
    hide Do, Inv, VerifyDir, DistinctPaths;
    ViewPlus(c, s.disk, Do(c, s, a).disk, job);
  }

  lemma ViewPlus(c: Codec, d: Disk, d': Disk, job: Job)
    requires Sound(c) && DistinctPaths(job.source)
    requires d'.final == d.final[job.dest := Complete(c, job)]
    ensures View(c, d') == View(c, d)[job.dest := Some(ManifestOf(c, job))]
  {
    assert c.parse(c.render(ManifestOf(c, job))) == Some(ManifestOf(c, job));
  }

  /**
   A writer that crashes while it writes a file or the manifest leaves any part of it in its
   staging directory, and nothing else: what readers see is the same, and the writer is gone.
   */
  lemma CrashLeavesPartInStaging(c: Codec, s: State, p: Pid, part: Bytes)
    requires At(s, p) && s.writers[p].Copying? && s.writers[p].job.token in s.disk.staging
    requires s.writers[p].i <= |s.writers[p].job.source|
    ensures var w := s.writers[p];
            var whole := w.i == |w.job.source|;
            var s' := Do(c, Do(c, s, if whole then WritePart(p, part) else CopyPart(p, part)), Crash(p));
            var rel := if whole then ManifestFile else w.job.source[w.i].0;
            && s'.disk.final == s.disk.final && View(c, s'.disk) == View(c, s.disk)
            && s'.disk.staging == s.disk.staging[w.job.token := s.disk.staging[w.job.token][rel := part]]
            && p !in s'.writers
  {
  }

  // ------------------------------------------------------------ a sweep with the writer alive

  function Copies(p: Pid, n: nat): seq<Step> {
    if n == 0 then [] else [CopyFile(p)] + Copies(p, n - 1)
  }

  /** A whole ingest by one writer, with its staging directory swept once, after i files were copied. */
  function SweptRun(p: Pid, job: Job, i: nat): seq<Step>
    requires i <= |job.source|
  {
    [Start(p, job)] + [CheckFinal(p)] + [MakeStaging(p)] + Copies(p, i)
    + [SweepOne(job.token)] + Copies(p, |job.source| - i) + [WriteManifest(p)] + [Rename(p)]
  }

  lemma {:induction false} RunConcat(c: Codec, s: State, a: seq<Step>, b: seq<Step>)
    ensures Run(c, s, a + b) == Run(c, Run(c, s, a), b)
    decreases |a|
  {
    if a == [] {
      assert a + b == b;
    } else {
      assert (a + b)[1..] == a[1..] + b;
      RunConcat(c, Do(c, s, a[0]), a[1..], b);
    }
  }

  lemma RunOne(c: Codec, s: State, a: Step)
    ensures Run(c, s, [a]) == Do(c, s, a)
  {
    assert Run(c, Do(c, s, a), []) == Do(c, s, a);
  }

  /** The writer has copied k files, of which its staging directory holds those from i on. */
  ghost predicate CopiedFrom(c: Codec, s: State, p: Pid, job: Job, i: nat, k: nat)
    requires i <= k <= |job.source| && DistinctPaths(job.source)
  {
    && At(s, p) && s.writers[p] == Copying(job, k, Entries(c, job.source[..k]))
    && (i < k ==> job.token in s.disk.staging)
    && (job.token in s.disk.staging ==> s.disk.staging[job.token] == Copied(job.source[i..k]))
  }

  lemma CopiedOneMore(source: Source, i: nat, k: nat)
    requires DistinctPaths(source) && i <= k < |source|
    ensures Copied(source[i..k + 1]) == Copied(source[i..k])[source[k].0 := source[k].1]
  {
    var before, after := source[i..k], source[i..k + 1];
    assert after == before + [source[k]];
    CopiedSnoc(before, source[k], after);
  }

  lemma CopiedSnoc(before: Source, last: (Rel, Bytes), after: Source)
    requires DistinctPaths(after) && DistinctPaths(before) && after == before + [last]
    ensures Copied(after) == Copied(before)[last.0 := last.1]
  {
    forall r | r in Copied(after) ensures r in Copied(before)[last.0 := last.1] {
      var j :| 0 <= j < |after| && after[j].0 == r;
      assert j < |before| ==> after[j] == before[j];
    }
    forall r | r in Copied(before)[last.0 := last.1]
      ensures r in Copied(after) && Copied(after)[r] == Copied(before)[last.0 := last.1][r]
    {
      if r == last.0 {
        CopiedAt(after, |before|);
      } else {
        var j :| 0 <= j < |before| && before[j].0 == r;
        CopiedAt(before, j);
        CopiedAt(after, j);
      }
    }
  }

  lemma CopyStep(c: Codec, s: State, p: Pid, job: Job, i: nat, k: nat)
    requires DistinctPaths(job.source) && i <= k < |job.source| && CopiedFrom(c, s, p, job, i, k)
    ensures CopiedFrom(c, Do(c, s, CopyFile(p)), p, job, i, k + 1)
    ensures Do(c, s, CopyFile(p)).disk.final == s.disk.final
  {
    CopiedOneMore(job.source, i, k);
    assert job.source[..k + 1] == job.source[..k] + [job.source[k]];
    assert Entries(c, job.source[..k + 1]) == Entries(c, job.source[..k]) + [EntryOf(c, job.source[k])];
    assert job.source[i..i] == [];
    hide Copied, Entries;
  }

  lemma {:induction false} CopySteps(c: Codec, s: State, p: Pid, job: Job, i: nat, k: nat, n: nat)
    requires DistinctPaths(job.source) && i <= k && k + n <= |job.source| && CopiedFrom(c, s, p, job, i, k)
    ensures CopiedFrom(c, Run(c, s, Copies(p, n)), p, job, i, k + n)
    ensures Run(c, s, Copies(p, n)).disk.final == s.disk.final
    decreases n
  {
    hide Do, CopiedFrom, DistinctPaths, Run;
    if n == 0 {
      RunNone(c, s);
    } else {
      CopyStep(c, s, p, job, i, k);
      RunConcat(c, s, [CopyFile(p)], Copies(p, n - 1));
      RunOne(c, s, CopyFile(p));
      CopySteps(c, Do(c, s, CopyFile(p)), p, job, i, k + 1, n - 1);
    }
  }

  /** From its start to the sweep and on to the last copy. */
  lemma SweptBeforeManifest(c: Codec, s: State, p: Pid, job: Job, i: nat) returns (s': State)
    requires DistinctPaths(job.source) && i <= |job.source|
    requires (At(s, p) ==> !Live(s.writers[p])) && FreshToken(s, job.token) && job.dest !in s.disk.final
    ensures Run(c, s, SweptRun(p, job, i)) == Do(c, Do(c, s', WriteManifest(p)), Rename(p))
    ensures CopiedFrom(c, s', p, job, i, |job.source|) && s'.disk.final == s.disk.final
    ensures i == |job.source| ==> job.token !in s'.disk.staging
  {
    hide Do, CopiedFrom, Run, DistinctPaths;
    var n := |job.source|;
    var s3 := Do(c, Do(c, Do(c, s, Start(p, job)), CheckFinal(p)), MakeStaging(p));
    StartCopying(c, s, p, job);
    CopySteps(c, s3, p, job, 0, 0, i);
    var s4 := Run(c, s3, Copies(p, i));
    SweepLeavesNothing(c, s4, p, job, i);
    var s5 := Do(c, s4, SweepOne(job.token));
    CopySteps(c, s5, p, job, i, i, n - i);
    s' := Run(c, s5, Copies(p, n - i));
    SweptRunSplit(c, s, p, job, i);
    if i == n {
      assert Copies(p, 0) == [];
      RunNone(c, s5);
    }
  }

  lemma RunNone(c: Codec, s: State)
    ensures Run(c, s, []) == s
  {
  }

  lemma StartCopying(c: Codec, s: State, p: Pid, job: Job)
    requires DistinctPaths(job.source)
    requires (At(s, p) ==> !Live(s.writers[p])) && FreshToken(s, job.token) && job.dest !in s.disk.final
    ensures var s3 := Do(c, Do(c, Do(c, s, Start(p, job)), CheckFinal(p)), MakeStaging(p));
            CopiedFrom(c, s3, p, job, 0, 0) && s3.disk.final == s.disk.final
  {
    var s1 := Do(c, s, Start(p, job));
    var s2 := Do(c, s1, CheckFinal(p));
    assert s2.writers[p] == Checked(job);
    assert job.source[..0] == [] && job.source[0..0] == [] && Copied([]) == map[];
  }

  lemma SweepLeavesNothing(c: Codec, s: State, p: Pid, job: Job, i: nat)
    requires DistinctPaths(job.source) && i <= |job.source| && CopiedFrom(c, s, p, job, 0, i)
    ensures var s' := Do(c, s, SweepOne(job.token));
            CopiedFrom(c, s', p, job, i, i) && s'.disk.final == s.disk.final && job.token !in s'.disk.staging
  {
  }

  lemma SweptRunSplit(c: Codec, s: State, p: Pid, job: Job, i: nat)
    requires i <= |job.source|
    ensures var s3 := Do(c, Do(c, Do(c, s, Start(p, job)), CheckFinal(p)), MakeStaging(p));
            var s5 := Do(c, Run(c, s3, Copies(p, i)), SweepOne(job.token));
            var s6 := Run(c, s5, Copies(p, |job.source| - i));
            Run(c, s, SweptRun(p, job, i)) == Do(c, Do(c, s6, WriteManifest(p)), Rename(p))
  {
    hide Do, Run, Copies;
    var a, b, d := [Start(p, job)], [CheckFinal(p)], [MakeStaging(p)];
    var first, sweep, rest := Copies(p, i), [SweepOne(job.token)], Copies(p, |job.source| - i);
    var m, r := [WriteManifest(p)], [Rename(p)];
    RunConcat(c, s, a + b + d + first + sweep + rest + m, r);
    RunConcat(c, s, a + b + d + first + sweep + rest, m);
    RunConcat(c, s, a + b + d + first + sweep, rest);
    RunConcat(c, s, a + b + d + first, sweep);
    RunConcat(c, s, a + b + d, first);
    RunConcat(c, s, a + b, d);
    RunConcat(c, s, a, b);
    var s1 := Do(c, s, a[0]);
    RunOne(c, s, a[0]);
    RunOne(c, s1, b[0]);
    RunOne(c, Do(c, s1, b[0]), d[0]);
    var s4 := Run(c, Do(c, Do(c, s1, b[0]), d[0]), first);
    RunOne(c, s4, sweep[0]);
    var s6 := Run(c, Do(c, s4, sweep[0]), rest);
    RunOne(c, s6, m[0]);
    RunOne(c, Do(c, s6, m[0]), r[0]);
  }

  /**
   sweep_staging during a write, after any i of the n files: with all of them copied the
   writer raises and nothing is committed; otherwise the next copy makes the staging
   directory again and the rename commits it. What is committed verifies exactly if the
   sweep came before the first copy; else the first file is missing.
   */
  lemma SweepDuringWrite(c: Codec, s: State, p: Pid, job: Job, i: nat)
    requires Sound(c) && DistinctPaths(job.source) && i <= |job.source|
    requires forall k :: 0 <= k < |job.source| ==> job.source[k].0 != ManifestFile
    requires (At(s, p) ==> !Live(s.writers[p])) && FreshToken(s, job.token) && job.dest !in s.disk.final
    ensures var s' := Run(c, s, SweptRun(p, job, i));
            && p in s'.writers
            && (i == |job.source| ==> s'.writers[p] == Raised && s'.disk.final == s.disk.final)
            && (i < |job.source| ==>
                  && s'.writers[p] == Committed
                  && (Verify(c, s'.disk, job.dest) == Intact(ManifestOf(c, job)) <==> i == 0)
                  && (i > 0 ==> Verify(c, s'.disk, job.dest) == Corrupt(job.source[0].0)))
  {
    var s1 := SweptBeforeManifest(c, s, p, job, i);
    var s2 := Do(c, s1, WriteManifest(p));
    var source := job.source;
    assert source[..|source|] == source;
    if i < |source| {
      var dir := Copied(source[i..])[ManifestFile := c.render(ManifestOf(c, job))];
      assert source[i..|source|] == source[i..];
      assert s2.disk.staging[job.token] == dir;
      assert Do(c, s2, Rename(p)).disk.final[job.dest] == dir;
      TailVerifies(c, job, i);
    }
  }

  /** A directory that lost the first i files verifies exactly if i is 0. */
  lemma TailVerifies(c: Codec, job: Job, i: nat)
    requires Sound(c) && DistinctPaths(job.source) && i < |job.source|
    requires forall k :: 0 <= k < |job.source| ==> job.source[k].0 != ManifestFile
    ensures var dir := Copied(job.source[i..])[ManifestFile := c.render(ManifestOf(c, job))];
            && (i == 0 ==> VerifyDir(c, dir) == Intact(ManifestOf(c, job)))
            && (i > 0 ==> VerifyDir(c, dir) == Corrupt(job.source[0].0))
  {
    var source, m := job.source, ManifestOf(c, job);
    var dir := Copied(source[i..])[ManifestFile := c.render(m)];
    assert c.parse(c.render(m)) == Some(m);
    if i == 0 {
      assert source[0..] == source;
      CompleteVerifiesIff(c, job);
    } else {
      assert source[0].0 !in Copied(source[i..]) by {
        assert forall j :: 0 <= j < |source[i..]| ==> source[i..][j] == source[i + j];
      }
      assert m.files[0] == EntryOf(c, source[0]);
      assert FirstMismatch(c, dir, m.files) == Some(source[0].0);
    }
  }

  /** From an empty registry: a sweep between two files of any source of two commits a corrupt directory. */
  lemma SweepDuringWriteCommitsCorruption(c: Codec, job: Job)
    requires Sound(c) && DistinctPaths(job.source) && |job.source| == 2
    requires job.source[0].0 != ManifestFile && job.source[1].0 != ManifestFile
    ensures var s' := Run(c, State(Disk(map[], map[]), map[]), SweptRun(0, job, 1));
            Verify(c, s'.disk, job.dest) == Corrupt(job.source[0].0)
  {
    SweepDuringWrite(c, State(Disk(map[], map[]), map[]), 0, job, 1);
  }

  // ------------------------------------------------------------ an ingest that nobody interferes with

  /** All steps of one ingest. */
  function AloneRun(p: Pid, job: Job): seq<Step> {
    [Start(p, job)] + [CheckFinal(p)] + [MakeStaging(p)] + Copies(p, |job.source|) + [WriteManifest(p)] + [Rename(p)]
  }

  /** Undisturbed, an ingest under a new name commits its complete directory and nothing else. */
  lemma AloneIngestCommits(c: Codec, s: State, p: Pid, job: Job)
    requires DistinctPaths(job.source)
    requires (At(s, p) ==> !Live(s.writers[p])) && FreshToken(s, job.token) && job.dest !in s.disk.final
    ensures var s' := Run(c, s, AloneRun(p, job));
            && At(s', p) && s'.writers[p] == Committed
            && s'.disk.final == s.disk.final[job.dest := Complete(c, job)]
  {
    var n := |job.source|;
    var s3 := Do(c, Do(c, Do(c, s, Start(p, job)), CheckFinal(p)), MakeStaging(p));
    StartCopying(c, s, p, job);
    CopySteps(c, s3, p, job, 0, 0, n);
    AloneRunSplit(c, s, p, job);
    hide Copied, Entries, DistinctPaths, FreshToken;
    var s4 := Run(c, s3, Copies(p, n));
    MakingStaged(c, s, p, job);
    CopyingStays(c, s3, p, job, n);
    LastSteps(c, s4, p, job);
  }

  /** A copied writer with its staging directory in place commits what it copied. */
  lemma LastSteps(c: Codec, s: State, p: Pid, job: Job)
    requires DistinctPaths(job.source) && CopiedFrom(c, s, p, job, 0, |job.source|)
    requires job.token in s.disk.staging && job.dest !in s.disk.final
    ensures var s' := Do(c, Do(c, s, WriteManifest(p)), Rename(p));
            && At(s', p) && s'.writers[p] == Committed
            && s'.disk.final == s.disk.final[job.dest := Complete(c, job)]
  {
    assert job.source[..|job.source|] == job.source && job.source[0..|job.source|] == job.source;
    hide Copied, Entries;
  }

  lemma MakingStaged(c: Codec, s: State, p: Pid, job: Job)
    requires DistinctPaths(job.source)
    requires (At(s, p) ==> !Live(s.writers[p])) && FreshToken(s, job.token) && job.dest !in s.disk.final
    ensures var s3 := Do(c, Do(c, Do(c, s, Start(p, job)), CheckFinal(p)), MakeStaging(p));
            job.token in s3.disk.staging && At(s3, p) && s3.writers[p].Copying? && s3.writers[p].job == job
  {
    assert Do(c, Do(c, s, Start(p, job)), CheckFinal(p)).writers[p] == Checked(job);
  }

  lemma {:induction false} CopyingStays(c: Codec, s: State, p: Pid, job: Job, n: nat)
    requires job.token in s.disk.staging && At(s, p) && s.writers[p].Copying? && s.writers[p].job == job
    ensures job.token in Run(c, s, Copies(p, n)).disk.staging
    decreases n
  {
    if n == 0 {
      RunNone(c, s);
    } else {
      var s1 := Do(c, s, CopyFile(p));
      assert job.token in s1.disk.staging && s1.writers[p].Copying? && s1.writers[p].job == job;
      hide Run, Do;
      RunConcat(c, s, [CopyFile(p)], Copies(p, n - 1));
      RunOne(c, s, CopyFile(p));
      CopyingStays(c, s1, p, job, n - 1);
    }
  }

  lemma AloneRunSplit(c: Codec, s: State, p: Pid, job: Job)
    ensures var s3 := Do(c, Do(c, Do(c, s, Start(p, job)), CheckFinal(p)), MakeStaging(p));
            var s4 := Run(c, s3, Copies(p, |job.source|));
            Run(c, s, AloneRun(p, job)) == Do(c, Do(c, s4, WriteManifest(p)), Rename(p))
  {
    hide Do, Run, Copies;
    var a, b, d := [Start(p, job)], [CheckFinal(p)], [MakeStaging(p)];
    var copies, m, r := Copies(p, |job.source|), [WriteManifest(p)], [Rename(p)];
    RunConcat(c, s, a + b + d + copies + m, r);
    RunConcat(c, s, a + b + d + copies, m);
    RunConcat(c, s, a + b + d, copies);
    RunConcat(c, s, a + b, d);
    RunConcat(c, s, a, b);
    var s1 := Do(c, s, a[0]);
    RunOne(c, s, a[0]);
    RunOne(c, s1, b[0]);
    RunOne(c, Do(c, s1, b[0]), d[0]);
    var s4 := Run(c, Do(c, Do(c, s1, b[0]), d[0]), copies);
    RunOne(c, s4, m[0]);
    RunOne(c, Do(c, s4, m[0]), r[0]);
  }

  /**
   When a writer raises: the name is taken and must not be overwritten, the staging directory is
   gone when the manifest is due, or the rename finds it gone or the target not empty. The disk
   is then as it was, and a writer ends committed only by a rename that went through.
   */
  lemma RaisesAndCommitsExactly(c: Codec, s: State, a: Step)
    requires !a.SweepOne? && !a.Start? && !a.Crash? && At(s, a.p) && Live(s.writers[a.p])
    ensures var w, w', d, d' := s.writers[a.p], NextWriter(c, s, a), s.disk, NextDisk(c, s, a);
            && (w'.Raised? ==> d' == d)
            && (w'.Raised? <==>
                  || (a.CheckFinal? && w.Named? && w.job.dest in d.final && !w.job.overwrite)
                  || (a.WriteManifest? && w.Copying? && w.i == |w.job.source| && w.job.token !in d.staging)
                  || (a.Rename? && w.Ready?
                      && (w.job.token !in d.staging || (w.job.dest in d.final && d.final[w.job.dest] != map[]))))
            && (w'.Committed? <==> CommitsAt(s, a))
  {
  }
}
