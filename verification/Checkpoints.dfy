/** The checkpoint registry used by one process at a time: save, verify, list, sweep, prune. */
module Checkpoints {
  import opened Basics
  import opened Ingest

  datatype RegistryError = FileExists | TargetNotEmpty | ManifestUnreadable | KeepTooSmall

  /** Oldest first. */
  predicate ByTime(items: seq<Manifest>) {
    forall i, j :: 0 <= i < j < |items| ==> items[i].createdAt <= items[j].createdAt
  }

  predicate Readable(view: map<Name, Option<Manifest>>) {
    forall n :: n in view ==> view[n].Some?
  }

  /** items is the view in order of creation; names says which directory each item is from. */
  ghost predicate Lists(view: map<Name, Option<Manifest>>, names: seq<Name>, items: seq<Manifest>) {
    && |names| == |items|
    && ByTime(items)
    && Distinct(names)
    && (forall n :: n in names <==> n in view)
    && (forall i :: 0 <= i < |names| && names[i] in view ==> view[names[i]] == Some(items[i]))
  }

  lemma {:induction false} SomeOldest(view: map<Name, Option<Manifest>>, rest: set<Name>)
    requires Readable(view) && rest <= view.Keys && rest != {}
    ensures exists n :: n in rest && forall x :: x in rest ==> view[n].value.createdAt <= view[x].value.createdAt
  {
    var n :| n in rest;
    var others := rest - {n};
    if others == {} {
      assert rest == {n};
    } else {
      SomeOldest(view, others);
      var y :| y in others && forall x :: x in others ==> view[y].value.createdAt <= view[x].value.createdAt;
      var best := if view[n].value.createdAt <= view[y].value.createdAt then n else y;
      assert best in rest && forall x :: x in rest ==> view[best].value.createdAt <= view[x].value.createdAt;
    }
  }

  /** The disk with one staging directory written. */
  function StagedAs(d: Disk, token: Token, dir: Dir): Disk {
    d.(staging := d.staging[token := dir])
  }

  class CheckpointRegistry {
    const codec: Codec
    var disk: Disk

    constructor (codec: Codec)
      ensures this.codec == codec && disk == Disk(map[], map[])
    {
      this.codec := codec;
      disk := Disk(map[], map[]);
    }

    /** atomic_ingest without interruption; the token is a new staging name. */
    method AtomicIngest(job: Job) returns (r: Result<seq<FileEntry>, RegistryError>)
      requires DistinctPaths(job.source) && job.token !in disk.staging
      modifies this`disk
      ensures job.dest in old(disk).final && !job.overwrite ==> r == Err(FileExists) && disk == old(disk)
      ensures job.dest in old(disk).final && job.overwrite && old(disk).final[job.dest] != map[] ==>
                r == Err(TargetNotEmpty)
                && disk == old(disk).(staging := old(disk).staging[job.token := Complete(codec, job)])
      ensures r.Err? <==> job.dest in old(disk).final && (!job.overwrite || old(disk).final[job.dest] != map[])
      ensures r.Ok? ==>
                && r.value == Entries(codec, job.source)
                && disk == old(disk).(final := old(disk).final[job.dest := Complete(codec, job)])
    {
      if job.dest in disk.final && !job.overwrite {
        return Err(FileExists);
      }
      var before := disk;
      var dir: Dir := map[];
      disk := StagedAs(before, job.token, dir);
      var entries: seq<FileEntry> := [];
      for i := 0 to |job.source|
        invariant disk == StagedAs(before, job.token, dir)
        invariant Holds(dir, job.source, i)
        invariant entries == Entries(codec, job.source[..i])
      {
        var file := job.source[i];
        PutKeepsHolding(dir, job.source, i, file.1);
        dir := dir[file.0 := file.1];
        disk := StagedAs(before, job.token, dir);
        entries := entries + [EntryOf(codec, file)];
        assert job.source[..i + 1] == job.source[..i] + [file];
      }
      assert job.source[..|job.source|] == job.source;
      CompleteOnceHeld(codec, job, dir);
      dir := dir[ManifestFile := codec.render(Manifest(job.dest, job.createdAt, entries))];
      disk := StagedAs(before, job.token, dir);
      if job.dest in disk.final && disk.final[job.dest] != map[] {
        return Err(TargetNotEmpty);
      }
      disk := Disk(disk.final[job.dest := disk.staging[job.token]], disk.staging - {job.token});
      assert disk.staging == before.staging;
      return Ok(entries);
    }

    /** The first file that is not as its manifest says decides the verdict. */
    method VerifyCheckpoint(n: Name) returns (verdict: Verdict)
      ensures verdict == Verify(codec, disk, n)
    {
      if n !in disk.final || ManifestFile !in disk.final[n] {
        return NotFound;
      }
      var dir := disk.final[n];
      var parsed := codec.parse(dir[ManifestFile]);
      if parsed == None {
        return Unreadable;
      }
      var files := parsed.value.files;
      for i := 0 to |files|
        invariant FirstMismatch(codec, dir, files) == FirstMismatch(codec, dir, files[i..])
      {
        assert files[i..][1..] == files[i + 1..];
        var e := files[i];
        if e.path !in dir || codec.hash(dir[e.path]) != e.digest || |dir[e.path]| != e.size {
          return Corrupt(e.path);
        }
      }
      return Intact(parsed.value);
    }

    /** An unreadable manifest makes list() raise. */
    method List() returns (r: Result<seq<Manifest>, RegistryError>, ghost names: seq<Name>)
      ensures r.Ok? <==> Readable(View(codec, disk))
      ensures r.Err? ==> r.error == ManifestUnreadable
      ensures r.Ok? ==> Lists(View(codec, disk), names, r.value)
      ensures r.Ok? ==> forall i, j :: 0 <= i < j < |r.value| ==> r.value[i].createdAt <= r.value[j].createdAt
    {
      var view := View(codec, disk);
      names := [];
      if exists n :: n in view.Keys && view[n] == None {
        return Err(ManifestUnreadable), names;
      }
      var rest := view.Keys;
      var items: seq<Manifest> := [];
      while rest != {}
        invariant rest <= view.Keys
        invariant |names| == |items| && ByTime(items)
        invariant Distinct(names)
        invariant forall n :: n in names <==> n in view && n !in rest
        invariant forall i :: 0 <= i < |names| && names[i] in view ==> view[names[i]] == Some(items[i])
        invariant forall i, n :: 0 <= i < |items| && n in rest ==> items[i].createdAt <= view[n].value.createdAt
        decreases rest
      {
        SomeOldest(view, rest);
        var n :| n in rest && forall x :: x in rest ==> view[n].value.createdAt <= view[x].value.createdAt;
        items := items + [view[n].value];
        names := names + [n];
        rest := rest - {n};
      }
      return Ok(items), names;
    }

    /** Removes every staging directory; committed checkpoints are untouched. */
    method SweepStaging() returns (count: nat)
      modifies this`disk
      ensures disk == old(disk).(staging := map[])
      ensures count == |old(disk).staging|
      ensures View(codec, disk) == View(codec, old(disk))
    {
      count := 0;
      var rest := disk.staging.Keys;
      while rest != {}
        invariant disk.final == old(disk).final
        invariant disk.staging.Keys == rest
        invariant count + |rest| == |old(disk).staging.Keys|
        decreases rest
      {
        var token :| token in rest;
        disk := disk.(staging := disk.staging - {token});
        rest := rest - {token};
        count := count + 1;
      }
      assert disk.staging == map[];
      assert |old(disk).staging.Keys| == |old(disk).staging|;
    }

    /** stuck says which files of a directory cannot be removed; such errors are ignored. */
    method Prune(keepLast: int, protect: set<Name>, stuck: Name -> set<Rel>)
      returns (r: Result<seq<Name>, RegistryError>, ghost names: seq<Name>, ghost items: seq<Manifest>)
      modifies this`disk
      ensures keepLast < 1 ==> r == Err(KeepTooSmall) && disk == old(disk)
      ensures r.Err? ==> disk == old(disk)
      ensures r.Ok? <==> keepLast >= 1 && Readable(View(codec, old(disk)))
      ensures r.Ok? ==>
                && Lists(View(codec, old(disk)), names, items)
                && r.value == Prunable(items, Recent(items, keepLast) + protect)
                && disk == old(disk).(final := Pruned(old(disk).final, Elements(r.value), stuck))
    {
      names, items := [], [];
      if keepLast < 1 {
        return Err(KeepTooSmall), names, items;
      }
      var listed: Result<seq<Manifest>, RegistryError>;
      listed, names := List();
      if listed.Err? {
        return Err(listed.error), names, items;
      }
      var all := listed.value;
      items := all;
      var removed := RemoveUnkept(all, Recent(all, keepLast) + protect, stuck);
      return Ok(removed), names, items;
    }

    method RemoveUnkept(all: seq<Manifest>, keep: set<Name>, stuck: Name -> set<Rel>) returns (removed: seq<Name>)
      modifies this`disk
      ensures removed == Prunable(all, keep)
      ensures disk == old(disk).(final := Pruned(old(disk).final, Elements(removed), stuck))
    {
      removed := [];
      ghost var before := disk.final;
      assert Elements<Name>([]) == {} && Pruned(before, {}, stuck) == before;
      for i := 0 to |all|
        invariant removed == Prunable(all[..i], keep)
        invariant disk == old(disk).(final := Pruned(before, Elements(removed), stuck))
      {
        PrunableSnoc(all, i, keep);
        var name := all[i].name;
        if name !in keep {
          PruneOneMore(before, removed, name, stuck);
          RemoveTree(name, stuck(name));
          removed := removed + [name];
        }
      }
      assert all[..|all|] == all;
    }

    /** rmtree, file by file in any order; the directory itself goes once it is empty. */
    method RemoveTree(n: Name, stuck: set<Rel>)
      modifies this`disk
      ensures disk == old(disk).(final := WithoutTree(old(disk).final, n, stuck))
    {
      if n !in disk.final {
        return;
      }
      var before := disk;
      var dir := disk.final[n];
      var rest := dir.Keys;
      assert Leftover(dir, rest + stuck) == dir && before.final[n := dir] == before.final;
      while rest != {}
        invariant rest <= dir.Keys
        invariant disk == before.(final := before.final[n := Leftover(dir, rest + stuck)])
        decreases rest
      {
        var r :| r in rest;
        if r !in stuck {
          LeftoverMinus(dir, rest, stuck, r);
          disk := disk.(final := disk.final[n := disk.final[n] - {r}]);
        } else {
          assert rest - {r} + stuck == rest + stuck;
        }
        rest := rest - {r};
      }
      assert {} + stuck == stuck;
      if disk.final[n] == map[] {
        disk := disk.(final := disk.final - {n});
        assert before.final[n := map[]] - {n} == before.final - {n};
      }
    }
  }

  // ------------------------------------------------------------ retention

  /** The ids of the last keepLast items. */
  function Recent(items: seq<Manifest>, keepLast: nat): set<Name> {
    set i | Max(0, |items| - keepLast) <= i < |items| :: items[i].name
  }

  function Prunable(items: seq<Manifest>, keep: set<Name>): seq<Name> {
    if items == [] then []
    else (if items[0].name in keep then [] else [items[0].name]) + Prunable(items[1..], keep)
  }

  lemma {:induction false} PrunableSnoc(items: seq<Manifest>, i: nat, keep: set<Name>)
    requires i < |items|
    ensures Prunable(items[..i + 1], keep)
         == Prunable(items[..i], keep) + (if items[i].name in keep then [] else [items[i].name])
  {
    if i > 0 {
      PrunableSnoc(items[1..], i - 1, keep);
      assert items[..i + 1][1..] == items[1..][..i] && items[..i][1..] == items[1..][..i - 1];
    }
  }

  /** What is left of a directory if only these files remain. */
  function Leftover(dir: Dir, left: set<Rel>): Dir {
    map r | r in dir && r in left :: dir[r]
  }

  lemma LeftoverMinus(dir: Dir, rest: set<Rel>, stuck: set<Rel>, r: Rel)
    requires r !in stuck
    ensures Leftover(dir, rest + stuck) - {r} == Leftover(dir, rest - {r} + stuck)
  {
  }

  /** A removal that the stuck files resist: they keep the directory, and an emptied directory goes. */
  function WithoutTree(final: map<Name, Dir>, n: Name, stuck: set<Rel>): map<Name, Dir> {
    if n !in final then final
    else if Leftover(final[n], stuck) == map[] then final - {n}
    else final[n := Leftover(final[n], stuck)]
  }

  function Pruned(final: map<Name, Dir>, gone: set<Name>, stuck: Name -> set<Rel>): map<Name, Dir> {
    map n | n in final && (n in gone ==> Leftover(final[n], stuck(n)) != map[]) ::
      if n in gone then Leftover(final[n], stuck(n)) else final[n]
  }

  lemma PruneOneMore(final: map<Name, Dir>, removed: seq<Name>, n: Name, stuck: Name -> set<Rel>)
    ensures WithoutTree(Pruned(final, Elements(removed), stuck), n, stuck(n))
         == Pruned(final, Elements(removed + [n]), stuck)
  {
    assert Elements(removed + [n]) == Elements(removed) + {n};
    if n in final {
      LeftoverTwice(final[n], stuck(n));
    }
  }

  lemma LeftoverTwice(dir: Dir, left: set<Rel>)
    ensures Leftover(Leftover(dir, left), left) == Leftover(dir, left)
  {
  }

  lemma {:induction false} PrunableIff(items: seq<Manifest>, keep: set<Name>, n: Name)
    ensures n in Prunable(items, keep) <==> n !in keep && exists i :: 0 <= i < |items| && items[i].name == n
  {
    if items != [] {
      PrunableIff(items[1..], keep, n);
      if i :| 0 <= i < |items[1..]| && items[1..][i].name == n {
        assert items[i + 1].name == n;
      }
      if i :| 0 < i < |items| && items[i].name == n {
        assert items[1..][i - 1].name == n;
      }
    }
  }

  /** Every manifest carries the name of its own directory, as every ingest writes it. */
  predicate OwnNames(view: map<Name, Option<Manifest>>) {
    forall n :: n in view && view[n].Some? ==> view[n].value.name == n
  }

  /**
   What is listed after pruning, or after a prune that crashed or met files it could not
   remove: whatever is protected or among the last keepLast, as it was, and besides that
   exactly the directories whose manifest is left. The newest checkpoint stays the newest.
   */
  lemma PruneKeepsRecentAndProtected(c: Codec, d: Disk, names: seq<Name>, items: seq<Manifest>, keepLast: nat,
                                     protect: set<Name>, stuck: Name -> set<Rel>, n: Name)
    requires keepLast >= 1
    requires Lists(View(c, d), names, items) && OwnNames(View(c, d))
    ensures var gone := Elements(Prunable(items, Recent(items, keepLast) + protect));
            var d' := d.(final := Pruned(d.final, gone, stuck));
            var kept := n in protect || exists i :: 0 <= i && |items| - keepLast <= i < |items| && names[i] == n;
            && (n in View(c, d') <==> n in View(c, d) && (kept || ManifestFile in stuck(n)))
            && (n in View(c, d') ==> View(c, d')[n] == View(c, d)[n])
            && (n in d.final && (kept || n !in View(c, d)) ==> n in d'.final && d'.final[n] == d.final[n])
            && (items != [] ==> names[|names| - 1] in View(c, d'))
  {
    var gone := Elements(Prunable(items, Recent(items, keepLast) + protect));
    hide View, Prunable, Pruned, Recent, ByTime, OwnNames;
    ViewPruned(c, d, gone, stuck);
    GoneIff(View(c, d), names, items, keepLast, protect, n);
    if items != [] {
      GoneIff(View(c, d), names, items, keepLast, protect, names[|names| - 1]);
      assert names[|names| - 1] in names;
    }
  }

  /** A listed checkpoint is pruned exactly if it is neither protected nor among the last keepLast. */
  lemma GoneIff(view: map<Name, Option<Manifest>>, names: seq<Name>, items: seq<Manifest>, keepLast: nat,
                protect: set<Name>, n: Name)
    requires keepLast >= 1 && Lists(view, names, items) && OwnNames(view)
    ensures n in Prunable(items, Recent(items, keepLast) + protect) <==>
              && n in view && n !in protect
              && !exists i :: 0 <= i && |items| - keepLast <= i < |items| && names[i] == n
  {
    assert forall i :: 0 <= i < |items| ==> names[i] in names && items[i].name == names[i];
    hide Prunable, ByTime;
    PrunableIff(items, Recent(items, keepLast) + protect, n);
    if n in view {
      var k :| 0 <= k < |names| && names[k] == n;
      assert items[k].name == n;
    }
  }

  lemma ViewPruned(c: Codec, d: Disk, gone: set<Name>, stuck: Name -> set<Rel>)
    ensures var d' := d.(final := Pruned(d.final, gone, stuck));
            && (forall n :: n in View(c, d') <==> n in View(c, d) && (n in gone ==> ManifestFile in stuck(n)))
            && (forall n :: n in View(c, d') ==> View(c, d')[n] == View(c, d)[n])
            && (forall n :: n in d.final && n !in gone ==> n in d'.final && d'.final[n] == d.final[n])
  {
    var d' := d.(final := Pruned(d.final, gone, stuck));
    forall n | n in d.final && n in gone && ManifestFile in d.final[n] && ManifestFile in stuck(n)
      ensures n in d'.final && ManifestFile in d'.final[n]
    {
      assert ManifestFile in Leftover(d.final[n], stuck(n));
    }
  }

  /**
   Of a directory that some files are left of, the manifest among them: it still verifies
   exactly if it verified before and every file of the manifest is among those left.
   */
  lemma LeftoverVerifiesIff(c: Codec, dir: Dir, left: set<Rel>, m: Manifest)
    requires ManifestFile in dir && ManifestFile in left && c.parse(dir[ManifestFile]) == Some(m)
    ensures VerifyDir(c, Leftover(dir, left)) == Intact(m)
       <==> VerifyDir(c, dir) == Intact(m) && forall i :: 0 <= i < |m.files| ==> m.files[i].path in left
  {
    NoMismatchIff(c, dir, m.files);
    NoMismatchIff(c, Leftover(dir, left), m.files);
    forall i | 0 <= i < |m.files|
      ensures Matches(c, Leftover(dir, left), m.files[i]) <==> Matches(c, dir, m.files[i]) && m.files[i].path in left
    {
    }
  }

  /**
   So a checkpoint whose removal stopped after some file is listed exactly if that was not
   the manifest yet, and then it no longer verifies.
   */
  lemma HalfRemovedIsCorrupt(c: Codec, d: Disk, job: Job, left: set<Rel>)
    requires Sound(c) && DistinctPaths(job.source)
    requires forall i :: 0 <= i < |job.source| ==> job.source[i].0 != ManifestFile
    requires job.dest in d.final && d.final[job.dest] == Complete(c, job)
    requires exists r :: r in Complete(c, job) && r !in left
    ensures var d' := d.(final := d.final[job.dest := Leftover(Complete(c, job), left)]);
            && (job.dest in View(c, d') <==> ManifestFile in left)
            && (if ManifestFile in left then Verify(c, d', job.dest).Corrupt? else Verify(c, d', job.dest) == NotFound)
  {
    var dir, m := Complete(c, job), ManifestOf(c, job);
    if ManifestFile in left {
      assert c.parse(c.render(m)) == Some(m);
      LeftoverVerifiesIff(c, dir, left, m);
      var r :| r in dir && r !in left;
      var k :| 0 <= k < |job.source| && job.source[k].0 == r;
      assert m.files[k] == EntryOf(c, job.source[k]);
    }
  }

  /** A checkpoint of the greatest creation time survives every prune, untouched. */
  lemma NewestSurvives(c: Codec, d: Disk, names: seq<Name>, items: seq<Manifest>, keepLast: nat, protect: set<Name>,
                       stuck: Name -> set<Rel>)
    returns (newest: Name)
    requires keepLast >= 1 && items != []
    requires Lists(View(c, d), names, items) && OwnNames(View(c, d))
    ensures var d' := d.(final := Pruned(d.final, Elements(Prunable(items, Recent(items, keepLast) + protect)), stuck));
            && newest in View(c, d) && View(c, d)[newest].Some?
            && (forall x :: x in View(c, d) && View(c, d)[x].Some? ==>
                  View(c, d)[x].value.createdAt <= View(c, d)[newest].value.createdAt)
            && newest in d'.final && d'.final[newest] == d.final[newest]
  {
    newest := names[|names| - 1];
    assert newest in names;
    PruneKeepsRecentAndProtected(c, d, names, items, keepLast, protect, stuck, newest);
    NewestIsLast(View(c, d), names, items);
    hide Pruned, Prunable, Recent;
    assert exists i :: 0 <= i && |items| - keepLast <= i < |items| && names[i] == newest by {
      assert names[|items| - 1] == newest;
    }
  }

  lemma NewestIsLast(view: map<Name, Option<Manifest>>, names: seq<Name>, items: seq<Manifest>)
    requires Lists(view, names, items) && items != []
    ensures var newest := names[|names| - 1];
            && newest in view && view[newest].Some?
            && forall x :: x in view && view[x].Some? ==> view[x].value.createdAt <= view[newest].value.createdAt
  {
    assert names[|names| - 1] in names;
    forall x | x in view && view[x].Some?
      ensures view[x].value.createdAt <= items[|items| - 1].createdAt
    {
      assert x in names;
    }
  }

  /** Whatever was pruned is no newer than whatever the count of recent ones kept. */
  lemma PrunedAreOlder(view: map<Name, Option<Manifest>>, names: seq<Name>, items: seq<Manifest>, keepLast: nat,
                       protect: set<Name>, gone: Name, i: nat)
    requires keepLast >= 1 && Lists(view, names, items) && OwnNames(view)
    requires gone in Prunable(items, Recent(items, keepLast) + protect)
    requires |items| - keepLast <= i < |items|
    ensures gone in view && view[gone].Some? && names[i] in view && view[names[i]].Some?
    ensures view[gone].value.createdAt <= view[names[i]].value.createdAt
  {
    GoneIff(view, names, items, keepLast, protect, gone);
    hide Prunable, Recent;
    assert gone in names;
    var k :| 0 <= k < |names| && names[k] == gone;
    assert names[i] in names;
    assert k < i;
  }
}
