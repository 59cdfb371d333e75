/** CreateRollback (rollback.go): the snapshot of all targets, published by one rename before any target changes. */
module Rollback {
  import opened Strings
  import opened Components
  import opened Disks
  import opened Restore

  predicate ComponentShape(specs: map<string, Spec>, c: StagedComponent) {
    c.component in specs && c.target == specs[c.component].target && c.mode == specs[c.component].mode
  }

  ghost predicate PlanShape(specs: map<string, Spec>, cs: seq<StagedComponent>) {
    (forall i :: 0 <= i < |cs| ==> ComponentShape(specs, cs[i]))
    && forall i, j :: 0 <= i < j < |cs| ==> cs[i].component != cs[j].component
  }

  /** A target that can be snapshotted: absent, or a regular file within the size limit. */
  predicate Snapshottable(base: Files, c: StagedComponent) {
    var t := Target(c.target);
    t in base ==> base[t].Regular? && |base[t].content| <= 67_108_864
  }

  /** The record a snapshot of `base` keeps for one component. */
  function RecordOf(base: Files, c: StagedComponent): RollbackFile {
    var t := Target(c.target);
    if t in base && base[t].Regular? then
      RollbackFile(c.component, c.target, true, base[t].perm, |base[t].content|, Sha256(base[t].content))
    else
      RollbackFile(c.component, c.target, false, 0, 0, Malformed(""))
  }

  function Records(base: Files, cs: seq<StagedComponent>): seq<RollbackFile> {
    seq(|cs|, i requires 0 <= i < |cs| => RecordOf(base, cs[i]))
  }

  predicate BackedUp(files: Files, dir: string, base: Files, c: StagedComponent) {
    var t, b := Target(c.target), Backup(dir, c.component);
    t in base && base[t].Regular? ==> b in files && files[b] == Regular(base[t].content, OWNER_FILE, false)
  }

  ghost predicate AllBackedUp(files: Files, dir: string, base: Files, cs: seq<StagedComponent>) {
    forall i :: 0 <= i < |cs| ==> Snapshottable(base, cs[i]) && BackedUp(files, dir, base, cs[i])
  }

  /** `dir` holds a published, complete snapshot of the plan's targets as they are in `base`. */
  ghost predicate Snapshot(specs: map<string, Spec>, img: Image, dir: string, plan: StagePlan, base: Files) {
    var m := ManifestOf(img, dir);
    m.Some? && m.value.schema == 1 && m.value.forRelease == plan.releaseVersion
    && m.value.files == Records(base, plan.components)
    && PlanShape(specs, plan.components)
    && AllBackedUp(img.files, dir, base, plan.components)
  }

  ghost function BackupsIn(dir: string): iset<Path> {
    iset p: Path | p.Backup? && p.dir == dir
  }

  function Temporary(dir: string): string { dir + ".tmp" }

  /** copyRollbackFile and the record around it: the body of the loop for one component. */
  method SnapshotComponent(d: Disk, temporary: string, c: StagedComponent) returns (r: Outcome, record: RollbackFile)
    modifies d`files
    ensures Agree(d.files, old(d.files), iset{Backup(temporary, c.component)})
    ensures r.Ok? ==> record == RecordOf(d.files, c) && Snapshottable(d.files, c) && BackedUp(d.files, temporary, d.files, c)
    ensures Target(c.target) !in old(d.files) ==> SameAt(d.files, old(d.files), Backup(temporary, c.component))
    ensures d.calm ==> !r.Crash?
    ensures d.calm && Snapshottable(old(d.files), c) && Backup(temporary, c.component) !in old(d.files) ==> r.Ok?
  {
    record := RollbackFile(c.component, c.target, false, 0, 0, Malformed(""));
    r := d.Step();
    if !r.Ok? {
      return;
    }
    var t, b := Target(c.target), Backup(temporary, c.component);
    if t !in d.files {
      return Ok, record;
    }
    if !d.files[t].Regular? || |d.files[t].content| > MAX_FILE_SIZE {
      return Fail, record;
    }
    var info := d.files[t];
    r := d.Step();
    if !r.Ok? {
      return;
    }
    if b in d.files {
      return Fail, record;
    }
    r := d.Step();
    if !r.Ok? {
      var written: nat :| written <= |info.content|;
      d.files := d.files[b := Regular(info.content[..written], OWNER_FILE, false)];
      return;
    }
    d.files := d.files[b := Regular(info.content, OWNER_FILE, false)];
    record := RollbackFile(c.component, c.target, true, info.perm, |info.content|, Sha256(info.content));
  }

  ghost predicate CanSnapshot(specs: map<string, Spec>, base: Files, temporary: string, cs: seq<StagedComponent>) {
    && PlanShape(specs, cs)
    && (forall i :: 0 <= i < |cs| ==> Snapshottable(base, cs[i]))
    && (forall c :: Backup(temporary, c) !in base)
  }

  /** The loop of CreateRollback. */
  method SnapshotAll(d: Disk, temporary: string, cs: seq<StagedComponent>) returns (r: Outcome, records: seq<RollbackFile>)
    modifies d`files
    ensures Agree(d.files, old(d.files), BackupsIn(temporary))
    ensures r.Ok? ==>
      PlanShape(d.specs, cs) && records == Records(old(d.files), cs) && AllBackedUp(d.files, temporary, old(d.files), cs)
    ensures d.calm ==> !r.Crash?
    ensures d.calm && CanSnapshot(d.specs, old(d.files), temporary, cs) ==> r.Ok?
  {
    var seen: set<string> := {};
    records := [];
    ghost var base := d.files;
    for i := 0 to |cs|
      invariant Agree(d.files, base, BackupsIn(temporary))
      invariant seen == set k | 0 <= k < i :: cs[k].component
      invariant PlanShape(d.specs, cs[..i])
      invariant records == Records(base, cs[..i])
      invariant AllBackedUp(d.files, temporary, base, cs[..i])
      invariant forall c :: Backup(temporary, c) in d.files ==> c in seen || Backup(temporary, c) in base
    {
      var c := cs[i];
      if c.component !in d.specs || c.target != d.specs[c.component].target || c.mode != d.specs[c.component].mode || c.component in seen {
        r := Fail;
        return;
      }
      seen := seen + {c.component};
      ghost var before := d.files;
      var record;
      r, record := SnapshotComponent(d, temporary, c);
      SnapshotStep(base, before, d.files, temporary, cs, i);
      if !r.Ok? {
        return;
      }
      records := records + [record];
    }
    assert cs[..|cs|] == cs;
    r := Ok;
  }

  /** Adding component `i` to the snapshot keeps what was saved before. */
  lemma SnapshotStep(base: Files, before: Files, after: Files, temporary: string, cs: seq<StagedComponent>, i: nat)
    requires i < |cs| && Agree(before, base, BackupsIn(temporary))
    requires Agree(after, before, iset{Backup(temporary, cs[i].component)})
    requires forall k :: 0 <= k < i ==> cs[k].component != cs[i].component
    requires AllBackedUp(before, temporary, base, cs[..i])
    ensures Agree(after, base, BackupsIn(temporary))
    ensures AllBackedUp(after, temporary, base, cs[..i])
    ensures SameAt(after, base, Target(cs[i].target))
    ensures Records(base, cs[..i + 1]) == Records(base, cs[..i]) + [RecordOf(base, cs[i])]
    ensures Snapshottable(base, cs[i]) && BackedUp(after, temporary, base, cs[i]) ==>
      AllBackedUp(after, temporary, base, cs[..i + 1])
  {
    assert forall k :: 0 <= k < i ==> cs[..i][k] == cs[k] && cs[..i + 1][k] == cs[k];
    forall k | 0 <= k < i
      ensures SameAt(after, before, Backup(temporary, cs[k].component))
    {
    }
  }

  /** os.RemoveAll of the temporary snapshot directory. */
  method RemoveTemporary(d: Disk, temporary: string) returns (r: Outcome)
    modifies d`files, d`dirs, d`manifests
    ensures Agree(d.files, old(d.files), BackupsIn(temporary))
    ensures AgreeExcept(d.dirs, old(d.dirs), {temporary})
    ensures AgreeExcept(d.manifests, old(d.manifests), {temporary})
    ensures d.calm ==> r.Ok?
  {
    r := d.Step();
    if r.Ok? {
      d.files := map p | p in d.files && !(p.Backup? && p.dir == temporary) :: d.files[p];
      d.manifests := d.manifests - {temporary};
      d.dirs := d.dirs - {temporary};
    } else {
      var gone: set<string> :| true;
      d.files := map p | p in d.files && !(p.Backup? && p.dir == temporary && p.component in gone) :: d.files[p];
    }
  }

  /** os.Rename of the temporary directory to its final name, atomic. */
  method Publish(d: Disk, temporary: string, dir: string) returns (r: Outcome)
    requires temporary != dir && temporary in d.dirs && temporary in d.manifests
    modifies d`files, d`dirs, d`manifests
    ensures !r.Ok? ==> d.files == old(d.files) && d.dirs == old(d.dirs) && d.manifests == old(d.manifests)
    ensures r.Ok? ==> Agree(d.files, old(d.files), BackupsIn(temporary) + BackupsIn(dir))
    ensures r.Ok? ==> forall c :: Backup(temporary, c) in old(d.files) ==>
      Backup(dir, c) in d.files && d.files[Backup(dir, c)] == old(d.files)[Backup(temporary, c)]
    ensures r.Ok? ==> d.dirs == old(d.dirs)[dir := old(d.dirs)[temporary]] - {temporary}
    ensures r.Ok? ==> d.manifests == old(d.manifests)[dir := old(d.manifests)[temporary]] - {temporary}
    ensures d.calm ==> r.Ok?
  {
    r := d.Step();
    if r.Ok? {
      var kept := map p | p in d.files && !(p.Backup? && (p.dir == temporary || p.dir == dir)) :: d.files[p];
      var moved := map p | p in d.files && p.Backup? && p.dir == temporary :: Backup(dir, p.component) := d.files[p];
      assert forall c :: Backup(temporary, c) in d.files ==> Backup(dir, c) in moved && moved[Backup(dir, c)] == d.files[Backup(temporary, c)];
      d.files := kept + moved;
      d.dirs := d.dirs[dir := d.dirs[temporary]] - {temporary};
      d.manifests := d.manifests[dir := d.manifests[temporary]] - {temporary};
    }
  }

  ghost predicate CanCreate(specs: map<string, Spec>, img: Image, dir: string, plan: StagePlan) {
    dir !in img.dirs && Temporary(dir) !in img.dirs && CanSnapshot(specs, img.files, Temporary(dir), plan.components)
  }

  /** CreateRollback. */
  method CreateRollback(d: Disk, plan: StagePlan, dir: string, now: int) returns (r: Outcome)
    modifies d`files, d`dirs, d`manifests
    ensures Agree(d.files, old(d.files), BackupsIn(dir) + BackupsIn(Temporary(dir)))
    ensures AgreeExcept(d.dirs, old(d.dirs), {dir, Temporary(dir)})
    ensures AgreeExcept(d.manifests, old(d.manifests), {dir, Temporary(dir)})
    ensures dir in old(d.dirs) ==>
      !r.Ok? && d.files == old(d.files) && d.dirs == old(d.dirs) && d.manifests == old(d.manifests)
    ensures dir !in old(d.dirs) && dir in d.dirs ==>
      Snapshot(d.specs, d.Now(), dir, plan, old(d.files)) && ManifestOf(d.Now(), dir).value.preparedAt == now
    ensures r.Ok? ==> dir in d.dirs
    ensures d.calm ==> !r.Crash?
    ensures d.calm && CanCreate(d.specs, old(d.Now()), dir, plan) ==> r.Ok?
  {
    ghost var base := d.files;
    var temporary := Temporary(dir);
    r := d.Step();
    if !r.Ok? {
      return;
    }
    if dir in d.dirs || temporary in d.dirs {
      return Fail;
    }
    r := d.Step();
    if !r.Ok? {
      return;
    }
    d.dirs := d.dirs[temporary := OWNER_DIR];
    var records;
    r, records := SnapshotAll(d, temporary, plan.components);
    if r.Ok? {
      r := d.Step();
      if r.Ok? {
        var m := RollbackManifest(1, now, plan.releaseVersion, records);
        d.manifests := d.manifests[temporary := ManifestFile(OWNER_FILE, Some(m))];
        r := d.Step();
      } else {
        d.manifests := d.manifests[temporary := ManifestFile(OWNER_FILE, None)];
      }
    }
    if r.Ok? {
      r := Publish(d, temporary, dir);
      if r.Ok? {
        // The final directory sync may fail, but the snapshot is published.
        r := d.Step();
        return;
      }
    }
    if r.Fail? {
      var ignored := RemoveTemporary(d, temporary);
      if ignored.Crash? {
        r := Crash;
      }
    }
  }
}
