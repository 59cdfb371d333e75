/** VerifyRollback (acceptance.go) and RestoreRollback (restore.go). */
module Restore {
  import opened Strings
  import opened Components
  import opened Disks

  // ----- what a usable rollback is -------------------------------------------

  predicate RecordShape(specs: map<string, Spec>, f: RollbackFile) {
    f.component in specs && f.target == specs[f.component].target
  }

  predicate BackupSound(files: Files, dir: string, f: RollbackFile) {
    var b := Backup(dir, f.component);
    b in files && files[b].Regular? && files[b].perm == OWNER_FILE
    && |files[b].content| == f.size && Sha256(files[b].content) == f.sha
  }

  predicate RecordSound(files: Files, dir: string, f: RollbackFile) {
    Replaceable(files, Target(f.target)) &&
    if f.existed then
      0 < f.mode <= 511 && 0 <= f.size <= 67_108_864 && BackupSound(files, dir, f)
    else
      f.mode == 0 && f.size == 0 && f.sha == Malformed("")
  }

  ghost predicate DistinctComponents(fs: seq<RollbackFile>) {
    forall i, j :: 0 <= i < j < |fs| ==> fs[i].component != fs[j].component
  }

  ghost predicate DistinctTargets(fs: seq<RollbackFile>) {
    forall i, j :: 0 <= i < j < |fs| ==> fs[i].target != fs[j].target
  }

  predicate ManifestComplete(m: RollbackManifest) {
    m.schema == 1 && m.preparedAt != 0 && m.forRelease != "" && m.files != []
  }

  ghost predicate RecordsSound(specs: map<string, Spec>, files: Files, dir: string, fs: seq<RollbackFile>) {
    DistinctComponents(fs)
    && forall i :: 0 <= i < |fs| ==> RecordShape(specs, fs[i]) && RecordSound(files, dir, fs[i])
  }

  /** The manifest of a root-only rollback directory, if it is a root-only file that decodes. */
  ghost function ManifestOf(img: Image, dir: string): Option<RollbackManifest> {
    if dir in img.dirs && img.dirs[dir] == OWNER_DIR
       && dir in img.manifests && img.manifests[dir].perm == OWNER_FILE
    then img.manifests[dir].doc else None
  }

  ghost predicate Verified(specs: map<string, Spec>, files: Files, dir: string, m: RollbackManifest) {
    ManifestComplete(m) && RecordsSound(specs, files, dir, m.files)
  }

  /** The rollback in `dir` is complete, well-formed and matches its backups. */
  ghost predicate RollbackValid(specs: map<string, Spec>, img: Image, dir: string) {
    ManifestOf(img, dir).Some? && Verified(specs, img.files, dir, ManifestOf(img, dir).value)
  }

  method VerifyRollback(d: Disk, dir: string) returns (r: Outcome, m: RollbackManifest)
    ensures r.Ok? ==> ManifestOf(d.Now(), dir) == Some(m) && Verified(d.specs, d.files, dir, m)
    ensures d.calm ==> !r.Crash? && (r.Ok? <==> RollbackValid(d.specs, d.Now(), dir))
  {
    m := RollbackManifest(0, 0, "", []);
    r := d.Step();
    if !r.Ok? {
      return;
    }
    if dir !in d.dirs || d.dirs[dir] != OWNER_DIR {
      return Fail, m;
    }
    r := d.Step();
    if !r.Ok? {
      return;
    }
    if dir !in d.manifests || d.manifests[dir].perm != OWNER_FILE || d.manifests[dir].doc.None? {
      return Fail, m;
    }
    m := d.manifests[dir].doc.value;
    if m.schema != 1 || m.preparedAt == 0 || m.forRelease == "" || m.files == [] {
      return Fail, m;
    }
    r := VerifyRecords(d, dir, m.files);
  }

  /** The loop of VerifyRollback over the manifest's records. */
  method VerifyRecords(d: Disk, dir: string, fs: seq<RollbackFile>) returns (r: Outcome)
    ensures r.Ok? ==> RecordsSound(d.specs, d.files, dir, fs)
    ensures d.calm ==> !r.Crash? && (r.Ok? <==> RecordsSound(d.specs, d.files, dir, fs))
  {
    var seen: set<string> := {};
    for i := 0 to |fs|
      invariant seen == set k | 0 <= k < i :: fs[k].component
      invariant DistinctComponents(fs[..i])
      invariant forall k :: 0 <= k < i ==> RecordShape(d.specs, fs[k]) && RecordSound(d.files, dir, fs[k])
    {
      var f := fs[i];
      if f.component !in d.specs || f.target != d.specs[f.component].target || f.component in seen {
        return Fail;
      }
      seen := seen + {f.component};
      r := d.Step();
      if !r.Ok? {
        return;
      }
      var sound := CheckRecord(d, dir, f);
      if !sound {
        return Fail;
      }
    }
    assert fs[..|fs|] == fs;
    return Ok;
  }

  /** One record against its backup and its target. */
  method CheckRecord(d: Disk, dir: string, f: RollbackFile) returns (sound: bool)
    ensures sound <==> RecordSound(d.files, dir, f)
  {
    var target, backup := Target(f.target), Backup(dir, f.component);
    if target in d.files && !d.files[target].Regular? {
      return false;
    }
    if !f.existed {
      return f.mode == 0 && f.size == 0 && f.sha == Malformed("");
    }
    if f.mode == 0 || f.mode > 511 || f.size < 0 || f.size > MAX_FILE_SIZE {
      return false;
    }
    if backup !in d.files || !d.files[backup].Regular? || d.files[backup].perm != OWNER_FILE || |d.files[backup].content| != f.size {
      return false;
    }
    return Sha256(d.files[backup].content) == f.sha;
  }

  lemma TargetsFollowComponents(specs: map<string, Spec>, fs: seq<RollbackFile>)
    requires GoodTable(specs) && DistinctComponents(fs)
    requires forall i :: 0 <= i < |fs| ==> RecordShape(specs, fs[i])
    ensures DistinctTargets(fs)
  {
  }

  // ----- restoring -------------------------------------------------------------

  /** The target of `f` is exactly what the snapshot recorded. */
  predicate AsRecorded(files: Files, dir: string, f: RollbackFile) {
    var t := Target(f.target);
    if f.existed then
      Backup(dir, f.component) in files && files[Backup(dir, f.component)].Regular?
      && t in files && files[t] == Regular(files[Backup(dir, f.component)].content, f.mode, false)
    else t !in files
  }

  ghost function Names(fs: seq<RollbackFile>): set<string> {
    set k | 0 <= k < |fs| :: fs[k].target
  }

  /** What a restore from `dir` may touch: targets and their replacements, and the preparation directory. */
  ghost function Replaced(names: set<string>): iset<Path> {
    iset p: Path | (p.Target? || p.RestoreNew?) && p.target in names
  }

  ghost function PreparedIn(dir: string): iset<Path> {
    iset p: Path | p.RestorePrepared? && p.dir == dir
  }

  /** Replacement files a previous, interrupted restore left behind. */
  ghost function Leftovers(files: Files, fs: seq<RollbackFile>): set<string> {
    set k | 0 <= k < |fs| && fs[k].existed && RestoreNew(fs[k].target) in files :: fs[k].target
  }

  /** os.RemoveAll of the preparation directory, which may stop half-way. */
  method ClearPrepared(d: Disk, dir: string) returns (r: Outcome)
    modifies d`files
    ensures Agree(d.files, old(d.files), PreparedIn(dir))
    ensures r.Ok? ==> forall c :: RestorePrepared(dir, c) !in d.files
    ensures d.calm ==> r.Ok?
  {
    r := d.Step();
    if r.Ok? {
      d.files := map p | p in d.files && !(p.RestorePrepared? && p.dir == dir) :: d.files[p];
    } else {
      var gone: set<string> :| true;
      d.files := map p | p in d.files && !(p.RestorePrepared? && p.dir == dir && p.component in gone) :: d.files[p];
    }
  }

  predicate PreparedFor(files: Files, dir: string, f: RollbackFile) {
    f.existed ==>
      Backup(dir, f.component) in files && files[Backup(dir, f.component)].Regular?
      && RestorePrepared(dir, f.component) in files
      && files[RestorePrepared(dir, f.component)] == Regular(files[Backup(dir, f.component)].content, f.mode, false)
  }

  /** First loop: copy every backup into the preparation directory. */
  method PrepareAll(d: Disk, dir: string, fs: seq<RollbackFile>) returns (r: Outcome)
    requires DistinctComponents(fs)
    requires forall i :: 0 <= i < |fs| ==> RecordSound(d.files, dir, fs[i])
    requires forall c :: RestorePrepared(dir, c) !in d.files
    modifies d`files
    ensures Agree(d.files, old(d.files), PreparedIn(dir))
    ensures r.Ok? ==> forall i :: 0 <= i < |fs| ==> PreparedFor(d.files, dir, fs[i])
    ensures d.calm ==> r.Ok?
  {
    for i := 0 to |fs|
      invariant Agree(d.files, old(d.files), PreparedIn(dir))
      invariant forall k :: 0 <= k < i ==> PreparedFor(d.files, dir, fs[k])
      invariant forall c :: RestorePrepared(dir, c) in d.files ==> exists k :: 0 <= k < i && fs[k].component == c
    {
      var f := fs[i];
      if f.existed {
        var p := RestorePrepared(dir, f.component);
        r := CopyAndVerify(d, Backup(dir, f.component), p, f.size, f.sha, f.mode);
        if !r.Ok? {
          return;
        }
      }
    }
    return Ok;
  }

  /** One iteration of the second loop: put one target back. */
  method ApplyRecord(d: Disk, dir: string, f: RollbackFile) returns (r: Outcome)
    requires RecordSound(d.files, dir, f) && PreparedFor(d.files, dir, f)
    modifies d`files
    ensures Agree(d.files, old(d.files), iset{Target(f.target), RestoreNew(f.target)})
    ensures r.Ok? ==> AsRecorded(d.files, dir, f)
    ensures !r.Ok? ==> SameAt(d.files, old(d.files), Target(f.target))
    ensures d.calm && f.existed && RestoreNew(f.target) in old(d.files) ==>
      r.Fail? && d.files == old(d.files) - {RestoreNew(f.target)}
    ensures d.calm && !(f.existed && RestoreNew(f.target) in old(d.files)) ==>
      r.Ok? && SameAt(d.files, old(d.files), RestoreNew(f.target))
  {
    r := d.Step();
    if !r.Ok? {
      return;
    }
    if !f.existed {
      r := RemoveFile(d, Target(f.target));
      return;
    }
    var replacement := RestoreNew(f.target);
    r := CopyAndVerify(d, RestorePrepared(dir, f.component), replacement, f.size, f.sha, f.mode);
    if r.Fail? {
      var ignored := RemoveFile(d, replacement);
      if ignored.Crash? {
        r := Crash;
      }
      return;
    }
    if !r.Ok? {
      return;
    }
    r := RenameFile(d, replacement, Target(f.target));
    if r.Fail? {
      var ignored := RemoveFile(d, replacement);
      if ignored.Crash? {
        r := Crash;
      }
    }
  }

  /** Second loop. */
  method ApplyAll(d: Disk, dir: string, fs: seq<RollbackFile>) returns (r: Outcome)
    requires DistinctTargets(fs)
    requires forall i :: 0 <= i < |fs| ==> RecordSound(d.files, dir, fs[i]) && PreparedFor(d.files, dir, fs[i])
    modifies d`files
    ensures Agree(d.files, old(d.files), Replaced(Names(fs)))
    ensures r.Ok? ==> forall i :: 0 <= i < |fs| ==> AsRecorded(d.files, dir, fs[i])
    ensures forall i :: 0 <= i < |fs| ==>
      AsRecorded(d.files, dir, fs[i]) || SameAt(d.files, old(d.files), Target(fs[i].target))
    ensures d.calm ==> !r.Crash?
    ensures d.calm && r.Fail? ==> Leftovers(d.files, fs) < Leftovers(old(d.files), fs)
    ensures d.calm && Leftovers(old(d.files), fs) == {} ==> r.Ok?
  {
    for i := 0 to |fs|
      invariant Agree(d.files, old(d.files), Replaced(Names(fs)))
      invariant forall k :: 0 <= k < i ==> AsRecorded(d.files, dir, fs[k])
      invariant forall k :: i <= k < |fs| ==> SameAt(d.files, old(d.files), Target(fs[k].target))
      invariant forall k :: 0 <= k < |fs| ==> PreparedFor(d.files, dir, fs[k])
      invariant forall k :: i <= k < |fs| ==> RecordSound(d.files, dir, fs[k])
      invariant d.calm ==> forall t :: SameAt(d.files, old(d.files), RestoreNew(t))
    {
      ghost var before := d.files;
      r := ApplyRecord(d, dir, fs[i]);
      RestOfRecords(before, d.files, dir, fs, i);
      if !r.Ok? {
        if d.calm {
          LeftoverRemoved(old(d.files), d.files, fs, i);
        }
        return;
      }
    }
    return Ok;
  }

  lemma LeftoverRemoved(before: Files, after: Files, fs: seq<RollbackFile>, i: nat)
    requires i < |fs| && fs[i].existed
    requires RestoreNew(fs[i].target) in before && RestoreNew(fs[i].target) !in after
    requires forall t :: t != fs[i].target ==> SameAt(after, before, RestoreNew(t))
    ensures Leftovers(after, fs) < Leftovers(before, fs)
  {
    assert fs[i].target in Leftovers(before, fs) && fs[i].target !in Leftovers(after, fs);
    forall t | t in Leftovers(after, fs)
      ensures t in Leftovers(before, fs)
    {
      assert SameAt(after, before, RestoreNew(t));
    }
  }

  /** Touching the target of record `i` leaves the other records alone. */
  lemma RestOfRecords(before: Files, after: Files, dir: string, fs: seq<RollbackFile>, i: nat)
    requires DistinctTargets(fs) && i < |fs|
    requires Agree(after, before, iset{Target(fs[i].target), RestoreNew(fs[i].target)})
    ensures forall k :: 0 <= k < |fs| && k != i ==> SameAt(after, before, Target(fs[k].target))
    ensures forall k :: 0 <= k < |fs| && k != i ==> (AsRecorded(after, dir, fs[k]) <==> AsRecorded(before, dir, fs[k]))
    ensures forall k :: 0 <= k < |fs| && k != i ==> (RecordSound(after, dir, fs[k]) <==> RecordSound(before, dir, fs[k]))
    ensures forall k :: 0 <= k < |fs| ==> (PreparedFor(after, dir, fs[k]) <==> PreparedFor(before, dir, fs[k]))
  {
    forall k | 0 <= k < |fs|
      ensures k != i ==> SameAt(after, before, Target(fs[k].target))
      ensures SameAt(after, before, Backup(dir, fs[k].component))
      ensures SameAt(after, before, RestorePrepared(dir, fs[k].component))
    {
    }
  }

  /** Every target is as recorded or as it was before. */
  ghost predicate EachRestoredOrSame(a: Files, b: Files, dir: string, fs: seq<RollbackFile>) {
    forall i :: 0 <= i < |fs| ==> AsRecorded(a, dir, fs[i]) || SameAt(a, b, Target(fs[i].target))
  }

  ghost predicate AllRestored(files: Files, dir: string, fs: seq<RollbackFile>) {
    forall i :: 0 <= i < |fs| ==> AsRecorded(files, dir, fs[i])
  }

  /** restoreRollback after its verification. */
  method RestoreVerified(d: Disk, dir: string, m: RollbackManifest) returns (r: Outcome)
    requires GoodTable(d.specs) && Verified(d.specs, d.files, dir, m)
    modifies d`files
    ensures Agree(d.files, old(d.files), Replaced(Names(m.files)) + PreparedIn(dir))
    ensures EachRestoredOrSame(d.files, old(d.files), dir, m.files)
    ensures r.Ok? ==> AllRestored(d.files, dir, m.files)
    ensures d.calm ==> !r.Crash?
    ensures d.calm && r.Fail? ==> Leftovers(d.files, m.files) < Leftovers(old(d.files), m.files)
  {
    r := ClearPrepared(d, dir);
    PreparationIsHarmless(old(d.files), d.files, dir, m.files);
    if !r.Ok? {
      return;
    }
    r := d.Step();
    if !r.Ok? {
      return;
    }
    r := PrepareAndApply(d, dir, m.files);
    ghost var applied := d.files;
    if !r.Crash? {
      var ignored := ClearPrepared(d, dir);
      PreparationIsHarmless(applied, d.files, dir, m.files);
      if ignored.Crash? {
        r := Crash;
      }
    }
  }

  method PrepareAndApply(d: Disk, dir: string, fs: seq<RollbackFile>) returns (r: Outcome)
    requires GoodTable(d.specs) && RecordsSound(d.specs, d.files, dir, fs)
    requires forall c :: RestorePrepared(dir, c) !in d.files
    modifies d`files
    ensures Agree(d.files, old(d.files), Replaced(Names(fs)) + PreparedIn(dir))
    ensures EachRestoredOrSame(d.files, old(d.files), dir, fs)
    ensures r.Ok? ==> AllRestored(d.files, dir, fs)
    ensures d.calm ==> !r.Crash?
    ensures d.calm && r.Fail? ==> Leftovers(d.files, fs) < Leftovers(old(d.files), fs)
  {
    TargetsFollowComponents(d.specs, fs);
    r := PrepareAll(d, dir, fs);
    PreparationIsHarmless(old(d.files), d.files, dir, fs);
    if r.Ok? {
      r := ApplyAll(d, dir, fs);
    }
  }

  /** Work in the preparation directory changes nothing a restore is judged by. */
  lemma PreparationIsHarmless(before: Files, after: Files, dir: string, fs: seq<RollbackFile>)
    requires Agree(after, before, PreparedIn(dir))
    ensures forall i :: 0 <= i < |fs| ==>
      SameAt(after, before, Target(fs[i].target))
      && (RecordSound(after, dir, fs[i]) <==> RecordSound(before, dir, fs[i]))
      && (AsRecorded(after, dir, fs[i]) <==> AsRecorded(before, dir, fs[i]))
    ensures Leftovers(after, fs) == Leftovers(before, fs)
  {
    forall i | 0 <= i < |fs|
      ensures SameAt(after, before, Target(fs[i].target))
      ensures SameAt(after, before, RestoreNew(fs[i].target))
      ensures SameAt(after, before, Backup(dir, fs[i].component))
    {
    }
  }

  /** RestoreRollback. */
  method RestoreRollback(d: Disk, dir: string) returns (r: Outcome)
    requires GoodTable(d.specs)
    modifies d`files
    ensures old(!RollbackValid(d.specs, d.Now(), dir)) ==> !r.Ok? && d.files == old(d.files)
    ensures old(RollbackValid(d.specs, d.Now(), dir)) ==>
      var m := ManifestOf(d.Now(), dir).value;
      Agree(d.files, old(d.files), Replaced(Names(m.files)) + PreparedIn(dir))
      && EachRestoredOrSame(d.files, old(d.files), dir, m.files)
      && (r.Ok? ==> AllRestored(d.files, dir, m.files))
      && (d.calm && r.Fail? ==> Leftovers(d.files, m.files) < Leftovers(old(d.files), m.files))
      && (d.calm && Leftovers(old(d.files), m.files) == {} ==> r.Ok?)
    ensures d.calm ==> !r.Crash?
  {
    var m;
    r, m := VerifyRollback(d, dir);
    if r.Ok? {
      r := RestoreVerified(d, dir, m);
    }
  }

  /** However a restore ends, the rollback it used stays valid. */
  lemma RestoreKeepsValid(specs: map<string, Spec>, before: Files, after: Files, dir: string, m: RollbackManifest)
    requires Verified(specs, before, dir, m)
    requires Agree(after, before, Replaced(Names(m.files)) + PreparedIn(dir))
    requires EachRestoredOrSame(after, before, dir, m.files)
    ensures Verified(specs, after, dir, m)
  {
    forall i | 0 <= i < |m.files|
      ensures RecordSound(after, dir, m.files[i])
    {
      assert RecordSound(before, dir, m.files[i]);
      assert SameAt(after, before, Backup(dir, m.files[i].component));
    }
  }

  /**
   * Without further faults, repeating RestoreRollback restores every target
   * after at most one attempt more than there are leftover replacement files,
   * whatever earlier crashes left behind.
   */
  method RestoreRepeatedly(d: Disk, dir: string) returns (attempts: nat)
    requires GoodTable(d.specs) && d.calm && RollbackValid(d.specs, d.Now(), dir)
    modifies d`files
    ensures var m := ManifestOf(d.Now(), dir).value;
      AllRestored(d.files, dir, m.files)
      && attempts <= |Leftovers(old(d.files), m.files)| + 1
      && Agree(d.files, old(d.files), Replaced(Names(m.files)) + PreparedIn(dir))
  {
    ghost var m := ManifestOf(d.Now(), dir).value;
    ghost var start := Leftovers(d.files, m.files);
    attempts := 0;
    var r := Fail;
    while !r.Ok?
      invariant ManifestOf(d.Now(), dir) == Some(m) && Verified(d.specs, d.files, dir, m)
      invariant Agree(d.files, old(d.files), Replaced(Names(m.files)) + PreparedIn(dir))
      invariant !r.Ok? ==> attempts + |Leftovers(d.files, m.files)| <= |start|
      invariant r.Ok? ==> AllRestored(d.files, dir, m.files) && attempts <= |start| + 1
      decreases if r.Ok? then 0 else 1, |Leftovers(d.files, m.files)|
    {
      ghost var before := d.files;
      r := RestoreRollback(d, dir);
      RestoreKeepsValid(d.specs, before, d.files, dir, m);
      attempts := attempts + 1;
      if !r.Ok? {
        FewerElements(Leftovers(d.files, m.files), Leftovers(before, m.files));
      }
    }
  }

  lemma FewerElements(a: set<string>, b: set<string>)
    requires a < b
    ensures |a| < |b|
  {
    var x :| x in b && x !in a;
    assert |b - {x}| == |b| - 1;
    SubsetSize(a, b - {x});
  }

  lemma {:induction false} SubsetSize(a: set<string>, b: set<string>)
    requires a <= b
    ensures |a| <= |b|
  {
    if a != {} {
      var x :| x in a;
      SubsetSize(a - {x}, b - {x});
    }
  }
}
