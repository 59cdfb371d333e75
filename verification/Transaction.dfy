/**
 * The update state (state.go), the transaction record and the recovery of an
 * interrupted installation (transaction.go).
 */
module Transaction {
  import opened Strings
  import opened Components
  import opened Disks
  import opened Restore
  import opened Rollback
  import Versions

  /** Content and permission bits of a node; set-id and sticky bits are what a restore does not bring back. */
  function Bits(n: Node): Node {
    if n.Regular? then n.(special := false) else n
  }

  /** The path holds the same content with the same permission bits, or is absent in both. */
  predicate Back(files: Files, base: Files, p: Path) {
    (p in files <==> p in base) && (p in files ==> Bits(files[p]) == Bits(base[p]))
  }

  ghost predicate AllBack(files: Files, base: Files, cs: seq<StagedComponent>) {
    forall i :: 0 <= i < |cs| ==> Back(files, base, Target(cs[i].target))
  }

  ghost predicate AllReplaceable(files: Files, cs: seq<StagedComponent>) {
    forall i :: 0 <= i < |cs| ==> Replaceable(files, Target(cs[i].target))
  }

  predicate ValidTransaction(t: UpdateTransaction) {
    Versions.Valid(t.releaseVersion) && t.rollbackDir != "" && t.rollbackDir[0] == '/' && t.startedAt != 0
  }

  /** WriteUpdateState: replaces the state file through an exclusively created temporary. */
  method WriteUpdateState(d: Disk, s: UpdateState) returns (r: Outcome)
    modifies d`state, d`stateTemp
    ensures r.Ok? ==> d.state == Some(s) && Versions.Valid(s.version)
    ensures !r.Ok? ==> d.state == old(d.state)
    ensures d.calm ==> !r.Crash? && (r.Ok? <==> Versions.Valid(s.version) && !old(d.stateTemp))
    ensures d.calm ==> d.stateTemp == old(d.stateTemp)
  {
    var valid := Versions.ValidVersion(s.version);
    if !valid {
      return Fail;
    }
    r := d.Step();
    if !r.Ok? {
      return;
    }
    if d.stateTemp {
      return Fail;
    }
    d.stateTemp := true;
    r := d.Step();
    if r.Fail? {
      // A failed write removes the temporary; a failed chmod leaves it.
      if * {
        d.stateTemp := false;
      }
    }
    if !r.Ok? {
      return;
    }
    r := d.Step();
    if r.Fail? {
      d.stateTemp := false;
    }
    if r.Ok? {
      d.state, d.stateTemp := Some(s), false;
    }
  }

  /** WriteUpdateTransaction: as above, but a failing directory sync is reported after the record is in place. */
  method WriteUpdateTransaction(d: Disk, t: UpdateTransaction) returns (r: Outcome)
    modifies d`transaction, d`transactionTemp
    ensures r.Ok? ==> d.transaction == Some(t)
    ensures d.transaction == old(d.transaction) || d.transaction == Some(t)
    ensures d.calm ==> !r.Crash? && (r.Ok? <==> ValidTransaction(t) && !old(d.transactionTemp))
  {
    var valid := Versions.ValidVersion(t.releaseVersion);
    if !valid || t.rollbackDir == "" || t.rollbackDir[0] != '/' || t.startedAt == 0 {
      return Fail;
    }
    r := d.Step();
    if !r.Ok? {
      return;
    }
    if d.transactionTemp {
      return Fail;
    }
    d.transactionTemp := true;
    r := d.Step();
    if r.Fail? {
      if * {
        d.transactionTemp := false;
      }
    }
    if !r.Ok? {
      return;
    }
    r := d.Step();
    if r.Fail? {
      d.transactionTemp := false;
    }
    if r.Ok? {
      d.transaction, d.transactionTemp := Some(t), false;
      r := d.Step();
    }
  }

  /** os.Remove of the transaction record. */
  method RemoveTransaction(d: Disk) returns (r: Outcome)
    modifies d`transaction
    ensures r.Ok? ==> d.transaction.None?
    ensures !r.Ok? ==> d.transaction == old(d.transaction)
    ensures d.calm ==> r.Ok?
  {
    r := d.Step();
    if r.Ok? {
      d.transaction := None;
    }
  }

  /** The systemctl commands of a health or recovery check: any of them may fail, or the process may die. */
  method RunServices(d: Disk) returns (r: Outcome)
    ensures d.calm ==> !r.Crash?
    ensures d.calm && d.healthy ==> r.Ok?
  {
    r := d.Step();
    if r.Ok? && !d.healthy {
      if * {
        r := Fail;
      }
    }
  }

  // ----- what a restore from a snapshot means --------------------------------

  /** Restoring a snapshot brings back the content and permission bits the targets had. */
  lemma RestoredIsBack(files: Files, dir: string, base: Files, cs: seq<StagedComponent>)
    requires AllBackedUp(files, dir, base, cs)
    requires AllRestored(files, dir, Records(base, cs))
    ensures AllBack(files, base, cs)
  {
    forall i | 0 <= i < |cs|
      ensures Back(files, base, Target(cs[i].target))
    {
      assert AsRecorded(files, dir, Records(base, cs)[i]);
      assert BackedUp(files, dir, base, cs[i]) && Snapshottable(base, cs[i]);
    }
  }

  lemma NamesOfRecords(base: Files, cs: seq<StagedComponent>)
    ensures Names(Records(base, cs)) == set k | 0 <= k < |cs| :: cs[k].target
  {
    var fs := Records(base, cs);
    assert forall k :: 0 <= k < |cs| ==> fs[k].target == cs[k].target;
  }

  /** Changes that spare the directory tables and the backups of `dir` keep its snapshot. */
  lemma SnapshotSurvives(specs: map<string, Spec>, a: Image, b: Image, dir: string, plan: StagePlan, base: Files, scope: iset<Path>)
    requires Snapshot(specs, a, dir, plan, base)
    requires b.dirs == a.dirs && b.manifests == a.manifests
    requires Agree(b.files, a.files, scope)
    requires forall c :: Backup(dir, c) !in scope
    ensures Snapshot(specs, b, dir, plan, base)
  {
    forall i | 0 <= i < |plan.components|
      ensures BackedUp(b.files, dir, base, plan.components[i])
    {
      assert BackedUp(a.files, dir, base, plan.components[i]);
      assert SameAt(b.files, a.files, Backup(dir, plan.components[i].component));
    }
  }

  /** A restore leaves every target replaceable. */
  lemma RestoredIsReplaceable(a: Files, b: Files, dir: string, base: Files, cs: seq<StagedComponent>)
    requires AllReplaceable(a, cs)
    requires EachRestoredOrSame(b, a, dir, Records(base, cs))
    ensures AllReplaceable(b, cs)
  {
    forall i | 0 <= i < |cs|
      ensures Replaceable(b, Target(cs[i].target))
    {
      var f := Records(base, cs)[i];
      assert AsRecorded(b, dir, f) || SameAt(b, a, Target(f.target));
    }
  }

  /** What RestoreRollback promises, as a relation between the images before and after it. */
  ghost predicate RestoreEffect(specs: map<string, Spec>, a: Image, b: Image, dir: string, r: Outcome) {
    b == a.(files := b.files) &&
    if RollbackValid(specs, a, dir) then
      var fs := ManifestOf(a, dir).value.files;
      Agree(b.files, a.files, Replaced(Names(fs)) + PreparedIn(dir))
      && EachRestoredOrSame(b.files, a.files, dir, fs)
      && (r.Ok? ==> AllRestored(b.files, dir, fs))
    else !r.Ok? && b.files == a.files
  }

  /** A restore from a snapshot, in terms of the files the snapshot was taken from. */
  lemma RestoreOfSnapshot(specs: map<string, Spec>, a: Image, b: Image, dir: string, plan: StagePlan, base: Files, r: Outcome)
    requires RestoreEffect(specs, a, b, dir, r)
    requires Snapshot(specs, a, dir, plan, base) && AllReplaceable(a.files, plan.components)
    ensures Agree(b.files, a.files, Replaced(TargetNames(plan.components)) + PreparedIn(dir))
    ensures Snapshot(specs, b, dir, plan, base) && AllReplaceable(b.files, plan.components)
    ensures r.Ok? ==> AllBack(b.files, base, plan.components)
  {
    NamesOfRecords(base, plan.components);
    SnapshotSurvives(specs, a, b, dir, plan, base, Replaced(TargetNames(plan.components)) + PreparedIn(dir));
    if RollbackValid(specs, a, dir) {
      RestoredIsReplaceable(a.files, b.files, dir, base, plan.components);
      if r.Ok? {
        RestoredIsBack(b.files, dir, base, plan.components);
      }
    }
  }

  ghost function TargetNames(cs: seq<StagedComponent>): set<string> {
    set k | 0 <= k < |cs| :: cs[k].target
  }

  // ----- recovery --------------------------------------------------------------

  /** The directory lies below the managed backup directory of `root`. */
  predicate Managed(root: string, dir: string) {
    var prefix := root + "/var/backups/stumpfworks-badge/";
    |dir| > |prefix| && dir[..|prefix|] == prefix
  }

  /** Exactly the directories below it. */
  lemma ManagedExactly(root: string, dir: string)
    ensures Managed(root, dir) <==> exists x :: x != "" && dir == root + "/var/backups/stumpfworks-badge/" + x
  {
    var prefix := root + "/var/backups/stumpfworks-badge/";
    if Managed(root, dir) {
      assert dir == prefix + dir[|prefix|..];
    }
  }

  /** The transaction `t` belongs to the snapshot of `plan` in its rollback directory. */
  ghost predicate Pending(specs: map<string, Spec>, img: Image, t: UpdateTransaction, plan: StagePlan, base: Files) {
    img.transaction == Some(t)
    && t.releaseVersion == plan.releaseVersion
    && Snapshot(specs, img, t.rollbackDir, plan, base)
    && AllReplaceable(img.files, plan.components)
  }

  /**
   * What a recovery does to a transaction that an installation of `plan` over
   * `base` left behind: it stays pending, or every target is back.
   */
  ghost predicate RecoveryEffect(specs: map<string, Spec>, a: Image, b: Image, plan: StagePlan, base: Files)
    requires a.transaction.Some?
  {
    var t := a.transaction.value;
    var failed := Some(UpdateState(plan.releaseVersion, Failure));
    b.dirs == a.dirs && b.manifests == a.manifests
    && Agree(b.files, a.files, Replaced(TargetNames(plan.components)) + PreparedIn(t.rollbackDir))
    && Snapshot(specs, b, t.rollbackDir, plan, base)
    && (b.transaction.None? || Pending(specs, b, t, plan, base))
    && (b.transaction.None? ==> AllBack(b.files, base, plan.components) && b.state == failed)
    && (b.state == a.state || b.state == failed)
  }

  /** A record that nothing stands against: managed, matching its usable rollback, and no leftovers in the way. */
  ghost predicate Recoverable(d: Disk, root: string)
    reads d
  {
    d.transaction.Some? &&
    var t := d.transaction.value;
    ValidTransaction(t) && Managed(root, t.rollbackDir) && RollbackValid(d.specs, d.Now(), t.rollbackDir) && !d.stateTemp
    && var m := ManifestOf(d.Now(), t.rollbackDir).value;
       m.forRelease == t.releaseVersion && Leftovers(d.files, m.files) == {}
  }

  /** recoverPendingUpdate. `plan` and `base` name the installation the record may stem from. */
  method RecoverPendingUpdate(d: Disk, root: string, ghost plan: StagePlan, ghost base: Files) returns (r: Outcome)
    requires GoodTable(d.specs)
    modifies d`files, d`transaction, d`state, d`stateTemp
    ensures r.Ok? ==> d.transaction.None?
    ensures old(d.transaction).None? ==> d.Now() == old(d.Now()) && d.stateTemp == old(d.stateTemp)
    ensures old(d.transaction).Some? && old(!RollbackValid(d.specs, d.Now(), d.transaction.value.rollbackDir)) ==>
      !r.Ok? && d.Now() == old(d.Now())
    ensures old(d.transaction).Some? && r.Ok? ==>
      AllRestored(d.files, old(d.transaction).value.rollbackDir, ManifestOf(d.Now(), old(d.transaction).value.rollbackDir).value.files)
    ensures old(d.transaction.Some? && Pending(d.specs, d.Now(), d.transaction.value, plan, base)) ==>
      RecoveryEffect(d.specs, old(d.Now()), d.Now(), plan, base)
    ensures d.calm && (old(d.transaction).None? || (d.healthy && old(Recoverable(d, root)))) ==> r.Ok?
  {
    ghost var before := d.Now();
    r := d.Step();
    if !r.Ok? {
      return;
    }
    if d.transaction.None? {
      return Ok;
    }
    var t := d.transaction.value;
    if !ValidTransaction(t) || !Managed(root, t.rollbackDir) {
      return Fail;
    }
    r := CheckRecords(d, t);
    if !r.Ok? {
      return;
    }
    r := RestoreRollback(d, t.rollbackDir);
    ghost var restored, q := d.Now(), r;
    assert RestoreEffect(d.specs, before, restored, t.rollbackDir, q);
    if r.Ok? {
      r := CloseRecovery(d, t.releaseVersion);
    }
    if Pending(d.specs, before, t, plan, base) {
      RecoveryAssembled(d.specs, before, restored, d.Now(), plan, base, q);
    }
  }

  /** recoverPendingUpdate after the restore: failed state, services, removal of the record. */
  method CloseRecovery(d: Disk, release: string) returns (r: Outcome)
    modifies d`transaction, d`state, d`stateTemp
    ensures d.calm && d.healthy && Versions.Valid(release) && !old(d.stateTemp) ==> r.Ok?
    ensures d.state == old(d.state) || d.state == Some(UpdateState(release, Failure))
    ensures if r.Ok? then d.transaction.None? && d.state == Some(UpdateState(release, Failure)) else d.transaction == old(d.transaction)
  {
    r := WriteUpdateState(d, UpdateState(release, Failure));
    if !r.Ok? {
      return;
    }
    r := RunServices(d);
    if !r.Ok? {
      return;
    }
    r := RemoveTransaction(d);
  }

  /** A restore, and after a successful one perhaps the failed state and the removal of the record. */
  lemma RecoveryAssembled(specs: map<string, Spec>, a: Image, m: Image, b: Image, plan: StagePlan, base: Files, q: Outcome)
    requires a.transaction.Some? && Pending(specs, a, a.transaction.value, plan, base)
    requires RestoreEffect(specs, a, m, a.transaction.value.rollbackDir, q)
    requires b == m.(transaction := b.transaction, state := b.state)
    requires b.state == m.state || b.state == Some(UpdateState(plan.releaseVersion, Failure))
    requires b.transaction == m.transaction || (q.Ok? && b.transaction.None? && b.state == Some(UpdateState(plan.releaseVersion, Failure)))
    ensures RecoveryEffect(specs, a, b, plan, base)
  {
    RestoreOfSnapshot(specs, a, m, a.transaction.value.rollbackDir, plan, base, q);
    assert ManifestOf(b, a.transaction.value.rollbackDir) == ManifestOf(m, a.transaction.value.rollbackDir);
  }

  ghost predicate RecordsMatch(specs: map<string, Spec>, fs: seq<RollbackFile>) {
    DistinctComponents(fs) && forall i :: 0 <= i < |fs| ==> RecordShape(specs, fs[i])
  }

  /** The checks recoverPendingUpdate makes on the manifest before it restores. */
  method CheckRecords(d: Disk, t: UpdateTransaction) returns (r: Outcome)
    ensures r.Ok? ==> t.rollbackDir in d.manifests && d.manifests[t.rollbackDir].doc.Some?
    ensures t.rollbackDir in d.manifests && d.manifests[t.rollbackDir].doc.Some? ==>
      var m := d.manifests[t.rollbackDir].doc.value;
      (r.Ok? ==> ManifestComplete(m) && m.forRelease == t.releaseVersion && RecordsMatch(d.specs, m.files))
      && (d.calm && ManifestComplete(m) && m.forRelease == t.releaseVersion && RecordsMatch(d.specs, m.files) ==> r.Ok?)
  {
    r := d.Step();
    if !r.Ok? {
      return;
    }
    if t.rollbackDir !in d.manifests || d.manifests[t.rollbackDir].doc.None? {
      return Fail;
    }
    var m := d.manifests[t.rollbackDir].doc.value;
    if !ManifestComplete(m) || m.forRelease != t.releaseVersion {
      return Fail;
    }
    var seen: set<string> := {};
    for i := 0 to |m.files|
      invariant seen == set k | 0 <= k < i :: m.files[k].component
      invariant RecordsMatch(d.specs, m.files[..i])
    {
      var f := m.files[i];
      if !RecordShape(d.specs, f) || f.component in seen {
        return Fail;
      }
      seen := seen + {f.component};
    }
    assert m.files[..|m.files|] == m.files;
  }
}
