/** All-or-nothing installation over any number of crashes, and the rollback round trip. */
module Atomicity {
  import opened Strings
  import opened Components
  import opened Disks
  import opened Restore
  import opened Rollback
  import opened Transaction
  import opened Install
  import Versions

  // ----- rollback round trip -----------------------------------------------------

  ghost function TargetPaths(names: set<string>): iset<Path> {
    iset p: Path | p.Target? && p.target in names
  }

  /** Every original had usable permission bits. */
  ghost predicate UsableModes(base: Files, cs: seq<StagedComponent>) {
    forall i :: 0 <= i < |cs| ==>
      var t := Target(cs[i].target);
      t in base && base[t].Regular? ==> 0 < base[t].perm <= 511
  }

  /** A snapshot can be restored exactly when every original had a permission bit set. */
  lemma SnapshotUsableExactly(specs: map<string, Spec>, img: Image, dir: string, plan: StagePlan, base: Files)
    requires Snapshot(specs, img, dir, plan, base) && AllReplaceable(img.files, plan.components)
    requires ManifestOf(img, dir).value.preparedAt != 0 && plan.releaseVersion != "" && plan.components != []
    ensures RollbackValid(specs, img, dir) <==> UsableModes(base, plan.components)
  {
    var m, cs := ManifestOf(img, dir).value, plan.components;
    assert m.files == Records(base, cs);
    forall i | 0 <= i < |cs|
      ensures m.files[i] == RecordOf(base, cs[i]) && RecordShape(specs, m.files[i])
      ensures RecordSound(img.files, dir, m.files[i]) <==>
        (Target(cs[i].target) in base && base[Target(cs[i].target)].Regular? ==> 0 < base[Target(cs[i].target)].perm <= 511)
    {
      assert ComponentShape(specs, cs[i]) && Snapshottable(base, cs[i]) && BackedUp(img.files, dir, base, cs[i]);
    }
    forall i, j | 0 <= i < j < |cs|
      ensures m.files[i].component != m.files[j].component
    {
    }
  }

  /** One component whose original has no permission bit: the snapshot is taken, and then refused. */
  method ZeroModeSnapshot() returns (created: Outcome, verified: Outcome)
    ensures created.Ok? && verified.Fail?
  {
    var component, target := "sw-badge-pam-helper", "/usr/local/libexec/sw-badge-pam-helper";
    var d := new Disk(map[component := Spec(target, 493, false)], true, true);
    d.files := map[Target(target) := Regular([], 0, false)];
    var plan := StagePlan("1.0.0", "linux-amd64", [StagedComponent(component, target, 493, Sha256([]), false)]);
    ghost var base := d.files;
    assert d.dirs == map[];
    created := CreateRollback(d, plan, "/backup", 1);
    ghost var m := ManifestOf(d.Now(), "/backup").value;
    assert m.files == Records(base, plan.components) && m.files[0] == RecordOf(base, plan.components[0]);
    assert m.files[0].existed && m.files[0].mode == 0;
    var ignored;
    verified, ignored := VerifyRollback(d, "/backup");
  }

  /**
   * A snapshot of `base`, any replacement of any targets by regular files or by
   * nothing, and a successful restore: every target has its original content
   * and permission bits, or is absent as it was.
   */
  lemma RollbackRoundTrip(specs: map<string, Spec>, taken: Image, changed: Image, restored: Image, dir: string, plan: StagePlan, base: Files)
    requires Snapshot(specs, taken, dir, plan, base)
    requires changed == taken.(files := changed.files)
    requires Agree(changed.files, taken.files, TargetPaths(TargetNames(plan.components)))
    requires AllReplaceable(changed.files, plan.components)
    requires RestoreEffect(specs, changed, restored, dir, Ok)
    ensures AllBack(restored.files, base, plan.components)
    ensures UsableModes(base, plan.components)
  {
    SnapshotSurvives(specs, taken, changed, dir, plan, base, TargetPaths(TargetNames(plan.components)));
    RestoreOfSnapshot(specs, changed, restored, dir, plan, base, Ok);
    var cs, m := plan.components, ManifestOf(changed, dir).value;
    forall i | 0 <= i < |cs|
      ensures Target(cs[i].target) in base && base[Target(cs[i].target)].Regular? ==> 0 < base[Target(cs[i].target)].perm <= 511
    {
      assert m.files[i] == RecordOf(base, cs[i]);
      assert RecordSound(changed.files, dir, m.files[i]);
    }
  }

  /** The round trip run as code: snapshot, overwrite, restore. */
  method SnapshotOverwriteRestore(d: Disk, plan: StagePlan, dir: string, now: int, overwrite: map<string, Node>) returns (r: Outcome)
    requires GoodTable(d.specs) && dir !in d.dirs
    requires forall t :: t in overwrite ==> overwrite[t].Regular?
    modifies d`files, d`dirs, d`manifests
    ensures r.Ok? ==> AllBack(d.files, old(d.files), plan.components)
  {
    ghost var base := d.files;
    r := CreateRollback(d, plan, dir, now);
    if !r.Ok? {
      return;
    }
    ghost var taken := d.Now();
    assert forall i :: 0 <= i < |plan.components| ==> Snapshottable(base, plan.components[i]);
    assert TargetsSame(d.files, base, plan.components);
    var hit := set i | 0 <= i < |plan.components| && plan.components[i].target in overwrite :: plan.components[i].target;
    d.files := d.files + map t | t in hit :: Target(t) := overwrite[t];
    ghost var changed := d.Now();
    forall i | 0 <= i < |plan.components|
      ensures Replaceable(d.files, Target(plan.components[i].target))
    {
      assert SameAt(taken.files, base, Target(plan.components[i].target)) && Snapshottable(base, plan.components[i]);
    }
    r := RestoreRollback(d, dir);
    if r.Ok? {
      assert RestoreEffect(d.specs, changed, d.Now(), dir, Ok);
      RollbackRoundTrip(d.specs, taken, changed, d.Now(), dir, plan, base);
    }
  }

  // ----- all or nothing -------------------------------------------------------------

  /** One later recovery attempt, completed or interrupted. */
  ghost predicate RecoveryStep(specs: map<string, Spec>, a: Image, b: Image, plan: StagePlan, base: Files) {
    if a.transaction.None? then b == a
    else Pending(specs, a, a.transaction.value, plan, base) ==> RecoveryEffect(specs, a, b, plan, base)
  }

  /** A run: one installation, ended or interrupted anywhere, then any number of recoveries, each ended or interrupted anywhere. */
  ghost predicate InstallRun(specs: map<string, Spec>, run: seq<Image>, stage: string, plan: StagePlan, t: UpdateTransaction) {
    |run| >= 2 && run[0].transaction.None? && t.releaseVersion == plan.releaseVersion
    && (exists r :: InstallEffect(specs, run[0], run[1], stage, plan, t, r))
    && forall i :: 1 <= i < |run| - 1 ==> RecoveryStep(specs, run[i], run[i + 1], plan, run[0].files)
  }

  /** What holds at every point of such a run. */
  ghost predicate Consistent(specs: map<string, Spec>, a: Image, b: Image, stage: string, plan: StagePlan, t: UpdateTransaction) {
    Agree(b.files, a.files, InstallScope(stage, t.rollbackDir, TargetNames(plan.components)))
    && if b.transaction.None? then
         AllBack(b.files, a.files, plan.components) || AllNew(b.files, plan.components)
       else
         Pending(specs, b, t, plan, a.files)
  }

  lemma InstallIsConsistent(specs: map<string, Spec>, a: Image, b: Image, stage: string, plan: StagePlan, t: UpdateTransaction, r: Outcome)
    requires a.transaction.None? && InstallEffect(specs, a, b, stage, plan, t, r)
    ensures Consistent(specs, a, b, stage, plan, t)
  {
    if Untouched(specs, a, b, t.rollbackDir, plan) {
      forall i | 0 <= i < |plan.components|
        ensures Back(b.files, a.files, Target(plan.components[i].target))
      {
        assert SameAt(b.files, a.files, Target(plan.components[i].target));
      }
    }
  }

  lemma RecoveryIsConsistent(specs: map<string, Spec>, a: Image, b: Image, c: Image, stage: string, plan: StagePlan, t: UpdateTransaction)
    requires Consistent(specs, a, b, stage, plan, t) && RecoveryStep(specs, b, c, plan, a.files)
    ensures Consistent(specs, a, c, stage, plan, t)
  {
    if b.transaction.Some? {
      assert Agree(c.files, b.files, Replaced(TargetNames(plan.components)) + PreparedIn(t.rollbackDir));
    }
  }

  /**
   * All or nothing: at every point of every run, if no transaction is on record
   * then the targets are all as before or all of the new release; if one is, it
   * is recoverable. Paths outside the targets and the updater's own files never change.
   */
  lemma {:induction false} AllOrNothing(specs: map<string, Spec>, run: seq<Image>, stage: string, plan: StagePlan, t: UpdateTransaction, i: nat)
    requires InstallRun(specs, run, stage, plan, t) && 1 <= i < |run|
    ensures Consistent(specs, run[0], run[i], stage, plan, t)
  {
    if i == 1 {
      var r :| InstallEffect(specs, run[0], run[1], stage, plan, t, r);
      InstallIsConsistent(specs, run[0], run[1], stage, plan, t, r);
    } else {
      AllOrNothing(specs, run, stage, plan, t, i - 1);
      assert RecoveryStep(specs, run[i - 1], run[i - 1 + 1], plan, run[0].files);
      RecoveryIsConsistent(specs, run[0], run[i - 1], run[i], stage, plan, t);
    }
  }

  /** The theorem as code: install, then recover until a recovery completes. */
  method InstallAndRecover(d: Disk, root: string, stage: string, dir: string, now: int, maintenance: bool, attempts: nat) returns (r: Outcome)
    requires GoodTable(d.specs) && d.transaction.None? && stage in d.plans
    modifies d`files, d`dirs, d`manifests, d`transaction, d`transactionTemp, d`state, d`stateTemp
    ensures d.transaction.None? ==>
      AllBack(d.files, old(d.files), d.plans[stage].components) || AllNew(d.files, d.plans[stage].components)
    ensures Agree(d.files, old(d.files), InstallScope(stage, dir, TargetNames(d.plans[stage].components)))
  {
    ghost var a, plan := d.Now(), d.plans[stage];
    ghost var t := UpdateTransaction(plan.releaseVersion, dir, now);
    r := InstallStaged(d, stage, dir, now, maintenance);
    InstallIsConsistent(d.specs, a, d.Now(), stage, plan, t, r);
    for n := 0 to attempts
      invariant Consistent(d.specs, a, d.Now(), stage, plan, t)
    {
      ghost var b := d.Now();
      r := RecoverPendingUpdate(d, root, plan, a.files);
      RecoveryIsConsistent(d.specs, a, b, d.Now(), stage, plan, t);
    }
  }
}
