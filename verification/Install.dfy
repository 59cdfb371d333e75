/** installStaged (install.go): validate, snapshot, record the transaction, apply, check, commit or roll back. */
module Install {
  import opened Strings
  import opened Components
  import opened Disks
  import opened Restore
  import opened Rollback
  import opened Transaction
  import Versions

  // ----- the new release -------------------------------------------------------

  /** The target holds the staged content with the component's mode. */
  predicate IsNew(files: Files, c: StagedComponent) {
    var t := Target(c.target);
    t in files && files[t].Regular? && Sha256(files[t].content) == c.sha && files[t].perm == c.mode && !files[t].special
  }

  ghost predicate AllNew(files: Files, cs: seq<StagedComponent>) {
    forall i :: 0 <= i < |cs| ==> IsNew(files, cs[i])
  }

  /** A payload that matches its entry of the plan. */
  predicate PayloadGood(files: Files, p: Path, c: StagedComponent) {
    p in files && files[p].Regular? && |files[p].content| <= 67_108_864 && Sha256(files[p].content) == c.sha
  }

  /** fileSize: -1 when there is no such file. */
  function FileSize(files: Files, p: Path): int {
    if p in files && files[p].Regular? then |files[p].content| else -1
  }

  predicate RequiresLightDM(cs: seq<StagedComponent>) {
    exists i :: 0 <= i < |cs| && cs[i].restartLightDM
  }

  method RequiresLightDMMaintenance(cs: seq<StagedComponent>) returns (needed: bool)
    ensures needed == RequiresLightDM(cs)
  {
    for i := 0 to |cs|
      invariant forall k :: 0 <= k < i ==> !cs[k].restartLightDM
    {
      if cs[i].restartLightDM {
        return true;
      }
    }
    return false;
  }

  predicate PlanEntry(specs: map<string, Spec>, c: StagedComponent) {
    ComponentShape(specs, c) && c.restartLightDM == specs[c.component].restartLightDM
  }

  ghost predicate PayloadsGood(specs: map<string, Spec>, files: Files, stage: string, cs: seq<StagedComponent>) {
    PlanShape(specs, cs)
    && forall i :: 0 <= i < |cs| ==> PlanEntry(specs, cs[i]) && PayloadGood(files, Payload(stage, cs[i].component), cs[i])
  }

  ghost function ValidationIn(stage: string): iset<Path> {
    iset p: Path | p.Validate? && p.stage == stage
  }

  /** The trial copy validateStagedPayload makes of one payload. */
  method ValidatePayload(d: Disk, stage: string, c: StagedComponent) returns (r: Outcome)
    modifies d`files
    ensures Agree(d.files, old(d.files), iset{Validate(stage, c.component)})
    ensures r.Ok? ==> PayloadGood(d.files, Payload(stage, c.component), c)
    ensures d.calm ==> !r.Crash?
    ensures d.calm && Validate(stage, c.component) !in old(d.files) ==>
      d.files == old(d.files) && (r.Ok? <==> PayloadGood(d.files, Payload(stage, c.component), c))
  {
    var p, check := Payload(stage, c.component), Validate(stage, c.component);
    if c.sha.Malformed? {
      return Fail;
    }
    r := d.Step();
    if !r.Ok? {
      return;
    }
    if p !in d.files || !d.files[p].Regular? || |d.files[p].content| > MAX_FILE_SIZE {
      return Fail;
    }
    r := CopyAndVerify(d, p, check, |d.files[p].content|, c.sha, OWNER_FILE);
    if r.Crash? {
      return;
    }
    var ignored := RemoveFile(d, check);
    if ignored.Crash? {
      r := Crash;
    }
  }

  /** validateStagedPayload. */
  method ValidateStagedPayload(d: Disk, stage: string, cs: seq<StagedComponent>) returns (r: Outcome)
    modifies d`files
    ensures Agree(d.files, old(d.files), ValidationIn(stage))
    ensures r.Ok? ==> PayloadsGood(d.specs, d.files, stage, cs)
    ensures d.calm ==> !r.Crash?
    ensures d.calm && (forall c :: Validate(stage, c) !in old(d.files)) ==>
      d.files == old(d.files) && (r.Ok? <==> PayloadsGood(d.specs, d.files, stage, cs))
  {
    var seen: set<string> := {};
    for i := 0 to |cs|
      invariant Agree(d.files, old(d.files), ValidationIn(stage))
      invariant seen == set k | 0 <= k < i :: cs[k].component
      invariant PayloadsGood(d.specs, d.files, stage, cs[..i])
      invariant d.calm && (forall c :: Validate(stage, c) !in old(d.files)) ==> d.files == old(d.files)
    {
      var c := cs[i];
      if c.component !in d.specs || c.component in seen {
        return Fail;
      }
      var spec := d.specs[c.component];
      if c.target != spec.target || c.mode != spec.mode || c.restartLightDM != spec.restartLightDM {
        return Fail;
      }
      ghost var before := d.files;
      r := ValidatePayload(d, stage, cs[i]);
      if !r.Ok? {
        return;
      }
      OneMoreGood(d.specs, before, d.files, stage, cs, i);
      seen := seen + {cs[i].component};
    }
    assert cs[..|cs|] == cs;
    return Ok;
  }

  lemma OneMoreGood(specs: map<string, Spec>, before: Files, after: Files, stage: string, cs: seq<StagedComponent>, i: nat)
    requires i < |cs| && PayloadsGood(specs, before, stage, cs[..i]) && Agree(after, before, iset{Validate(stage, cs[i].component)})
    requires PlanEntry(specs, cs[i]) && forall k :: 0 <= k < i ==> cs[k].component != cs[i].component
    requires PayloadGood(after, Payload(stage, cs[i].component), cs[i])
    ensures PayloadsGood(specs, after, stage, cs[..i + 1])
  {
    forall k | 0 <= k < i
      ensures PlanEntry(specs, cs[k]) && PayloadGood(after, Payload(stage, cs[k].component), cs[k])
    {
      assert cs[..i][k] == cs[k];
      assert SameAt(after, before, Payload(stage, cs[k].component));
    }
    forall j, k | 0 <= j < k < i
      ensures cs[j].component != cs[k].component
    {
      assert cs[..i][j] == cs[j] && cs[..i][k] == cs[k];
    }
  }

  // ----- applying ----------------------------------------------------------------

  ghost function PreparedStage(stage: string): iset<Path> {
    iset p: Path | p.InstallPrepared? && p.stage == stage
  }

  ghost function Written(names: set<string>): iset<Path> {
    iset p: Path | (p.Target? || p.InstallNew?) && p.target in names
  }

  /** os.RemoveAll of the install preparation directory. */
  method ClearInstallPrepared(d: Disk, stage: string) returns (r: Outcome)
    modifies d`files
    ensures Agree(d.files, old(d.files), PreparedStage(stage))
    ensures r.Ok? ==> forall c :: InstallPrepared(stage, c) !in d.files
    ensures d.calm ==> r.Ok?
  {
    r := d.Step();
    if r.Ok? {
      d.files := map p | p in d.files && !(p.InstallPrepared? && p.stage == stage) :: d.files[p];
    } else {
      var gone: set<string> :| true;
      d.files := map p | p in d.files && !(p.InstallPrepared? && p.stage == stage && p.component in gone) :: d.files[p];
    }
  }

  method PreparePayload(d: Disk, stage: string, c: StagedComponent) returns (r: Outcome)
    modifies d`files
    ensures Agree(d.files, old(d.files), iset{InstallPrepared(stage, c.component)})
    ensures r.Ok? && PayloadGood(d.files, Payload(stage, c.component), c) ==>
      PayloadGood(d.files, InstallPrepared(stage, c.component), c)
    ensures d.calm && InstallPrepared(stage, c.component) !in old(d.files) ==>
      (PayloadGood(d.files, Payload(stage, c.component), c) ==> r.Ok?)
  {
    var p := Payload(stage, c.component);
    r := CopyAndVerify(d, p, InstallPrepared(stage, c.component), FileSize(d.files, p), c.sha, c.mode);
  }

  /** First loop of installStaged: copy every payload into the preparation directory. */
  method PreparePayloads(d: Disk, stage: string, cs: seq<StagedComponent>) returns (r: Outcome)
    requires forall i :: 0 <= i < |cs| ==> PayloadGood(d.files, Payload(stage, cs[i].component), cs[i])
    requires forall i, j :: 0 <= i < j < |cs| ==> cs[i].component != cs[j].component
    requires forall c :: InstallPrepared(stage, c) !in d.files
    modifies d`files
    ensures Agree(d.files, old(d.files), PreparedStage(stage))
    ensures r.Ok? ==> forall i :: 0 <= i < |cs| ==> PayloadGood(d.files, InstallPrepared(stage, cs[i].component), cs[i])
    ensures d.calm ==> r.Ok?
  {
    ghost var done: set<string> := {};
    for i := 0 to |cs|
      invariant Agree(d.files, old(d.files), PreparedStage(stage))
      invariant forall k :: 0 <= k < i ==> PayloadGood(d.files, InstallPrepared(stage, cs[k].component), cs[k])
      invariant forall k :: i <= k < |cs| ==> cs[k].component !in done
      invariant forall c :: InstallPrepared(stage, c) in d.files ==> c in done
    {
      r := PreparePayload(d, stage, cs[i]);
      if !r.Ok? {
        return;
      }
      done := done + {cs[i].component};
    }
    return Ok;
  }

  /** Second loop body: put one component in place. */
  method ApplyComponent(d: Disk, stage: string, c: StagedComponent) returns (r: Outcome)
    modifies d`files
    ensures Agree(d.files, old(d.files), iset{Target(c.target), InstallNew(c.target)})
    ensures r.Ok? ==> IsNew(d.files, c)
    ensures !r.Ok? ==> SameAt(d.files, old(d.files), Target(c.target))
    ensures d.calm ==> !r.Crash?
    ensures d.calm && InstallNew(c.target) !in old(d.files) && PayloadGood(old(d.files), InstallPrepared(stage, c.component), c) ==>
      r.Ok?
  {
    r := d.Step();
    if !r.Ok? {
      return;
    }
    var source, replacement := InstallPrepared(stage, c.component), InstallNew(c.target);
    r := CopyAndVerify(d, source, replacement, FileSize(d.files, source), c.sha, c.mode);
    if r.Fail? {
      var ignored := RemoveFile(d, replacement);
      if ignored.Crash? {
        r := Crash;
      }
      return;
    }
    if !r.Ok? {
      return;
    }
    r := RenameFile(d, replacement, Target(c.target));
    if r.Fail? {
      var ignored := RemoveFile(d, replacement);
      if ignored.Crash? {
        r := Crash;
      }
    }
  }

  ghost predicate CanApply(files: Files, stage: string, cs: seq<StagedComponent>) {
    forall i :: 0 <= i < |cs| ==>
      InstallNew(cs[i].target) !in files && PayloadGood(files, InstallPrepared(stage, cs[i].component), cs[i])
  }

  /** No replacement file of an earlier attempt is in the way. */
  ghost predicate NoReplacements(files: Files, cs: seq<StagedComponent>) {
    forall i :: 0 <= i < |cs| ==> InstallNew(cs[i].target) !in files
  }

  ghost predicate DistinctPlanTargets(cs: seq<StagedComponent>) {
    forall i, j :: 0 <= i < j < |cs| ==> cs[i].target != cs[j].target
  }

  /** Second loop of installStaged. */
  method ApplyComponents(d: Disk, stage: string, cs: seq<StagedComponent>) returns (r: Outcome)
    requires DistinctPlanTargets(cs) && AllReplaceable(d.files, cs)
    modifies d`files
    ensures Agree(d.files, old(d.files), Written(TargetNames(cs)))
    ensures r.Ok? ==> AllNew(d.files, cs)
    ensures AllReplaceable(d.files, cs)
    ensures d.calm ==> !r.Crash?
    ensures d.calm && CanApply(old(d.files), stage, cs) ==> r.Ok?
  {
    for i := 0 to |cs|
      invariant Agree(d.files, old(d.files), Written(TargetNames(cs)))
      invariant forall k :: 0 <= k < i ==> IsNew(d.files, cs[k])
      invariant forall k :: i <= k < |cs| ==> SameAt(d.files, old(d.files), Target(cs[k].target))
      invariant forall k :: i <= k < |cs| ==> SameAt(d.files, old(d.files), InstallNew(cs[k].target))
      invariant AllReplaceable(d.files, cs)
    {
      ghost var before := d.files;
      r := ApplyComponent(d, stage, cs[i]);
      OtherComponents(before, d.files, cs, i);
      if !r.Ok? {
        return;
      }
    }
    return Ok;
  }

  lemma OtherComponents(before: Files, after: Files, cs: seq<StagedComponent>, i: nat)
    requires DistinctPlanTargets(cs) && i < |cs|
    requires Agree(after, before, iset{Target(cs[i].target), InstallNew(cs[i].target)})
    ensures forall k :: 0 <= k < |cs| && k != i ==>
      SameAt(after, before, Target(cs[k].target)) && SameAt(after, before, InstallNew(cs[k].target))
      && (IsNew(after, cs[k]) <==> IsNew(before, cs[k])) && (Replaceable(before, Target(cs[k].target)) ==> Replaceable(after, Target(cs[k].target)))
  {
  }

  lemma PlanTargetsDistinct(specs: map<string, Spec>, cs: seq<StagedComponent>)
    requires GoodTable(specs) && PlanShape(specs, cs)
    ensures DistinctPlanTargets(cs)
  {
  }

  /** The preparation directory is made anew and every payload is copied into it; no target changes. */
  method PrepareInstall(d: Disk, stage: string, cs: seq<StagedComponent>) returns (r: Outcome)
    requires PayloadsGood(d.specs, d.files, stage, cs) && DistinctPlanTargets(cs) && AllReplaceable(d.files, cs)
    modifies d`files
    ensures Agree(d.files, old(d.files), PreparedStage(stage)) && AllReplaceable(d.files, cs)
    ensures d.calm ==> r.Ok?
    ensures d.calm && NoReplacements(old(d.files), cs) ==> CanApply(d.files, stage, cs)
  {
    r := ClearInstallPrepared(d, stage);
    PreparationSparesTargets(old(d.files), d.files, stage, cs);
    if !r.Ok? {
      return;
    }
    r := d.Step();
    if !r.Ok? {
      return;
    }
    ghost var cleared := d.files;
    r := PreparePayloads(d, stage, cs);
    PreparationSparesTargets(cleared, d.files, stage, cs);
  }

  /** installStaged from the first change of a target on, up to the commit. */
  method ApplyRelease(d: Disk, stage: string, plan: StagePlan) returns (r: Outcome)
    requires PayloadsGood(d.specs, d.files, stage, plan.components)
    requires DistinctPlanTargets(plan.components) && AllReplaceable(d.files, plan.components)
    modifies d`files, d`transaction, d`state, d`stateTemp
    ensures Agree(d.files, old(d.files), Written(TargetNames(plan.components)) + PreparedStage(stage))
    ensures AllReplaceable(d.files, plan.components)
    ensures r.Ok? ==> AllNew(d.files, plan.components) && d.transaction.None? && d.state == Some(UpdateState(plan.releaseVersion, Success))
    ensures !r.Ok? ==> d.transaction == old(d.transaction)
    ensures d.state == old(d.state) || d.state == Some(UpdateState(plan.releaseVersion, Success))
    ensures d.calm ==> !r.Crash?
    ensures d.calm && d.healthy && NoReplacements(old(d.files), plan.components) && !old(d.stateTemp) && Versions.Valid(plan.releaseVersion) ==> r.Ok?
  {
    r := PrepareInstall(d, stage, plan.components);
    if !r.Ok? {
      return;
    }
    r := ApplyComponents(d, stage, plan.components);
    if !r.Ok? {
      return;
    }
    // UpdateHealthCallbacks: the success state is written before the services are checked.
    r := WriteUpdateState(d, UpdateState(plan.releaseVersion, Success));
    if !r.Ok? {
      return;
    }
    r := RunServices(d);
    if !r.Ok? {
      return;
    }
    r := RemoveTransaction(d);
  }

  lemma PreparationSparesTargets(a: Files, b: Files, stage: string, cs: seq<StagedComponent>)
    requires Agree(b, a, PreparedStage(stage))
    ensures AllReplaceable(a, cs) ==> AllReplaceable(b, cs)
    ensures forall i :: 0 <= i < |cs| ==>
      (PayloadGood(a, Payload(stage, cs[i].component), cs[i]) <==> PayloadGood(b, Payload(stage, cs[i].component), cs[i]))
    ensures AllNew(a, cs) ==> AllNew(b, cs)
    ensures forall base :: AllBack(a, base, cs) ==> AllBack(b, base, cs)
    ensures NoReplacements(a, cs) ==> NoReplacements(b, cs)
  {
    forall i | 0 <= i < |cs|
      ensures SameAt(b, a, Target(cs[i].target))
      ensures SameAt(b, a, InstallNew(cs[i].target))
      ensures SameAt(b, a, Payload(stage, cs[i].component))
    {
    }
  }

  /** rollbackInstallFailure. */
  method RollBackInstall(d: Disk, dir: string, plan: StagePlan, ghost base: Files) returns (r: Outcome)
    requires GoodTable(d.specs)
    requires Snapshot(d.specs, d.Now(), dir, plan, base) && AllReplaceable(d.files, plan.components)
    modifies d`files, d`transaction, d`state, d`stateTemp
    ensures Agree(d.files, old(d.files), Replaced(TargetNames(plan.components)) + PreparedIn(dir))
    ensures Snapshot(d.specs, d.Now(), dir, plan, base) && AllReplaceable(d.files, plan.components)
    ensures d.transaction == old(d.transaction)
      || (d.transaction.None? && AllBack(d.files, base, plan.components) && d.state == Some(UpdateState(plan.releaseVersion, Failure)))
    ensures d.state == old(d.state) || d.state == Some(UpdateState(plan.releaseVersion, Failure))
    ensures !r.Ok?
    ensures d.calm ==> !r.Crash?
  {
    ghost var before := d.Now();
    r := RestoreRollback(d, dir);
    assert RestoreEffect(d.specs, before, d.Now(), dir, r);
    RestoreOfSnapshot(d.specs, before, d.Now(), dir, plan, base, r);
    if !r.Ok? {
      return;
    }
    r := WriteUpdateState(d, UpdateState(plan.releaseVersion, Failure));
    if !r.Ok? {
      return;
    }
    r := RunServices(d);
    if !r.Ok? {
      return;
    }
    r := RemoveTransaction(d);
    if r.Ok? {
      // The installation itself is still reported as failed.
      r := Fail;
    }
  }

  // ----- the whole installation ------------------------------------------------------

  ghost function InstallScope(stage: string, dir: string, names: set<string>): iset<Path> {
    ValidationIn(stage) + PreparedStage(stage) + Written(names) + Replaced(names)
    + PreparedIn(dir) + BackupsIn(dir) + BackupsIn(Temporary(dir))
  }

  ghost predicate TargetsSame(a: Files, b: Files, cs: seq<StagedComponent>) {
    forall i :: 0 <= i < |cs| ==> SameAt(a, b, Target(cs[i].target))
  }

  /** Nothing but preparation has happened. */
  ghost predicate Untouched(specs: map<string, Spec>, a: Image, b: Image, dir: string, plan: StagePlan) {
    b.transaction == a.transaction && b.state == a.state && TargetsSame(b.files, a.files, plan.components)
    && (dir in b.dirs ==> dir in a.dirs || Snapshot(specs, b, dir, plan, a.files))
  }

  /** The installation failed and every target is back. */
  ghost predicate RolledBack(specs: map<string, Spec>, a: Image, b: Image, dir: string, plan: StagePlan) {
    b.transaction.None? && b.state == Some(UpdateState(plan.releaseVersion, Failure))
    && Snapshot(specs, b, dir, plan, a.files) && AllBack(b.files, a.files, plan.components)
  }

  /** The whole release is in place and committed. */
  ghost predicate Applied(specs: map<string, Spec>, a: Image, b: Image, dir: string, plan: StagePlan) {
    b.transaction.None? && b.state == Some(UpdateState(plan.releaseVersion, Success))
    && Snapshot(specs, b, dir, plan, a.files) && AllNew(b.files, plan.components)
    && AllReplaceable(b.files, plan.components)
  }

  /** Every way an installation of `plan` can end or be interrupted, and which of them each outcome allows. */
  ghost predicate InstallEffect(specs: map<string, Spec>, a: Image, b: Image, stage: string, plan: StagePlan, t: UpdateTransaction, r: Outcome) {
    var dir := t.rollbackDir;
    Agree(b.files, a.files, InstallScope(stage, dir, TargetNames(plan.components)))
    && AgreeExcept(b.dirs, a.dirs, {dir, Temporary(dir)})
    && AgreeExcept(b.manifests, a.manifests, {dir, Temporary(dir)})
    && (r.Ok? ==> Applied(specs, a, b, dir, plan))
    && (r.Fail? ==> Untouched(specs, a, b, dir, plan) || Pending(specs, b, t, plan, a.files) || RolledBack(specs, a, b, dir, plan))
    && (r.Crash? ==> Untouched(specs, a, b, dir, plan) || Pending(specs, b, t, plan, a.files)
                     || RolledBack(specs, a, b, dir, plan) || Applied(specs, a, b, dir, plan))
  }

  /** loadStagePlan's completeness check. */
  predicate PlanComplete(plan: StagePlan) {
    Versions.Valid(plan.releaseVersion) && plan.architecture != "" && plan.components != []
  }

  /** A complete plan with good payloads, room for its snapshot and record, and nothing of an earlier attempt in the way. */
  ghost predicate Unhindered(d: Disk, stage: string, dir: string, now: int, plan: StagePlan)
    reads d
  {
    Versions.Valid(plan.releaseVersion) && CanCreate(d.specs, d.Now(), dir, plan) && NoReplacements(d.files, plan.components)
    && ValidTransaction(UpdateTransaction(plan.releaseVersion, dir, now)) && !d.transactionTemp && !d.stateTemp
  }

  ghost predicate Installable(d: Disk, stage: string, dir: string, now: int, allowMaintenance: bool)
    reads d
  {
    stage in d.plans && var plan := d.plans[stage];
    PlanComplete(plan) && (RequiresLightDM(plan.components) ==> allowMaintenance)
    && PayloadsGood(d.specs, d.files, stage, plan.components) && (forall c :: Validate(stage, c) !in d.files)
    && Unhindered(d, stage, dir, now, plan)
  }

  /** Room for any plan's snapshot in `dir`, targets that can be replaced, and no files of earlier attempts. */
  ghost predicate Roomy(specs: map<string, Spec>, files: Files, dirs: map<string, nat>, dir: string, stage: string) {
    dir !in dirs && Temporary(dir) !in dirs
    && (forall c :: Backup(Temporary(dir), c) !in files) && (forall c :: Validate(stage, c) !in files)
    && (forall c :: c in specs ==> InstallNew(specs[c].target) !in files)
    && forall c :: c in specs && Target(specs[c].target) in files ==> var n := files[Target(specs[c].target)]; n.Regular? && |n.content| <= MAX_FILE_SIZE
  }

  lemma RoomyIsInstallable(d: Disk, stage: string, dir: string, now: int, maintenance: bool)
    requires stage in d.plans && PlanComplete(d.plans[stage]) && PayloadsGood(d.specs, d.files, stage, d.plans[stage].components)
    requires RequiresLightDM(d.plans[stage].components) ==> maintenance
    requires Roomy(d.specs, d.files, d.dirs, dir, stage) && !d.transactionTemp && !d.stateTemp && dir != "" && dir[0] == '/' && now != 0
    ensures Installable(d, stage, dir, now, maintenance)
  {
    var cs := d.plans[stage].components;
    forall i | 0 <= i < |cs|
      ensures Snapshottable(d.files, cs[i]) && InstallNew(cs[i].target) !in d.files
    {
      assert PlanEntry(d.specs, cs[i]);
    }
  }

  /** installStaged with a transaction path and both callbacks present, as the worker and the updater call it. */
  method InstallStaged(d: Disk, stage: string, dir: string, now: int, allowMaintenance: bool) returns (r: Outcome)
    requires GoodTable(d.specs)
    modifies d`files, d`dirs, d`manifests, d`transaction, d`transactionTemp, d`state, d`stateTemp
    ensures stage !in d.plans ==> !r.Ok? && d.Now() == old(d.Now())
    ensures stage in d.plans ==>
      var plan := d.plans[stage];
      InstallEffect(d.specs, old(d.Now()), d.Now(), stage, plan, UpdateTransaction(plan.releaseVersion, dir, now), r)
    ensures r.Ok? ==> dir !in old(d.dirs) && PlanComplete(d.plans[stage]) && ManifestOf(d.Now(), dir).value.preparedAt == now
    ensures stage in d.plans && RequiresLightDM(d.plans[stage].components) && !allowMaintenance ==> !r.Ok? && d.Now() == old(d.Now())
    ensures d.calm && d.healthy && old(Installable(d, stage, dir, now, allowMaintenance)) ==> r.Ok?
    ensures d.calm ==> !r.Crash?
  {
    r := d.Step();
    if !r.Ok? {
      return;
    }
    if stage !in d.plans {
      return Fail;
    }
    var plan := d.plans[stage];
    var valid := Versions.ValidVersion(plan.releaseVersion);
    if !valid || plan.architecture == "" || plan.components == [] {
      return Fail;
    }
    var light := RequiresLightDMMaintenance(plan.components);
    if light && !allowMaintenance {
      return Fail;
    }
    r := ValidateStagedPayload(d, stage, plan.components);
    if !r.Ok? {
      ValidationOnly(d.specs, old(d.Now()), d.Now(), stage, dir, plan);
      return;
    }
    r := InstallValidated(d, stage, dir, now, plan, old(d.Now()));
  }

  /** Validation alone leaves the installation untouched. */
  lemma ValidationOnly(specs: map<string, Spec>, a: Image, b: Image, stage: string, dir: string, plan: StagePlan)
    requires b == a.(files := b.files) && Agree(b.files, a.files, ValidationIn(stage))
    ensures Untouched(specs, a, b, dir, plan)
    ensures Agree(b.files, a.files, InstallScope(stage, dir, TargetNames(plan.components)))
  {
    forall i | 0 <= i < |plan.components|
      ensures SameAt(b.files, a.files, Target(plan.components[i].target))
    {
    }
  }

  /** installStaged from the snapshot on; `start` is the image before validation. */
  method InstallValidated(d: Disk, stage: string, dir: string, now: int, plan: StagePlan, ghost start: Image) returns (r: Outcome)
    requires GoodTable(d.specs) && PayloadsGood(d.specs, d.files, stage, plan.components)
    requires d.Now() == start.(files := d.files) && Agree(d.files, start.files, ValidationIn(stage))
    modifies d`files, d`dirs, d`manifests, d`transaction, d`transactionTemp, d`state, d`stateTemp
    ensures InstallEffect(d.specs, start, d.Now(), stage, plan, UpdateTransaction(plan.releaseVersion, dir, now), r)
    ensures r.Ok? ==> dir !in start.dirs && ManifestOf(d.Now(), dir).value.preparedAt == now
    ensures d.calm ==> !r.Crash?
    ensures d.calm && d.healthy && old(Unhindered(d, stage, dir, now, plan)) ==> r.Ok?
  {
    ghost var validated := d.Now();
    r := CreateRollback(d, plan, dir, now);
    SnapshotOfValidated(d.specs, start, validated, d.Now(), stage, dir, plan);
    if !r.Ok? {
      return;
    }
    SnapshotSparesReplacements(validated.files, d.files, dir, plan.components);
    r := InstallSnapshotted(d, stage, dir, now, plan, start);
  }

  lemma SnapshotSparesReplacements(before: Files, after: Files, dir: string, cs: seq<StagedComponent>)
    requires Agree(after, before, BackupsIn(dir) + BackupsIn(Temporary(dir)))
    ensures NoReplacements(before, cs) ==> NoReplacements(after, cs)
  {
    forall i | 0 <= i < |cs|
      ensures SameAt(after, before, InstallNew(cs[i].target))
    {
    }
  }

  /** installStaged from the transaction record on. */
  method InstallSnapshotted(d: Disk, stage: string, dir: string, now: int, plan: StagePlan, ghost start: Image) returns (r: Outcome)
    requires GoodTable(d.specs) && PayloadsGood(d.specs, d.files, stage, plan.components)
    requires Snapshot(d.specs, d.Now(), dir, plan, start.files) && TargetsSame(d.files, start.files, plan.components)
    requires Agree(d.files, start.files, InstallScope(stage, dir, TargetNames(plan.components)))
    requires d.transaction == start.transaction && d.state == start.state
    modifies d`files, d`transaction, d`transactionTemp, d`state, d`stateTemp
    ensures Agree(d.files, start.files, InstallScope(stage, dir, TargetNames(plan.components)))
    ensures r.Ok? ==> Applied(d.specs, start, d.Now(), dir, plan)
    ensures Untouched(d.specs, start, d.Now(), dir, plan) || Pending(d.specs, d.Now(), UpdateTransaction(plan.releaseVersion, dir, now), plan, start.files)
      || RolledBack(d.specs, start, d.Now(), dir, plan) || (Applied(d.specs, start, d.Now(), dir, plan) && !r.Fail?)
    ensures d.calm ==> !r.Crash?
    ensures d.calm && d.healthy && old(NoReplacements(d.files, plan.components) && !d.transactionTemp && !d.stateTemp) && Versions.Valid(plan.releaseVersion) && ValidTransaction(UpdateTransaction(plan.releaseVersion, dir, now)) ==> r.Ok?
  {
    ghost var ready := d.Now();
    var t := UpdateTransaction(plan.releaseVersion, dir, now);
    r := WriteUpdateTransaction(d, t);
    PendingFromSnapshot(d.specs, start.files, ready, d.Now(), dir, plan);
    if !r.Ok? {
      return;
    }
    ghost var recorded := d.Now();
    r := InstallRecorded(d, stage, dir, plan, start.files);
    WidenScope(start.files, recorded.files, d.files, InstallScope(stage, dir, TargetNames(plan.components)));
  }

  lemma WidenScope(a: Files, b: Files, c: Files, scope: iset<Path>)
    requires Agree(b, a, scope) && Agree(c, b, scope)
    ensures Agree(c, a, scope)
  {
  }

  /** After validation and snapshot the targets are as before and the payloads still match. */
  lemma SnapshotOfValidated(specs: map<string, Spec>, a: Image, validated: Image, b: Image, stage: string, dir: string, plan: StagePlan)
    requires Agree(validated.files, a.files, ValidationIn(stage))
    requires PayloadsGood(specs, validated.files, stage, plan.components)
    requires Agree(b.files, validated.files, BackupsIn(dir) + BackupsIn(Temporary(dir)))
    requires dir in b.dirs ==> dir in a.dirs || Snapshot(specs, b, dir, plan, validated.files)
    ensures TargetsSame(b.files, a.files, plan.components)
    ensures dir in b.dirs ==> dir in a.dirs || Snapshot(specs, b, dir, plan, a.files)
    ensures PayloadsGood(specs, b.files, stage, plan.components)
    ensures Agree(b.files, a.files, InstallScope(stage, dir, TargetNames(plan.components)))
  {
    var cs := plan.components;
    forall i | 0 <= i < |cs|
      ensures SameAt(validated.files, a.files, Target(cs[i].target))
      ensures SameAt(b.files, a.files, Target(cs[i].target))
      ensures SameAt(b.files, validated.files, Payload(stage, cs[i].component))
    {
    }
    if dir in b.dirs && dir !in a.dirs {
      SnapshotOfSame(specs, b, dir, plan, validated.files, a.files);
    }
  }

  /** A snapshot only depends on the targets of its source. */
  lemma SnapshotOfSame(specs: map<string, Spec>, img: Image, dir: string, plan: StagePlan, x: Files, y: Files)
    requires Snapshot(specs, img, dir, plan, x) && TargetsSame(x, y, plan.components)
    ensures Snapshot(specs, img, dir, plan, y)
  {
    var cs := plan.components;
    forall i | 0 <= i < |cs|
      ensures RecordOf(x, cs[i]) == RecordOf(y, cs[i])
      ensures Snapshottable(y, cs[i]) && BackedUp(img.files, dir, y, cs[i])
    {
      assert SameAt(x, y, Target(cs[i].target));
      assert Snapshottable(x, cs[i]) && BackedUp(img.files, dir, x, cs[i]);
    }
    assert Records(x, cs) == Records(y, cs);
  }

  lemma PendingFromSnapshot(specs: map<string, Spec>, base: Files, a: Image, b: Image, dir: string, plan: StagePlan)
    requires Snapshot(specs, a, dir, plan, base) && TargetsSame(a.files, base, plan.components)
    requires b == a.(transaction := b.transaction)
    ensures Snapshot(specs, b, dir, plan, base) && AllReplaceable(b.files, plan.components)
  {
    forall i | 0 <= i < |plan.components|
      ensures Replaceable(b.files, Target(plan.components[i].target))
    {
      assert SameAt(a.files, base, Target(plan.components[i].target)) && Snapshottable(base, plan.components[i]);
    }
  }

  /** The rest of installStaged, once the transaction is on record. */
  method InstallRecorded(d: Disk, stage: string, dir: string, plan: StagePlan, ghost base: Files) returns (r: Outcome)
    requires GoodTable(d.specs) && PayloadsGood(d.specs, d.files, stage, plan.components)
    requires d.transaction.Some? && d.transaction.value.rollbackDir == dir && d.transaction.value.releaseVersion == plan.releaseVersion
    requires Pending(d.specs, d.Now(), d.transaction.value, plan, base)
    modifies d`files, d`transaction, d`state, d`stateTemp
    ensures Agree(d.files, old(d.files), InstallScope(stage, dir, TargetNames(plan.components)))
    ensures Snapshot(d.specs, d.Now(), dir, plan, base) && AllReplaceable(d.files, plan.components)
    ensures d.transaction.Some? ==> d.transaction == old(d.transaction) && !r.Ok?
    ensures d.transaction.None? ==>
      (AllNew(d.files, plan.components) && d.state == Some(UpdateState(plan.releaseVersion, Success)) && !r.Fail?)
      || (AllBack(d.files, base, plan.components) && d.state == Some(UpdateState(plan.releaseVersion, Failure)) && !r.Ok?)
    ensures d.calm ==> !r.Crash?
    ensures d.calm && d.healthy && NoReplacements(old(d.files), plan.components) && !old(d.stateTemp) && Versions.Valid(plan.releaseVersion) ==> r.Ok?
  {
    PlanTargetsDistinct(d.specs, plan.components);
    ghost var start := d.Now();
    r := ApplyRelease(d, stage, plan);
    SnapshotSurvives(d.specs, start, d.Now(), dir, plan, base, Written(TargetNames(plan.components)) + PreparedStage(stage));
    if r.Fail? {
      r := RollBackInstall(d, dir, plan, base);
    }
    if !r.Crash? {
      ghost var done := d.Now();
      var ignored := ClearInstallPrepared(d, stage);
      SnapshotSurvives(d.specs, done, d.Now(), dir, plan, base, PreparedStage(stage));
      PreparationSparesTargets(done.files, d.files, stage, plan.components);
      if ignored.Crash? {
        r := Crash;
      }
    }
  }
}
