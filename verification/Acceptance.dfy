/** VerifyReleaseAcceptance (acceptance.go) and the end-to-end property of the update pipeline. */
module Acceptance {
  import opened Strings
  import opened Components
  import opened Disks
  import opened Restore
  import opened Rollback
  import opened Transaction
  import opened Install
  import opened Packages
  import opened Staging
  import opened Atomicity

  /** The component of `f` is installed exactly as signed. */
  predicate InstalledAs(specs: map<string, Spec>, files: Files, f: ManifestFileEntry) {
    f.component in specs &&
    var t := Target(specs[f.component].target);
    // The file is hashed through a reader that stops one byte over the size limit.
    t in files && files[t].Regular? && files[t].perm == specs[f.component].mode
    && |files[t].content| == f.size <= MAX_FILE_SIZE + 1 && Sha256(files[t].content) == f.sha
  }

  ghost predicate FilesInstalled(specs: map<string, Spec>, files: Files, fs: seq<ManifestFileEntry>) {
    (forall i :: 0 <= i < |fs| ==> InstalledAs(specs, files, fs[i]))
    && forall i, j :: 0 <= i < j < |fs| ==> fs[i].component != fs[j].component
  }

  ghost predicate RollbackMatches(img: Image, dir: string, m: Manifest) {
    ManifestOf(img, dir).Some? &&
    var rb := ManifestOf(img, dir).value;
    rb.forRelease == m.releaseVersion && |rb.files| == |m.files|
    && forall i :: 0 <= i < |rb.files| ==> rb.files[i].component in NamesOf(m.files)
  }

  /** The release is installed exactly as signed and its complete rollback is usable. */
  ghost predicate Accepted(specs: map<string, Spec>, img: Image, m: Manifest, dir: string) {
    FilesInstalled(specs, img.files, m.files) && RollbackValid(specs, img, dir) && RollbackMatches(img, dir, m)
  }

  method CheckComponent(d: Disk, f: ManifestFileEntry) returns (r: Outcome)
    ensures r.Ok? ==> InstalledAs(d.specs, d.files, f)
    ensures d.calm ==> !r.Crash? && (r.Ok? <==> InstalledAs(d.specs, d.files, f))
  {
    r := d.Step();
    if !r.Ok? {
      return;
    }
    if f.component !in d.specs {
      return Fail;
    }
    var target := Target(d.specs[f.component].target);
    if target !in d.files || !d.files[target].Regular? || d.files[target].perm != d.specs[f.component].mode {
      return Fail;
    }
    var content := d.files[target].content;
    if |content| != f.size || |content| > MAX_FILE_SIZE + 1 || Sha256(content) != f.sha {
      return Fail;
    }
  }

  /** The first `i` components are distinct, and `seen` holds exactly them. */
  ghost predicate SeenFirst(fs: seq<ManifestFileEntry>, i: nat, seen: set<string>)
    requires i <= |fs|
  {
    |seen| == i && seen == (set k | 0 <= k < i :: fs[k].component)
    && forall j, k :: 0 <= j < k < i ==> fs[j].component != fs[k].component
  }

  lemma SeenNext(fs: seq<ManifestFileEntry>, i: nat, seen: set<string>)
    requires i < |fs| && SeenFirst(fs, i, seen)
    ensures if fs[i].component in seen then exists k :: 0 <= k < i && fs[k].component == fs[i].component else SeenFirst(fs, i + 1, seen + {fs[i].component})
  {
    var more := set k | 0 <= k < i + 1 :: fs[k].component;
    assert more == seen + {fs[i].component};
  }

  /** The checks of the first loop of VerifyReleaseAcceptance. */
  method CheckInstalled(d: Disk, fs: seq<ManifestFileEntry>) returns (r: Outcome, seen: set<string>)
    ensures r.Ok? ==> FilesInstalled(d.specs, d.files, fs)
    ensures r.Ok? ==> |seen| == |fs| && seen == set k | 0 <= k < |fs| :: fs[k].component
    ensures d.calm ==> !r.Crash? && (r.Ok? <==> FilesInstalled(d.specs, d.files, fs))
  {
    seen := {};
    for i := 0 to |fs|
      invariant SeenFirst(fs, i, seen)
      invariant forall k :: 0 <= k < i ==> InstalledAs(d.specs, d.files, fs[k])
    {
      var f := fs[i];
      SeenNext(fs, i, seen);
      if f.component in seen {
        r := Fail;
        return;
      }
      seen := seen + {f.component};
      r := CheckComponent(d, f);
      if !r.Ok? {
        return;
      }
    }
    r := Ok;
  }

  /** The plan the same loop builds. */
  function InstalledPlan(specs: map<string, Spec>, fs: seq<ManifestFileEntry>): seq<StagedComponent>
    requires forall i :: 0 <= i < |fs| ==> fs[i].component in specs
  {
    seq(|fs|, i requires 0 <= i < |fs| => ToStaged(specs, fs[i]))
  }

  /** VerifyReleaseAcceptance. It changes nothing. */
  method VerifyReleaseAcceptance(d: Disk, m: Manifest, dir: string) returns (r: Outcome, plan: StagePlan)
    ensures r.Ok? ==> Accepted(d.specs, d.Now(), m, dir) && plan.releaseVersion == m.releaseVersion
    ensures r.Ok? ==> plan.components == InstalledPlan(d.specs, m.files)
    ensures d.calm ==> !r.Crash? && (r.Ok? <==> Accepted(d.specs, d.Now(), m, dir))
  {
    plan := StagePlan(m.releaseVersion, m.architecture, []);
    var seen;
    r, seen := CheckInstalled(d, m.files);
    if !r.Ok? {
      return;
    }
    assert forall i :: 0 <= i < |m.files| ==> InstalledAs(d.specs, d.files, m.files[i]);
    plan := plan.(components := InstalledPlan(d.specs, m.files));
    var rb;
    r, rb := VerifyRollback(d, dir);
    if !r.Ok? {
      return;
    }
    SeenAreNames(m.files, seen);
    if rb.forRelease != m.releaseVersion || |rb.files| != |seen| {
      r := Fail;
      return;
    }
    var known := AllSeen(rb.files, seen);
    r := if known then Ok else Fail;
  }

  method AllSeen(fs: seq<RollbackFile>, seen: set<string>) returns (ok: bool)
    ensures ok <==> forall i :: 0 <= i < |fs| ==> fs[i].component in seen
  {
    for i := 0 to |fs|
      invariant forall k :: 0 <= k < i ==> fs[k].component in seen
    {
      if fs[i].component !in seen {
        return false;
      }
    }
    return true;
  }

  lemma SeenAreNames(fs: seq<ManifestFileEntry>, seen: set<string>)
    requires seen == set k | 0 <= k < |fs| :: fs[k].component
    ensures forall x :: x in seen <==> x in NamesOf(fs)
  {
    assert forall k :: 0 <= k < |fs| ==> NamesOf(fs)[k] == fs[k].component;
  }

  // ----- end to end ------------------------------------------------------------------

  lemma EntryOf(fs: seq<ManifestFileEntry>, f: ManifestFileEntry)
    requires f in fs
    requires forall i, j :: 0 <= i < j < |fs| ==> fs[i].component != fs[j].component
    ensures ByComponent(fs)[f.component] == f
  {
    var g := ByComponent(fs)[f.component];
    var i :| 0 <= i < |fs| && fs[i] == f;
    var j :| 0 <= j < |fs| && fs[j] == g;
  }

  /** A component that came from a verified payload and is new on disk is installed as signed. */
  lemma NewIsAsSigned(specs: map<string, Spec>, files: Files, index: map<string, Entry>, f: ManifestFileEntry)
    requires f.component in specs && PayloadMatches(index, f) && f.size <= MAX_FILE_SIZE
    requires IsNew(files, ToStaged(specs, f))
    ensures InstalledAs(specs, files, f)
  {
  }

  lemma PlanCovers(specs: map<string, Spec>, r: Release, plan: StagePlan, f: ManifestFileEntry) returns (i: nat)
    requires Stageable(specs, r) && PlanFor(specs, r.manifest, plan) && f in r.manifest.files
    ensures f.component in specs && i < |plan.components| && plan.components[i] == ToStaged(specs, f)
  {
    ReleaseNames(specs, r);
    EntryOf(r.manifest.files, f);
    i :| 0 <= i < |r.names| && r.names[i] == f.component;
  }

  lemma RollbackOfPlanMatches(specs: map<string, Spec>, img: Image, dir: string, r: Release, plan: StagePlan, base: Files)
    requires Stageable(specs, r) && PlanFor(specs, r.manifest, plan) && Snapshot(specs, img, dir, plan, base)
    ensures RollbackMatches(img, dir, r.manifest)
  {
    ReleaseNames(specs, r);
    var rb, cs := ManifestOf(img, dir).value, plan.components;
    RearrangedNamesOf(r);
    forall i | 0 <= i < |rb.files|
      ensures rb.files[i].component in NamesOf(r.manifest.files)
    {
      assert rb.files[i] == RecordOf(base, cs[i]);
      assert cs[i] == ToStaged(specs, ByComponent(r.manifest.files)[r.names[i]]);
      assert r.names[i] in r.names;
    }
  }

  lemma RearrangedNamesOf(r: Release)
    requires r.names == SortStrings(NamesOf(r.manifest.files))
    ensures forall x :: x in r.names ==> x in NamesOf(r.manifest.files)
  {
    forall x | x in r.names
      ensures x in NamesOf(r.manifest.files)
    {
      assert x in multiset(r.names);
    }
  }

  /** A verified, staged and successfully applied release passes VerifyReleaseAcceptance. */
  lemma AppliedIsAccepted(specs: map<string, Spec>, r: Release, plan: StagePlan, a: Image, b: Image, dir: string)
    requires Stageable(specs, r) && PlanFor(specs, r.manifest, plan)
    requires plan.releaseVersion != "" && plan.components != []
    requires Applied(specs, a, b, dir, plan) && ManifestOf(b, dir).value.preparedAt != 0
    requires UsableModes(a.files, plan.components)
    ensures Accepted(specs, b, r.manifest, dir)
  {
    var fs := r.manifest.files;
    ReleaseNames(specs, r);
    forall k | 0 <= k < |fs|
      ensures InstalledAs(specs, b.files, fs[k])
    {
      var i := PlanCovers(specs, r, plan, fs[k]);
      assert IsNew(b.files, plan.components[i]);
      NewIsAsSigned(specs, b.files, r.index, fs[k]);
    }
    SnapshotUsableExactly(specs, b, dir, plan, a.files);
    RollbackOfPlanMatches(specs, b, dir, r, plan, a.files);
  }

  /**
   * The pipeline as code: whatever verifies, stages and installs, through whatever faults,
   * is then what VerifyReleaseAcceptance accepts; a calm disk lets it say so.
   */
  method UpdateEndToEnd(d: Disk, crypto: Crypto, es: seq<Entry>, architecture: string, current: string,
                        stage: string, dir: string, now: int, maintenance: bool)
      returns (installed: bool, accepted: bool, manifest: Option<Manifest>)
    requires GoodTable(d.specs) && now != 0
    requires TargetsUsable(d.files)
    modifies d`files, d`dirs, d`manifests, d`stages, d`plans, d`transaction, d`transactionTemp, d`state, d`stateTemp
    ensures installed ==> manifest.Some? && Accepted(d.specs, d.Now(), manifest.value, dir) && PackageGood(d.specs, crypto, es, architecture, current)
    ensures installed ==> exists index :: Indexes(index, es) && SignedManifest(crypto, index) == manifest
    ensures installed ==> SignedIn(crypto, es, manifest.value)
    ensures installed && d.calm ==> accepted
    ensures accepted ==> installed
  {
    installed, accepted, manifest := false, false, None;
    var r, release, plan := VerifyAndStage(d, crypto, es, architecture, current, stage);
    if !r.Ok? {
      return;
    }
    ghost var a := d.Now();
    r := InstallStaged(d, stage, dir, now, maintenance);
    if !r.Ok? {
      return;
    }
    installed, manifest := true, Some(release.value.manifest);
    assert SignedManifest(crypto, release.value.index) == manifest;
    OriginalModes(old(d.files), a.files, stage, plan.components);
    AppliedIsAccepted(d.specs, release.value, plan, a, d.Now(), dir);
    var p;
    r, p := VerifyReleaseAcceptance(d, release.value.manifest, dir);
    accepted := r.Ok?;
  }

  /** Staging leaves the modes of the targets alone. */
  lemma OriginalModes(before: Files, staged: Files, stage: string, cs: seq<StagedComponent>)
    requires TargetsUsable(before)
    requires Agree(staged, before, PayloadsIn(stage) + PayloadsIn(Temporary(stage)))
    ensures UsableModes(staged, cs)
  {
    forall i | 0 <= i < |cs|
      ensures SameAt(staged, before, Target(cs[i].target))
    {
    }
  }

  /** Every regular target has a permission bit set. */
  ghost predicate TargetsUsable(files: Files) {
    forall t :: Target(t) in files && files[Target(t)].Regular? ==> 0 < files[Target(t)].perm <= 511
  }
}
