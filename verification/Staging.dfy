/** VerifyAndStage (stage.go): verified payloads written to a private directory, published by one rename. */
module Staging {
  import opened Strings
  import opened Components
  import opened Disks
  import opened Rollback
  import opened Transaction
  import opened Install
  import opened Packages

  /** The manifest's entries by component name. */
  function ByComponent(fs: seq<ManifestFileEntry>): (m: map<string, ManifestFileEntry>)
    ensures forall c :: c in m ==> m[c] in fs && m[c].component == c
    ensures forall f :: f in fs ==> f.component in m
  {
    if fs == [] then map[]
    else ByComponent(fs[..|fs| - 1])[fs[|fs| - 1].component := fs[|fs| - 1]]
  }

  function ToStaged(specs: map<string, Spec>, f: ManifestFileEntry): StagedComponent
    requires f.component in specs
  {
    var s := specs[f.component];
    StagedComponent(f.component, s.target, s.mode, f.sha, s.restartLightDM)
  }

  /** The plan that staging derives from a manifest: one entry per file, in name order. */
  ghost predicate PlanFor(specs: map<string, Spec>, m: Manifest, plan: StagePlan) {
    var names := SortStrings(NamesOf(m.files));
    plan.releaseVersion == m.releaseVersion && plan.architecture == m.architecture
    && |plan.components| == |names|
    && forall i :: 0 <= i < |names| ==>
      names[i] in ByComponent(m.files) && names[i] in specs
      && plan.components[i] == ToStaged(specs, ByComponent(m.files)[names[i]])
  }

  ghost predicate PayloadStaged(files: Files, stage: string, index: map<string, Entry>, f: ManifestFileEntry) {
    var p := Payload(stage, f.component);
    PayloadMatches(index, f) && p in files && files[p].Regular? && files[p].content == ReadEntry(index, PayloadName(f.component), f.size).value
  }

  ghost function PayloadsIn(stage: string): iset<Path> {
    iset p: Path | p.Payload? && p.stage == stage
  }

  /** Staging one entry leaves the ones before it alone. */
  lemma StagedBefore(before: Files, after: Files, stage: string, index: map<string, Entry>, files: map<string, ManifestFileEntry>, names: seq<string>, i: nat)
    requires i < |names| && NoRepeats(names)
    requires forall k :: 0 <= k <= i ==> names[k] in files && files[names[k]].component == names[k]
    requires forall k :: 0 <= k < i ==> PayloadStaged(before, stage, index, files[names[k]])
    requires Agree(after, before, iset{Payload(stage, names[i])})
    ensures forall k :: 0 <= k < i ==> PayloadStaged(after, stage, index, files[names[k]])
  {
    forall k | 0 <= k < i
      ensures PayloadStaged(after, stage, index, files[names[k]])
    {
      assert PayloadStaged(before, stage, index, files[names[k]]) && names[k] != names[i];
    }
  }

  /** stageEntry. */
  method StageEntry(d: Disk, stage: string, index: map<string, Entry>, f: ManifestFileEntry, mode: nat) returns (r: Outcome)
    requires f.size >= 0
    modifies d`files
    ensures Agree(d.files, old(d.files), iset{Payload(stage, f.component)})
    ensures r.Ok? ==> PayloadStaged(d.files, stage, index, f)
    ensures d.calm ==> !r.Crash?
    ensures d.calm && PayloadMatches(index, f) && Payload(stage, f.component) !in old(d.files) ==> r.Ok?
  {
    var p, name := Payload(stage, f.component), PayloadName(f.component);
    if name !in index {
      return Fail;
    }
    r := d.Step();
    if !r.Ok? {
      return;
    }
    if p in d.files {
      return Fail;
    }
    var all := index[name].data;
    var data := if |all| <= f.size + 1 then all else all[..f.size + 1];
    d.files := d.files[p := Regular(data, mode, false)];
    r := d.Step();
    if !r.Ok? {
      return;
    }
    if |data| != f.size || Sha256(data) != f.sha || index[name].declared > f.size {
      // The declared size was checked when the package was verified.
      return Fail;
    }
    r := d.Step();
  }

  /** The loop of VerifyAndStage. */
  method StageEntries(d: Disk, stage: string, release: Release) returns (r: Outcome, cs: seq<StagedComponent>)
    requires NoRepeats(release.names)
    requires forall i :: 0 <= i < |release.names| ==> release.names[i] in ByComponent(release.manifest.files) && release.names[i] in d.specs
    requires forall f :: f in release.manifest.files ==> f.size >= 0 && PayloadMatches(release.index, f)
    modifies d`files
    ensures Agree(d.files, old(d.files), PayloadsIn(stage))
    ensures r.Ok? ==> |cs| == |release.names| && forall i :: 0 <= i < |cs| ==>
      cs[i] == ToStaged(d.specs, ByComponent(release.manifest.files)[release.names[i]])
      && PayloadStaged(d.files, stage, release.index, ByComponent(release.manifest.files)[release.names[i]])
    ensures d.calm ==> !r.Crash?
    ensures d.calm && (forall c :: Payload(stage, c) !in old(d.files)) ==> r.Ok?
  {
    var files, names := ByComponent(release.manifest.files), release.names;
    cs := [];
    ghost var done: set<string> := {};
    for i := 0 to |names|
      invariant Agree(d.files, old(d.files), PayloadsIn(stage))
      invariant |cs| == i
      invariant forall k :: 0 <= k < i ==> cs[k] == ToStaged(d.specs, files[names[k]])
      invariant forall k :: 0 <= k < i ==> PayloadStaged(d.files, stage, release.index, files[names[k]])
      invariant forall k :: i <= k < |names| ==> names[k] !in done
      invariant forall c :: Payload(stage, c) in d.files ==> Payload(stage, c) in old(d.files) || c in done
    {
      var f := files[names[i]];
      ghost var before := d.files;
      r := StageEntry(d, stage, release.index, f, d.specs[names[i]].mode);
      if !r.Ok? {
        return;
      }
      StagedBefore(before, d.files, stage, release.index, files, names, i);
      cs := cs + [ToStaged(d.specs, f)];
      done := done + {names[i]};
    }
    r := Ok;
  }

  /** Removing or publishing the temporary stage directory. */
  method RemoveStage(d: Disk, stage: string) returns (r: Outcome)
    modifies d`files, d`stages
    ensures Agree(d.files, old(d.files), PayloadsIn(stage))
    ensures d.stages == old(d.stages) || d.stages == old(d.stages) - {stage}
    ensures d.calm ==> r.Ok?
  {
    r := d.Step();
    if r.Ok? {
      d.files := map p | p in d.files && !(p.Payload? && p.stage == stage) :: d.files[p];
      d.stages := d.stages - {stage};
    }
  }

  method PublishStage(d: Disk, temporary: string, stage: string, plan: StagePlan) returns (r: Outcome)
    requires temporary != stage
    modifies d`files, d`stages, d`plans
    ensures !r.Ok? ==> d.files == old(d.files) && d.stages == old(d.stages) && d.plans == old(d.plans)
    ensures r.Ok? ==> d.plans == old(d.plans)[stage := plan]
    ensures r.Ok? ==> Agree(d.files, old(d.files), PayloadsIn(temporary) + PayloadsIn(stage))
    ensures r.Ok? ==> forall c :: Payload(temporary, c) in old(d.files) ==>
      Payload(stage, c) in d.files && d.files[Payload(stage, c)] == old(d.files)[Payload(temporary, c)]
    ensures d.calm ==> r.Ok?
  {
    r := d.Step();
    if r.Ok? {
      var kept := map p | p in d.files && !(p.Payload? && (p.stage == temporary || p.stage == stage)) :: d.files[p];
      var moved := map p | p in d.files && p.Payload? && p.stage == temporary :: Payload(stage, p.component) := d.files[p];
      assert forall c :: Payload(temporary, c) in d.files ==>
        Payload(stage, c) in moved && moved[Payload(stage, c)] == d.files[Payload(temporary, c)];
      d.files := kept + moved;
      d.stages := d.stages - {temporary} + {stage};
      d.plans := d.plans[stage := plan];
    }
  }

  ghost predicate StageFree(d: Disk, stage: string)
    reads d
  {
    Vacant(d.stages, d.files, stage)
  }

  ghost predicate Vacant(stages: set<string>, files: Files, stage: string) {
    stage !in stages && Temporary(stage) !in stages && forall c :: Payload(Temporary(stage), c) !in files
  }

  /** The part of a verified release that staging relies on. */
  ghost predicate Stageable(specs: map<string, Spec>, r: Release) {
    FilesValid(specs, r.manifest.files) && PayloadsMatch(r.index, r.manifest.files)
    && r.names == SortStrings(NamesOf(r.manifest.files))
  }

  /** VerifyAndStage. */
  method VerifyAndStage(d: Disk, crypto: Crypto, es: seq<Entry>, architecture: string, current: string, stage: string)
    returns (r: Outcome, release: Option<Release>, plan: StagePlan)
    modifies d`files, d`stages, d`plans
    ensures Agree(d.files, old(d.files), PayloadsIn(stage) + PayloadsIn(Temporary(stage)))
    ensures !r.Ok? ==> d.plans == old(d.plans)
    ensures r.Ok? ==> PackageGood(d.specs, crypto, es, architecture, current)
    ensures r.Ok? ==> release.Some? && IsRelease(d.specs, crypto, release.value, architecture, current) && Indexes(release.value.index, es)
    ensures r.Ok? ==> SignedIn(crypto, es, release.value.manifest)
    ensures r.Ok? ==> d.plans == old(d.plans)[stage := plan] && PlanFor(d.specs, release.value.manifest, plan)
    ensures r.Ok? ==> PayloadsGood(d.specs, d.files, stage, plan.components)
    ensures d.calm ==> !r.Crash?
    ensures d.calm && old(StageFree(d, stage)) ==> (r.Ok? <==> PackageGood(d.specs, crypto, es, architecture, current))
  {
    release := VerifyPackage(d.specs, crypto, es, architecture, current);
    if release.None? {
      r, plan := Fail, StagePlan("", "", []);
      return;
    }
    r, plan := StageRelease(d, stage, release.value);
  }

  /** VerifyAndStage after the package has been verified. */
  method StageRelease(d: Disk, stage: string, release: Release) returns (r: Outcome, plan: StagePlan)
    requires Stageable(d.specs, release)
    modifies d`files, d`stages, d`plans
    ensures Agree(d.files, old(d.files), PayloadsIn(stage) + PayloadsIn(Temporary(stage)))
    ensures !r.Ok? ==> d.plans == old(d.plans)
    ensures r.Ok? ==> d.plans == old(d.plans)[stage := plan] && PlanFor(d.specs, release.manifest, plan)
    ensures r.Ok? ==> PayloadsGood(d.specs, d.files, stage, plan.components)
    ensures d.calm ==> !r.Crash?
    ensures d.calm && old(StageFree(d, stage)) ==> r.Ok?
  {
    plan := StagePlan("", "", []);
    var temporary := Temporary(stage);
    r := d.Step();
    if !r.Ok? {
      return;
    }
    if stage in d.stages || temporary in d.stages {
      r := Fail;
      return;
    }
    d.stages := d.stages + {temporary};
    ReleaseNames(d.specs, release);
    var cs;
    r, cs := StageEntries(d, temporary, release);
    if r.Ok? {
      plan := StagePlan(release.manifest.releaseVersion, release.manifest.architecture, cs);
      r := d.Step();
    }
    ghost var written := d.files;
    if r.Ok? {
      r := PublishStage(d, temporary, stage, plan);
      if r.Ok? {
        StagedIsGood(d.specs, written, d.files, stage, release, plan);
        return;
      }
    }
    if r.Fail? {
      var ignored := RemoveStage(d, temporary);
      if ignored.Crash? {
        r := Crash;
      }
    }
  }

  lemma ReleaseNames(specs: map<string, Spec>, r: Release)
    requires Stageable(specs, r)
    ensures NoRepeats(r.names) && |r.names| == |r.manifest.files|
    ensures forall i :: 0 <= i < |r.names| ==> r.names[i] in ByComponent(r.manifest.files) && r.names[i] in specs
    ensures forall f :: f in r.manifest.files ==> f.component in r.names
    ensures forall f :: f in r.manifest.files ==> 0 <= f.size <= MAX_FILE_SIZE && PayloadMatches(r.index, f)
  {
    var fs := r.manifest.files;
    var plain := NamesOf(fs);
    assert NoRepeats(plain);
    RearrangedNames(r.names, plain);
    forall i | 0 <= i < |r.names|
      ensures r.names[i] in ByComponent(fs) && r.names[i] in specs
    {
      assert r.names[i] in plain;
      var k :| 0 <= k < |plain| && plain[k] == r.names[i];
      assert fs[k] in fs && FileEntryValid(specs, fs[k]);
    }
    forall f | f in fs
      ensures f.component in r.names && 0 <= f.size <= MAX_FILE_SIZE && PayloadMatches(r.index, f)
    {
      var k :| 0 <= k < |fs| && fs[k] == f;
      assert plain[k] == f.component;
      assert FileEntryValid(specs, fs[k]);
    }
  }

  /** Payloads that were moved with their directory match the plan. */
  lemma StagedIsGood(specs: map<string, Spec>, written: Files, files: Files, stage: string, r: Release, plan: StagePlan)
    requires NoRepeats(r.names) && |plan.components| == |r.names|
    requires forall i :: 0 <= i < |r.names| ==> r.names[i] in ByComponent(r.manifest.files) && r.names[i] in specs
    requires forall f :: f in r.manifest.files ==> 0 <= f.size <= MAX_FILE_SIZE
    requires forall i :: 0 <= i < |r.names| ==>
      plan.components[i] == ToStaged(specs, ByComponent(r.manifest.files)[r.names[i]])
      && PayloadStaged(written, Temporary(stage), r.index, ByComponent(r.manifest.files)[r.names[i]])
    requires forall c :: Payload(Temporary(stage), c) in written ==>
      Payload(stage, c) in files && files[Payload(stage, c)] == written[Payload(Temporary(stage), c)]
    ensures PayloadsGood(specs, files, stage, plan.components)
  {
    forall i | 0 <= i < |plan.components|
      ensures PlanEntry(specs, plan.components[i])
      ensures plan.components[i].component == r.names[i]
      ensures PayloadGood(files, Payload(stage, plan.components[i].component), plan.components[i])
    {
      var f := ByComponent(r.manifest.files)[r.names[i]];
      assert PayloadStaged(written, Temporary(stage), r.index, f);
    }
  }
}
