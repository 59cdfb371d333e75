/**
 * What ties a staged plan to the package a job names: bytes with the job's digest
 * that unpack to a safe archive, whose signed manifest is valid for this client
 * and for the job's release.
 */
module Signing {
  import opened Strings
  import opened Components
  import opened Disks
  import opened Transaction
  import opened Install
  import opened Packages
  import opened Staging
  import opened Acceptance

  /** The client's platform: the trusted key with its decoder, the expected architecture, the archive reader and SHA-256 in hexadecimal. */
  datatype Platform = Platform(
    crypto: Crypto, architecture: string, unzip: Bytes -> Option<seq<Entry>>, sha: Bytes -> string)

  ghost predicate Injective(sha: Bytes -> string) {
    forall x: Bytes, y: Bytes :: sha(x) == sha(y) ==> x == y
  }

  /** What a job asks for. */
  datatype Order = Order(sha: string, release: string)

  /** `bytes` is the package the order names, and `r` the signed release in it. */
  ghost predicate Delivers(specs: map<string, Spec>, p: Platform, o: Order, bytes: Bytes, r: Release) {
    p.sha(bytes) == o.sha && p.unzip(bytes).Some?
    && EntriesSafe(p.unzip(bytes).value) && Indexes(r.index, p.unzip(bytes).value)
    && SignedIn(p.crypto, p.unzip(bytes).value, r.manifest)
    && r.manifest.releaseVersion == o.release && r.manifest.channel == "stable"
    && exists current :: IsRelease(specs, p.crypto, r, p.architecture, current)
  }

  /** An order is met by at most one package and one manifest. */
  lemma DeliveryIsUnique(specs: map<string, Spec>, p: Platform, o: Order, x: Bytes, r: Release, y: Bytes, q: Release)
    requires Injective(p.sha) && Delivers(specs, p, o, x, r) && Delivers(specs, p, o, y, q)
    ensures x == y && r == q
  {
    IndexUnique(r.index, q.index, p.unzip(x).value);
  }

  predicate NeedsMaintenance(specs: map<string, Spec>, m: Manifest) {
    exists k :: 0 <= k < |m.files| && m.files[k].component in specs && specs[m.files[k].component].restartLightDM
  }

  /** The bytes are the ordered package, and a client with version `current` may install it, with maintenance where it needs it. */
  ghost predicate Suits(specs: map<string, Spec>, p: Platform, o: Order, bytes: Bytes, current: string, maintenance: bool, m: Manifest) {
    p.sha(bytes) == o.sha && p.unzip(bytes).Some? && Acceptable(specs, p.crypto, p.unzip(bytes).value, p.architecture, current, m)
    && m.releaseVersion == o.release && m.channel == "stable" && m.architecture != "" && (NeedsMaintenance(specs, m) ==> maintenance)
  }

  /** A plan derived from such a manifest is complete and allowed. */
  lemma SuitablePlan(specs: map<string, Spec>, r: Release, plan: StagePlan, maintenance: bool)
    requires Stageable(specs, r) && PlanFor(specs, r.manifest, plan) && r.manifest.files != [] && r.manifest.architecture != ""
    requires NeedsMaintenance(specs, r.manifest) ==> maintenance
    ensures plan.components != [] && plan.architecture != "" && (RequiresLightDM(plan.components) ==> maintenance)
  {
    ReleaseNames(specs, r);
    if RequiresLightDM(plan.components) {
      var i :| 0 <= i < |plan.components| && plan.components[i].restartLightDM;
      var f := ByComponent(r.manifest.files)[r.names[i]];
      var k :| 0 <= k < |r.manifest.files| && r.manifest.files[k] == f;
      assert r.manifest.files[k].component in specs && specs[r.manifest.files[k].component].restartLightDM;
    }
  }

  predicate Cited(plan: StagePlan) { true }

  /** The plan was derived from the ordered package. It is looked into only where the plan is cited, which always may be done. */
  ghost predicate SignedPlan(specs: map<string, Spec>, p: Platform, o: Order, plan: StagePlan) {
    forall x {:trigger Cited(x)} :: Cited(x) && x == plan ==>
      exists bytes, r :: Delivers(specs, p, o, bytes, r) && PlanFor(specs, r.manifest, x)
  }

  /** The ordered release is installed exactly as signed. */
  ghost predicate InstalledAsSigned(specs: map<string, Spec>, p: Platform, o: Order, files: Files) {
    exists bytes, r :: Delivers(specs, p, o, bytes, r) && r.manifest.files != [] && FilesInstalled(specs, files, r.manifest.files)
  }

  ghost predicate FilesBack(specs: map<string, Spec>, files: Files, base: Files, fs: seq<ManifestFileEntry>) {
    forall i :: 0 <= i < |fs| ==> fs[i].component in specs && Back(files, base, Target(specs[fs[i].component].target))
  }

  /** Every target of the ordered release is as it was in `base`. */
  ghost predicate NothingInstalled(specs: map<string, Spec>, p: Platform, o: Order, files: Files, base: Files) {
    exists bytes, r :: Delivers(specs, p, o, bytes, r) && r.manifest.files != [] && FilesBack(specs, files, base, r.manifest.files)
  }

  lemma OpenPlan(specs: map<string, Spec>, p: Platform, o: Order, plan: StagePlan) returns (bytes: Bytes, r: Release)
    requires SignedPlan(specs, p, o, plan)
    ensures Delivers(specs, p, o, bytes, r) && PlanFor(specs, r.manifest, plan) && Stageable(specs, r) && r.manifest.files != []
  {
    assert Cited(plan);
    bytes, r :| Delivers(specs, p, o, bytes, r) && PlanFor(specs, r.manifest, plan);
  }

  /** A signed plan has something to install. */
  lemma SignedPlanIsNotEmpty(specs: map<string, Spec>, p: Platform, o: Order, plan: StagePlan)
    requires SignedPlan(specs, p, o, plan)
    ensures plan.components != []
  {
    var bytes, r := OpenPlan(specs, p, o, plan);
    ReleaseNames(specs, r);
  }

  /** Behind a signed plan there is data that verified under the trusted key. */
  lemma SignedPlanHasSignature(specs: map<string, Spec>, p: Platform, o: Order, plan: StagePlan)
    requires SignedPlan(specs, p, o, plan)
    ensures exists raw: Bytes, sig: Bytes :: p.crypto.signed(raw, sig)
  {
    var bytes, r := OpenPlan(specs, p, o, plan);
    var raw, sig :| Carries(p.unzip(bytes).value, "manifest.json", MAX_MANIFEST_SIZE, raw)
      && Carries(p.unzip(bytes).value, "manifest.sig", MAX_SIGNATURE_TEXT, sig)
      && p.crypto.signed(raw, sig) && p.crypto.decode(raw) == Some(r.manifest);
  }

  /** Every signed file is covered by the plan, so a plan in place is the release in place. */
  lemma PlanInstalled(specs: map<string, Spec>, r: Release, plan: StagePlan, files: Files)
    requires Stageable(specs, r) && PlanFor(specs, r.manifest, plan) && AllNew(files, plan.components)
    ensures FilesInstalled(specs, files, r.manifest.files)
  {
    var fs := r.manifest.files;
    ReleaseNames(specs, r);
    forall k | 0 <= k < |fs|
      ensures InstalledAs(specs, files, fs[k])
    {
      var i := PlanCovers(specs, r, plan, fs[k]);
      assert IsNew(files, plan.components[i]);
      NewIsAsSigned(specs, files, r.index, fs[k]);
    }
  }

  lemma PlanBack(specs: map<string, Spec>, r: Release, plan: StagePlan, files: Files, base: Files)
    requires Stageable(specs, r) && PlanFor(specs, r.manifest, plan) && AllBack(files, base, plan.components)
    ensures FilesBack(specs, files, base, r.manifest.files)
  {
    var fs := r.manifest.files;
    forall k | 0 <= k < |fs|
      ensures fs[k].component in specs && Back(files, base, Target(specs[fs[k].component].target))
    {
      var i := PlanCovers(specs, r, plan, fs[k]);
      assert Back(files, base, Target(plan.components[i].target));
    }
  }

  lemma NewIsSigned(specs: map<string, Spec>, p: Platform, o: Order, plan: StagePlan, files: Files)
    requires SignedPlan(specs, p, o, plan) && AllNew(files, plan.components)
    ensures InstalledAsSigned(specs, p, o, files)
  {
    var bytes, r := OpenPlan(specs, p, o, plan);
    PlanInstalled(specs, r, plan, files);
  }

  lemma BackIsSigned(specs: map<string, Spec>, p: Platform, o: Order, plan: StagePlan, files: Files, base: Files)
    requires SignedPlan(specs, p, o, plan) && AllBack(files, base, plan.components)
    ensures NothingInstalled(specs, p, o, files, base)
  {
    var bytes, r := OpenPlan(specs, p, o, plan);
    PlanBack(specs, r, plan, files, base);
  }
}
