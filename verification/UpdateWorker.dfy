/**
 * The update worker (clientupdate/worker.go) as a program on a machine. Every
 * durable write it makes moves the machine's trace by one step of the protocol;
 * an I/O error or a crash may fall between any two of them.
 */
module UpdateWorker {
  import opened Strings
  import opened Components
  import opened Disks
  import opened Restore
  import opened Transaction
  import opened Install
  import opened Packages
  import opened Signing
  import opened Staging
  import opened Rollback
  import opened Jobs
  import opened Protocol
  import opened Moves
  import opened World
  import Versions

  // ----- files --------------------------------------------------------------------------------

  /** writeWorkerJournal: atomic, but a failing directory sync is reported after the rename. */
  method WriteJournal(m: Machine, j: Journal) returns (r: Outcome, ghost written: bool)
    modifies m`journal
    ensures m.disk.calm ==> r.Ok?
    ensures r.Ok? ==> written
    ensures m.journal == if written then Some(j) else old(m.journal)
  {
    written := false;
    r := m.disk.Step();
    if r.Ok? {
      m.journal, written := Some(j), true;
      r := m.disk.Step();
    }
  }

  /** writeWorkerFile of the installed version. */
  method WriteFloor(m: Machine, version: string) returns (r: Outcome, ghost written: bool)
    modifies m`floor
    ensures m.disk.calm ==> r.Ok?
    ensures r.Ok? ==> written
    ensures m.floor == if written then Some(version) else old(m.floor)
  {
    written := false;
    r := m.disk.Step();
    if r.Ok? {
      m.floor, written := Some(version), true;
      r := m.disk.Step();
    }
  }

  /** os.Remove of the journal. */
  method RemoveJournal(m: Machine) returns (r: Outcome)
    modifies m`journal
    ensures m.journal == if r.Ok? then None else old(m.journal)
    ensures m.disk.calm ==> r.Ok?
  {
    r := m.disk.Step();
    if r.Ok? {
      m.journal := None;
    }
  }

  /** Forgets a job that was only prepared, or whose result the server has. */
  method ForgetJob(m: Machine) returns (r: Outcome)
    requires m.Valid() && Forgettable(m.owner)
    modifies m`journal, m`owner, m`work, m`begun, m`records, m`released, m`trace
    ensures m.Valid() && Grew(old(m.trace), m.trace) && m.begun == old(m.begun)
    ensures m.disk.calm ==> r.Ok?
    ensures m.journal == if r.Ok? then None else old(m.journal)
  {
    ghost var next := m.Now().(journal := None, owner := Nobody);
    ForgetNext(m.runs, m.config, m.trace, m.Now());
    r := RemoveJournal(m);
    if r.Ok? {
      m.Arrive(next);
    }
  }

  /** What a run of the worker depends on, besides its journal. */
  datatype View = View(
    config: Config, catalog: map<string, Approval>, clients: map<string, Client>, calm: bool, healthy: bool, table: Table,
    disk: Image, stages: set<string>, transactionTemp: bool, stateTemp: bool, floor: Option<string>)

  ghost function Sight(m: Machine): View
    reads m, m.disk, m.store
  {
    View(m.config, m.catalog, m.store.clients, m.disk.calm, m.disk.healthy, m.store.Now(),
         m.disk.Now(), m.disk.stages, m.disk.transactionTemp, m.disk.stateTemp, m.floor)
  }

  /** The server answers this client, and no message gets lost. */
  ghost predicate Connected(m: Machine)
    reads m.store`clients
  {
    m.quiet && Available(m.store.clients, m.config.me)
  }

  /** And neither disk nor services fail. */
  ghost predicate Friendly(m: Machine)
    reads m.store`clients
  {
    Connected(m) && m.disk.calm && m.disk.healthy
  }

  /** Writes a final phase to the journal. */
  method RecordFinal(m: Machine, j: Job, ok: bool, rollback: bool) returns (r: Outcome)
    requires m.Valid() && m.owner.Worker? && Follows(m.runs, m.trace, Recorded(m.Now(), j, ok, rollback))
    modifies m`journal, m`owner, m`work, m`begun, m`records, m`released, m`trace
    ensures m.Valid() && Grew(old(m.trace), m.trace) && m.owner.Worker? && m.begun == old(m.begun)
    ensures m.disk.calm ==> r.Ok?
    ensures r.Ok? ==> m.owner == Worker(Reporting) && m.journal == Some(Journal(j, Finished(ok), rollback))
  {
    ghost var next := Recorded(m.Now(), j, ok, rollback);
    ghost var written;
    r, written := WriteJournal(m, Journal(j, Finished(ok), rollback));
    if written {
      m.Arrive(next);
    }
  }

  /** workerRollback; a rollback that cannot be read counts as unusable. */
  method UsableRollback(m: Machine, j: Job) returns (crashed: bool, usable: bool)
    requires m.disk.specs == m.config.specs
    ensures usable ==> RollbackUsable(m.config, m.disk.Now(), j)
    ensures m.disk.calm ==> !crashed && (usable <==> RollbackUsable(m.config, m.disk.Now(), j))
  {
    var r, manifest := VerifyRollback(m.disk, DirOf(m.config, j.id));
    return r.Crash?, r.Ok? && manifest.forRelease == j.releaseVersion;
  }

  // ----- recovery -------------------------------------------------------------------------------

  /** recoverPendingUpdate under the worker's lock. */
  method RecoverFirst(m: Machine) returns (r: Outcome)
    requires m.Valid() && m.owner == Worker(Locked)
    modifies m`owner, m`work, m`begun, m`records, m`released, m`trace, m.disk`files, m.disk`transaction, m.disk`state, m.disk`stateTemp
    ensures m.Valid() && Grew(old(m.trace), m.trace) && m.begun == old(m.begun)
    ensures r.Ok? ==> m.owner == Worker(Ready)
    ensures old(m.disk.transaction).None? ==> m.disk.Now() == old(m.disk.Now()) && m.disk.stateTemp == old(m.disk.stateTemp) && (m.disk.calm ==> r.Ok?)
  {
    ghost var before := m.Now();
    ghost var known := m.journal.Some? && m.journal.value.job.id in m.work;
    ghost var w := if known then m.work[m.journal.value.job.id] else Work(map[], StagePlan("", "", []));
    r := RecoverPendingUpdate(m.disk, m.config.root, w.plan, w.base);
    ghost var next := before.(disk := m.disk.Now(), owner := if r.Ok? then Worker(Ready) else Nobody);
    assert RecoverRelation(m.config, before, next.disk, r);
    assert WorkerRecovery(m.config, before, next, r);
    DiskFollows(m.runs, m.config, m.trace, before, next);
    m.Arrive(next);
  }

  /** RecoverPendingUpdate by another process, while no worker holds the lock. */
  method RecoverElsewhere(m: Machine) returns (r: Outcome)
    requires m.Valid() && m.owner.Nobody?
    modifies m`owner, m`work, m`begun, m`records, m`released, m`trace, m.disk`files, m.disk`transaction, m.disk`state, m.disk`stateTemp
    ensures m.Valid() && Grew(old(m.trace), m.trace) && m.owner.Nobody?
  {
    ghost var before := m.Now();
    ghost var known := m.journal.Some? && m.journal.value.job.id in m.work;
    ghost var w := if known then m.work[m.journal.value.job.id] else Work(map[], StagePlan("", "", []));
    r := RecoverPendingUpdate(m.disk, m.config.root, w.plan, w.base);
    ghost var next := before.(disk := m.disk.Now());
    assert RecoverRelation(m.config, before, next.disk, r);
    assert OtherRecovery(m.config, before, next, r);
    DiskFollows(m.runs, m.config, m.trace, before, next);
    m.Arrive(next);
  }

  /** An interrupted execution can be undone: it has no snapshot, or a usable one, and nothing stands in the way. */
  ghost predicate Undoable(v: View, j: Job) {
    var dir := DirOf(v.config, j.id);
    dir !in v.disk.dirs
    || (v.healthy && RollbackUsable(v.config, v.disk, j) && Leftovers(v.disk.files, ManifestOf(v.disk, dir).value.files) == {}
        && !v.stateTemp && Versions.Valid(j.releaseVersion))
  }

  /** RunWorker's treatment of a journal found executing, as far as the disk is concerned. */
  method RestoreSnapshot(m: Machine, j: Job) returns (r: Outcome)
    requires GoodTable(m.disk.specs) && m.disk.specs == m.config.specs
    modifies m.disk`files, m.disk`state, m.disk`stateTemp
    ensures RestoreRelation(m.config, old(m.disk.Now()), m.disk.Now(), DirOf(m.config, j.id), j.releaseVersion, r)
    ensures m.disk.calm && Undoable(old(Sight(m)), j) ==> r.Ok?
  {
    var disk, dir := m.disk, DirOf(m.config, j.id);
    ghost var before := disk.Now();
    assert RestoreEffect(m.config.specs, before, before, dir, Fail);
    r := disk.Step();
    if !r.Ok? || dir !in disk.dirs {
      return;
    }
    var manifest;
    r, manifest := VerifyRollback(disk, dir);
    if !r.Ok? {
      return;
    }
    if manifest.forRelease != j.releaseVersion {
      return Fail;
    }
    r := RestoreRollback(disk, dir);
    ghost var restored, q := disk.Now(), r;
    assert RestoreEffect(m.config.specs, before, restored, dir, q);
    if !r.Ok? {
      return;
    }
    r := RunServices(disk);
    if !r.Ok? {
      return;
    }
    r := WriteUpdateState(disk, UpdateState(j.releaseVersion, Failure));
  }

  method ResumeExecuting(m: Machine) returns (r: Outcome)
    requires m.Valid() && m.owner == Worker(Ready) && m.journal.Some? && m.journal.value.phase.Executing?
    modifies m`owner, m`work, m`begun, m`records, m`released, m`trace, m.disk`files, m.disk`state, m.disk`stateTemp
    ensures m.Valid() && Grew(old(m.trace), m.trace)
    ensures m.disk.calm && Undoable(old(Sight(m)), m.journal.value.job) ==> r.Ok?
    ensures r.Ok? ==> m.owner == Worker(Restored)
  {
    ghost var before := m.Now();
    r := RestoreSnapshot(m, m.journal.value.job);
    ghost var next := before.(disk := m.disk.Now(), owner := if r.Ok? then Worker(Restored) else Nobody);
    assert RestoreInterrupted(m.config, before, next, r);
    DiskFollows(m.runs, m.config, m.trace, before, next);
    m.Arrive(next);
  }

  /** The failed result of an interrupted execution goes to the journal. */
  method RecordRestored(m: Machine) returns (r: Outcome)
    requires m.Valid() && m.owner == Worker(Restored) && m.journal.Some?
    modifies m`journal, m`owner, m`work, m`begun, m`records, m`released, m`trace
    ensures m.Valid() && Grew(old(m.trace), m.trace) && m.owner.Worker?
    ensures m.disk.calm ==> r.Ok?
    ensures r.Ok? ==> m.owner == Worker(Reporting) && m.journal.Some? && m.journal.value.phase == Finished(false) && m.journal.value.job == old(m.journal).value.job
  {
    var j := m.journal.value.job;
    var crashed, usable := UsableRollback(m, j);
    if crashed {
      return Crash;
    }
    assert RecordInterrupted(m.config, m.Now(), Recorded(m.Now(), j, false, usable), usable);
    JournalFollows(m.runs, m.config, m.trace, m.Now(), Recorded(m.Now(), j, false, usable));
    r := RecordFinal(m, j, false, usable);
  }

  // ----- polling -----------------------------------------------------------------------------------

  predicate Viewed(v: View) { true }

  /** The server offers this job to a poll at `at`, and the worker takes it. Looked into only where the view is mentioned. */
  ghost predicate Offers(v: View, j: Job, at: int) {
    forall w {:trigger Viewed(w)} :: Viewed(w) && w == v ==>
      exists id :: OnlyOpen(w.table, w.clients, w.config.me, id) && w.table.jobs[id] == j && Offerable(w.catalog, j, at) && ValidRemote(w.config, j)
  }

  /** validRemoteJob. */
  method CheckRemote(c: Config, j: Job) returns (ok: bool)
    ensures ok <==> ValidRemote(c, j)
  {
    if j.client != c.me || !ValidIdentifier(j.id) || !ValidIdentifier(j.releaseId) || !ValidDigest(j.packageSha) {
      return false;
    }
    var valid := Versions.ValidVersion(j.releaseVersion);
    return valid && j.window.expiresAt > j.window.notBefore && j.window.expiresAt - j.window.notBefore <= 86_400
      && (j.state == Scheduled || j.state == Dispatched);
  }

  /** Polls the server; the request or its answer may be lost. */
  method Poll(m: Machine, at: int) returns (r: Outcome, answer: Option<Job>)
    requires m.Valid() && m.owner == Worker(Polling)
    modifies m`owner, m`trace, m.store`jobs, m.store`audit
    ensures m.Valid() && Grew(old(m.trace), m.trace) && m.owner.Worker?
    ensures answer.Some? ==> r.Ok? && m.owner == Worker(PollAnswer(answer.value)) && ValidRemote(m.config, answer.value)
    ensures m.quiet ==> forall j :: Offers(old(Sight(m)), j, at) ==> answer == Some(j) && m.store.Now() == old(m.store.Now())
  {
    assert Viewed(Sight(m));
    m.Elsewhere();
    var lost, addressValid := m.Transmit();
    if lost {
      return Fail, None;
    }
    ghost var t := m.trace;
    var status;
    status, answer := m.PollClientUpdate(addressValid, at);
    Grown(old(m.trace), t, m.trace);
    lost, addressValid := m.Transmit();
    if lost {
      return Fail, None;
    }
    if answer.Some? {
      var valid := CheckRemote(m.config, answer.value);
      if !valid {
        return Fail, None;
      }
    }
    return if answer.Some? || status.NoContent? then Ok else Fail, answer;
  }

  /** A job that was dispatched before is reported failed, never executed. */
  method ReportDispatched(m: Machine, j: Job) returns (r: Outcome)
    requires m.Valid() && m.owner == Worker(PollAnswer(j)) && ValidRemote(m.config, j) && j.state.Dispatched?
    modifies m`journal, m`owner, m`work, m`begun, m`records, m`released, m`trace
    ensures m.Valid() && Grew(old(m.trace), m.trace) && m.owner.Worker? && m.begun == old(m.begun)
    ensures m.disk.calm ==> r.Ok?
    ensures r.Ok? ==> m.owner == Worker(Reporting) && m.journal.Some? && m.journal.value.phase == Finished(false) && m.journal.value.job == j
  {
    var crashed, usable := UsableRollback(m, j);
    if crashed {
      return Crash;
    }
    assert TakeJob(m.config, m.Now(), Recorded(m.Now(), j, false, usable), usable);
    JournalFollows(m.runs, m.config, m.trace, m.Now(), Recorded(m.Now(), j, false, usable));
    r := RecordFinal(m, j, false, usable);
  }

  method PrepareJournal(m: Machine, j: Job) returns (r: Outcome)
    requires m.Valid() && m.owner.Worker?
    requires Follows(m.runs, m.trace, m.Now().(journal := Some(Journal(j, Prepared, false)), owner := Worker(Preparing)))
    modifies m`journal, m`owner, m`work, m`begun, m`records, m`released, m`trace
    ensures m.Valid() && Grew(old(m.trace), m.trace) && m.begun == old(m.begun) && m.owner.Worker?
    ensures m.disk.calm ==> r.Ok?
    ensures r.Ok? ==> m.owner == Worker(Preparing) && m.journal == Some(Journal(j, Prepared, false))
  {
    var journal := Journal(j, Prepared, false);
    ghost var next := m.Now().(journal := Some(journal), owner := Worker(Preparing));
    ghost var written;
    r, written := WriteJournal(m, journal);
    if written {
      m.Arrive(next);
    }
  }

  // ----- the installed version ------------------------------------------------------------------------

  /** The floor's part of workerInstalledVersion. */
  method ReadInstalled(m: Machine) returns (r: Outcome, current: string)
    requires Versions.Valid(m.config.build)
    ensures r.Ok? ==> current == Current(m.config.build, m.floor) && Versions.Valid(current)
    ensures m.disk.calm && (m.floor.Some? ==> Versions.Valid(m.floor.value)) ==> r.Ok?
  {
    current := m.config.build;
    r := m.disk.Step();
    if !r.Ok? || m.floor.None? {
      return;
    }
    var saved := m.floor.value;
    var valid := Versions.ValidVersion(saved);
    if !valid {
      return Fail, current;
    }
    current := LaterOf(saved, current);
  }

  method LaterOf(saved: string, current: string) returns (later: string)
    requires Versions.Valid(saved) && Versions.Valid(current)
    ensures later == (if Newer(saved, current) then saved else current) && Versions.Valid(later)
  {
    var order := Versions.CompareVersions(saved, current);
    return if order > 0 then saved else current;
  }

  /** The update state's part: whether it tells of a release newer than `current`. */
  method StateIsNewer(m: Machine, current: string) returns (r: Outcome, newer: bool)
    requires current == Current(m.config.build, m.floor) && Versions.Valid(current)
    ensures r.Ok? ==> (newer <==> Unsynced(m.config.build, m.floor, m.disk.state))
    ensures m.disk.calm && (m.disk.state.Some? ==> Versions.Valid(m.disk.state.value.version)) ==> r.Ok?
  {
    newer := false;
    r := m.disk.Step();
    if !r.Ok? || m.disk.state.None? {
      return;
    }
    var state := m.disk.state.value;
    var valid := Versions.ValidVersion(state.version);
    if !valid {
      return Fail, false;
    }
    if state.status.Success? {
      var order := Versions.CompareVersions(state.version, current);
      newer := order > 0;
    }
  }

  /** Saves a version as the floor. */
  method SaveVersion(m: Machine, version: string, ghost to: Owner) returns (r: Outcome)
    requires m.Valid() && m.owner.Worker? && to.Worker? && Follows(m.runs, m.trace, m.Now().(floor := Some(version), owner := to))
    modifies m`floor, m`owner, m`work, m`begun, m`records, m`released, m`trace
    ensures m.Valid() && Grew(old(m.trace), m.trace) && m.begun == old(m.begun) && m.owner.Worker?
    ensures m.disk.calm ==> r.Ok?
    ensures r.Ok? ==> m.floor == Some(version) && m.owner == to
  {
    ghost var next := m.Now().(floor := Some(version), owner := to);
    ghost var written;
    r, written := WriteFloor(m, version);
    if written {
      m.Arrive(next);
    }
  }

  method ReadVersions(m: Machine) returns (r: Outcome, current: string, newer: bool)
    requires Versions.Valid(m.config.build)
    ensures r.Ok? ==> Reading(m.config.build, m.floor, m.disk.state, current, newer)
    ensures r.Ok? && newer ==> m.disk.state.Some?
    ensures m.disk.calm && Moves.Readable(m.floor, m.disk.state) ==> r.Ok?
  {
    if Moves.Readable(m.floor, m.disk.state) {
      assert m.floor.Some? ==> Asked(m.floor.value);
      assert m.disk.state.Some? ==> Asked(m.disk.state.value.version);
    }
    newer := false;
    r, current := ReadInstalled(m);
    if r.Ok? {
      r, newer := StateIsNewer(m, current);
    }
  }

  /** workerInstalledVersion. */
  method InstalledVersion(m: Machine) returns (r: Outcome, current: string)
    requires m.Valid() && Consulting(m.Now())
    modifies m`floor, m`owner, m`work, m`begun, m`records, m`released, m`trace
    ensures m.Valid() && Grew(old(m.trace), m.trace) && m.begun == old(m.begun) && m.owner.Worker?
    ensures r.Ok? ==> m.owner == old(m.owner) && Reading(m.config.build, m.floor, m.disk.state, current, false)
    ensures r.Ok? ==> Finds(m.config.build, old(m.floor), m.disk.state, current)
    ensures m.disk.calm && Moves.Readable(old(m.floor), m.disk.state) ==> r.Ok?
  {
    var newer;
    r, current, newer := ReadVersions(m);
    if !r.Ok? {
      return;
    }
    ReadingFinds(m.config.build, m.floor, m.disk.state, current, newer);
    if !newer {
      return;
    }
    var version := m.disk.state.value.version;
    SyncNext(m.runs, m.config, m.trace, m.Now(), current, version);
    r := SaveVersion(m, version, m.owner);
    current := version;
  }

  // ----- preparation ----------------------------------------------------------------------------------

  /** Whatever index the archive has, its signed manifest is for this release and stable. */
  ghost predicate ForRelease(crypto: Crypto, es: seq<Entry>, release: string) {
    EntriesSafe(es) && forall index :: Indexes(index, es) ==> IsFor(SignedManifest(crypto, index), release)
  }

  predicate IsFor(m: Option<Manifest>, release: string) {
    m.Some? && m.value.releaseVersion == release && m.value.channel == "stable"
  }

  /** RunWorker's own check of the package, before it stages it. */
  method ApprovePackage(m: Machine, es: seq<Entry>, current: string, release: string) returns (ok: bool)
    ensures ok ==> ForRelease(m.config.platform.crypto, es, release)
    ensures forall man :: Acceptable(m.disk.specs, m.config.platform.crypto, es, m.config.platform.architecture, current, man) && man.releaseVersion == release && man.channel == "stable" ==> ok
  {
    var p := m.config.platform;
    var verified := VerifyPackage(m.disk.specs, p.crypto, es, p.architecture, current);
    forall man | verified.Some? && Acceptable(m.disk.specs, p.crypto, es, p.architecture, current, man)
      ensures man == verified.value.manifest
    {
      SignedInUnique(p.crypto, es, man, verified.value.manifest);
    }
    if verified.None? || verified.value.manifest.channel != "stable" || verified.value.manifest.releaseVersion != release {
      return false;
    }
    forall index | Indexes(index, es)
      ensures index == verified.value.index
    {
      IndexUnique(index, verified.value.index, es);
    }
    return true;
  }

  /** The staged plan is for the approved release, which is newer than the installed version. */
  lemma VerifiedPlan(specs: map<string, Spec>, p: Platform, es: seq<Entry>, current: string, staged: Release, plan: StagePlan, release: string)
    requires ForRelease(p.crypto, es, release) && Versions.Valid(current)
    requires Indexes(staged.index, es) && IsRelease(specs, p.crypto, staged, p.architecture, current) && PlanFor(specs, staged.manifest, plan)
    ensures plan.releaseVersion == release && Behind(current, release)
  {
    assert Split(Versions.CorePart(""), '.') == [""];
  }

  /** And it comes from the package with the ordered digest. */
  lemma OrderedPlan(specs: map<string, Spec>, p: Platform, o: Order, bytes: Bytes, current: string, staged: Release, plan: StagePlan)
    requires p.sha(bytes) == o.sha && p.unzip(bytes).Some? && ForRelease(p.crypto, p.unzip(bytes).value, o.release)
    requires Indexes(staged.index, p.unzip(bytes).value) && IsRelease(specs, p.crypto, staged, p.architecture, current)
    requires PlanFor(specs, staged.manifest, plan)
    ensures SignedPlan(specs, p, o, plan)
  {
    SignedExactly(p.crypto, staged.index, p.unzip(bytes).value, staged.manifest);
    assert Delivers(specs, p, o, bytes, staged);
  }

  lemma ReadingIsValid(build: string, floor: Option<string>, state: Option<UpdateState>, current: string)
    requires Reading(build, floor, state, current, false)
    ensures Versions.Valid(current)
  {
    assert Asked(build);
  }

  /** The plan is complete, and its maintenance is allowed. */
  ghost predicate Suited(plan: StagePlan, maintenance: bool) {
    forall x {:trigger Cited(x)} :: Cited(x) && x == plan ==> PlanComplete(x) && (RequiresLightDM(x.components) ==> maintenance)
  }


  lemma AcceptedIsGood(specs: map<string, Spec>, p: Platform, es: seq<Entry>, current: string, man: Manifest)
    requires Acceptable(specs, p.crypto, es, p.architecture, current, man)
    ensures PackageGood(specs, p.crypto, es, p.architecture, current)
  {
    var index := IndexOfEntries(es);
    AcceptableExactly(specs, p.crypto, index, es, p.architecture, current, man);
  }

  lemma SuitsPlan(specs: map<string, Spec>, p: Platform, o: Order, bytes: Bytes, current: string, maintenance: bool, man: Manifest, staged: Release, plan: StagePlan)
    requires Suits(specs, p, o, bytes, current, maintenance, man) && Indexes(staged.index, p.unzip(bytes).value)
    requires IsRelease(specs, p.crypto, staged, p.architecture, current) && PlanFor(specs, staged.manifest, plan)
    ensures Suited(plan, maintenance)
  {
    SignedExactly(p.crypto, staged.index, p.unzip(bytes).value, staged.manifest);
    SignedInUnique(p.crypto, p.unzip(bytes).value, man, staged.manifest);
    SuitablePlan(specs, staged, plan, maintenance);
  }

  /** VerifyAndStage of an approved package. */
  method StageApproved(m: Machine, stage: string, bytes: Bytes, current: string, o: Order) returns (r: Outcome, plan: StagePlan)
    requires m.disk.specs == m.config.specs && Versions.Valid(current)
    requires var p := m.config.platform; p.sha(bytes) == o.sha && p.unzip(bytes).Some? && ForRelease(p.crypto, p.unzip(bytes).value, o.release)
    modifies m.disk`files, m.disk`stages, m.disk`plans
    ensures Agree(m.disk.files, old(m.disk.files), PayloadsIn(stage) + PayloadsIn(Temporary(stage)))
    ensures r.Ok? ==> plan.releaseVersion == o.release && Behind(current, o.release) && SignedPlan(m.config.specs, m.config.platform, o, plan)
    ensures r.Ok? ==> stage in m.disk.plans && m.disk.plans[stage] == plan
    ensures r.Ok? ==> PayloadsGood(m.disk.specs, m.disk.files, stage, plan.components)
    ensures forall maintenance, man :: Suits(m.config.specs, m.config.platform, o, bytes, current, maintenance, man) && m.disk.calm && old(StageFree(m.disk, stage)) ==> r.Ok?
    ensures forall maintenance, man :: Suits(m.config.specs, m.config.platform, o, bytes, current, maintenance, man) && r.Ok? ==> Suited(plan, maintenance)
  {
    var p := m.config.platform;
    var es := p.unzip(bytes).value;
    var staged;
    r, staged, plan := VerifyAndStage(m.disk, p.crypto, es, p.architecture, current, stage);
    forall maintenance, man | Suits(m.config.specs, p, o, bytes, current, maintenance, man)
      ensures PackageGood(m.config.specs, p.crypto, es, p.architecture, current)
      ensures r.Ok? ==> Suited(plan, maintenance)
    {
      AcceptedIsGood(m.config.specs, p, es, current, man);
      if r.Ok? {
        SuitsPlan(m.config.specs, p, o, bytes, current, maintenance, man, staged.value, plan);
      }
    }
    if r.Ok? {
      VerifiedPlan(m.config.specs, p, es, current, staged.value, plan, o.release);
      OrderedPlan(m.config.specs, p, o, bytes, current, staged.value, plan);
    }
  }

  /** Verification and staging, as far as the disk is concerned. */
  method VerifyTwice(m: Machine, stage: string, bytes: Bytes, current: string, o: Order) returns (r: Outcome, plan: StagePlan)
    requires m.disk.specs == m.config.specs && m.config.platform.sha(bytes) == o.sha
    requires Reading(m.config.build, m.floor, m.disk.state, current, false)
    modifies m.disk`files, m.disk`stages, m.disk`plans
    ensures Agree(m.disk.files, old(m.disk.files), PayloadsIn(stage) + PayloadsIn(Temporary(stage)))
    ensures r.Ok? ==> plan.releaseVersion == o.release && Behind(current, o.release) && SignedPlan(m.config.specs, m.config.platform, o, plan)
    ensures r.Ok? ==> stage in m.disk.plans && m.disk.plans[stage] == plan
    ensures r.Ok? ==> PayloadsGood(m.disk.specs, m.disk.files, stage, plan.components)
    ensures forall maintenance, man :: Suits(m.config.specs, m.config.platform, o, bytes, current, maintenance, man) && m.disk.calm && old(StageFree(m.disk, stage)) ==> r.Ok?
    ensures forall maintenance, man :: Suits(m.config.specs, m.config.platform, o, bytes, current, maintenance, man) && r.Ok? ==> Suited(plan, maintenance)
  {
    plan := StagePlan("", "", []);
    var entries := m.config.platform.unzip(bytes);
    if entries.None? {
      return Fail, plan;
    }
    var approved := ApprovePackage(m, entries.value, current, o.release);
    if !approved {
      return Fail, plan;
    }
    ReadingIsValid(m.config.build, m.floor, m.disk.state, current);
    r, plan := StageApproved(m, stage, bytes, current, o);
  }

  /** The bytes suit the job for a client of version `current`. Looked into only where the version is asked for. */
  ghost predicate Expected(c: Config, j: Job, bytes: Bytes, current: string) {
    forall v {:trigger Asked(v)} :: Asked(v) && v == current ==>
      exists man :: Suits(c.specs, c.platform, OrderOf(j), bytes, v, j.window.maintenance, man)
  }

  /** The same for the version the client's files tell. */
  ghost predicate Promised(c: Config, j: Job, bytes: Bytes, floor: Option<string>, state: Option<UpdateState>) {
    forall b {:trigger Asked(b)} :: Asked(b) && b == c.build ==>
      exists man :: Suits(c.specs, c.platform, OrderOf(j), bytes, Newest(b, floor, state), j.window.maintenance, man)
  }

  lemma PromiseKept(c: Config, j: Job, bytes: Bytes, floor: Option<string>, state: Option<UpdateState>, current: string)
    requires Promised(c, j, bytes, floor, state) && Finds(c.build, floor, state, current)
    ensures Expected(c, j, bytes, current)
  {
    assert Asked(c.build);
  }

  method StagePackage(m: Machine, stage: string, bytes: Bytes, current: string) returns (r: Outcome, plan: StagePlan)
    requires m.Valid() && m.owner == Worker(Preparing) && m.journal.Some? && m.config.platform.sha(bytes) == m.journal.value.job.packageSha
    requires Reading(m.config.build, m.floor, m.disk.state, current, false)
    modifies m`owner, m`work, m`begun, m`records, m`released, m`trace, m.disk`files, m.disk`stages, m.disk`plans
    ensures m.Valid() && Grew(old(m.trace), m.trace) && m.begun == old(m.begun)
    ensures r.Ok? ==> m.owner == Worker(Verified(plan, stage)) && stage in m.disk.plans && m.disk.plans[stage] == plan
    ensures r.Ok? ==> PlanFrom(m.config, m.journal.value.job, plan) && plan.releaseVersion == m.journal.value.job.releaseVersion
    ensures Agree(m.disk.files, old(m.disk.files), PayloadsIn(stage) + PayloadsIn(Temporary(stage)))
    ensures r.Ok? ==> PayloadsGood(m.disk.specs, m.disk.files, stage, plan.components)
    ensures Expected(m.config, m.journal.value.job, bytes, current) ==> (m.disk.calm && old(StageFree(m.disk, stage)) ==> r.Ok?) && (r.Ok? ==> Suited(plan, m.journal.value.job.window.maintenance))
  {
    ghost var before := m.Now();
    r, plan := VerifyTwice(m, stage, bytes, current, OrderOf(m.journal.value.job));
    if Expected(m.config, m.journal.value.job, bytes, current) {
      assert Asked(current);
    }
    ghost var next := before.(disk := m.disk.Now(), owner := if r.Ok? then Worker(Verified(plan, stage)) else Nobody);
    if r.Ok? {
      StagedNext(m.runs, m.config, m.trace, before, next, plan, stage, current);
    } else {
      assert StageFailed(before, next, stage);
      DiskFollows(m.runs, m.config, m.trace, before, next);
    }
    m.Arrive(next);
  }

  // ----- starting --------------------------------------------------------------------------------------

  /** Sends a request: from now on the network may deliver it, and deliver it again. */
  method SendStartRequest(m: Machine, id: string, ghost plan: StagePlan, ghost stage: string)
    requires m.Valid() && m.owner == Worker(Verified(plan, stage)) && m.journal.Some? && m.journal.value.job.id == id
    modifies m`net, m`owner, m`work, m`begun, m`records, m`released, m`trace
    ensures m.Valid() && Grew(old(m.trace), m.trace) && Start(id) in m.net && m.owner == Worker(StartSent(plan, stage)) && m.begun == old(m.begun)
  {
    ghost var before := m.Now();
    m.net := m.net + {Start(id)};
    ghost var next := before.(net := m.net, owner := Worker(StartSent(plan, stage)));
    LocalFollows(m.runs, m.config, m.trace, before, next);
    m.Arrive(next);
  }

  /** The server grants a start asked for at `at`. */
  ghost predicate Grants(m: Machine, id: string, at: int)
    reads m.store
  {
    Startable(m.store.Now(), m.catalog, m.config.me, id, at)
  }

  /** Asks the server to start; request and answer may be lost. */
  method AskStart(m: Machine, id: string, ghost plan: StagePlan, ghost stage: string, at: int) returns (r: Outcome, status: Reply)
    requires m.Valid() && m.owner == Worker(Verified(plan, stage)) && m.journal.Some? && m.journal.value.job.id == id
    modifies m`net, m`owner, m`work, m`begun, m`records, m`released, m`trace, m.store`jobs, m.store`audit
    ensures m.Valid() && Grew(old(m.trace), m.trace) && m.owner.Worker? && m.begun == old(m.begun)
    ensures r.Ok? && !status.Unauthorized? ==> m.owner == Worker(StartAnswer(plan, stage, status.NoContent?))
    ensures !status.Done? && (Connected(m) ==> r.Ok? && !status.Unauthorized? && (status.NoContent? <==> old(Grants(m, id, at))))
  {
    SendStartRequest(m, id, plan, stage);
    ghost var t := m.trace;
    r, status := AwaitStart(m, id, plan, stage, at);
    Grown(old(m.trace), t, m.trace);
  }

  method AwaitStart(m: Machine, id: string, ghost plan: StagePlan, ghost stage: string, at: int) returns (r: Outcome, status: Reply)
    requires m.Valid() && m.owner == Worker(StartSent(plan, stage)) && Start(id) in m.net && m.journal.Some? && m.journal.value.job.id == id
    modifies m`owner, m`trace, m.store`jobs, m.store`audit
    ensures m.Valid() && Grew(old(m.trace), m.trace) && m.owner.Worker?
    ensures r.Ok? && !status.Unauthorized? ==> m.owner == Worker(StartAnswer(plan, stage, status.NoContent?))
    ensures !status.Done? && (Connected(m) ==> r.Ok? && !status.Unauthorized? && (status.NoContent? <==> old(Grants(m, id, at))))
  {
    m.Elsewhere();
    status := Unauthorized;
    var lost, addressValid := m.Transmit();
    if lost {
      return Fail, status;
    }
    ghost var t := m.trace;
    var unanswered, _ := m.Transmit();
    if unanswered {
      status := m.StartClientUpdate(id, addressValid, at, false);
      r := Fail;
    } else {
      status := m.StartClientUpdate(id, addressValid, at, true);
      r := Ok;
    }
    Grown(old(m.trace), t, m.trace);
  }

  /** The executing journal is written before the first possible change of a target. */
  method BeginExecution(m: Machine, ghost plan: StagePlan, ghost stage: string) returns (r: Outcome)
    requires m.Valid() && m.owner == Worker(StartAnswer(plan, stage, true)) && m.journal.Some?
    modifies m`journal, m`owner, m`work, m`begun, m`records, m`released, m`trace
    ensures m.Valid() && Grew(old(m.trace), m.trace) && m.owner.Worker? && m.begun == old(m.begun)
    ensures m.disk.calm ==> r.Ok?
    ensures r.Ok? ==> m.owner == Worker(Begun(plan, stage)) && m.journal == Some(old(m.journal).value.(phase := Executing))
  {
    var j := m.journal.value;
    ghost var next := m.Now().(journal := Some(j.(phase := Executing)), work := m.work[j.job.id := Work(m.disk.files, plan)], owner := Worker(Begun(plan, stage)));
    JournalFollows(m.runs, m.config, m.trace, m.Now(), next);
    ghost var written;
    r, written := WriteJournal(m, j.(phase := Executing));
    if written {
      m.Arrive(next);
    }
  }

  /** What is staged can be installed. Looked into only where the stage is asked for. */
  ghost predicate Installs(m: Machine, j: Job, stage: string, now: int)
    reads m.disk
  {
    forall s {:trigger Asked(s)} :: Asked(s) && s == stage ==> Installable(m.disk, s, DirOf(m.config, j.id), now, j.window.maintenance)
  }

  /** The installation itself. */
  method InstallJob(m: Machine, plan: StagePlan, stage: string, now: int) returns (r: Outcome)
    requires m.Valid() && m.owner == Worker(Begun(plan, stage)) && m.journal.Some?
    requires stage in m.disk.plans && m.disk.plans[stage] == plan
    modifies m`owner, m`work, m`begun, m`records, m`released, m`trace
    modifies m.disk`files, m.disk`dirs, m.disk`manifests, m.disk`transaction, m.disk`transactionTemp, m.disk`state, m.disk`stateTemp
    ensures m.Valid() && Grew(old(m.trace), m.trace)
    ensures !r.Crash? ==> m.owner == Worker(Installed(r.Ok?))
    ensures m.begun == old(m.begun) + [m.journal.value.job.id]
    ensures r.Ok? ==> AllNew(m.disk.files, plan.components) && m.disk.transaction.None?
    ensures m.disk.calm ==> !r.Crash?
    ensures m.disk.calm && m.disk.healthy && old(Installs(m, m.journal.value.job, stage, now)) ==> r.Ok?
  {
    ghost var before := m.Now();
    var j := m.journal.value.job;
    assert Asked(stage);
    r := InstallStaged(m.disk, stage, DirOf(m.config, j.id), now, j.window.maintenance);
    ghost var next := before.(disk := m.disk.Now(), begun := m.begun + [j.id], owner := if r.Crash? then Nobody else Worker(Installed(r.Ok?)));
    assert RunInstall(m.config, before, next, now, r);
    DiskFollows(m.runs, m.config, m.trace, before, next);
    m.Arrive(next);
  }

  /** Nothing is recorded while a transaction is pending. */
  method RecordInstalled(m: Machine, ok: bool) returns (r: Outcome)
    requires m.Valid() && m.owner == Worker(Installed(ok)) && m.journal.Some?
    modifies m`journal, m`owner, m`work, m`begun, m`records, m`released, m`trace
    ensures m.Valid() && Grew(old(m.trace), m.trace) && m.owner.Worker? && m.begun == old(m.begun)
    ensures m.disk.calm ==> (r.Ok? <==> m.disk.transaction.None?)
    ensures r.Ok? ==> m.owner == Worker(Reporting) && m.journal.Some? && m.journal.value.phase == Finished(ok) && m.journal.value.job == old(m.journal).value.job
  {
    r := m.disk.Step();
    if !r.Ok? {
      return;
    }
    if m.disk.transaction.Some? {
      return Fail;
    }
    var j := m.journal.value.job;
    var crashed, usable := UsableRollback(m, j);
    if crashed {
      return Crash;
    }
    assert RecordResult(m.config, m.Now(), Recorded(m.Now(), j, ok, usable), usable);
    JournalFollows(m.runs, m.config, m.trace, m.Now(), Recorded(m.Now(), j, ok, usable));
    r := RecordFinal(m, j, ok, usable);
  }

  // ----- reporting -----------------------------------------------------------------------------------------

  method CompareRelease(release: string, current: string) returns (newer: bool)
    requires Versions.Valid(release) && Versions.Valid(current)
    ensures Compared(release, current, newer)
  {
    var order := Versions.CompareVersions(release, current);
    return order > 0;
  }

  method IsNewerRelease(m: Machine, current: string) returns (newer: bool)
    requires m.Valid() && m.journal.Some? && Reading(m.config.build, m.floor, m.disk.state, current, false)
    ensures Compared(m.journal.value.job.releaseVersion, current, newer)
  {
    JournalVersionValid(m.runs, m.config, m.trace, m.Now());
    ReadingIsValid(m.config.build, m.floor, m.disk.state, current);
    newer := CompareRelease(m.journal.value.job.releaseVersion, current);
  }

  /** finishWorker's first half for a success: the release becomes the floor if it is newer. */
  method SaveSuccess(m: Machine, current: string) returns (r: Outcome)
    requires m.Valid() && m.owner == Worker(Reporting) && m.journal.Some? && m.journal.value.phase == Finished(true)
    requires Reading(m.config.build, m.floor, m.disk.state, current, false)
    modifies m`floor, m`owner, m`work, m`begun, m`records, m`released, m`trace
    ensures m.Valid() && Grew(old(m.trace), m.trace) && m.owner.Worker? && m.begun == old(m.begun)
    ensures m.disk.calm ==> r.Ok?
    ensures r.Ok? ==> m.owner == Worker(Saved)
  {
    var newer := IsNewerRelease(m, current);
    SucceededNext(m.runs, m.config, m.trace, m.Now(), current, newer);
    if newer {
      r := SaveVersion(m, m.journal.value.job.releaseVersion, Worker(Saved));
    } else {
      m.Arrive(m.Now().(floor := m.floor, owner := Worker(Saved)));
      r := Ok;
    }
  }

  method SaveResult(m: Machine) returns (r: Outcome)
    requires m.Valid() && m.owner == Worker(Reporting) && m.journal.Some? && m.journal.value.phase.Finished?
    modifies m`floor, m`owner, m`work, m`begun, m`records, m`released, m`trace
    ensures m.Valid() && Grew(old(m.trace), m.trace) && m.owner.Worker? && m.begun == old(m.begun)
    ensures m.disk.calm ==> r.Ok?
    ensures r.Ok? ==> m.owner == Worker(Saved) && (m.journal.value.phase.ok ==> m.floor == Some(m.journal.value.job.releaseVersion))
  {
    if m.journal.value.phase.ok {
      SucceededIsReadable(m.runs, m.config, m.trace, m.Now());
      var current;
      r, current := InstalledVersion(m);
      if r.Ok? {
        ghost var t := m.trace;
        r := SaveSuccess(m, current);
        Grown(old(m.trace), t, m.trace);
        if r.Ok? {
          SavedIsRelease(m.runs, m.config, m.trace, m.Now());
        }
      }
    } else {
      FailedNext(m.runs, m.config, m.trace, m.Now());
      m.Arrive(m.Now().(owner := Worker(Saved)));
      r := Ok;
    }
  }

  method SendResultRequest(m: Machine)
    requires m.Valid() && m.owner == Worker(Saved) && m.journal.Some? && m.journal.value.phase.Finished?
    modifies m`net, m`owner, m`work, m`begun, m`records, m`released, m`trace
    ensures m.Valid() && Grew(old(m.trace), m.trace) && m.owner == Worker(ResultSent) && m.begun == old(m.begun)
    ensures var j := m.journal.value; Result(j.job.id, j.phase.ok, j.rollback) in m.net
  {
    ghost var before := m.Now();
    var j := m.journal.value;
    m.net := m.net + {Result(j.job.id, j.phase.ok, j.rollback)};
    ghost var next := before.(net := m.net, owner := Worker(ResultSent));
    LocalFollows(m.runs, m.config, m.trace, before, next);
    m.Arrive(next);
  }

  /** The job is forgotten, and the server has its result. */
  predicate Reported(t: Table, journal: Option<Journal>, id: string, ok: bool) {
    journal.None? && id in t.jobs && t.jobs[id].state == Outcomes(ok)
  }

  /** Sends the result; the job is forgotten only when the server acknowledged it. */
  method DeliverResult(m: Machine) returns (r: Outcome)
    requires m.Valid() && m.owner == Worker(Saved) && m.journal.Some? && m.journal.value.phase.Finished?
    modifies m`journal, m`net, m`owner, m`work, m`begun, m`records, m`released, m`trace, m.store`jobs, m.store`audit
    ensures m.Valid() && Grew(old(m.trace), m.trace) && m.begun == old(m.begun)
    ensures m.journal.None? || m.journal == old(m.journal)
    ensures r.Ok? ==> Reported(m.store.Now(), m.journal, old(m.journal).value.job.id, old(m.journal).value.phase.ok)
    ensures Connected(m) && m.disk.calm ==> r.Ok?
  {
    r := AskResult(m);
    if r.Ok? {
      ghost var t := m.trace;
      r := ForgetJob(m);
      Grown(old(m.trace), t, m.trace);
    }
  }

  method AskResult(m: Machine) returns (r: Outcome)
    requires m.Valid() && m.owner == Worker(Saved) && m.journal.Some? && m.journal.value.phase.Finished?
    modifies m`net, m`owner, m`work, m`begun, m`records, m`released, m`trace, m.store`jobs, m.store`audit
    ensures m.Valid() && Grew(old(m.trace), m.trace) && m.begun == old(m.begun)
    ensures r.Ok? ==> m.owner == Worker(ResultAnswer(true)) && Settles(m.store.Now(), m.journal.value)
    ensures Connected(m) ==> r.Ok?
  {
    var j := m.journal.value;
    SendResultRequest(m);
    ghost var t := m.trace;
    var status;
    r, status := AwaitAcknowledgement(m, j.job.id, j.phase.ok, j.rollback);
    Grown(old(m.trace), t, m.trace);
    if r.Ok? && !status.NoContent? {
      r := Fail;
    }
  }

  /** The server has the journalled result. */
  predicate Settles(t: Table, j: Journal)
    requires j.phase.Finished?
  {
    j.job.id in t.jobs && t.jobs[j.job.id].state == Outcomes(j.phase.ok)
  }

  method AwaitAcknowledgement(m: Machine, id: string, ok: bool, rollback: bool) returns (r: Outcome, status: Reply)
    requires m.Valid() && m.owner == Worker(ResultSent) && Result(id, ok, rollback) in m.net && Reports(m.journal, id, ok, rollback)
    modifies m`owner, m`trace, m.store`jobs, m.store`audit
    ensures m.Valid() && Grew(old(m.trace), m.trace) && m.owner.Worker?
    ensures r.Ok? && status.NoContent? ==> m.owner == Worker(ResultAnswer(true)) && id in m.store.jobs && m.store.jobs[id].state == Outcomes(ok)
    ensures Connected(m) ==> r.Ok? && status.NoContent?
  {
    m.Elsewhere();
    ResultIsReportable(m.runs, m.config, m.trace, m.Now());
    status := Unauthorized;
    var now: int := *;
    var lost, addressValid := m.Transmit();
    if lost {
      return Fail, status;
    }
    ghost var t := m.trace;
    var unanswered, _ := m.Transmit();
    if unanswered {
      status := m.FinishClientUpdate(id, ok, rollback, addressValid, now, false);
      r := Fail;
    } else {
      status := m.FinishClientUpdate(id, ok, rollback, addressValid, now, true);
      r := Ok;
    }
    Grown(old(m.trace), t, m.trace);
  }

  /** finishWorker. */
  method FinishWorker(m: Machine) returns (r: Outcome)
    requires m.Valid() && m.owner == Worker(Reporting) && m.journal.Some? && m.journal.value.phase.Finished?
    modifies m`journal, m`floor, m`net, m`owner, m`work, m`begun, m`records, m`released, m`trace, m.store`jobs, m.store`audit
    ensures m.Valid() && Grew(old(m.trace), m.trace) && m.begun == old(m.begun)
    ensures m.journal.None? || m.journal == old(m.journal)
    ensures r.Ok? ==> Reported(m.store.Now(), m.journal, old(m.journal).value.job.id, old(m.journal).value.phase.ok)
    ensures r.Ok? && old(m.journal).value.phase.ok ==> m.floor == Some(old(m.journal).value.job.releaseVersion)
    ensures Connected(m) && m.disk.calm ==> r.Ok?
  {
    r := SaveResult(m);
    if r.Ok? {
      ghost var t := m.trace;
      r := DeliverResult(m);
      Grown(old(m.trace), t, m.trace);
    }
  }

  // ----- one run of the worker --------------------------------------------------------------------------

  /**
   * The clock readings of one run: the client's before the download and after
   * staging, the server's when it is polled and when it is asked to start.
   */
  datatype Clocks = Clocks(now: int, later: int, polled: int, started: int)

  /** The job's release is on the disk as signed, is the saved version and is reported to the server, and the job is forgotten. */
  ghost predicate Achieved(v: View, journal: Option<Journal>, j: Job) {
    Reported(v.table, journal, j.id, true) && v.floor == Some(j.releaseVersion)
    && InstalledAsSigned(v.config.specs, v.config.platform, OrderOf(j), v.disk.files)
  }

  /** The installation of the job has begun, and it has a result or is on record for recovery. */
  ghost predicate Carried(m: Machine, begun: seq<string>, id: string)
    reads m, m.disk
  {
    m.begun == begun + [id] && (m.journal.None? || m.journal.value.phase.Finished? || m.disk.transaction.Some?)
  }

  /** From a granted start to the reported result. */
  method ExecuteJob(m: Machine, plan: StagePlan, stage: string, now: int) returns (r: Outcome)
    requires m.Valid() && m.owner == Worker(StartAnswer(plan, stage, true)) && m.journal.Some?
    requires stage in m.disk.plans && m.disk.plans[stage] == plan && PlanFrom(m.config, m.journal.value.job, plan)
    modifies m`journal, m`floor, m`net, m`owner, m`work, m`begun, m`records, m`released, m`trace, m.store`jobs, m.store`audit
    modifies m.disk`files, m.disk`dirs, m.disk`manifests, m.disk`transaction, m.disk`transactionTemp, m.disk`state, m.disk`stateTemp
    ensures m.Valid() && Grew(old(m.trace), m.trace)
    ensures m.disk.calm ==> Carried(m, old(m.begun), old(m.journal).value.job.id)
    ensures Friendly(m) && old(Installs(m, m.journal.value.job, stage, now)) ==> r.Ok? && Achieved(Sight(m), m.journal, old(m.journal).value.job)
  {
    r := BeginExecution(m, plan, stage);
    if !r.Ok? {
      return;
    }
    ghost var t := m.trace;
    r := InstallJob(m, plan, stage, now);
    Grown(old(m.trace), t, m.trace);
    if r.Crash? {
      return;
    }
    if r.Ok? {
      NewIsSigned(m.config.specs, m.config.platform, OrderOf(m.journal.value.job), plan, m.disk.files);
    }
    t := m.trace;
    r := CloseJob(m, r.Ok?);
    Grown(old(m.trace), t, m.trace);
  }

  /** Records what the installation came to, and reports it. */
  method CloseJob(m: Machine, ok: bool) returns (r: Outcome)
    requires m.Valid() && m.owner == Worker(Installed(ok)) && m.journal.Some?
    modifies m`journal, m`floor, m`net, m`owner, m`work, m`begun, m`records, m`released, m`trace, m.store`jobs, m.store`audit
    ensures m.Valid() && Grew(old(m.trace), m.trace) && m.begun == old(m.begun)
    ensures m.disk.calm && m.disk.transaction.None? ==> m.journal.None? || m.journal.value.phase.Finished?
    ensures r.Ok? ==> Reported(m.store.Now(), m.journal, old(m.journal).value.job.id, ok) && (ok ==> m.floor == Some(old(m.journal).value.job.releaseVersion))
    ensures Connected(m) && m.disk.calm && m.disk.transaction.None? ==> r.Ok?
  {
    r := RecordInstalled(m, ok);
    if r.Ok? {
      ghost var t := m.trace;
      r := FinishWorker(m);
      Grown(old(m.trace), t, m.trace);
    }
  }

  /** Asks to start the staged job, and executes it if that is granted. */
  method StartJob(m: Machine, plan: StagePlan, stage: string, clocks: Clocks) returns (r: Outcome)
    requires m.Valid() && m.owner == Worker(Verified(plan, stage)) && m.journal.Some?
    requires stage in m.disk.plans && m.disk.plans[stage] == plan && PlanFrom(m.config, m.journal.value.job, plan)
    modifies m`journal, m`floor, m`net, m`owner, m`work, m`begun, m`records, m`released, m`trace, m.store`jobs, m.store`audit
    modifies m.disk`files, m.disk`dirs, m.disk`manifests, m.disk`transaction, m.disk`transactionTemp, m.disk`state, m.disk`stateTemp
    ensures m.Valid() && Grew(old(m.trace), m.trace)
    ensures Connected(m) && m.disk.calm && old(Grants(m, m.journal.value.job.id, clocks.started)) ==> Carried(m, old(m.begun), old(m.journal).value.job.id)
    ensures Connected(m) && m.disk.calm && !old(Grants(m, m.journal.value.job.id, clocks.started)) ==> r.Ok? && m.journal.None? && m.begun == old(m.begun)
    ensures Friendly(m) && old(Grants(m, m.journal.value.job.id, clocks.started)) && old(Installs(m, m.journal.value.job, stage, clocks.later)) ==> r.Ok? && Achieved(Sight(m), m.journal, old(m.journal).value.job)
  {
    var status;
    r, status := AskStart(m, m.journal.value.job.id, plan, stage, clocks.started);
    if r.Ok? {
      ghost var t := m.trace;
      r := FollowAnswer(m, plan, stage, clocks.later, status);
      Grown(old(m.trace), t, m.trace);
    }
  }

  /** What the answer to a start leads to. */
  method FollowAnswer(m: Machine, plan: StagePlan, stage: string, now: int, status: Reply) returns (r: Outcome)
    requires m.Valid() && m.owner.Worker? && m.journal.Some? && (!status.Unauthorized? ==> m.owner == Worker(StartAnswer(plan, stage, status.NoContent?)))
    requires stage in m.disk.plans && m.disk.plans[stage] == plan && PlanFrom(m.config, m.journal.value.job, plan)
    modifies m`journal, m`floor, m`net, m`owner, m`work, m`begun, m`records, m`released, m`trace, m.store`jobs, m.store`audit
    modifies m.disk`files, m.disk`dirs, m.disk`manifests, m.disk`transaction, m.disk`transactionTemp, m.disk`state, m.disk`stateTemp
    ensures m.Valid() && Grew(old(m.trace), m.trace)
    ensures m.disk.calm && status.NoContent? ==> Carried(m, old(m.begun), old(m.journal).value.job.id)
    ensures m.disk.calm && (status.Conflict? || status.NotFound?) ==> r.Ok? && m.journal.None? && m.begun == old(m.begun)
    ensures Friendly(m) && status.NoContent? && old(Installs(m, m.journal.value.job, stage, now)) ==> r.Ok? && Achieved(Sight(m), m.journal, old(m.journal).value.job)
  {
    match status {
    case NoContent =>
      r := ExecuteJob(m, plan, stage, now);
    case Conflict =>
      r := ForgetJob(m);
    case NotFound =>
      r := ForgetJob(m);
    case _ =>
      r := Fail;
    }
  }

  /** Nothing stands against staging: a free stage, readable versions and a package that suits them. */
  ghost predicate CanStage(v: View, j: Job, stage: string, bytes: Bytes) {
    forall w {:trigger Viewed(w)} :: Viewed(w) && w == v ==>
      w.calm && Vacant(w.stages, w.disk.files, stage) && Moves.Readable(w.floor, w.disk.state)
      && Promised(w.config, j, bytes, w.floor, w.disk.state)
  }

  /** What staging has done to the files, looked into only where the plan is cited. */
  ghost predicate Staged(specs: map<string, Spec>, before: Files, after: Files, stage: string, plan: StagePlan) {
    forall x {:trigger Cited(x)} :: Cited(x) && x == plan ==>
      Agree(after, before, PayloadsIn(stage) + PayloadsIn(Temporary(stage))) && PayloadsGood(specs, after, stage, x.components)
  }

  lemma StagingOpened(m: Machine, j: Job, stage: string, bytes: Bytes)
    requires CanStage(Sight(m), j, stage, bytes)
    ensures m.disk.calm && StageFree(m.disk, stage) && Moves.Readable(m.floor, m.disk.state) && Promised(m.config, j, bytes, m.floor, m.disk.state)
  {
    assert Viewed(Sight(m));
  }

  method StageJob(m: Machine, stage: string, bytes: Bytes) returns (r: Outcome, plan: StagePlan)
    requires m.Valid() && m.owner == Worker(Preparing) && m.journal.Some? && m.config.platform.sha(bytes) == m.journal.value.job.packageSha
    modifies m`floor, m`owner, m`work, m`begun, m`records, m`released, m`trace, m.disk`files, m.disk`stages, m.disk`plans
    ensures m.Valid() && Grew(old(m.trace), m.trace) && m.begun == old(m.begun)
    ensures r.Ok? ==> m.owner == Worker(Verified(plan, stage)) && stage in m.disk.plans && m.disk.plans[stage] == plan
    ensures r.Ok? ==> PlanFrom(m.config, m.journal.value.job, plan) && plan.releaseVersion == m.journal.value.job.releaseVersion
    ensures r.Ok? ==> Staged(m.disk.specs, old(m.disk.files), m.disk.files, stage, plan)
    ensures CanStage(old(Sight(m)), m.journal.value.job, stage, bytes) ==> r.Ok? && Suited(plan, m.journal.value.job.window.maintenance)
  {
    plan := StagePlan("", "", []);
    ghost var j, floor, state := m.journal.value.job, m.floor, m.disk.state;
    ghost var hopeful := CanStage(Sight(m), j, stage, bytes);
    if hopeful {
      StagingOpened(m, j, stage, bytes);
    }
    var current;
    r, current := InstalledVersion(m);
    if r.Ok? {
      if hopeful {
        PromiseKept(m.config, j, bytes, floor, state, current);
      }
      ghost var t := m.trace;
      r, plan := StagePackage(m, stage, bytes, current);
      Grown(old(m.trace), t, m.trace);
    }
  }

  /** What the client itself demands before it asks to start: its own clock inside the window, and the very package the job names. */
  predicate Executable(p: Platform, j: Job, download: Download, now: int, later: int) {
    j.window.notBefore <= now < j.window.expiresAt && later < j.window.expiresAt && download.Data? && p.sha(download.bytes) == j.packageSha
  }

  /** Room on the disk for the job's rollback and the release, with nothing left over from earlier attempts. */
  ghost predicate HasRoom(v: View, j: Job, stage: string) {
    Roomy(v.config.specs, v.disk.files, v.disk.dirs, DirOf(v.config, j.id), stage) && !v.transactionTemp && !v.stateTemp
    && DirOf(v.config, j.id) != "" && DirOf(v.config, j.id)[0] == '/'
  }

  /**
   * Everything the installation of the job depends on is as it should be: the
   * package, both clocks, the server's table and the disk. Looked into only where
   * the view is mentioned.
   */
  ghost predicate Promising(v: View, j: Job, stage: string, download: Download, clocks: Clocks) {
    forall w {:trigger Viewed(w)} :: Viewed(w) && w == v ==>
      Executable(w.config.platform, j, download, clocks.now, clocks.later) && clocks.later != 0
      && Startable(w.table, w.catalog, w.config.me, j.id, clocks.started) && CanStage(w, j, stage, download.bytes) && HasRoom(w, j, stage)
  }

  lemma PromiseOpened(v: View, j: Job, stage: string, download: Download, clocks: Clocks)
    requires Promising(v, j, stage, download, clocks)
    ensures Executable(v.config.platform, j, download, clocks.now, clocks.later)
  {
    assert Viewed(v);
  }

  lemma PromiseStages(v: View, j: Job, stage: string, download: Download, clocks: Clocks)
    requires Promising(v, j, stage, download, clocks)
    ensures download.Data? && CanStage(v, j, stage, download.bytes)
  {
    assert Viewed(v);
  }

  /** Staging leaves room for the installation. */
  lemma RoomAfterStaging(specs: map<string, Spec>, before: Files, after: Files, dirs: map<string, nat>, dir: string, stage: string)
    requires Roomy(specs, before, dirs, dir, stage) && Agree(after, before, PayloadsIn(stage) + PayloadsIn(Temporary(stage)))
    ensures Roomy(specs, after, dirs, dir, stage)
  {
  }

  lemma StagedIsInstallable(m: Machine, v: View, j: Job, stage: string, download: Download, clocks: Clocks)
    requires m.disk.specs == m.config.specs && Promising(v, j, stage, download, clocks)
    requires m.config == v.config && m.catalog == v.catalog && m.store.Now() == v.table && m.disk.dirs == v.disk.dirs && m.disk.transactionTemp == v.transactionTemp && m.disk.stateTemp == v.stateTemp
    requires stage in m.disk.plans && Staged(m.disk.specs, v.disk.files, m.disk.files, stage, m.disk.plans[stage])
    requires Suited(m.disk.plans[stage], j.window.maintenance)
    ensures CanGo(m, j, stage, clocks) && InTime(j, m.disk.plans[stage], clocks)
  {
    assert Viewed(v) && Cited(m.disk.plans[stage]);
    RoomAfterStaging(m.disk.specs, v.disk.files, m.disk.files, m.disk.dirs, DirOf(m.config, j.id), stage);
    RoomyIsInstallable(m.disk, stage, DirOf(m.config, j.id), clocks.later, j.window.maintenance);
  }

  /** A prepared job: its window, its package, its stage. */
  method PrepareJob(m: Machine, stage: string, download: Download, clocks: Clocks) returns (r: Outcome)
    requires m.Valid() && m.owner == Worker(Preparing) && m.journal.Some?
    modifies m`journal, m`floor, m`net, m`owner, m`work, m`begun, m`records, m`released, m`trace, m.store`jobs, m.store`audit, m.disk
    ensures m.Valid() && Grew(old(m.trace), m.trace)
    ensures m.begun != old(m.begun) ==> Executable(m.config.platform, old(m.journal).value.job, download, clocks.now, clocks.later)
    ensures m.disk.calm && (clocks.now < old(m.journal).value.job.window.notBefore || clocks.now >= old(m.journal).value.job.window.expiresAt || download.Unavailable?) ==> r.Ok? && m.journal.None?
    ensures Friendly(m) && Promising(old(Sight(m)), old(m.journal).value.job, stage, download, clocks) ==> r.Ok? && Arrived(m, old(m.begun), old(m.journal).value.job)
  {
    var j := m.journal.value.job;
    ghost var hopeful := Promising(Sight(m), j, stage, download, clocks);
    if hopeful {
      PromiseOpened(Sight(m), j, stage, download, clocks);
    }
    if clocks.now < j.window.notBefore || clocks.now >= j.window.expiresAt {
      r := ForgetJob(m);
      return;
    }
    if download.Unavailable? {
      r := ForgetJob(m);
      return;
    }
    if !download.Data? || m.config.platform.sha(download.bytes) != j.packageSha {
      return Fail;
    }
    r := StageAndStart(m, stage, download, clocks);
  }

  /** The job is done, by the one installation begun since. */
  ghost predicate Arrived(m: Machine, begun: seq<string>, j: Job)
    reads m, m.disk, m.store
  {
    Achieved(Sight(m), m.journal, j) && m.begun == begun + [j.id]
  }

  /** The job's package is at hand: it is staged and the start is asked for. */
  method StageAndStart(m: Machine, stage: string, download: Download, clocks: Clocks) returns (r: Outcome)
    requires m.Valid() && m.owner == Worker(Preparing) && m.journal.Some?
    requires download.Data? && m.config.platform.sha(download.bytes) == m.journal.value.job.packageSha
    modifies m`journal, m`floor, m`net, m`owner, m`work, m`begun, m`records, m`released, m`trace, m.store`jobs, m.store`audit, m.disk
    ensures m.Valid() && Grew(old(m.trace), m.trace)
    ensures m.begun != old(m.begun) ==> clocks.later < old(m.journal).value.job.window.expiresAt
    ensures Friendly(m) && Promising(old(Sight(m)), old(m.journal).value.job, stage, download, clocks) ==> r.Ok? && Arrived(m, old(m.begun), old(m.journal).value.job)
  {
    var plan;
    r, plan := StageInTime(m, stage, download, clocks);
    if r.Ok? {
      ghost var t := m.trace;
      r := StartJob(m, plan, stage, clocks);
      Grown(old(m.trace), t, m.trace);
    }
  }

  method StageInTime(m: Machine, stage: string, download: Download, clocks: Clocks) returns (r: Outcome, plan: StagePlan)
    requires m.Valid() && m.owner == Worker(Preparing) && m.journal.Some?
    requires download.Data? && m.config.platform.sha(download.bytes) == m.journal.value.job.packageSha
    modifies m`floor, m`owner, m`work, m`begun, m`records, m`released, m`trace, m.disk`files, m.disk`stages, m.disk`plans
    ensures m.Valid() && Grew(old(m.trace), m.trace) && m.begun == old(m.begun)
    ensures r.Ok? ==> m.owner == Worker(Verified(plan, stage)) && stage in m.disk.plans && m.disk.plans[stage] == plan && PlanFrom(m.config, m.journal.value.job, plan)
    ensures r.Ok? ==> clocks.later < m.journal.value.job.window.expiresAt
    ensures Promising(old(Sight(m)), m.journal.value.job, stage, download, clocks) ==> r.Ok? && CanGo(m, m.journal.value.job, stage, clocks)
  {
    var window := m.journal.value.job.window;
    r, plan := StagePromised(m, stage, download, clocks);
    if !r.Ok? {
      return;
    }
    var light := RequiresLightDMMaintenance(plan.components);
    if (light && !window.maintenance) || clocks.later >= window.expiresAt {
      return Fail, plan;
    }
  }

  /** StageJob, and what it means for a promising job. */
  method StagePromised(m: Machine, stage: string, download: Download, ghost clocks: Clocks) returns (r: Outcome, plan: StagePlan)
    requires m.Valid() && m.owner == Worker(Preparing) && m.journal.Some?
    requires download.Data? && m.config.platform.sha(download.bytes) == m.journal.value.job.packageSha
    modifies m`floor, m`owner, m`work, m`begun, m`records, m`released, m`trace, m.disk`files, m.disk`stages, m.disk`plans
    ensures m.Valid() && Grew(old(m.trace), m.trace) && m.begun == old(m.begun)
    ensures r.Ok? ==> m.owner == Worker(Verified(plan, stage)) && stage in m.disk.plans && m.disk.plans[stage] == plan && PlanFrom(m.config, m.journal.value.job, plan)
    ensures Promising(old(Sight(m)), m.journal.value.job, stage, download, clocks) ==>
      r.Ok? && CanGo(m, m.journal.value.job, stage, clocks) && InTime(m.journal.value.job, plan, clocks)
  {
    ghost var j, v := m.journal.value.job, Sight(m);
    ghost var hopeful := Promising(v, j, stage, download, clocks);
    if hopeful {
      PromiseStages(v, j, stage, download, clocks);
    }
    r, plan := StageJob(m, stage, download.bytes);
    if hopeful {
      StagedIsInstallable(m, v, j, stage, download, clocks);
    }
  }

  /** The job can be installed from its stage, and the server lets it start. */
  ghost predicate CanGo(m: Machine, j: Job, stage: string, clocks: Clocks)
    reads m.disk, m.store
  {
    Installs(m, j, stage, clocks.later) && Grants(m, j.id, clocks.started)
  }

  /** The plan's maintenance is allowed and the window has not passed. */
  ghost predicate InTime(j: Job, plan: StagePlan, clocks: Clocks) {
    (RequiresLightDM(plan.components) ==> j.window.maintenance) && clocks.later < j.window.expiresAt
  }

  /** What a run is given: where to stage, what the download brings, and its clocks. */
  datatype Input = Input(stage: string, download: Download, clocks: Clocks)

  /**
   * The worker will prepare and can install this job: it is journalled or offered,
   * no installation is pending, and everything it depends on is as it should be.
   */
  ghost predicate WillInstall(v: View, journal: Option<Journal>, j: Job, input: Input) {
    v.disk.transaction.None? && Promising(v, j, input.stage, input.download, input.clocks) &&
    if journal.None? then j.state.Scheduled? && Offers(v, j, input.clocks.polled)
    else journal.value == Journal(j, Prepared, journal.value.rollback) && ValidRemote(v.config, j)
  }

  /** The worker owes the server this result: it is journalled, or an execution was interrupted, or a dispatched job was never journalled. */
  ghost predicate WillReport(v: View, journal: Option<Journal>, j: Job, ok: bool, polled: int) {
    v.disk.transaction.None? &&
    if journal.None? then !ok && j.state.Dispatched? && Offers(v, j, polled)
    else journal.value.job == j && ValidRemote(v.config, j)
         && (journal.value.phase == Finished(ok) || (journal.value.phase.Executing? && !ok && Undoable(v, j)))
  }

  /** A journal found on start. */
  method Resume(m: Machine, input: Input) returns (r: Outcome)
    requires m.Valid() && m.owner == Worker(Ready) && m.journal.Some?
    modifies m`journal, m`floor, m`net, m`owner, m`work, m`begun, m`records, m`released, m`trace, m.store`jobs, m.store`audit, m.disk
    ensures m.Valid() && Grew(old(m.trace), m.trace)
    ensures Friendly(m) ==> forall j :: WillInstall(old(Sight(m)), old(m.journal), j, input) ==> r.Ok? && Arrived(m, old(m.begun), j)
    ensures Connected(m) && m.disk.calm ==> forall j, ok :: WillReport(old(Sight(m)), old(m.journal), j, ok, input.clocks.polled) ==> r.Ok? && Reported(m.store.Now(), m.journal, j.id, ok)
  {
    match m.journal.value.phase
    case Executing =>
      r := FailInterrupted(m);
    case Finished(_) =>
      ReadPhase(m, Worker(Reporting));
      ghost var t := m.trace;
      r := FinishWorker(m);
      Grown(old(m.trace), t, m.trace);
    case Prepared =>
      ReadPhase(m, Worker(Preparing));
      ghost var t := m.trace;
      assert Sight(m) == old(Sight(m));
      r := PrepareJob(m, input.stage, input.download, input.clocks);
      Grown(old(m.trace), t, m.trace);
  }

  /** An interrupted execution is undone and reported failed. */
  method FailInterrupted(m: Machine) returns (r: Outcome)
    requires m.Valid() && m.owner == Worker(Ready) && m.journal.Some? && m.journal.value.phase.Executing?
    modifies m`journal, m`floor, m`net, m`owner, m`work, m`begun, m`records, m`released, m`trace, m.store`jobs, m.store`audit
    modifies m.disk`files, m.disk`state, m.disk`stateTemp
    ensures m.Valid() && Grew(old(m.trace), m.trace)
    ensures Connected(m) && m.disk.calm && Undoable(old(Sight(m)), old(m.journal).value.job) ==> r.Ok? && Reported(m.store.Now(), m.journal, old(m.journal).value.job.id, false)
  {
    r := ResumeExecuting(m);
    if !r.Ok? {
      return;
    }
    ghost var t := m.trace;
    r := RecordRestored(m);
    Grown(old(m.trace), t, m.trace);
    if r.Ok? {
      t := m.trace;
      r := FinishWorker(m);
      Grown(old(m.trace), t, m.trace);
    }
  }

  /** The program counter follows the journal's phase. */
  ghost method ReadPhase(m: Machine, to: Owner)
    requires m.Valid() && m.owner == Worker(Ready)
    requires to == if m.journal.None? then Worker(Polling) else if m.journal.value.phase.Prepared? then Worker(Preparing) else Worker(Reporting)
    requires m.journal.Some? ==> !m.journal.value.phase.Executing?
    modifies m`owner, m`work, m`begun, m`records, m`released, m`trace
    ensures m.Valid() && Grew(old(m.trace), m.trace) && m.owner == to && m.begun == old(m.begun)
  {
    ghost var next := m.Now().(owner := to);
    LocalFollows(m.runs, m.config, m.trace, m.Now(), next);
    m.Arrive(next);
  }

  /** Without a journal the server is asked for a job. */
  method FetchJob(m: Machine, input: Input) returns (r: Outcome)
    requires m.Valid() && m.owner == Worker(Ready) && m.journal.None?
    modifies m`journal, m`floor, m`net, m`owner, m`work, m`begun, m`records, m`released, m`trace, m.store`jobs, m.store`audit, m.disk
    ensures m.Valid() && Grew(old(m.trace), m.trace)
    ensures Friendly(m) ==> forall j :: WillInstall(old(Sight(m)), old(m.journal), j, input) ==> r.Ok? && Arrived(m, old(m.begun), j)
    ensures Connected(m) && m.disk.calm ==> forall j, ok :: WillReport(old(Sight(m)), old(m.journal), j, ok, input.clocks.polled) ==> r.Ok? && Reported(m.store.Now(), m.journal, j.id, ok)
  {
    ReadPhase(m, Worker(Polling));
    ghost var t := m.trace;
    assert Sight(m) == old(Sight(m));
    var answer;
    r, answer := Poll(m, input.clocks.polled);
    Grown(old(m.trace), t, m.trace);
    if answer.Some? {
      t := m.trace;
      r := TakePolled(m, answer.value, input);
      Grown(old(m.trace), t, m.trace);
    }
  }

  /** A polled job is prepared, or reported failed if it was dispatched before. */
  method TakePolled(m: Machine, j: Job, input: Input) returns (r: Outcome)
    requires m.Valid() && m.owner == Worker(PollAnswer(j)) && ValidRemote(m.config, j)
    modifies m`journal, m`floor, m`net, m`owner, m`work, m`begun, m`records, m`released, m`trace, m.store`jobs, m.store`audit, m.disk
    ensures m.Valid() && Grew(old(m.trace), m.trace)
    ensures Friendly(m) && j.state.Scheduled? && Promising(old(Sight(m)), j, input.stage, input.download, input.clocks) ==> r.Ok? && Arrived(m, old(m.begun), j)
    ensures Connected(m) && m.disk.calm && j.state.Dispatched? ==> r.Ok? && Reported(m.store.Now(), m.journal, j.id, false)
  {
    ghost var t;
    if j.state.Dispatched? {
      r := ReportDispatched(m, j);
      t := m.trace;
      if r.Ok? {
        r := FinishWorker(m);
      }
    } else {
      ghost var next := m.Now().(journal := Some(Journal(j, Prepared, false)), owner := Worker(Preparing));
      assert TakeJob(m.config, m.Now(), next, false);
      JournalFollows(m.runs, m.config, m.trace, m.Now(), next);
      r := PrepareJournal(m, j);
      t := m.trace;
      assert Sight(m) == old(Sight(m));
      if r.Ok? {
        r := PrepareJob(m, input.stage, input.download, input.clocks);
      }
    }
    Grown(old(m.trace), t, m.trace);
  }

  /** The lock is taken, or given up by returning or dying. */
  ghost method Lock(m: Machine, to: Owner)
    requires m.Valid() && (if m.owner.Nobody? then to == Worker(Locked) else to == Nobody)
    modifies m`owner, m`work, m`begun, m`records, m`released, m`trace
    ensures m.Valid() && Grew(old(m.trace), m.trace) && m.owner == to && m.begun == old(m.begun)
  {
    ghost var next := m.Now().(owner := to);
    LocalFollows(m.runs, m.config, m.trace, m.Now(), next);
    m.Arrive(next);
  }

  /**
   * RunWorker. However it ends - done, refused, failed, or killed between any two
   * operations - everything it did is a sequence of protocol steps. And where
   * nothing stands against it, it installs the job it can install and delivers the
   * result it owes.
   */
  method RunWorker(m: Machine, input: Input) returns (r: Outcome)
    requires m.Valid() && m.owner.Nobody?
    modifies m`journal, m`floor, m`net, m`owner, m`work, m`begun, m`records, m`released, m`trace, m.store`jobs, m.store`audit, m.disk
    ensures m.Valid() && Grew(old(m.trace), m.trace) && m.owner.Nobody?
    ensures Friendly(m) ==> forall j :: WillInstall(old(Sight(m)), old(m.journal), j, input) ==> r.Ok? && Arrived(m, old(m.begun), j)
    ensures Connected(m) && m.disk.calm ==> forall j, ok :: WillReport(old(Sight(m)), old(m.journal), j, ok, input.clocks.polled) ==> r.Ok? && Reported(m.store.Now(), m.journal, j.id, ok)
  {
    var busy, _ := m.Transmit();
    if busy {
      // Another process holds the lock.
      return Ok;
    }
    assert Sight(m) == old(Sight(m));
    r := RunAlone(m, input);
    ghost var t, v := m.trace, Sight(m);
    if m.owner.Worker? {
      Lock(m, Nobody);
    }
    assert Sight(m) == v;
    Grown(old(m.trace), t, m.trace);
  }

  /** The lock is free and is taken: recovery comes first. */
  method RunAlone(m: Machine, input: Input) returns (r: Outcome)
    requires m.Valid() && m.owner.Nobody?
    modifies m`journal, m`floor, m`net, m`owner, m`work, m`begun, m`records, m`released, m`trace, m.store`jobs, m.store`audit, m.disk
    ensures m.Valid() && Grew(old(m.trace), m.trace)
    ensures Friendly(m) ==> forall j :: WillInstall(old(Sight(m)), old(m.journal), j, input) ==> r.Ok? && Arrived(m, old(m.begun), j)
    ensures Connected(m) && m.disk.calm ==> forall j, ok :: WillReport(old(Sight(m)), old(m.journal), j, ok, input.clocks.polled) ==> r.Ok? && Reported(m.store.Now(), m.journal, j.id, ok)
  {
    Lock(m, Worker(Locked));
    ghost var t := m.trace;
    r := RecoverFirst(m);
    Grown(old(m.trace), t, m.trace);
    assert old(m.disk.transaction).None? ==> Sight(m) == old(Sight(m));
    if r.Ok? {
      t := m.trace;
      r := RunLocked(m, input);
      Grown(old(m.trace), t, m.trace);
    }
  }

  method RunLocked(m: Machine, input: Input) returns (r: Outcome)
    requires m.Valid() && m.owner == Worker(Ready)
    modifies m`journal, m`floor, m`net, m`owner, m`work, m`begun, m`records, m`released, m`trace, m.store`jobs, m.store`audit, m.disk
    ensures m.Valid() && Grew(old(m.trace), m.trace)
    ensures Friendly(m) ==> forall j :: WillInstall(old(Sight(m)), old(m.journal), j, input) ==> r.Ok? && Arrived(m, old(m.begun), j)
    ensures Connected(m) && m.disk.calm ==> forall j, ok :: WillReport(old(Sight(m)), old(m.journal), j, ok, input.clocks.polled) ==> r.Ok? && Reported(m.store.Now(), m.journal, j.id, ok)
  {
    r := m.disk.Step();
    if !r.Ok? {
      return;
    }
    assert Sight(m) == old(Sight(m));
    if m.journal.None? {
      r := FetchJob(m, input);
    } else {
      var valid := CheckRemote(m.config, m.journal.value.job);
      if !valid {
        return Fail;
      }
      assert Sight(m) == old(Sight(m));
      r := Resume(m, input);
    }
  }
}
