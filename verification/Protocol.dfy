/**
 * The update protocol as a step system: one worker (clientupdate/worker.go)
 * with its durable records, the server's job table, and a network that may
 * lose, delay and repeat requests. The lock owner carries the worker's
 * volatile program counter; a crash or an error exit drops it. Disk work
 * between two network interactions is one step, related by the contracts of
 * the installer's methods, and its interrupted outcomes are steps too. Every
 * reading of either clock is arbitrary.
 */
module Protocol {
  import opened Strings
  import opened Components
  import opened Disks
  import opened Restore
  import opened Rollback
  import opened Transaction
  import opened Install
  import opened Staging
  import opened Signing
  import opened Jobs
  import Versions

  datatype Config = Config(me: string, specs: map<string, Spec>, root: string, build: string, platform: Platform)

  ghost predicate ValidConfig(c: Config) {
    GoodTable(c.specs) && Versions.Valid(c.build)
  }

  /** The phases "prepared", "executing" and "succeeded" or "failed". */
  datatype Phase = Prepared | Executing | Finished(ok: bool)

  datatype Journal = Journal(job: Job, phase: Phase, rollback: bool)

  /** The requests that can change the server. */
  datatype Request = Start(id: string) | Result(id: string, ok: bool, rollback: bool)

  datatype Pc =
    | Locked
    | Ready
    | Polling
    | PollAnswer(job: Job)
    | Preparing
    | Verified(plan: StagePlan, stage: string)
    | StartSent(plan: StagePlan, stage: string)
    | StartAnswer(plan: StagePlan, stage: string, granted: bool)
    | Begun(plan: StagePlan, stage: string)
    | Installed(ok: bool)
    | Restored
    | Reporting
    | Saved
    | ResultSent
    | ResultAnswer(acknowledged: bool)

  datatype Owner = Nobody | Worker(pc: Pc)

  /** History: the files a job found when it began to execute, and what it was to install. */
  datatype Work = Work(base: Files, plan: StagePlan)

  /** History: the disk when a result was first written to the journal. */
  datatype Record = Record(id: string, ok: bool, rollback: bool, disk: Image, job: Job)

  datatype System = System(
    table: Table,
    net: set<Request>,
    disk: Image,
    journal: Option<Journal>,
    floor: Option<string>,
    owner: Owner,
    work: map<string, Work>,
    begun: seq<string>,
    records: seq<Record>,
    released: seq<string>)

  /** workerRollbackPath. */
  function DirOf(c: Config, id: string): string {
    c.root + "/var/backups/stumpfworks-badge/job-" + id
  }

  /** Every job has a rollback directory of its own, where the recovery looks for it. */
  lemma DirIsManaged(c: Config, a: string, b: string)
    ensures a != "" ==> Managed(c.root, DirOf(c, a))
    ensures DirOf(c, a) == DirOf(c, b) ==> a == b
  {
    var prefix := c.root + "/var/backups/stumpfworks-badge/job-";
    assert DirOf(c, a) == prefix + a && DirOf(c, b) == prefix + b;
    assert (prefix + a)[|prefix|..] == a && (prefix + b)[|prefix|..] == b;
    if a != "" {
      ManagedExactly(c.root, DirOf(c, a));
      var shorter := c.root + "/var/backups/stumpfworks-badge/";
      assert DirOf(c, a) == shorter + ("job-" + a);
    }
  }

  /** The package and release a job asks for. */
  function OrderOf(j: Job): Order {
    Order(j.packageSha, j.releaseVersion)
  }

  /** The plan was derived from the package the job names. */
  ghost predicate PlanFrom(c: Config, j: Job, plan: StagePlan) {
    SignedPlan(c.specs, c.platform, OrderOf(j), plan)
  }

  function Outcomes(ok: bool): JobState {
    if ok then Succeeded else Failed
  }

  // ----- versions -------------------------------------------------------------------

  predicate Older(a: string, b: string) {
    Versions.Valid(a) && Versions.Valid(b) && Versions.Compare(a, b) < 0
  }

  predicate AtMost(a: string, b: string) {
    Versions.Valid(a) && Versions.Valid(b) && Versions.Compare(a, b) <= 0
  }

  predicate Newer(a: string, b: string) {
    Versions.Valid(a) && Versions.Valid(b) && Versions.Compare(a, b) > 0
  }

  /** The version workerInstalledVersion starts from: the saved floor if it is newer than the build. */
  function Current(build: string, floor: Option<string>): string {
    if floor.Some? && Newer(floor.value, build) then floor.value else build
  }

  /** A successful update state newer than that is saved as the floor; afterwards the disk is synced. */
  predicate Unsynced(build: string, floor: Option<string>, state: Option<UpdateState>) {
    state.Some? && state.value.status.Success? && Newer(state.value.version, Current(build, floor))
  }

  /** What workerInstalledVersion answers: the newest of build, floor and successful state. */
  function Newest(build: string, floor: Option<string>, state: Option<UpdateState>): string {
    if Unsynced(build, floor, state) then state.value.version else Current(build, floor)
  }

  // ----- steps of the server -----------------------------------------------------------

  /** Administrators, other clients and expiry. My jobs are only cancelled, expired or created here. */
  ghost predicate ServerElsewhere(c: Config, s: System, t: System) {
    t == s.(table := t.table) && Next(s.table, t.table)
    && forall id :: id in s.table.jobs && s.table.jobs[id].client == c.me && id in t.table.jobs && t.table.jobs[id] != s.table.jobs[id] ==>
      t.table.jobs[id].state.Cancelled? || t.table.jobs[id].state.Expired?
  }

  /** pollClientUpdate answers the worker's poll with one of its jobs. */
  ghost predicate HandlePoll(c: Config, s: System, t: System, id: string, now: int) {
    s.owner == Worker(Polling) && id in s.table.jobs
    && (var j := s.table.jobs[id];
        j.client == c.me && (j.state.Dispatched? || (j.state.Scheduled? && j.window.notBefore <= now < j.window.expiresAt))
        && t == s.(owner := Worker(PollAnswer(j))))
  }

  /** startClientUpdate handles a start request, perhaps an old one; the answer may be lost. */
  ghost predicate HandleStart(c: Config, s: System, t: System, id: string, approved: bool, clients: map<string, Client>, caller: Caller, now: int) {
    Start(id) in s.net
    && var granted := approved && Changeable(s.table, clients, id, c.me, Dispatched, false, caller, now);
       var table := if granted then Changed(s.table, id, Dispatched, false, now) else s.table;
       || t == s.(table := table)
       || (s.owner.Worker? && s.owner.pc.StartSent? && s.journal.Some? && s.journal.value.job.id == id
           && t == s.(table := table, owner := Worker(StartAnswer(s.owner.pc.plan, s.owner.pc.stage, granted))))
  }

  /** finishClientUpdate handles a result, perhaps an old one; the answer may be lost. */
  ghost predicate HandleResult(c: Config, s: System, t: System, id: string, ok: bool, rollback: bool, clients: map<string, Client>, caller: Caller, now: int) {
    Result(id, ok, rollback) in s.net
    && var taken := Changeable(s.table, clients, id, c.me, Outcomes(ok), rollback, caller, now);
       var table := if taken then Changed(s.table, id, Outcomes(ok), rollback, now) else s.table;
       || t == s.(table := table)
       || (s.owner == Worker(ResultSent) && s.journal.Some? && s.journal.value.job.id == id
           && s.journal.value.phase == Finished(ok) && s.journal.value.rollback == rollback
           && t == s.(table := table, owner := Worker(ResultAnswer(taken))))
  }

  // ----- steps of the client -------------------------------------------------------------

  ghost predicate Acquire(s: System, t: System) {
    s.owner.Nobody? && t == s.(owner := Worker(Locked))
  }

  /** A crash, or an error return, releases the lock and forgets everything volatile. */
  ghost predicate Release(s: System, t: System) {
    s.owner.Worker? && t == s.(owner := Nobody)
  }

  /** What a recovery does, for the work of the executing job. */
  ghost predicate RecoverRelation(c: Config, s: System, d: Image, r: Outcome) {
    (s.disk.transaction.None? ==> d == s.disk)
    && (r.Ok? ==> d.transaction.None?)
    && (s.disk.transaction.Some? && s.journal.Some? && s.journal.value.job.id in s.work ==>
          var w := s.work[s.journal.value.job.id];
          Pending(c.specs, s.disk, s.disk.transaction.value, w.plan, w.base) ==>
            RecoveryEffect(c.specs, s.disk, d, w.plan, w.base))
  }

  /** The status service recovers while no worker holds the lock; it may be interrupted. */
  ghost predicate OtherRecovery(c: Config, s: System, t: System, r: Outcome) {
    s.owner.Nobody? && RecoverRelation(c, s, t.disk, r) && t == s.(disk := t.disk)
  }

  ghost predicate WorkerRecovery(c: Config, s: System, t: System, r: Outcome) {
    s.owner == Worker(Locked) && RecoverRelation(c, s, t.disk, r)
    && t == s.(disk := t.disk, owner := if r.Ok? then Worker(Ready) else Nobody)
  }

  /** Reading the journal after recovery. */
  ghost predicate ReadJournal(s: System, t: System) {
    s.owner == Worker(Ready)
    && (|| (s.journal.None? && t == s.(owner := Worker(Polling)))
        || (s.journal.Some? && s.journal.value.phase.Prepared? && t == s.(owner := Worker(Preparing)))
        || (s.journal.Some? && s.journal.value.phase.Finished? && t == s.(owner := Worker(Reporting))))
  }

  /** The disk work for a journal found executing: restore the job's snapshot if there is one, then record the failed state. */
  ghost predicate RestoreRelation(c: Config, a: Image, b: Image, dir: string, release: string, r: Outcome) {
    if dir !in a.dirs then b == a
    else exists m, q ::
      RestoreEffect(c.specs, a, m, dir, q)
      && (b == m || (q.Ok? && b == m.(state := Some(UpdateState(release, Failure)))))
      && (r.Ok? ==> q.Ok? && b.state == Some(UpdateState(release, Failure)))
  }

  ghost predicate RestoreInterrupted(c: Config, s: System, t: System, r: Outcome) {
    s.owner == Worker(Ready) && s.journal.Some? && s.journal.value.phase.Executing?
    && RestoreRelation(c, s.disk, t.disk, DirOf(c, s.journal.value.job.id), s.journal.value.job.releaseVersion, r)
    && t == s.(disk := t.disk, owner := if r.Ok? then Worker(Restored) else Nobody)
  }

  /** What workerRollback vouches for; it may answer no for a rollback it could not read. */
  ghost predicate RollbackUsable(c: Config, d: Image, j: Job) {
    RollbackValid(c.specs, d, DirOf(c, j.id)) && ManifestOf(d, DirOf(c, j.id)).value.forRelease == j.releaseVersion
  }

  /** Writing a final phase to the journal. */
  function Recorded(s: System, j: Job, ok: bool, rollback: bool): System {
    s.(journal := Some(Journal(j, Finished(ok), rollback)),
       records := s.records + [Record(j.id, ok, rollback, s.disk, j)],
       released := if ok then s.released + [j.releaseVersion] else s.released,
       owner := Worker(Reporting))
  }

  ghost predicate RecordInterrupted(c: Config, s: System, t: System, rollback: bool) {
    s.owner == Worker(Restored) && s.journal.Some?
    && (rollback ==> RollbackUsable(c, s.disk, s.journal.value.job))
    && t == Recorded(s, s.journal.value.job, false, rollback)
  }

  /** validRemoteJob. */
  predicate ValidRemote(c: Config, j: Job) {
    j.client == c.me && ValidIdentifier(j.id) && ValidIdentifier(j.releaseId) && Versions.Valid(j.releaseVersion)
    && ValidDigest(j.packageSha) && j.window.notBefore < j.window.expiresAt <= j.window.notBefore + DAY && Open(j.state)
  }

  /** A polled job is prepared; one that was already dispatched is reported failed, never executed. */
  ghost predicate TakeJob(c: Config, s: System, t: System, rollback: bool) {
    s.owner.Worker? && s.owner.pc.PollAnswer? && ValidRemote(c, s.owner.pc.job)
    && var j := s.owner.pc.job;
       if j.state.Dispatched? then
         (rollback ==> RollbackUsable(c, s.disk, j)) && t == Recorded(s, j, false, rollback)
       else
         t == s.(journal := Some(Journal(j, Prepared, false)), owner := Worker(Preparing))
  }

  /** The window has passed on the client's clock, or the server no longer offers the package. */
  ghost predicate Forget(s: System, t: System) {
    s.owner == Worker(Preparing) && t == s.(journal := None, owner := Nobody)
  }

  /** The write inside workerInstalledVersion, which both preparation and reporting call. */
  ghost predicate SyncFloor(c: Config, s: System, t: System) {
    (s.owner == Worker(Preparing)
     || (s.owner == Worker(Reporting) && s.journal.Some? && s.journal.value.phase == Finished(true)))
    && Unsynced(c.build, s.floor, s.disk.state)
    && t == s.(floor := Some(s.disk.state.value.version))
  }

  /** The package is downloaded, verified to be newer than the installed version, and staged. */
  ghost predicate Verify(c: Config, s: System, t: System, plan: StagePlan, stage: string) {
    s.owner == Worker(Preparing) && s.journal.Some?
    && !Unsynced(c.build, s.floor, s.disk.state)
    && plan.releaseVersion == s.journal.value.job.releaseVersion && PlanFrom(c, s.journal.value.job, plan)
    && Older(Current(c.build, s.floor), plan.releaseVersion)
    && t.disk == s.disk.(files := t.disk.files)
    && Agree(t.disk.files, s.disk.files, PayloadsIn(stage) + PayloadsIn(Temporary(stage)))
    && PayloadsGood(c.specs, t.disk.files, stage, plan.components)
    && t == s.(disk := t.disk, owner := Worker(Verified(plan, stage)))
  }

  /** Preparation fails half-way and leaves part of a stage directory behind. */
  ghost predicate StageFailed(s: System, t: System, stage: string) {
    s.owner == Worker(Preparing) && t.disk == s.disk.(files := t.disk.files)
    && Agree(t.disk.files, s.disk.files, PayloadsIn(stage) + PayloadsIn(Temporary(stage)))
    && t == s.(disk := t.disk, owner := Nobody)
  }

  ghost predicate SendStart(s: System, t: System) {
    s.owner.Worker? && s.owner.pc.Verified? && s.journal.Some?
    && t == s.(net := s.net + {Start(s.journal.value.job.id)}, owner := Worker(StartSent(s.owner.pc.plan, s.owner.pc.stage)))
  }

  /** Execution was refused: preparation is forgotten. */
  ghost predicate Refused(s: System, t: System) {
    s.owner.Worker? && s.owner.pc.StartAnswer? && !s.owner.pc.granted
    && t == s.(journal := None, owner := Nobody)
  }

  /** Execution was granted: the executing journal is written before anything is touched. */
  ghost predicate Begin(s: System, t: System) {
    s.owner.Worker? && s.owner.pc.StartAnswer? && s.owner.pc.granted && s.journal.Some?
    && var j := s.journal.value;
       t == s.(journal := Some(j.(phase := Executing)),
               work := s.work[j.job.id := Work(s.disk.files, s.owner.pc.plan)],
               owner := Worker(Begun(s.owner.pc.plan, s.owner.pc.stage)))
  }

  /** installStaged runs, to its end or into a crash. */
  ghost predicate RunInstall(c: Config, s: System, t: System, startedAt: int, r: Outcome) {
    s.owner.Worker? && s.owner.pc.Begun? && s.journal.Some?
    && (var id, plan, stage := s.journal.value.job.id, s.owner.pc.plan, s.owner.pc.stage;
        InstallEffect(c.specs, s.disk, t.disk, stage, plan, UpdateTransaction(plan.releaseVersion, DirOf(c, id), startedAt), r)
        && t == s.(disk := t.disk, begun := s.begun + [id], owner := if r.Crash? then Nobody else Worker(Installed(r.Ok?))))
  }

  /** With no transaction pending, the result of the installation goes to the journal. */
  ghost predicate RecordResult(c: Config, s: System, t: System, rollback: bool) {
    s.owner.Worker? && s.owner.pc.Installed? && s.journal.Some? && s.disk.transaction.None?
    && (rollback ==> RollbackUsable(c, s.disk, s.journal.value.job))
    && t == Recorded(s, s.journal.value.job, s.owner.pc.ok, rollback)
  }

  /** finishWorker saves a successful release as the floor, if it is newer. */
  ghost predicate SaveFloor(c: Config, s: System, t: System) {
    s.owner == Worker(Reporting) && s.journal.Some? && s.journal.value.phase.Finished?
    && var j := s.journal.value;
       if !j.phase.ok then t == s.(owner := Worker(Saved))
       else
         !Unsynced(c.build, s.floor, s.disk.state)
         && t == s.(floor := if Newer(j.job.releaseVersion, Current(c.build, s.floor)) then Some(j.job.releaseVersion) else s.floor,
                    owner := Worker(Saved))
  }

  ghost predicate SendResult(s: System, t: System) {
    s.owner == Worker(Saved) && s.journal.Some? && s.journal.value.phase.Finished?
    && var j := s.journal.value;
       t == s.(net := s.net + {Result(j.job.id, j.phase.ok, j.rollback)}, owner := Worker(ResultSent))
  }

  /** The acknowledged result is forgotten. */
  ghost predicate Acknowledged(s: System, t: System) {
    s.owner == Worker(ResultAnswer(true)) && t == s.(journal := None, owner := Nobody)
  }

  // ----- runs -----------------------------------------------------------------------------

  ghost predicate ServerStep(c: Config, s: System, t: System) {
    || ServerElsewhere(c, s, t)
    || (exists id, now :: HandlePoll(c, s, t, id, now))
    || (exists id, approved, clients, caller, now :: HandleStart(c, s, t, id, approved, clients, caller, now))
    || (exists id, ok, rollback, clients, caller, now :: HandleResult(c, s, t, id, ok, rollback, clients, caller, now))
  }

  ghost predicate DiskStep(c: Config, s: System, t: System) {
    || (exists r :: OtherRecovery(c, s, t, r))
    || (exists r :: WorkerRecovery(c, s, t, r))
    || (exists r :: RestoreInterrupted(c, s, t, r))
    || (exists plan, stage :: Verify(c, s, t, plan, stage))
    || (exists stage :: StageFailed(s, t, stage))
    || (exists at, r :: RunInstall(c, s, t, at, r))
  }

  ghost predicate JournalStep(c: Config, s: System, t: System) {
    || (exists rollback :: RecordInterrupted(c, s, t, rollback))
    || (exists rollback :: TakeJob(c, s, t, rollback))
    || (exists rollback :: RecordResult(c, s, t, rollback))
    || Forget(s, t)
    || Refused(s, t)
    || Begin(s, t)
    || Acknowledged(s, t)
  }

  ghost predicate LocalStep(c: Config, s: System, t: System) {
    || Acquire(s, t)
    || Release(s, t)
    || ReadJournal(s, t)
    || SyncFloor(c, s, t)
    || SaveFloor(c, s, t)
    || SendStart(s, t)
    || SendResult(s, t)
  }

  ghost predicate Step(c: Config, s: System, t: System) {
    ServerStep(c, s, t) || DiskStep(c, s, t) || JournalStep(c, s, t) || LocalStep(c, s, t)
  }

  /** A fresh worker directory, no jobs yet, no interrupted installation; any files and any valid update state. */
  ghost predicate Init(c: Config, s: System) {
    s.table == Table(map[], []) && s.net == {} && s.journal.None? && s.floor.None? && s.owner.Nobody?
    && s.work == map[] && s.begun == [] && s.records == [] && s.released == []
    && s.disk.transaction.None?
    && (s.disk.state.Some? ==> Versions.Valid(s.disk.state.value.version))
    && forall id :: ValidIdentifier(id) ==> DirOf(c, id) !in s.disk.dirs
  }

  ghost predicate Run(c: Config, run: seq<System>) {
    run != [] && Init(c, run[0]) && forall i :: 0 <= i < |run| - 1 ==> StepAt(c, run, i)
  }

  ghost predicate StepAt(c: Config, run: seq<System>, i: nat)
    requires i < |run| - 1
  {
    Step(c, run[i], run[i + 1])
  }
}
