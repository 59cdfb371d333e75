/** Recorded results tell the truth about the disk, in every reachable state of the protocol. */
module Truth {
  import opened Strings
  import opened Components
  import opened Disks
  import opened Restore
  import opened Rollback
  import opened Transaction
  import opened Install
  import opened Staging
  import opened Signing
  import opened Jobs
  import opened JobHistory
  import opened Protocol
  import opened Agreement

  /** What the disk is like while job `id` executes: untouched, or recoverable from its complete snapshot. */
  ghost predicate ExecDisk(c: Config, d: Image, id: string, w: Work) {
    var dir, cs := DirOf(c, id), w.plan.components;
    if dir in d.dirs then
      Snapshot(c.specs, d, dir, w.plan, w.base) && AllReplaceable(d.files, cs)
      && (d.transaction.Some? ==>
            d.transaction.value.rollbackDir == dir && d.transaction.value.releaseVersion == w.plan.releaseVersion)
    else
      d.transaction.None? && AllBack(d.files, w.base, cs)
  }

  ghost predicate DirsAreBegun(c: Config, dirs: map<string, nat>, begun: seq<string>) {
    forall id :: ValidIdentifier(id) && DirOf(c, id) in dirs ==> id in begun
  }

  /** What each program counter knows about an executing job. */
  ghost predicate PcDisk(c: Config, d: Image, id: string, w: Work, pc: Pc) {
    match pc
    case Ready => d.transaction.None?
    case Begun(plan, stage) => d.transaction.None? && w == Work(d.files, plan)
    case Installed(ok) =>
      d.transaction.None? ==>
        if ok then AllNew(d.files, w.plan.components) else AllBack(d.files, w.base, w.plan.components)
    case Restored => d.transaction.None? && AllBack(d.files, w.base, w.plan.components)
    case _ => true
  }

  ghost predicate DiskInv(c: Config, d: Image, journal: Option<Journal>, work: map<string, Work>, begun: seq<string>, owner: Owner) {
    DirsAreBegun(c, d.dirs, begun) &&
    if journal.Some? && journal.value.phase.Executing? then
      var id := journal.value.job.id;
      id in work && work[id].plan.releaseVersion == journal.value.job.releaseVersion
      && PlanFrom(c, journal.value.job, work[id].plan)
      && ExecDisk(c, d, id, work[id]) && (owner.Worker? ==> PcDisk(c, d, id, work[id], owner.pc))
    else d.transaction.None?
  }

  /** What the invariant knows of a record: a plan from the job's package was in place, or undone. */
  ghost predicate Supported(c: Config, r: Record, work: map<string, Work>) {
    r.disk.transaction.None?
    && (r.rollback ==> RollbackValid(c.specs, r.disk, DirOf(c, r.id)))
    && if r.id in work then
         var w := work[r.id];
         PlanFrom(c, r.job, w.plan)
         && if r.ok then AllNew(r.disk.files, w.plan.components) else AllBack(r.disk.files, w.base, w.plan.components)
       else !r.ok
  }

  ghost predicate AllSupported(c: Config, records: seq<Record>, work: map<string, Work>) {
    forall i :: 0 <= i < |records| ==> Supported(c, records[i], work)
  }

  /**
   * A record of success means: every file of the signed manifest in the package the job
   * names was in place with its content and mode. A record of failure means: every
   * target of that manifest held its pre-job content and permission bits, or was absent
   * as before; or the job was never begun here. Nothing was pending, and a reported
   * rollback was usable.
   */
  ghost predicate Truthful(c: Config, r: Record, work: map<string, Work>) {
    r.disk.transaction.None?
    && (r.rollback ==> RollbackValid(c.specs, r.disk, DirOf(c, r.id)))
    && (r.ok ==> InstalledAsSigned(c.specs, c.platform, OrderOf(r.job), r.disk.files))
    && (!r.ok && r.id in work ==> NothingInstalled(c.specs, c.platform, OrderOf(r.job), r.disk.files, work[r.id].base))
  }

  lemma SupportedIsTruthful(c: Config, r: Record, work: map<string, Work>)
    requires Supported(c, r, work)
    ensures Truthful(c, r, work)
  {
    if r.id in work {
      var w := work[r.id];
      if r.ok {
        NewIsSigned(c.specs, c.platform, OrderOf(r.job), w.plan, r.disk.files);
      } else {
        BackIsSigned(c.specs, c.platform, OrderOf(r.job), w.plan, r.disk.files, w.base);
      }
    }
  }

  /** The staged plan is for the journalled job's release, from the package it names. */
  ghost predicate PlanMatches(c: Config, journal: Option<Journal>, owner: Owner) {
    owner.Worker? && (owner.pc.Verified? || owner.pc.StartSent? || owner.pc.StartAnswer?) ==>
      journal.Some? && owner.pc.plan.releaseVersion == journal.value.job.releaseVersion && PlanFrom(c, journal.value.job, owner.pc.plan)
  }

  ghost predicate Honest(c: Config, s: System) {
    DiskInv(c, s.disk, s.journal, s.work, s.begun, s.owner) && AllSupported(c, s.records, s.work)
    && PlanMatches(c, s.journal, s.owner)
  }

  // ----- directory names ---------------------------------------------------------------

  lemma DirsDiffer(c: Config, a: string, b: string)
    requires ValidIdentifier(a) && ValidIdentifier(b)
    ensures DirOf(c, a) == DirOf(c, b) ==> a == b
    ensures Temporary(DirOf(c, a)) != DirOf(c, b)
  {
    var prefix := c.root + "/var/backups/stumpfworks-badge/job-";
    assert DirOf(c, a)[|prefix|..] == a && DirOf(c, b)[|prefix|..] == b;
    assert Temporary(DirOf(c, a))[|prefix|..] == a + ".tmp";
    assert (a + ".tmp")[|a|] == '.';
  }

  // ----- disk facts ----------------------------------------------------------------------

  lemma BackIsReplaceable(files: Files, base: Files, backups: Files, dir: string, cs: seq<StagedComponent>)
    requires AllBack(files, base, cs) && AllBackedUp(backups, dir, base, cs)
    ensures AllReplaceable(files, cs)
  {
    forall i | 0 <= i < |cs|
      ensures Replaceable(files, Target(cs[i].target))
    {
      assert Back(files, base, Target(cs[i].target)) && Snapshottable(base, cs[i]);
    }
  }

  lemma SameIsBack(files: Files, base: Files, cs: seq<StagedComponent>)
    requires TargetsSame(files, base, cs)
    ensures AllBack(files, base, cs)
  {
    forall i | 0 <= i < |cs|
      ensures Back(files, base, Target(cs[i].target))
    {
      assert SameAt(files, base, Target(cs[i].target));
    }
  }

  lemma RecoverKeepsExec(c: Config, a: Image, b: Image, id: string, w: Work)
    requires ExecDisk(c, a, id, w) && a.transaction.Some?
    requires Pending(c.specs, a, a.transaction.value, w.plan, w.base) ==> RecoveryEffect(c.specs, a, b, w.plan, w.base)
    ensures ExecDisk(c, b, id, w) && b.dirs == a.dirs
  {
    if b.transaction.None? {
      BackIsReplaceable(b.files, w.base, b.files, DirOf(c, id), w.plan.components);
    }
  }

  lemma RestoreKeepsExec(c: Config, a: Image, b: Image, id: string, w: Work, r: Outcome)
    requires GoodTable(c.specs) && ExecDisk(c, a, id, w) && a.transaction.None?
    requires RestoreRelation(c, a, b, DirOf(c, id), w.plan.releaseVersion, r)
    ensures ExecDisk(c, b, id, w) && b.transaction.None? && b.dirs == a.dirs
    ensures r.Ok? ==> AllBack(b.files, w.base, w.plan.components)
  {
    var dir := DirOf(c, id);
    if dir in a.dirs {
      var m, q :| RestoreEffect(c.specs, a, m, dir, q)
        && (b == m || (q.Ok? && b == m.(state := Some(UpdateState(w.plan.releaseVersion, Failure)))))
        && (r.Ok? ==> q.Ok? && b.state == Some(UpdateState(w.plan.releaseVersion, Failure)));
      RestoreOfSnapshot(c.specs, a, m, dir, w.plan, w.base, q);
      assert ManifestOf(b, dir) == ManifestOf(m, dir);
    }
  }

  lemma InstallGivesExec(c: Config, a: Image, b: Image, id: string, plan: StagePlan, stage: string, at: int, r: Outcome)
    requires a.transaction.None? && DirOf(c, id) !in a.dirs
    requires InstallEffect(c.specs, a, b, stage, plan, UpdateTransaction(plan.releaseVersion, DirOf(c, id), at), r)
    ensures ExecDisk(c, b, id, Work(a.files, plan))
    ensures r.Ok? ==> AllNew(b.files, plan.components)
    ensures r.Fail? && b.transaction.None? ==> AllBack(b.files, a.files, plan.components)
  {
    var dir, cs := DirOf(c, id), plan.components;
    if Untouched(c.specs, a, b, dir, plan) {
      SameIsBack(b.files, a.files, cs);
      if dir in b.dirs {
        BackIsReplaceable(b.files, a.files, b.files, dir, cs);
      }
    } else if RolledBack(c.specs, a, b, dir, plan) {
      BackIsReplaceable(b.files, a.files, b.files, dir, cs);
    }
  }

  lemma InstallDirs(c: Config, a: map<string, nat>, b: map<string, nat>, begun: seq<string>, id: string)
    requires ValidIdentifier(id) && DirsAreBegun(c, a, begun)
    requires AgreeExcept(b, a, {DirOf(c, id), Temporary(DirOf(c, id))})
    ensures DirsAreBegun(c, b, begun + [id])
  {
    forall x | ValidIdentifier(x) && DirOf(c, x) in b
      ensures x in begun + [id]
    {
      if x != id {
        DirsDiffer(c, id, x);
        assert DirOf(c, x) in a;
      }
    }
  }

  // ----- steps -----------------------------------------------------------------------------

  lemma MyIdentifier(c: Config, s: System)
    requires Agrees(c, s) && s.journal.Some?
    ensures ValidIdentifier(s.journal.value.job.id)
  {
    assert Replays(s.table, s.journal.value.job.id);
  }

  lemma RecoveryHonest(c: Config, s: System, t: System, r: Outcome)
    requires Honest(c, s) && (OtherRecovery(c, s, t, r) || WorkerRecovery(c, s, t, r))
    ensures Honest(c, t)
  {
    if s.disk.transaction.Some? {
      var id := s.journal.value.job.id;
      RecoverKeepsExec(c, s.disk, t.disk, id, s.work[id]);
    }
  }

  lemma RestoreHonest(c: Config, s: System, t: System, r: Outcome)
    requires ValidConfig(c) && Honest(c, s) && RestoreInterrupted(c, s, t, r)
    ensures Honest(c, t)
  {
    var id := s.journal.value.job.id;
    RestoreKeepsExec(c, s.disk, t.disk, id, s.work[id], r);
  }

  lemma InstallHonest(c: Config, s: System, t: System, at: int, r: Outcome)
    requires Agrees(c, s) && Honest(c, s) && RunInstall(c, s, t, at, r)
    ensures Honest(c, t)
  {
    var id, plan, stage := s.journal.value.job.id, s.owner.pc.plan, s.owner.pc.stage;
    MyIdentifier(c, s);
    InstallGivesExec(c, s.disk, t.disk, id, plan, stage, at, r);
    InstallDirs(c, s.disk.dirs, t.disk.dirs, s.begun, id);
  }

  lemma DiskStepHonest(c: Config, s: System, t: System)
    requires ValidConfig(c) && Agrees(c, s) && Honest(c, s) && DiskStep(c, s, t)
    ensures Honest(c, t)
  {
    if at, r :| RunInstall(c, s, t, at, r) {
      InstallHonest(c, s, t, at, r);
    } else if r :| OtherRecovery(c, s, t, r) {
      RecoveryHonest(c, s, t, r);
    } else if r :| WorkerRecovery(c, s, t, r) {
      RecoveryHonest(c, s, t, r);
    } else if r :| RestoreInterrupted(c, s, t, r) {
      RestoreHonest(c, s, t, r);
    } else if stage :| StageFailed(s, t, stage) {
      assert t.disk.dirs == s.disk.dirs;
    } else {
      var plan, stage :| Verify(c, s, t, plan, stage);
      assert t.disk.dirs == s.disk.dirs;
    }
  }

  lemma RecordedHonest(c: Config, s: System, j: Job, ok: bool, rollback: bool)
    requires Honest(c, s) && s.disk.transaction.None?
    requires rollback ==> RollbackUsable(c, s.disk, j)
    requires Supported(c, Record(j.id, ok, rollback, s.disk, j), s.work)
    ensures Honest(c, Recorded(s, j, ok, rollback))
  {
    var t := Recorded(s, j, ok, rollback);
    forall i | 0 <= i < |t.records|
      ensures Supported(c, t.records[i], t.work)
    {
      assert i < |s.records| ==> t.records[i] == s.records[i];
    }
  }

  lemma BeginHonest(c: Config, s: System, t: System)
    requires Agrees(c, s) && Honest(c, s) && Begin(s, t)
    ensures Honest(c, t)
  {
    var id := s.journal.value.job.id;
    MyIdentifier(c, s);
    assert id !in s.work && !Done(s.records, id);
    assert id !in s.begun;
    SameIsBack(s.disk.files, s.disk.files, s.owner.pc.plan.components);
    forall i | 0 <= i < |t.records|
      ensures Supported(c, t.records[i], t.work)
    {
      assert Supported(c, s.records[i], s.work) && s.records[i].id != id;
    }
  }

  lemma TakeHonest(c: Config, s: System, t: System, rollback: bool)
    requires Agrees(c, s) && Honest(c, s) && TakeJob(c, s, t, rollback)
    ensures Honest(c, t)
  {
    if s.owner.pc.job.state.Dispatched? {
      RecordedHonest(c, s, s.owner.pc.job, false, rollback);
    }
  }

  lemma InterruptedHonest(c: Config, s: System, t: System, rollback: bool)
    requires Agrees(c, s) && Honest(c, s) && RecordInterrupted(c, s, t, rollback)
    ensures Honest(c, t)
  {
    RecordedHonest(c, s, s.journal.value.job, false, rollback);
  }

  lemma ResultHonest(c: Config, s: System, t: System, rollback: bool)
    requires Agrees(c, s) && Honest(c, s) && RecordResult(c, s, t, rollback)
    ensures Honest(c, t)
  {
    RecordedHonest(c, s, s.journal.value.job, s.owner.pc.ok, rollback);
  }

  lemma ForgottenIsNotExecuting(c: Config, s: System, t: System)
    requires PcAgrees(c, s.table, s.journal, s.work.Keys, s.begun, s.records, s.owner)
    requires Forget(s, t) || Refused(s, t) || Acknowledged(s, t)
    ensures t == s.(journal := None, owner := Nobody) && !(s.journal.Some? && s.journal.value.phase.Executing?)
  {
  }

  lemma ForgetHonest(c: Config, s: System)
    requires Honest(c, s) && !(s.journal.Some? && s.journal.value.phase.Executing?)
    ensures Honest(c, s.(journal := None, owner := Nobody))
  {
  }

  lemma JournalStepHonest(c: Config, s: System, t: System)
    requires Agrees(c, s) && Honest(c, s) && JournalStep(c, s, t)
    ensures Honest(c, t)
  {
    if rollback :| RecordInterrupted(c, s, t, rollback) {
      InterruptedHonest(c, s, t, rollback);
    } else if rollback :| RecordResult(c, s, t, rollback) {
      ResultHonest(c, s, t, rollback);
    } else if rollback :| TakeJob(c, s, t, rollback) {
      TakeHonest(c, s, t, rollback);
    } else if Begin(s, t) {
      BeginHonest(c, s, t);
    } else {
      ForgottenIsNotExecuting(c, s, t);
      ForgetHonest(c, s);
    }
  }

  /** A step that leaves disk and history alone and tells an executing job nothing new. */
  lemma QuietHonest(c: Config, s: System, t: System)
    requires Honest(c, s) && Quiet(c, s, t)
    ensures Honest(c, t)
  {
  }

  ghost predicate Quiet(c: Config, s: System, t: System) {
    t == s.(table := t.table, net := t.net, floor := t.floor, owner := t.owner)
    && (s.journal.Some? && s.journal.value.phase.Executing? ==>
          t.owner == s.owner || t.owner.Nobody? || t.owner == Worker(Locked))
    && (PlanMatches(c, s.journal, s.owner) ==> PlanMatches(c, t.journal, t.owner))
  }

  lemma ServerStepQuiet(c: Config, s: System, t: System)
    requires PcAgrees(c, s.table, s.journal, s.work.Keys, s.begun, s.records, s.owner) && ServerStep(c, s, t)
    ensures Quiet(c, s, t)
  {
    if id, now :| HandlePoll(c, s, t, id, now) {
    } else if ServerElsewhere(c, s, t) {
    } else if id, approved, clients, caller, now :| HandleStart(c, s, t, id, approved, clients, caller, now) {
    } else {
      var id, ok, rollback, clients, caller, now :| HandleResult(c, s, t, id, ok, rollback, clients, caller, now);
    }
  }

  lemma LocalStepQuiet(c: Config, s: System, t: System)
    requires PcAgrees(c, s.table, s.journal, s.work.Keys, s.begun, s.records, s.owner) && LocalStep(c, s, t)
    ensures Quiet(c, s, t)
  {
  }

  /** Every step keeps the disk invariant and the truth of the records. */
  lemma StepHonest(c: Config, s: System, t: System)
    requires ValidConfig(c) && Agrees(c, s) && Honest(c, s) && Step(c, s, t)
    ensures Honest(c, t)
  {
    if ServerStep(c, s, t) {
      ServerStepQuiet(c, s, t);
      QuietHonest(c, s, t);
    } else if LocalStep(c, s, t) {
      LocalStepQuiet(c, s, t);
      QuietHonest(c, s, t);
    } else if DiskStep(c, s, t) {
      DiskStepHonest(c, s, t);
    } else {
      JournalStepHonest(c, s, t);
    }
  }
}
