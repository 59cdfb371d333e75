/** The installed-version floor never decreases and reported releases strictly increase, in every run of the protocol. */
module VersionFloor {
  import opened Strings
  import opened Disks
  import opened Transaction
  import opened Install
  import opened Jobs
  import opened Protocol
  import opened Agreement
  import opened Truth
  import Versions

  // ----- the order, as the protocol uses it ---------------------------------------------

  lemma AtMostReflexive(a: string)
    requires Versions.Valid(a)
    ensures AtMost(a, a)
  {
    Versions.ZeroMeansSameReading(a, a);
  }

  lemma AtMostTransitive(a: string, b: string, c: string)
    requires AtMost(a, b) && AtMost(b, c)
    ensures AtMost(a, c)
    ensures Older(a, b) || Older(b, c) ==> Older(a, c)
  {
    Versions.OlderIsTransitive(a, b, c);
  }

  lemma OlderIsNotNewer(a: string, b: string)
    requires Older(a, b)
    ensures Newer(b, a) && AtMost(a, b) && !Newer(a, b)
  {
    Versions.AntisymmetryExact(a, b);
  }

  lemma AtMostIsNotNewer(a: string, b: string)
    ensures AtMost(a, b) ==> !Newer(a, b)
    ensures Versions.Valid(a) && Versions.Valid(b) && !Newer(a, b) ==> AtMost(a, b)
  {
  }

  lemma CurrentCoversFloor(build: string, floor: string)
    requires Versions.Valid(build) && Versions.Valid(floor)
    ensures AtMost(floor, Current(build, Some(floor)))
  {
    AtMostReflexive(floor);
    AtMostIsNotNewer(floor, build);
  }

  /** Whatever is older than the current version's successor is above the floor. */
  predicate Above(c: Config, floor: Option<string>, release: string) {
    Older(Current(c.build, floor), release) && (floor.Some? ==> Versions.Valid(floor.value))
  }

  lemma AboveFloor(c: Config, floor: string, release: string)
    requires ValidConfig(c) && Above(c, Some(floor), release)
    ensures Older(floor, release)
  {
    CurrentCoversFloor(c.build, floor);
    OlderIsNotNewer(Current(c.build, Some(floor)), release);
    AtMostTransitive(floor, Current(c.build, Some(floor)), release);
  }

  // ----- the invariant ----------------------------------------------------------------------

  predicate Comparable(a: string, b: string) {
    AtMost(a, b) || AtMost(b, a)
  }

  /** A successful update state may be saved as the floor. */
  predicate Trusted(state: Option<UpdateState>, floor: Option<string>) {
    state.Some? && state.value.status.Success? ==>
      Versions.Valid(state.value.version) && (floor.Some? ==> Comparable(state.value.version, floor.value))
  }

  ghost predicate Strict(released: seq<string>) {
    forall i, j :: 0 <= i < j < |released| ==> Older(released[i], released[j])
  }

  ghost predicate Covered(released: seq<string>, floor: Option<string>) {
    forall i :: 0 <= i < |released| ==> floor.Some? && AtMost(released[i], floor.value)
  }

  predicate HasPlan(owner: Owner) {
    owner.Worker? && (owner.pc.Verified? || owner.pc.StartSent? || owner.pc.StartAnswer?)
  }

  predicate FloorSaved(owner: Owner) {
    owner.Worker? && (owner.pc.Saved? || owner.pc.ResultSent? || owner.pc.ResultAnswer?)
  }

  /** While a job executes the update state may be ahead of the facts; these are the points where it is not. */
  predicate StateSettled(c: Config, d: Image, id: string, owner: Owner) {
    DirOf(c, id) !in d.dirs
    || (owner.Worker? && (owner.pc.Begun? || owner.pc.Restored?
                          || (owner.pc.Installed? && !owner.pc.ok && d.transaction.None?)))
  }

  ghost predicate VersionInv(c: Config, d: Image, floor: Option<string>, released: seq<string>, journal: Option<Journal>, owner: Owner) {
    Strict(released) && (floor.Some? ==> Versions.Valid(floor.value))
    && (journal.Some? ==> Versions.Valid(journal.value.job.releaseVersion)) &&
    if journal.None? then Covered(released, floor) && Trusted(d.state, floor)
    else
      var release := journal.value.job.releaseVersion;
      match journal.value.phase
      case Prepared => Covered(released, floor) && Trusted(d.state, floor) && (HasPlan(owner) ==> Above(c, floor, release))
      case Executing =>
        Covered(released, floor) && Above(c, floor, release)
        && (StateSettled(c, d, journal.value.job.id, owner) ==> Trusted(d.state, floor))
        && (owner == Worker(Installed(true)) && d.transaction.None? ==> d.state == Some(UpdateState(release, Success)))
      case Finished(ok) =>
        if ok then
          released != [] && released[|released| - 1] == release && d.state == Some(UpdateState(release, Success))
          && (floor == Some(release) || Above(c, floor, release))
          && (FloorSaved(owner) ==> floor == Some(release))
        else Covered(released, floor) && Trusted(d.state, floor)
  }

  ghost predicate Monotone(a: Option<string>, b: Option<string>) {
    a.Some? ==> b.Some? && (a == b || AtMost(a.value, b.value))
  }

  // ----- steps that touch neither floor nor state nor journal ------------------------------------

  lemma QuietVersions(c: Config, s: System, t: System)
    requires VersionInv(c, s.disk, s.floor, s.released, s.journal, s.owner)
    requires t == s.(table := t.table, net := t.net, owner := t.owner)
    requires HasPlan(t.owner) ==> HasPlan(s.owner)
    requires FloorSaved(t.owner) ==> FloorSaved(s.owner)
    requires t.owner.Worker? && (t.owner.pc.Begun? || t.owner.pc.Restored? || t.owner.pc.Installed?) ==> t.owner == s.owner
    ensures VersionInv(c, t.disk, t.floor, t.released, t.journal, t.owner)
  {
  }

  lemma ServerVersions(c: Config, s: System, t: System)
    requires VersionInv(c, s.disk, s.floor, s.released, s.journal, s.owner) && ServerStep(c, s, t)
    ensures VersionInv(c, t.disk, t.floor, t.released, t.journal, t.owner) && t.floor == s.floor
  {
    ServerShape(c, s, t);
    QuietVersions(c, s, t);
  }

  lemma ServerShape(c: Config, s: System, t: System)
    requires ServerStep(c, s, t)
    ensures t == s.(table := t.table, net := t.net, owner := t.owner)
    ensures HasPlan(t.owner) ==> HasPlan(s.owner)
    ensures FloorSaved(t.owner) ==> FloorSaved(s.owner)
    ensures t.owner.Worker? && (t.owner.pc.Begun? || t.owner.pc.Restored? || t.owner.pc.Installed?) ==> t.owner == s.owner
  {
    if ServerElsewhere(c, s, t) {
    } else if id, now :| HandlePoll(c, s, t, id, now) {
    } else if id, approved, clients, caller, now :| HandleStart(c, s, t, id, approved, clients, caller, now) {
    } else {
      var id, ok, rollback, clients, caller, now :| HandleResult(c, s, t, id, ok, rollback, clients, caller, now);
    }
  }

  // ----- floor ----------------------------------------------------------------------------------

  /** Saving a trusted, newer state raises the floor. */
  lemma SyncRaises(c: Config, floor: Option<string>, state: Option<UpdateState>)
    requires ValidConfig(c) && (floor.Some? ==> Versions.Valid(floor.value))
    requires Unsynced(c.build, floor, state) && Trusted(state, floor)
    ensures floor.Some? ==> AtMost(floor.value, state.value.version)
  {
    var v := state.value.version;
    if floor.Some? && AtMost(v, floor.value) {
      CurrentCoversFloor(c.build, floor.value);
      AtMostTransitive(v, floor.value, Current(c.build, floor));
      AtMostIsNotNewer(v, Current(c.build, floor));
    }
  }

  lemma CoveredByMore(released: seq<string>, a: Option<string>, b: string)
    requires Covered(released, a) && (a.Some? ==> AtMost(a.value, b))
    ensures Covered(released, Some(b))
  {
    forall i | 0 <= i < |released|
      ensures AtMost(released[i], b)
    {
      AtMostTransitive(released[i], a.value, b);
    }
  }

  lemma SyncVersions(c: Config, s: System, t: System)
    requires ValidConfig(c) && PcAgrees(c, s.table, s.journal, s.work.Keys, s.begun, s.records, s.owner) && SyncFloor(c, s, t)
    requires VersionInv(c, s.disk, s.floor, s.released, s.journal, s.owner)
    ensures VersionInv(c, t.disk, t.floor, t.released, t.journal, t.owner) && Monotone(s.floor, t.floor)
  {
    if s.owner == Worker(Preparing) {
      PreparedFacts(c, s);
      SyncPrepared(c, s, t);
    } else {
      SyncReported(c, s.floor, s.disk.state.value.version);
    }
  }

  lemma PreparedFacts(c: Config, s: System)
    requires s.journal.Some? && s.journal.value.phase.Prepared? && VersionInv(c, s.disk, s.floor, s.released, s.journal, s.owner)
    ensures Strict(s.released) && Covered(s.released, s.floor) && Trusted(s.disk.state, s.floor)
    ensures (s.floor.Some? ==> Versions.Valid(s.floor.value)) && Versions.Valid(s.journal.value.job.releaseVersion)
  {
  }

  lemma SyncPrepared(c: Config, s: System, t: System)
    requires ValidConfig(c) && SyncFloor(c, s, t) && s.owner == Worker(Preparing) && s.journal.Some? && s.journal.value.phase.Prepared?
    requires Strict(s.released) && Covered(s.released, s.floor) && Trusted(s.disk.state, s.floor)
    requires (s.floor.Some? ==> Versions.Valid(s.floor.value)) && Versions.Valid(s.journal.value.job.releaseVersion)
    ensures VersionInv(c, t.disk, t.floor, t.released, t.journal, t.owner) && Monotone(s.floor, t.floor)
  {
    SyncFacts(c, s.floor, s.disk.state, s.released);
  }

  lemma SyncFacts(c: Config, floor: Option<string>, state: Option<UpdateState>, released: seq<string>)
    requires ValidConfig(c) && (floor.Some? ==> Versions.Valid(floor.value)) && Covered(released, floor)
    requires Unsynced(c.build, floor, state) && Trusted(state, floor)
    ensures var v := state.value.version;
            Covered(released, Some(v)) && Trusted(state, Some(v)) && Monotone(floor, Some(v))
  {
    var v := state.value.version;
    AtMostReflexive(v);
    SyncRaises(c, floor, state);
    CoveredByMore(released, floor, v);
  }

  lemma SyncReported(c: Config, floor: Option<string>, release: string)
    requires ValidConfig(c) && (floor == Some(release) || Above(c, floor, release))
    ensures Monotone(floor, Some(release))
  {
    if floor.Some? && floor.value != release {
      AboveFloor(c, floor.value, release);
      OlderIsNotNewer(floor.value, release);
    }
  }

  lemma SaveVersions(c: Config, s: System, t: System)
    requires ValidConfig(c) && SaveFloor(c, s, t)
    requires VersionInv(c, s.disk, s.floor, s.released, s.journal, s.owner)
    ensures VersionInv(c, t.disk, t.floor, t.released, t.journal, t.owner) && Monotone(s.floor, t.floor)
  {
    var release := s.journal.value.job.releaseVersion;
    if s.journal.value.phase.ok && s.floor != Some(release) {
      OlderIsNotNewer(Current(c.build, s.floor), release);
      if s.floor.Some? {
        AboveFloor(c, s.floor.value, release);
        OlderIsNotNewer(s.floor.value, release);
      }
    }
  }

  lemma LocalShape(c: Config, s: System, t: System)
    requires PcAgrees(c, s.table, s.journal, s.work.Keys, s.begun, s.records, s.owner) && LocalStep(c, s, t) && !SyncFloor(c, s, t) && !SaveFloor(c, s, t)
    ensures t == s.(table := t.table, net := t.net, owner := t.owner)
    ensures HasPlan(t.owner) ==> HasPlan(s.owner)
    ensures FloorSaved(t.owner) ==> FloorSaved(s.owner)
    ensures t.owner.Worker? && (t.owner.pc.Begun? || t.owner.pc.Restored? || t.owner.pc.Installed?) ==> t.owner == s.owner
  {
  }

  lemma LocalVersions(c: Config, s: System, t: System)
    requires ValidConfig(c) && PcAgrees(c, s.table, s.journal, s.work.Keys, s.begun, s.records, s.owner) && LocalStep(c, s, t)
    requires VersionInv(c, s.disk, s.floor, s.released, s.journal, s.owner)
    ensures VersionInv(c, t.disk, t.floor, t.released, t.journal, t.owner) && Monotone(s.floor, t.floor)
  {
    if SyncFloor(c, s, t) {
      SyncVersions(c, s, t);
    } else if SaveFloor(c, s, t) {
      SaveVersions(c, s, t);
    } else {
      LocalShape(c, s, t);
      QuietVersions(c, s, t);
    }
  }

  // ----- journal ---------------------------------------------------------------------------------

  lemma CoveredIsOlder(c: Config, x: string, floor: string, release: string)
    requires ValidConfig(c) && AtMost(x, floor) && Above(c, Some(floor), release)
    ensures Older(x, release)
  {
    AboveFloor(c, floor, release);
    OlderIsNotNewer(floor, release);
    AtMostTransitive(x, floor, release);
  }

  /** Appending a last element that is above all others. */
  lemma OrderedNext(order: (string, string) -> bool, xs: seq<string>, x: string)
    requires forall i, j :: 0 <= i < j < |xs| ==> order(xs[i], xs[j])
    requires forall i :: 0 <= i < |xs| ==> order(xs[i], x)
    ensures forall i, j :: 0 <= i < j < |xs + [x]| ==> order((xs + [x])[i], (xs + [x])[j])
  {
  }

  /** A release above the floor is newer than everything the floor covers. */
  lemma StrictNext(c: Config, released: seq<string>, floor: Option<string>, release: string)
    requires ValidConfig(c) && Strict(released) && Covered(released, floor) && Above(c, floor, release)
    ensures Strict(released + [release])
  {
    var order := (a: string, b: string) => Older(a, b);
    forall i | 0 <= i < |released|
      ensures order(released[i], release)
    {
      CoveredIsOlder(c, released[i], floor.value, release);
    }
    OrderedNext(order, released, release);
  }

  /** What the version invariant says of a finished installation that is not yet recorded. */
  lemma ExecFacts(c: Config, s: System)
    requires s.journal.Some? && s.journal.value.phase.Executing? && s.owner == Worker(Installed(true)) && s.disk.transaction.None?
    requires VersionInv(c, s.disk, s.floor, s.released, s.journal, s.owner)
    ensures Strict(s.released) && Covered(s.released, s.floor) && Above(c, s.floor, s.journal.value.job.releaseVersion)
    ensures s.disk.state == Some(UpdateState(s.journal.value.job.releaseVersion, Success))
    ensures s.floor.Some? ==> Versions.Valid(s.floor.value)
  {
  }

  lemma SuccessVersions(c: Config, s: System, t: System, rollback: bool)
    requires ValidConfig(c) && s.journal.Some? && s.journal.value.phase.Executing?
    requires s.owner == Worker(Installed(true)) && s.disk.transaction.None?
    requires VersionInv(c, s.disk, s.floor, s.released, s.journal, s.owner)
    requires t == Recorded(s, s.journal.value.job, true, rollback)
    ensures VersionInv(c, t.disk, t.floor, t.released, t.journal, t.owner)
  {
    ExecFacts(c, s);
    StrictNext(c, s.released, s.floor, s.journal.value.job.releaseVersion);
    SuccessInv(c, s, t, rollback);
  }

  lemma SuccessInv(c: Config, s: System, t: System, rollback: bool)
    requires s.journal.Some? && t == Recorded(s, s.journal.value.job, true, rollback)
    requires Strict(s.released + [s.journal.value.job.releaseVersion]) && Above(c, s.floor, s.journal.value.job.releaseVersion)
    requires s.disk.state == Some(UpdateState(s.journal.value.job.releaseVersion, Success))
    ensures VersionInv(c, t.disk, t.floor, t.released, t.journal, t.owner)
  {
  }

  lemma JournalVersions(c: Config, s: System, t: System)
    requires ValidConfig(c) && PcAgrees(c, s.table, s.journal, s.work.Keys, s.begun, s.records, s.owner) && JournalStep(c, s, t)
    requires VersionInv(c, s.disk, s.floor, s.released, s.journal, s.owner)
    ensures VersionInv(c, t.disk, t.floor, t.released, t.journal, t.owner) && t.floor == s.floor
  {
    if rollback :| RecordResult(c, s, t, rollback) {
      if s.owner.pc.ok {
        SuccessVersions(c, s, t, rollback);
      } else {
        FailureVersions(c, s, t, s.journal.value.job, rollback);
      }
    } else if rollback :| RecordInterrupted(c, s, t, rollback) {
      FailureVersions(c, s, t, s.journal.value.job, rollback);
    } else if rollback :| TakeJob(c, s, t, rollback) {
      TakeVersions(c, s, t, rollback);
    } else if Acknowledged(s, t) {
      AcknowledgedVersions(c, s, t);
    } else {
      PreparedVersions(c, s, t);
    }
  }

  lemma FailureVersions(c: Config, s: System, t: System, j: Job, rollback: bool)
    requires VersionInv(c, s.disk, s.floor, s.released, s.journal, s.owner) && Versions.Valid(j.releaseVersion)
    requires s.journal.None? || (s.journal.value.phase.Executing? && StateSettled(c, s.disk, s.journal.value.job.id, s.owner))
    requires t == Recorded(s, j, false, rollback)
    ensures VersionInv(c, t.disk, t.floor, t.released, t.journal, t.owner)
  {
  }

  lemma TakeVersions(c: Config, s: System, t: System, rollback: bool)
    requires PcAgrees(c, s.table, s.journal, s.work.Keys, s.begun, s.records, s.owner) && TakeJob(c, s, t, rollback)
    requires VersionInv(c, s.disk, s.floor, s.released, s.journal, s.owner)
    ensures VersionInv(c, t.disk, t.floor, t.released, t.journal, t.owner)
  {
    if s.owner.pc.job.state.Dispatched? {
      FailureVersions(c, s, t, s.owner.pc.job, rollback);
    }
  }

  lemma PreparedVersions(c: Config, s: System, t: System)
    requires PcAgrees(c, s.table, s.journal, s.work.Keys, s.begun, s.records, s.owner) && (Forget(s, t) || Refused(s, t) || Begin(s, t))
    requires VersionInv(c, s.disk, s.floor, s.released, s.journal, s.owner)
    ensures VersionInv(c, t.disk, t.floor, t.released, t.journal, t.owner)
  {
  }

  lemma AcknowledgedVersions(c: Config, s: System, t: System)
    requires Acknowledged(s, t) && s.journal.Some? && s.journal.value.phase.Finished?
    requires VersionInv(c, s.disk, s.floor, s.released, s.journal, s.owner)
    ensures VersionInv(c, t.disk, t.floor, t.released, t.journal, t.owner)
  {
    var release := s.journal.value.job.releaseVersion;
    if s.journal.value.phase.ok {
      AtMostReflexive(release);
      forall i | 0 <= i < |s.released|
        ensures AtMost(s.released[i], release)
      {
        if i < |s.released| - 1 {
          OlderIsNotNewer(s.released[i], release);
        }
      }
    }
  }

  // ----- disk -------------------------------------------------------------------------------------

  /** How disk work may change the update state of the executing job. */
  ghost predicate StateMoves(c: Config, a: Image, b: Image, id: string, release: string, owner: Owner) {
    (DirOf(c, id) !in b.dirs ==> b.state == a.state && DirOf(c, id) !in a.dirs)
    && (owner.Worker? ==>
          match owner.pc
          case Installed(ok) => b.transaction.None? ==>
            if ok then b.state == Some(UpdateState(release, Success))
            else b.state == a.state || b.state == Some(UpdateState(release, Failure))
          case Restored => b.state == Some(UpdateState(release, Failure)) || (b.state == a.state && DirOf(c, id) !in a.dirs)
          case Ready => true
          case _ => false)
  }

  /** The version invariant of an executing journal. */
  ghost predicate ExecInv(c: Config, d: Image, floor: Option<string>, released: seq<string>, j: Job, owner: Owner) {
    Covered(released, floor) && Above(c, floor, j.releaseVersion)
    && (StateSettled(c, d, j.id, owner) ==> Trusted(d.state, floor))
    && (owner == Worker(Installed(true)) && d.transaction.None? ==> d.state == Some(UpdateState(j.releaseVersion, Success)))
  }

  /** Where the state is settled afterwards, it was settled before and is the same, or it tells of the failure. */
  lemma SettledMoves(c: Config, a: Image, b: Image, id: string, release: string, before: Owner, after: Owner)
    requires StateMoves(c, a, b, id, release, after) && StateSettled(c, b, id, after)
    requires after.Worker? && after.pc.Installed? ==> before.Worker? && before.pc.Begun?
    ensures (b.state == a.state && StateSettled(c, a, id, before)) || b.state == Some(UpdateState(release, Failure))
  {
  }

  lemma ExecStep(c: Config, a: Image, b: Image, floor: Option<string>, released: seq<string>, j: Job, before: Owner, after: Owner)
    requires ExecInv(c, a, floor, released, j, before) && StateMoves(c, a, b, j.id, j.releaseVersion, after)
    requires after.Worker? && after.pc.Installed? ==> before.Worker? && before.pc.Begun?
    ensures ExecInv(c, b, floor, released, j, after)
  {
    if StateSettled(c, b, j.id, after) {
      SettledMoves(c, a, b, j.id, j.releaseVersion, before, after);
    }
  }

  lemma ExecVersions(c: Config, s: System, t: System)
    requires VersionInv(c, s.disk, s.floor, s.released, s.journal, s.owner)
    requires s.journal.Some? && s.journal.value.phase.Executing?
    requires t == s.(disk := t.disk, owner := t.owner, begun := t.begun)
    requires StateMoves(c, s.disk, t.disk, s.journal.value.job.id, s.journal.value.job.releaseVersion, t.owner)
    requires t.owner.Worker? && t.owner.pc.Installed? ==> s.owner.Worker? && s.owner.pc.Begun?
    ensures VersionInv(c, t.disk, t.floor, t.released, t.journal, t.owner)
  {
    ExecStep(c, s.disk, t.disk, s.floor, s.released, s.journal.value.job, s.owner, t.owner);
  }

  lemma InstallMoves(c: Config, a: Image, b: Image, id: string, plan: StagePlan, stage: string, at: int, r: Outcome)
    requires DirOf(c, id) !in a.dirs
    requires InstallEffect(c.specs, a, b, stage, plan, UpdateTransaction(plan.releaseVersion, DirOf(c, id), at), r)
    ensures StateMoves(c, a, b, id, plan.releaseVersion, if r.Crash? then Nobody else Worker(Installed(r.Ok?)))
  {
  }

  lemma RestoreMoves(c: Config, a: Image, b: Image, id: string, release: string, r: Outcome)
    requires RestoreRelation(c, a, b, DirOf(c, id), release, r)
    ensures StateMoves(c, a, b, id, release, if r.Ok? then Worker(Restored) else Nobody)
  {
  }

  lemma InstallVersions(c: Config, s: System, t: System, at: int, r: Outcome)
    requires Agrees(c, s) && Honest(c, s) && RunInstall(c, s, t, at, r)
    requires VersionInv(c, s.disk, s.floor, s.released, s.journal, s.owner)
    ensures VersionInv(c, t.disk, t.floor, t.released, t.journal, t.owner)
  {
    BegunFacts(c, s);
    InstallMoves(c, s.disk, t.disk, s.journal.value.job.id, s.owner.pc.plan, s.owner.pc.stage, at, r);
    ExecVersions(c, s, t);
  }

  lemma BegunFacts(c: Config, s: System)
    requires Agrees(c, s) && Honest(c, s) && s.owner.Worker? && s.owner.pc.Begun?
    ensures s.journal.Some? && s.journal.value.phase.Executing?
    ensures s.owner.pc.plan.releaseVersion == s.journal.value.job.releaseVersion
    ensures DirOf(c, s.journal.value.job.id) !in s.disk.dirs
  {
    MyIdentifier(c, s);
  }

  lemma RestoreVersions(c: Config, s: System, t: System, r: Outcome)
    requires RestoreInterrupted(c, s, t, r)
    requires VersionInv(c, s.disk, s.floor, s.released, s.journal, s.owner)
    ensures VersionInv(c, t.disk, t.floor, t.released, t.journal, t.owner)
  {
    RestoreMoves(c, s.disk, t.disk, s.journal.value.job.id, s.journal.value.job.releaseVersion, r);
    ExecVersions(c, s, t);
  }

  lemma RecoveryFacts(c: Config, s: System, d: Image, r: Outcome)
    requires Honest(c, s) && RecoverRelation(c, s, d, r)
    ensures d == s.disk || (s.journal.Some? && s.journal.value.phase.Executing? && d.dirs == s.disk.dirs
                            && DirOf(c, s.journal.value.job.id) in s.disk.dirs)
  {
    if s.disk.transaction.Some? {
      var id := s.journal.value.job.id;
      RecoverKeepsExec(c, s.disk, d, id, s.work[id]);
    }
  }

  lemma RecoveryVersions(c: Config, s: System, t: System, r: Outcome)
    requires Honest(c, s) && (OtherRecovery(c, s, t, r) || WorkerRecovery(c, s, t, r))
    requires VersionInv(c, s.disk, s.floor, s.released, s.journal, s.owner)
    ensures VersionInv(c, t.disk, t.floor, t.released, t.journal, t.owner)
  {
    RecoveryFacts(c, s, t.disk, r);
    if t.disk == s.disk {
      QuietVersions(c, s, t);
    } else {
      ExecVersions(c, s, t);
    }
  }

  lemma VerifyVersions(c: Config, s: System, t: System, plan: StagePlan, stage: string)
    requires PcAgrees(c, s.table, s.journal, s.work.Keys, s.begun, s.records, s.owner) && Verify(c, s, t, plan, stage)
    requires VersionInv(c, s.disk, s.floor, s.released, s.journal, s.owner)
    ensures VersionInv(c, t.disk, t.floor, t.released, t.journal, t.owner)
  {
  }

  lemma StageFailedVersions(c: Config, s: System, t: System, stage: string)
    requires StageFailed(s, t, stage) && VersionInv(c, s.disk, s.floor, s.released, s.journal, s.owner)
    ensures VersionInv(c, t.disk, t.floor, t.released, t.journal, t.owner)
  {
  }

  lemma DiskVersions(c: Config, s: System, t: System)
    requires ValidConfig(c) && Agrees(c, s) && Honest(c, s) && DiskStep(c, s, t)
    requires VersionInv(c, s.disk, s.floor, s.released, s.journal, s.owner)
    ensures VersionInv(c, t.disk, t.floor, t.released, t.journal, t.owner) && t.floor == s.floor
  {
    if at, r :| RunInstall(c, s, t, at, r) {
      InstallVersions(c, s, t, at, r);
    } else if plan, stage :| Verify(c, s, t, plan, stage) {
      VerifyVersions(c, s, t, plan, stage);
    } else if stage :| StageFailed(s, t, stage) {
      StageFailedVersions(c, s, t, stage);
    } else if r :| RestoreInterrupted(c, s, t, r) {
      RestoreVersions(c, s, t, r);
    } else if r :| WorkerRecovery(c, s, t, r) {
      RecoveryVersions(c, s, t, r);
    } else {
      var r :| OtherRecovery(c, s, t, r);
      RecoveryVersions(c, s, t, r);
    }
  }

  /** Every step keeps the version invariant and never lowers the floor. */
  lemma StepVersions(c: Config, s: System, t: System)
    requires ValidConfig(c) && Agrees(c, s) && Honest(c, s) && Step(c, s, t)
    requires VersionInv(c, s.disk, s.floor, s.released, s.journal, s.owner)
    ensures VersionInv(c, t.disk, t.floor, t.released, t.journal, t.owner) && Monotone(s.floor, t.floor)
  {
    if ServerStep(c, s, t) {
      ServerVersions(c, s, t);
    } else if LocalStep(c, s, t) {
      LocalVersions(c, s, t);
    } else if DiskStep(c, s, t) {
      DiskVersions(c, s, t);
    } else {
      JournalVersions(c, s, t);
    }
  }

  // ----- saving the state's version ------------------------------------------------------------

  lemma NewerThanBuild(build: string, floor: Option<string>, v: string)
    requires Versions.Valid(build) && (floor.Some? ==> Versions.Valid(floor.value)) && Newer(v, Current(build, floor))
    requires Current(build, floor) == build || Older(Current(build, floor), v)
    ensures Newer(v, build)
  {
    var f := Current(build, floor);
    if f != build && AtMost(v, build) {
      OlderIsNotNewer(f, v);
      AtMostTransitive(f, v, build);
      OlderIsNotNewer(f, build);
    }
  }

  lemma ComparableIsOlder(a: string, b: string)
    requires Comparable(a, b) && Newer(a, b)
    ensures Older(b, a)
  {
    if Versions.Compare(b, a) == 0 {
      Versions.ZeroMeansSameReading(b, a);
      Versions.ZeroMeansSameReading(a, b);
    }
  }

  lemma TrustedIsOlder(c: Config, floor: Option<string>, state: Option<UpdateState>)
    requires Trusted(state, floor) && Unsynced(c.build, floor, state)
    ensures Current(c.build, floor) == c.build || Older(Current(c.build, floor), state.value.version)
  {
    if floor.Some? && Current(c.build, floor) != c.build {
      ComparableIsOlder(state.value.version, floor.value);
    }
  }

  /** What the version invariant says of a prepared journal and of a reported success. */
  lemma VersionFacts(c: Config, s: System)
    requires VersionInv(c, s.disk, s.floor, s.released, s.journal, s.owner) && s.journal.Some?
    ensures s.floor.Some? ==> Versions.Valid(s.floor.value)
    ensures s.journal.value.phase.Prepared? ==> Trusted(s.disk.state, s.floor)
    ensures s.journal.value.phase == Finished(true) ==>
      var release := s.journal.value.job.releaseVersion;
      s.disk.state == Some(UpdateState(release, Success)) && (s.floor == Some(release) || Above(c, s.floor, release))
  {
  }

  /** A newly saved version is the installed version, and nothing is left to save. */
  lemma SavedIsCurrent(build: string, v: string, state: UpdateState)
    requires Newer(v, build) && state.version == v
    ensures Current(build, Some(v)) == v && !Unsynced(build, Some(v), Some(state))
  {
    AtMostReflexive(v);
  }

  lemma SyncedAfter(c: Config, s: System)
    requires ValidConfig(c) && VersionInv(c, s.disk, s.floor, s.released, s.journal, s.owner)
    requires Unsynced(c.build, s.floor, s.disk.state) && s.journal.Some?
    requires s.journal.value.phase.Prepared? || s.journal.value.phase == Finished(true)
    ensures var v := s.disk.state.value.version;
            Current(c.build, Some(v)) == v && !Unsynced(c.build, Some(v), s.disk.state)
  {
    var v := s.disk.state.value.version;
    VersionFacts(c, s);
    if s.journal.value.phase.Prepared? {
      TrustedIsOlder(c, s.floor, s.disk.state);
      NewerThanBuild(c.build, s.floor, v);
    } else if s.floor == Some(v) {
      AtMostReflexive(v);
    } else {
      NewerThanBuild(c.build, s.floor, v);
    }
    SavedIsCurrent(c.build, v, s.disk.state.value);
  }
}
