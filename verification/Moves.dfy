/**
 * How a trace of protocol states may go on: for each thing the programs do, that
 * doing it in the state a run has reached is a step of the protocol.
 */
module Moves {
  import opened Strings
  import opened Disks
  import opened Restore
  import opened Rollback
  import opened Transaction
  import opened Install
  import opened Staging
  import opened Jobs
  import opened Protocol
  import opened Agreement
  import Versions
  import VersionFloor
  import Safety

  /**
   * `runs` are the protocol runs of `c`. A program carries the set, and what a run
   * is comes up only where one is mentioned with Named, which always holds.
   */
  ghost predicate Sound(runs: iset<seq<System>>, c: Config) {
    forall run {:trigger Named(run)} :: Named(run) ==> (run in runs <==> Protocol.Run(c, run))
  }

  predicate Named(run: seq<System>) { true }

  /** The run may go on with `t`. */
  ghost predicate Follows(runs: iset<seq<System>>, trace: seq<System>, t: System) {
    trace + [t] in runs
  }

  ghost predicate At(runs: iset<seq<System>>, c: Config, trace: seq<System>, s: System) {
    Sound(runs, c) && trace in runs && trace != [] && trace[|trace| - 1] == s
  }

  /** `later` continues `earlier`. */
  ghost predicate Grew(earlier: seq<System>, later: seq<System>) {
    forall run {:trigger Named(run)} :: Named(run) && run == earlier ==> run <= later
  }

  lemma Grown(a: seq<System>, b: seq<System>, c: seq<System>)
    requires Grew(a, b) && Grew(b, c)
    ensures Grew(a, c)
  {
    assert Named(a) && Named(b);
  }

  lemma FirstState(runs: iset<seq<System>>, c: Config, s: System)
    requires Init(c, s) && runs == iset run | Protocol.Run(c, run)
    ensures At(runs, c, [s], s)
  {
    assert Protocol.Run(c, [s]);
  }

  lemma StepFollows(runs: iset<seq<System>>, c: Config, trace: seq<System>, s: System, t: System)
    requires At(runs, c, trace, s) && Step(c, s, t)
    ensures Follows(runs, trace, t)
  {
    var longer := trace + [t];
    assert Named(trace) && Named(longer);
    forall i | 0 <= i < |longer| - 1
      ensures StepAt(c, longer, i)
    {
      if i < |trace| - 1 {
        assert StepAt(c, trace, i);
      }
    }
  }

  // ----- one lemma for each kind of step --------------------------------------------------------

  lemma ServerFollows(runs: iset<seq<System>>, c: Config, trace: seq<System>, s: System, t: System)
    requires At(runs, c, trace, s) && ServerStep(c, s, t)
    ensures Follows(runs, trace, t)
  {
    StepFollows(runs, c, trace, s, t);
  }

  lemma DiskFollows(runs: iset<seq<System>>, c: Config, trace: seq<System>, s: System, t: System)
    requires At(runs, c, trace, s) && DiskStep(c, s, t)
    ensures Follows(runs, trace, t)
  {
    StepFollows(runs, c, trace, s, t);
  }

  lemma JournalFollows(runs: iset<seq<System>>, c: Config, trace: seq<System>, s: System, t: System)
    requires At(runs, c, trace, s) && JournalStep(c, s, t)
    ensures Follows(runs, trace, t)
  {
    StepFollows(runs, c, trace, s, t);
  }

  lemma LocalFollows(runs: iset<seq<System>>, c: Config, trace: seq<System>, s: System, t: System)
    requires At(runs, c, trace, s) && LocalStep(c, s, t)
    ensures Follows(runs, trace, t)
  {
    StepFollows(runs, c, trace, s, t);
  }

  /** When the journal may be removed. */
  predicate Forgettable(owner: Owner) {
    owner == Worker(Preparing) || owner == Worker(ResultAnswer(true)) || (owner.Worker? && owner.pc.StartAnswer? && !owner.pc.granted)
  }

  lemma ForgetNext(runs: iset<seq<System>>, c: Config, trace: seq<System>, s: System)
    requires At(runs, c, trace, s) && Forgettable(s.owner)
    ensures Follows(runs, trace, s.(journal := None, owner := Nobody))
  {
    var t := s.(journal := None, owner := Nobody);
    assert Forget(s, t) || Refused(s, t) || Acknowledged(s, t);
    JournalFollows(runs, c, trace, s, t);
  }

  /** Where workerInstalledVersion is called. */
  predicate Consulting(s: System) {
    s.owner == Worker(Preparing) || (s.owner == Worker(Reporting) && s.journal.Some? && s.journal.value.phase == Finished(true))
  }

  /** The version saved from the update state is the installed version from then on. */
  lemma SyncedInRun(runs: iset<seq<System>>, c: Config, trace: seq<System>, s: System)
    requires ValidConfig(c) && At(runs, c, trace, s)
    requires Consulting(s) && Unsynced(c.build, s.floor, s.disk.state)
    ensures var v := s.disk.state.value.version;
            Current(c.build, Some(v)) == v && !Unsynced(c.build, Some(v), s.disk.state)
  {
    ConsultingInRun(runs, c, trace, s);
    VersionFloor.SyncedAfter(c, s);
  }

  lemma ConsultingInRun(runs: iset<seq<System>>, c: Config, trace: seq<System>, s: System)
    requires ValidConfig(c) && At(runs, c, trace, s) && Consulting(s)
    ensures VersionFloor.VersionInv(c, s.disk, s.floor, s.released, s.journal, s.owner)
    ensures s.journal.Some? && (s.journal.value.phase.Prepared? || s.journal.value.phase == Finished(true))
  {
    assert Named(trace);
    Safety.Invariant(c, trace, |trace| - 1);
    PhaseConsulting(c, s);
  }

  predicate Asked(build: string) { true }

  /**
   * What workerInstalledVersion finds in its two files: the current version, and
   * whether the state is newer. Like a run, it is only looked into where it is asked for.
   */
  ghost predicate Reading(build: string, floor: Option<string>, state: Option<UpdateState>, current: string, newer: bool) {
    forall b {:trigger Asked(b)} :: Asked(b) && b == build ==>
      Versions.Valid(current) && current == Current(b, floor) && (newer <==> Unsynced(b, floor, state))
  }

  /** `current` is what workerInstalledVersion should answer. */
  ghost predicate Finds(build: string, floor: Option<string>, state: Option<UpdateState>, current: string) {
    forall b {:trigger Asked(b)} :: Asked(b) && b == build ==> current == Newest(b, floor, state)
  }

  lemma ReadingFinds(build: string, floor: Option<string>, state: Option<UpdateState>, current: string, newer: bool)
    requires Reading(build, floor, state, current, newer) && (newer ==> state.Some?)
    ensures Finds(build, floor, state, if newer then state.value.version else current)
  {
    assert Asked(build);
  }

  /** Both files, where present, hold valid versions. */
  ghost predicate Readable(floor: Option<string>, state: Option<UpdateState>) {
    forall b {:trigger Asked(b)} :: Asked(b) ==>
      (floor.Some? && b == floor.value ==> Versions.Valid(b)) && (state.Some? && b == state.value.version ==> Versions.Valid(b))
  }

  /** Saving a newer state's version, which then is the installed version. */
  lemma SyncNext(runs: iset<seq<System>>, c: Config, trace: seq<System>, s: System, current: string, v: string)
    requires ValidConfig(c) && At(runs, c, trace, s) && Consulting(s) && Reading(c.build, s.floor, s.disk.state, current, true)
    requires s.disk.state.Some? && v == s.disk.state.value.version
    ensures Follows(runs, trace, s.(floor := Some(v), owner := s.owner))
    ensures Reading(c.build, Some(v), s.disk.state, v, false)
  {
    assert Asked(c.build);
    var t := s.(floor := Some(v), owner := s.owner);
    assert SyncFloor(c, s, t);
    LocalFollows(runs, c, trace, s, t);
    SyncedInRun(runs, c, trace, s);
  }

  /** Whether a release is newer than the installed version. */
  ghost predicate Compared(release: string, current: string, newer: bool) {
    forall r {:trigger Asked(r)} :: Asked(r) && r == release ==> (newer <==> Newer(r, current))
  }

  /** The release is strictly newer in the protocol's order. */
  ghost predicate Behind(current: string, release: string) {
    forall r {:trigger Asked(r)} :: Asked(r) && r == release ==> Older(current, r)
  }

  lemma FailedNext(runs: iset<seq<System>>, c: Config, trace: seq<System>, s: System)
    requires At(runs, c, trace, s) && s.owner == Worker(Reporting) && s.journal.Some? && s.journal.value.phase == Finished(false)
    ensures Follows(runs, trace, s.(owner := Worker(Saved)))
  {
    var t := s.(owner := Worker(Saved));
    assert SaveFloor(c, s, t);
    LocalFollows(runs, c, trace, s, t);
  }

  lemma SucceededNext(runs: iset<seq<System>>, c: Config, trace: seq<System>, s: System, current: string, newer: bool)
    requires At(runs, c, trace, s) && s.owner == Worker(Reporting) && s.journal.Some? && s.journal.value.phase == Finished(true)
    requires Reading(c.build, s.floor, s.disk.state, current, false) && Compared(s.journal.value.job.releaseVersion, current, newer)
    ensures Follows(runs, trace, s.(floor := if newer then Some(s.journal.value.job.releaseVersion) else s.floor, owner := Worker(Saved)))
  {
    assert Asked(c.build) && Asked(s.journal.value.job.releaseVersion);
    var t := s.(floor := if newer then Some(s.journal.value.job.releaseVersion) else s.floor, owner := Worker(Saved));
    assert SaveFloor(c, s, t);
    LocalFollows(runs, c, trace, s, t);
  }

  /** Once the floor is saved, it is the succeeded release. */
  lemma SavedIsRelease(runs: iset<seq<System>>, c: Config, trace: seq<System>, s: System)
    requires ValidConfig(c) && At(runs, c, trace, s) && s.owner == Worker(Saved) && s.journal.Some? && s.journal.value.phase == Finished(true)
    ensures s.floor == Some(s.journal.value.job.releaseVersion)
  {
    assert Named(trace);
    Safety.Invariant(c, trace, |trace| - 1);
    SavedFloor(c, s);
  }

  lemma SavedFloor(c: Config, s: System)
    requires VersionFloor.VersionInv(c, s.disk, s.floor, s.released, s.journal, s.owner) && s.owner == Worker(Saved)
    requires s.journal.Some? && s.journal.value.phase == Finished(true)
    ensures s.floor == Some(s.journal.value.job.releaseVersion)
  {
  }

  /** After a success both files hold valid versions. */
  lemma SucceededIsReadable(runs: iset<seq<System>>, c: Config, trace: seq<System>, s: System)
    requires ValidConfig(c) && At(runs, c, trace, s) && s.journal.Some? && s.journal.value.phase == Finished(true)
    ensures Readable(s.floor, s.disk.state)
  {
    assert Named(trace);
    Safety.Invariant(c, trace, |trace| - 1);
    ReadableAfter(c, s);
  }

  lemma ReadableAfter(c: Config, s: System)
    requires VersionFloor.VersionInv(c, s.disk, s.floor, s.released, s.journal, s.owner)
    requires s.journal.Some? && s.journal.value.phase == Finished(true)
    ensures Readable(s.floor, s.disk.state)
  {
  }

  lemma JournalVersionValid(runs: iset<seq<System>>, c: Config, trace: seq<System>, s: System)
    requires ValidConfig(c) && At(runs, c, trace, s) && s.journal.Some?
    ensures Versions.Valid(s.journal.value.job.releaseVersion)
  {
    assert Named(trace);
    Safety.Invariant(c, trace, |trace| - 1);
    ReleaseValid(c, s);
  }

  lemma ReleaseValid(c: Config, s: System)
    requires VersionFloor.VersionInv(c, s.disk, s.floor, s.released, s.journal, s.owner) && s.journal.Some?
    ensures Versions.Valid(s.journal.value.job.releaseVersion)
  {
  }

  /** A plan for the job's release, verified against the installed version and staged. */
  lemma StagedNext(runs: iset<seq<System>>, c: Config, trace: seq<System>, s: System, t: System, plan: StagePlan, stage: string, current: string)
    requires At(runs, c, trace, s) && s.owner == Worker(Preparing) && s.journal.Some?
    requires plan.releaseVersion == s.journal.value.job.releaseVersion && PlanFrom(c, s.journal.value.job, plan)
    requires Reading(c.build, s.floor, s.disk.state, current, false)
    requires Behind(current, plan.releaseVersion)
    requires t.disk == s.disk.(files := t.disk.files)
    requires Agree(t.disk.files, s.disk.files, PayloadsIn(stage) + PayloadsIn(Temporary(stage)))
    requires PayloadsGood(c.specs, t.disk.files, stage, plan.components)
    requires t == s.(disk := t.disk, owner := Worker(Verified(plan, stage)))
    ensures Follows(runs, trace, t)
  {
    assert Asked(c.build) && Asked(plan.releaseVersion);
    assert Verify(c, s, t, plan, stage);
    DiskFollows(runs, c, trace, s, t);
  }

  lemma PhaseConsulting(c: Config, s: System)
    requires PcAgrees(c, s.table, s.journal, s.work.Keys, s.begun, s.records, s.owner) && Consulting(s)
    ensures s.journal.Some? && (s.journal.value.phase.Prepared? || s.journal.value.phase == Finished(true))
  {
  }
}
