/** Client and server agree on every job, in every reachable state of the protocol. */
module Agreement {
  import opened Strings
  import opened Jobs
  import opened JobHistory
  import opened Protocol
  import opened Disks

  predicate Mine(c: Config, table: Table, id: string) {
    id in table.jobs && table.jobs[id].client == c.me && table.jobs[id].id == id
  }

  /** The server has this result for the job. */
  predicate Settled(table: Table, id: string, ok: bool, rollback: bool) {
    id in table.jobs && table.jobs[id].state == Outcomes(ok) && table.jobs[id].rollback == rollback
  }

  predicate InPhase(journal: Option<Journal>, id: string, phase: Phase) {
    journal.Some? && journal.value.job.id == id && journal.value.phase == phase
  }

  predicate Holds(journal: Option<Journal>, id: string, ok: bool, rollback: bool) {
    InPhase(journal, id, Finished(ok)) && journal.value.rollback == rollback
  }

  ghost predicate HasRecord(records: seq<Record>, id: string, ok: bool, rollback: bool) {
    exists i :: 0 <= i < |records| && records[i].id == id && records[i].ok == ok && records[i].rollback == rollback
  }

  ghost predicate Done(records: seq<Record>, id: string) {
    exists i :: 0 <= i < |records| && records[i].id == id
  }

  /** A recorded result is the server's final state, or the job is dispatched and the journal still holds the result. */
  predicate RecordAgrees(c: Config, table: Table, journal: Option<Journal>, r: Record) {
    Mine(c, table, r.id)
    && (Settled(table, r.id, r.ok, r.rollback)
        || (table.jobs[r.id].state.Dispatched? && Holds(journal, r.id, r.ok, r.rollback)))
  }

  ghost predicate RecordsAgree(c: Config, table: Table, journal: Option<Journal>, records: seq<Record>) {
    (forall i :: 0 <= i < |records| ==> RecordAgrees(c, table, journal, records[i]))
    && forall i, j :: 0 <= i < j < |records| ==> records[i].id != records[j].id
  }

  ghost predicate NetAgrees(c: Config, table: Table, net: set<Request>, records: seq<Record>) {
    forall r :: r in net ==>
      match r
      case Start(id) => Mine(c, table, id)
      case Result(id, ok, rollback) => HasRecord(records, id, ok, rollback)
  }

  ghost predicate JournalAgrees(c: Config, table: Table, journal: Option<Journal>, worked: set<string>, records: seq<Record>) {
    journal.Some? ==>
      var j := journal.value;
      Mine(c, table, j.job.id) && SameRequest(j.job, table.jobs[j.job.id]) &&
      match j.phase
      case Prepared => j.job.id !in worked && !Done(records, j.job.id)
      case Executing => j.job.id in worked && !Done(records, j.job.id) && table.jobs[j.job.id].state.Dispatched?
      case Finished(ok) => HasRecord(records, j.job.id, ok, j.rollback)
  }

  ghost predicate WorkAgrees(c: Config, table: Table, journal: Option<Journal>, worked: set<string>, begun: seq<string>, records: seq<Record>) {
    (forall id :: id in worked ==> Mine(c, table, id) && (Done(records, id) || InPhase(journal, id, Executing)))
    && (forall i :: 0 <= i < |begun| ==> begun[i] in worked)
    && (forall i, j :: 0 <= i < j < |begun| ==> begun[i] != begun[j])
  }

  ghost predicate PcAgrees(c: Config, table: Table, journal: Option<Journal>, worked: set<string>, begun: seq<string>, records: seq<Record>, owner: Owner) {
    owner.Worker? ==>
      match owner.pc
      case Locked => true
      case Ready => true
      case Polling => journal.None?
      case PollAnswer(job) =>
        journal.None? && Mine(c, table, job.id) && SameRequest(job, table.jobs[job.id])
        && job.id !in worked && !Done(records, job.id)
        && (job.state.Dispatched? ==> table.jobs[job.id].state.Dispatched?)
      case Preparing => journal.Some? && journal.value.phase.Prepared?
      case Verified(_, _) => journal.Some? && journal.value.phase.Prepared?
      case StartSent(_, _) => journal.Some? && journal.value.phase.Prepared?
      case StartAnswer(_, _, granted) =>
        journal.Some? && journal.value.phase.Prepared?
        && (granted ==> journal.value.job.id in table.jobs && table.jobs[journal.value.job.id].state.Dispatched?)
      case Begun(_, _) => journal.Some? && journal.value.phase.Executing? && journal.value.job.id !in begun
      case Installed(_) => journal.Some? && journal.value.phase.Executing?
      case Restored => journal.Some? && journal.value.phase.Executing?
      case Reporting => journal.Some? && journal.value.phase.Finished?
      case Saved => journal.Some? && journal.value.phase.Finished?
      case ResultSent => journal.Some? && journal.value.phase.Finished?
      case ResultAnswer(acknowledged) =>
        journal.Some? && journal.value.phase.Finished?
        && (acknowledged ==> Settled(table, journal.value.job.id, journal.value.phase.ok, journal.value.rollback))
  }

  ghost predicate Agrees(c: Config, s: System) {
    Good(s.table)
    && RecordsAgree(c, s.table, s.journal, s.records)
    && NetAgrees(c, s.table, s.net, s.records)
    && JournalAgrees(c, s.table, s.journal, s.work.Keys, s.records)
    && WorkAgrees(c, s.table, s.journal, s.work.Keys, s.begun, s.records)
    && PcAgrees(c, s.table, s.journal, s.work.Keys, s.begun, s.records, s.owner)
  }

  // ----- the server's steps -----------------------------------------------------------

  /** What a server step may do to my rows: nothing, or a legal move that spares rows already dispatched or finished. */
  ghost predicate MyRowsKept(c: Config, a: Table, b: Table) {
    forall id :: Mine(c, a, id) ==>
      Mine(c, b, id) && SameRequest(a.jobs[id], b.jobs[id])
      && (!a.jobs[id].state.Scheduled? ==> b.jobs[id] == a.jobs[id])
  }

  lemma KeptRowsAgree(c: Config, s: System, table: Table)
    requires Agrees(c, s) && Good(table) && MyRowsKept(c, s.table, table)
    ensures Agrees(c, s.(table := table))
  {
  }

  lemma ServerElsewhereAgrees(c: Config, s: System, t: System)
    requires Agrees(c, s) && ServerElsewhere(c, s, t)
    ensures Agrees(c, t)
  {
    NextKeepsGood(s.table, t.table);
    forall id | Mine(c, s.table, id)
      ensures Mine(c, t.table, id) && SameRequest(s.table.jobs[id], t.table.jobs[id])
      ensures !s.table.jobs[id].state.Scheduled? ==> t.table.jobs[id] == s.table.jobs[id]
    {
      RowsAreStable(s.table, t.table, id);
    }
    KeptRowsAgree(c, s, t.table);
  }

  lemma PollAgrees(c: Config, s: System, t: System, id: string, now: int)
    requires Agrees(c, s) && HandlePoll(c, s, t, id, now)
    ensures Agrees(c, t)
  {
    assert Replays(s.table, id);
    assert forall i :: 0 <= i < |s.records| ==> RecordAgrees(c, s.table, s.journal, s.records[i]);
  }

  /** The table after a start request was handled. */
  function Started(c: Config, table: Table, id: string, approved: bool, clients: map<string, Client>, caller: Caller, now: int): Table {
    if approved && Changeable(table, clients, id, c.me, Dispatched, false, caller, now) then Changed(table, id, Dispatched, false, now)
    else table
  }

  lemma StartedRows(c: Config, table: Table, id: string, approved: bool, clients: map<string, Client>, caller: Caller, now: int)
    requires Good(table)
    ensures var b := Started(c, table, id, approved, clients, caller, now);
            Good(b) && MyRowsKept(c, table, b)
            && (approved && Changeable(table, clients, id, c.me, Dispatched, false, caller, now) ==> b.jobs[id].state.Dispatched?)
  {
    if approved && Changeable(table, clients, id, c.me, Dispatched, false, caller, now) {
      ChangeKeepsGood(table, id, Dispatched, false, now);
    }
  }

  lemma StartAgrees(c: Config, s: System, t: System, id: string, approved: bool, clients: map<string, Client>, caller: Caller, now: int)
    requires Agrees(c, s) && HandleStart(c, s, t, id, approved, clients, caller, now)
    ensures Agrees(c, t)
  {
    var table := Started(c, s.table, id, approved, clients, caller, now);
    StartedRows(c, s.table, id, approved, clients, caller, now);
    KeptRowsAgree(c, s, table);
    if t != s.(table := table) {
      QuietAgrees(c, s.(table := table), t);
    }
  }

  lemma ResultAgrees(c: Config, s: System, t: System, id: string, ok: bool, rollback: bool, clients: map<string, Client>, caller: Caller, now: int)
    requires Agrees(c, s) && HandleResult(c, s, t, id, ok, rollback, clients, caller, now)
    ensures Agrees(c, t)
  {
    assert HasRecord(s.records, id, ok, rollback);
    var i :| 0 <= i < |s.records| && s.records[i].id == id && s.records[i].ok == ok && s.records[i].rollback == rollback;
    assert RecordAgrees(c, s.table, s.journal, s.records[i]);
    if Changeable(s.table, clients, id, c.me, Outcomes(ok), rollback, caller, now) {
      ChangeKeepsGood(s.table, id, Outcomes(ok), rollback, now);
      SettleAgrees(c, s, id, ok, rollback, now);
    }
  }

  /** Taking the result the journal holds. */
  lemma SettleAgrees(c: Config, s: System, id: string, ok: bool, rollback: bool, now: int)
    requires Agrees(c, s) && Mine(c, s.table, id) && Good(Changed(s.table, id, Outcomes(ok), rollback, now))
    requires Settled(s.table, id, ok, rollback)
      || (s.table.jobs[id].state.Dispatched? && Holds(s.journal, id, ok, rollback))
    ensures Agrees(c, s.(table := Changed(s.table, id, Outcomes(ok), rollback, now)))
  {
    var table := Changed(s.table, id, Outcomes(ok), rollback, now);
    if s.table.jobs[id].state.Dispatched? {
      SettledRows(c, s.table, table, id, ok, rollback, now);
      forall i | 0 <= i < |s.records|
        ensures RecordAgrees(c, table, s.journal, s.records[i])
      {
        assert RecordAgrees(c, s.table, s.journal, s.records[i]);
      }
      assert NetAgrees(c, table, s.net, s.records);
      assert JournalAgrees(c, table, s.journal, s.work.Keys, s.records);
      assert WorkAgrees(c, table, s.journal, s.work.Keys, s.begun, s.records);
    }
  }

  lemma SettledRows(c: Config, a: Table, b: Table, id: string, ok: bool, rollback: bool, now: int)
    requires Mine(c, a, id) && a.jobs[id].state.Dispatched? && b == Changed(a, id, Outcomes(ok), rollback, now)
    ensures Settled(b, id, ok, rollback)
    ensures forall x :: Mine(c, a, x) ==> Mine(c, b, x) && SameRequest(a.jobs[x], b.jobs[x])
    ensures forall x :: x != id && x in a.jobs ==> x in b.jobs && b.jobs[x] == a.jobs[x]
  {
  }

  // ----- the client's steps --------------------------------------------------------------

  /** Writing a final phase. */
  lemma RecordedAgrees(c: Config, s: System, j: Job, ok: bool, rollback: bool)
    requires Agrees(c, s)
    requires Mine(c, s.table, j.id) && SameRequest(j, s.table.jobs[j.id]) && s.table.jobs[j.id].state.Dispatched?
    requires !Done(s.records, j.id)
    requires s.journal.None? || InPhase(s.journal, j.id, Executing)
    ensures Agrees(c, Recorded(s, j, ok, rollback))
  {
    var t := Recorded(s, j, ok, rollback);
    forall i | 0 <= i < |t.records|
      ensures RecordAgrees(c, t.table, t.journal, t.records[i])
    {
      if i < |s.records| {
        assert RecordAgrees(c, s.table, s.journal, s.records[i]);
      }
    }
    assert t.records[|s.records|] == Record(j.id, ok, rollback, s.disk, j);
    forall id
      ensures Done(s.records, id) ==> Done(t.records, id)
    {
      if Done(s.records, id) {
        var i :| 0 <= i < |s.records| && s.records[i].id == id;
        assert t.records[i] == s.records[i];
      }
    }
    forall id, o, b
      ensures HasRecord(s.records, id, o, b) ==> HasRecord(t.records, id, o, b)
    {
      if HasRecord(s.records, id, o, b) {
        var i :| 0 <= i < |s.records| && s.records[i].id == id && s.records[i].ok == o && s.records[i].rollback == b;
        assert t.records[i] == s.records[i];
      }
    }
  }

  lemma TakeAgrees(c: Config, s: System, t: System, rollback: bool)
    requires Agrees(c, s) && TakeJob(c, s, t, rollback)
    ensures Agrees(c, t)
  {
    if s.owner.pc.job.state.Dispatched? {
      RecordedAgrees(c, s, s.owner.pc.job, false, rollback);
    }
  }

  lemma JournalStepAgrees(c: Config, s: System, t: System)
    requires Agrees(c, s) && JournalStep(c, s, t)
    ensures Agrees(c, t)
  {
    if rollback :| RecordInterrupted(c, s, t, rollback) {
      RecordedAgrees(c, s, s.journal.value.job, false, rollback);
    } else if rollback :| RecordResult(c, s, t, rollback) {
      RecordedAgrees(c, s, s.journal.value.job, s.owner.pc.ok, rollback);
    } else if rollback :| TakeJob(c, s, t, rollback) {
      TakeAgrees(c, s, t, rollback);
    } else if Acknowledged(s, t) {
      AcknowledgedAgrees(c, s, t);
    } else if Begin(s, t) {
      BeginAgrees(c, s, t);
    } else {
      ForgetAgrees(c, s, t);
    }
  }

  lemma AcknowledgedAgrees(c: Config, s: System, t: System)
    requires Agrees(c, s) && Acknowledged(s, t)
    ensures Agrees(c, t)
  {
    SettledRecords(c, s.table, s.journal, s.records);
    WithoutJournal(c, s.table, s.journal, s.work.Keys, s.begun, s.records);
  }

  /** Once the journal's result is settled, the records agree without it. */
  lemma SettledRecords(c: Config, table: Table, journal: Option<Journal>, records: seq<Record>)
    requires RecordsAgree(c, table, journal, records) && journal.Some? && journal.value.phase.Finished?
    requires Settled(table, journal.value.job.id, journal.value.phase.ok, journal.value.rollback)
    ensures RecordsAgree(c, table, None, records)
  {
    forall i | 0 <= i < |records|
      ensures RecordAgrees(c, table, None, records[i])
    {
      assert RecordAgrees(c, table, journal, records[i]);
    }
  }

  lemma WithoutJournal(c: Config, table: Table, journal: Option<Journal>, worked: set<string>, begun: seq<string>, records: seq<Record>)
    requires WorkAgrees(c, table, journal, worked, begun, records) && journal.Some? && !journal.value.phase.Executing?
    ensures WorkAgrees(c, table, None, worked, begun, records)
  {
  }

  lemma BeginAgrees(c: Config, s: System, t: System)
    requires Agrees(c, s) && Begin(s, t)
    ensures Agrees(c, t)
  {
    forall i | 0 <= i < |s.records|
      ensures RecordAgrees(c, t.table, t.journal, s.records[i])
    {
      assert RecordAgrees(c, s.table, s.journal, s.records[i]);
    }
  }

  lemma ForgetAgrees(c: Config, s: System, t: System)
    requires Agrees(c, s) && (Forget(s, t) || Refused(s, t))
    ensures Agrees(c, t)
  {
    forall i | 0 <= i < |s.records|
      ensures RecordAgrees(c, t.table, t.journal, s.records[i])
    {
      assert RecordAgrees(c, s.table, s.journal, s.records[i]);
    }
  }

  /** A step that only moves the program counter, the disk or the floor. */
  lemma QuietAgrees(c: Config, s: System, t: System)
    requires Agrees(c, s)
    requires t == s.(disk := t.disk, floor := t.floor, owner := t.owner)
    requires PcAgrees(c, s.table, s.journal, s.work.Keys, s.begun, s.records, t.owner)
    ensures Agrees(c, t)
  {
  }

  lemma InstallAgrees(c: Config, s: System, t: System, at: int, r: Outcome)
    requires Agrees(c, s) && RunInstall(c, s, t, at, r)
    ensures Agrees(c, t)
  {
    BegunAgrees(c, s.table, s.journal, s.work.Keys, s.begun, s.records, s.journal.value.job.id);
  }

  lemma BegunAgrees(c: Config, table: Table, journal: Option<Journal>, worked: set<string>, begun: seq<string>, records: seq<Record>, id: string)
    requires WorkAgrees(c, table, journal, worked, begun, records) && id in worked && id !in begun
    ensures WorkAgrees(c, table, journal, worked, begun + [id], records)
  {
    var longer := begun + [id];
    assert forall i :: 0 <= i < |longer| ==> longer[i] == if i < |begun| then begun[i] else id;
  }

  lemma RecoveryAgrees(c: Config, s: System, t: System, r: Outcome)
    requires Agrees(c, s) && (OtherRecovery(c, s, t, r) || WorkerRecovery(c, s, t, r) || RestoreInterrupted(c, s, t, r))
    ensures Agrees(c, t)
  {
    QuietAgrees(c, s, t);
  }

  lemma StagingAgrees(c: Config, s: System, t: System, plan: StagePlan, stage: string)
    requires Agrees(c, s) && (Verify(c, s, t, plan, stage) || StageFailed(s, t, stage))
    ensures Agrees(c, t)
  {
    QuietAgrees(c, s, t);
  }

  lemma DiskStepAgrees(c: Config, s: System, t: System)
    requires Agrees(c, s) && DiskStep(c, s, t)
    ensures Agrees(c, t)
  {
    if at, r :| RunInstall(c, s, t, at, r) {
      InstallAgrees(c, s, t, at, r);
    } else if stage :| StageFailed(s, t, stage) {
      StagingAgrees(c, s, t, StagePlan("", "", []), stage);
    } else if plan, stage :| Verify(c, s, t, plan, stage) {
      StagingAgrees(c, s, t, plan, stage);
    } else {
      var r :| OtherRecovery(c, s, t, r) || WorkerRecovery(c, s, t, r) || RestoreInterrupted(c, s, t, r);
      RecoveryAgrees(c, s, t, r);
    }
  }

  lemma SendAgrees(c: Config, s: System, t: System)
    requires Agrees(c, s) && (SendStart(s, t) || SendResult(s, t))
    ensures Agrees(c, t)
  {
  }

  lemma LocalStepAgrees(c: Config, s: System, t: System)
    requires Agrees(c, s) && LocalStep(c, s, t)
    ensures Agrees(c, t)
  {
    if SendStart(s, t) || SendResult(s, t) {
      SendAgrees(c, s, t);
    } else {
      QuietAgrees(c, s, t);
    }
  }

  lemma ServerStepAgrees(c: Config, s: System, t: System)
    requires Agrees(c, s) && ServerStep(c, s, t)
    ensures Agrees(c, t)
  {
    if ServerElsewhere(c, s, t) {
      ServerElsewhereAgrees(c, s, t);
    } else if id, now :| HandlePoll(c, s, t, id, now) {
      PollAgrees(c, s, t, id, now);
    } else if id, approved, clients, caller, now :| HandleStart(c, s, t, id, approved, clients, caller, now) {
      StartAgrees(c, s, t, id, approved, clients, caller, now);
    } else {
      var id, ok, rollback, clients, caller, now :| HandleResult(c, s, t, id, ok, rollback, clients, caller, now);
      ResultAgrees(c, s, t, id, ok, rollback, clients, caller, now);
    }
  }

  /** Every step keeps the agreement. */
  lemma StepAgrees(c: Config, s: System, t: System)
    requires Agrees(c, s) && Step(c, s, t)
    ensures Agrees(c, t)
  {
    if ServerStep(c, s, t) {
      ServerStepAgrees(c, s, t);
    } else if DiskStep(c, s, t) {
      DiskStepAgrees(c, s, t);
    } else if JournalStep(c, s, t) {
      JournalStepAgrees(c, s, t);
    } else {
      LocalStepAgrees(c, s, t);
    }
  }
}
