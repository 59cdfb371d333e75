/** The guarantees of the update protocol, for every run. */
module Safety {
  import opened Strings
  import opened Disks
  import opened Install
  import opened Transaction
  import opened Signing
  import opened Jobs
  import opened JobHistory
  import opened Protocol
  import opened Agreement
  import opened Truth
  import opened VersionFloor

  ghost predicate Inv(c: Config, s: System) {
    Agrees(c, s) && Honest(c, s) && VersionInv(c, s.disk, s.floor, s.released, s.journal, s.owner)
  }

  lemma InitHolds(c: Config, s: System)
    requires ValidConfig(c) && Init(c, s)
    ensures Inv(c, s)
  {
  }

  lemma StepHolds(c: Config, s: System, t: System)
    requires ValidConfig(c) && Inv(c, s) && Step(c, s, t)
    ensures Inv(c, t) && Monotone(s.floor, t.floor)
  {
    StepAgrees(c, s, t);
    StepHonest(c, s, t);
    StepVersions(c, s, t);
  }

  ghost predicate StepsBy(step: (System, System) -> bool, run: seq<System>, i: nat)
    requires i < |run| - 1
  {
    step(run[i], run[i + 1])
  }

  /** Induction over a run, for any invariant and any step relation. */
  lemma {:induction false} Induct(inv: System -> bool, step: (System, System) -> bool, run: seq<System>, i: nat)
    requires i < |run| && inv(run[0])
    requires forall k :: 0 <= k < |run| - 1 ==> StepsBy(step, run, k)
    requires forall s, t :: inv(s) && step(s, t) ==> inv(t)
    ensures inv(run[i])
  {
    if i > 0 {
      Induct(inv, step, run, i - 1);
      assert StepsBy(step, run, i - 1);
    }
  }

  lemma RunSteps(c: Config, run: seq<System>, step: (System, System) -> bool, i: nat)
    requires Protocol.Run(c, run) && i < |run|
    requires forall s, t :: step(s, t) <==> Step(c, s, t)
    ensures forall k :: 0 <= k < |run[i..]| - 1 ==> StepsBy(step, run[i..], k)
  {
    forall k | 0 <= k < |run[i..]| - 1
      ensures StepsBy(step, run[i..], k)
    {
      assert StepAt(c, run, i + k);
    }
  }

  /** The inductive invariant holds throughout every run. */
  lemma Invariant(c: Config, run: seq<System>, i: nat)
    requires ValidConfig(c) && Protocol.Run(c, run) && i < |run|
    ensures Inv(c, run[i])
  {
    var inv, step := (s: System) => Inv(c, s), (s: System, t: System) => Step(c, s, t);
    InitHolds(c, run[0]);
    forall s, t | inv(s) && step(s, t)
      ensures inv(t)
    {
      StepHolds(c, s, t);
    }
    RunSteps(c, run, step, 0);
    assert run[0..] == run;
    Induct(inv, step, run, i);
  }

  // ----- at most once ------------------------------------------------------------------------

  /** No job's installation ever begins twice, whatever is lost, repeated or interrupted. */
  lemma AtMostOnce(c: Config, run: seq<System>, i: nat)
    requires ValidConfig(c) && Protocol.Run(c, run) && i < |run|
    ensures forall a, b :: 0 <= a < b < |run[i].begun| ==> run[i].begun[a] != run[i].begun[b]
  {
    Invariant(c, run, i);
  }

  // ----- agreement with the server --------------------------------------------------------------

  /** An executing journal means the job is dispatched; a finished one, that it is dispatched or has exactly that result. */
  ghost predicate JournalMatches(c: Config, s: System) {
    s.journal.Some? ==>
      var j := s.journal.value;
      j.job.id in s.table.jobs && s.table.jobs[j.job.id].client == c.me &&
      match j.phase
      case Prepared => j.job.id !in s.begun
      case Executing => s.table.jobs[j.job.id].state.Dispatched?
      case Finished(ok) => s.table.jobs[j.job.id].state.Dispatched? || Settled(s.table, j.job.id, ok, j.rollback)
  }

  lemma JournalMatchesServer(c: Config, run: seq<System>, i: nat)
    requires ValidConfig(c) && Protocol.Run(c, run) && i < |run|
    ensures JournalMatches(c, run[i])
  {
    Invariant(c, run, i);
    AgreesMatches(c, run[i]);
  }

  lemma AgreesMatches(c: Config, s: System)
    requires Agrees(c, s)
    ensures JournalMatches(c, s)
  {
    if s.journal.Some? {
      var j := s.journal.value;
      if j.phase.Finished? {
        var k :| 0 <= k < |s.records| && s.records[k].id == j.job.id && s.records[k].ok == j.phase.ok && s.records[k].rollback == j.rollback;
        assert RecordAgrees(c, s.table, s.journal, s.records[k]);
      } else if j.phase.Prepared? {
        assert j.job.id !in s.work;
      }
    }
  }

  /** Sending the journalled result, once more or for the first time, is never a conflict. */
  lemma ResultNeverConflicts(c: Config, run: seq<System>, i: nat, clients: map<string, Client>, caller: Caller, now: int)
    requires ValidConfig(c) && Protocol.Run(c, run) && i < |run|
    requires run[i].journal.Some? && run[i].journal.value.phase.Finished?
    requires |caller.actor| <= 128 && caller.addressValid
    ensures var j := run[i].journal.value;
      Changeable(run[i].table, clients, j.job.id, c.me, Outcomes(j.phase.ok), j.rollback, caller, now)
  {
    Invariant(c, run, i);
    JournalMatchesServer(c, run, i);
    assert Replays(run[i].table, run[i].journal.value.job.id);
  }

  /** A recorded result is, or still can only become, the server's final word. */
  ghost predicate Stands(s: System, r: Record) {
    Settled(s.table, r.id, r.ok, r.rollback)
    || (r.id in s.table.jobs && s.table.jobs[r.id].state.Dispatched? && Holds(s.journal, r.id, r.ok, r.rollback))
  }

  lemma RecordedResultStands(c: Config, run: seq<System>, i: nat, k: nat)
    requires ValidConfig(c) && Protocol.Run(c, run) && i < |run| && k < |run[i].records|
    ensures Stands(run[i], run[i].records[k])
    ensures forall x :: 0 <= x < |run[i].records| && x != k ==> run[i].records[x].id != run[i].records[k].id
  {
    Invariant(c, run, i);
    assert RecordAgrees(c, run[i].table, run[i].journal, run[i].records[k]);
  }

  // ----- cancelled, expired, dispatched -------------------------------------------------------------

  /** The job's audit trail shows a dispatch inside its window and neither cancellation nor expiry. */
  ghost predicate ProperlyDispatched(table: Table, id: string) {
    id in table.jobs &&
    var h, w := History(table.audit, id), table.jobs[id].window;
    (exists k :: 0 <= k < |h| && h[k].kind.Dispatched? && w.notBefore <= h[k].at < w.expiresAt)
    && forall k :: 0 <= k < |h| ==> !h[k].kind.Cancelled? && !h[k].kind.Expired?
  }

  lemma BegunIsDispatched(c: Config, s: System, id: string)
    requires Agrees(c, s) && id in s.begun
    ensures ProperlyDispatched(s.table, id)
    ensures !s.table.jobs[id].state.Cancelled? && !s.table.jobs[id].state.Expired?
  {
    assert id in s.work;
    if Done(s.records, id) {
      var k :| 0 <= k < |s.records| && s.records[k].id == id;
      assert RecordAgrees(c, s.table, s.journal, s.records[k]);
    }
    DispatchIsExclusive(s.table, id);
  }

  /** An installed job was dispatched inside its window and never cancelled or expired. */
  lemma InstalledWasDispatched(c: Config, run: seq<System>, i: nat, id: string)
    requires ValidConfig(c) && Protocol.Run(c, run) && i < |run| && id in run[i].begun
    ensures ProperlyDispatched(run[i].table, id)
  {
    Invariant(c, run, i);
    BegunIsDispatched(c, run[i], id);
  }

  lemma ServerMoves(c: Config, s: System, t: System, id: string)
    requires ServerStep(c, s, t)
    ensures RowKept(s.table, t.table, id)
  {
    if ServerElsewhere(c, s, t) {
      RowsAreStable(s.table, t.table, id);
    } else if x, now :| HandlePoll(c, s, t, x, now) {
    } else if x, approved, clients, caller, now :| HandleStart(c, s, t, x, approved, clients, caller, now) {
      StartMoves(c, s, t, x, approved, clients, caller, now, id);
    } else {
      var x, ok, rollback, clients, caller, now :| HandleResult(c, s, t, x, ok, rollback, clients, caller, now);
      ResultMoves(c, s, t, x, ok, rollback, clients, caller, now, id);
    }
  }

  lemma StartMoves(c: Config, s: System, t: System, x: string, approved: bool, clients: map<string, Client>, caller: Caller, now: int, id: string)
    requires HandleStart(c, s, t, x, approved, clients, caller, now)
    ensures RowKept(s.table, t.table, id)
  {
    if approved && Changeable(s.table, clients, x, c.me, Dispatched, false, caller, now) {
      ChangeKeepsRow(s.table, x, Dispatched, false, now, id);
    }
  }

  lemma ResultMoves(c: Config, s: System, t: System, x: string, ok: bool, rollback: bool, clients: map<string, Client>, caller: Caller, now: int, id: string)
    requires HandleResult(c, s, t, x, ok, rollback, clients, caller, now)
    ensures RowKept(s.table, t.table, id)
  {
    if Changeable(s.table, clients, x, c.me, Outcomes(ok), rollback, caller, now) {
      ChangeKeepsRow(s.table, x, Outcomes(ok), rollback, now, id);
    }
  }

  lemma TableMoves(c: Config, s: System, t: System, id: string)
    requires Step(c, s, t)
    ensures RowKept(s.table, t.table, id)
    ensures s.begun <= t.begun
  {
    if ServerStep(c, s, t) {
      ServerMoves(c, s, t, id);
      ServerShape(c, s, t);
    } else {
      ClientMoves(c, s, t);
    }
  }

  lemma ClientMoves(c: Config, s: System, t: System)
    requires DiskStep(c, s, t) || JournalStep(c, s, t) || LocalStep(c, s, t)
    ensures t.table == s.table && s.begun <= t.begun
  {
    if DiskStep(c, s, t) {
      DiskMoves(c, s, t);
    } else if JournalStep(c, s, t) {
      JournalMoves(c, s, t);
    }
  }

  lemma DiskMoves(c: Config, s: System, t: System)
    requires DiskStep(c, s, t)
    ensures t.table == s.table && s.begun <= t.begun
  {
  }

  lemma JournalMoves(c: Config, s: System, t: System)
    requires JournalStep(c, s, t)
    ensures t.table == s.table && s.begun <= t.begun
  {
  }

  /** What one moment of a run fixes for all later ones. */
  ghost predicate Fixed(s: System, t: System, id: string) {
    s.begun <= t.begun
    && (id in s.table.jobs && Terminal(s.table.jobs[id].state) ==> id in t.table.jobs && t.table.jobs[id] == s.table.jobs[id])
  }

  lemma LaterStates(c: Config, run: seq<System>, i: nat, k: nat, id: string)
    requires Protocol.Run(c, run) && i <= k < |run|
    ensures Fixed(run[i], run[k], id)
  {
    var inv, step := (t: System) => Fixed(run[i], t, id), (s: System, t: System) => Step(c, s, t);
    forall s, t | inv(s) && step(s, t)
      ensures inv(t)
    {
      TableMoves(c, s, t, id);
    }
    RunSteps(c, run, step, i);
    Induct(inv, step, run[i..], k - i);
  }

  /** A job that is cancelled or expired at any moment of a run is not installed at any moment of it, before or after. */
  lemma CancelledNeverInstalled(c: Config, run: seq<System>, i: nat, k: nat, id: string)
    requires ValidConfig(c) && Protocol.Run(c, run) && i < |run| && k < |run|
    requires id in run[i].table.jobs && (run[i].table.jobs[id].state.Cancelled? || run[i].table.jobs[id].state.Expired?)
    ensures id !in run[k].begun
  {
    var last := if i <= k then k else i;
    LaterStates(c, run, i, last, id);
    LaterStates(c, run, k, last, id);
    Invariant(c, run, last);
    if id in run[last].begun {
      BegunIsDispatched(c, run[last], id);
    }
  }

  // ----- truth ---------------------------------------------------------------------------------------

  /** Every result the journal ever recorded told the truth about the disk at that moment. */
  lemma ResultsAreTruthful(c: Config, run: seq<System>, i: nat, k: nat)
    requires ValidConfig(c) && Protocol.Run(c, run) && i < |run| && k < |run[i].records|
    ensures Truthful(c, run[i].records[k], run[i].work)
  {
    Invariant(c, run, i);
    SupportedIsTruthful(c, run[i].records[k], run[i].work);
  }

  /** The job a record speaks of is the server's row of that id: the same client, release, package and window. */
  predicate OfRow(table: Table, r: Record) {
    r.job.id == r.id && r.id in table.jobs && SameRequest(r.job, table.jobs[r.id])
  }

  ghost predicate RecordAdded(s: System, t: System) {
    t.records == s.records
    || (|t.records| == |s.records| + 1 && t.records[..|s.records|] == s.records && OfRow(s.table, t.records[|s.records|]))
  }

  /** A step adds at most one record, for a job of the table. */
  lemma RecordsGrow(c: Config, s: System, t: System)
    requires Agrees(c, s) && Step(c, s, t)
    ensures RecordAdded(s, t)
  {
    if ServerStep(c, s, t) {
      ServerShape(c, s, t);
    } else if DiskStep(c, s, t) {
      DiskRecords(c, s, t);
    } else if JournalStep(c, s, t) {
      JournalRecords(c, s, t);
    }
  }

  lemma DiskRecords(c: Config, s: System, t: System)
    requires DiskStep(c, s, t)
    ensures t.records == s.records
  {
  }

  lemma JournalRecords(c: Config, s: System, t: System)
    requires Agrees(c, s) && JournalStep(c, s, t)
    ensures RecordAdded(s, t)
  {
    if rollback :| RecordInterrupted(c, s, t, rollback) {
      OneMore(s, t, s.journal.value.job, false, rollback);
    } else if rollback :| RecordResult(c, s, t, rollback) {
      OneMore(s, t, s.journal.value.job, s.owner.pc.ok, rollback);
    } else if rollback :| TakeJob(c, s, t, rollback) {
      if s.owner.pc.job.state.Dispatched? {
        OneMore(s, t, s.owner.pc.job, false, rollback);
      }
    }
  }

  lemma OneMore(s: System, t: System, j: Job, ok: bool, rollback: bool)
    requires t == Recorded(s, j, ok, rollback) && j.id in s.table.jobs && SameRequest(j, s.table.jobs[j.id])
    ensures RecordAdded(s, t)
  {
  }

  ghost predicate AllOfRows(s: System) {
    forall k :: 0 <= k < |s.records| ==> OfRow(s.table, s.records[k])
  }

  lemma RowsStay(s: System, t: System)
    requires AllOfRows(s) && RecordAdded(s, t) && forall id :: RowKept(s.table, t.table, id)
    ensures AllOfRows(t)
  {
    forall k | 0 <= k < |t.records|
      ensures OfRow(t.table, t.records[k])
    {
      assert k < |s.records| ==> t.records[k] == t.records[..|s.records|][k] == s.records[k];
      assert OfRow(s.table, t.records[k]) && RowKept(s.table, t.table, t.records[k].id);
    }
  }

  lemma StepKeepsRows(c: Config, s: System, t: System)
    requires Agrees(c, s) && Step(c, s, t) && AllOfRows(s)
    ensures AllOfRows(t)
  {
    RecordsGrow(c, s, t);
    forall id {
      TableMoves(c, s, t, id);
    }
    RowsStay(s, t);
  }

  ghost predicate RowsUp(run: seq<System>, i: nat)
    requires i < |run| - 1
  {
    AllOfRows(run[i]) ==> AllOfRows(run[i + 1])
  }

  lemma RowsStep(c: Config, run: seq<System>, i: nat)
    requires ValidConfig(c) && Protocol.Run(c, run) && i < |run| - 1
    ensures RowsUp(run, i)
  {
    Invariant(c, run, i);
    assert StepAt(c, run, i);
    if AllOfRows(run[i]) {
      StepKeepsRows(c, run[i], run[i + 1]);
    }
  }

  lemma {:induction false} RowsChain(run: seq<System>, i: nat)
    requires i < |run| && AllOfRows(run[0]) && forall m :: 0 <= m < |run| - 1 ==> RowsUp(run, m)
    ensures AllOfRows(run[i])
  {
    if i > 0 {
      RowsChain(run, i - 1);
      assert RowsUp(run, i - 1);
    }
  }

  /** Every record is of a row of the server's table. */
  lemma RecordsAreOfRows(c: Config, run: seq<System>, i: nat)
    requires ValidConfig(c) && Protocol.Run(c, run) && i < |run|
    ensures AllOfRows(run[i])
  {
    forall m | 0 <= m < |run| - 1
      ensures RowsUp(run, m)
    {
      RowsStep(c, run, m);
    }
    RowsChain(run, i);
  }

  /** Whatever was begun came from the package of some job, in a plan derived from its signed manifest. */
  ghost predicate Ordered(c: Config, s: System, id: string) {
    id in s.work && exists j: Job :: PlanFrom(c, j, s.work[id].plan)
  }

  lemma BegunIsOrdered(c: Config, s: System, id: string)
    requires Agrees(c, s) && Honest(c, s) && id in s.begun
    ensures Ordered(c, s, id)
  {
    assert id in s.work;
    if Done(s.records, id) {
      var k :| 0 <= k < |s.records| && s.records[k].id == id;
      assert Supported(c, s.records[k], s.work);
    }
  }

  lemma InstalledWasOrdered(c: Config, run: seq<System>, i: nat, id: string)
    requires ValidConfig(c) && Protocol.Run(c, run) && i < |run| && id in run[i].begun
    ensures Ordered(c, run[i], id)
  {
    Invariant(c, run, i);
    BegunIsOrdered(c, run[i], id);
  }

  /** With a key under which nothing verifies, no installation ever begins. */
  lemma NothingUnsignedBegins(c: Config, run: seq<System>, i: nat)
    requires ValidConfig(c) && Protocol.Run(c, run) && i < |run|
    requires forall raw: Bytes, sig: Bytes :: !c.platform.crypto.signed(raw, sig)
    ensures run[i].begun == []
  {
    if run[i].begun != [] {
      var id := run[i].begun[0];
      InstalledWasOrdered(c, run, i, id);
      var j: Job :| PlanFrom(c, j, run[i].work[id].plan);
      SignedPlanHasSignature(c.specs, c.platform, OrderOf(j), run[i].work[id].plan);
    }
  }

  /** No transaction is ever pending unless the journal shows the job executing, and then its snapshot is complete. */
  lemma PendingMeansExecuting(c: Config, run: seq<System>, i: nat)
    requires ValidConfig(c) && Protocol.Run(c, run) && i < |run| && run[i].disk.transaction.Some?
    ensures var s := run[i];
      s.journal.Some? && s.journal.value.phase.Executing? && s.journal.value.job.id in s.work
      && Pending(c.specs, s.disk, s.disk.transaction.value, s.work[s.journal.value.job.id].plan, s.work[s.journal.value.job.id].base)
  {
    Invariant(c, run, i);
  }

  // ----- versions --------------------------------------------------------------------------------------

  lemma MonotoneTransitive(a: Option<string>, b: Option<string>, c: Option<string>)
    requires Monotone(a, b) && Monotone(b, c)
    ensures Monotone(a, c)
  {
    if a.Some? && a != b && b != c {
      AtMostTransitive(a.value, b.value, c.value);
    }
  }

  ghost predicate FloorUp(run: seq<System>, i: nat)
    requires i < |run| - 1
  {
    Monotone(run[i].floor, run[i + 1].floor)
  }

  lemma FloorStep(c: Config, run: seq<System>, i: nat)
    requires ValidConfig(c) && Protocol.Run(c, run) && i < |run| - 1
    ensures FloorUp(run, i)
  {
    Invariant(c, run, i);
    assert StepAt(c, run, i);
    StepHolds(c, run[i], run[i + 1]);
  }

  lemma {:induction false} FloorChain(run: seq<System>, i: nat, k: nat)
    requires i <= k < |run| && forall m :: 0 <= m < |run| - 1 ==> FloorUp(run, m)
    ensures Monotone(run[i].floor, run[k].floor)
    decreases k
  {
    if i < k {
      FloorChain(run, i, k - 1);
      assert FloorUp(run, k - 1);
      MonotoneTransitive(run[i].floor, run[k - 1].floor, run[k].floor);
    }
  }

  /** The saved floor never decreases. */
  lemma FloorNeverDecreases(c: Config, run: seq<System>, i: nat, k: nat)
    requires ValidConfig(c) && Protocol.Run(c, run) && i <= k < |run|
    ensures Monotone(run[i].floor, run[k].floor)
  {
    forall m | 0 <= m < |run| - 1
      ensures FloorUp(run, m)
    {
      FloorStep(c, run, m);
    }
    FloorChain(run, i, k);
  }

  /** The releases recorded as succeeded are strictly increasing. */
  lemma SuccessesIncrease(c: Config, run: seq<System>, i: nat, a: nat, b: nat)
    requires ValidConfig(c) && Protocol.Run(c, run) && i < |run| && a < b < |run[i].released|
    ensures Older(run[i].released[a], run[i].released[b])
  {
    Invariant(c, run, i);
  }
}
