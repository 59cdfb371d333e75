/**
 * The programs in operation: the worker is started any number of times, and is
 * interrupted anywhere, while administrators, other clients, a repeating network
 * and the recovery of the status service do what they like in between.
 */
module Operation {
  import opened Strings
  import opened Disks
  import opened Jobs
  import opened Protocol
  import opened Moves
  import opened World
  import opened UpdateWorker
  import Safety
  import Truth
  import VersionFloor

  /** What holds of a machine however it got there. */
  ghost predicate Safe(c: Config, s: System) {
    && (forall a, b :: 0 <= a < b < |s.begun| ==> s.begun[a] != s.begun[b])
    && (forall id :: id in s.begun ==> Safety.ProperlyDispatched(s.table, id))
    && (forall k :: 0 <= k < |s.records| ==> Truth.Truthful(c, s.records[k], s.work))
    && (forall k :: 0 <= k < |s.records| ==> Safety.Stands(s, s.records[k]))
    && Safety.AllOfRows(s) && Safety.JournalMatches(c, s)
    && (forall a, b :: 0 <= a < b < |s.released| ==> Older(s.released[a], s.released[b]))
    && (s.disk.transaction.Some? ==> s.journal.Some? && s.journal.value.phase.Executing?)
  }

  lemma RunIsSafe(c: Config, run: seq<System>, i: nat)
    requires ValidConfig(c) && Protocol.Run(c, run) && i < |run|
    ensures Safe(c, run[i])
  {
    Safety.AtMostOnce(c, run, i);
    forall id | id in run[i].begun
      ensures Safety.ProperlyDispatched(run[i].table, id)
    {
      Safety.InstalledWasDispatched(c, run, i, id);
    }
    forall k | 0 <= k < |run[i].records|
      ensures Truth.Truthful(c, run[i].records[k], run[i].work)
    {
      Safety.ResultsAreTruthful(c, run, i, k);
    }
    forall k | 0 <= k < |run[i].records|
      ensures Safety.Stands(run[i], run[i].records[k])
    {
      Safety.RecordedResultStands(c, run, i, k);
    }
    Safety.RecordsAreOfRows(c, run, i);
    Safety.JournalMatchesServer(c, run, i);
    forall a, b | 0 <= a < b < |run[i].released|
      ensures Older(run[i].released[a], run[i].released[b])
    {
      Safety.SuccessesIncrease(c, run, i, a, b);
    }
    if run[i].disk.transaction.Some? {
      Safety.PendingMeansExecuting(c, run, i);
    }
  }

  lemma ReachedIsSafe(runs: iset<seq<System>>, c: Config, trace: seq<System>, s: System)
    requires ValidConfig(c) && At(runs, c, trace, s)
    ensures Safe(c, s)
  {
    NamedIsRun(runs, c, trace);
    RunIsSafe(c, trace, |trace| - 1);
  }

  lemma NamedIsRun(runs: iset<seq<System>>, c: Config, trace: seq<System>)
    requires Sound(runs, c) && trace in runs
    ensures Protocol.Run(c, trace)
  {
    assert Named(trace);
  }

  /** The floor at the end of a run is no lower than at the end of what it continues. */
  lemma FloorSince(runs: iset<seq<System>>, c: Config, earlier: seq<System>, trace: seq<System>, s: System)
    requires ValidConfig(c) && At(runs, c, trace, s) && Grew(earlier, trace) && earlier != []
    ensures VersionFloor.Monotone(earlier[|earlier| - 1].floor, s.floor)
  {
    NamedIsRun(runs, c, trace);
    assert Named(earlier);
    Safety.FloorNeverDecreases(c, trace, |earlier| - 1, |trace| - 1);
  }

  /** One thing that happens to the machine. */
  method Happen(m: Machine, input: Input)
    requires m.Valid() && m.owner.Nobody?
    modifies m`journal, m`floor, m`net, m`owner, m`work, m`begun, m`records, m`released, m`trace, m.store`jobs, m.store`audit, m.disk
    ensures m.Valid() && Grew(old(m.trace), m.trace) && m.owner.Nobody?
  {
    if * {
      var r := RunWorker(m, input);
    } else if * {
      var r := RecoverElsewhere(m);
    } else {
      m.Elsewhere();
    }
  }

  /** However often the worker runs and wherever it stops, the machine stays safe. */
  method Operate(m: Machine, inputs: seq<Input>)
    requires m.Valid() && m.owner.Nobody?
    modifies m`journal, m`floor, m`net, m`owner, m`work, m`begun, m`records, m`released, m`trace, m.store`jobs, m.store`audit, m.disk
    ensures m.Valid() && Grew(old(m.trace), m.trace) && m.owner.Nobody?
    ensures Safe(m.config, m.Now()) && VersionFloor.Monotone(old(m.floor), m.floor)
  {
    for i := 0 to |inputs|
      invariant m.Valid() && Grew(old(m.trace), m.trace) && m.owner.Nobody?
    {
      ghost var t := m.trace;
      Happen(m, inputs[i]);
      Grown(old(m.trace), t, m.trace);
    }
    ReachedIsSafe(m.runs, m.config, m.trace, m.Now());
    FloorSince(m.runs, m.config, old(m.trace), m.trace, m.Now());
  }
}
