/**
 * Client and server as running programs: the update handlers
 * (server/client_update_jobs.go) and the worker (clientupdate/worker.go) as
 * methods over one world. Each durable change of either side is marked in a ghost
 * trace, and every method promises that what it appended are steps of the
 * protocol, so everything proved of protocol runs holds of what these programs do.
 */
module World {
  import opened Strings
  import opened Components
  import opened Disks
  import opened Restore
  import opened Rollback
  import opened Transaction
  import opened Install
  import opened Packages
  import opened Staging
  import opened Jobs
  import opened Protocol
  import Versions
  import Safety
  import opened Moves

  /** An entry of the release catalog. */
  datatype Approval = Approval(sha: string, version: string, requiresMaintenance: bool)

  /** What the package request brings: nothing, a 404 or 409, another status, or data. */
  datatype Download = Unreachable | Unavailable | Rejected | Data(bytes: Bytes)

  /** HTTP statuses: 200, 204, 401, 404, 409. */
  datatype Reply = Done | NoContent | Unauthorized | NotFound | Conflict

  /** validClientID. */
  predicate ValidClientId(s: string) {
    1 <= |s| <= 64
    && forall i :: 0 <= i < |s| ==> s[i] == '-' || s[i] == '_' || s[i] == '.' || 'a' <= s[i] <= 'z' || 'A' <= s[i] <= 'Z' || '0' <= s[i] <= '9'
  }

  method CheckClientId(s: string) returns (ok: bool)
    ensures ok <==> ValidClientId(s)
  {
    if |s| < 1 || |s| > 64 {
      return false;
    }
    for i := 0 to |s|
      invariant ValidClientId(s[..i]) || i == 0
    {
      var c := s[i];
      if !('a' <= c <= 'z') && !('A' <= c <= 'Z') && !('0' <= c <= '9') && c != '-' && c != '_' && c != '.' {
        return false;
      }
    }
    assert s[..|s|] == s;
    return true;
  }

  // ----- when the handlers say yes, in plain terms ---------------------------------------------

  /** The catalog names the job's very package and version, and the job allows the maintenance it needs. */
  predicate Approved(catalog: map<string, Approval>, j: Job) {
    j.releaseId in catalog && catalog[j.releaseId].sha == j.packageSha && catalog[j.releaseId].version == j.releaseVersion
    && (catalog[j.releaseId].requiresMaintenance ==> j.window.maintenance)
  }

  /** A poll offers an approved job that is dispatched, or scheduled and inside its window. */
  predicate Offerable(catalog: map<string, Approval>, j: Job, now: int) {
    Approved(catalog, j) && (j.state == Dispatched || (j.state == Scheduled && j.window.notBefore <= now && now < j.window.expiresAt))
  }

  /** The client's one open job, in a table whose rows a poll can list at once, for a client that may poll. */
  ghost predicate OnlyOpen(t: Table, clients: map<string, Client>, me: string, id: string) {
    me in clients && clients[me].enabled && !clients[me].tokenOnly && id in t.jobs && t.jobs[id].client == me
    && (forall x :: x in t.jobs && t.jobs[x].client == me && x != id ==> !Open(t.jobs[x].state))
    && |set x | x in t.jobs && t.jobs[x].client == me| <= 200
  }

  /** A start is granted to an approved job of the client that is scheduled and inside its window, or dispatched already. */
  predicate Startable(t: Table, catalog: map<string, Approval>, me: string, id: string, now: int) {
    ValidIdentifier(id) && id in t.jobs && t.jobs[id].client == me && Approved(catalog, t.jobs[id])
    && ((t.jobs[id].state == Scheduled && t.jobs[id].window.notBefore <= now && now < t.jobs[id].window.expiresAt)
        || (t.jobs[id].state == Dispatched && !t.jobs[id].rollback))
  }

  /** A result is taken for a dispatched job, or again if it is the one already there. */
  predicate Reportable(t: Table, me: string, id: string, ok: bool, rollback: bool) {
    ValidIdentifier(id) && id in t.jobs && t.jobs[id].client == me
    && (t.jobs[id].state == Dispatched || (t.jobs[id].state == (if ok then Succeeded else Failed) && t.jobs[id].rollback == rollback))
  }

  /** A cancellation succeeds for a scheduled job, and again for a cancelled one. */
  predicate Withdrawable(j: Job) {
    j.state == Scheduled || (j.state == Cancelled && !j.rollback)
  }

  /** The journal holds this result. */
  predicate Reports(journal: Option<Journal>, id: string, ok: bool, rollback: bool) {
    journal.Some? && journal.value.job.id == id && journal.value.phase == Finished(ok) && journal.value.rollback == rollback
  }

  class Machine {
    const config: Config
    const disk: Disk
    const store: JobStore
    const catalog: map<string, Approval>
    /** No message is lost, the lock is free, and nothing else happens at the server meanwhile. */
    const quiet: bool
    var net: set<Request>
    /** The worker's files job.json and installed-version.json. */
    var journal: Option<Journal>
    var floor: Option<string>
    ghost var owner: Owner
    ghost var work: map<string, Work>
    ghost var begun: seq<string>
    ghost var records: seq<Record>
    ghost var released: seq<string>
    /** The protocol's runs, and the one so far. */
    ghost const runs: iset<seq<System>>
    ghost var trace: seq<System>

    ghost function Now(): System
      reads this, disk, store
    {
      System(store.Now(), net, disk.Now(), journal, floor, owner, work, begun, records, released)
    }

    ghost predicate Traced(s: System)
      reads this
    {
      At(runs, config, trace, s)
    }

    ghost predicate Valid()
      reads this, disk, store
    {
      ValidConfig(config) && disk.specs == config.specs && Traced(Now())
    }

    /** A fresh worker directory, an empty job table, and a disk without an interrupted installation. */
    constructor (config: Config, disk: Disk, store: JobStore, catalog: map<string, Approval>, quiet: bool)
      requires ValidConfig(config) && disk.specs == config.specs
      requires Init(config, System(store.Now(), {}, disk.Now(), None, None, Nobody, map[], [], [], []))
      ensures this.config == config && this.disk == disk && this.store == store && this.catalog == catalog && this.quiet == quiet
      ensures Valid() && trace == [Now()]
      ensures Now() == System(store.Now(), {}, disk.Now(), None, None, Nobody, map[], [], [], [])
    {
      this.config, this.disk, this.store, this.catalog, this.quiet := config, disk, store, catalog, quiet;
      net, journal, floor := {}, None, None;
      runs := iset run | Protocol.Run(config, run);
      owner, work, begun, records, released := Nobody, map[], [], [], [];
      new;
      trace := [Now()];
      FirstState(runs, config, Now());
    }

    /** Appends the present state to the trace. */
    ghost method Mark()
      requires Sound(runs, config) && Follows(runs, trace, Now())
      modifies this`trace
      ensures Traced(Now()) && trace == old(trace) + [Now()]
    {
      trace := trace + [Now()];
    }

    // ----- the server's handlers ------------------------------------------------------------

    /** approvedJob. */
    predicate ApprovedJob(j: Job)
      ensures ApprovedJob(j) <==> Approved(catalog, j)
    {
      j.releaseId in catalog && var v := catalog[j.releaseId];
      v.sha == j.packageSha && v.version == j.releaseVersion && (v.requiresMaintenance ==> j.window.maintenance)
    }

    /** The row a schedule form asks for: an approved release and a window that its maintenance needs allow. */
    predicate Schedulable(client: string, releaseId: string, window: Window, now: int) {
      releaseId in catalog && ValidWindow(window, now, catalog[releaseId].requiresMaintenance) && ValidClientId(client)
    }

    function Requested(id: string, client: string, releaseId: string, window: Window): Job
      requires releaseId in catalog
    {
      Job(id, client, releaseId, catalog[releaseId].version, catalog[releaseId].sha, window, Scheduled, false, 0, 0)
    }

    method ScheduleClientUpdate(id: string, client: string, releaseId: string, window: Window, caller: Caller, now: int) returns (ok: bool)
      requires Valid()
      modifies this`trace, store`jobs, store`audit
      ensures Valid() && Grew(old(trace), trace)
      ensures ok <==> Schedulable(client, releaseId, window, now) && Admissible(Requested(id, client, releaseId, window), store.clients, caller, now) && (if id in old(store.jobs) then SameRequest(old(store.jobs)[id], Requested(id, client, releaseId, window)) else Free(old(store.jobs), client, now))
      ensures ok ==> id in store.jobs && Approved(catalog, store.jobs[id]) && SameRequest(store.jobs[id], Requested(id, client, releaseId, window))
      ensures ok ==> var j := store.jobs[id]; j.client == client && j.releaseId == releaseId && j.releaseVersion == catalog[releaseId].version && j.packageSha == catalog[releaseId].sha && j.window == window
      ensures ok && id !in old(store.jobs) ==> store.jobs[id].state == Scheduled && !store.jobs[id].rollback && store.jobs[id].created == now
      ensures !ok ==> store.Now() == old(store.Now())
    {
      if releaseId !in catalog {
        return false;
      }
      var named := CheckClientId(client);
      if !ValidWindow(window, now, catalog[releaseId].requiresMaintenance) || !named {
        return false;
      }
      var j := Requested(id, client, releaseId, window);
      ghost var before := Now();
      ok := store.CreateUpdateJob(j, caller, now);
      CreationIsElsewhere(config, before, Now(), j, caller, now);
      ServerFollows(runs, config, trace, before, Now());
      Mark();
    }

    /** A change of one job that is not the worker's start or result. */
    method ChangeElsewhere(id: string, client: string, to: JobState, rollback: bool, caller: Caller, now: int) returns (ok: bool)
      requires client != config.me || to.Cancelled? || to.Expired?
      modifies store`jobs, store`audit
      ensures ServerElsewhere(config, old(Now()), Now())
      ensures ok <==> Changeable(old(store.Now()), store.clients, id, client, to, rollback, caller, now)
      ensures ok ==> id in store.jobs && store.jobs[id].state == to
      ensures forall x :: x in old(store.jobs) ==> x in store.jobs && store.jobs[x].client == old(store.jobs)[x].client
    {
      ghost var before := Now();
      ok := store.ChangeUpdateJob(id, client, to, rollback, caller, now);
      ChangeIsElsewhere(config, before, Now(), id, client, to, rollback, now);
    }

    method CancelClientUpdate(id: string, caller: Caller, now: int) returns (ok: bool)
      requires Valid()
      modifies this`trace, store`jobs, store`audit
      ensures Valid() && Grew(old(trace), trace)
      ensures ok <==> id in old(store.jobs) && ValidIdentifier(id) && |caller.actor| <= 128 && caller.addressValid && Withdrawable(old(store.jobs)[id])
      ensures ok ==> id in store.jobs && store.jobs[id].state.Cancelled?
    {
      if id !in store.jobs {
        return false;
      }
      ghost var before := Now();
      ok := ChangeElsewhere(id, store.jobs[id].client, Cancelled, false, caller, now);
      ServerFollows(runs, config, trace, before, Now());
      Mark();
    }

    /** Expires a job, as a poll does for one whose window has passed. */
    method ExpireJob(id: string, addressValid: bool, now: int) returns (ok: bool)
      requires Valid()
      modifies this`trace, store`jobs, store`audit
      ensures Valid() && Grew(old(trace), trace)
      ensures forall x :: x in old(store.jobs) ==> x in store.jobs && store.jobs[x].client == old(store.jobs)[x].client
    {
      ghost var before := Now();
      ok := ChangeElsewhere(id, config.me, Expired, false, Caller("", addressValid), now);
      ServerFollows(runs, config, trace, before, Now());
      Mark();
    }

    ghost method AnswerPoll(id: string, now: int)
      requires Valid() && owner == Worker(Polling) && id in store.jobs && store.jobs[id].client == config.me
      requires var j := store.jobs[id]; j.state.Dispatched? || (j.state.Scheduled? && j.window.notBefore <= now < j.window.expiresAt)
      modifies this`trace, this`owner
      ensures Valid() && Grew(old(trace), trace) && owner == Worker(PollAnswer(store.jobs[id]))
    {
      ghost var before := Now();
      owner := Worker(PollAnswer(store.jobs[id]));
      assert HandlePoll(config, before, Now(), id, now);
      ServerFollows(runs, config, trace, before, Now());
      Mark();
    }

    /** One row of the listing: expired, offered, or passed over. */
    method PollRow(id: string, addressValid: bool, now: int) returns (status: Reply, answer: Option<Job>)
      requires Valid() && owner == Worker(Polling) && id in store.jobs && store.jobs[id].client == config.me
      modifies this`trace, this`owner, store`jobs, store`audit
      ensures Valid() && Grew(old(trace), trace)
      ensures forall x :: x in old(store.jobs) ==> x in store.jobs && store.jobs[x].client == old(store.jobs)[x].client
      ensures answer.Some? <==> Offerable(catalog, old(store.jobs)[id], now)
      ensures answer.Some? ==> answer.value == old(store.jobs)[id] && store.Now() == old(store.Now())
      ensures answer.Some? ==> status.Done? && owner == Worker(PollAnswer(answer.value))
      ensures answer.None? ==> owner == old(owner)
      ensures !Open(old(store.jobs)[id].state) ==> status.NoContent? && store.Now() == old(store.Now())
    {
      var j := store.jobs[id];
      if j.state.Scheduled? && now >= j.window.expiresAt {
        var ok := ExpireJob(id, addressValid, now);
        return if ok then NoContent else Conflict, None;
      }
      if j.state.Dispatched? || (j.state.Scheduled? && now >= j.window.notBefore) {
        if !ApprovedJob(j) {
          return Conflict, None;
        }
        AnswerPoll(id, now);
        return Done, Some(j);
      }
      return NoContent, None;
    }

    /** pollClientUpdate: the listing may be any part of the client's jobs, in any order. */
    method PollClientUpdate(addressValid: bool, now: int) returns (status: Reply, answer: Option<Job>)
      requires Valid() && owner == Worker(Polling)
      modifies this`trace, this`owner, store`jobs, store`audit
      ensures Valid() && Grew(old(trace), trace)
      ensures answer.Some? ==> Offerable(catalog, answer.value, now) && answer.value.client == config.me && Available(store.clients, config.me)
      ensures answer.Some? ==> status.Done? && owner == Worker(PollAnswer(answer.value))
      ensures answer.None? ==> owner == old(owner)
      ensures forall id :: OnlyOpen(old(store.Now()), store.clients, config.me, id) && Offerable(catalog, old(store.jobs)[id], now) ==> answer == Some(old(store.jobs)[id]) && store.Now() == old(store.Now())
    {
      if !Available(store.clients, config.me) {
        return Unauthorized, None;
      }
      var mine := set id | id in store.jobs && store.jobs[id].client == config.me;
      var rest :| rest <= mine && (|mine| <= 200 ==> rest == mine);
      status, answer := NoContent, None;
      while rest != {} && status.NoContent?
        invariant Valid() && Grew(old(trace), trace)
        invariant forall id :: id in rest ==> id in store.jobs && store.jobs[id].client == config.me
        invariant answer.Some? ==> Offerable(catalog, answer.value, now) && answer.value.client == config.me
        invariant forall id :: OnlyOpen(old(store.Now()), store.clients, config.me, id) && Offerable(catalog, old(store.jobs)[id], now) ==>
          store.Now() == old(store.Now()) && if id in rest then answer.None? && status.NoContent? else answer == Some(old(store.jobs)[id])
        invariant answer.Some? ==> status.Done? && owner == Worker(PollAnswer(answer.value))
        invariant answer.None? ==> owner == old(owner)
        decreases rest
      {
        var id :| id in rest;
        rest := rest - {id};
        ghost var t := trace;
        status, answer := PollRow(id, addressValid, now);
        Grown(old(trace), t, trace);
      }
    }

    /** The transaction behind startClientUpdate, and its answer if that reaches the waiting worker. */
    method GrantStart(id: string, addressValid: bool, now: int, ghost delivered: bool) returns (status: Reply, ghost approved: bool)
      requires Start(id) in net
      requires delivered ==> owner.Worker? && owner.pc.StartSent? && journal.Some? && journal.value.job.id == id
      modifies this`owner, store`jobs, store`audit
      ensures !status.Unauthorized? && !status.Done? && HandleStart(config, old(Now()), Now(), id, approved, store.clients, Caller("", addressValid), now)
      ensures status.NoContent? <==> addressValid && Startable(old(store.Now()), catalog, config.me, id, now) && (old(store.jobs)[id].state.Scheduled? ==> Available(store.clients, config.me))
      ensures status.NoContent? ==> id in store.jobs && store.jobs[id].state.Dispatched? && SameRequest(old(store.jobs)[id], store.jobs[id])
      ensures !delivered ==> owner == old(owner)
      ensures delivered ==> owner == Worker(StartAnswer(old(owner).pc.plan, old(owner).pc.stage, status.NoContent?))
    {
      approved := false;
      if id !in store.jobs || store.jobs[id].client != config.me {
        status := NotFound;
      } else if !ApprovedJob(store.jobs[id]) {
        status := Conflict;
      } else {
        approved := true;
        var ok := store.ChangeUpdateJob(id, config.me, Dispatched, false, Caller("", addressValid), now);
        status := if ok then NoContent else Conflict;
      }
      if delivered {
        owner := Worker(StartAnswer(owner.pc.plan, owner.pc.stage, status.NoContent?));
      }
    }

    /** startClientUpdate; `delivered` says whether the answer reaches the waiting worker. */
    method StartClientUpdate(id: string, addressValid: bool, now: int, ghost delivered: bool) returns (status: Reply)
      requires Valid() && Start(id) in net
      requires delivered ==> owner.Worker? && owner.pc.StartSent? && journal.Some? && journal.value.job.id == id
      modifies this`trace, this`owner, store`jobs, store`audit
      ensures Valid() && Grew(old(trace), trace)
      ensures status.NoContent? <==> Available(store.clients, config.me) && addressValid && Startable(old(store.Now()), catalog, config.me, id, now)
      ensures status.NoContent? ==> id in store.jobs && store.jobs[id].state.Dispatched? && SameRequest(old(store.jobs)[id], store.jobs[id])
      ensures !status.Done? && (status.Unauthorized? ==> !Available(store.clients, config.me))
      ensures status.Unauthorized? || !delivered ==> owner == old(owner)
      ensures !status.Unauthorized? && delivered ==> owner == Worker(StartAnswer(old(owner).pc.plan, old(owner).pc.stage, status.NoContent?))
    {
      if !Available(store.clients, config.me) {
        return Unauthorized;
      }
      ghost var before := Now();
      ghost var approved;
      status, approved := GrantStart(id, addressValid, now, delivered);
      ServerFollows(runs, config, trace, before, Now());
      Mark();
    }

    /** The transaction behind finishClientUpdate, and its answer if that reaches the waiting worker. */
    method TakeResult(id: string, ok: bool, rollback: bool, addressValid: bool, now: int, ghost delivered: bool) returns (status: Reply)
      requires Result(id, ok, rollback) in net
      requires delivered ==> owner == Worker(ResultSent) && Reports(journal, id, ok, rollback)
      modifies this`owner, store`jobs, store`audit
      ensures !status.Unauthorized? && HandleResult(config, old(Now()), Now(), id, ok, rollback, store.clients, Caller("", addressValid), now)
      ensures status.NoContent? <==> addressValid && Reportable(old(store.Now()), config.me, id, ok, rollback)
      ensures status.NoContent? ==> id in store.jobs && store.jobs[id].state == Outcomes(ok) && store.jobs[id].rollback == rollback
      ensures owner == if delivered then Worker(ResultAnswer(status.NoContent?)) else old(owner)
    {
      if id !in store.jobs || store.jobs[id].client != config.me {
        status := NotFound;
      } else {
        var taken := store.ChangeUpdateJob(id, config.me, if ok then Succeeded else Failed, rollback, Caller("", addressValid), now);
        status := if taken then NoContent else Conflict;
      }
      if delivered {
        owner := Worker(ResultAnswer(status.NoContent?));
      }
    }

    /** finishClientUpdate. */
    method FinishClientUpdate(id: string, ok: bool, rollback: bool, addressValid: bool, now: int, ghost delivered: bool) returns (status: Reply)
      requires Valid() && Result(id, ok, rollback) in net
      requires delivered ==> owner == Worker(ResultSent) && Reports(journal, id, ok, rollback)
      modifies this`trace, this`owner, store`jobs, store`audit
      ensures Valid() && Grew(old(trace), trace)
      ensures status.NoContent? <==> Available(store.clients, config.me) && addressValid && Reportable(old(store.Now()), config.me, id, ok, rollback)
      ensures status.NoContent? ==> id in store.jobs && store.jobs[id].state == Outcomes(ok) && store.jobs[id].rollback == rollback
      ensures status.Unauthorized? || !delivered ==> owner == old(owner)
      ensures !status.Unauthorized? && delivered ==> owner == Worker(ResultAnswer(status.NoContent?))
    {
      if !Available(store.clients, config.me) {
        return Unauthorized;
      }
      ghost var before := Now();
      status := TakeResult(id, ok, rollback, addressValid, now, delivered);
      ServerFollows(runs, config, trace, before, Now());
      Mark();
    }

    /** downloadClientUpdate offers the package of an open, approved job whose window has not passed. */
    method DownloadClientUpdate(id: string, now: int) returns (status: Reply)
      ensures status.Done? <==> Available(store.clients, config.me) && id in store.jobs && store.jobs[id].client == config.me && Open(store.jobs[id].state) && now < store.jobs[id].window.expiresAt && Approved(catalog, store.jobs[id])
    {
      if !Available(store.clients, config.me) {
        return Unauthorized;
      }
      if id !in store.jobs || store.jobs[id].client != config.me {
        return NotFound;
      }
      var j := store.jobs[id];
      if !ApprovedJob(j) || (!j.state.Scheduled? && !j.state.Dispatched?) || now >= j.window.expiresAt {
        return Conflict;
      }
      return Done;
    }

    /** Another client's start or result. */
    method OtherClient(id: string, client: string, to: JobState, rollback: bool, caller: Caller, now: int)
      requires Valid()
      modifies this`trace, store`jobs, store`audit
      ensures Valid() && Grew(old(trace), trace)
    {
      if client != config.me {
        ghost var before := Now();
        var ok := ChangeElsewhere(id, client, to, rollback, caller, now);
        ServerFollows(runs, config, trace, before, Now());
        Mark();
      }
    }

    /** The network hands the server an old request once more; the answer gets lost. */
    method Redeliver(r: Request, addressValid: bool, now: int)
      requires Valid() && r in net
      modifies this`trace, this`owner, store`jobs, store`audit
      ensures Valid() && Grew(old(trace), trace) && owner == old(owner)
    {
      match r
      case Start(id) =>
        var status := StartClientUpdate(id, addressValid, now, false);
      case Result(id, ok, rollback) =>
        var status := FinishClientUpdate(id, ok, rollback, addressValid, now, false);
    }

    /** Whatever else happens at the server meanwhile. */
    method Elsewhere()
      requires Valid()
      modifies this`trace, this`owner, store`jobs, store`audit
      ensures Valid() && Grew(old(trace), trace) && owner == old(owner)
      ensures quiet ==> store.Now() == old(store.Now())
    {
      if quiet {
        return;
      }
      var n: nat :| true;
      for i := 0 to n
        invariant Valid() && Grew(old(trace), trace) && owner == old(owner)
      {
        ghost var t := trace;
        var now: int, id: string, caller: Caller := *, *, *;
        if * {
          var client: string, releaseId: string, window: Window := *, *, *;
          var ok := ScheduleClientUpdate(id, client, releaseId, window, caller, now);
        } else if * {
          var ok := CancelClientUpdate(id, caller, now);
        } else if * {
          var client: string, to: JobState, rollback: bool := *, *, *;
          OtherClient(id, client, to, rollback, caller, now);
        } else if r :| r in net {
          Redeliver(r, caller.addressValid, now);
        }
        Grown(old(trace), t, trace);
      }
    }

    /** The fate of a message, and whether the address the server sees for it parses. */
    method Transmit() returns (lost: bool, addressValid: bool)
      ensures quiet ==> !lost && addressValid
    {
      lost, addressValid := *, *;
      if quiet {
        lost, addressValid := false, true;
      }
    }

    /** Moves the history on to `next`, which the real fields have reached already. */
    ghost method Arrive(next: System)
      requires Sound(runs, config) && Follows(runs, trace, next)
      requires next == Now().(owner := next.owner, work := next.work, begun := next.begun, records := next.records, released := next.released)
      modifies this`owner, this`work, this`begun, this`records, this`released, this`trace
      ensures Traced(Now()) && Now() == next && trace == old(trace) + [next]
    {
      owner, work, begun, records, released := next.owner, next.work, next.begun, next.records, next.released;
      assert Now() == next;
      Mark();
    }
  }

  /** The journalled result is always one the server takes. */
  lemma ResultIsReportable(runs: iset<seq<System>>, c: Config, trace: seq<System>, s: System)
    requires ValidConfig(c) && At(runs, c, trace, s) && s.journal.Some? && s.journal.value.phase.Finished?
    ensures var j := s.journal.value; Reportable(s.table, c.me, j.job.id, j.phase.ok, j.rollback)
  {
    assert Named(trace);
    Safety.ResultNeverConflicts(c, trace, |trace| - 1, map[], Caller("", true), 0);
  }

  lemma ChangeIsElsewhere(c: Config, s: System, t: System, id: string, client: string, to: JobState, rollback: bool, now: int)
    requires t == s.(table := t.table) && Next(s.table, t.table) && (client != c.me || to.Cancelled? || to.Expired?)
    requires t.table == s.table || (id in s.table.jobs && s.table.jobs[id].client == client && t.table == Changed(s.table, id, to, rollback, now))
    ensures ServerElsewhere(c, s, t)
  {
  }

  /** Creating a job changes another row only by expiring it. */
  lemma CreationIsElsewhere(c: Config, s: System, t: System, j: Job, caller: Caller, now: int)
    requires t == s.(table := t.table) && Next(s.table, t.table)
    requires s.table == t.table || exists m :: ExpiredFirst(s.table, m, j.client, caller, now) && Inserted(m, t.table, j, now)
    ensures ServerElsewhere(c, s, t)
  {
  }
}
