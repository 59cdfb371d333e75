/**
 * The server's update jobs: the lifecycle relation (clientupdate/job.go) and
 * the job table with its audit log (database/client_update_jobs.go). Times are
 * whole seconds; the windows are whole seconds too, so comparing at a finer
 * resolution gives the same answers.
 */
module Jobs {
  import opened Strings

  datatype JobState = Scheduled | Dispatched | Succeeded | Failed | Cancelled | Expired

  predicate Terminal(s: JobState) {
    s.Succeeded? || s.Failed? || s.Cancelled? || s.Expired?
  }

  predicate Open(s: JobState) {
    s.Scheduled? || s.Dispatched?
  }

  datatype Window = Window(notBefore: int, expiresAt: int, maintenance: bool)

  const DAY: int := 86400
  /** Go's zero time in Unix seconds. */
  const ZERO_TIME: int := -62135596800

  /** JobWindow.Validate. */
  predicate ValidWindow(w: Window, now: int, requiresLightDM: bool) {
    w.notBefore != ZERO_TIME && w.expiresAt != ZERO_TIME
    && w.notBefore < w.expiresAt <= w.notBefore + DAY
    && now < w.expiresAt && w.notBefore <= now + 90 * DAY
    && (requiresLightDM ==> w.maintenance)
  }

  /** JobWindow.Transition: which change of state is allowed at `now`. */
  predicate Transition(w: Window, from: JobState, to: JobState, now: int) {
    || (from == to && Terminal(from))
    || (from.Scheduled? && to.Cancelled?)
    || (from.Scheduled? && to.Expired? && now >= w.expiresAt)
    || (from.Scheduled? && to.Dispatched? && w.notBefore <= now < w.expiresAt)
    || (from.Dispatched? && (to.Succeeded? || to.Failed?))
  }

  /** `maintenance` is stored with the window. */
  datatype Job = Job(
    id: string, client: string, releaseId: string, releaseVersion: string, packageSha: string,
    window: Window, state: JobState, rollback: bool, created: int, updated: int)

  datatype Event = Event(kind: JobState, client: string, job: string, at: int)

  datatype Client = Client(enabled: bool, tokenOnly: bool)

  /** The job table and the part of the audit log that names jobs. */
  datatype Table = Table(jobs: map<string, Job>, audit: seq<Event>)

  // ----- identifiers ---------------------------------------------------------------

  predicate IdentifierCharacter(c: char) {
    'a' <= c <= 'z' || 'A' <= c <= 'Z' || '0' <= c <= '9' || c == '_' || c == '-'
  }

  /** ValidUpdateIdentifier. */
  predicate ValidIdentifier(s: string) {
    16 <= |s| <= 64 && forall i :: 0 <= i < |s| ==> IdentifierCharacter(s[i])
  }

  predicate HexDigit(c: char) {
    '0' <= c <= '9' || 'a' <= c <= 'f' || 'A' <= c <= 'F'
  }

  predicate ValidDigest(s: string) {
    |s| == 64 && forall i :: 0 <= i < |s| ==> HexDigit(s[i])
  }

  /** Who asks: the administrator or device name for the audit, and whether its address parses. */
  datatype Caller = Caller(actor: string, addressValid: bool)

  predicate Available(clients: map<string, Client>, client: string) {
    client in clients && clients[client].enabled && !clients[client].tokenOnly
  }

  /** The columns a repeated request must agree on. */
  predicate SameRequest(a: Job, b: Job) {
    a.client == b.client && a.releaseId == b.releaseId && a.releaseVersion == b.releaseVersion
    && a.packageSha == b.packageSha && a.window == b.window
  }

  // ----- the two transactions --------------------------------------------------------

  /** What changeUpdateJob answers. */
  predicate Changeable(t: Table, clients: map<string, Client>, id: string, client: string, to: JobState, rollback: bool, caller: Caller, now: int) {
    ValidIdentifier(id) && |caller.actor| <= 128 && caller.addressValid
    && id in t.jobs && t.jobs[id].client == client
    && var j := t.jobs[id];
       if j.state == to then j.rollback == rollback
       else Transition(j.window, j.state, to, now) && (to.Dispatched? ==> Available(clients, client))
  }

  /** What it leaves behind: a repeated request changes nothing. */
  function Changed(t: Table, id: string, to: JobState, rollback: bool, now: int): Table
    requires id in t.jobs
  {
    var j := t.jobs[id];
    if j.state == to then t
    else Table(t.jobs[id := j.(state := to, rollback := rollback, updated := now)],
               t.audit + [Event(to, j.client, id, now)])
  }

  /** The open job a client has, if any. */
  ghost predicate HasOpen(jobs: map<string, Job>, client: string) {
    exists id :: id in jobs && jobs[id].client == client && Open(jobs[id].state)
  }

  predicate Overdue(j: Job, client: string, now: int) {
    j.client == client && j.state.Scheduled? && j.window.expiresAt <= now
  }

  /** A client may get a new job: it has no open one, or one that nobody fetched in time. */
  ghost predicate Free(jobs: map<string, Job>, client: string, now: int) {
    (forall x :: x in jobs && jobs[x].client == client && Open(jobs[x].state) ==> jobs[x].state == Scheduled && jobs[x].window.expiresAt <= now && ValidIdentifier(x))
    && forall x, y :: x in jobs && y in jobs && jobs[x].client == client == jobs[y].client && Open(jobs[x].state) && Open(jobs[y].state) ==> x == y
  }

  class JobStore {
    var jobs: map<string, Job>
    var audit: seq<Event>
    var clients: map<string, Client>

    ghost function Now(): Table
      reads this
    {
      Table(jobs, audit)
    }

    /** changeUpdateJob inside its transaction. */
    method ChangeUpdateJob(id: string, client: string, to: JobState, rollback: bool, caller: Caller, now: int) returns (ok: bool)
      modifies this`jobs, this`audit
      ensures Next(old(Now()), Now())
      ensures ok <==> Changeable(old(Now()), clients, id, client, to, rollback, caller, now)
      ensures ok ==> Now() == Changed(old(Now()), id, to, rollback, now)
      ensures !ok ==> Now() == old(Now())
    {
      if !ValidIdentifier(id) || |caller.actor| > 128 || !caller.addressValid {
        return false;
      }
      if id !in jobs || jobs[id].client != client {
        return false;
      }
      var j := jobs[id];
      if j.state == to {
        return j.rollback == rollback;
      }
      if !Transition(j.window, j.state, to, now) {
        return false;
      }
      if to.Dispatched? && !Available(clients, client) {
        return false;
      }
      jobs := jobs[id := j.(state := to, rollback := rollback, updated := now)];
      audit := audit + [Event(to, client, id, now)];
      assert Changeable(old(Now()), clients, id, client, to, rollback, caller, now)
        && Now() == Changed(old(Now()), id, to, rollback, now);
      return true;
    }

    /** createUpdateJob inside its transaction; a failing insert undoes the expiry before it. */
    method CreateUpdateJob(j: Job, caller: Caller, now: int) returns (ok: bool)
      modifies this`jobs, this`audit
      ensures Next(old(Now()), Now())
      ensures !ok ==> Now() == old(Now())
      ensures ok <==> Admissible(j, clients, caller, now) && if j.id in old(jobs) then SameRequest(old(jobs)[j.id], j) else Free(old(jobs), j.client, now)
      ensures ok && j.id in old(jobs) ==> Now() == old(Now()) && SameRequest(old(jobs)[j.id], j)
      ensures ok && j.id !in old(jobs) ==> exists t :: ExpiredFirst(old(Now()), t, j.client, caller, now) && Inserted(t, Now(), j, now)
    {
      if !Admissible(j, clients, caller, now) {
        return false;
      }
      if j.id in jobs {
        return SameRequest(jobs[j.id], j);
      }
      ghost var before := Now();
      var savedJobs, savedAudit := jobs, audit;
      if previous :| previous in jobs && Overdue(jobs[previous], j.client, now) {
        ok := ChangeUpdateJob(previous, j.client, Expired, false, caller, now);
        if !ok {
          assert !ValidIdentifier(previous) && Open(jobs[previous].state);
          return false;
        }
      }
      assert ExpiredFirst(before, Now(), j.client, caller, now);
      ghost var t := Now();
      FreeExactly(before, t, j.client, caller, now);
      // The unique index on open jobs rejects a second one.
      if other :| other in jobs && jobs[other].client == j.client && Open(jobs[other].state) {
        assert HasOpen(jobs, j.client);
        jobs, audit := savedJobs, savedAudit;
        return false;
      }
      jobs := jobs[j.id := NewRow(j, now)];
      audit := audit + [Event(Scheduled, j.client, j.id, now)];
      assert Inserted(t, Now(), j, now);
      return true;
    }
  }

  function NewRow(j: Job, now: int): Job {
    j.(state := Scheduled, rollback := false, created := now, updated := now)
  }

  /** The checks createUpdateJob makes before it looks at the table. */
  predicate Admissible(j: Job, clients: map<string, Client>, caller: Caller, now: int) {
    ValidIdentifier(j.id) && ValidIdentifier(j.releaseId) && 0 < |j.client| <= 64 && |caller.actor| <= 128
    && ValidDigest(j.packageSha) && ValidWindow(j.window, now, false) && caller.addressValid
    && Available(clients, j.client)
  }

  /** A job of the client that nobody fetched in time may be expired first. */
  ghost predicate ExpiredFirst(a: Table, b: Table, client: string, caller: Caller, now: int) {
    || (a == b && forall id :: id in a.jobs ==> !Overdue(a.jobs[id], client, now))
    || (exists id :: id in a.jobs && ValidIdentifier(id) && Overdue(a.jobs[id], client, now) && b == Changed(a, id, Expired, false, now))
  }

  /** After the expiry no open job is left exactly if the client was free. */
  lemma FreeExactly(a: Table, b: Table, client: string, caller: Caller, now: int)
    requires ExpiredFirst(a, b, client, caller, now)
    ensures !HasOpen(b.jobs, client) <==> Free(a.jobs, client, now)
  {
    if a != b {
      var id :| id in a.jobs && ValidIdentifier(id) && Overdue(a.jobs[id], client, now) && b == Changed(a, id, Expired, false, now);
      assert forall x :: x in b.jobs && x != id ==> x in a.jobs && b.jobs[x] == a.jobs[x];
      assert Open(a.jobs[id].state) && !Open(b.jobs[id].state);
    }
  }

  ghost predicate Inserted(a: Table, b: Table, j: Job, now: int) {
    j.id !in a.jobs && !HasOpen(a.jobs, j.client)
    && b == Table(a.jobs[j.id := NewRow(j, now)], a.audit + [Event(Scheduled, j.client, j.id, now)])
  }

  /** One committed transaction, or one that changed nothing. */
  ghost predicate Next(a: Table, b: Table) {
    || a == b
    || (exists clients, id, client, to, rollback, caller, now ::
          Changeable(a, clients, id, client, to, rollback, caller, now) && b == Changed(a, id, to, rollback, now))
    || (exists clients, j, caller, now, t ::
          Admissible(j, clients, caller, now) && j.id !in a.jobs
          && ExpiredFirst(a, t, j.client, caller, now) && Inserted(t, b, j, now))
  }
}
