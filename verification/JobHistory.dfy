/** The audit log replays to the job table: the lifecycle of every job, over every run of transactions. */
module JobHistory {
  import opened Strings
  import opened Jobs

  /** The audit events that name job `id`, oldest first. */
  function History(audit: seq<Event>, id: string): seq<Event> {
    if audit == [] then []
    else
      var last := audit[|audit| - 1];
      History(audit[..|audit| - 1], id) + (if last.job == id then [last] else [])
  }

  lemma HistoryAppend(audit: seq<Event>, e: Event, id: string)
    ensures e.job == id ==> History(audit + [e], id) == History(audit, id) + [e]
    ensures e.job != id ==> History(audit + [e], id) == History(audit, id)
  {
    assert (audit + [e])[..|audit|] == audit;
  }

  /** The state that results from replaying events through the lifecycle, if they form a legal path from scheduled. */
  function Replay(w: Window, client: string, h: seq<Event>): Option<JobState> {
    if h == [] then None
    else
      var last := h[|h| - 1];
      if last.client != client then None
      else if |h| == 1 then (if last.kind.Scheduled? then Some(Scheduled) else None)
      else
        var before := Replay(w, client, h[..|h| - 1]);
        if before.Some? && before.value != last.kind && Transition(w, before.value, last.kind, last.at)
        then Some(last.kind) else None
  }

  /** The log is exactly the path each job took; no client has two open jobs. */
  ghost predicate Good(t: Table) {
    (forall id :: id in t.jobs ==> Replays(t, id))
    && (forall id :: id !in t.jobs ==> History(t.audit, id) == [])
    && forall a, b :: OpenFor(t, a) && OpenFor(t, b) && t.jobs[a].client == t.jobs[b].client ==> a == b
  }

  predicate OpenFor(t: Table, id: string) {
    id in t.jobs && Open(t.jobs[id].state)
  }

  predicate Replays(t: Table, id: string)
    requires id in t.jobs
  {
    var j := t.jobs[id];
    j.id == id && ValidIdentifier(id) && Replay(j.window, j.client, History(t.audit, id)) == Some(j.state)
  }

  // ----- steps ----------------------------------------------------------------------

  ghost predicate Run(run: seq<Table>) {
    run != [] && run[0] == Table(map[], []) && forall i :: 0 <= i < |run| - 1 ==> Next(run[i], run[i + 1])
  }

  lemma ReplayStep(w: Window, client: string, h: seq<Event>, e: Event)
    requires Replay(w, client, h).Some? && e.client == client
    requires e.kind != Replay(w, client, h).value && Transition(w, Replay(w, client, h).value, e.kind, e.at)
    ensures Replay(w, client, h + [e]) == Some(e.kind)
  {
    assert (h + [e])[..|h|] == h;
  }

  lemma ChangeKeepsGood(t: Table, id: string, to: JobState, rollback: bool, now: int)
    requires Good(t) && id in t.jobs
    requires t.jobs[id].state == to || Transition(t.jobs[id].window, t.jobs[id].state, to, now)
    ensures Good(Changed(t, id, to, rollback, now))
  {
    var j, u := t.jobs[id], Changed(t, id, to, rollback, now);
    if j.state != to {
      var e := Event(to, j.client, id, now);
      assert Replays(t, id);
      ReplayStep(j.window, j.client, History(t.audit, id), e);
      forall x
        ensures x != id ==> History(u.audit, x) == History(t.audit, x)
        ensures x == id ==> History(u.audit, x) == History(t.audit, x) + [e]
      {
        HistoryAppend(t.audit, e, x);
      }
      forall x | x in u.jobs
        ensures Replays(u, x)
      {
        assert Replays(t, x);
      }
      OpenBefore(t, id, to, rollback, now);
    }
  }

  /** What is open after a change was open before it, for the same client. */
  lemma OpenBefore(t: Table, id: string, to: JobState, rollback: bool, now: int)
    requires id in t.jobs && Transition(t.jobs[id].window, t.jobs[id].state, to, now)
    ensures var u := Changed(t, id, to, rollback, now);
            forall x :: OpenFor(u, x) ==> OpenFor(t, x) && u.jobs[x].client == t.jobs[x].client
  {
  }

  lemma InsertKeepsGood(t: Table, u: Table, j: Job, now: int)
    requires Good(t) && Inserted(t, u, j, now) && ValidIdentifier(j.id)
    ensures Good(u)
  {
    var e := Event(Scheduled, j.client, j.id, now);
    forall x
      ensures x != j.id ==> History(u.audit, x) == History(t.audit, x)
      ensures x == j.id ==> History(u.audit, x) == History(t.audit, x) + [e]
    {
      HistoryAppend(t.audit, e, x);
    }
    forall x | x in u.jobs
      ensures Replays(u, x)
    {
      if x != j.id {
        assert Replays(t, x);
      }
    }
  }

  lemma NextKeepsGood(a: Table, b: Table)
    requires Good(a) && Next(a, b)
    ensures Good(b)
  {
    if a == b {
    } else if exists clients, id, client, to, rollback, caller, now ::
        Changeable(a, clients, id, client, to, rollback, caller, now) && b == Changed(a, id, to, rollback, now) {
      var clients, id, client, to, rollback, caller, now :|
        Changeable(a, clients, id, client, to, rollback, caller, now) && b == Changed(a, id, to, rollback, now);
      ChangeKeepsGood(a, id, to, rollback, now);
    } else {
      var clients, j, caller, now, t :|
        Admissible(j, clients, caller, now) && j.id !in a.jobs
        && ExpiredFirst(a, t, j.client, caller, now) && Inserted(t, b, j, now);
      if t != a {
        var id :| id in a.jobs && ValidIdentifier(id) && Overdue(a.jobs[id], j.client, now) && t == Changed(a, id, Expired, false, now);
        ChangeKeepsGood(a, id, Expired, false, now);
      }
      InsertKeepsGood(t, b, j, now);
    }
  }

  /** In every state of every run the audit log replays to the table and each client has at most one open job. */
  lemma {:induction false} AuditReplays(run: seq<Table>, i: nat)
    requires Run(run) && i < |run|
    ensures Good(run[i])
  {
    if i > 0 {
      AuditReplays(run, i - 1);
      assert Next(run[i - 1], run[i - 1 + 1]);
      NextKeepsGood(run[i - 1], run[i]);
    }
  }

  // ----- what a legal path tells ------------------------------------------------------

  /** The only paths of the lifecycle. */
  ghost predicate PathOf(w: Window, h: seq<Event>, s: JobState) {
    h != [] && h[0].kind.Scheduled? &&
    match s
    case Scheduled => |h| == 1
    case Dispatched => |h| == 2 && DispatchedInWindow(w, h)
    case Cancelled => |h| == 2 && h[1].kind.Cancelled?
    case Expired => |h| == 2 && h[1].kind.Expired? && h[1].at >= w.expiresAt
    case Succeeded => |h| == 3 && DispatchedInWindow(w, h) && h[2].kind.Succeeded?
    case Failed => |h| == 3 && DispatchedInWindow(w, h) && h[2].kind.Failed?
  }

  predicate DispatchedInWindow(w: Window, h: seq<Event>) {
    |h| >= 2 && h[1].kind.Dispatched? && w.notBefore <= h[1].at < w.expiresAt
  }

  /** Replaying to a state means having taken one of the lifecycle's paths to it, with dispatch inside the window. */
  lemma {:induction false} ReplayIsPath(w: Window, client: string, h: seq<Event>)
    requires Replay(w, client, h).Some?
    ensures PathOf(w, h, Replay(w, client, h).value)
  {
    if |h| > 1 {
      var h' := h[..|h| - 1];
      ReplayIsPath(w, client, h');
      assert forall k :: 0 <= k < |h'| ==> h[k] == h'[k];
    }
  }

  ghost predicate WasDispatched(h: seq<Event>) {
    exists k :: 0 <= k < |h| && h[k].kind.Dispatched?
  }

  /** Cancelled or expired. */
  ghost predicate WasWithdrawn(h: seq<Event>) {
    exists k :: 0 <= k < |h| && (h[k].kind.Cancelled? || h[k].kind.Expired?)
  }

  /** A dispatch is the second event and lies inside the window. */
  ghost predicate OnlyInWindow(w: Window, h: seq<Event>) {
    forall k :: 0 <= k < |h| && h[k].kind.Dispatched? ==> k == 1 && w.notBefore <= h[k].at < w.expiresAt
  }

  /** A cancelled or expired job was never dispatched; a dispatched or finished one was, once, inside its window. */
  lemma DispatchIsExclusive(t: Table, id: string)
    requires Good(t) && id in t.jobs
    ensures var s := t.jobs[id].state; s.Dispatched? || s.Succeeded? || s.Failed? <==> WasDispatched(History(t.audit, id))
    ensures var s := t.jobs[id].state; s.Cancelled? || s.Expired? <==> WasWithdrawn(History(t.audit, id))
    ensures OnlyInWindow(t.jobs[id].window, History(t.audit, id))
  {
    assert Replays(t, id);
    var j := t.jobs[id];
    ReplayIsPath(j.window, j.client, History(t.audit, id));
    PathTells(j.window, History(t.audit, id), j.state);
  }

  lemma PathTells(w: Window, h: seq<Event>, s: JobState)
    requires PathOf(w, h, s)
    ensures s.Dispatched? || s.Succeeded? || s.Failed? <==> WasDispatched(h)
    ensures s.Cancelled? || s.Expired? <==> WasWithdrawn(h)
    ensures OnlyInWindow(w, h)
  {
    if !s.Scheduled? {
      assert h[1].kind.Dispatched? || h[1].kind.Cancelled? || h[1].kind.Expired?;
    }
  }

  /** A row only ever moves forward along the lifecycle; its request columns never change. */
  ghost predicate RowKept(a: Table, b: Table, id: string) {
    id in a.jobs ==>
      id in b.jobs && SameRequest(a.jobs[id], b.jobs[id]) && a.jobs[id].id == b.jobs[id].id
      && (b.jobs[id] != a.jobs[id] ==> LegalMove(a.jobs[id].state, b.jobs[id].state))
  }

  /** The lifecycle without its clock. */
  predicate LegalMove(from: JobState, to: JobState) {
    || (from.Scheduled? && (to.Cancelled? || to.Expired? || to.Dispatched?))
    || (from.Dispatched? && (to.Succeeded? || to.Failed?))
  }

  lemma ChangeKeepsRow(t: Table, x: string, to: JobState, rollback: bool, now: int, id: string)
    requires x in t.jobs && (t.jobs[x].state == to || Transition(t.jobs[x].window, t.jobs[x].state, to, now))
    ensures RowKept(t, Changed(t, x, to, rollback, now), id)
  {
  }

  lemma RowsAreStable(a: Table, b: Table, id: string)
    requires Next(a, b)
    ensures RowKept(a, b, id)
  {
    if a == b {
    } else if exists clients, x, client, to, rollback, caller, now ::
        Changeable(a, clients, x, client, to, rollback, caller, now) && b == Changed(a, x, to, rollback, now) {
      var clients, x, client, to, rollback, caller, now :|
        Changeable(a, clients, x, client, to, rollback, caller, now) && b == Changed(a, x, to, rollback, now);
      ChangeKeepsRow(a, x, to, rollback, now, id);
    } else {
      var clients, j, caller, now, t :|
        Admissible(j, clients, caller, now) && j.id !in a.jobs
        && ExpiredFirst(a, t, j.client, caller, now) && Inserted(t, b, j, now);
      ExpiryKeepsRow(a, t, j.client, caller, now, id);
      InsertKeepsRow(t, b, j, now, id);
    }
  }

  lemma ExpiryKeepsRow(a: Table, b: Table, client: string, caller: Caller, now: int, id: string)
    requires ExpiredFirst(a, b, client, caller, now)
    ensures RowKept(a, b, id)
  {
    if a != b {
      var x :| x in a.jobs && ValidIdentifier(x) && Overdue(a.jobs[x], client, now) && b == Changed(a, x, Expired, false, now);
      ChangeKeepsRow(a, x, Expired, false, now, id);
    }
  }

  lemma InsertKeepsRow(a: Table, b: Table, j: Job, now: int, id: string)
    requires Inserted(a, b, j, now)
    ensures id in a.jobs ==> id in b.jobs && b.jobs[id] == a.jobs[id]
  {
  }

  /** Over a whole run a finished job keeps its row. */
  lemma {:induction false} FinishedForGood(run: seq<Table>, i: nat, k: nat, id: string)
    requires Run(run) && i <= k < |run| && id in run[i].jobs && Terminal(run[i].jobs[id].state)
    ensures id in run[k].jobs && run[k].jobs[id] == run[i].jobs[id]
    decreases k - i
  {
    if i < k {
      FinishedForGood(run, i, k - 1, id);
      assert Next(run[k - 1], run[k - 1 + 1]);
      RowsAreStable(run[k - 1], run[k], id);
    }
  }

  // ----- what can always be done ------------------------------------------------------------

  /**
   * In every reachable table a scheduled job can be cancelled at any time, dispatched
   * to an available client at every moment of its window and at no other, and expired
   * from its end on; a dispatched one takes either result and nothing else; a finished
   * one only its own result again.
   */
  lemma JobsMove(run: seq<Table>, i: nat, id: string, clients: map<string, Client>, rollback: bool, caller: Caller, now: int)
    requires Run(run) && i < |run| && id in run[i].jobs && |caller.actor| <= 128 && caller.addressValid
    ensures var j := run[i].jobs[id];
      forall to: JobState ::
        Changeable(run[i], clients, id, j.client, to, rollback, caller, now) <==>
        match j.state
        case Scheduled =>
          to == Cancelled || (to == Expired && j.window.expiresAt <= now) || (to == Scheduled && rollback == j.rollback)
          || (to == Dispatched && j.window.notBefore <= now && now < j.window.expiresAt
              && j.client in clients && clients[j.client].enabled && !clients[j.client].tokenOnly)
        case Dispatched => to == Succeeded || to == Failed || (to == Dispatched && rollback == j.rollback)
        case _ => to == j.state && rollback == j.rollback
  {
    AuditReplays(run, i);
    assert Replays(run[i], id);
  }

  // ----- windows --------------------------------------------------------------------------------

  /** A window of at most a day, which had not passed when the job was created and opens within ninety days of that. */
  predicate Bounded(j: Job) {
    j.window.notBefore < j.window.expiresAt <= j.window.notBefore + 86_400
    && j.created < j.window.expiresAt && j.window.notBefore <= j.created + 7_776_000
  }

  /** Exactly these windows are accepted at `now`, in whole seconds and with Go's zero time excluded. */
  lemma WindowAccepted(w: Window, now: int, needsMaintenance: bool)
    ensures ValidWindow(w, now, needsMaintenance) <==>
      w.notBefore < w.expiresAt && w.expiresAt - w.notBefore <= 86_400 && now < w.expiresAt && w.notBefore - now <= 7_776_000
      && w.notBefore != -62_135_596_800 && w.expiresAt != -62_135_596_800 && (needsMaintenance ==> w.maintenance)
  {
  }

  predicate Name(s: string) {
    16 <= |s| <= 64 && forall i :: 0 <= i < |s| ==> 'a' <= s[i] <= 'z' || 'A' <= s[i] <= 'Z' || '0' <= s[i] <= '9' || s[i] == '_' || s[i] == '-'
  }

  /** Exactly these requests are admitted before the table is looked at. */
  lemma RequestAdmitted(j: Job, clients: map<string, Client>, caller: Caller, now: int)
    ensures Admissible(j, clients, caller, now) <==>
      Name(j.id) && Name(j.releaseId) && 1 <= |j.client| <= 64 && |caller.actor| <= 128 && caller.addressValid
      && |j.packageSha| == 64 && (forall i :: 0 <= i < 64 ==> '0' <= j.packageSha[i] <= '9' || 'a' <= j.packageSha[i] <= 'f' || 'A' <= j.packageSha[i] <= 'F')
      && ValidWindow(j.window, now, false) && j.client in clients && clients[j.client].enabled && !clients[j.client].tokenOnly
  {
  }

  ghost predicate AllBounded(t: Table) {
    forall id :: id in t.jobs ==> Bounded(t.jobs[id])
  }

  lemma NextKeepsBounded(a: Table, b: Table)
    requires AllBounded(a) && Next(a, b)
    ensures AllBounded(b)
  {
    if a == b {
    } else if clients, id, client, to, rollback, caller, now :|
        Changeable(a, clients, id, client, to, rollback, caller, now) && b == Changed(a, id, to, rollback, now) {
    } else {
      var clients, j, caller, now, t :|
        Admissible(j, clients, caller, now) && j.id !in a.jobs
        && ExpiredFirst(a, t, j.client, caller, now) && Inserted(t, b, j, now);
    }
  }

  lemma {:induction false} WindowsBounded(run: seq<Table>, i: nat)
    requires Run(run) && i < |run|
    ensures AllBounded(run[i])
  {
    if i > 0 {
      WindowsBounded(run, i - 1);
      assert Next(run[i - 1], run[i - 1 + 1]);
      NextKeepsBounded(run[i - 1], run[i]);
    }
  }
}
