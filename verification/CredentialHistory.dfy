/**
 * What holds of the credential tables after every sequence of committed and
 * aborted transactions: one active and one pending credential per client, chains
 * of renewals whose ancestors are all superseded, and an audit log that accounts
 * for every active credential and every consumed token.
 */
module CredentialHistory {
  import opened Strings
  import opened Credentials

  // ----- the invariant ---------------------------------------------------------------------

  predicate Holds(cs: map<string, Credential>, id: string, client: string, status: Status) {
    id in cs && cs[id].Client() == client && cs[id].status == status
  }

  ghost predicate Unique(cs: map<string, Credential>, status: Status) {
    forall client, a, b :: Holds(cs, a, client, status) && Holds(cs, b, client, status) ==> a == b
  }

  ghost predicate OneEach(cs: map<string, Credential>) {
    Unique(cs, Active) && Unique(cs, Pending)
  }

  /** A renewal names a credential of its own client, which while it waits is active or revoked. */
  ghost predicate Linked(cs: map<string, Credential>) {
    forall id :: id in cs && cs[id].supersedes.Some? ==> LinkOk(cs, cs[id])
  }

  predicate LinkOk(cs: map<string, Credential>, c: Credential)
    requires c.supersedes.Some?
  {
    var p := c.supersedes.value;
    p in cs && cs[p].Client() == c.Client() && !cs[p].status.Pending?
    && (c.status.Pending? ==> cs[p].status.Active? || cs[p].status.Revoked?)
  }

  predicate Activation(e: Event, id: string) {
    (e.kind.Enrolled? || e.kind.Renewed?) && e.subject == id
  }

  /** The audit log says that the credential was active at some time. */
  ghost predicate WasActive(audit: seq<Event>, id: string) {
    exists i :: 0 <= i < |audit| && Activation(audit[i], id)
  }

  /** Whatever was once active has a superseded predecessor that was once active. */
  ghost predicate Chained(t: Tables) {
    && (forall id :: WasActive(t.audit, id) ==> id in t.credentials && !t.credentials[id].status.Pending?)
    && (forall id :: id in t.credentials && (t.credentials[id].status.Active? || t.credentials[id].status.Revoked?) ==> WasActive(t.audit, id))
    && (forall id :: id in t.credentials && WasActive(t.audit, id) && t.credentials[id].supersedes.Some? ==> Succeeds(t, t.credentials[id].supersedes.value))
  }

  ghost predicate Succeeds(t: Tables, p: string) {
    p in t.credentials && t.credentials[p].status.Superseded? && WasActive(t.audit, p)
  }

  function Count(audit: seq<Event>, kind: Kind, client: string): nat {
    if audit == [] then 0
    else Count(audit[..|audit| - 1], kind, client)
         + (var e := audit[|audit| - 1]; if e.kind == kind && e.client == client then 1 else 0)
  }

  /** Tokens of a client that an enrollment has used up. */
  function Spent(tokens: map<string, Token>, client: string): set<string> {
    set id | id in tokens && tokens[id].client == client && tokens[id].consumed.Some?
  }

  /** Credentials that renew nothing. */
  function Roots(cs: map<string, Credential>, client: string): set<string> {
    set id | id in cs && cs[id].Client() == client && cs[id].supersedes.None?
  }

  ghost predicate Accounted(t: Tables, client: string) {
    && |Having(t.credentials, client, Active)| == Count(t.audit, Enrolled, client) - Count(t.audit, RevokedEvent, client)
    && |Spent(t.tokens, client)| == |Roots(t.credentials, client)| == Count(t.audit, EnrollmentStaged, client)
  }

  ghost predicate Balanced(t: Tables) {
    forall client :: Accounted(t, client)
  }

  ghost predicate Sound(t: Tables) {
    OneEach(t.credentials) && Linked(t.credentials) && Chained(t) && Balanced(t)
  }

  // ----- one row under one transaction -------------------------------------------------------

  predicate Advances(from: Status, to: Status) {
    from == to || (from.Pending? && !to.Revoked?) || (from.Active? && !to.Pending?)
  }

  /** Rows are never deleted; certificate, predecessor and creation time are fixed; a final status stays. */
  ghost predicate Progress(a: map<string, Credential>, b: map<string, Credential>) {
    forall id :: id in a ==>
      id in b && b[id].certificate == a[id].certificate && b[id].supersedes == a[id].supersedes && b[id].created == a[id].created
      && Advances(a[id].status, b[id].status)
  }

  // ----- one event more ------------------------------------------------------------------------

  lemma CountAppend(audit: seq<Event>, e: Event, kind: Kind, client: string)
    ensures Count(audit + [e], kind, client) == Count(audit, kind, client) + (if e.kind == kind && e.client == client then 1 else 0)
  {
    assert (audit + [e])[..|audit|] == audit;
  }

  lemma WasActiveAppend(audit: seq<Event>, e: Event, id: string)
    ensures WasActive(audit + [e], id) <==> WasActive(audit, id) || Activation(e, id)
  {
    if WasActive(audit, id) {
      var i :| 0 <= i < |audit| && Activation(audit[i], id);
      assert (audit + [e])[i] == audit[i];
    }
    assert (audit + [e])[|audit|] == e;
  }

  lemma WasActiveAppends(audit: seq<Event>, e: Event)
    ensures forall id :: WasActive(audit + [e], id) <==> WasActive(audit, id) || Activation(e, id)
  {
    forall id {
      WasActiveAppend(audit, e, id);
    }
  }

  // ----- the rows a staging leaves -------------------------------------------------------------

  /** Retiring stale rows and staging one more, in terms of single rows. */
  ghost predicate StagesRow(a: map<string, Credential>, b: map<string, Credential>, id: string, client: string) {
    id !in a && b.Keys == a.Keys + {id} && b[id].Client() == client && b[id].status.Pending?
    && (forall o :: o in a ==> b[o].certificate == a[o].certificate && b[o].supersedes == a[o].supersedes && b[o].created == a[o].created)
    && (forall o :: o in a && !(a[o].status.Pending? && a[o].Client() == client) ==> b[o].status == a[o].status)
    && (forall o :: o in a && a[o].status.Pending? && a[o].Client() == client ==> b[o].status.Superseded?)
  }

  lemma StagedRow(a: map<string, Credential>, id: string, client: string, row: Credential, now: int)
    requires id !in a && row.Client() == client && row.status.Pending?
    requires Having(RetireStale(a, client, now), client, Pending) == {}
    ensures StagesRow(a, RetireStale(a, client, now)[id := row], id, client)
  {
    var rest := RetireStale(a, client, now);
    forall o | o in a && a[o].status.Pending? && a[o].Client() == client
      ensures rest[o].status.Superseded?
    {
      assert o !in Having(rest, client, Pending);
    }
  }

  lemma EnrollStages(a: Tables, b: Tables, id: string, c: Certificate, hash: string, now: int)
    requires EnrollStep(a, b, id, c, hash, now)
    ensures StagesRow(a.credentials, b.credentials, id, c.client) && b.credentials[id].supersedes.None?
  {
    StagedRow(a.credentials, id, c.client, Staged(c, None, now), now);
  }

  lemma RenewStages(a: Tables, b: Tables, current: string, id: string, c: Certificate, now: int)
    requires RenewStep(a, b, current, id, c, now)
    ensures StagesRow(a.credentials, b.credentials, id, c.client) && b.credentials[id].supersedes == Some(current)
  {
    var touched := SetStatus(a.credentials, current, Active, now);
    StagedRow(touched, id, c.client, Staged(c, Some(current), now), now);
    assert touched.Keys == a.credentials.Keys;
  }

  lemma StagingKeepsUnique(a: map<string, Credential>, b: map<string, Credential>, id: string, client: string)
    requires OneEach(a) && StagesRow(a, b, id, client)
    ensures OneEach(b)
  {
    forall of, x, y | Holds(b, x, of, Active) && Holds(b, y, of, Active)
      ensures x == y
    {
      assert Holds(a, x, of, Active) && Holds(a, y, of, Active);
    }
    forall of, x, y | Holds(b, x, of, Pending) && Holds(b, y, of, Pending)
      ensures x == y
    {
      if of != client {
        assert Holds(a, x, of, Pending) && Holds(a, y, of, Pending);
      }
    }
  }

  lemma StagingKeepsLinks(a: map<string, Credential>, b: map<string, Credential>, id: string, client: string)
    requires Linked(a) && StagesRow(a, b, id, client)
    requires b[id].supersedes.Some? ==> b[id].supersedes.value in a && Current(a[b[id].supersedes.value], client)
    ensures Linked(b)
  {
    forall o | o in b && b[o].supersedes.Some?
      ensures LinkOk(b, b[o])
    {
      if o != id {
        assert LinkOk(a, a[o]);
      }
    }
  }

  lemma StagingKeepsChains(a: Tables, b: Tables, id: string, client: string, e: Event)
    requires Chained(a) && StagesRow(a.credentials, b.credentials, id, client)
    requires b.audit == a.audit + [e] && !e.kind.Enrolled? && !e.kind.Renewed?
    ensures Chained(b)
  {
    WasActiveAppends(a.audit, e);
    forall o | WasActive(b.audit, o)
      ensures o in b.credentials && !b.credentials[o].status.Pending?
      ensures b.credentials[o].supersedes.Some? ==> Succeeds(b, b.credentials[o].supersedes.value)
    {
      assert WasActive(a.audit, o) && o in a.credentials;
      if a.credentials[o].supersedes.Some? {
        assert Succeeds(a, a.credentials[o].supersedes.value);
      }
    }
  }

  lemma StagingKeepsActive(a: map<string, Credential>, b: map<string, Credential>, id: string, client: string, of: string)
    requires StagesRow(a, b, id, client)
    ensures Having(b, of, Active) == Having(a, of, Active)
  {
    assert forall o :: o in a && !(a[o].status.Pending? && a[o].Client() == client) ==> (Holds(b, o, of, Active) <==> Holds(a, o, of, Active));
    assert forall o :: Holds(b, o, of, Active) <==> o in Having(b, of, Active);
    assert forall o :: Holds(a, o, of, Active) <==> o in Having(a, of, Active);
  }

  /** Only a fresh enrollment adds a root. */
  lemma StagingAddsRoot(a: map<string, Credential>, b: map<string, Credential>, id: string, client: string, of: string)
    requires id !in a && b.Keys == a.Keys + {id} && b[id].Client() == client
    requires forall o :: o in a ==> b[o].certificate == a[o].certificate && b[o].supersedes == a[o].supersedes
    ensures |Roots(b, of)| == |Roots(a, of)| + (if of == client && b[id].supersedes.None? then 1 else 0)
  {
    assert Roots(b, of) - {id} == Roots(a, of);
    assert id in Roots(b, of) <==> of == client && b[id].supersedes.None?;
  }

  lemma SpentCounts(a: map<string, Token>, rows: set<string>, client: string, hash: string, now: int, of: string)
    requires rows == Usables(a, client, hash, now) && |rows| == 1
    ensures |Spent(Consume(a, rows, now), of)| == |Spent(a, of)| + (if of == client then 1 else 0)
  {
    assert Spent(Consume(a, rows, now), of) == Spent(a, of) + (if of == client then rows else {});
    assert Spent(a, of) !! rows;
  }

  // ----- every transaction keeps the invariant -----------------------------------------------------

  lemma EnrollKeeps(a: Tables, b: Tables, id: string, c: Certificate, hash: string, now: int)
    requires Sound(a) && EnrollStep(a, b, id, c, hash, now)
    ensures Sound(b)
  {
    var e := Event(EnrollmentStaged, c.client, id, None);
    EnrollStages(a, b, id, c, hash, now);
    StagingKeepsUnique(a.credentials, b.credentials, id, c.client);
    StagingKeepsLinks(a.credentials, b.credentials, id, c.client);
    StagingKeepsChains(a, b, id, c.client, e);
    forall client
      ensures Accounted(b, client)
    {
      assert Accounted(a, client);
      StagingKeepsActive(a.credentials, b.credentials, id, c.client, client);
      StagingAddsRoot(a.credentials, b.credentials, id, c.client, client);
      SpentCounts(a.tokens, Usables(a.tokens, c.client, hash, now), c.client, hash, now, client);
      CountAppend(a.audit, e, Enrolled, client);
      CountAppend(a.audit, e, RevokedEvent, client);
      CountAppend(a.audit, e, EnrollmentStaged, client);
    }
  }

  lemma RenewKeeps(a: Tables, b: Tables, current: string, id: string, c: Certificate, now: int)
    requires Sound(a) && RenewStep(a, b, current, id, c, now)
    ensures Sound(b)
  {
    var e := Event(RenewalStaged, c.client, id, Some(current));
    RenewStages(a, b, current, id, c, now);
    StagingKeepsUnique(a.credentials, b.credentials, id, c.client);
    StagingKeepsLinks(a.credentials, b.credentials, id, c.client);
    StagingKeepsChains(a, b, id, c.client, e);
    forall client
      ensures Accounted(b, client)
    {
      assert Accounted(a, client);
      StagingKeepsActive(a.credentials, b.credentials, id, c.client, client);
      StagingAddsRoot(a.credentials, b.credentials, id, c.client, client);
      CountAppend(a.audit, e, Enrolled, client);
      CountAppend(a.audit, e, RevokedEvent, client);
      CountAppend(a.audit, e, EnrollmentStaged, client);
    }
  }

  lemma TokenKeeps(a: Tables, b: Tables, id: string, t: Token)
    requires Sound(a) && TokenStep(a, b, id, t)
    ensures Sound(b)
  {
    var e := Event(TokenCreated, t.client, id, None);
    WasActiveAppends(a.audit, e);
    assert forall p :: Succeeds(a, p) ==> Succeeds(b, p);
    forall client
      ensures Accounted(b, client)
    {
      assert Accounted(a, client);
      assert Spent(b.tokens, client) == Spent(a.tokens, client);
      CountAppend(a.audit, e, Enrolled, client);
      CountAppend(a.audit, e, RevokedEvent, client);
      CountAppend(a.audit, e, EnrollmentStaged, client);
    }
  }

  /** One row changes its status, and nothing else does. */
  ghost predicate Flips(a: map<string, Credential>, b: map<string, Credential>, id: string, status: Status) {
    id in a && b.Keys == a.Keys && b[id].status == status
    && b[id].certificate == a[id].certificate && b[id].supersedes == a[id].supersedes && b[id].created == a[id].created
    && forall o :: o in a && o != id ==> b[o] == a[o]
  }

  lemma SetStatusFlips(a: map<string, Credential>, id: string, status: Status, now: int)
    requires id in a
    ensures Flips(a, SetStatus(a, id, status, now), id, status)
  {
  }

  lemma FlipCounts(a: map<string, Credential>, b: map<string, Credential>, id: string, status: Status, of: string)
    requires Flips(a, b, id, status)
    ensures Roots(b, of) == Roots(a, of)
    ensures a[id].Client() != of ==> Having(b, of, Active) == Having(a, of, Active)
    ensures a[id].Client() == of && status.Active? ==> Having(b, of, Active) == Having(a, of, Active) + {id}
    ensures a[id].Client() == of && !status.Active? ==> Having(b, of, Active) == Having(a, of, Active) - {id}
  {
    forall o
      ensures o in Roots(b, of) <==> o in Roots(a, of)
      ensures o != id ==> (o in Having(b, of, Active) <==> o in Having(a, of, Active))
    {
    }
    assert id in Having(b, of, Active) <==> a[id].Client() == of && status.Active?;
  }

  /** What an activation does to the rows: `via` is the table after the predecessor gave way. */
  ghost predicate Activates(a: map<string, Credential>, via: map<string, Credential>, b: map<string, Credential>, id: string, client: string) {
    id in a && a[id].Client() == client && a[id].status.Pending? && Flips(via, b, id, Active)
    && match a[id].supersedes
       case None => via == a && Having(a, client, Active) == {}
       case Some(p) => p in a && p != id && Current(a[p], client) && Flips(a, via, p, Superseded)
  }

  ghost function Via(a: Tables, id: string, now: int): map<string, Credential>
    requires id in a.credentials && (a.credentials[id].supersedes.Some? ==> a.credentials[id].supersedes.value in a.credentials)
  {
    match a.credentials[id].supersedes
    case None => a.credentials
    case Some(p) => SetStatus(a.credentials, p, Superseded, now)
  }

  lemma ActivateActivates(a: Tables, b: Tables, id: string, client: string, now: int)
    requires ActivateStep(a, b, id, client, now)
    ensures Activates(a.credentials, Via(a, id, now), b.credentials, id, client)
  {
    var via := Via(a, id, now);
    SetStatusFlips(via, id, Active, now);
    if a.credentials[id].supersedes.Some? {
      SetStatusFlips(a.credentials, a.credentials[id].supersedes.value, Superseded, now);
    }
  }

  lemma ActivateKeepsUnique(a: map<string, Credential>, via: map<string, Credential>, b: map<string, Credential>, id: string, client: string)
    requires OneEach(a) && Activates(a, via, b, id, client)
    ensures OneEach(b)
  {
    forall of, x, y | Holds(b, x, of, Pending) && Holds(b, y, of, Pending)
      ensures x == y
    {
      assert Holds(a, x, of, Pending) && Holds(a, y, of, Pending);
    }
    assert a[id].supersedes.Some? ==> Holds(a, a[id].supersedes.value, client, Active);
    forall of, x | Holds(b, x, of, Active) && x != id
      ensures Holds(a, x, of, Active) && of != client
    {
      assert Holds(a, x, of, Active) ==> x in Having(a, of, Active);
    }
  }

  lemma ActivateKeepsLinks(a: map<string, Credential>, via: map<string, Credential>, b: map<string, Credential>, id: string, client: string)
    requires Unique(a, Pending) && Linked(a) && Activates(a, via, b, id, client)
    ensures Linked(b)
  {
    forall o | o in b && b[o].supersedes.Some?
      ensures LinkOk(b, b[o])
    {
      assert LinkOk(a, a[o]);
      if o != id && a[o].status.Pending? && a[o].supersedes == a[id].supersedes {
        assert Holds(a, o, client, Pending) && Holds(a, id, client, Pending);
        assert false;
      }
    }
  }

  lemma ActivateKeepsChains(a: Tables, via: map<string, Credential>, b: Tables, id: string, client: string, e: Event)
    requires Chained(a) && Activates(a.credentials, via, b.credentials, id, client)
    requires b.audit == a.audit + [e] && Activation(e, id)
    ensures Chained(b)
  {
    WasActiveAppends(a.audit, e);
    assert forall o :: Activation(e, o) <==> o == id;
    forall p | Succeeds(a, p)
      ensures Succeeds(b, p)
    {
    }
    forall o | o in b.credentials && WasActive(b.audit, o) && b.credentials[o].supersedes.Some?
      ensures Succeeds(b, b.credentials[o].supersedes.value)
    {
      if o != id {
        assert Succeeds(a, a.credentials[o].supersedes.value);
      }
    }
  }

  lemma ActivateBalances(a: Tables, via: map<string, Credential>, b: Tables, id: string, client: string, e: Event, of: string)
    requires Accounted(a, of) && Activates(a.credentials, via, b.credentials, id, client) && b.tokens == a.tokens
    requires b.audit == a.audit + [e] && e.client == client
    requires e.kind == if a.credentials[id].supersedes.None? then Enrolled else Renewed
    ensures Accounted(b, of)
  {
    CountAppend(a.audit, e, Enrolled, of);
    CountAppend(a.audit, e, RevokedEvent, of);
    CountAppend(a.audit, e, EnrollmentStaged, of);
    FlipCounts(via, b.credentials, id, Active, of);
    if a.credentials[id].supersedes.Some? {
      FlipCounts(a.credentials, via, a.credentials[id].supersedes.value, Superseded, of);
    }
  }

  lemma ActivateKeeps(a: Tables, b: Tables, id: string, client: string, now: int)
    requires Sound(a) && ActivateStep(a, b, id, client, now)
    ensures Sound(b)
  {
    var via := Via(a, id, now);
    var e := Event(if a.credentials[id].supersedes.None? then Enrolled else Renewed, client, id, a.credentials[id].supersedes);
    ActivateActivates(a, b, id, client, now);
    ActivateKeepsUnique(a.credentials, via, b.credentials, id, client);
    ActivateKeepsLinks(a.credentials, via, b.credentials, id, client);
    ActivateKeepsChains(a, via, b, id, client, e);
    forall of
      ensures Accounted(b, of)
    {
      assert Accounted(a, of);
      ActivateBalances(a, via, b, id, client, e, of);
    }
  }

  lemma RevokeKeepsShape(a: Tables, b: Tables, id: string, e: Event)
    requires OneEach(a.credentials) && Linked(a.credentials) && Chained(a)
    requires Flips(a.credentials, b.credentials, id, Revoked) && a.credentials[id].status.Active?
    requires b.audit == a.audit + [e] && e.kind.RevokedEvent?
    ensures OneEach(b.credentials) && Linked(b.credentials) && Chained(b)
  {
    WasActiveAppends(a.audit, e);
    forall status, of, x | Holds(b.credentials, x, of, status) && !status.Revoked?
      ensures Holds(a.credentials, x, of, status)
    {
    }
    forall o | o in b.credentials && b.credentials[o].supersedes.Some?
      ensures LinkOk(b.credentials, b.credentials[o])
    {
      assert LinkOk(a.credentials, a.credentials[o]);
    }
    forall p | Succeeds(a, p)
      ensures Succeeds(b, p)
    {
    }
  }

  lemma RevokeKeeps(a: Tables, b: Tables, id: string, client: string, now: int)
    requires Sound(a) && RevokeStep(a, b, id, client, now)
    ensures Sound(b)
  {
    var e := Event(RevokedEvent, client, id, None);
    SetStatusFlips(a.credentials, id, Revoked, now);
    RevokeKeepsShape(a, b, id, e);
    forall of
      ensures Accounted(b, of)
    {
      assert Accounted(a, of);
      CountAppend(a.audit, e, Enrolled, of);
      CountAppend(a.audit, e, RevokedEvent, of);
      CountAppend(a.audit, e, EnrollmentStaged, of);
      FlipCounts(a.credentials, b.credentials, id, Revoked, of);
      assert of == client ==> id in Having(a.credentials, of, Active);
    }
  }

  lemma StepKeeps(a: Tables, b: Tables)
    requires Sound(a) && Step(a, b)
    ensures Sound(b)
  {
    if id, t :| TokenStep(a, b, id, t) {
      TokenKeeps(a, b, id, t);
    } else if id, c, hash, now :| EnrollStep(a, b, id, c, hash, now) {
      EnrollKeeps(a, b, id, c, hash, now);
    } else if current, id, c, now :| RenewStep(a, b, current, id, c, now) {
      RenewKeeps(a, b, current, id, c, now);
    } else if id, client, now :| ActivateStep(a, b, id, client, now) {
      ActivateKeeps(a, b, id, client, now);
    } else if id, client, now :| RevokeStep(a, b, id, client, now) {
      RevokeKeeps(a, b, id, client, now);
    }
  }

  lemma StepProgresses(a: Tables, b: Tables)
    requires Step(a, b)
    ensures Progress(a.credentials, b.credentials)
  {
    if id, t :| TokenStep(a, b, id, t) {
    } else if id, c, hash, now :| EnrollStep(a, b, id, c, hash, now) {
      EnrollStages(a, b, id, c, hash, now);
      StagingProgresses(a.credentials, b.credentials, id, c.client);
    } else if current, id, c, now :| RenewStep(a, b, current, id, c, now) {
      RenewStages(a, b, current, id, c, now);
      StagingProgresses(a.credentials, b.credentials, id, c.client);
    } else if id, client, now :| ActivateStep(a, b, id, client, now) {
      ActivateActivates(a, b, id, client, now);
      ActivationProgresses(a.credentials, Via(a, id, now), b.credentials, id, client);
    } else if id, client, now :| RevokeStep(a, b, id, client, now) {
      SetStatusFlips(a.credentials, id, Revoked, now);
    }
  }

  lemma StagingProgresses(a: map<string, Credential>, b: map<string, Credential>, id: string, client: string)
    requires StagesRow(a, b, id, client)
    ensures Progress(a, b)
  {
  }

  lemma ActivationProgresses(a: map<string, Credential>, via: map<string, Credential>, b: map<string, Credential>, id: string, client: string)
    requires Activates(a, via, b, id, client)
    ensures Progress(a, b)
  {
  }

  // ----- whole runs ----------------------------------------------------------------------------------

  /** An aborted transaction leaves the tables as they were. */
  ghost predicate StepAt(run: seq<Tables>, i: int)
    requires 0 <= i < |run| - 1
  {
    run[i] == run[i + 1] || Step(run[i], run[i + 1])
  }

  ghost predicate Run(run: seq<Tables>) {
    |run| > 0 && run[0] == Tables(map[], map[], []) && forall i :: 0 <= i < |run| - 1 ==> StepAt(run, i)
  }

  lemma {:induction false} Reachable(run: seq<Tables>, i: nat)
    requires Run(run) && i < |run|
    ensures Sound(run[i])
    decreases i
  {
    if i == 0 {
      forall client
        ensures Accounted(run[0], client)
      {
        assert Having(run[0].credentials, client, Active) == {};
        assert Spent(run[0].tokens, client) == {} && Roots(run[0].credentials, client) == {};
      }
    } else {
      Reachable(run, i - 1);
      assert StepAt(run, i - 1);
      if run[i - 1] != run[i] {
        StepKeeps(run[i - 1], run[i]);
      }
    }
  }

  lemma {:induction false} RowsProgress(run: seq<Tables>, i: nat, j: nat, id: string)
    requires Run(run) && i <= j < |run| && id in run[i].credentials
    ensures id in run[j].credentials
    ensures run[j].credentials[id].certificate == run[i].credentials[id].certificate
    ensures run[j].credentials[id].supersedes == run[i].credentials[id].supersedes && run[j].credentials[id].created == run[i].credentials[id].created
    ensures run[i].credentials[id].status.Revoked? || run[i].credentials[id].status.Superseded? ==> run[j].credentials[id].status == run[i].credentials[id].status
    decreases j - i
  {
    if i < j {
      RowsProgress(run, i, j - 1, id);
      assert StepAt(run, j - 1);
      if run[j - 1] != run[j] {
        StepProgresses(run[j - 1], run[j]);
      }
    }
  }

  lemma AtMostOne(cs: map<string, Credential>, client: string, status: Status)
    requires Unique(cs, status)
    ensures |Having(cs, client, status)| <= 1
  {
    var s := Having(cs, client, status);
    assert forall o :: o in s ==> Holds(cs, o, client, status);
    if s != {} {
      var a :| a in s;
      assert s == {a};
    }
  }

  // ----- tokens -----------------------------------------------------------------------------------

  ghost predicate UniqueHashes(tokens: map<string, Token>) {
    forall a, b :: a in tokens && b in tokens && tokens[a].hash == tokens[b].hash ==> a == b
  }

  /** Tokens are never deleted, keep client and hash, and stay consumed. */
  ghost predicate TokensProgress(a: map<string, Token>, b: map<string, Token>) {
    forall id :: id in a ==>
      id in b && b[id].client == a[id].client && b[id].hash == a[id].hash && (a[id].consumed.Some? ==> b[id].consumed.Some?)
  }

  lemma StepTokens(a: Tables, b: Tables)
    requires Step(a, b) && UniqueHashes(a.tokens)
    ensures UniqueHashes(b.tokens) && TokensProgress(a.tokens, b.tokens)
  {
    if id, t :| TokenStep(a, b, id, t) {
      if b.tokens != a.tokens {
        AddedToken(a.tokens, id, t.(consumed := None));
      }
    } else if id, c, hash, now :| EnrollStep(a, b, id, c, hash, now) {
      ConsumedTokens(a.tokens, Usables(a.tokens, c.client, hash, now), now);
    } else {
      assert b.tokens == a.tokens;
    }
  }

  lemma AddedToken(tokens: map<string, Token>, id: string, t: Token)
    requires UniqueHashes(tokens) && id !in tokens && FreshHash(tokens, t.hash)
    ensures UniqueHashes(tokens[id := t]) && TokensProgress(tokens, tokens[id := t])
  {
  }

  lemma ConsumedTokens(tokens: map<string, Token>, rows: set<string>, now: int)
    requires UniqueHashes(tokens)
    ensures UniqueHashes(Consume(tokens, rows, now)) && TokensProgress(tokens, Consume(tokens, rows, now))
  {
    var after := Consume(tokens, rows, now);
    assert forall x :: x in after ==> x in tokens && after[x].hash == tokens[x].hash;
  }

  lemma {:induction false} HashesUnique(run: seq<Tables>, i: nat)
    requires Run(run) && i < |run|
    ensures UniqueHashes(run[i].tokens)
    decreases i
  {
    if i > 0 {
      HashesUnique(run, i - 1);
      assert StepAt(run, i - 1);
      if run[i - 1] != run[i] {
        StepTokens(run[i - 1], run[i]);
      }
    }
  }

  lemma {:induction false} TokenStays(run: seq<Tables>, i: nat, j: nat, id: string)
    requires Run(run) && i <= j < |run| && id in run[i].tokens
    ensures id in run[j].tokens && run[j].tokens[id].hash == run[i].tokens[id].hash
    ensures run[i].tokens[id].consumed.Some? ==> run[j].tokens[id].consumed.Some?
    decreases j - i
  {
    if i < j {
      TokenStays(run, i, j - 1, id);
      assert StepAt(run, j - 1);
      if run[j - 1] != run[j] {
        HashesUnique(run, j - 1);
        StepTokens(run[j - 1], run[j]);
      }
    }
  }

  /** A consumed token is never usable again: not for its client, not for another, at no later state and no time. */
  lemma SpentForGood(run: seq<Tables>, i: nat, j: nat, id: string, client: string, now: int)
    requires Run(run) && i <= j < |run| && id in run[i].tokens && run[i].tokens[id].consumed.Some?
    ensures Usables(run[j].tokens, client, run[i].tokens[id].hash, now) == {}
  {
    TokenStays(run, i, j, id);
    HashesUnique(run, j);
  }

  // ----- credentials --------------------------------------------------------------------------------

  /** In every reachable state a client has at most one active and one pending credential. */
  lemma OneActiveOnePending(run: seq<Tables>, i: nat, client: string)
    requires Run(run) && i < |run|
    ensures |Having(run[i].credentials, client, Active)| <= 1
    ensures |Having(run[i].credentials, client, Pending)| <= 1
  {
    Reachable(run, i);
    AtMostOne(run[i].credentials, client, Active);
    AtMostOne(run[i].credentials, client, Pending);
  }

  /** While a renewal waits, what it renews is active or revoked. */
  lemma PendingRenewsActiveOrRevoked(run: seq<Tables>, i: nat, id: string)
    requires Run(run) && i < |run| && id in run[i].credentials
    requires run[i].credentials[id].status.Pending? && run[i].credentials[id].supersedes.Some?
    ensures var cs := run[i].credentials; var p := cs[id].supersedes.value;
            p in cs && cs[p].Client() == cs[id].Client() && (cs[p].status.Active? || cs[p].status.Revoked?)
  {
    Reachable(run, i);
    assert LinkOk(run[i].credentials, run[i].credentials[id]);
  }

  /** `path` follows the supersedes links. */
  ghost predicate Lineage(cs: map<string, Credential>, path: seq<string>) {
    |path| > 0 && path[0] in cs
    && forall k :: 0 < k < |path| ==> Renews(cs, path[k - 1], path[k])
  }

  predicate Renews(cs: map<string, Credential>, id: string, p: string) {
    id in cs && cs[id].supersedes == Some(p)
  }

  /** Every proper ancestor of an active credential exists, is superseded, and was active once. */
  lemma {:induction false} AncestorsSuperseded(run: seq<Tables>, i: nat, path: seq<string>, k: nat)
    requires Run(run) && i < |run| && Lineage(run[i].credentials, path) && 0 < k < |path|
    requires run[i].credentials[path[0]].status.Active?
    ensures Succeeds(run[i], path[k])
    decreases k
  {
    Reachable(run, i);
    if k > 1 {
      AncestorsSuperseded(run, i, path, k - 1);
    }
    assert Renews(run[i].credentials, path[k - 1], path[k]) && WasActive(run[i].audit, path[k - 1]);
  }

  /** A renewal whose predecessor was revoked before it was activated is never active, now or later. */
  lemma RevokedRenewalNeverActivates(run: seq<Tables>, i: nat, j: nat, id: string, p: string)
    requires Run(run) && i <= j < |run| && id in run[i].credentials && run[i].credentials[id].supersedes == Some(p)
    requires p in run[i].credentials && run[i].credentials[p].status.Revoked?
    ensures id in run[j].credentials && !run[j].credentials[id].status.Active? && !WasActive(run[j].audit, id)
  {
    RowsProgress(run, i, j, id);
    RowsProgress(run, i, j, p);
    Reachable(run, j);
    assert WasActive(run[j].audit, id) ==> Succeeds(run[j], p);
  }

  /**
   * Enrolled events minus revoked events is the number of active credentials, and
   * consumed tokens, credentials with no predecessor and staged enrollments are
   * equally many.
   */
  lemma Conservation(run: seq<Tables>, i: nat, client: string)
    requires Run(run) && i < |run|
    ensures Count(run[i].audit, Enrolled, client) - Count(run[i].audit, RevokedEvent, client) == |Having(run[i].credentials, client, Active)|
    ensures |Spent(run[i].tokens, client)| == |Roots(run[i].credentials, client)| == Count(run[i].audit, EnrollmentStaged, client)
  {
    Reachable(run, i);
    assert Accounted(run[i], client);
  }
}
