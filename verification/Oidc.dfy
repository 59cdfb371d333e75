/**
 * Authorization codes and the sessions they are exchanged for: the two stores
 * (database/oidc_sessions.go, database/oidc_audit.go, database/oidc_administration_audit.go
 * and database/postgres_oidc_sessions.go). Every operation is one transaction.
 * Times are seconds; `clock` is the database's own time. `commits` says whether
 * the database accepts the commit, `addressValid` whether the address parses.
 */
module Oidc {
  import opened Strings

  datatype Code = Code(
    client: string, user: int, redirect: string, scope: string, nonce: string, challenge: string,
    expires: int, consumed: Option<int>)

  datatype Session = Session(
    tokenHash: string, client: string, user: int, scope: string, issued: int, expires: int, revoked: Option<int>)

  datatype Kind =
    | Login | Consent | CodeIssued | TokenIssued | TokenDenied(reason: Reason) | SessionRevoked | UserSessionsRevoked
    | ClientSessionsRevoked | AllSessionsRevoked | ClientEnabled | ClientDisabled

  datatype Event = Event(kind: Kind, username: string, client: string, success: bool)

  datatype Tables = Tables(
    codes: map<string, Code>, sessions: map<string, Session>, clients: map<string, bool>, users: map<int, string>,
    audit: seq<Event>)

  const WEEK: int := 7 * 24 * 3600

  datatype Reason = PkceFailed | UserUnavailable | UserInactive

  /** A code as one request of the token endpoint names it. */
  datatype Grant = Grant(hash: string, client: string, redirect: string, now: int)

  /** The new session's identifiers and end, as the endpoint generates them. */
  datatype Ticket = Ticket(session: string, tokenHash: string, expires: int)

  // ----- the statements ------------------------------------------------------------------

  predicate Redeemable(codes: map<string, Code>, g: Grant) {
    g.hash in codes && var c := codes[g.hash];
    c.client == g.client && c.redirect == g.redirect && c.consumed.None? && c.expires >= g.now
  }

  function Consume(codes: map<string, Code>, hash: string, now: int): map<string, Code>
    requires hash in codes
  {
    codes[hash := codes[hash].(consumed := Some(now))]
  }

  /** Sessions a week past their end are dropped. */
  function Purge(sessions: map<string, Session>, now: int): map<string, Session> {
    map s | s in sessions && sessions[s].expires >= now - WEEK :: sessions[s]
  }

  function Opened(c: Code, ticket: Ticket, now: int): Session {
    Session(ticket.tokenHash, c.client, c.user, c.scope, now, ticket.expires, None)
  }

  /** The session table's primary key, unique column and references. */
  predicate Insertable(t: Tables, sessions: map<string, Session>, c: Code, ticket: Ticket) {
    ticket.session !in sessions && c.client in t.clients && c.user in t.users
    && forall s :: s in sessions ==> sessions[s].tokenHash != ticket.tokenHash
  }

  predicate CanIssue(t: Tables, g: Grant, ticket: Ticket) {
    ticket.session != "" && ticket.tokenHash != "" && ticket.expires > g.now
    && Redeemable(t.codes, g) && t.codes[g.hash].user in t.users
    && Insertable(t, Purge(t.sessions, g.now), t.codes[g.hash], ticket)
  }

  function Issue(t: Tables, g: Grant, ticket: Ticket): Tables
    requires g.hash in t.codes && t.codes[g.hash].user in t.users
  {
    var c := t.codes[g.hash];
    Tables(Consume(t.codes, g.hash, g.now),
           Purge(t.sessions, g.now)[ticket.session := Opened(c, ticket, g.now)],
           t.clients, t.users, t.audit + [Event(TokenIssued, t.users[c.user], g.client, true)])
  }

  predicate CanDeny(t: Tables, g: Grant) {
    Redeemable(t.codes, g) && t.codes[g.hash].user in t.users
  }

  function Deny(t: Tables, g: Grant, reason: Reason): Tables
    requires g.hash in t.codes && t.codes[g.hash].user in t.users
  {
    t.(codes := Consume(t.codes, g.hash, g.now),
       audit := t.audit + [Event(TokenDenied(reason), t.users[t.codes[g.hash].user], g.client, false)])
  }

  function Revoke(sessions: map<string, Session>, rows: set<string>, now: int): map<string, Session> {
    map s | s in sessions :: if s in rows then sessions[s].(revoked := Some(now)) else sessions[s]
  }

  /** The unrevoked sessions of one client. */
  function Unrevoked(sessions: map<string, Session>, client: string): set<string> {
    set s | s in sessions && sessions[s].client == client && sessions[s].revoked.None?
  }

  /** What OIDCSessionByTokenHash looks for. */
  predicate Live(t: Tables, s: string, tokenHash: string, client: string, now: int) {
    s in t.sessions && var row := t.sessions[s];
    row.tokenHash == tokenHash && row.client == client && row.revoked.None? && row.expires > now
    && row.user in t.users && client in t.clients && t.clients[client]
  }

  /**
   * What an exchange leaves behind, row by row: the code is used up, its grant is
   * the new session's, and of the other sessions only those are gone whose end lies
   * more than 604800 seconds back.
   */
  predicate Exchanged(a: Tables, b: Tables, g: Grant, ticket: Ticket) {
    g.hash in a.codes && b.codes.Keys == a.codes.Keys && b.clients == a.clients && b.users == a.users
    && (forall h :: h in b.codes ==> b.codes[h] == if h == g.hash then a.codes[h].(consumed := Some(g.now)) else a.codes[h])
    && ticket.session in b.sessions
    && (var c := a.codes[g.hash]; b.sessions[ticket.session] == Session(ticket.tokenHash, c.client, c.user, c.scope, g.now, ticket.expires, None))
    && (forall s :: s in b.sessions && s != ticket.session ==> s in a.sessions && b.sessions[s] == a.sessions[s])
    && (forall s :: s in a.sessions ==> (s in b.sessions && s != ticket.session <==> a.sessions[s].expires >= g.now - 604800))
  }

  /** Whoever is signed in stays signed in through another's exchange, and nobody else is. */
  ghost predicate OthersStaySignedIn(a: Tables, b: Tables, ticket: Ticket, now: int) {
    forall s, hash, client, later :: s != ticket.session && later >= now ==> (Live(a, s, hash, client, later) <==> Live(b, s, hash, client, later))
  }

  /** The new session is found by its token until its end, while the client is enabled. */
  ghost predicate NewcomerSignedIn(b: Tables, c: Code, ticket: Ticket) {
    forall hash, client, later ::
      Live(b, ticket.session, hash, client, later) <==>
      hash == ticket.tokenHash && client == c.client && later < ticket.expires && c.user in b.users && client in b.clients && b.clients[client]
  }

  lemma ExchangeFrame(a: Tables, b: Tables, g: Grant, ticket: Ticket)
    requires Exchanged(a, b, g, ticket)
    ensures OthersStaySignedIn(a, b, ticket, g.now) && NewcomerSignedIn(b, a.codes[g.hash], ticket)
  {
  }

  lemma IssueExchanges(t: Tables, g: Grant, ticket: Ticket)
    requires CanIssue(t, g, ticket)
    ensures Exchanged(t, Issue(t, g, ticket), g, ticket)
  {
  }

  datatype Selection = BySession(id: string) | ByToken(tokenHash: string, client: string) | OfUser(user: int) | OfClient(of: string) | Everything

  predicate Selects(sel: Selection, id: string, s: Session) {
    match sel
    case BySession(i) => id == i
    case ByToken(h, c) => s.tokenHash == h && s.client == c
    case OfUser(u) => s.user == u
    case OfClient(c) => s.client == c
    case Everything => true
  }

  function Selected(sessions: map<string, Session>, sel: Selection): set<string> {
    set s | s in sessions && Selects(sel, s, sessions[s]) && sessions[s].revoked.None?
  }

  function Unexpired(sessions: map<string, Session>, sel: Selection, clock: int): set<string> {
    set s | s in Selected(sessions, sel) && sessions[s].expires > clock
  }

  function Expired(codes: map<string, Code>, clock: int): set<string> {
    set h | h in codes && codes[h].expires < clock
  }

  datatype Reply = Granted(scope: string) | InvalidGrant | ServerError | Unavailable

  /** Why a redeemable code is denied, in the order of the endpoint's checks. */
  function Verdict(t: Tables, g: Grant, verifier: string, challenge: string -> string, inDirectory: map<string, bool>): Option<Reason> {
    if g.hash !in t.codes then None
    else
      var c := t.codes[g.hash];
      if !(43 <= |verifier| <= 128) || challenge(verifier) != c.challenge then Some(PkceFailed)
      else if c.user !in t.users then Some(UserUnavailable)
      else if t.users[c.user] !in inDirectory || !inDirectory[t.users[c.user]] then Some(UserInactive)
      else None
  }

  // ----- what each transaction may do --------------------------------------------------------

  /** A new code; of the others only some that are past their end on the database's clock are gone. */
  predicate CreateStep(a: Tables, b: Tables, hash: string, c: Code, clock: int) {
    c.consumed.None? && c.client in a.clients && c.user in a.users && hash in b.codes && b.codes[hash] == c
    && (forall h :: h in b.codes && h != hash ==> h in a.codes && b.codes[h] == a.codes[h])
    && (forall h :: h in a.codes && a.codes[h].expires >= clock ==> h in b.codes && h != hash)
    && b.sessions == a.sessions && b.clients == a.clients && b.users == a.users
    && b.audit == a.audit + Announced(a.users[c.user], c.client)
  }

  /** The three success events of a new code. */
  function Announced(username: string, client: string): seq<Event> {
    [Event(Login, username, client, true), Event(Consent, username, client, true), Event(CodeIssued, username, client, true)]
  }

  lemma CreatedStep(a: Tables, kept: map<string, Code>, b: Tables, hash: string, c: Code, username: string, clock: int)
    requires kept.Keys <= a.codes.Keys && hash !in kept && forall h :: h in kept ==> kept[h] == a.codes[h]
    requires a.codes.Keys - kept.Keys <= Expired(a.codes, clock)
    requires c.consumed.None? && c.client in a.clients && c.user in a.users && a.users[c.user] == username
    requires b == a.(codes := kept[hash := c], audit := a.audit + Announced(username, c.client))
    ensures CreateStep(a, b, hash, c, clock)
  {
    forall h | h in a.codes && a.codes[h].expires >= clock
      ensures h in kept
    {
      assert h !in Expired(a.codes, clock);
    }
  }

  /** After a revocation exactly the live sessions it does not name are found. */
  ghost predicate SignedOut(a: Tables, b: Tables, sel: Selection, from: int) {
    forall s, hash, client, later :: later >= from ==>
      (Live(b, s, hash, client, later) <==>
       Live(a, s, hash, client, later) && Another(sel, s, hash, client, a.sessions[s].user))
  }

  /** The session, its token, its user or its client is another than the one the revocation names. */
  predicate Another(sel: Selection, s: string, hash: string, client: string, user: int) {
    !sel.Everything? && (sel.BySession? ==> s != sel.id) && (sel.ByToken? ==> hash != sel.tokenHash || client != sel.client)
    && (sel.OfUser? ==> user != sel.user) && (sel.OfClient? ==> client != sel.of)
  }

  predicate RevokeStep(a: Tables, b: Tables, rows: set<string>, now: int, e: Event) {
    rows != {} && b == a.(sessions := Revoke(a.sessions, rows, now), audit := a.audit + [e])
  }

  predicate SwitchStep(a: Tables, b: Tables, client: string, enabled: bool, now: int) {
    client in a.clients
    && b == a.(clients := a.clients[client := enabled],
               sessions := if enabled then a.sessions else Revoke(a.sessions, Unrevoked(a.sessions, client), now),
               audit := a.audit + [Event(if enabled then ClientEnabled else ClientDisabled, "", client, true)])
  }

  /** LIMIT 100. */
  method AtMostHundred(rows: set<string>) returns (some: set<string>)
    ensures some <= rows && |some| == if |rows| <= 100 then |rows| else 100
  {
    var rest := rows;
    some := {};
    while rest != {} && |some| < 100
      invariant rest !! some && rest + some == rows && |rest| + |some| == |rows| && |some| <= 100
      decreases rest
    {
      var h :| h in rest;
      rest, some := rest - {h}, some + {h};
    }
    assert rest == {} ==> some == rows;
  }

  class OidcStore {
    var codes: map<string, Code>
    var sessions: map<string, Session>
    var clients: map<string, bool>
    var users: map<int, string>
    var audit: seq<Event>

    ghost function Now(): Tables
      reads this
    {
      Tables(codes, sessions, clients, users, audit)
    }

    /** DELETE of at most a hundred expired codes, whichever the database picks. */
    method DropExpired(clock: int) returns (kept: map<string, Code>)
      ensures kept.Keys <= codes.Keys && codes.Keys - kept.Keys <= Expired(codes, clock)
      ensures forall h :: h in kept ==> kept[h] == codes[h]
      ensures |codes.Keys - kept.Keys| == if |Expired(codes, clock)| <= 100 then |Expired(codes, clock)| else 100
    {
      var gone := AtMostHundred(Expired(codes, clock));
      kept := codes - gone;
      assert codes.Keys - kept.Keys == gone;
    }

    method CreateCode(hash: string, c: Code, username: string, clock: int, addressValid: bool, commits: bool) returns (ok: bool)
      modifies this`codes, this`audit
      ensures !ok ==> Now() == old(Now())
      ensures ok ==> CreateStep(old(Now()), Now(), hash, c.(consumed := None), clock) && users[c.user] == username
      ensures ok ==> audit == old(audit) + [Event(Login, username, c.client, true), Event(Consent, username, c.client, true), Event(CodeIssued, username, c.client, true)]
      ensures ok ==> addressValid && commits && (hash in old(codes) ==> old(codes)[hash].expires < clock)
      ensures addressValid && commits && hash !in old(codes) && c.client in clients && c.user in users && users[c.user] == username ==> ok
    {
      if !addressValid {
        return false;
      }
      var kept := DropExpired(clock);
      if hash in kept || c.client !in clients || c.user !in users {
        return false;
      }
      assert hash in codes ==> hash in codes.Keys - kept.Keys;
      if users[c.user] != username || !commits {
        return false;
      }
      ghost var before := Now();
      codes := kept[hash := c.(consumed := None)];
      audit := audit + Announced(username, c.client);
      CreatedStep(before, kept, Now(), hash, c.(consumed := None), username, clock);
      return true;
    }

    method CodeForExchange(g: Grant) returns (r: Option<Code>)
      ensures r == if Redeemable(codes, g) then Some(codes[g.hash]) else None
    {
      if g.hash in codes {
        var c := codes[g.hash];
        if c.client == g.client && c.redirect == g.redirect && c.consumed.None? && c.expires >= g.now {
          return Some(c);
        }
      }
      return None;
    }

    /** The SQLite form: select under all conditions, then update under one. */
    method ConsumeWithSession(g: Grant, ticket: Ticket, addressValid: bool, commits: bool) returns (r: Option<Code>)
      modifies this`codes, this`sessions, this`audit
      ensures r.Some? <==> addressValid && commits && CanIssue(old(Now()), g, ticket)
      ensures r.Some? ==> Now() == Issue(old(Now()), g, ticket) && r.value == old(codes)[g.hash]
      ensures r.Some? ==> Exchanged(old(Now()), Now(), g, ticket)
      ensures r.Some? ==> OthersStaySignedIn(old(Now()), Now(), ticket, g.now) && NewcomerSignedIn(Now(), r.value, ticket)
      ensures r.None? ==> Now() == old(Now())
    {
      if !addressValid || ticket.session == "" || ticket.tokenHash == "" || ticket.expires <= g.now {
        return None;
      }
      var found := CodeForExchange(g);
      if found.None? {
        return None;
      }
      var c := found.value;
      if codes[g.hash].consumed.Some? {
        return None;
      }
      var used := Consume(codes, g.hash, g.now);
      if c.user !in users {
        return None;
      }
      var username := users[c.user];
      var rows := Purge(sessions, g.now);
      if ticket.session in rows || c.client !in clients || exists s :: s in rows && rows[s].tokenHash == ticket.tokenHash {
        return None;
      }
      rows := rows[ticket.session := Opened(c, ticket, g.now)];
      if !commits {
        return None;
      }
      codes, sessions, audit := used, rows, audit + [Event(TokenIssued, username, g.client, true)];
      IssueExchanges(old(Now()), g, ticket);
      ExchangeFrame(old(Now()), Now(), g, ticket);
      return Some(c);
    }

    /** The PostgreSQL form: one update under all conditions returns the row. */
    method ConsumeWithSessionReturning(g: Grant, ticket: Ticket, addressValid: bool, commits: bool) returns (r: Option<Code>)
      modifies this`codes, this`sessions, this`audit
      ensures r.Some? <==> addressValid && commits && CanIssue(old(Now()), g, ticket)
      ensures r.Some? ==> Now() == Issue(old(Now()), g, ticket) && r.value == old(codes)[g.hash]
      ensures r.Some? ==> Exchanged(old(Now()), Now(), g, ticket)
      ensures r.Some? ==> OthersStaySignedIn(old(Now()), Now(), ticket, g.now) && NewcomerSignedIn(Now(), r.value, ticket)
      ensures r.None? ==> Now() == old(Now())
    {
      if !addressValid || ticket.session == "" || ticket.tokenHash == "" || ticket.expires <= g.now {
        return None;
      }
      var matching := set h | h in codes && h == g.hash && Redeemable(codes, g);
      var used := map h | h in codes :: if h in matching then codes[h].(consumed := Some(g.now)) else codes[h];
      assert Redeemable(codes, g) <==> g.hash in matching;
      if matching == {} {
        return None;
      }
      assert used == Consume(codes, g.hash, g.now);
      var c := used[g.hash].(consumed := None);
      if c.user !in users {
        return None;
      }
      var rows := Purge(sessions, g.now);
      if ticket.session in rows || c.client !in clients || exists s :: s in rows && rows[s].tokenHash == ticket.tokenHash {
        return None;
      }
      rows := rows[ticket.session := Opened(c, ticket, g.now)];
      var e := Event(TokenIssued, users[c.user], g.client, true);
      if !commits {
        return None;
      }
      codes, sessions, audit := used, rows, audit + [e];
      IssueExchanges(old(Now()), g, ticket);
      ExchangeFrame(old(Now()), Now(), g, ticket);
      return Some(c);
    }

    method ConsumeDenial(g: Grant, reason: Reason, addressValid: bool, commits: bool) returns (ok: bool)
      modifies this`codes, this`audit
      ensures ok <==> addressValid && commits && CanDeny(old(Now()), g)
      ensures ok ==> Now() == Deny(old(Now()), g, reason)
      ensures !ok ==> Now() == old(Now())
    {
      if !addressValid {
        return false;
      }
      var found := CodeForExchange(g);
      if found.None? || codes[g.hash].consumed.Some? || found.value.user !in users || !commits {
        return false;
      }
      codes, audit := Consume(codes, g.hash, g.now), audit + [Event(TokenDenied(reason), users[found.value.user], g.client, false)];
      return true;
    }

    /**
     * The token endpoint after client authentication, as one undisturbed exchange:
     * read the code, check the verifier, the user and the directory, then consume.
     * `subject` says whether the user has or gets an OpenID subject.
     */
    method Token(g: Grant, verifier: string, challenge: string -> string, inDirectory: map<string, bool>, subject: bool,
                 ticket: Ticket, addressValid: bool, commits: bool) returns (reply: Reply)
      modifies this`codes, this`sessions, this`audit
      ensures reply.Granted? <==> addressValid && commits && subject && CanIssue(old(Now()), g, ticket) && Verdict(old(Now()), g, verifier, challenge, inDirectory).None?
      ensures reply.Granted? ==> Now() == Issue(old(Now()), g, ticket) && reply.scope == old(codes)[g.hash].scope
      ensures reply.Granted? ==> OthersStaySignedIn(old(Now()), Now(), ticket, g.now) && NewcomerSignedIn(Now(), old(codes)[g.hash], ticket)
      ensures reply.InvalidGrant? && Redeemable(old(codes), g) ==> Verdict(old(Now()), g, verifier, challenge, inDirectory).Some? && CanDeny(old(Now()), g) && Now() == Deny(old(Now()), g, Verdict(old(Now()), g, verifier, challenge, inDirectory).value)
      ensures !reply.Granted? && (!reply.InvalidGrant? || !Redeemable(old(codes), g)) ==> Now() == old(Now())
    {
      var stored := CodeForExchange(g);
      if stored.None? {
        return InvalidGrant;
      }
      var c := stored.value;
      var denial: Option<Reason> := None;
      if |verifier| < 43 || |verifier| > 128 || verifier == "" || challenge(verifier) != c.challenge {
        denial := Some(PkceFailed);
      } else if c.user !in users {
        denial := Some(UserUnavailable);
      } else if users[c.user] !in inDirectory || !inDirectory[users[c.user]] {
        denial := Some(UserInactive);
      }
      if denial.Some? {
        var ok := ConsumeDenial(g, denial.value, addressValid, commits);
        return if ok then InvalidGrant else Unavailable;
      }
      if !subject {
        return ServerError;
      }
      var consumed := ConsumeWithSession(g, ticket, addressValid, commits);
      return if consumed.Some? then Granted(c.scope) else Unavailable;
    }

    method SessionByTokenHash(tokenHash: string, client: string, now: int) returns (r: Option<string>)
      ensures r.Some? <==> exists s :: Live(Now(), s, tokenHash, client, now)
      ensures r.Some? ==> Live(Now(), r.value, tokenHash, client, now)
    {
      if s :| s in sessions && sessions[s].tokenHash == tokenHash && sessions[s].client == client
              && sessions[s].revoked.None? && sessions[s].expires > now && sessions[s].user in users
              && client in clients && clients[client]
      {
        assert Live(Now(), s, tokenHash, client, now);
        return Some(s);
      }
      return None;
    }

    /** A single revocation must hit exactly one row. */
    method RevokeOne(sel: Selection, now: int, addressValid: bool, commits: bool) returns (ok: bool)
      requires sel.BySession? || sel.ByToken?
      modifies this`sessions, this`audit
      ensures ok <==> addressValid && commits && |Selected(old(sessions), sel)| == 1 && exists s :: s in Selected(old(sessions), sel) && old(sessions)[s].user in users
      ensures ok ==> exists e :: RevokeStep(old(Now()), Now(), Selected(old(sessions), sel), now, e)
      ensures ok ==> forall from :: SignedOut(old(Now()), Now(), sel, from)
      ensures !ok ==> Now() == old(Now())
    {
      if !addressValid {
        return false;
      }
      var rows := Selected(sessions, sel);
      if s :| s in rows && sessions[s].user in users {
        if |rows| != 1 || !commits {
          return false;
        }
        var e := Event(SessionRevoked, users[sessions[s].user], sessions[s].client, true);
        sessions, audit := Revoke(sessions, rows, now), audit + [e];
        assert RevokeStep(old(Now()), Now(), rows, now, e);
        return true;
      }
      return false;
    }

    /** A bulk revocation passes over sessions that are already past their end. */
    method RevokeBulk(sel: Selection, username: string, now: int, clock: int, addressValid: bool, commits: bool) returns (ok: bool, count: nat)
      requires sel.OfUser? || sel.OfClient? || sel.Everything?
      modifies this`sessions, this`audit
      ensures ok <==> addressValid && commits && Unexpired(old(sessions), sel, clock) != {}
      ensures ok ==> count > 0 && exists e :: RevokeStep(old(Now()), Now(), Unexpired(old(sessions), sel, clock), now, e)
      ensures ok ==> count == |Unexpired(old(sessions), sel, clock)|
      ensures ok ==> SignedOut(old(Now()), Now(), sel, clock)
      ensures !ok ==> Now() == old(Now())
    {
      if !addressValid {
        return false, 0;
      }
      var rows := Unexpired(sessions, sel, clock);
      if |rows| == 0 || !commits {
        return false, 0;
      }
      var e := Event(if sel.OfUser? then UserSessionsRevoked else if sel.OfClient? then ClientSessionsRevoked else AllSessionsRevoked,
                     username, if sel.OfClient? then sel.of else "", true);
      sessions, audit := Revoke(sessions, rows, now), audit + [e];
      assert RevokeStep(old(Now()), Now(), rows, now, e);
      return true, |rows|;
    }

    method SetClientEnabled(client: string, enabled: bool, now: int, addressValid: bool, commits: bool) returns (ok: bool)
      modifies this`clients, this`sessions, this`audit
      ensures ok <==> addressValid && commits && client in old(clients)
      ensures ok ==> SwitchStep(old(Now()), Now(), client, enabled, now)
      ensures ok && !enabled ==> forall from :: SignedOut(old(Now()), Now(), OfClient(client), from)
      ensures !ok ==> Now() == old(Now())
    {
      if !addressValid || client !in clients || !commits {
        return false;
      }
      clients := clients[client := enabled];
      if !enabled {
        sessions := Revoke(sessions, Unrevoked(sessions, client), now);
      }
      audit := audit + [Event(if enabled then ClientEnabled else ClientDisabled, "", client, true)];
      return true;
    }
  }
}
