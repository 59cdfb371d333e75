/**
 * Device credentials (database/client_device_authentication.go): enrollment
 * tokens, the credential table and its audit log, with every operation one
 * transaction that either commits as a whole or leaves nothing behind. The
 * unique indexes on active and pending rows are left out on purpose: that there
 * is one of each has to follow from the guards. Times are nanoseconds.
 */
module Credentials {
  import opened Strings

  datatype Status = Pending | Active | Superseded | Revoked

  /** The columns a certificate brings along. */
  datatype Certificate = Certificate(
    client: string, fingerprint: string, serial: string, uriSan: string, algorithm: string,
    issuer: string, issuedAt: int, expiresAt: int)

  datatype Credential = Credential(
    certificate: Certificate, status: Status, supersedes: Option<string>,
    revokedAt: Option<int>, created: int, updated: int)
  {
    function Client(): string { certificate.client }
  }

  datatype Token = Token(client: string, hash: string, created: int, expires: int, consumed: Option<int>)

  datatype Kind = TokenCreated | EnrollmentStaged | RenewalStaged | Enrolled | Renewed | RevokedEvent

  /** `subject` is the token or credential the event's details name. */
  datatype Event = Event(kind: Kind, client: string, subject: string, supersedes: Option<string>)

  datatype Tables = Tables(tokens: map<string, Token>, credentials: map<string, Credential>, audit: seq<Event>)

  const MINUTE: int := 60 * 1_000_000_000
  const ACTIVATION_WINDOW: int := 10 * MINUTE
  const DAY: int := 24 * 60 * MINUTE
  /** Go's zero time, which every operation refuses. */
  const ZERO_TIME: int := -62135596800 * 1_000_000_000

  // ----- what the operations refuse before looking at a table -------------------------

  predicate PublicCharacter(c: char) {
    'a' <= c <= 'z' || 'A' <= c <= 'Z' || '0' <= c <= '9' || c == '.' || c == '_' || c == ':' || c == '-'
  }

  predicate PublicIdentifier(s: string) {
    1 <= |s| <= 255 && forall i :: 0 <= i < |s| ==> PublicCharacter(s[i])
  }

  predicate LowerHex(s: string) {
    forall i :: 0 <= i < |s| ==> '0' <= s[i] <= '9' || 'a' <= s[i] <= 'f'
  }

  predicate Sha256Text(s: string) {
    |s| == 64 && LowerHex(s)
  }

  predicate SerialText(s: string) {
    1 <= |s| <= 128 && s[0] != '0' && LowerHex(s)
  }

  predicate ValidToken(id: string, t: Token) {
    PublicIdentifier(id) && PublicIdentifier(t.client) && Sha256Text(t.hash)
    && t.created != ZERO_TIME && t.created < t.expires <= t.created + DAY
  }

  predicate ValidCertificate(id: string, c: Certificate) {
    PublicIdentifier(id) && PublicIdentifier(c.client) && Sha256Text(c.fingerprint) && SerialText(c.serial)
    && c.uriSan == "urn:stumpfworks:identity:client:" + c.client && |c.uriSan| <= 255
    && PublicIdentifier(c.algorithm) && PublicIdentifier(c.issuer)
    && c.issuedAt != ZERO_TIME && c.issuedAt < c.expiresAt <= c.issuedAt + 397 * DAY
  }

  // ----- the statements of the transactions --------------------------------------------

  predicate Enabled(clients: map<string, bool>, client: string) {
    client in clients && clients[client]
  }

  predicate Usable(t: Token, client: string, hash: string, now: int) {
    t.client == client && t.hash == hash && t.consumed.None? && t.expires >= now
  }

  /** The rows the enrollment's UPDATE would change. */
  function Usables(tokens: map<string, Token>, client: string, hash: string, now: int): set<string> {
    set id | id in tokens && Usable(tokens[id], client, hash, now)
  }

  function Consume(tokens: map<string, Token>, rows: set<string>, now: int): map<string, Token> {
    map id | id in tokens :: if id in rows then tokens[id].(consumed := Some(now)) else tokens[id]
  }

  predicate Stale(c: Credential, client: string, now: int) {
    c.Client() == client && c.status.Pending? && c.created <= now - ACTIVATION_WINDOW
  }

  /** A pending credential nobody activated in time gives way to the next. */
  function RetireStale(credentials: map<string, Credential>, client: string, now: int): map<string, Credential> {
    map id | id in credentials ::
      if Stale(credentials[id], client, now) then credentials[id].(status := Superseded, updated := now)
      else credentials[id]
  }

  function Having(credentials: map<string, Credential>, client: string, status: Status): set<string> {
    set id | id in credentials && credentials[id].Client() == client && credentials[id].status == status
  }

  predicate Fresh(c: Credential, client: string, now: int) {
    c.Client() == client && c.status.Pending? && c.created > now - ACTIVATION_WINDOW && c.certificate.expiresAt > now
  }

  predicate Current(c: Credential, client: string) {
    c.Client() == client && c.status.Active?
  }

  /** The primary key and the two unique columns of the credential table. */
  predicate Insertable(credentials: map<string, Credential>, id: string, c: Certificate) {
    id !in credentials
    && forall o :: o in credentials ==> credentials[o].certificate.fingerprint != c.fingerprint && credentials[o].certificate.serial != c.serial
  }

  function Staged(c: Certificate, supersedes: Option<string>, now: int): Credential {
    Credential(c, Pending, supersedes, None, now, now)
  }

  function SetStatus(credentials: map<string, Credential>, id: string, status: Status, now: int): map<string, Credential>
    requires id in credentials
  {
    credentials[id := credentials[id].(status := status, updated := now,
                                       revokedAt := if status.Revoked? then Some(now) else credentials[id].revokedAt)]
  }

  /** After the stale rows are retired, a pending one is left exactly when one was not stale. */
  lemma RetireStaleRows(credentials: map<string, Credential>, client: string, now: int, id: string, c: Certificate)
    ensures var rest := RetireStale(credentials, client, now);
            && (Having(rest, client, Pending) == {} <==> forall o :: o in Having(credentials, client, Pending) ==> Stale(credentials[o], client, now))
            && (Insertable(rest, id, c) <==> Insertable(credentials, id, c))
  {
    var rest := RetireStale(credentials, client, now);
    assert rest.Keys == credentials.Keys;
    forall o | o in Having(credentials, client, Pending) && !Stale(credentials[o], client, now)
      ensures o in Having(rest, client, Pending)
    {
    }
    assert forall o :: o in credentials ==> rest[o].certificate == credentials[o].certificate;
  }

  /** Touching the active row changes nothing about that. */
  lemma RenewalRows(credentials: map<string, Credential>, current: string, id: string, c: Certificate, now: int)
    requires current in credentials && Current(credentials[current], c.client)
    ensures var touched := credentials[current := credentials[current].(updated := now)];
            var rest := RetireStale(touched, c.client, now);
            && touched == SetStatus(credentials, current, Active, now)
            && ((forall o :: o in Having(credentials, c.client, Pending) ==> Stale(credentials[o], c.client, now)) && Insertable(credentials, id, c)
                <==> Having(rest, c.client, Pending) == {} && Insertable(rest, id, c))
  {
    var touched := credentials[current := credentials[current].(updated := now)];
    assert Having(touched, c.client, Pending) == Having(credentials, c.client, Pending);
    assert forall o :: o in credentials ==> touched[o].certificate == credentials[o].certificate;
    RetireStaleRows(touched, c.client, now, id, c);
  }

  // ----- what each transaction may do -----------------------------------------------------

  /** A token row is inserted, with a fresh id and a fresh hash, or nothing is. */
  predicate FreshHash(tokens: map<string, Token>, hash: string) {
    forall o :: o in tokens ==> tokens[o].hash != hash
  }

  predicate TokenStep(a: Tables, b: Tables, id: string, t: Token) {
    b.credentials == a.credentials
    && (b.tokens == a.tokens || (id !in a.tokens && FreshHash(a.tokens, t.hash) && b.tokens == a.tokens[id := t.(consumed := None)]))
    && b.audit == a.audit + [Event(TokenCreated, t.client, id, None)]
  }

  predicate EnrollStep(a: Tables, b: Tables, id: string, c: Certificate, hash: string, now: int) {
    |Usables(a.tokens, c.client, hash, now)| == 1
    && b.tokens == Consume(a.tokens, Usables(a.tokens, c.client, hash, now), now)
    && var rest := RetireStale(a.credentials, c.client, now);
       Having(rest, c.client, Pending) == {} && Insertable(rest, id, c)
       && b.credentials == rest[id := Staged(c, None, now)]
       && b.audit == a.audit + [Event(EnrollmentStaged, c.client, id, None)]
  }

  predicate RenewStep(a: Tables, b: Tables, current: string, id: string, c: Certificate, now: int) {
    current in a.credentials && Current(a.credentials[current], c.client) && a.credentials[current].certificate.expiresAt > now
    && b.tokens == a.tokens
    && var touched := SetStatus(a.credentials, current, Active, now);
       var rest := RetireStale(touched, c.client, now);
       Having(rest, c.client, Pending) == {} && Insertable(rest, id, c)
       && b.credentials == rest[id := Staged(c, Some(current), now)]
       && b.audit == a.audit + [Event(RenewalStaged, c.client, id, Some(current))]
  }

  predicate ActivateStep(a: Tables, b: Tables, id: string, client: string, now: int) {
    id in a.credentials && Fresh(a.credentials[id], client, now) && b.tokens == a.tokens
    && match a.credentials[id].supersedes
       case None =>
         Having(a.credentials, client, Active) == {}
         && b.credentials == SetStatus(a.credentials, id, Active, now)
         && b.audit == a.audit + [Event(Enrolled, client, id, None)]
       case Some(p) =>
         p in a.credentials && Current(a.credentials[p], client)
         && b.credentials == SetStatus(SetStatus(a.credentials, p, Superseded, now), id, Active, now)
         && b.audit == a.audit + [Event(Renewed, client, id, Some(p))]
  }

  predicate RevokeStep(a: Tables, b: Tables, id: string, client: string, now: int) {
    id in a.credentials && Current(a.credentials[id], client) && b.tokens == a.tokens
    && b.credentials == SetStatus(a.credentials, id, Revoked, now)
    && b.audit == a.audit + [Event(RevokedEvent, client, id, None)]
  }

  // ----- the same, row by row and with the times written out ----------------------------------

  /** One unused token of the client, not past its end, is used up. */
  ghost predicate Redeemed(a: map<string, Token>, b: map<string, Token>, client: string, hash: string, now: int) {
    exists id :: id in a && a[id].client == client && a[id].hash == hash && a[id].consumed.None? && now <= a[id].expires
      && b == a[id := a[id].(consumed := Some(now))]
  }

  lemma RedeemsOne(tokens: map<string, Token>, client: string, hash: string, now: int)
    requires |Usables(tokens, client, hash, now)| == 1
    ensures Redeemed(tokens, Consume(tokens, Usables(tokens, client, hash, now), now), client, hash, now)
  {
    var rows := Usables(tokens, client, hash, now);
    var id :| id in rows;
    assert rows == {id} + (rows - {id}) && |rows| == 1 + |rows - {id}|;
    assert Consume(tokens, rows, now) == tokens[id := tokens[id].(consumed := Some(now))];
  }

  /** A pending row is added; those of the client that waited ten minutes or more give way, and there were no others. */
  ghost predicate StagedOver(a: map<string, Credential>, b: map<string, Credential>, id: string, c: Certificate, supersedes: Option<string>, now: int) {
    id !in a && b.Keys == a.Keys + {id} && b[id] == Credential(c, Pending, supersedes, None, now, now)
    && (forall o :: o in a ==>
          b[o] == if a[o].status.Pending? && a[o].certificate.client == c.client then a[o].(status := Superseded, updated := now)
                  else if supersedes == Some(o) then a[o].(updated := now) else a[o])
    && (forall o :: o in a && a[o].status.Pending? && a[o].certificate.client == c.client ==> a[o].created + 600_000_000_000 <= now)
  }

  lemma StagesOver(a: map<string, Credential>, id: string, c: Certificate, now: int)
    requires id !in a && Having(RetireStale(a, c.client, now), c.client, Pending) == {}
    ensures StagedOver(a, RetireStale(a, c.client, now)[id := Staged(c, None, now)], id, c, None, now)
  {
    forall o | o in a && a[o].status.Pending? && a[o].certificate.client == c.client
      ensures a[o].created + 600_000_000_000 <= now
    {
      assert o !in Having(RetireStale(a, c.client, now), c.client, Pending);
    }
  }

  lemma RenewsOver(a: map<string, Credential>, current: string, id: string, c: Certificate, now: int)
    requires id !in a && current in a && a[current].status.Active?
    requires Having(RetireStale(SetStatus(a, current, Active, now), c.client, now), c.client, Pending) == {}
    ensures StagedOver(a, RetireStale(SetStatus(a, current, Active, now), c.client, now)[id := Staged(c, Some(current), now)], id, c, Some(current), now)
  {
    var touched := SetStatus(a, current, Active, now);
    assert touched.Keys == a.Keys;
    StagesOver(touched, id, c, now);
    forall o | o in a && a[o].status.Pending? && a[o].certificate.client == c.client
      ensures a[o].created + 600_000_000_000 <= now
    {
      assert touched[o] == a[o];
    }
  }

  lemma RenewalOver(a: Tables, b: Tables, current: string, id: string, c: Certificate, now: int)
    requires RenewStep(a, b, current, id, c, now)
    ensures StagedOver(a.credentials, b.credentials, id, c, Some(current), now)
  {
    assert SetStatus(a.credentials, current, Active, now).Keys == a.credentials.Keys;
    RenewsOver(a.credentials, current, id, c, now);
  }

  lemma EnrollmentOver(a: Tables, b: Tables, id: string, c: Certificate, hash: string, now: int)
    requires EnrollStep(a, b, id, c, hash, now)
    ensures Redeemed(a.tokens, b.tokens, c.client, hash, now) && StagedOver(a.credentials, b.credentials, id, c, None, now)
  {
    RedeemsOne(a.tokens, c.client, hash, now);
    StagesOver(a.credentials, id, c, now);
  }

  /** A pending row less than ten minutes old, with an unexpired certificate, becomes active in its predecessor's or nobody's place. */
  ghost predicate ActivatedOver(a: map<string, Credential>, b: map<string, Credential>, id: string, client: string, now: int) {
    id in a && b.Keys == a.Keys && a[id].certificate.client == client && a[id].status.Pending?
    && now < a[id].created + 600_000_000_000 && now < a[id].certificate.expiresAt
    && b[id] == a[id].(status := Active, updated := now)
    && (forall o :: o in a && o != id ==> b[o] == if a[id].supersedes == Some(o) then a[o].(status := Superseded, updated := now) else a[o])
    && match a[id].supersedes
       case None => forall o :: o in a && a[o].certificate.client == client ==> !a[o].status.Active?
       case Some(p) => p in a && a[p].status.Active? && a[p].certificate.client == client
  }

  lemma ActivatesOver(a: Tables, b: Tables, id: string, client: string, now: int)
    requires ActivateStep(a, b, id, client, now)
    ensures ActivatedOver(a.credentials, b.credentials, id, client, now)
  {
    forall o | o in a.credentials && a.credentials[o].Client() == client && a.credentials[o].status.Active?
      ensures o in Having(a.credentials, client, Active)
    {
    }
  }

  /** One committed transaction. */
  ghost predicate Step(a: Tables, b: Tables) {
    || (exists id, t :: TokenStep(a, b, id, t))
    || (exists id, c, hash, now :: EnrollStep(a, b, id, c, hash, now))
    || (exists current, id, c, now :: RenewStep(a, b, current, id, c, now))
    || (exists id, client, now :: ActivateStep(a, b, id, client, now))
    || (exists id, client, now :: RevokeStep(a, b, id, client, now))
  }

  /**
   * The store. Each operation works on the transaction's own view of the tables
   * and publishes it at the end; `commits` says whether the database accepts the
   * commit, `addressValid` whether the caller's address parses.
   */
  class CredentialStore {
    var tokens: map<string, Token>
    var credentials: map<string, Credential>
    var audit: seq<Event>
    var clients: map<string, bool>

    ghost function Now(): Tables
      reads this
    {
      Tables(tokens, credentials, audit)
    }

    /** An existing token id of a disabled client is reported as created, though nothing was inserted. */
    method CreateEnrollmentToken(id: string, t: Token, addressValid: bool, commits: bool) returns (ok: bool)
      modifies this`tokens, this`audit
      ensures !ok ==> Now() == old(Now())
      ensures ok ==> TokenStep(old(Now()), Now(), id, t)
      ensures ok ==> (tokens == old(tokens) <==> !Enabled(clients, t.client))
      ensures ok && Enabled(clients, t.client) ==> tokens == old(tokens)[id := t.(consumed := None)]
      ensures ok ==> t.created < t.expires <= t.created + 86_400_000_000_000
      ensures ok <==> ValidToken(id, t) && addressValid && commits && CanCreate(old(tokens), clients, id, t)
    {
      if !ValidToken(id, t) || !addressValid {
        return false;
      }
      var rows := tokens;
      if Enabled(clients, t.client) {
        if id in rows || !FreshHash(rows, t.hash) {
          return false;
        }
        rows := rows[id := t.(consumed := None)];
      }
      if id !in rows || !commits {
        return false;
      }
      tokens, audit := rows, audit + [Event(TokenCreated, t.client, id, None)];
      return true;
    }

    /** Foretells whether Enroll accepts the token, for any certificate of the client that nothing else stands against. */
    method ValidEnrollmentToken(client: string, hash: string, now: int) returns (ok: bool)
      ensures ok ==> PublicIdentifier(client) && Sha256Text(hash) && now != ZERO_TIME
      ensures forall id: string, c: Certificate :: c.client == client && Sha256Text(hash) && now != ZERO_TIME && ValidCertificate(id, c) && Unopposed(credentials, id, c, now) ==> (ok <==> CanEnroll(Now(), clients, id, c, hash, now))
    {
      return PublicIdentifier(client) && Sha256Text(hash) && now != ZERO_TIME
        && Enabled(clients, client) && |Usables(tokens, client, hash, now)| == 1;
    }

    method Enroll(id: string, c: Certificate, hash: string, now: int, addressValid: bool, commits: bool) returns (ok: bool)
      modifies this`tokens, this`credentials, this`audit
      ensures !ok ==> Now() == old(Now())
      ensures ok ==> EnrollStep(old(Now()), Now(), id, c, hash, now) && Enabled(clients, c.client)
      ensures ok ==> Redeemed(old(tokens), tokens, c.client, hash, now) && StagedOver(old(credentials), credentials, id, c, None, now)
      ensures ok ==> c.issuedAt < c.expiresAt <= c.issuedAt + 397 * 86_400_000_000_000
      ensures ok <==> Sha256Text(hash) && ValidCertificate(id, c) && addressValid && now != ZERO_TIME && commits && CanEnroll(old(Now()), clients, id, c, hash, now)
    {
      if !Sha256Text(hash) || !ValidCertificate(id, c) || !addressValid || now == ZERO_TIME {
        return false;
      }
      if !Enabled(clients, c.client) {
        return false;
      }
      var hits := Usables(tokens, c.client, hash, now);
      var used := Consume(tokens, hits, now);
      if |hits| != 1 {
        return false;
      }
      var rows := RetireStale(credentials, c.client, now);
      RetireStaleRows(credentials, c.client, now, id, c);
      if |Having(rows, c.client, Pending)| != 0 {
        return false;
      }
      if !Insertable(rows, id, c) || !commits {
        return false;
      }
      tokens, credentials := used, rows[id := Staged(c, None, now)];
      audit := audit + [Event(EnrollmentStaged, c.client, id, None)];
      EnrollmentOver(old(Now()), Now(), id, c, hash, now);
      return true;
    }

    method StageRenewal(current: string, id: string, c: Certificate, now: int, addressValid: bool, commits: bool) returns (ok: bool)
      modifies this`credentials, this`audit
      ensures !ok ==> Now() == old(Now())
      ensures ok ==> RenewStep(old(Now()), Now(), current, id, c, now)
      ensures ok ==> StagedOver(old(credentials), credentials, id, c, Some(current), now)
      ensures ok <==> PublicIdentifier(current) && ValidCertificate(id, c) && addressValid && now != ZERO_TIME && commits && CanRenew(old(Now()), current, id, c, now)
    {
      if !PublicIdentifier(current) || !ValidCertificate(id, c) || !addressValid || now == ZERO_TIME {
        return false;
      }
      if current !in credentials || !Current(credentials[current], c.client) || credentials[current].certificate.expiresAt <= now {
        return false;
      }
      var rows := credentials[current := credentials[current].(updated := now)];
      RenewalRows(credentials, current, id, c, now);
      rows := RetireStale(rows, c.client, now);
      if |Having(rows, c.client, Pending)| != 0 {
        return false;
      }
      if !Insertable(rows, id, c) || !commits {
        return false;
      }
      credentials := rows[id := Staged(c, Some(current), now)];
      audit := audit + [Event(RenewalStaged, c.client, id, Some(current))];
      RenewalOver(old(Now()), Now(), current, id, c, now);
      return true;
    }

    method Activate(client: string, id: string, now: int, addressValid: bool, commits: bool) returns (ok: bool)
      modifies this`credentials, this`audit
      ensures !ok ==> Now() == old(Now())
      ensures ok ==> ActivateStep(old(Now()), Now(), id, client, now)
      ensures ok ==> ActivatedOver(old(credentials), credentials, id, client, now)
      ensures ok <==> PublicIdentifier(client) && PublicIdentifier(id) && addressValid && now != ZERO_TIME && commits && CanActivate(old(Now()), id, client, now)
    {
      if !PublicIdentifier(client) || !PublicIdentifier(id) || !addressValid || now == ZERO_TIME {
        return false;
      }
      if id !in credentials || !Fresh(credentials[id], client, now) {
        return false;
      }
      var rows, kind := credentials, Enrolled;
      var supersedes := rows[id].supersedes;
      if supersedes.Some? {
        var p := supersedes.value;
        if p !in rows || !Current(rows[p], client) {
          return false;
        }
        rows := SetStatus(rows, p, Superseded, now);
        kind := Renewed;
      } else if |Having(rows, client, Active)| != 0 {
        return false;
      }
      if rows[id].Client() != client || !rows[id].status.Pending? || !commits {
        return false;
      }
      credentials := SetStatus(rows, id, Active, now);
      audit := audit + [Event(kind, client, id, supersedes)];
      ActivatesOver(old(Now()), Now(), id, client, now);
      return true;
    }

    method Revoke(client: string, id: string, now: int, addressValid: bool, commits: bool) returns (ok: bool)
      modifies this`credentials, this`audit
      ensures !ok ==> Now() == old(Now())
      ensures ok ==> RevokeStep(old(Now()), Now(), id, client, now)
      ensures ok ==> old(credentials)[id].status.Active? && old(credentials)[id].certificate.client == client
      ensures ok ==> credentials == old(credentials)[id := old(credentials)[id].(status := Revoked, updated := now, revokedAt := Some(now))]
      ensures ok <==> PublicIdentifier(client) && PublicIdentifier(id) && addressValid && now != ZERO_TIME && commits && old(id in credentials && Current(credentials[id], client))
    {
      if !PublicIdentifier(client) || !PublicIdentifier(id) || !addressValid || now == ZERO_TIME {
        return false;
      }
      if id !in credentials || !Current(credentials[id], client) || !commits {
        return false;
      }
      credentials := SetStatus(credentials, id, Revoked, now);
      audit := audit + [Event(RevokedEvent, client, id, None)];
      return true;
    }
  }

  predicate CanCreate(tokens: map<string, Token>, clients: map<string, bool>, id: string, t: Token) {
    if Enabled(clients, t.client) then id !in tokens && FreshHash(tokens, t.hash)
    else id in tokens
  }

  /** No fresh pending credential of the client, and the certificate's columns are free. */
  predicate Unopposed(credentials: map<string, Credential>, id: string, c: Certificate, now: int) {
    (forall o :: o in Having(credentials, c.client, Pending) ==> Stale(credentials[o], c.client, now)) && Insertable(credentials, id, c)
  }

  predicate CanEnroll(a: Tables, clients: map<string, bool>, id: string, c: Certificate, hash: string, now: int) {
    Enabled(clients, c.client) && |Usables(a.tokens, c.client, hash, now)| == 1 && Unopposed(a.credentials, id, c, now)
  }

  predicate CanRenew(a: Tables, current: string, id: string, c: Certificate, now: int) {
    current in a.credentials && Current(a.credentials[current], c.client) && a.credentials[current].certificate.expiresAt > now
    && Unopposed(a.credentials, id, c, now)
  }

  predicate CanActivate(a: Tables, id: string, client: string, now: int) {
    id in a.credentials && Fresh(a.credentials[id], client, now)
    && match a.credentials[id].supersedes
       case None => Having(a.credentials, client, Active) == {}
       case Some(p) => p in a.credentials && Current(a.credentials[p], client)
  }

  // ----- a token that is reported but not stored ---------------------------------------------

  /** Sixty-four zeros, or ones. */
  function Digits(c: char): string {
    seq(64, _ => c)
  }

  /** A disabled client and a taken token id: creation succeeds, and the old token is still the only one. */
  method ReportedButNotStored() returns (ok: bool, store: CredentialStore)
    ensures ok && store.tokens == map["id" := Token("c", Digits('0'), 0, 1, None)]
    ensures |store.audit| == 1 && store.audit[0].kind.TokenCreated?
  {
    store := new CredentialStore;
    store.clients := map["c" := false];
    store.tokens := map["id" := Token("c", Digits('0'), 0, 1, None)];
    store.credentials, store.audit := map[], [];
    ok := store.CreateEnrollmentToken("id", Token("c", Digits('1'), 0, 1, None), true, true);
  }
}
