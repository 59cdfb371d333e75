/**
 * When a token opens an enrollment and a credential can be activated or renewed,
 * over whole runs and with every time written out in nanoseconds.
 */
module CredentialTimes {
  import opened Strings
  import opened Credentials
  import opened CredentialHistory

  // ----- tokens ----------------------------------------------------------------------------

  /** An enrollment with this token hash leads from `a` to `b`. */
  ghost predicate Enrollment(a: Tables, b: Tables, hash: string) {
    exists id, c, now :: EnrollStep(a, b, id, c, hash, now)
  }

  ghost predicate Enrolls(run: seq<Tables>, i: nat, hash: string)
    requires i < |run| - 1
  {
    run[i] != run[i + 1] && Enrollment(run[i], run[i + 1], hash)
  }

  /** Only an enrollment with a token's hash touches it. */
  lemma StepLeavesToken(a: Tables, b: Tables, id: string)
    requires Step(a, b) && id in a.tokens
    requires !Enrollment(a, b, a.tokens[id].hash)
    ensures id in b.tokens && b.tokens[id] == a.tokens[id]
  {
    if o, t :| TokenStep(a, b, o, t) {
    } else if o, c, hash, now :| EnrollStep(a, b, o, c, hash, now) {
      assert hash != a.tokens[id].hash;
      assert id !in Usables(a.tokens, c.client, hash, now);
    }
  }

  lemma {:induction false} TokenLeft(run: seq<Tables>, k: nat, j: nat, id: string)
    requires Run(run) && k <= j < |run| && id in run[k].tokens
    requires forall i :: k <= i < j ==> !Enrolls(run, i, run[k].tokens[id].hash)
    ensures id in run[j].tokens && run[j].tokens[id] == run[k].tokens[id]
    decreases j
  {
    if k < j {
      TokenLeft(run, k, j - 1, id);
      assert StepAt(run, j - 1) && !Enrolls(run, j - 1, run[k].tokens[id].hash);
      if run[j - 1] != run[j] {
        StepLeavesToken(run[j - 1], run[j], id);
      }
    }
  }

  /** Tokens are created unused. */
  lemma CreatedUnused(a: Tables, b: Tables, id: string)
    requires Step(a, b) && id !in a.tokens && id in b.tokens
    ensures b.tokens[id].consumed.None?
  {
  }

  /**
   * A token first there at `k` and used in no enrollment since opens one for its own
   * client, up to and including its end, and for nobody else: beside the client being
   * enabled and the certificate being unopposed, nothing more is asked.
   */
  lemma TokenOpens(run: seq<Tables>, k: nat, j: nat, token: string, t: Token, clients: map<string, bool>, id: string, c: Certificate, now: int)
    requires Run(run) && 0 < k <= j < |run| && token !in run[k - 1].tokens && token in run[k].tokens && run[k].tokens[token] == t
    requires forall i :: k <= i < j ==> !Enrolls(run, i, t.hash)
    ensures CanEnroll(run[j], clients, id, c, t.hash, now) <==>
      c.client in clients && clients[c.client] && c.client == t.client && now <= t.expires && Unopposed(run[j].credentials, id, c, now)
  {
    assert StepAt(run, k - 1);
    CreatedUnused(run[k - 1], run[k], token);
    TokenLeft(run, k, j, token);
    HashesUnique(run, j);
    var rows := Usables(run[j].tokens, c.client, t.hash, now);
    assert forall o :: o in rows ==> o == token;
    assert rows == if c.client == t.client && now <= t.expires then {token} else {};
  }

  /** Nothing stands against a certificate exactly when its columns are new and whatever of its client waits has waited ten minutes. */
  lemma UnopposedExactly(cs: map<string, Credential>, id: string, c: Certificate, now: int)
    ensures Unopposed(cs, id, c, now) <==>
      id !in cs
      && (forall o :: o in cs ==> cs[o].certificate.fingerprint != c.fingerprint && cs[o].certificate.serial != c.serial)
      && (forall o :: o in cs && cs[o].certificate.client == c.client && cs[o].status.Pending? ==> cs[o].created + 600_000_000_000 <= now)
  {
    forall o | o in cs && cs[o].certificate.client == c.client && cs[o].status.Pending?
      ensures o in Having(cs, c.client, Pending)
    {
    }
  }

  // ----- activation -----------------------------------------------------------------------------

  /** Step `k` stages this credential. */
  ghost predicate StagedAt(run: seq<Tables>, k: nat, id: string, row: Credential)
    requires k < |run| - 1
  {
    id !in run[k].credentials && id in run[k + 1].credentials && run[k + 1].credentials[id] == row
  }

  lemma StagedPending(a: Tables, b: Tables, id: string)
    requires Step(a, b) && id !in a.credentials && id in b.credentials
    ensures b.credentials[id].status.Pending? && b.credentials[id].revokedAt.None? && b.credentials[id].updated == b.credentials[id].created
  {
    if o, t :| TokenStep(a, b, o, t) {
    } else if o, c, hash, now :| EnrollStep(a, b, o, c, hash, now) {
      EnrollStages(a, b, o, c, hash, now);
    } else if current, o, c, now :| RenewStep(a, b, current, o, c, now) {
      RenewStages(a, b, current, o, c, now);
    } else if o, client, now :| ActivateStep(a, b, o, client, now) {
      ActivateActivates(a, b, o, client, now);
    } else if o, client, now :| RevokeStep(a, b, o, client, now) {
    }
  }

  /** Nothing but time and the place it is to take decides whether a waiting credential can be activated. */
  ghost predicate PlaceFree(cs: map<string, Credential>, row: Credential) {
    match row.supersedes
    case None => forall o :: o in cs && cs[o].certificate.client == row.certificate.client ==> !cs[o].status.Active?
    case Some(p) => p in cs && cs[p].status.Active? && cs[p].certificate.client == row.certificate.client
  }

  /**
   * A credential staged at `k` and still waiting at `j` can be activated by its own
   * client exactly within ten minutes of its staging and before its certificate ends.
   */
  lemma ActivationWindow(run: seq<Tables>, k: nat, j: nat, id: string, row: Credential, client: string, now: int)
    requires Run(run) && k + 1 <= j < |run| && StagedAt(run, k, id, row)
    requires id in run[j].credentials && run[j].credentials[id].status.Pending?
    ensures CanActivate(run[j], id, client, now) <==>
      client == row.certificate.client && now < row.created + 600_000_000_000 && now < row.certificate.expiresAt && PlaceFree(run[j].credentials, row)
  {
    RowsProgress(run, k + 1, j, id);
    var cs := run[j].credentials;
    forall o | o in cs && cs[o].certificate.client == client && cs[o].status.Active?
      ensures o in Having(cs, client, Active)
    {
    }
  }

  /** It stops waiting only by its activation in that time, or when another is staged after it. */
  lemma WaitingEnds(a: Tables, b: Tables, id: string)
    requires Step(a, b) && id in a.credentials && a.credentials[id].status.Pending?
    ensures id in b.credentials
    ensures b.credentials[id].status.Pending? || b.credentials[id].status.Active? || b.credentials[id].status.Superseded?
    ensures b.credentials[id].status.Active? ==> exists now :: now < a.credentials[id].created + 600_000_000_000 && now < a.credentials[id].certificate.expiresAt && ActivateStep(a, b, id, a.credentials[id].certificate.client, now)
    ensures b.credentials[id].status.Superseded? ==>
      exists o :: Succeeded(a.credentials, b.credentials, o, a.credentials[id])
  {
    if o, t :| TokenStep(a, b, o, t) {
    } else if o, c, hash, now :| EnrollStep(a, b, o, c, hash, now) {
      EnrollmentOver(a, b, o, c, hash, now);
      StagingEnds(a.credentials, b.credentials, o, c, None, now, id);
    } else if current, o, c, now :| RenewStep(a, b, current, o, c, now) {
      RenewalOver(a, b, current, o, c, now);
      StagingEnds(a.credentials, b.credentials, o, c, Some(current), now, id);
    } else if o, client, now :| ActivateStep(a, b, o, client, now) {
      ActivatesOver(a, b, o, client, now);
    } else if o, client, now :| RevokeStep(a, b, o, client, now) {
    }
  }

  /** A row of the same client was staged ten minutes or more after this one. */
  predicate Succeeded(a: map<string, Credential>, b: map<string, Credential>, o: string, row: Credential) {
    o !in a && o in b && b[o].certificate.client == row.certificate.client && row.created + 600_000_000_000 <= b[o].created
  }

  lemma StagingEnds(a: map<string, Credential>, b: map<string, Credential>, o: string, c: Certificate, supersedes: Option<string>, now: int, id: string)
    requires StagedOver(a, b, o, c, supersedes, now) && id in a && a[id].status.Pending?
    ensures id in b && (b[id].status.Pending? || (b[id].status.Superseded? && Succeeded(a, b, o, a[id])))
  {
  }

  // ----- renewal -----------------------------------------------------------------------------------

  /** An active credential can be renewed for its own client exactly before its certificate ends, by a certificate nothing stands against. */
  lemma RenewalWindow(run: seq<Tables>, k: nat, j: nat, current: string, row: Credential, id: string, c: Certificate, now: int)
    requires Run(run) && k + 1 <= j < |run| && StagedAt(run, k, current, row)
    ensures current in run[j].credentials
    ensures CanRenew(run[j], current, id, c, now) <==>
      run[j].credentials[current].status.Active? && c.client == row.certificate.client && now < row.certificate.expiresAt && Unopposed(run[j].credentials, id, c, now)
  {
    RowsProgress(run, k + 1, j, current);
  }

  // ----- one certificate per row --------------------------------------------------------------------

  ghost predicate DistinctCertificates(cs: map<string, Credential>) {
    forall a, b :: a in cs && b in cs && (cs[a].certificate.fingerprint == cs[b].certificate.fingerprint || cs[a].certificate.serial == cs[b].certificate.serial) ==> a == b
  }

  predicate ColumnsFree(cs: map<string, Credential>, c: Certificate) {
    forall o :: o in cs ==> cs[o].certificate.fingerprint != c.fingerprint && cs[o].certificate.serial != c.serial
  }

  lemma NewColumns(cs: map<string, Credential>, id: string, c: Certificate, now: int)
    requires Insertable(RetireStale(cs, c.client, now), id, c)
    ensures ColumnsFree(cs, c)
  {
    RetireStaleRows(cs, c.client, now, id, c);
  }

  lemma RenewedColumns(cs: map<string, Credential>, current: string, id: string, c: Certificate, now: int)
    requires current in cs && Insertable(RetireStale(SetStatus(cs, current, Active, now), c.client, now), id, c)
    ensures ColumnsFree(cs, c)
  {
    var touched := SetStatus(cs, current, Active, now);
    NewColumns(touched, id, c, now);
    assert forall o :: o in cs ==> o in touched && touched[o].certificate == cs[o].certificate;
  }

  lemma StagingKeepsDistinct(a: map<string, Credential>, b: map<string, Credential>, id: string, c: Certificate, supersedes: Option<string>, now: int)
    requires DistinctCertificates(a) && StagedOver(a, b, id, c, supersedes, now)
    requires ColumnsFree(a, c)
    ensures DistinctCertificates(b)
  {
    assert forall o :: o in a ==> b[o].certificate == a[o].certificate;
  }

  lemma EnrollKeepsDistinct(a: Tables, b: Tables, id: string, c: Certificate, hash: string, now: int)
    requires DistinctCertificates(a.credentials) && EnrollStep(a, b, id, c, hash, now)
    ensures DistinctCertificates(b.credentials)
  {
    EnrollmentOver(a, b, id, c, hash, now);
    NewColumns(a.credentials, id, c, now);
    StagingKeepsDistinct(a.credentials, b.credentials, id, c, None, now);
  }

  lemma RenewKeepsDistinct(a: Tables, b: Tables, current: string, id: string, c: Certificate, now: int)
    requires DistinctCertificates(a.credentials) && RenewStep(a, b, current, id, c, now)
    ensures DistinctCertificates(b.credentials)
  {
    RenewalOver(a, b, current, id, c, now);
    RenewedColumns(a.credentials, current, id, c, now);
    StagingKeepsDistinct(a.credentials, b.credentials, id, c, Some(current), now);
  }

  lemma SameCertificates(a: map<string, Credential>, b: map<string, Credential>)
    requires DistinctCertificates(a) && Progress(a, b) && b.Keys == a.Keys
    ensures DistinctCertificates(b)
  {
    assert forall o :: o in b ==> b[o].certificate == a[o].certificate;
  }

  lemma StepKeepsDistinct(a: Tables, b: Tables)
    requires Step(a, b) && DistinctCertificates(a.credentials)
    ensures DistinctCertificates(b.credentials)
  {
    if o, c, hash, now :| EnrollStep(a, b, o, c, hash, now) {
      EnrollKeepsDistinct(a, b, o, c, hash, now);
    } else if current, o, c, now :| RenewStep(a, b, current, o, c, now) {
      RenewKeepsDistinct(a, b, current, o, c, now);
    } else {
      StepProgresses(a, b);
      SameRows(a, b);
      SameCertificates(a.credentials, b.credentials);
    }
  }

  lemma SameRows(a: Tables, b: Tables)
    requires Step(a, b)
    requires forall id, c, hash, now :: !EnrollStep(a, b, id, c, hash, now)
    requires forall current, id, c, now :: !RenewStep(a, b, current, id, c, now)
    ensures b.credentials.Keys == a.credentials.Keys
  {
    if o, client, now :| ActivateStep(a, b, o, client, now) {
      ActivatesOver(a, b, o, client, now);
    }
  }

  /** No two credentials ever share a fingerprint or a serial number. */
  lemma {:induction false} CertificatesDiffer(run: seq<Tables>, i: nat)
    requires Run(run) && i < |run|
    ensures DistinctCertificates(run[i].credentials)
  {
    if i > 0 {
      CertificatesDiffer(run, i - 1);
      assert StepAt(run, i - 1);
      if run[i - 1] != run[i] {
        StepKeepsDistinct(run[i - 1], run[i]);
      }
    }
  }

  // ----- what is refused at once -----------------------------------------------------------------------

  predicate Spelled(s: string, atMost: int, extra: set<char>) {
    1 <= |s| <= atMost && forall i :: 0 <= i < |s| ==> 'a' <= s[i] <= 'z' || 'A' <= s[i] <= 'Z' || '0' <= s[i] <= '9' || s[i] in extra
  }

  predicate Hexadecimal(s: string) {
    forall i :: 0 <= i < |s| ==> '0' <= s[i] <= '9' || 'a' <= s[i] <= 'f'
  }

  const PUNCTUATION: set<char> := {'.', '_', ':', '-'}

  /** The tokens that are accepted. */
  lemma TokenAccepted(id: string, t: Token)
    ensures ValidToken(id, t) <==>
      Spelled(id, 255, PUNCTUATION) && Spelled(t.client, 255, PUNCTUATION) && |t.hash| == 64 && Hexadecimal(t.hash)
      && t.created != ZERO_TIME && t.created < t.expires && t.expires - t.created <= 86_400_000_000_000
  {
  }

  /** The certificates that are accepted. */
  lemma CertificateAccepted(id: string, c: Certificate)
    ensures ValidCertificate(id, c) <==>
      Spelled(id, 255, PUNCTUATION) && Spelled(c.client, 255, PUNCTUATION) && Spelled(c.algorithm, 255, PUNCTUATION) && Spelled(c.issuer, 255, PUNCTUATION)
      && |c.fingerprint| == 64 && Hexadecimal(c.fingerprint) && 1 <= |c.serial| <= 128 && Hexadecimal(c.serial) && c.serial[0] != '0'
      && c.uriSan == "urn:stumpfworks:identity:client:" + c.client && |c.uriSan| <= 255
      && c.issuedAt != ZERO_TIME && c.issuedAt < c.expiresAt && c.expiresAt - c.issuedAt <= 397 * 86_400_000_000_000
  {
  }
}
