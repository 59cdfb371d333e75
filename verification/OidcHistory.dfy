/**
 * Codes and sessions over whole runs, with any number of exchanges of the token
 * endpoint (oidc/provider.go) in flight. An exchange reads the code in one
 * transaction and consumes it, for a session or a denial, in a later one.
 */
module OidcHistory {
  import opened Strings
  import opened Oidc

  /** What an exchange remembers between its two transactions. */
  datatype Exchange = Exchange(grant: Grant, code: Code)

  datatype System = System(t: Tables, exchanges: map<nat, Exchange>)

  datatype Action =
    | Create(hash: string, code: Code, clock: int)
    | Begin(x: nat, grant: Grant)
    | Finish(x: nat, verifier: string, ticket: Ticket)
    | Reject(x: nat, reason: Reason)
    | Revocation(rows: set<string>, now: int, e: Event)
    | Switch(client: string, enabled: bool, now: int)
    | Other

  predicate AcceptableLength(verifier: string) {
    43 <= |verifier| <= 128
  }

  /** Users and clients are added, exchanges abandoned, transactions aborted. */
  predicate OtherStep(a: System, b: System) {
    b.t.codes == a.t.codes && b.t.sessions == a.t.sessions
    && (forall c :: c in a.t.clients ==> c in b.t.clients && b.t.clients[c] == a.t.clients[c])
    && (forall x :: x in b.exchanges ==> x in a.exchanges && b.exchanges[x] == a.exchanges[x])
  }

  /**
   * One transaction, seen from the endpoint: a session is asked for only after the
   * verifier was checked against the code that was read. `challenge` is SHA-256 in
   * base64url.
   */
  predicate Step(challenge: string -> string, a: System, b: System, act: Action) {
    match act
    case Create(hash, code, clock) => CreateStep(a.t, b.t, hash, code, clock) && b.exchanges == a.exchanges
    case Begin(x, g) =>
      x !in a.exchanges && Redeemable(a.t.codes, g) && b.t == a.t
      && b.exchanges == a.exchanges[x := Exchange(g, a.t.codes[g.hash])]
    case Finish(x, verifier, ticket) =>
      x in a.exchanges && var e := a.exchanges[x];
      AcceptableLength(verifier) && challenge(verifier) == e.code.challenge
      && CanIssue(a.t, e.grant, ticket) && b.t == Issue(a.t, e.grant, ticket) && b.exchanges == a.exchanges - {x}
    case Reject(x, reason) =>
      x in a.exchanges && CanDeny(a.t, a.exchanges[x].grant)
      && b.t == Deny(a.t, a.exchanges[x].grant, reason) && b.exchanges == a.exchanges - {x}
    case Revocation(rows, now, e) => RevokeStep(a.t, b.t, rows, now, e) && b.exchanges == a.exchanges
    case Switch(client, enabled, now) => SwitchStep(a.t, b.t, client, enabled, now) && b.exchanges == a.exchanges
    case Other => OtherStep(a, b)
  }

  datatype Run = Run(states: seq<System>, actions: seq<Action>)

  predicate StepAt(challenge: string -> string, run: Run, i: nat)
    requires i < |run.actions| && |run.states| == |run.actions| + 1
  {
    Step(challenge, run.states[i], run.states[i + 1], run.actions[i])
  }

  ghost predicate Valid(challenge: string -> string, run: Run) {
    |run.states| == |run.actions| + 1
    && run.states[0].t.codes == map[] && run.states[0].t.sessions == map[] && run.states[0].exchanges == map[]
    && forall i :: 0 <= i < |run.actions| ==> StepAt(challenge, run, i)
  }

  /** The code whose consumption step `i` is, if it is one. */
  function Consumes(run: Run, i: nat): Option<string>
    requires i < |run.actions| && |run.states| == |run.actions| + 1
  {
    var a := run.actions[i];
    if (a.Finish? || a.Reject?) && a.x in run.states[i].exchanges then Some(run.states[i].exchanges[a.x].grant.hash)
    else None
  }

  predicate Creates(run: Run, i: nat, hash: string)
    requires i < |run.actions|
  {
    run.actions[i].Create? && run.actions[i].hash == hash
  }

  // ----- one outcome per code ------------------------------------------------------------

  predicate Used(codes: map<string, Code>, hash: string) {
    hash in codes ==> codes[hash].consumed.Some?
  }

  /** Only a Create of the same hash makes a used code usable. */
  lemma StaysUsed(challenge: string -> string, a: System, b: System, act: Action, hash: string)
    requires Step(challenge, a, b, act) && Used(a.t.codes, hash) && !(act.Create? && act.hash == hash)
    ensures Used(b.t.codes, hash)
  {
  }

  lemma {:induction false} UsedFrom(challenge: string -> string, run: Run, i: nat, j: nat, hash: string)
    requires Valid(challenge, run) && i < j <= |run.actions| && Consumes(run, i) == Some(hash)
    requires forall k :: i < k < j ==> !Creates(run, k, hash)
    ensures Used(run.states[j].t.codes, hash)
    decreases j
  {
    assert StepAt(challenge, run, j - 1);
    if j > i + 1 {
      UsedFrom(challenge, run, i, j - 1, hash);
      assert !Creates(run, j - 1, hash);
      StaysUsed(challenge, run.states[j - 1], run.states[j], run.actions[j - 1], hash);
    }
  }

  /**
   * A code ends in at most one session or denial: between two consumptions of a
   * hash it was issued again (single use, section 4.1.2 of RFC 6749).
   */
  lemma SingleUse(challenge: string -> string, run: Run, i: nat, j: nat, hash: string)
    requires Valid(challenge, run) && i < j < |run.actions|
    requires Consumes(run, i) == Some(hash) && Consumes(run, j) == Some(hash)
    ensures exists k :: i < k < j && Creates(run, k, hash)
  {
    assert StepAt(challenge, run, j);
    if forall k :: i < k < j ==> !Creates(run, k, hash) {
      UsedFrom(challenge, run, i, j, hash);
      assert false;
    }
  }

  // ----- codes keep what they were created with ---------------------------------------------

  predicate SameGrant(c: Code, d: Code) {
    c.(consumed := None) == d.(consumed := None)
  }

  /** Step `k` created the code now found under `hash`. */
  predicate CreatedAs(run: Run, k: nat, hash: string, c: Code)
    requires k < |run.actions|
  {
    Creates(run, k, hash) && SameGrant(run.actions[k].code, c)
  }

  lemma CodeKept(challenge: string -> string, a: System, b: System, act: Action, hash: string)
    requires Step(challenge, a, b, act) && hash in b.t.codes && !(act.Create? && act.hash == hash)
    ensures hash in a.t.codes && SameGrant(a.t.codes[hash], b.t.codes[hash])
  {
  }

  lemma {:induction false} CodeOrigin(challenge: string -> string, run: Run, i: nat, hash: string) returns (k: nat)
    requires Valid(challenge, run) && i <= |run.actions| && hash in run.states[i].t.codes
    ensures k < i && CreatedAs(run, k, hash, run.states[i].t.codes[hash])
    ensures forall m :: k < m < i ==> !Creates(run, m, hash)
    decreases i
  {
    assert i > 0;
    assert StepAt(challenge, run, i - 1);
    if Creates(run, i - 1, hash) {
      k := i - 1;
    } else {
      CodeKept(challenge, run.states[i - 1], run.states[i], run.actions[i - 1], hash);
      k := CodeOrigin(challenge, run, i - 1, hash);
    }
  }

  // ----- sessions carry their code's grant ----------------------------------------------------

  /** Step `k` opened session `s` with what row `row` says, out of a code of the same client, user and scope. */
  predicate OpenedAt(run: Run, k: nat, s: string, row: Session)
    requires k < |run.actions| && |run.states| == |run.actions| + 1
  {
    var act := run.actions[k];
    act.Finish? && act.ticket.session == s && act.x in run.states[k].exchanges
    && var hash := run.states[k].exchanges[act.x].grant.hash;
       hash in run.states[k].t.codes
       && Opened(run.states[k].t.codes[hash], act.ticket, run.states[k].exchanges[act.x].grant.now) == row.(revoked := None)
  }

  predicate SameSession(r: Session, q: Session) {
    r.(revoked := None) == q.(revoked := None) && (r.revoked.Some? ==> q.revoked.Some?)
  }

  lemma SessionKept(challenge: string -> string, a: System, b: System, act: Action, s: string)
    requires Step(challenge, a, b, act) && s in b.t.sessions && !(act.Finish? && act.ticket.session == s)
    ensures s in a.t.sessions && SameSession(a.t.sessions[s], b.t.sessions[s])
  {
  }

  lemma {:induction false} SessionOrigin(challenge: string -> string, run: Run, i: nat, s: string) returns (k: nat)
    requires Valid(challenge, run) && i <= |run.actions| && s in run.states[i].t.sessions
    ensures k < i && OpenedAt(run, k, s, run.states[i].t.sessions[s])
    decreases i
  {
    assert i > 0;
    assert StepAt(challenge, run, i - 1);
    var act := run.actions[i - 1];
    if act.Finish? && act.ticket.session == s {
      k := i - 1;
    } else {
      SessionKept(challenge, run.states[i - 1], run.states[i], act, s);
      k := SessionOrigin(challenge, run, i - 1, s);
    }
  }

  /** Every session goes back to one exchange of one created code, whose client, user and scope it has. */
  lemma SessionCarriesGrant(challenge: string -> string, run: Run, i: nat, s: string) returns (k: nat, m: nat, hash: string)
    requires Valid(challenge, run) && i <= |run.actions| && s in run.states[i].t.sessions
    ensures m < k < i && Consumes(run, k) == Some(hash) && Creates(run, m, hash)
    ensures var row := run.states[i].t.sessions[s]; var code := run.actions[m].code;
            row.client == code.client && row.user == code.user && row.scope == code.scope
  {
    k := SessionOrigin(challenge, run, i, s);
    hash := run.states[k].exchanges[run.actions[k].x].grant.hash;
    m := CodeOrigin(challenge, run, k, hash);
  }

  // ----- proof key for code exchange ------------------------------------------------------------

  /** Where the exchange that is in flight at `i` began. */
  lemma {:induction false} ExchangeOrigin(challenge: string -> string, run: Run, i: nat, x: nat) returns (b: nat)
    requires Valid(challenge, run) && i <= |run.actions| && x in run.states[i].exchanges
    ensures b < i && run.actions[b].Begin? && run.actions[b].x == x
    ensures run.actions[b].grant == run.states[i].exchanges[x].grant
    ensures run.actions[b].grant.hash in run.states[b].t.codes && run.states[b].t.codes[run.actions[b].grant.hash] == run.states[i].exchanges[x].code
    decreases i
  {
    assert i > 0;
    assert StepAt(challenge, run, i - 1);
    if run.actions[i - 1].Begin? && run.actions[i - 1].x == x {
      b := i - 1;
    } else {
      b := ExchangeOrigin(challenge, run, i - 1, x);
    }
  }

  lemma {:induction false} CodeSince(challenge: string -> string, run: Run, b: nat, j: nat, hash: string)
    requires Valid(challenge, run) && b <= j <= |run.actions| && hash in run.states[j].t.codes
    requires forall m :: b <= m < j ==> !Creates(run, m, hash)
    ensures hash in run.states[b].t.codes && SameGrant(run.states[b].t.codes[hash], run.states[j].t.codes[hash])
    decreases j
  {
    if b < j {
      assert StepAt(challenge, run, j - 1);
      assert !Creates(run, j - 1, hash);
      CodeKept(challenge, run.states[j - 1], run.states[j], run.actions[j - 1], hash);
      CodeSince(challenge, run, b, j - 1, hash);
    }
  }

  /**
   * A session is opened only for a verifier that hashes to the challenge of the very
   * code it consumes (section 4.6 of RFC 7636), whatever happened between reading and
   * consuming it, unless the code was issued anew in between.
   */
  lemma VerifierMatchesConsumedCode(challenge: string -> string, run: Run, j: nat) returns (b: nat)
    requires Valid(challenge, run) && j < |run.actions| && run.actions[j].Finish?
    ensures b < j && run.actions[b].Begin? && Consumes(run, j) == Some(run.actions[b].grant.hash)
    ensures run.actions[b].grant.hash in run.states[j].t.codes
    ensures (exists m :: b < m < j && Creates(run, m, run.actions[b].grant.hash))
         || challenge(run.actions[j].verifier) == run.states[j].t.codes[run.actions[b].grant.hash].challenge
  {
    assert StepAt(challenge, run, j);
    var x := run.actions[j].x;
    b := ExchangeOrigin(challenge, run, j, x);
    var hash := run.actions[b].grant.hash;
    if forall m :: b < m < j ==> !Creates(run, m, hash) {
      CodeSince(challenge, run, b, j, hash);
    }
  }

  // ----- disabling a client ------------------------------------------------------------------------

  lemma DisableRevokesAll(a: Tables, b: Tables, client: string, now: int)
    requires SwitchStep(a, b, client, false, now)
    ensures Unrevoked(b.sessions, client) == {}
  {
  }

  lemma {:induction false} OpenSinceDisabled(challenge: string -> string, run: Run, i: nat, j: nat, s: string) returns (k: nat)
    requires Valid(challenge, run) && i < j <= |run.actions| && run.actions[i].Switch? && !run.actions[i].enabled
    requires s in Unrevoked(run.states[j].t.sessions, run.actions[i].client)
    ensures i < k < j && OpenedAt(run, k, s, run.states[j].t.sessions[s])
    decreases j
  {
    assert StepAt(challenge, run, j - 1);
    var act := run.actions[j - 1];
    if j - 1 == i {
      DisableRevokesAll(run.states[i].t, run.states[j].t, act.client, act.now);
      assert false;
    } else if act.Finish? && act.ticket.session == s {
      k := j - 1;
    } else {
      SessionKept(challenge, run.states[j - 1], run.states[j], act, s);
      k := OpenSinceDisabled(challenge, run, i, j - 1, s);
    }
  }

  /**
   * Once a client was disabled, whatever is looked up as active for it later was
   * opened after that, also when it has been enabled again.
   */
  lemma DisabledForever(challenge: string -> string, run: Run, i: nat, j: nat, s: string, tokenHash: string, now: int) returns (k: nat)
    requires Valid(challenge, run) && i < j <= |run.actions| && run.actions[i].Switch? && !run.actions[i].enabled
    requires Live(run.states[j].t, s, tokenHash, run.actions[i].client, now)
    ensures i < k < j && OpenedAt(run, k, s, run.states[j].t.sessions[s])
  {
    k := OpenSinceDisabled(challenge, run, i, j, s);
  }

  /** A revoked session is never looked up again while its row is there (section 2.1 of RFC 7009). */
  lemma {:induction false} RevokedForever(challenge: string -> string, run: Run, i: nat, j: nat, s: string, tokenHash: string, client: string, now: int)
    requires Valid(challenge, run) && i <= j <= |run.actions|
    requires s in run.states[i].t.sessions && run.states[i].t.sessions[s].revoked.Some?
    requires forall k :: i <= k < j ==> !(run.actions[k].Finish? && run.actions[k].ticket.session == s)
    ensures s in run.states[j].t.sessions ==> run.states[j].t.sessions[s].revoked.Some?
    ensures !Live(run.states[j].t, s, tokenHash, client, now)
    decreases j
  {
    if i < j {
      assert StepAt(challenge, run, j - 1);
      RevokedForever(challenge, run, i, j - 1, s, tokenHash, client, now);
      if s in run.states[j].t.sessions {
        SessionKept(challenge, run.states[j - 1], run.states[j], run.actions[j - 1], s);
      }
    }
  }

  // ----- what stays available -------------------------------------------------------------------------

  /** Step `i` neither revokes the session, nor disables its client, nor exchanges a code more than a week past its end. */
  predicate Spares(run: Run, i: nat, s: string, row: Session)
    requires i < |run.actions| && |run.states| == |run.actions| + 1
  {
    match run.actions[i]
    case Revocation(rows, _, _) => s !in rows
    case Switch(client, enabled, _) => client != row.client || enabled
    case Finish(x, _, _) => x in run.states[i].exchanges ==> run.states[i].exchanges[x].grant.now <= row.expires + 604800
    case _ => true
  }

  lemma SparedRow(challenge: string -> string, run: Run, i: nat, s: string)
    requires Valid(challenge, run) && i < |run.actions| && s in run.states[i].t.sessions && run.states[i].t.sessions[s].revoked.None?
    requires Spares(run, i, s, run.states[i].t.sessions[s])
    ensures s in run.states[i + 1].t.sessions && run.states[i + 1].t.sessions[s] == run.states[i].t.sessions[s]
  {
    assert StepAt(challenge, run, i);
    var act := run.actions[i];
    if act.Finish? {
      IssueExchanges(run.states[i].t, run.states[i].exchanges[act.x].grant, act.ticket);
    }
  }

  lemma {:induction false} SparedSince(challenge: string -> string, run: Run, k: nat, j: nat, s: string)
    requires Valid(challenge, run) && k <= j <= |run.actions| && s in run.states[k].t.sessions && run.states[k].t.sessions[s].revoked.None?
    requires forall i :: k <= i < j ==> Spares(run, i, s, run.states[k].t.sessions[s])
    ensures s in run.states[j].t.sessions && run.states[j].t.sessions[s] == run.states[k].t.sessions[s]
    decreases j
  {
    if k < j {
      SparedSince(challenge, run, k, j - 1, s);
      assert Spares(run, j - 1, s, run.states[k].t.sessions[s]);
      SparedRow(challenge, run, j - 1, s);
    }
  }

  /**
   * A session stays signed in: opened by the exchange at `k` and spared since, it is
   * found at `j` by its token and client, exactly before its end, while its user is
   * there and its client enabled.
   */
  lemma SessionStaysSignedIn(challenge: string -> string, run: Run, k: nat, j: nat, code: Code)
    requires Valid(challenge, run) && k < j <= |run.actions| && run.actions[k].Finish? && run.actions[k].x in run.states[k].exchanges
    requires var g := run.states[k].exchanges[run.actions[k].x].grant; g.hash in run.states[k].t.codes && code == run.states[k].t.codes[g.hash]
    requires var ticket := run.actions[k].ticket; forall i :: k < i < j ==> Spares(run, i, ticket.session, Opened(code, ticket, run.states[k].exchanges[run.actions[k].x].grant.now))
    ensures var ticket, t := run.actions[k].ticket, run.states[j].t;
      forall hash, client, now ::
        Live(t, ticket.session, hash, client, now) <==>
        hash == ticket.tokenHash && client == code.client && now < ticket.expires && code.user in t.users && client in t.clients && t.clients[client]
  {
    assert StepAt(challenge, run, k);
    var ticket, g := run.actions[k].ticket, run.states[k].exchanges[run.actions[k].x].grant;
    IssueExchanges(run.states[k].t, g, ticket);
    assert run.states[k + 1].t.sessions[ticket.session] == Opened(code, ticket, g.now);
    SparedSince(challenge, run, k + 1, j, ticket.session);
  }

  /** Step `i` neither issues the code again nor uses it up, and creates another only while it has not passed its end. */
  predicate LeavesCode(run: Run, i: nat, hash: string, expires: int)
    requires i < |run.actions| && |run.states| == |run.actions| + 1
  {
    Consumes(run, i) != Some(hash) && (run.actions[i].Create? ==> run.actions[i].hash != hash && run.actions[i].clock <= expires)
  }

  lemma {:induction false} CodeLeft(challenge: string -> string, run: Run, k: nat, j: nat, hash: string)
    requires Valid(challenge, run) && k <= j <= |run.actions| && hash in run.states[k].t.codes
    requires forall i :: k <= i < j ==> LeavesCode(run, i, hash, run.states[k].t.codes[hash].expires)
    ensures hash in run.states[j].t.codes && run.states[j].t.codes[hash] == run.states[k].t.codes[hash]
    decreases j
  {
    if k < j {
      CodeLeft(challenge, run, k, j - 1, hash);
      assert LeavesCode(run, j - 1, hash, run.states[k].t.codes[hash].expires);
      assert StepAt(challenge, run, j - 1);
    }
  }

  /** A code that was created and left alone since can be exchanged by its client, at its redirect address, up to and including its end. */
  lemma CodeStaysRedeemable(challenge: string -> string, run: Run, k: nat, j: nat, g: Grant)
    requires Valid(challenge, run) && k < j <= |run.actions| && Creates(run, k, g.hash)
    requires forall i :: k < i < j ==> LeavesCode(run, i, g.hash, run.actions[k].code.expires)
    ensures var code := run.actions[k].code;
      Redeemable(run.states[j].t.codes, g) <==> g.client == code.client && g.redirect == code.redirect && g.now <= code.expires
  {
    assert StepAt(challenge, run, k);
    CodeLeft(challenge, run, k + 1, j, g.hash);
  }

  // ----- one session per token ---------------------------------------------------------------------------

  ghost predicate TokensDiffer(t: Tables) {
    forall r, s :: r in t.sessions && s in t.sessions && t.sessions[r].tokenHash == t.sessions[s].tokenHash ==> r == s
  }

  lemma StepTokensDiffer(challenge: string -> string, a: System, b: System, act: Action)
    requires Step(challenge, a, b, act) && TokensDiffer(a.t)
    ensures TokensDiffer(b.t)
  {
    if act.Finish? {
      IssueExchanges(a.t, a.exchanges[act.x].grant, act.ticket);
      assert forall s :: s in b.t.sessions && s != act.ticket.session ==> s in Purge(a.t.sessions, a.exchanges[act.x].grant.now);
    }
  }

  /** A token belongs to at most one session, in every state. */
  lemma {:induction false} OneSessionPerToken(challenge: string -> string, run: Run, i: nat)
    requires Valid(challenge, run) && i <= |run.actions|
    ensures TokensDiffer(run.states[i].t)
  {
    if i > 0 {
      OneSessionPerToken(challenge, run, i - 1);
      assert StepAt(challenge, run, i - 1);
      StepTokensDiffer(challenge, run.states[i - 1], run.states[i], run.actions[i - 1]);
    }
  }
}
