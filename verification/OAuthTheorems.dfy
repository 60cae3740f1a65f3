/** What the OAuth server keeps over all its runs (pcbridge/auth.py). */
module OAuthTheorems {
  import opened Wrappers
  import opened OAuthProtocol

  /** The state in which event `i` of a run is handled, and its reply. */
  function Before(cfg: Config, es: seq<Timed>, i: nat): State
    requires i <= |es|
  {
    Exec(cfg, Start, es[..i])
  }

  function ReplyTo(cfg: Config, es: seq<Timed>, i: nat): Reply
    requires i < |es|
  {
    Step(cfg, Before(cfg, es, i), es[i]).1
  }

  lemma StepAt(cfg: Config, es: seq<Timed>, i: nat)
    requires i < |es|
    ensures Before(cfg, es, i + 1) == Step(cfg, Before(cfg, es, i), es[i]).0
  {
    assert es[..i + 1][..i] == es[..i];
  }

  lemma EveryStateIsSound(cfg: Config, es: seq<Timed>, i: nat)
    requires i <= |es|
    ensures Sound(Before(cfg, es, i))
  {
    RunInv(cfg, es[..i]);
  }

  // ------------------------------------------------------------------ codes

  predicate Exchanges(cfg: Config, es: seq<Timed>, i: nat, code: Id)
    requires i < |es|
  {
    es[i].event.Redeems? && es[i].event.code == code && ReplyTo(cfg, es, i) != OfTokens(Denied)
  }

  lemma ExchangedStays(cfg: Config, s: State, e: Timed, code: Id)
    ensures code in s.ledger.exchanged ==> code in Step(cfg, s, e).0.ledger.exchanged
    ensures e.event.Redeems? && e.event.code == code && Step(cfg, s, e).1 != OfTokens(Denied) ==>
              code in Step(cfg, s, e).0.ledger.exchanged && code in s.tables.codes
  {
  }

  lemma ExchangeIsNoted(cfg: Config, es: seq<Timed>, i: nat, code: Id)
    requires i < |es| && Exchanges(cfg, es, i, code)
    ensures code in Before(cfg, es, i + 1).ledger.exchanged
  {
    StepAt(cfg, es, i);
    ExchangedStays(cfg, Before(cfg, es, i), es[i], code);
  }

  lemma {:induction false} StaysExchanged(cfg: Config, es: seq<Timed>, i: nat, j: nat, code: Id)
    requires i <= j <= |es| && code in Before(cfg, es, i).ledger.exchanged
    ensures code in Before(cfg, es, j).ledger.exchanged
    decreases j
  {
    if i < j {
      StaysExchanged(cfg, es, i, j - 1, code);
      StepAt(cfg, es, j - 1);
      ExchangedStays(cfg, Before(cfg, es, j - 1), es[j - 1], code);
    }
  }

  lemma SpentCodesAreGone(s: State, code: Id)
    requires Sound(s) && code in s.ledger.exchanged
    ensures code !in s.tables.codes
  {
  }

  /** A code is exchanged at most once in any run. */
  lemma EachCodeIsExchangedOnce(cfg: Config, es: seq<Timed>, i: nat, j: nat, code: Id)
    requires i < j < |es| && Exchanges(cfg, es, i, code)
    ensures !Exchanges(cfg, es, j, code)
  {
    ExchangeIsNoted(cfg, es, i, code);
    StaysExchanged(cfg, es, i + 1, j, code);
    EveryStateIsSound(cfg, es, j);
    SpentCodesAreGone(Before(cfg, es, j), code);
    ExchangedStays(cfg, Before(cfg, es, j), es[j], code);
  }

  // ----------------------------------------------------------------- grants

  predicate SameGrant(l: Ledger, a: Id, b: Id) {
    a in l.origin && b in l.origin && l.origin[a] == l.origin[b]
  }

  /** However often a grant is refreshed, it has one access row and one refresh row at most. */
  lemma OneTokenOfEachKind(cfg: Config, es: seq<Timed>, a: Id, b: Id)
    ensures var s := Exec(cfg, Start, es);
            && (a in s.tables.access && b in s.tables.access && SameGrant(s.ledger, a, b) ==> a == b)
            && (a in s.tables.refresh && b in s.tables.refresh && SameGrant(s.ledger, a, b) ==> a == b)
            && (a in s.tables.access || a in s.tables.refresh ==> SameGrant(s.ledger, a, a))
  {
    RunInv(cfg, es);
  }

  predicate AskedAt(cfg: Config, es: seq<Timed>, i: nat, rid: Id, r: Request)
    requires i < |es|
  {
    es[i].event == Asks(r.client, r.scopes) && Before(cfg, es, i).ledger.next == rid
  }

  /** The password was given and accepted for the request, and made the code. */
  predicate GrantedAt(cfg: Config, es: seq<Timed>, j: nat, rid: Id, code: Id)
    requires j < |es|
  {
    && es[j].event.Consents? && es[j].event.rid == rid && es[j].event.configured && es[j].event.ok
    && ReplyTo(cfg, es, j) == OfConsent(Granted) && Before(cfg, es, j).ledger.next == code
  }

  lemma RequestedHow(cfg: Config, s: State, e: Timed, rid: Id)
    ensures rid in Step(cfg, s, e).0.ledger.requested ==>
              (rid in s.ledger.requested && s.ledger.requested[rid] == Step(cfg, s, e).0.ledger.requested[rid])
              || (rid == s.ledger.next && e.event.Asks? && Step(cfg, s, e).0.ledger.requested[rid] == Request(e.event.client, e.event.scopes))
  {
  }

  lemma RequestWasMade(cfg: Config, es: seq<Timed>, n: nat, rid: Id) returns (i: nat)
    requires n <= |es| && rid in Before(cfg, es, n).ledger.requested
    ensures i < n && AskedAt(cfg, es, i, rid, Before(cfg, es, n).ledger.requested[rid])
  {
    StepAt(cfg, es, n - 1);
    RequestedHow(cfg, Before(cfg, es, n - 1), es[n - 1], rid);
    if AskedAt(cfg, es, n - 1, rid, Before(cfg, es, n).ledger.requested[rid]) {
      i := n - 1;
    } else {
      i := RequestWasMade(cfg, es, n - 1, rid);
    }
  }

  lemma NextIsNoGrant(s: State)
    requires Sound(s)
    ensures s.ledger.next !in s.ledger.granted
  {
  }

  /** A grant never changes. */
  lemma GrantKept(cfg: Config, s: State, e: Timed, code: Id)
    requires s.ledger.next !in s.ledger.granted && code in s.ledger.granted
    ensures code in Step(cfg, s, e).0.ledger.granted && Step(cfg, s, e).0.ledger.granted[code] == s.ledger.granted[code]
  {
  }

  lemma PendingWasAsked(s: State, rid: Id)
    requires Sound(s) && rid in s.tables.pending
    ensures rid in s.ledger.requested
    ensures s.ledger.requested[rid] == Request(s.tables.pending[rid].client, s.tables.pending[rid].scopes)
  {
  }

  /** How a grant comes about: from a request that was waiting. */
  lemma GrantedHow(cfg: Config, s: State, e: Timed, code: Id)
    requires code !in s.ledger.granted && code in Step(cfg, s, e).0.ledger.granted
    ensures code == s.ledger.next && e.event.Consents? && e.event.configured && e.event.ok
    ensures Step(cfg, s, e).1 == OfConsent(Granted) && e.event.rid in s.tables.pending
    ensures Step(cfg, s, e).0.ledger.granted[code]
            == Grant(e.event.rid, s.tables.pending[e.event.rid].client, s.tables.pending[e.event.rid].scopes)
  {
  }

  lemma GrantStaysOnce(cfg: Config, es: seq<Timed>, n: nat, code: Id)
    requires n < |es| && code in Before(cfg, es, n).ledger.granted
    ensures code in Before(cfg, es, n + 1).ledger.granted
    ensures Before(cfg, es, n + 1).ledger.granted[code] == Before(cfg, es, n).ledger.granted[code]
  {
    StepAt(cfg, es, n);
    EveryStateIsSound(cfg, es, n);
    NextIsNoGrant(Before(cfg, es, n));
    GrantKept(cfg, Before(cfg, es, n), es[n], code);
  }

  lemma GrantMadeNow(cfg: Config, es: seq<Timed>, n: nat, code: Id) returns (i: nat)
    requires n < |es| && code !in Before(cfg, es, n).ledger.granted && code in Before(cfg, es, n + 1).ledger.granted
    ensures var g := Before(cfg, es, n + 1).ledger.granted[code];
            i < n && AskedAt(cfg, es, i, g.rid, Request(g.client, g.scopes)) && GrantedAt(cfg, es, n, g.rid, code)
  {
    StepAt(cfg, es, n);
    EveryStateIsSound(cfg, es, n);
    GrantedHow(cfg, Before(cfg, es, n), es[n], code);
    PendingWasAsked(Before(cfg, es, n), es[n].event.rid);
    i := RequestWasMade(cfg, es, n, es[n].event.rid);
  }

  lemma GrantWasGiven(cfg: Config, es: seq<Timed>, n: nat, code: Id) returns (i: nat, j: nat)
    requires n <= |es| && code in Before(cfg, es, n).ledger.granted
    ensures var g := Before(cfg, es, n).ledger.granted[code];
            i < j < n && AskedAt(cfg, es, i, g.rid, Request(g.client, g.scopes)) && GrantedAt(cfg, es, j, g.rid, code)
  {
    if code in Before(cfg, es, n - 1).ledger.granted {
      GrantStaysOnce(cfg, es, n - 1, code);
      i, j := GrantWasGiven(cfg, es, n - 1, code);
    } else {
      i := GrantMadeNow(cfg, es, n - 1, code);
      j := n - 1;
    }
  }

  lemma {:induction false} GrantStays(cfg: Config, es: seq<Timed>, k: nat, n: nat, code: Id)
    requires k <= n <= |es| && code in Before(cfg, es, k).ledger.granted
    ensures code in Before(cfg, es, n).ledger.granted
    ensures Before(cfg, es, n).ledger.granted[code] == Before(cfg, es, k).ledger.granted[code]
    decreases n
  {
    if k < n {
      GrantStays(cfg, es, k, n - 1, code);
      GrantStaysOnce(cfg, es, n - 1, code);
    }
  }

  lemma ExchangedHow(cfg: Config, s: State, e: Timed, code: Id)
    requires Sound(s) && code !in s.ledger.exchanged && code in Step(cfg, s, e).0.ledger.exchanged
    ensures e.event.Redeems? && e.event.code == code && Step(cfg, s, e).1 != OfTokens(Denied)
    ensures code in s.ledger.granted && s.ledger.granted[code].client == e.event.client
  {
  }

  lemma ExchangedNow(cfg: Config, es: seq<Timed>, n: nat, code: Id)
    requires n < |es| && code !in Before(cfg, es, n).ledger.exchanged && code in Before(cfg, es, n + 1).ledger.exchanged
    ensures Exchanges(cfg, es, n, code) && code in Before(cfg, es, n).ledger.granted
    ensures Before(cfg, es, n).ledger.granted[code].client == es[n].event.client
  {
    StepAt(cfg, es, n);
    EveryStateIsSound(cfg, es, n);
    ExchangedHow(cfg, Before(cfg, es, n), es[n], code);
  }

  lemma ExchangeWasMade(cfg: Config, es: seq<Timed>, n: nat, code: Id) returns (k: nat)
    requires n <= |es| && code in Before(cfg, es, n).ledger.exchanged
    ensures k < n && Exchanges(cfg, es, k, code) && code in Before(cfg, es, k).ledger.granted
    ensures Before(cfg, es, k).ledger.granted[code].client == es[k].event.client
  {
    if code in Before(cfg, es, n - 1).ledger.exchanged {
      k := ExchangeWasMade(cfg, es, n - 1, code);
    } else {
      ExchangedNow(cfg, es, n - 1, code);
      k := n - 1;
    }
  }

  /** A client asked, later the password was accepted for that very request, and later still
      the client exchanged the code this made. */
  ghost predicate Lineage(cfg: Config, es: seq<Timed>, r: Request, rid: Id, code: Id) {
    exists i: nat, j: nat, k: nat :: i < j < k < |es| && AskedAt(cfg, es, i, rid, r) && GrantedAt(cfg, es, j, rid, code)
                      && Exchanges(cfg, es, k, code) && es[k].event.client == r.client
  }

  lemma TokenFitsItsGrant(s: State, token: Id, now: real, bearer: Bearer)
    requires Sound(s) && BearerOf(s.tables, token, false, now) == Some(bearer)
    ensures token in s.ledger.origin && GrantFits(s.ledger, s.ledger.origin[token]) && s.ledger.origin[token] in s.ledger.exchanged
    ensures s.ledger.granted[s.ledger.origin[token]].client == bearer.client
    ensures Within(bearer.scopes, s.ledger.granted[s.ledger.origin[token]].scopes)
  {
    assert TokenFits(s.ledger, token, s.tables.access[token].client, s.tables.access[token].scopes);
  }

  /** In every run, a bearer token other than the configured one is accepted only for a client
      that asked, whose very request was then approved with the right password, and that then
      exchanged the code made by this; and with no scope that request did not name, however
      often the token was refreshed. */
  lemma AcceptedTokensGoBackToConsent(cfg: Config, es: seq<Timed>, token: Id, now: real, bearer: Bearer)
    requires BearerOf(Exec(cfg, Start, es).tables, token, false, now) == Some(bearer)
    ensures exists rid, code, r :: Lineage(cfg, es, r, rid, code) && r.client == bearer.client && Within(bearer.scopes, r.scopes)
  {
    var s := Exec(cfg, Start, es);
    assert es[..|es|] == es;
    RunInv(cfg, es);
    TokenFitsItsGrant(s, token, now, bearer);
    var code := s.ledger.origin[token];
    var g := s.ledger.granted[code];
    var k := ExchangeWasMade(cfg, es, |es|, code);
    GrantStays(cfg, es, k, |es|, code);
    var i, j := GrantWasGiven(cfg, es, k, code);
    assert Lineage(cfg, es, Request(g.client, g.scopes), g.rid, code);
  }

  /** A refresh ends the access token it replaces, keeps the refresh token as it is and hands
      out an access token that works until it expires. */
  lemma RefreshReplacesTheAccessToken(cfg: Config, s: State, client: string, token: Id, scopes: seq<string>, at: Times, now: real)
    requires Sound(s) && CanRefresh(s.tables, client, token, scopes, at.check)
    ensures var (after, reply) := Step(cfg, s, Timed(Refreshes(client, token, scopes), at));
            var renewed := reply.tokens.access;
            var until := (at.peek + cfg.accessTtl as real).Floor as real;
            && s.tables.refresh[token].access != renewed
            && s.tables.refresh[token].access !in after.tables.access
            && after.tables.refresh == s.tables.refresh[token := s.tables.refresh[token].(access := renewed)]
            && (at.end <= until && now <= until ==>
                  BearerOf(after.tables, renewed, false, now) == Some(Holder(client, ScopesFor(s.tables, token, scopes))))
  {
    RefreshLinksKnown(s, token);
  }

  lemma RefreshLinksKnown(s: State, token: Id)
    requires Sound(s) && token in s.tables.refresh
    ensures s.tables.refresh[token].access < s.ledger.next
  {
  }

  // ---------------------------------------------------------------- lockout

  /** From the `m`-th on, failures are at least the lockout apart. */
  ghost predicate Spaced(f: seq<real>, m: int, gap: real) {
    && (forall i :: 1 <= i < |f| ==> f[i] >= f[i - 1])
    && (forall i :: m <= i < |f| && i >= 1 ==> f[i] - f[i - 1] >= gap)
  }

  /** The row of an address and the failures since its last success. */
  ghost predicate Counted(cfg: Config, t: Tables, f: seq<real>, ip: string, clock: real) {
    && (ip in t.attempts <==> f != [])
    && (f != [] ==>
          && t.attempts[ip].count == |f|
          && t.attempts[ip].lockedUntil == (if |f| >= cfg.maxFailed then f[|f| - 1] + cfg.lockout as real else 0.0)
          && f[|f| - 1] <= clock)
    && Spaced(f, cfg.maxFailed, cfg.lockout as real)
  }

  ghost predicate Locks(cfg: Config, s: State) {
    forall ip :: Counted(cfg, s.tables, Failures(s.ledger, ip), ip, s.clock)
  }

  lemma LongerSpaced(f: seq<real>, m: int, gap: real, now: real)
    requires Spaced(f, m, gap)
    requires f != [] ==> now >= f[|f| - 1]
    requires f != [] && |f| >= m ==> now - f[|f| - 1] >= gap
    ensures Spaced(f + [now], m, gap)
  {
  }

  /** A failure is only checked when the address is not locked. */
  lemma FailureCounted(cfg: Config, t: Tables, f: seq<real>, ip: string, clock: real, at: Times)
    requires Counted(cfg, t, f, ip, clock) && Ordered(clock, at)
    requires IsLocked(t, ip, at.check) <= 0.0
    ensures Counted(cfg, RecordFailure(cfg, t, ip, at.end), f + [at.end], ip, at.stamp)
  {
    LongerSpaced(f, cfg.maxFailed, cfg.lockout as real, at.end);
  }

  lemma TokensKeepAttempts(cfg: Config, t: Tables, n: Id, key: Id, scopes: seq<string>, at: Times)
    ensures key in t.codes ==> Redeemed(cfg, t, n, key, at).attempts == t.attempts
    ensures key in t.refresh ==> Refreshed(cfg, t, n, key, scopes, at).attempts == t.attempts
  {
  }

  lemma OthersKeepAttempts(cfg: Config, s: State, e: Timed)
    requires !e.event.Consents?
    ensures Step(cfg, s, e).0.tables.attempts == s.tables.attempts
    ensures Step(cfg, s, e).0.ledger.failures == s.ledger.failures
  {
    match e.event
    case Redeems(_, code, _) => TokensKeepAttempts(cfg, s.tables, s.ledger.next, code, [], e.at);
    case Refreshes(_, token, scopes) => TokensKeepAttempts(cfg, s.tables, s.ledger.next, token, scopes, e.at);
    case _ =>
  }

  lemma ConsentKeepsOthers(cfg: Config, s: State, e: Timed, ip: string)
    requires e.event.Consents? && e.event.ip != ip
    ensures var after := Step(cfg, s, e).0;
            && (ip in after.tables.attempts <==> ip in s.tables.attempts)
            && (ip in s.tables.attempts ==> after.tables.attempts[ip] == s.tables.attempts[ip])
            && Failures(after.ledger, ip) == Failures(s.ledger, ip)
  {
  }

  lemma ConsentCounts(cfg: Config, s: State, e: Timed)
    requires e.event.Consents? && Ordered(s.clock, e.at)
    requires Counted(cfg, s.tables, Failures(s.ledger, e.event.ip), e.event.ip, s.clock)
    ensures var after := Step(cfg, s, e).0;
            Counted(cfg, after.tables, Failures(after.ledger, e.event.ip), e.event.ip, after.clock)
  {
    var reply := JudgeConsent(s.tables, e.event.configured, e.event.ip, e.event.rid, e.event.ok, e.at);
    if reply.WrongPassword? {
      FailureCounted(cfg, s.tables, Failures(s.ledger, e.event.ip), e.event.ip, s.clock, e.at);
    }
  }

  lemma StepLocks(cfg: Config, s: State, e: Timed)
    requires Locks(cfg, s) && Ordered(s.clock, e.at)
    ensures Locks(cfg, Step(cfg, s, e).0)
  {
    var after := Step(cfg, s, e).0;
    forall ip
      ensures Counted(cfg, after.tables, Failures(after.ledger, ip), ip, after.clock)
    {
      assert Counted(cfg, s.tables, Failures(s.ledger, ip), ip, s.clock);
      if !e.event.Consents? {
        OthersKeepAttempts(cfg, s, e);
      } else if e.event.ip == ip {
        ConsentCounts(cfg, s, e);
      } else {
        ConsentKeepsOthers(cfg, s, e, ip);
      }
    }
  }

  function LastStamp(es: seq<Timed>): real {
    if es == [] then 0.0 else es[|es| - 1].at.stamp
  }

  /** The clock never goes back. */
  predicate Monotone(es: seq<Timed>) {
    es == [] || (Monotone(es[..|es| - 1]) && Ordered(LastStamp(es[..|es| - 1]), es[|es| - 1].at))
  }

  lemma {:induction false} RunLocks(cfg: Config, es: seq<Timed>)
    requires Monotone(es)
    ensures Locks(cfg, Exec(cfg, Start, es))
    ensures Exec(cfg, Start, es).clock == LastStamp(es) >= 0.0
  {
    if es != [] {
      var last := |es| - 1;
      RunLocks(cfg, es[..last]);
      StepLocks(cfg, Exec(cfg, Start, es[..last]), es[last]);
      ClockFollows(cfg, Exec(cfg, Start, es[..last]), es[last]);
    }
  }

  lemma ClockFollows(cfg: Config, s: State, e: Timed)
    ensures Step(cfg, s, e).0.clock == e.at.stamp
  {
  }

  lemma {:induction false} GapsAddUp(f: seq<real>, m: int, gap: real, i: nat, j: nat)
    requires Spaced(f, m, gap) && i <= j < |f| && m <= i + 1
    ensures f[j] - f[i] >= (j - i) as real * gap
  {
    if i < j {
      GapsAddUp(f, m, gap, i, j - 1);
      assert (j - i) as real * gap == (j - 1 - i) as real * gap + gap;
    }
  }

  lemma FailuresAreSpaced(cfg: Config, es: seq<Timed>, ip: string)
    requires Monotone(es)
    ensures Spaced(Failures(Exec(cfg, Start, es).ledger, ip), cfg.maxFailed, cfg.lockout as real)
  {
    RunLocks(cfg, es);
    var s := Exec(cfg, Start, es);
    assert Counted(cfg, s.tables, Failures(s.ledger, ip), ip, s.clock);
  }

  ghost predicate Slowed(f: seq<real>, m: int, gap: real)
    requires m >= 1
  {
    |f| > m ==> f[|f| - 1] - f[m - 1] >= (|f| - m) as real * gap
  }

  lemma ExcessBound(f: seq<real>, m: int, gap: real)
    requires Spaced(f, m, gap) && m >= 1
    ensures Slowed(f, m, gap)
  {
    if |f| > m {
      GapsAddUp(f, m, gap, m - 1, |f| - 1);
      assert |f| - 1 - (m - 1) == |f| - m;
    }
  }

  /** With `m` failures allowed before a lockout and none succeeding in between, the `n`-th
      failure of an address comes at least `n - m` lockouts after the `m`-th. */
  lemma LockoutSlowsGuessing(cfg: Config, es: seq<Timed>, ip: string)
    requires Monotone(es) && cfg.maxFailed >= 1
    ensures Slowed(Failures(Exec(cfg, Start, es).ledger, ip), cfg.maxFailed, cfg.lockout as real)
  {
    FailuresAreSpaced(cfg, es, ip);
    ExcessBound(Failures(Exec(cfg, Start, es).ledger, ip), cfg.maxFailed, cfg.lockout as real);
  }

  lemma {:induction false} NeverBack(f: seq<real>, m: int, gap: real, i: nat, j: nat)
    requires Spaced(f, m, gap) && i <= j < |f|
    ensures f[i] <= f[j]
  {
    if i < j {
      NeverBack(f, m, gap, i, j - 1);
    }
  }

  lemma SpanBound(f: seq<real>, m: int, gap: real, i: nat, j: nat)
    requires Spaced(f, m, gap) && m >= 1 && gap > 0.0 && i <= j < |f|
    ensures (j - i + 1) as real <= m as real + (f[j] - f[i]) / gap
  {
    var from := if i >= m - 1 then i else m - 1;
    NeverBack(f, m, gap, i, j);
    if from <= j {
      GapsAddUp(f, m, gap, from, j);
      NeverBack(f, m, gap, i, from);
      QuotientBound((j - from) as real, gap, f[j] - f[i]);
    } else {
      QuotientBound(0.0, gap, f[j] - f[i]);
    }
  }

  /** So any stretch of failures lasting a time T has at most m + T / lockout of them. */
  lemma FailuresInASpan(cfg: Config, es: seq<Timed>, ip: string, i: nat, j: nat)
    requires Monotone(es) && cfg.maxFailed >= 1 && cfg.lockout > 0
    requires i <= j < |Failures(Exec(cfg, Start, es).ledger, ip)|
    ensures var f := Failures(Exec(cfg, Start, es).ledger, ip);
            (j - i + 1) as real <= cfg.maxFailed as real + (f[j] - f[i]) / cfg.lockout as real
  {
    FailuresAreSpaced(cfg, es, ip);
    SpanBound(Failures(Exec(cfg, Start, es).ledger, ip), cfg.maxFailed, cfg.lockout as real, i, j);
  }

  lemma QuotientBound(n: real, gap: real, span: real)
    requires gap > 0.0 && span >= n * gap
    ensures span / gap >= n
  {
    assert span / gap == (span - n * gap) / gap + n;
  }

  /** The form is refused for a lockout exactly while the address has reached the limit and
      its last failure is less than a lockout ago. */
  lemma LockedExactlyWhileItLasts(cfg: Config, es: seq<Timed>, ip: string, rid: Id, ok: bool, at: Times)
    requires Monotone(es) && Ordered(Exec(cfg, Start, es).clock, at)
    ensures var s := Exec(cfg, Start, es);
            var f := Failures(s.ledger, ip);
            JudgeConsent(s.tables, true, ip, rid, ok, at) == LockedOut
            <==> f != [] && |f| >= cfg.maxFailed && at.check < f[|f| - 1] + cfg.lockout as real
  {
    RunLocks(cfg, es);
    var s := Exec(cfg, Start, es);
    assert Counted(cfg, s.tables, Failures(s.ledger, ip), ip, s.clock);
  }
}
