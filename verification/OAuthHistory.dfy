/** What the OAuth server answers, told from the requests it got and the answers it gave
    before (pcbridge/auth.py). Nothing here looks at the tables: a token counts from the answer
    that handed it out to its revocation, its replacement or its end. */
module OAuthHistory {
  import opened Wrappers
  import opened OAuthProtocol
  import opened OAuthTheorems

  /** An access token, and the refresh token handed out with it. */
  datatype Issue = Issue(client: string, scopes: seq<string>, until: int, refresh: Id)

  datatype Renewable = Renewable(client: string, scopes: seq<string>, until: Option<int>)

  function LastReply(cfg: Config, es: seq<Timed>): Reply
    requires es != []
  {
    Step(cfg, Exec(cfg, Start, es[..|es| - 1]), es[|es| - 1]).1
  }

  /** The number the last event of the run could give out. */
  function FreshId(cfg: Config, es: seq<Timed>): Id
    requires es != []
  {
    Exec(cfg, Start, es[..|es| - 1]).ledger.next
  }

  predicate GivesTokens(e: Event, reply: Reply) {
    (e.Redeems? || e.Refreshes?) && reply.OfTokens? && reply.tokens.Tokens?
  }

  function IssueAfter(cfg: Config, live: Option<Issue>, e: Timed, reply: Reply, token: Id): Option<Issue> {
    if GivesTokens(e.event, reply) then
      if reply.tokens.access == token then
        Some(Issue(e.event.client, reply.tokens.scopes, (e.at.peek + cfg.accessTtl as real).Floor, reply.tokens.refresh))
      else if e.event.Refreshes? && live.Some? && live.value.refresh == e.event.token then None
      else live
    else if e.event == Revokes(token) then None
    else live
  }

  /** An access token as it was handed out, if it was not revoked or replaced by a refresh. */
  function LiveAccess(cfg: Config, es: seq<Timed>, token: Id): Option<Issue> {
    if es == [] then None
    else IssueAfter(cfg, LiveAccess(cfg, es[..|es| - 1], token), es[|es| - 1], LastReply(cfg, es), token)
  }

  function RenewableAfter(cfg: Config, live: Option<Renewable>, e: Timed, reply: Reply, token: Id): Option<Renewable> {
    if GivesTokens(e.event, reply) && e.event.Redeems? && reply.tokens.refresh == token then
      Some(Renewable(e.event.client, reply.tokens.scopes,
                     if cfg.refreshTtl != 0 then Some((e.at.peek + cfg.refreshTtl as real).Floor) else None))
    else if e.event == Revokes(token) then None
    else live
  }

  /** A refresh token as it was handed out, if it was not revoked. */
  function LiveRefresh(cfg: Config, es: seq<Timed>, token: Id): Option<Renewable> {
    if es == [] then None
    else RenewableAfter(cfg, LiveRefresh(cfg, es[..|es| - 1], token), es[|es| - 1], LastReply(cfg, es), token)
  }

  function RequestAfter(cfg: Config, live: Option<Pending>, e: Timed, reply: Reply, unused: Id, rid: Id): Option<Pending> {
    if e.event.Asks? && unused == rid then
      Some(Pending(e.event.client, e.event.scopes, e.at.check + cfg.codeTtl as real))
    else if e.event.Consents? && e.event.rid == rid && (reply == OfConsent(Granted) || reply == OfConsent(Expired)) then None
    else live
  }

  /** What was asked for, until the right password is given for it. */
  function LiveRequest(cfg: Config, es: seq<Timed>, rid: Id): Option<Pending> {
    if es == [] then None
    else RequestAfter(cfg, LiveRequest(cfg, es[..|es| - 1], rid), es[|es| - 1], LastReply(cfg, es), FreshId(cfg, es), rid)
  }

  function CodeAfter(cfg: Config, live: Option<Code>, asked: Option<Pending>, e: Timed, reply: Reply, unused: Id, code: Id): Option<Code> {
    if e.event.Consents? && reply == OfConsent(Granted) && unused == code && asked.Some? then
      Some(Code(asked.value.client, asked.value.scopes, e.at.stamp + cfg.codeTtl as real))
    else if e.event.Redeems? && e.event.code == code && GivesTokens(e.event, reply) then None
    else live
  }

  function AskedFor(cfg: Config, es: seq<Timed>, e: Event): Option<Pending> {
    if e.Consents? then LiveRequest(cfg, es, e.rid) else None
  }

  /** What a code stands for, until it is exchanged. */
  function LiveCode(cfg: Config, es: seq<Timed>, code: Id): Option<Code> {
    if es == [] then None
    else
      var front := es[..|es| - 1];
      CodeAfter(cfg, LiveCode(cfg, front, code), AskedFor(cfg, front, es[|es| - 1].event), es[|es| - 1], LastReply(cfg, es),
                FreshId(cfg, es), code)
  }

  /** When an address gave a wrong password since it last gave the right one. */
  function FailedAt(cfg: Config, es: seq<Timed>, ip: string): seq<real> {
    if es == [] then []
    else
      var (before, e, reply) := (FailedAt(cfg, es[..|es| - 1], ip), es[|es| - 1], LastReply(cfg, es));
      if !e.event.Consents? || e.event.ip != ip then before
      else if reply == OfConsent(WrongPassword) then before + [e.at.end]
      else if reply == OfConsent(Granted) || reply == OfConsent(Expired) then []
      else before
  }

  // ------------------------------------------------------- tables and history

  ghost predicate AccessKnown(t: Tables, live: Option<Issue>, token: Id, next: Id, clock: real) {
    && (token in t.access ==> live.Some? && t.access[token] == Access(live.value.client, live.value.scopes, live.value.until))
    && (live.Some? ==>
          && token < next && live.value.refresh < next
          && (token !in t.access ==> live.value.until as real < clock)
          && (live.value.refresh in t.refresh ==> t.refresh[live.value.refresh].access == token)
          && (forall r :: r in t.refresh && t.refresh[r].access == token ==> r == live.value.refresh))
  }

  ghost predicate RefreshKnown(t: Tables, live: Option<Renewable>, token: Id, next: Id) {
    && (token in t.refresh <==> live.Some?)
    && (live.Some? ==> token < next && t.refresh[token].client == live.value.client
                       && t.refresh[token].scopes == live.value.scopes && t.refresh[token].expires == live.value.until)
  }

  predicate RequestKnown(t: Tables, live: Option<Pending>, rid: Id, next: Id, clock: real) {
    && (rid in t.pending ==> live == Some(t.pending[rid]))
    && (live.Some? ==> rid < next && (rid !in t.pending ==> live.value.expires < clock))
  }

  predicate CodeKnown(t: Tables, live: Option<Code>, code: Id, next: Id, clock: real) {
    && (code in t.codes ==> live == Some(t.codes[code]))
    && (live.Some? ==> code < next && (code !in t.codes ==> live.value.expires < clock))
  }

  /** No number of a row is still to be given out. */
  ghost predicate BelowNext(t: Tables, next: Id) {
    && (forall k :: k in t.pending ==> k < next)
    && (forall k :: k in t.codes ==> k < next)
    && (forall k :: k in t.access ==> k < next)
    && (forall k :: k in t.refresh ==> k < next && t.refresh[k].access < next)
  }

  lemma SoundIsBelowNext(s: State)
    requires Sound(s)
    ensures BelowNext(s.tables, s.ledger.next)
  {
    var (t, l) := (s.tables, s.ledger);
    forall k | k in t.access
      ensures k < l.next
    {
      assert TokenFits(l, k, t.access[k].client, t.access[k].scopes);
    }
    forall k | k in t.refresh
      ensures k < l.next && t.refresh[k].access < l.next
    {
      assert TokenFits(l, k, t.refresh[k].client, t.refresh[k].scopes);
    }
  }

  // Events that leave the tokens alone.

  lemma SameTokens(t: Tables, u: Tables, live: Option<Issue>, token: Id, next: Id, later: Id, clock: real, now: real)
    requires AccessKnown(t, live, token, next, clock)
    requires u.access == t.access && u.refresh == t.refresh && next <= later && clock <= now
    ensures AccessKnown(u, live, token, later, now)
  {
  }

  lemma RedeemedAccess(cfg: Config, t: Tables, live: Option<Issue>, token: Id, n: Id, clock: real, code: Id, at: Times)
    requires AccessKnown(t, live, token, n, clock) && Ordered(clock, at) && BelowNext(t, n) && code in t.codes
    ensures var c := t.codes[code];
            var after := if token == n then Some(Issue(c.client, c.scopes, (at.peek + cfg.accessTtl as real).Floor, n + 1)) else live;
            AccessKnown(Redeemed(cfg, t, n, code, at), after, token, n + 2, at.stamp)
  {
  }

  lemma RefreshedAccess(cfg: Config, t: Tables, live: Option<Issue>, token: Id, n: Id, clock: real, r: Id, scopes: seq<string>, at: Times)
    requires AccessKnown(t, live, token, n, clock) && Ordered(clock, at) && BelowNext(t, n) && r in t.refresh
    ensures var after :=
              if token == n then
                Some(Issue(t.refresh[r].client, ScopesFor(t, r, scopes), (at.peek + cfg.accessTtl as real).Floor, r))
              else if live.Some? && live.value.refresh == r then None else live;
            AccessKnown(Refreshed(cfg, t, n, r, scopes, at), after, token, n + 2, at.stamp)
  {
  }

  lemma CalledAccess(t: Tables, live: Option<Issue>, token: Id, next: Id, clock: real, other: Id, isStatic: bool, at: Times)
    requires AccessKnown(t, live, token, next, clock) && Ordered(clock, at)
    ensures AccessKnown(AfterCall(t, other, isStatic, at.check), live, token, next, at.stamp)
  {
  }

  lemma RevokedAccess(t: Tables, live: Option<Issue>, token: Id, next: Id, clock: real, other: Id, at: Times)
    requires AccessKnown(t, live, token, next, clock) && Ordered(clock, at)
    ensures AccessKnown(Revoke(t, other), if other == token then None else live, token, next, at.stamp)
  {
  }

  /** What an event that gives no tokens does to the tables of tokens. */
  lemma QuietStep(cfg: Config, s: State, e: Timed)
    requires e.event.Asks? || e.event.Consents?
    ensures var after := Step(cfg, s, e).0;
            after.tables.access == s.tables.access && after.tables.refresh == s.tables.refresh
            && after.ledger.next >= s.ledger.next && !GivesTokens(e.event, Step(cfg, s, e).1) && after.clock == e.at.stamp
  {
  }

  lemma TokenStep(cfg: Config, s: State, e: Timed)
    requires e.event.Redeems? || e.event.Refreshes?
    ensures var (t, n) := (s.tables, s.ledger.next);
            var (after, reply) := Step(cfg, s, e);
            && after.clock == e.at.stamp
            && (!GivesTokens(e.event, reply) ==> after.tables.access == t.access && after.tables.refresh == t.refresh
                                                 && after.ledger.next == n)
            && (GivesTokens(e.event, reply) ==> after.ledger.next == n + 2 && reply.tokens.access == n)
            && (GivesTokens(e.event, reply) && e.event.Redeems? ==>
                  && e.event.code in t.codes && t.codes[e.event.code].client == e.event.client
                  && after.tables == Redeemed(cfg, t, n, e.event.code, e.at)
                  && reply == OfTokens(Tokens(n, n + 1, t.codes[e.event.code].scopes)))
            && (GivesTokens(e.event, reply) && e.event.Refreshes? ==>
                  && e.event.token in t.refresh && t.refresh[e.event.token].client == e.event.client
                  && after.tables == Refreshed(cfg, t, n, e.event.token, e.event.scopes, e.at)
                  && reply == OfTokens(Tokens(n, e.event.token, ScopesFor(t, e.event.token, e.event.scopes))))
  {
  }

  lemma TokenStepAccess(cfg: Config, s: State, e: Timed, live: Option<Issue>, token: Id)
    requires e.event.Redeems? || e.event.Refreshes?
    requires AccessKnown(s.tables, live, token, s.ledger.next, s.clock) && Ordered(s.clock, e.at) && BelowNext(s.tables, s.ledger.next)
    ensures var (after, reply) := Step(cfg, s, e);
            AccessKnown(after.tables, IssueAfter(cfg, live, e, reply, token), token, after.ledger.next, after.clock)
  {
    TokenStep(cfg, s, e);
    var (after, reply) := Step(cfg, s, e);
    if !GivesTokens(e.event, reply) {
      SameTokens(s.tables, after.tables, live, token, s.ledger.next, after.ledger.next, s.clock, after.clock);
    } else if e.event.Redeems? {
      RedeemedAccess(cfg, s.tables, live, token, s.ledger.next, s.clock, e.event.code, e.at);
    } else {
      RefreshedAccess(cfg, s.tables, live, token, s.ledger.next, s.clock, e.event.token, e.event.scopes, e.at);
    }
  }

  lemma StepAccess(cfg: Config, s: State, e: Timed, live: Option<Issue>, token: Id)
    requires AccessKnown(s.tables, live, token, s.ledger.next, s.clock) && Ordered(s.clock, e.at) && BelowNext(s.tables, s.ledger.next)
    ensures var (after, reply) := Step(cfg, s, e);
            AccessKnown(after.tables, IssueAfter(cfg, live, e, reply, token), token, after.ledger.next, after.clock)
  {
    match e.event
    case Calls(other, isStatic) => CalledAccess(s.tables, live, token, s.ledger.next, s.clock, other, isStatic, e.at);
    case Revokes(other) => RevokedAccess(s.tables, live, token, s.ledger.next, s.clock, other, e.at);
    case Redeems(_, _, _) => TokenStepAccess(cfg, s, e, live, token);
    case Refreshes(_, _, _) => TokenStepAccess(cfg, s, e, live, token);
    case _ =>
      QuietStep(cfg, s, e);
      var after := Step(cfg, s, e).0;
      SameTokens(s.tables, after.tables, live, token, s.ledger.next, after.ledger.next, s.clock, after.clock);
  }

  lemma StepRefresh(cfg: Config, s: State, e: Timed, live: Option<Renewable>, token: Id)
    requires RefreshKnown(s.tables, live, token, s.ledger.next) && BelowNext(s.tables, s.ledger.next)
    ensures var (after, reply) := Step(cfg, s, e);
            RefreshKnown(after.tables, RenewableAfter(cfg, live, e, reply, token), token, after.ledger.next)
  {
    match e.event
    case Redeems(_, _, _) => TokenStep(cfg, s, e);
    case Refreshes(_, _, _) => TokenStep(cfg, s, e);
    case Calls(_, _) =>
    case Revokes(_) =>
    case _ => QuietStep(cfg, s, e);
  }

  /** What each event does to the tables of requests and codes. */
  lemma ConsentStep(cfg: Config, s: State, e: Timed, live: Option<Pending>, rid: Id)
    requires e.event.Consents? && RequestKnown(s.tables, live, rid, s.ledger.next, s.clock) && Ordered(s.clock, e.at)
    ensures var (after, reply) := Step(cfg, s, e);
            RequestKnown(after.tables, RequestAfter(cfg, live, e, reply, s.ledger.next, rid), rid, after.ledger.next, after.clock)
  {
  }

  lemma RedeemedRequest(cfg: Config, s: State, e: Timed, live: Option<Pending>, rid: Id)
    requires e.event.Redeems? || e.event.Refreshes?
    requires RequestKnown(s.tables, live, rid, s.ledger.next, s.clock) && Ordered(s.clock, e.at)
    ensures var after := Step(cfg, s, e).0; RequestKnown(after.tables, live, rid, after.ledger.next, after.clock)
  {
  }

  lemma StepRequest(cfg: Config, s: State, e: Timed, live: Option<Pending>, rid: Id)
    requires RequestKnown(s.tables, live, rid, s.ledger.next, s.clock) && Ordered(s.clock, e.at)
    ensures var (after, reply) := Step(cfg, s, e);
            RequestKnown(after.tables, RequestAfter(cfg, live, e, reply, s.ledger.next, rid), rid, after.ledger.next, after.clock)
  {
    match e.event
    case Consents(_, _, _, _) => ConsentStep(cfg, s, e, live, rid);
    case Redeems(_, _, _) => RedeemedRequest(cfg, s, e, live, rid);
    case Refreshes(_, _, _) => RedeemedRequest(cfg, s, e, live, rid);
    case _ =>
  }

  lemma ConsentCode(cfg: Config, s: State, e: Timed, live: Option<Code>, asked: Option<Pending>, code: Id)
    requires e.event.Consents? && CodeKnown(s.tables, live, code, s.ledger.next, s.clock) && Ordered(s.clock, e.at)
    requires RequestKnown(s.tables, asked, e.event.rid, s.ledger.next, s.clock)
    ensures var (after, reply) := Step(cfg, s, e);
            CodeKnown(after.tables, CodeAfter(cfg, live, asked, e, reply, s.ledger.next, code), code, after.ledger.next, after.clock)
  {
  }

  lemma RedeemCode(cfg: Config, s: State, e: Timed, live: Option<Code>, code: Id)
    requires e.event.Redeems? || e.event.Refreshes?
    requires CodeKnown(s.tables, live, code, s.ledger.next, s.clock) && Ordered(s.clock, e.at)
    ensures var (after, reply) := Step(cfg, s, e);
            CodeKnown(after.tables, CodeAfter(cfg, live, None, e, reply, s.ledger.next, code), code, after.ledger.next, after.clock)
  {
  }

  lemma StepCode(cfg: Config, s: State, e: Timed, live: Option<Code>, asked: Option<Pending>, code: Id)
    requires CodeKnown(s.tables, live, code, s.ledger.next, s.clock) && Ordered(s.clock, e.at)
    requires e.event.Consents? ==> RequestKnown(s.tables, asked, e.event.rid, s.ledger.next, s.clock)
    requires !e.event.Consents? ==> asked.None?
    ensures var (after, reply) := Step(cfg, s, e);
            CodeKnown(after.tables, CodeAfter(cfg, live, asked, e, reply, s.ledger.next, code), code, after.ledger.next, after.clock)
  {
    match e.event
    case Consents(_, _, _, _) => ConsentCode(cfg, s, e, live, asked, code);
    case Redeems(_, _, _) => RedeemCode(cfg, s, e, live, code);
    case Refreshes(_, _, _) => RedeemCode(cfg, s, e, live, code);
    case _ =>
  }

  // ------------------------------------------------------------------- runs

  /** The run up to its last event, and the state that one is handled in. */
  lemma LastStep(cfg: Config, es: seq<Timed>) returns (s: State, e: Timed)
    requires Monotone(es) && es != []
    ensures s == Exec(cfg, Start, es[..|es| - 1]) && e == es[|es| - 1]
    ensures Exec(cfg, Start, es) == Step(cfg, s, e).0 && LastReply(cfg, es) == Step(cfg, s, e).1 && FreshId(cfg, es) == s.ledger.next
    ensures BelowNext(s.tables, s.ledger.next) && Ordered(s.clock, e.at)
  {
    s, e := Exec(cfg, Start, es[..|es| - 1]), es[|es| - 1];
    RunInv(cfg, es[..|es| - 1]);
    SoundIsBelowNext(s);
    RunLocks(cfg, es[..|es| - 1]);
  }

  lemma {:induction false} RunAccess(cfg: Config, es: seq<Timed>, token: Id)
    requires Monotone(es)
    ensures var s := Exec(cfg, Start, es); AccessKnown(s.tables, LiveAccess(cfg, es, token), token, s.ledger.next, s.clock)
  {
    if es != [] {
      var front := es[..|es| - 1];
      RunAccess(cfg, front, token);
      var s, e := LastStep(cfg, es);
      StepAccess(cfg, s, e, LiveAccess(cfg, front, token), token);
    }
  }

  lemma {:induction false} RunRefresh(cfg: Config, es: seq<Timed>, token: Id)
    requires Monotone(es)
    ensures var s := Exec(cfg, Start, es); RefreshKnown(s.tables, LiveRefresh(cfg, es, token), token, s.ledger.next)
  {
    if es != [] {
      var front := es[..|es| - 1];
      RunRefresh(cfg, front, token);
      var s, e := LastStep(cfg, es);
      StepRefresh(cfg, s, e, LiveRefresh(cfg, front, token), token);
    }
  }

  lemma {:induction false} RunRequest(cfg: Config, es: seq<Timed>, rid: Id)
    requires Monotone(es)
    ensures var s := Exec(cfg, Start, es); RequestKnown(s.tables, LiveRequest(cfg, es, rid), rid, s.ledger.next, s.clock)
  {
    if es != [] {
      var front := es[..|es| - 1];
      RunRequest(cfg, front, rid);
      var s, e := LastStep(cfg, es);
      StepRequest(cfg, s, e, LiveRequest(cfg, front, rid), rid);
    }
  }

  lemma {:induction false} RunCode(cfg: Config, es: seq<Timed>, code: Id)
    requires Monotone(es)
    ensures var s := Exec(cfg, Start, es); CodeKnown(s.tables, LiveCode(cfg, es, code), code, s.ledger.next, s.clock)
  {
    if es != [] {
      var front := es[..|es| - 1];
      RunCode(cfg, front, code);
      var s, e := LastStep(cfg, es);
      if e.event.Consents? {
        RunRequest(cfg, front, e.event.rid);
      }
      StepCode(cfg, s, e, LiveCode(cfg, front, code), AskedFor(cfg, front, e.event), code);
    }
  }

  lemma StepFailures(cfg: Config, s: State, e: Timed, ip: string)
    ensures var (after, reply) := Step(cfg, s, e);
            Failures(after.ledger, ip) ==
              if !e.event.Consents? || e.event.ip != ip then Failures(s.ledger, ip)
              else if reply == OfConsent(WrongPassword) then Failures(s.ledger, ip) + [e.at.end]
              else if reply == OfConsent(Granted) || reply == OfConsent(Expired) then []
              else Failures(s.ledger, ip)
  {
  }

  lemma {:induction false} RunFailures(cfg: Config, es: seq<Timed>, ip: string)
    ensures Failures(Exec(cfg, Start, es).ledger, ip) == FailedAt(cfg, es, ip)
  {
    if es != [] {
      RunFailures(cfg, es[..|es| - 1], ip);
      StepFailures(cfg, Exec(cfg, Start, es[..|es| - 1]), es[|es| - 1], ip);
    }
  }

  // ---------------------------------------------------------------- answers

  function Answer(cfg: Config, es: seq<Timed>, e: Event, at: Times): Reply {
    Step(cfg, Exec(cfg, Start, es), Timed(e, at)).1
  }

  predicate Next(cfg: Config, es: seq<Timed>, at: Times) {
    Monotone(es) && Ordered(LastStamp(es), at)
  }

  function CallReply(live: Option<Issue>, now: real): Reply {
    OfCall(if live.Some? && now <= live.value.until as real then Some(Holder(live.value.client, live.value.scopes)) else None)
  }

  /** A bearer token other than the configured one is accepted exactly from the answer that
      handed it out until it expires, is revoked, or a refresh of its grant replaces it; and then
      for the client and the scopes of that answer. */
  lemma CallsAreAnswered(cfg: Config, es: seq<Timed>, token: Id, at: Times)
    requires Next(cfg, es, at)
    ensures Answer(cfg, es, Calls(token, false), at) == CallReply(LiveAccess(cfg, es, token), at.check)
  {
    RunAccess(cfg, es, token);
    RunLocks(cfg, es);
  }

  function RefreshReply(live: Option<Renewable>, client: string, token: Id, scopes: seq<string>, now: real, n: Id): Reply {
    if live.Some? && live.value.client == client && Within(scopes, live.value.scopes)
       && (live.value.until.Some? ==> now <= live.value.until.value as real)
    then OfTokens(Tokens(n, token, if scopes != [] then scopes else live.value.scopes))
    else OfTokens(Denied)
  }

  /** A refresh is granted exactly to the client the token was handed out to, until it expires
      or is revoked, for scopes within those handed out, and all of them if none are named. */
  lemma RefreshesAreAnswered(cfg: Config, es: seq<Timed>, client: string, token: Id, scopes: seq<string>, at: Times)
    requires Next(cfg, es, at)
    ensures Answer(cfg, es, Refreshes(client, token, scopes), at) ==
            RefreshReply(LiveRefresh(cfg, es, token), client, token, scopes, at.check, Exec(cfg, Start, es).ledger.next)
  {
    RunRefresh(cfg, es, token);
  }

  /** What an exchange deserves, given what the code stands for; `n` is the next number. */
  function ExchangeReply(live: Option<Code>, client: string, verified: bool, now: real, n: Id): Reply {
    OfTokens(if live.Some? && live.value.client == client && now <= live.value.expires && verified
             then Tokens(n, n + 1, live.value.scopes) else Denied)
  }

  lemma ExchangeAnswer(cfg: Config, s: State, live: Option<Code>, client: string, code: Id, verified: bool, at: Times)
    requires CodeKnown(s.tables, live, code, s.ledger.next, s.clock) && Ordered(s.clock, at)
    ensures Step(cfg, s, Timed(Redeems(client, code, verified), at)).1 ==
            ExchangeReply(live, client, verified, at.check, s.ledger.next)
  {
  }

  lemma CodeNow(cfg: Config, es: seq<Timed>, code: Id, at: Times) returns (s: State, live: Option<Code>)
    requires Next(cfg, es, at)
    ensures s == Exec(cfg, Start, es) && live == LiveCode(cfg, es, code)
    ensures CodeKnown(s.tables, live, code, s.ledger.next, s.clock) && Ordered(s.clock, at)
  {
    s, live := Exec(cfg, Start, es), LiveCode(cfg, es, code);
    RunCode(cfg, es, code);
    RunLocks(cfg, es);
  }

  /** A code is exchanged exactly for the client of the request it was made for, in time, when
      the other checks pass and it was not exchanged before, and for all that was asked. */
  lemma ExchangesAreAnswered(cfg: Config, es: seq<Timed>, client: string, code: Id, verified: bool, at: Times)
    requires Next(cfg, es, at)
    ensures Answer(cfg, es, Redeems(client, code, verified), at) ==
            ExchangeReply(LiveCode(cfg, es, code), client, verified, at.check, Exec(cfg, Start, es).ledger.next)
  {
    var s, live := CodeNow(cfg, es, code, at);
    ExchangeAnswer(cfg, s, live, client, code, verified, at);
  }

  function ConsentAnswer(cfg: Config, live: Option<Pending>, f: seq<real>, configured: bool, ok: bool, at: Times): Reply {
    OfConsent(
      if !configured then NoPassword
      else if f != [] && |f| >= cfg.maxFailed && at.check < f[|f| - 1] + cfg.lockout as real then LockedOut
      else if live.None? || live.value.expires < at.peek then Invalid
      else if !ok then WrongPassword
      else if live.value.expires < at.end then Expired else Granted)
  }

  /** The consent form is answered from what was asked and from the failures of the address. */
  lemma ConsentIsAnswered(cfg: Config, es: seq<Timed>, configured: bool, ip: string, rid: Id, ok: bool, at: Times)
    requires Next(cfg, es, at)
    ensures Answer(cfg, es, Consents(configured, ip, rid, ok), at) ==
            ConsentAnswer(cfg, LiveRequest(cfg, es, rid), FailedAt(cfg, es, ip), configured, ok, at)
  {
    RunRequest(cfg, es, rid);
    RunFailures(cfg, es, ip);
    RunLocks(cfg, es);
    LockedExactlyWhileItLasts(cfg, es, ip, rid, ok, at);
  }

  // ------------------------------------------------------------- revocation

  lemma NextGrows(cfg: Config, s: State, e: Timed)
    ensures s.ledger.next <= Step(cfg, s, e).0.ledger.next
    ensures var reply := Step(cfg, s, e).1;
            GivesTokens(e.event, reply) ==>
              reply.tokens.access == s.ledger.next && (e.event.Redeems? ==> reply.tokens.refresh == s.ledger.next + 1)
  {
  }

  /** What was handed out before and is revoked is not handed out again. */
  lemma {:induction false} StaysRevoked(cfg: Config, es: seq<Timed>, i: nat, token: Id)
    requires i < |es| && es[i].event == Revokes(token) && token < Before(cfg, es, i).ledger.next
    ensures LiveAccess(cfg, es, token).None? && LiveRefresh(cfg, es, token).None?
    ensures token < Exec(cfg, Start, es).ledger.next
  {
    var front := es[..|es| - 1];
    assert front[..i] == es[..i] && es[..|es|] == es;
    NextGrows(cfg, Exec(cfg, Start, front), es[|es| - 1]);
    if i < |es| - 1 {
      StaysRevoked(cfg, front, i, token);
    } else {
      assert front == es[..i];
    }
  }

  /** Once a token that was handed out is revoked, it is never again accepted as a bearer token
      and never again exchanged for another, whoever presents it. */
  lemma RevokedForGood(cfg: Config, es: seq<Timed>, i: nat, token: Id, client: string, scopes: seq<string>, at: Times)
    requires i < |es| && es[i].event == Revokes(token) && token < Before(cfg, es, i).ledger.next && Next(cfg, es, at)
    ensures Answer(cfg, es, Calls(token, false), at) == OfCall(None)
    ensures Answer(cfg, es, Refreshes(client, token, scopes), at) == OfTokens(Denied)
  {
    StaysRevoked(cfg, es, i, token);
    CallsAreAnswered(cfg, es, token, at);
    RefreshesAreAnswered(cfg, es, client, token, scopes, at);
  }

  /** Revoking one token leaves every other row as it is. */
  lemma RevokingLeavesTheRest(cfg: Config, s: State, token: Id, at: Times)
    ensures var (t, u) := (s.tables, Step(cfg, s, Timed(Revokes(token), at)).0.tables);
            && u.pending == t.pending && u.codes == t.codes && u.attempts == t.attempts
            && token !in u.access && token !in u.refresh
            && (forall k :: k != token ==> (k in u.access <==> k in t.access) && (k in u.refresh <==> k in t.refresh))
            && Part(u.access, t.access) && Part(u.refresh, t.refresh)
  {
  }

  // ------------------------------------------------------- a grant that works

  lemma LastOfLonger(cfg: Config, es: seq<Timed>, e: Timed)
    requires Next(cfg, es, e.at)
    ensures Monotone(es + [e]) && LastReply(cfg, es + [e]) == Answer(cfg, es, e.event, e.at)
    ensures FreshId(cfg, es + [e]) == Exec(cfg, Start, es).ledger.next && LastStamp(es + [e]) == e.at.stamp
    ensures (es + [e])[..|es|] == es
  {
    assert (es + [e])[..|es|] == es;
  }

  lemma HandedOut(cfg: Config, es: seq<Timed>, client: string, code: Id, at: Times, tokens: TokenReply)
    requires Next(cfg, es, at) && tokens.Tokens? && Answer(cfg, es, Redeems(client, code, true), at) == OfTokens(tokens)
    ensures var run := es + [Timed(Redeems(client, code, true), at)];
            && LiveAccess(cfg, run, tokens.access) ==
               Some(Issue(client, tokens.scopes, (at.peek + cfg.accessTtl as real).Floor, tokens.refresh))
            && LiveRefresh(cfg, run, tokens.refresh) ==
               Some(Renewable(client, tokens.scopes,
                              if cfg.refreshTtl != 0 then Some((at.peek + cfg.refreshTtl as real).Floor) else None))
  {
    LastOfLonger(cfg, es, Timed(Redeems(client, code, true), at));
  }

  /** The tokens of an exchange: the access token works with what was granted until it expires,
      and the refresh token works for the client until that expires. */
  lemma ExchangedTokensWork(cfg: Config, es: seq<Timed>, client: string, code: Id, at: Times, tokens: TokenReply, later: Times, scopes: seq<string>)
    requires Next(cfg, es, at) && tokens.Tokens? && Answer(cfg, es, Redeems(client, code, true), at) == OfTokens(tokens)
    requires Next(cfg, es + [Timed(Redeems(client, code, true), at)], later)
    ensures var run := es + [Timed(Redeems(client, code, true), at)];
            && (later.check <= (at.peek + cfg.accessTtl as real).Floor as real ==>
                  Answer(cfg, run, Calls(tokens.access, false), later) == OfCall(Some(Holder(client, tokens.scopes))))
            && (Within(scopes, tokens.scopes) && (cfg.refreshTtl != 0 ==> later.check <= (at.peek + cfg.refreshTtl as real).Floor as real) ==>
                  Answer(cfg, run, Refreshes(client, tokens.refresh, scopes), later) != OfTokens(Denied))
  {
    HandedOut(cfg, es, client, code, at, tokens);
    var run := es + [Timed(Redeems(client, code, true), at)];
    CallsAreAnswered(cfg, run, tokens.access, later);
    RefreshesAreAnswered(cfg, run, client, tokens.refresh, scopes, later);
  }

  /** A request that is granted makes a code its client can exchange in time, for what it asked. */
  lemma GrantedCodeWorks(cfg: Config, es: seq<Timed>, ip: string, rid: Id, at: Times, later: Times)
    requires Next(cfg, es, at) && Answer(cfg, es, Consents(true, ip, rid, true), at) == OfConsent(Granted)
    requires Next(cfg, es + [Timed(Consents(true, ip, rid, true), at)], later)
    ensures var run := es + [Timed(Consents(true, ip, rid, true), at)];
            var asked := LiveRequest(cfg, es, rid);
            && asked.Some?
            && (later.check <= at.stamp + cfg.codeTtl as real ==>
                  var reply := Answer(cfg, run, Redeems(asked.value.client, Exec(cfg, Start, es).ledger.next, true), later);
                  reply.OfTokens? && reply.tokens.Tokens? && reply.tokens.scopes == asked.value.scopes)
  {
    var e := Timed(Consents(true, ip, rid, true), at);
    LastOfLonger(cfg, es, e);
    ConsentIsAnswered(cfg, es, true, ip, rid, true, at);
    ExchangesAreAnswered(cfg, es + [e], LiveRequest(cfg, es, rid).value.client, Exec(cfg, Start, es).ledger.next, true, later);
  }

  // --------------------------------------------------------------- cleaning

  predicate InTime(t: Tables, now: real) {
    && (forall k :: k in t.pending ==> t.pending[k].expires >= now)
    && (forall k :: k in t.codes ==> t.codes[k].expires >= now)
    && (forall k :: k in t.access ==> t.access[k].expires as real >= now)
  }

  /** Whenever tokens are handed out, no request, code or access token is kept that had already
      expired; refresh tokens are not swept. */
  lemma TokensSweepTheExpired(cfg: Config, s: State, e: Timed)
    requires GivesTokens(e.event, Step(cfg, s, e).1)
    ensures InTime(Step(cfg, s, e).0.tables, e.at.end)
    ensures forall k :: k in s.tables.refresh ==> k in Step(cfg, s, e).0.tables.refresh
  {
  }

  /** An expired code or access token that is presented is deleted; the configured token is
      accepted whatever the tables hold, and changes nothing. */
  lemma PresentedExpiredIsDeleted(cfg: Config, s: State, client: string, k: Id, verified: bool, at: Times)
    ensures k in s.tables.codes && s.tables.codes[k].client == client && s.tables.codes[k].expires < at.check ==>
              k !in Step(cfg, s, Timed(Redeems(client, k, verified), at)).0.tables.codes
    ensures k in s.tables.access && (s.tables.access[k].expires as real) < at.check ==>
              k !in Step(cfg, s, Timed(Calls(k, false), at)).0.tables.access
    ensures Step(cfg, s, Timed(Calls(k, true), at)) == (State(s.tables, s.ledger, at.stamp), OfCall(Some(Static)))
  {
  }
}
