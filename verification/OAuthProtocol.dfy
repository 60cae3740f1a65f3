/** The OAuth server's tables and what its handlers do to them (pcbridge/auth.py). A handler
    does not suspend between its database calls, so each is one step; the clock may move
    inside it. Fresh requests, codes and tokens are numbers never used before, and a digest is
    identified with the value it is the digest of. */
module OAuthProtocol {
  import opened Wrappers

  type Id = nat

  datatype Config = Config(codeTtl: int, accessTtl: int, refreshTtl: int, maxFailed: int, lockout: int)

  // ----------------------------------------------------------------- tables

  datatype Pending = Pending(client: string, scopes: seq<string>, expires: real)
  datatype Code = Code(client: string, scopes: seq<string>, expires: real)
  datatype Access = Access(client: string, scopes: seq<string>, expires: int)
  datatype Refresh = Refresh(client: string, scopes: seq<string>, expires: Option<int>, access: Id)
  datatype Attempt = Attempt(count: nat, lockedUntil: real)

  datatype Tables = Tables(
    pending: map<Id, Pending>,
    codes: map<Id, Code>,
    access: map<Id, Access>,
    refresh: map<Id, Refresh>,
    attempts: map<string, Attempt>)

  function Without<K, V>(m: map<K, V>, key: K): map<K, V> {
    m - {key}
  }

  /** When the handler reads the clock. */
  datatype Times = Times(check: real, peek: real, end: real, stamp: real)

  function Authorize(cfg: Config, t: Tables, rid: Id, client: string, scopes: seq<string>, now: real): Tables {
    t.(pending := t.pending[rid := Pending(client, scopes, now + cfg.codeTtl as real)])
  }

  // ---------------------------------------------------------------- consent

  /** How long an address must still wait. */
  function IsLocked(t: Tables, ip: string, now: real): real {
    if ip in t.attempts && t.attempts[ip].lockedUntil - now > 0.0 then t.attempts[ip].lockedUntil - now else 0.0
  }

  function RecordFailure(cfg: Config, t: Tables, ip: string, now: real): Tables {
    var count := (if ip in t.attempts then t.attempts[ip].count else 0) + 1;
    var lockedUntil := if count >= cfg.maxFailed then now + cfg.lockout as real else 0.0;
    t.(attempts := t.attempts[ip := Attempt(count, lockedUntil)])
  }

  predicate Waiting(t: Tables, rid: Id, now: real) {
    rid in t.pending && t.pending[rid].expires >= now
  }

  datatype ConsentReply = NoPassword | LockedOut | Invalid | WrongPassword | Expired | Granted

  /** How the consent form is answered; `ok` is what the password check says, `configured`
      whether there is a password. */
  function JudgeConsent(t: Tables, configured: bool, ip: string, rid: Id, ok: bool, at: Times): ConsentReply {
    if !configured then NoPassword
    else if IsLocked(t, ip, at.check) > 0.0 then LockedOut
    else if !Waiting(t, rid, at.peek) then Invalid
    else if !ok then WrongPassword
    else if Waiting(t, rid, at.end) then Granted else Expired
  }

  function Dismissed(t: Tables, ip: string, rid: Id): Tables {
    t.(attempts := Without(t.attempts, ip), pending := Without(t.pending, rid))
  }

  /** The request is replaced by a code that grants what it asked for. */
  function ApprovedTables(t: Tables, ip: string, rid: Id, code: Id, expires: real): Tables
    requires rid in t.pending
  {
    Dismissed(t, ip, rid).(codes := t.codes[code := Code(t.pending[rid].client, t.pending[rid].scopes, expires)])
  }

  function AfterConsent(cfg: Config, t: Tables, ip: string, rid: Id, code: Id, reply: ConsentReply, at: Times): Tables
    requires reply.Granted? ==> rid in t.pending
  {
    match reply
    case WrongPassword => RecordFailure(cfg, t, ip, at.end)
    case Expired => Dismissed(t, ip, rid)
    case Granted => ApprovedTables(t, ip, rid, code, at.stamp + cfg.codeTtl as real)
    case _ => t
  }

  // ----------------------------------------------------------------- tokens

  function Gc(t: Tables, now: real): Tables {
    t.(codes := map k | k in t.codes && t.codes[k].expires >= now :: t.codes[k],
       pending := map k | k in t.pending && t.pending[k].expires >= now :: t.pending[k],
       access := map k | k in t.access && t.access[k].expires as real >= now :: t.access[k])
  }

  function AccessFor(cfg: Config, client: string, scopes: seq<string>, now: real): Access {
    Access(client, scopes, (now + cfg.accessTtl as real).Floor)
  }

  function RefreshFor(cfg: Config, client: string, scopes: seq<string>, access: Id, now: real): Refresh {
    Refresh(client, scopes, if cfg.refreshTtl != 0 then Some((now + cfg.refreshTtl as real).Floor) else None, access)
  }

  datatype TokenReply = Denied | Tokens(access: Id, refresh: Id, scopes: seq<string>)

  predicate CodeExpired(t: Tables, client: string, code: Id, now: real) {
    code in t.codes && t.codes[code].client == client && t.codes[code].expires < now
  }

  /** A code can be exchanged by its own client, in time; `verified` stands for the checks made
      between loading the code and exchanging it (redirect address and proof key). */
  predicate CanRedeem(t: Tables, client: string, code: Id, verified: bool, now: real) {
    code in t.codes && t.codes[code].client == client && t.codes[code].expires >= now && verified
  }

  /** The tables right after a code was replaced by its tokens. */
  function Minted(t: Tables, n: Id, code: Id, access: Access, refresh: Refresh): Tables {
    t.(codes := Without(t.codes, code), access := t.access[n := access], refresh := t.refresh[n + 1 := refresh])
  }

  /** Presenting an expired code removes it. */
  function AfterDenial(t: Tables, client: string, code: Id, now: real): Tables {
    if CodeExpired(t, client, code, now) then t.(codes := Without(t.codes, code)) else t
  }

  /** The two tokens are numbered `n` and `n + 1`. */
  function Redeemed(cfg: Config, t: Tables, n: Id, code: Id, at: Times): Tables
    requires code in t.codes
  {
    var c := t.codes[code];
    Gc(Minted(t, n, code, AccessFor(cfg, c.client, c.scopes, at.peek), RefreshFor(cfg, c.client, c.scopes, n, at.peek)), at.end)
  }

  predicate Within(scopes: seq<string>, granted: seq<string>) {
    forall i :: 0 <= i < |scopes| ==> scopes[i] in granted
  }

  predicate RefreshLive(t: Tables, client: string, token: Id, now: real) {
    && token in t.refresh && t.refresh[token].client == client
    && (t.refresh[token].expires.Some? ==> now <= t.refresh[token].expires.value as real)
  }

  predicate CanRefresh(t: Tables, client: string, token: Id, scopes: seq<string>, now: real) {
    RefreshLive(t, client, token, now) && Within(scopes, t.refresh[token].scopes)
  }

  /** No scopes asked for means all of them. */
  function ScopesFor(t: Tables, token: Id, scopes: seq<string>): seq<string>
    requires token in t.refresh
  {
    if scopes != [] then scopes else t.refresh[token].scopes
  }

  /** The refresh row stays, its old access token is gone and the new one is linked. */
  function RenewedTables(t: Tables, n: Id, token: Id, access: Access): Tables
    requires token in t.refresh
  {
    t.(access := Without(t.access, t.refresh[token].access)[n := access],
       refresh := t.refresh[token := t.refresh[token].(access := n)])
  }

  function Refreshed(cfg: Config, t: Tables, n: Id, token: Id, scopes: seq<string>, at: Times): Tables
    requires token in t.refresh
  {
    Gc(RenewedTables(t, n, token, AccessFor(cfg, t.refresh[token].client, ScopesFor(t, token, scopes), at.peek)), at.end)
  }

  datatype Bearer = Static | Holder(client: string, scopes: seq<string>)

  predicate AccessExpired(t: Tables, token: Id, now: real) {
    token in t.access && (t.access[token].expires as real) < now
  }

  /** `isStatic` is what the comparison with the configured token says. */
  function BearerOf(t: Tables, token: Id, isStatic: bool, now: real): Option<Bearer> {
    if isStatic then Some(Static)
    else if token !in t.access || AccessExpired(t, token, now) then None
    else Some(Holder(t.access[token].client, t.access[token].scopes))
  }

  /** Presenting an expired token removes it. */
  function AfterCall(t: Tables, token: Id, isStatic: bool, now: real): Tables {
    if !isStatic && AccessExpired(t, token, now) then t.(access := Without(t.access, token)) else t
  }

  function Revoke(t: Tables, token: Id): Tables {
    t.(access := Without(t.access, token), refresh := Without(t.refresh, token))
  }

  // ------------------------------------------------------------------- runs

  datatype Request = Request(client: string, scopes: seq<string>)
  datatype Grant = Grant(rid: Id, client: string, scopes: seq<string>)

  /** What happened so far, none of it stored: who asked for what, which requests were
      approved with the right password, what each code granted, which code every token came
      from, which codes were exchanged, and when an address failed since it last succeeded. */
  datatype Ledger = Ledger(
    next: Id,
    requested: map<Id, Request>,
    approved: set<Id>,
    granted: map<Id, Grant>,
    origin: map<Id, Id>,
    exchanged: seq<Id>,
    failures: map<string, seq<real>>)

  datatype State = State(tables: Tables, ledger: Ledger, clock: real)

  const Start: State := State(Tables(map[], map[], map[], map[], map[]), Ledger(0, map[], {}, map[], map[], [], map[]), 0.0)

  datatype Event =
    | Asks(client: string, scopes: seq<string>)
    | Consents(configured: bool, ip: string, rid: Id, ok: bool)
    | Redeems(client: string, code: Id, verified: bool)
    | Refreshes(client: string, token: Id, scopes: seq<string>)
    | Calls(token: Id, isStatic: bool)
    | Revokes(token: Id)

  /** An event and the clock readings its handler makes. */
  datatype Timed = Timed(event: Event, at: Times)

  datatype Reply = Silent | OfConsent(consent: ConsentReply) | OfTokens(tokens: TokenReply) | OfCall(bearer: Option<Bearer>)

  function Failures(l: Ledger, ip: string): seq<real> {
    if ip in l.failures then l.failures[ip] else []
  }

  function Asked(l: Ledger, r: Request): Ledger {
    l.(next := l.next + 1, requested := l.requested[l.next := r])
  }

  function Cleared(l: Ledger, ip: string, rid: Id): Ledger {
    l.(approved := l.approved + {rid}, failures := Without(l.failures, ip))
  }

  function Approved(l: Ledger, rid: Id, p: Pending): Ledger {
    l.(next := l.next + 1, granted := l.granted[l.next := Grant(rid, p.client, p.scopes)])
  }

  function Failed(l: Ledger, ip: string, now: real): Ledger {
    l.(failures := l.failures[ip := Failures(l, ip) + [now]])
  }

  function NoteConsent(t: Tables, l: Ledger, ip: string, rid: Id, reply: ConsentReply, at: Times): Ledger
    requires reply.Granted? ==> rid in t.pending
  {
    match reply
    case WrongPassword => Failed(l, ip, at.end)
    case Expired => Cleared(l, ip, rid)
    case Granted => Approved(Cleared(l, ip, rid), rid, t.pending[rid])
    case _ => l
  }

  function Exchanged(l: Ledger, code: Id): Ledger {
    l.(next := l.next + 2, exchanged := l.exchanged + [code], origin := l.origin[l.next := code][l.next + 1 := code])
  }

  function Renewed(l: Ledger, token: Id): Ledger {
    l.(next := l.next + 2, origin := if token in l.origin then l.origin[l.next := l.origin[token]] else l.origin)
  }

  function Step(cfg: Config, s: State, e: Timed): (State, Reply) {
    var (t, l, at) := (s.tables, s.ledger, e.at);
    match e.event
    case Asks(client, scopes) =>
      (State(Authorize(cfg, t, l.next, client, scopes, at.check), Asked(l, Request(client, scopes)), at.stamp), Silent)
    case Consents(configured, ip, rid, ok) =>
      var reply := JudgeConsent(t, configured, ip, rid, ok, at);
      (State(AfterConsent(cfg, t, ip, rid, l.next, reply, at), NoteConsent(t, l, ip, rid, reply, at), at.stamp), OfConsent(reply))
    case Redeems(client, code, verified) =>
      if CanRedeem(t, client, code, verified, at.check) then
        (State(Redeemed(cfg, t, l.next, code, at), Exchanged(l, code), at.stamp), OfTokens(Tokens(l.next, l.next + 1, t.codes[code].scopes)))
      else
        (State(AfterDenial(t, client, code, at.check), l, at.stamp), OfTokens(Denied))
    case Refreshes(client, token, scopes) =>
      if CanRefresh(t, client, token, scopes, at.check) then
        (State(Refreshed(cfg, t, l.next, token, scopes, at), Renewed(l, token), at.stamp), OfTokens(Tokens(l.next, token, ScopesFor(t, token, scopes))))
      else
        (State(t, l, at.stamp), OfTokens(Denied))
    case Calls(token, isStatic) =>
      (State(AfterCall(t, token, isStatic, at.check), l, at.stamp), OfCall(BearerOf(t, token, isStatic, at.check)))
    case Revokes(token) =>
      (State(Revoke(t, token), l, at.stamp), Silent)
  }

  predicate Ordered(clock: real, at: Times) {
    clock <= at.check <= at.peek <= at.end <= at.stamp
  }

  function Exec(cfg: Config, s: State, es: seq<Timed>): State {
    if es == [] then s else Step(cfg, Exec(cfg, s, es[..|es| - 1]), es[|es| - 1]).0
  }

  // -------------------------------------------------------------- invariant

  predicate GrantFits(l: Ledger, code: Id) {
    && code in l.granted
    && var g := l.granted[code];
    && g.rid in l.requested && g.rid in l.approved
    && l.requested[g.rid] == Request(g.client, g.scopes)
  }

  /** A token of the grant it came from, for its client, within its scopes. */
  predicate TokenFits(l: Ledger, token: Id, client: string, scopes: seq<string>) {
    && token < l.next
    && token in l.origin && l.origin[token] in l.granted && l.origin[token] in l.exchanged
    && l.granted[l.origin[token]].client == client
    && Within(scopes, l.granted[l.origin[token]].scopes)
  }

  ghost predicate LedgerInv(l: Ledger) {
    && (forall rid :: rid in l.requested ==> rid < l.next)
    && (forall token :: token in l.origin ==> token < l.next)
    && (forall code :: code in l.granted ==> code < l.next && GrantFits(l, code))
    && (forall c, d :: c in l.granted && d in l.granted && l.granted[c].rid == l.granted[d].rid ==> c == d)
    && (forall i, j :: 0 <= i < j < |l.exchanged| ==> l.exchanged[i] != l.exchanged[j])
    && (forall c :: c in l.exchanged ==> c in l.granted)
  }

  ghost predicate RequestsInv(t: Tables, l: Ledger) {
    && (forall rid :: rid in t.pending ==>
          rid in l.requested && l.requested[rid] == Request(t.pending[rid].client, t.pending[rid].scopes))
    && (forall c :: c in l.granted ==> l.granted[c].rid !in t.pending)
  }

  ghost predicate CodesInv(t: Tables, l: Ledger) {
    forall c :: c in t.codes ==>
      c in l.granted && c !in l.exchanged
      && l.granted[c].client == t.codes[c].client
      && l.granted[c].scopes == t.codes[c].scopes
  }

  ghost predicate TokensInv(t: Tables, l: Ledger) {
    && (forall a :: a in t.access ==> TokenFits(l, a, t.access[a].client, t.access[a].scopes))
    && (forall r :: r in t.refresh ==> TokenFits(l, r, t.refresh[r].client, t.refresh[r].scopes))
  }

  /** One access row and one refresh row at most for a grant, and the refresh row knows the
      access row. */
  ghost predicate LinksInv(access: map<Id, Access>, refresh: map<Id, Refresh>, origin: map<Id, Id>) {
    && access.Keys <= origin.Keys && refresh.Keys <= origin.Keys
    && (forall r :: r in refresh ==> refresh[r].access in origin)
    && (forall a, b :: a in access && b in access && origin[a] == origin[b] ==> a == b)
    && (forall a, b :: a in refresh && b in refresh && origin[a] == origin[b] ==> a == b)
    && (forall a, r :: a in access && r in refresh && origin[a] == origin[r] ==> refresh[r].access == a)
  }

  ghost predicate Inv(t: Tables, l: Ledger) {
    LedgerInv(l) && RequestsInv(t, l) && CodesInv(t, l) && TokensInv(t, l) && LinksInv(t.access, t.refresh, l.origin)
  }

  lemma StartInv()
    ensures Inv(Start.tables, Start.ledger)
  {
  }

  lemma WithinTrans(a: seq<string>, b: seq<string>, c: seq<string>)
    requires Within(a, b) && Within(b, c)
    ensures Within(a, c)
  {
  }

  predicate Part<V(==)>(m: map<Id, V>, of: map<Id, V>) {
    forall k :: k in m ==> k in of && m[k] == of[k]
  }

  predicate Fewer(t: Tables, of: Tables) {
    Part(t.pending, of.pending) && Part(t.codes, of.codes) && Part(t.access, of.access) && Part(t.refresh, of.refresh)
  }

  lemma GcIsFewer(t: Tables, now: real)
    ensures Fewer(Gc(t, now), t)
  {
  }

  /** Fewer rows, the same ledger: the invariant stays. */
  lemma FewerRows(of: Tables, t: Tables, l: Ledger)
    requires Inv(of, l) && Fewer(t, of)
    ensures Inv(t, l)
  {
  }

  /** The ledger only learns. */
  ghost predicate Learns(l: Ledger, more: Ledger) {
    && l.next <= more.next
    && Part(l.origin, more.origin) && Part(l.granted, more.granted) && Part(l.requested, more.requested)
    && l.approved <= more.approved
    && (forall c :: c in l.exchanged ==> c in more.exchanged)
  }

  lemma TokensStayFit(t: Tables, l: Ledger, more: Ledger)
    requires TokensInv(t, l) && Learns(l, more)
    ensures TokensInv(t, more)
  {
  }

  lemma GrantsStayFit(l: Ledger, more: Ledger, code: Id)
    requires LedgerInv(l) && Learns(l, more) && code in l.granted
    ensures code in more.granted && GrantFits(more, code) && code < l.next
  {
    assert GrantFits(l, code);
  }

  // Asking.

  lemma AskedInv(cfg: Config, t: Tables, l: Ledger, client: string, scopes: seq<string>, now: real)
    requires Inv(t, l)
    ensures Inv(Authorize(cfg, t, l.next, client, scopes, now), Asked(l, Request(client, scopes)))
  {
    var more := Asked(l, Request(client, scopes));
    assert Learns(l, more);
    forall code | code in more.granted
      ensures code < more.next && GrantFits(more, code) && more.granted[code].rid != l.next
    {
      GrantsStayFit(l, more, code);
      assert GrantFits(l, code);
    }
    TokensStayFit(t, l, more);
  }

  // Approving.

  lemma ApprovedLedger(l: Ledger, rid: Id, p: Pending)
    requires LedgerInv(l) && rid in l.requested && rid in l.approved
    requires l.requested[rid] == Request(p.client, p.scopes)
    requires forall c :: c in l.granted ==> l.granted[c].rid != rid
    ensures LedgerInv(Approved(l, rid, p)) && Learns(l, Approved(l, rid, p))
  {
    var more := Approved(l, rid, p);
    forall code | code in more.granted
      ensures code < more.next && GrantFits(more, code)
    {
      if code != l.next {
        GrantsStayFit(l, more, code);
      }
    }
  }

  lemma ApprovedCodes(t: Tables, l: Ledger, rid: Id, p: Pending, expires: real)
    requires LedgerInv(l) && CodesInv(t, l)
    ensures CodesInv(t.(codes := t.codes[l.next := Code(p.client, p.scopes, expires)]), Approved(l, rid, p))
  {
    assert l.next !in l.granted && l.next !in l.exchanged;
  }

  /** Approvals and failures noted, nothing else: the invariant stays. */
  lemma NotedInv(t: Tables, l: Ledger, approved: set<Id>, failures: map<string, seq<real>>, attempts: map<string, Attempt>)
    requires Inv(t, l) && l.approved <= approved
    ensures Inv(t.(attempts := attempts), l.(approved := approved, failures := failures))
  {
    var more := l.(approved := approved, failures := failures);
    forall code | code in more.granted
      ensures code < more.next && GrantFits(more, code)
    {
      GrantsStayFit(l, more, code);
    }
    TokensStayFit(t, l, more);
  }

  lemma ApprovedInv(t: Tables, l: Ledger, ip: string, rid: Id, code: Id, expires: real)
    requires Inv(t, l) && rid in t.pending && rid in l.approved && code == l.next
    ensures Inv(ApprovedTables(t, ip, rid, code, expires), Approved(l, rid, t.pending[rid]))
  {
    var p := t.pending[rid];
    ApprovedLedger(l, rid, p);
    ApprovedCodes(t, l, rid, p, expires);
    TokensStayFit(t, l, Approved(l, rid, p));
  }

  lemma ClearedInv(t: Tables, l: Ledger, ip: string, rid: Id)
    requires Inv(t, l)
    ensures Inv(t, Cleared(l, ip, rid))
  {
    NotedInv(t, l, l.approved + {rid}, Without(l.failures, ip), t.attempts);
  }

  lemma GrantedInv(t: Tables, l: Ledger, ip: string, rid: Id, expires: real)
    requires Inv(t, l) && rid in t.pending
    ensures Inv(ApprovedTables(t, ip, rid, l.next, expires), Approved(Cleared(l, ip, rid), rid, t.pending[rid]))
  {
    ClearedInv(t, l, ip, rid);
    ApprovedInv(t, Cleared(l, ip, rid), ip, rid, l.next, expires);
  }

  lemma DismissedInv(t: Tables, l: Ledger, ip: string, rid: Id)
    requires Inv(t, l)
    ensures Inv(Dismissed(t, ip, rid), Cleared(l, ip, rid))
  {
    ClearedInv(t, l, ip, rid);
    FewerRows(t, Dismissed(t, ip, rid), Cleared(l, ip, rid));
  }

  lemma FailedInv(cfg: Config, t: Tables, l: Ledger, ip: string, now: real)
    requires Inv(t, l)
    ensures Inv(RecordFailure(cfg, t, ip, now), Failed(l, ip, now))
  {
    NotedInv(t, l, l.approved, l.failures[ip := Failures(l, ip) + [now]], RecordFailure(cfg, t, ip, now).attempts);
  }

  lemma GrantedTermsInv(t: Tables, l: Ledger, ip: string, rid: Id, expires: real, after: Tables, noted: Ledger)
    requires Inv(t, l) && rid in t.pending
    requires after == ApprovedTables(t, ip, rid, l.next, expires) && noted == Approved(Cleared(l, ip, rid), rid, t.pending[rid])
    ensures Inv(after, noted)
  {
    GrantedInv(t, l, ip, rid, expires);
  }

  lemma ConsentGrantedInv(cfg: Config, t: Tables, l: Ledger, ip: string, rid: Id, at: Times)
    requires Inv(t, l) && rid in t.pending
    ensures Inv(AfterConsent(cfg, t, ip, rid, l.next, Granted, at), NoteConsent(t, l, ip, rid, Granted, at))
  {
    GrantedTermsInv(t, l, ip, rid, at.stamp + cfg.codeTtl as real,
                    AfterConsent(cfg, t, ip, rid, l.next, Granted, at), NoteConsent(t, l, ip, rid, Granted, at));
  }

  lemma ConsentExpiredInv(cfg: Config, t: Tables, l: Ledger, ip: string, rid: Id, at: Times)
    requires Inv(t, l)
    ensures Inv(AfterConsent(cfg, t, ip, rid, l.next, Expired, at), NoteConsent(t, l, ip, rid, Expired, at))
  {
    DismissedInv(t, l, ip, rid);
  }

  lemma ConsentWrongInv(cfg: Config, t: Tables, l: Ledger, ip: string, rid: Id, at: Times)
    requires Inv(t, l)
    ensures Inv(AfterConsent(cfg, t, ip, rid, l.next, WrongPassword, at), NoteConsent(t, l, ip, rid, WrongPassword, at))
  {
    FailedInv(cfg, t, l, ip, at.end);
  }

  lemma ConsentInv(cfg: Config, t: Tables, l: Ledger, ip: string, rid: Id, reply: ConsentReply, at: Times)
    requires Inv(t, l) && (reply.Granted? ==> rid in t.pending)
    ensures Inv(AfterConsent(cfg, t, ip, rid, l.next, reply, at), NoteConsent(t, l, ip, rid, reply, at))
  {
    match reply
    case WrongPassword => ConsentWrongInv(cfg, t, l, ip, rid, at);
    case Expired => ConsentExpiredInv(cfg, t, l, ip, rid, at);
    case Granted => ConsentGrantedInv(cfg, t, l, ip, rid, at);
    case _ =>
  }

  // Exchanging a code.

  lemma ExchangedLedger(l: Ledger, code: Id)
    requires LedgerInv(l) && code in l.granted && code !in l.exchanged
    ensures LedgerInv(Exchanged(l, code)) && Learns(l, Exchanged(l, code))
  {
    var more := Exchanged(l, code);
    assert Learns(l, more);
    forall c | c in more.granted
      ensures c < more.next && GrantFits(more, c)
    {
      GrantsStayFit(l, more, c);
    }
  }

  lemma TokensMore(t: Tables, l: Ledger, n: Id, access: Access, refresh: Refresh)
    requires TokensInv(t, l)
    requires TokenFits(l, n, access.client, access.scopes) && TokenFits(l, n + 1, refresh.client, refresh.scopes)
    ensures TokensInv(t.(access := t.access[n := access], refresh := t.refresh[n + 1 := refresh]), l)
  {
  }

  lemma MintedLinks(access: map<Id, Access>, refresh: map<Id, Refresh>, origin: map<Id, Id>, n: Id, code: Id, a: Access, r: Refresh)
    requires LinksInv(access, refresh, origin) && r.access == n
    requires n !in origin && n + 1 !in origin
    requires forall k :: k in access || k in refresh ==> origin[k] != code
    ensures LinksInv(access[n := a], refresh[n + 1 := r], origin[n := code][n + 1 := code])
  {
  }

  lemma NoTokensYet(t: Tables, l: Ledger, code: Id)
    requires TokensInv(t, l) && LinksInv(t.access, t.refresh, l.origin) && code !in l.exchanged
    ensures forall k :: k in t.access || k in t.refresh ==> l.origin[k] != code
  {
  }

  lemma MintedCodes(t: Tables, l: Ledger, code: Id, access: Access, refresh: Refresh)
    requires RequestsInv(t, l) && CodesInv(t, l)
    ensures RequestsInv(Minted(t, l.next, code, access, refresh), Exchanged(l, code))
    ensures CodesInv(Minted(t, l.next, code, access, refresh), Exchanged(l, code))
  {
  }

  lemma MintedFits(t: Tables, l: Ledger, code: Id, client: string, scopes: seq<string>)
    requires CodesInv(t, l) && code in t.codes && client == t.codes[code].client && scopes == t.codes[code].scopes
    ensures TokenFits(Exchanged(l, code), l.next, client, scopes) && TokenFits(Exchanged(l, code), l.next + 1, client, scopes)
  {
  }

  lemma MintedTokens(t: Tables, l: Ledger, code: Id, access: Access, refresh: Refresh)
    requires LedgerInv(l) && CodesInv(t, l) && TokensInv(t, l) && code in t.codes
    requires access.client == refresh.client == t.codes[code].client
    requires access.scopes == refresh.scopes == t.codes[code].scopes
    ensures TokensInv(Minted(t, l.next, code, access, refresh), Exchanged(l, code))
  {
    ExchangedLedger(l, code);
    TokensStayFit(t, l, Exchanged(l, code));
    MintedFits(t, l, code, access.client, access.scopes);
    TokensMore(t, Exchanged(l, code), l.next, access, refresh);
  }

  lemma NextIsFresh(l: Ledger)
    requires LedgerInv(l)
    ensures l.next !in l.origin && l.next + 1 !in l.origin
  {
  }

  lemma MintedMaps(t: Tables, l: Ledger, code: Id, access: Access, refresh: Refresh)
    ensures var after := Minted(t, l.next, code, access, refresh);
            && after.access == t.access[l.next := access]
            && after.refresh == t.refresh[l.next + 1 := refresh]
            && Exchanged(l, code).origin == l.origin[l.next := code][l.next + 1 := code]
  {
  }

  lemma MintedPairs(t: Tables, l: Ledger, code: Id, a: Access, r: Refresh, access: map<Id, Access>, refresh: map<Id, Refresh>, origin: map<Id, Id>)
    requires LinksInv(t.access, t.refresh, l.origin) && r.access == l.next
    requires l.next !in l.origin && l.next + 1 !in l.origin
    requires forall k :: k in t.access || k in t.refresh ==> l.origin[k] != code
    requires access == t.access[l.next := a] && refresh == t.refresh[l.next + 1 := r]
    requires origin == l.origin[l.next := code][l.next + 1 := code]
    ensures LinksInv(access, refresh, origin)
  {
    MintedLinks(t.access, t.refresh, l.origin, l.next, code, a, r);
  }

  lemma MintedInv(t: Tables, l: Ledger, code: Id, access: Access, refresh: Refresh)
    requires Inv(t, l) && code in t.codes && refresh.access == l.next
    requires access.client == refresh.client == t.codes[code].client
    requires access.scopes == refresh.scopes == t.codes[code].scopes
    ensures Inv(Minted(t, l.next, code, access, refresh), Exchanged(l, code))
  {
    ExchangedLedger(l, code);
    MintedCodes(t, l, code, access, refresh);
    MintedTokens(t, l, code, access, refresh);
    MintedMaps(t, l, code, access, refresh);
    NoTokensYet(t, l, code);
    NextIsFresh(l);
    var after := Minted(t, l.next, code, access, refresh);
    MintedPairs(t, l, code, access, refresh, after.access, after.refresh, Exchanged(l, code).origin);
  }

  lemma GcInv(t: Tables, l: Ledger, now: real)
    requires Inv(t, l)
    ensures Inv(Gc(t, now), l)
  {
    GcIsFewer(t, now);
    FewerRows(t, Gc(t, now), l);
  }

  lemma RedeemedInv(cfg: Config, t: Tables, l: Ledger, code: Id, at: Times)
    requires Inv(t, l) && code in t.codes
    ensures Inv(Redeemed(cfg, t, l.next, code, at), Exchanged(l, code))
  {
    var c := t.codes[code];
    var (access, refresh) := (AccessFor(cfg, c.client, c.scopes, at.peek), RefreshFor(cfg, c.client, c.scopes, l.next, at.peek));
    MintedInv(t, l, code, access, refresh);
    GcInv(Minted(t, l.next, code, access, refresh), Exchanged(l, code), at.end);
  }

  lemma DeniedInv(t: Tables, l: Ledger, client: string, code: Id, now: real)
    requires Inv(t, l)
    ensures Inv(AfterDenial(t, client, code, now), l)
  {
    FewerRows(t, AfterDenial(t, client, code, now), l);
  }

  // Refreshing.

  lemma RenewedLedger(l: Ledger, token: Id)
    requires LedgerInv(l)
    ensures LedgerInv(Renewed(l, token)) && Learns(l, Renewed(l, token))
  {
    var more := Renewed(l, token);
    assert l.next !in l.origin;
    assert Learns(l, more);
    forall c | c in more.granted
      ensures c < more.next && GrantFits(more, c)
    {
      GrantsStayFit(l, more, c);
    }
  }

  lemma RenewedTokens(t: Tables, l: Ledger, n: Id, token: Id, access: Access)
    requires TokensInv(t, l) && token in t.refresh
    requires TokenFits(l, n, access.client, access.scopes)
    ensures TokensInv(RenewedTables(t, n, token, access), l)
  {
  }

  lemma RenewedLinks(access: map<Id, Access>, refresh: map<Id, Refresh>, origin: map<Id, Id>, n: Id, token: Id, a: Access)
    requires LinksInv(access, refresh, origin) && token in refresh && n !in origin
    ensures LinksInv(Without(access, refresh[token].access)[n := a], refresh[token := refresh[token].(access := n)],
                     origin[n := origin[token]])
  {
  }

  lemma NewAccessFits(t: Tables, l: Ledger, token: Id, scopes: seq<string>)
    requires TokensInv(t, l) && token in t.refresh && Within(scopes, t.refresh[token].scopes)
    ensures TokenFits(Renewed(l, token), l.next, t.refresh[token].client, scopes)
  {
    var row := t.refresh[token];
    assert TokenFits(l, token, row.client, row.scopes);
    WithinTrans(scopes, row.scopes, l.granted[l.origin[token]].scopes);
  }

  lemma RenewedInv(t: Tables, l: Ledger, token: Id, access: Access)
    requires Inv(t, l) && token in t.refresh
    requires access.client == t.refresh[token].client && Within(access.scopes, t.refresh[token].scopes)
    ensures Inv(RenewedTables(t, l.next, token, access), Renewed(l, token))
  {
    RenewedLedger(l, token);
    TokensStayFit(t, l, Renewed(l, token));
    NewAccessFits(t, l, token, access.scopes);
    RenewedTokens(t, Renewed(l, token), l.next, token, access);
    RenewedLinks(t.access, t.refresh, l.origin, l.next, token, access);
  }

  lemma RefreshedInv(cfg: Config, t: Tables, l: Ledger, token: Id, scopes: seq<string>, at: Times)
    requires Inv(t, l) && token in t.refresh && Within(scopes, t.refresh[token].scopes)
    ensures Inv(Refreshed(cfg, t, l.next, token, scopes, at), Renewed(l, token))
  {
    var access := AccessFor(cfg, t.refresh[token].client, ScopesFor(t, token, scopes), at.peek);
    RenewedInv(t, l, token, access);
    GcInv(RenewedTables(t, l.next, token, access), Renewed(l, token), at.end);
  }

  // The rest.

  lemma CallInv(t: Tables, l: Ledger, token: Id, isStatic: bool, now: real)
    requires Inv(t, l)
    ensures Inv(AfterCall(t, token, isStatic, now), l)
  {
    FewerRows(t, AfterCall(t, token, isStatic, now), l);
  }

  lemma RevokeInv(t: Tables, l: Ledger, token: Id)
    requires Inv(t, l)
    ensures Inv(Revoke(t, token), l)
  {
    FewerRows(t, Revoke(t, token), l);
  }

  ghost predicate Sound(s: State) {
    Inv(s.tables, s.ledger)
  }

  lemma TokenStepInv(cfg: Config, s: State, e: Timed)
    requires Sound(s) && (e.event.Redeems? || e.event.Refreshes?)
    ensures Sound(Step(cfg, s, e).0)
  {
    var (t, l, at) := (s.tables, s.ledger, e.at);
    match e.event
    case Redeems(client, code, verified) =>
      if CanRedeem(t, client, code, verified, at.check) {
        RedeemedInv(cfg, t, l, code, at);
      } else {
        DeniedInv(t, l, client, code, at.check);
      }
    case Refreshes(client, token, scopes) =>
      if CanRefresh(t, client, token, scopes, at.check) {
        RefreshedInv(cfg, t, l, token, scopes, at);
      }
  }

  lemma ConsentStepInv(cfg: Config, s: State, e: Timed)
    requires Sound(s) && e.event.Consents?
    ensures Sound(Step(cfg, s, e).0)
  {
    var reply := JudgeConsent(s.tables, e.event.configured, e.event.ip, e.event.rid, e.event.ok, e.at);
    ConsentInv(cfg, s.tables, s.ledger, e.event.ip, e.event.rid, reply, e.at);
  }

  lemma StepInv(cfg: Config, s: State, e: Timed)
    requires Sound(s)
    ensures Sound(Step(cfg, s, e).0)
  {
    if e.event.Redeems? || e.event.Refreshes? {
      TokenStepInv(cfg, s, e);
    } else if e.event.Consents? {
      ConsentStepInv(cfg, s, e);
    } else {
      match e.event
      case Asks(client, scopes) => AskedInv(cfg, s.tables, s.ledger, client, scopes, e.at.check);
      case Calls(token, isStatic) => CallInv(s.tables, s.ledger, token, isStatic, e.at.check);
      case Revokes(token) => RevokeInv(s.tables, s.ledger, token);
    }
  }

  lemma {:induction false} RunInv(cfg: Config, es: seq<Timed>)
    ensures Sound(Exec(cfg, Start, es))
  {
    if es != [] {
      RunInv(cfg, es[..|es| - 1]);
      StepInv(cfg, Exec(cfg, Start, es[..|es| - 1]), es[|es| - 1]);
    }
  }
}
