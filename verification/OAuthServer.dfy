/** The provider object, whose handlers work on the database's tables (pcbridge/auth.py). */
module OAuthServer {
  import opened Wrappers
  import opened OAuthProtocol

  /** The refresh row whose access token was replaced. */
  function Relink(m: map<Id, Refresh>, token: Id, access: Id): map<Id, Refresh> {
    if token in m then m[token := m[token].(access := access)] else m
  }

  /** Inserting a second refresh row, linking the first and deleting the second is linking
      the first. */
  lemma RelinkIsUpdate(m: map<Id, Refresh>, token: Id, n: Id, r: Refresh)
    requires token in m && n + 1 !in m
    ensures Without(Relink(m[n + 1 := r], token, n), n + 1) == m[token := m[token].(access := n)]
  {
  }

  class Provider {
    const cfg: Config
    var pending: map<Id, Pending>
    var codes: map<Id, Code>
    var access: map<Id, Access>
    var refresh: map<Id, Refresh>
    var attempts: map<string, Attempt>

    ghost function Rows(): Tables
      reads this
    {
      Tables(pending, codes, access, refresh, attempts)
    }

    constructor (cfg: Config)
      ensures this.cfg == cfg && Rows() == Start.tables
    {
      this.cfg := cfg;
      pending, codes, access, refresh, attempts := map[], map[], map[], map[], map[];
    }

    method StartAuthorization(rid: Id, client: string, scopes: seq<string>, now: real)
      modifies this
      ensures Rows() == Authorize(cfg, old(Rows()), rid, client, scopes, now)
    {
      pending := pending[rid := Pending(client, scopes, now + cfg.codeTtl as real)];
    }

    method CheckLock(ip: string, now: real) returns (wait: real)
      ensures wait == IsLocked(Rows(), ip, now)
    {
      if ip !in attempts {
        return 0.0;
      }
      var remaining := attempts[ip].lockedUntil - now;
      return if remaining > 0.0 then remaining else 0.0;
    }

    method NoteFailure(ip: string, now: real)
      modifies this
      ensures Rows() == RecordFailure(cfg, old(Rows()), ip, now)
    {
      var count := if ip in attempts then attempts[ip].count + 1 else 1;
      attempts := attempts[ip := Attempt(count, if count >= cfg.maxFailed then now + cfg.lockout as real else 0.0)];
    }

    /** Takes the request out; makes a code of it if it is still in time. */
    method IssueCode(rid: Id, code: Id, now: real, stamp: real) returns (issued: bool)
      modifies this
      ensures issued == Waiting(old(Rows()), rid, now)
      ensures issued ==>
                Rows() == old(Rows()).(pending := Without(old(pending), rid),
                                       codes := old(codes)[code := Code(old(pending)[rid].client, old(pending)[rid].scopes, stamp + cfg.codeTtl as real)])
      ensures !issued ==> Rows() == old(Rows()).(pending := Without(old(pending), rid))
    {
      if rid !in pending {
        assert Without(pending, rid) == pending;
        return false;
      }
      var p := pending[rid];
      pending := Without(pending, rid);
      if p.expires < now {
        return false;
      }
      codes := codes[code := Code(p.client, p.scopes, stamp + cfg.codeTtl as real)];
      return true;
    }

    method Consent(configured: bool, ip: string, rid: Id, ok: bool, code: Id, at: Times) returns (reply: ConsentReply)
      modifies this
      ensures reply == JudgeConsent(old(Rows()), configured, ip, rid, ok, at)
      ensures Rows() == AfterConsent(cfg, old(Rows()), ip, rid, code, reply, at)
    {
      if !configured {
        return NoPassword;
      }
      var locked := CheckLock(ip, at.check);
      if locked > 0.0 {
        return LockedOut;
      }
      if !(rid in pending && pending[rid].expires >= at.peek) {
        return Invalid;
      }
      if !ok {
        NoteFailure(ip, at.end);
        return WrongPassword;
      }
      attempts := Without(attempts, ip);
      var issued := IssueCode(rid, code, at.end, at.stamp);
      return if issued then Granted else Expired;
    }

    method Sweep(now: real)
      modifies this
      ensures Rows() == Gc(old(Rows()), now)
    {
      codes := map k | k in codes && codes[k].expires >= now :: codes[k];
      pending := map k | k in pending && pending[k].expires >= now :: pending[k];
      access := map k | k in access && access[k].expires as real >= now :: access[k];
    }

    method NewTokens(client: string, scopes: seq<string>, n: Id, now: real, sweep: real)
      modifies this
      ensures Rows() == Gc(old(Rows()).(access := old(access)[n := AccessFor(cfg, client, scopes, now)],
                                        refresh := old(refresh)[n + 1 := RefreshFor(cfg, client, scopes, n, now)]), sweep)
    {
      access := access[n := AccessFor(cfg, client, scopes, now)];
      refresh := refresh[n + 1 := RefreshFor(cfg, client, scopes, n, now)];
      Sweep(sweep);
    }

    method LoadCode(client: string, code: Id, now: real) returns (row: Option<Code>)
      modifies this
      ensures row.Some? <==> CanRedeem(old(Rows()), client, code, true, now)
      ensures row.Some? ==> row.value == old(codes)[code] && Rows() == old(Rows())
      ensures row.None? ==> Rows() == AfterDenial(old(Rows()), client, code, now)
    {
      if code !in codes || codes[code].client != client {
        return None;
      }
      if codes[code].expires < now {
        codes := Without(codes, code);
        return None;
      }
      return Some(codes[code]);
    }

    /** The token endpoint for a code: load it, make the other checks, exchange it. */
    method RedeemCode(client: string, code: Id, verified: bool, n: Id, at: Times) returns (reply: TokenReply)
      modifies this
      ensures CanRedeem(old(Rows()), client, code, verified, at.check) ==>
                Rows() == Redeemed(cfg, old(Rows()), n, code, at) && reply == Tokens(n, n + 1, old(codes)[code].scopes)
      ensures !CanRedeem(old(Rows()), client, code, verified, at.check) ==>
                Rows() == AfterDenial(old(Rows()), client, code, at.check) && reply == Denied
    {
      var row := LoadCode(client, code, at.check);
      if row.None? || !verified {
        return Denied;
      }
      if code !in codes {
        return Denied;
      }
      codes := Without(codes, code);
      NewTokens(client, row.value.scopes, n, at.peek, at.end);
      return Tokens(n, n + 1, row.value.scopes);
    }

    /** The token endpoint for a refresh token. The handler makes a full pair of tokens, moves
        the new access token to the old refresh row and throws the new refresh row away. */
    method RedeemRefresh(client: string, token: Id, scopes: seq<string>, n: Id, at: Times) returns (reply: TokenReply)
      requires n + 1 !in refresh
      modifies this
      ensures CanRefresh(old(Rows()), client, token, scopes, at.check) ==>
                Rows() == Refreshed(cfg, old(Rows()), n, token, scopes, at)
                && reply == Tokens(n, token, ScopesFor(old(Rows()), token, scopes))
      ensures !CanRefresh(old(Rows()), client, token, scopes, at.check) ==>
                Rows() == old(Rows()) && reply == Denied
    {
      if token !in refresh || refresh[token].client != client {
        return Denied;
      }
      var row := refresh[token];
      if row.expires.Some? && (row.expires.value as real) < at.check {
        return Denied;
      }
      if scopes != [] && !Within(scopes, row.scopes) {
        return Denied;
      }
      var granted := if scopes != [] then scopes else row.scopes;
      access := Without(access, row.access);
      ghost var before := refresh;
      NewTokens(client, granted, n, at.peek, at.end);
      refresh := Relink(refresh, token, n);
      refresh := Without(refresh, n + 1);
      RelinkIsUpdate(before, token, n, RefreshFor(cfg, client, granted, n, at.peek));
      return Tokens(n, token, granted);
    }

    method CheckAccess(token: Id, isStatic: bool, now: real) returns (bearer: Option<Bearer>)
      modifies this
      ensures bearer == BearerOf(old(Rows()), token, isStatic, now)
      ensures Rows() == AfterCall(old(Rows()), token, isStatic, now)
    {
      if isStatic {
        return Some(Static);
      }
      if token !in access {
        return None;
      }
      if (access[token].expires as real) < now {
        access := Without(access, token);
        return None;
      }
      return Some(Holder(access[token].client, access[token].scopes));
    }

    method RevokeToken(token: Id)
      modifies this
      ensures Rows() == Revoke(old(Rows()), token)
    {
      access := Without(access, token);
      refresh := Without(refresh, token);
    }

    /** Every event is handled as the protocol says, as long as the numbers given out are
        fresh: the invariant then makes sure the handlers' own requirement is met. */
    method Handle(e: Timed, n: Id, ghost s: State) returns (reply: Reply)
      requires Rows() == s.tables && Sound(s) && n == s.ledger.next
      modifies this
      ensures Rows() == Step(cfg, s, e).0.tables && reply == Step(cfg, s, e).1
    {
      match e.event
      case Asks(client, scopes) =>
        StartAuthorization(n, client, scopes, e.at.check);
        reply := Silent;
      case Consents(configured, ip, rid, ok) =>
        var r := Consent(configured, ip, rid, ok, n, e.at);
        reply := OfConsent(r);
      case Redeems(client, code, verified) =>
        var r := RedeemCode(client, code, verified, n, e.at);
        reply := OfTokens(r);
      case Refreshes(client, token, scopes) =>
        NextIsUnused(s);
        var r := RedeemRefresh(client, token, scopes, n, e.at);
        reply := OfTokens(r);
      case Calls(token, isStatic) =>
        var r := CheckAccess(token, isStatic, e.at.check);
        reply := OfCall(r);
      case Revokes(token) =>
        RevokeToken(token);
        reply := Silent;
    }
  }

  lemma NextIsUnused(s: State)
    requires Sound(s)
    ensures s.ledger.next + 1 !in s.tables.refresh
  {
  }
}
