/** One-time file links (pcbridge/filelinks.py): ready, busy, spent, a clock and a bounded
    number of live links. Every operation holds the store's lock, so it is one step. */
module LinkProtocol {
  import opened Wrappers

  datatype Direction = Download | Upload
  datatype Phase = Ready | Busy | Spent
  datatype Reason = Used | Expired

  /** The changing part of a link, and when it stops being claimable. */
  datatype Link = Link(direction: Direction, expiresAt: real, state: Phase, refused: set<Reason>)

  const MAX_LIVE := 16
  const REMEMBER_SECONDS: real := 3600.0

  predicate IsLive(l: Link, now: real) {
    l.state == Busy || (l.state == Ready && l.expiresAt > now)
  }

  /** Why a link of the right direction cannot be used, if there is something to say. */
  function Refusal(l: Link, now: real): Option<Reason> {
    if l.state == Spent then Some(Used)
    else if l.state == Ready && l.expiresAt <= now then Some(Expired)
    else None
  }

  predicate Usable(l: Link, now: real) {
    l.state == Ready && l.expiresAt > now
  }

  /** `_find` on the link it found. */
  function Touch(l: Link, now: real, claim: bool): Link {
    if Refusal(l, now).Some? then l.(refused := l.refused + {Refusal(l, now).value})
    else if Usable(l, now) && claim then l.(state := Busy)
    else l
  }

  /** The refusal is worth a record only the first time. */
  predicate Records(l: Link, now: real) {
    Refusal(l, now).Some? && Refusal(l, now).value !in l.refused
  }

  // -------------------------------------------------------------------- state

  /** All links ever made, those the store still remembers, the transfers under way, and
      what was completed and recorded for each link. */
  datatype State = State(
    now: real,
    links: map<nat, Link>,
    store: set<nat>,
    transfers: map<nat, nat>,
    completed: multiset<nat>,
    records: multiset<nat>)

  const Start: State := State(0.0, map[], {}, map[], multiset{}, multiset{})

  /** How a transfer ends: cut off, finished, or refused for good. */
  datatype Outcome = Release | Complete | GiveUp

  datatype Event =
    | Tick(seconds: real)
    | Create(key: nat, direction: Direction, ttl: real)
    | Lookup(key: nat, direction: Direction)
    | Claim(key: nat, direction: Direction, transfer: nat)
    | Finish(transfer: nat, outcome: Outcome)

  predicate Enabled(s: State, e: Event) {
    match e
    case Tick(seconds) => seconds >= 0.0
    case Create(key, _, _) => key !in s.links
    case Lookup(_, _) => true
    case Claim(_, _, transfer) => transfer !in s.transfers
    case Finish(transfer, _) => transfer in s.transfers && s.transfers[transfer] in s.links
  }

  function Sweep(s: State): State {
    s.(store := set k | k in s.store && k in s.links && s.links[k].expiresAt + REMEMBER_SECONDS >= s.now)
  }

  function LiveKeys(s: State): set<nat> {
    set k | k in s.store && k in s.links && IsLive(s.links[k], s.now)
  }

  predicate Known(s: State, key: nat, d: Direction) {
    key in s.store && key in s.links && s.links[key].direction == d
  }

  function Found(s: State, key: nat, d: Direction, claim: bool): State {
    if !Known(s, key, d) then s
    else s.(links := s.links[key := Touch(s.links[key], s.now, claim)],
            records := if Records(s.links[key], s.now) then s.records + multiset{key} else s.records)
  }

  predicate Claimable(s: State, key: nat, d: Direction) {
    Known(s, key, d) && Usable(s.links[key], s.now)
  }

  function Released(l: Link): Link {
    if l.state == Busy then l.(state := Ready) else l
  }

  function Step(s: State, e: Event): State
    requires Enabled(s, e)
  {
    match e
    case Tick(seconds) => s.(now := s.now + seconds)
    case Create(key, d, ttl) =>
      var s' := Sweep(s);
      if |LiveKeys(s')| >= MAX_LIVE then s'
      else s'.(links := s'.links[key := Link(d, s'.now + ttl, Ready, {})], store := s'.store + {key})
    case Lookup(key, d) => Found(s, key, d, false)
    case Claim(key, d, transfer) =>
      var s' := Found(s, key, d, true);
      if Claimable(s, key, d) then s'.(transfers := s'.transfers[transfer := key]) else s'
    case Finish(transfer, outcome) =>
      var key := s.transfers[transfer];
      var l := s.links[key];
      s.(links := s.links[key := if outcome.Release? then Released(l) else l.(state := Spent)],
         transfers := s.transfers - {transfer},
         completed := if outcome.Complete? then s.completed + multiset{key} else s.completed)
  }

  predicate ValidRun(s: State, es: seq<Event>)
    decreases |es|
  {
    es == [] || (Enabled(s, es[0]) && ValidRun(Step(s, es[0]), es[1..]))
  }

  function Exec(s: State, es: seq<Event>): State
    requires ValidRun(s, es)
    decreases |es|
  {
    if es == [] then s else Exec(Step(s, es[0]), es[1..])
  }

  // --------------------------------------------------------------- invariants

  /** A link is busy exactly while one transfer holds it. */
  ghost predicate OneHolder(s: State) {
    && (forall t :: t in s.transfers ==> s.transfers[t] in s.links && s.links[s.transfers[t]].state == Busy)
    && (forall t, u :: t in s.transfers && u in s.transfers && s.transfers[t] == s.transfers[u] ==> t == u)
    && (forall k :: k in s.links && s.links[k].state == Busy ==> exists t :: t in s.transfers && s.transfers[t] == k)
  }

  ghost predicate LinkOk(s: State, k: nat) {
    && (k !in s.links ==> s.completed[k] == 0 && s.records[k] == 0)
    && (k in s.links ==> var l := s.links[k];
          && s.completed[k] <= 1 && (s.completed[k] == 1 ==> l.state == Spent)
          && s.records[k] == |l.refused|
          && l.refused <= (if l.state == Spent then {Used}
                           else if l.state == Ready && l.expiresAt <= s.now then {Expired} else {}))
  }

  ghost predicate Inv(s: State) {
    && s.store <= s.links.Keys
    && OneHolder(s)
    && (forall k :: LinkOk(s, k))
    && |LiveKeys(s)| <= MAX_LIVE
  }

  lemma {:induction false} SubsetSize<T>(a: set<T>, b: set<T>)
    requires a <= b
    ensures |a| <= |b|
  {
    if a != {} {
      var x :| x in a;
      SubsetSize(a - {x}, b - {x});
    }
  }

  lemma StartInv()
    ensures Inv(Start)
  {
    assert LiveKeys(Start) == {};
  }

  lemma HoldersKept(s: State, e: Event)
    requires Inv(s) && Enabled(s, e) && !e.Claim?
    ensures OneHolder(Step(s, e)) && Step(s, e).store <= Step(s, e).links.Keys
  {
    var s' := Step(s, e);
    forall k | k in s'.links && s'.links[k].state == Busy
      ensures exists t :: t in s'.transfers && s'.transfers[t] == k
    {
      assert k in s.links && s.links[k].state == Busy;
      var t :| t in s.transfers && s.transfers[t] == k;
      assert t in s'.transfers;
    }
  }

  lemma ClaimKeepsHolders(s: State, key: nat, d: Direction, transfer: nat)
    requires Inv(s) && Enabled(s, Claim(key, d, transfer))
    ensures var s' := Step(s, Claim(key, d, transfer)); OneHolder(s') && s'.store <= s'.links.Keys
  {
    var s' := Step(s, Claim(key, d, transfer));
    forall k | k in s'.links && s'.links[k].state == Busy
      ensures exists t :: t in s'.transfers && s'.transfers[t] == k
    {
      if k == key && Claimable(s, key, d) {
        assert s'.transfers[transfer] == k;
      } else {
        assert s.links[k].state == Busy;
        var t :| t in s.transfers && s.transfers[t] == k;
        assert t in s'.transfers && s'.transfers[t] == k;
      }
    }
  }

  /** One more reason is recorded only for a link that had none. */
  lemma RefusalCounts(l: Link, now: real)
    requires l.refused <= (if l.state == Spent then {Used} else if l.state == Ready && l.expiresAt <= now then {Expired} else {})
    requires Refusal(l, now).Some?
    ensures |Touch(l, now, true).refused| == |l.refused| + if Records(l, now) then 1 else 0
  {
    if Records(l, now) {
      assert l.refused == {};
    } else {
      assert l.refused + {Refusal(l, now).value} == l.refused;
    }
  }

  lemma FoundKeepsLink(s: State, key: nat, d: Direction, claim: bool, k: nat)
    requires LinkOk(s, k)
    ensures LinkOk(Found(s, key, d, claim), k)
  {
    if k == key && Known(s, key, d) && Refusal(s.links[k], s.now).Some? {
      RefusalCounts(s.links[k], s.now);
    }
  }

  lemma FinishKeepsLink(s: State, transfer: nat, outcome: Outcome, k: nat)
    requires OneHolder(s) && LinkOk(s, k) && Enabled(s, Finish(transfer, outcome))
    ensures LinkOk(Step(s, Finish(transfer, outcome)), k)
  {
  }

  lemma LinkKept(s: State, e: Event, k: nat)
    requires Inv(s) && Enabled(s, e)
    ensures LinkOk(Step(s, e), k)
  {
    assert LinkOk(s, k);
    match e
    case Lookup(key, d) => FoundKeepsLink(s, key, d, false, k);
    case Claim(key, d, _) => FoundKeepsLink(s, key, d, true, k);
    case Finish(transfer, outcome) => FinishKeepsLink(s, transfer, outcome, k);
    case _ =>
  }

  lemma LiveKept(s: State, e: Event)
    requires Inv(s) && Enabled(s, e)
    ensures |LiveKeys(Step(s, e))| <= MAX_LIVE
  {
    var s' := Step(s, e);
    if e.Create? {
      SubsetSize(LiveKeys(Sweep(s)), LiveKeys(s));
      if |LiveKeys(Sweep(s))| < MAX_LIVE {
        SubsetSize(LiveKeys(s'), LiveKeys(Sweep(s)) + {e.key});
      }
    } else {
      SubsetSize(LiveKeys(s'), LiveKeys(s));
    }
  }

  lemma StepInv(s: State, e: Event)
    requires Inv(s) && Enabled(s, e)
    ensures Inv(Step(s, e))
  {
    if e.Claim? {
      ClaimKeepsHolders(s, e.key, e.direction, e.transfer);
    } else {
      HoldersKept(s, e);
    }
    forall k
      ensures LinkOk(Step(s, e), k)
    {
      LinkKept(s, e, k);
    }
    LiveKept(s, e);
  }

  lemma {:induction false} RunInv(s: State, es: seq<Event>)
    requires Inv(s) && ValidRun(s, es)
    ensures Inv(Exec(s, es))
    decreases |es|
  {
    if es != [] {
      StepInv(s, es[0]);
      RunInv(Step(s, es[0]), es[1..]);
    }
  }

  // ----------------------------------------------------------------- theorems

  /** Over any run with a clock that never goes back: transfers never share a link, at most
      one transfer of a link completes, at most sixteen links are live, and a link is
      recorded as refused at most once. */
  lemma LinksAreOneTime(es: seq<Event>)
    requires ValidRun(Start, es)
    ensures var s := Exec(Start, es);
            && (forall t, u :: t in s.transfers && u in s.transfers && t != u ==> s.transfers[t] != s.transfers[u])
            && (forall k :: s.completed[k] <= 1 && s.records[k] <= 1)
            && |LiveKeys(s)| <= MAX_LIVE
  {
    StartInv();
    RunInv(Start, es);
    var s := Exec(Start, es);
    forall k
      ensures s.completed[k] <= 1 && s.records[k] <= 1
    {
      assert LinkOk(s, k);
      if k in s.links {
        SubsetSize(s.links[k].refused, if s.links[k].state == Spent then {Used} else {Expired});
      }
    }
  }

  lemma {:induction false} SpentStays(s: State, es: seq<Event>, k: nat)
    requires Inv(s) && ValidRun(s, es) && k in s.links && s.links[k].state == Spent
    ensures k in Exec(s, es).links && Exec(s, es).links[k].state == Spent
    ensures Exec(s, es).completed[k] == s.completed[k]
    decreases |es|
  {
    if es != [] {
      StepInv(s, es[0]);
      SpentStays(Step(s, es[0]), es[1..], k);
    }
  }

  /** A spent link is never usable again, whatever happens next, and no later transfer of it completes. */
  lemma SpentIsFinal(es: seq<Event>, more: seq<Event>, k: nat)
    requires ValidRun(Start, es) && ValidRun(Exec(Start, es), more)
    requires k in Exec(Start, es).links && Exec(Start, es).links[k].state == Spent
    ensures var t := Exec(Exec(Start, es), more);
            && k in t.links && t.completed[k] == Exec(Start, es).completed[k]
            && !Usable(t.links[k], t.now)
  {
    StartInv();
    RunInv(Start, es);
    SpentStays(Exec(Start, es), more, k);
  }

  /** A link is handed out exactly when the store remembers it for that direction, it is ready
      and its time is not over; a refused claim changes nothing but the refusal mark. */
  lemma ClaimGrantsExactly(s: State, key: nat, d: Direction, transfer: nat)
    requires Inv(s) && Enabled(s, Claim(key, d, transfer))
    ensures var s' := Step(s, Claim(key, d, transfer));
            && (transfer in s'.transfers <==> Known(s, key, d) && s.links[key].state == Ready && s.now < s.links[key].expiresAt)
            && (transfer in s'.transfers ==> s'.links[key].state == Busy && forall t :: t in s.transfers ==> s.transfers[t] != key)
            && (transfer !in s'.transfers ==> forall k :: k in s.links ==> k in s'.links && s'.links[k].state == s.links[k].state)
  {
  }
}
