/** When a one-time link is handed out, told from what was done with it
    (pcbridge/filelinks.py): when it was made, who holds it, how its transfers ended. */
module LinkHistory {
  import opened Wrappers
  import opened LinkProtocol

  datatype Made = Made(direction: Direction, until: real)

  /** The time that passed, the links made and those whose transfer was completed or given up. */
  datatype Past = Past(now: real, made: map<nat, Made>, ended: set<nat>)

  const Nothing: Past := Past(0.0, map[], {})

  /** The links the store has not forgotten that are ready in time, or busy. */
  function Occupying(s: State): set<nat> {
    set k | k in s.store && k in s.links && s.links[k].expiresAt + REMEMBER_SECONDS >= s.now
            && (s.links[k].state == Busy || (s.links[k].state == Ready && s.links[k].expiresAt > s.now))
  }

  function After(p: Past, s: State, e: Event): Past
    requires Enabled(s, e)
  {
    match e
    case Tick(seconds) => p.(now := p.now + seconds)
    case Create(key, d, ttl) => if |Occupying(s)| < 16 then p.(made := p.made[key := Made(d, p.now + ttl)]) else p
    case Finish(transfer, outcome) => if outcome.Release? then p else p.(ended := p.ended + {s.transfers[transfer]})
    case _ => p
  }

  function Tell(s: State, p: Past, es: seq<Event>): Past
    requires ValidRun(s, es)
    decreases |es|
  {
    if es == [] then p else Tell(Step(s, es[0]), After(p, s, es[0]), es[1..])
  }

  ghost predicate LinkMatches(p: Past, s: State, k: nat) {
    && (k in s.links <==> k in p.made)
    && (k in s.links ==>
          && s.links[k].direction == p.made[k].direction && s.links[k].expiresAt == p.made[k].until
          && (s.links[k].state == Spent <==> k in p.ended)
          && (s.links[k].expiresAt + REMEMBER_SECONDS >= s.now ==> k in s.store))
  }

  ghost predicate Matches(p: Past, s: State) {
    && p.now == s.now
    && p.ended <= p.made.Keys
    && (forall k :: LinkMatches(p, s, k))
  }

  lemma CreateMatches(p: Past, s: State, e: Event, k: nat)
    requires LinkMatches(p, s, k) && p.now == s.now && p.ended <= p.made.Keys && e.Create? && Enabled(s, e)
    requires e.key !in p.made
    ensures LinkMatches(After(p, s, e), Step(s, e), k)
  {
    assert LiveKeys(Sweep(s)) == Occupying(s);
  }

  lemma FoundMatches(p: Past, s: State, key: nat, d: Direction, claim: bool, k: nat)
    requires LinkMatches(p, s, k)
    ensures LinkMatches(p, Found(s, key, d, claim), k)
  {
  }

  lemma ClaimMatches(p: Past, s: State, e: Event, k: nat)
    requires LinkMatches(p, s, k) && (e.Claim? || e.Lookup?) && Enabled(s, e)
    ensures LinkMatches(p, Step(s, e), k) && After(p, s, e) == p && Step(s, e).now == s.now
  {
    FoundMatches(p, s, e.key, e.direction, e.Claim?, k);
  }

  lemma FinishMatches(p: Past, s: State, e: Event, k: nat)
    requires OneHolder(s) && LinkMatches(p, s, k) && e.Finish? && Enabled(s, e)
    ensures LinkMatches(After(p, s, e), Step(s, e), k)
  {
  }

  lemma LinkStepMatches(p: Past, s: State, e: Event, k: nat)
    requires Inv(s) && Matches(p, s) && Enabled(s, e)
    ensures LinkMatches(After(p, s, e), Step(s, e), k)
  {
    assert LinkMatches(p, s, k);
    match e
    case Tick(_) =>
    case Create(key, _, _) =>
      assert LinkMatches(p, s, key);
      CreateMatches(p, s, e, k);
    case Finish(_, _) => FinishMatches(p, s, e, k);
    case _ => ClaimMatches(p, s, e, k);
  }

  lemma PastStep(p: Past, s: State, e: Event)
    requires Matches(p, s) && Enabled(s, e)
    ensures After(p, s, e).now == Step(s, e).now
    ensures After(p, s, e).ended <= After(p, s, e).made.Keys
  {
    if e.Finish? {
      assert LinkMatches(p, s, s.transfers[e.transfer]);
    }
  }

  lemma StepMatches(p: Past, s: State, e: Event)
    requires Inv(s) && Matches(p, s) && Enabled(s, e)
    ensures Matches(After(p, s, e), Step(s, e))
  {
    PastStep(p, s, e);
    forall k
      ensures LinkMatches(After(p, s, e), Step(s, e), k)
    {
      LinkStepMatches(p, s, e, k);
    }
  }

  lemma {:induction false} RunMatches(p: Past, s: State, es: seq<Event>)
    requires Inv(s) && Matches(p, s) && ValidRun(s, es)
    ensures Matches(Tell(s, p, es), Exec(s, es)) && Inv(Exec(s, es))
    decreases |es|
  {
    if es != [] {
      StepMatches(p, s, es[0]);
      StepInv(s, es[0]);
      RunMatches(After(p, s, es[0]), Step(s, es[0]), es[1..]);
    }
  }

  /** In every run, a link is handed out exactly while it has been made for that direction, its
      time is not over, nobody holds it, and no transfer of it was completed or given up; a
      transfer that broke off leaves it as claimable as before. */
  lemma HandedOutExactly(es: seq<Event>, key: nat, d: Direction, transfer: nat)
    requires ValidRun(Start, es) && Enabled(Exec(Start, es), Claim(key, d, transfer))
    ensures var (p, s) := (Tell(Start, Nothing, es), Exec(Start, es));
            transfer in Step(s, Claim(key, d, transfer)).transfers
            <==> key in p.made && p.made[key].direction == d && p.now < p.made[key].until
                 && key !in s.transfers.Values && key !in p.ended
  {
    StartInv();
    RunMatches(Nothing, Start, es);
    var (p, s) := (Tell(Start, Nothing, es), Exec(Start, es));
    assert LinkMatches(p, s, key);
    ClaimGrantsExactly(s, key, d, transfer);
  }

  /** A transfer that ends no longer holds its link, which is ready again if the transfer broke
      off and spent otherwise; it counts as completed only if it was. Nothing else changes. */
  lemma FinishExactly(s: State, transfer: nat, outcome: Outcome)
    requires Inv(s) && Enabled(s, Finish(transfer, outcome))
    ensures var (u, key) := (Step(s, Finish(transfer, outcome)), s.transfers[transfer]);
            && u.links == s.links[key := s.links[key].(state := if outcome.Release? then Ready else Spent)]
            && u.transfers == (map t | t in s.transfers && t != transfer :: s.transfers[t])
            && u.completed[key] == s.completed[key] + (if outcome.Complete? then 1 else 0)
            && (forall k :: k != key ==> u.completed[k] == s.completed[k])
            && u.store == s.store && u.records == s.records && u.now == s.now
  {
  }

  /** Making a link forgets those whose time has been over for an hour, and no others; the new
      one is ready until its time is over, unless sixteen are in use. */
  lemma CreateExactly(s: State, key: nat, d: Direction, ttl: real)
    requires Inv(s) && Enabled(s, Create(key, d, ttl))
    ensures var u := Step(s, Create(key, d, ttl));
            && (forall k :: k != key ==>
                  (k in u.store <==> k in s.store && s.links[k].expiresAt + 3600.0 >= s.now)
                  && (k in u.links <==> k in s.links) && (k in s.links ==> u.links[k] == s.links[k]))
            && (key in u.store <==> |Occupying(s)| < 16)
            && (key in u.store ==> key in u.links && u.links[key] == Link(d, s.now + ttl, Ready, {}))
            && u.transfers == s.transfers
  {
    assert LiveKeys(Sweep(s)) == Occupying(s);
  }

  /** A refusal is marked and recorded once for each reason: a spent link was used, a ready one
      past its time has expired; an unknown, a busy and a usable one say nothing. */
  lemma LookupTells(s: State, key: nat, d: Direction)
    requires Inv(s)
    ensures var u := Step(s, Lookup(key, d));
            var known := key in s.store && s.links[key].direction == d;
            var why := if known && s.links[key].state == Spent then {Used}
                       else if known && s.links[key].state == Ready && s.links[key].expiresAt <= s.now then {Expired} else {};
            && (key in s.links ==> u.links == s.links[key := s.links[key].(refused := s.links[key].refused + why)])
            && u.records[key] == s.records[key] + (if why != {} && !(why <= s.links[key].refused) then 1 else 0)
            && (forall k :: k != key ==> u.records[k] == s.records[k])
  {
    if key in s.links && !(key in s.store && s.links[key].direction == d && Refusal(s.links[key], s.now).Some?) {
      assert s.links[key].refused + {} == s.links[key].refused;
    }
  }
}
