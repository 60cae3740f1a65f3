/** What the browser keeper wrote, told from what it read alone (pcbridge/browser/keeper.py):
    no buffer and no cut appears here. */
module KeeperHistory {
  import opened Wrappers
  import opened KeeperProtocol

  /** What a client sent, how much the browser had written when it connected, and how many
      bytes its socket took. */
  datatype Visit = Visit(typed: Bytes, since: nat, taken: nat)

  datatype History = History(browser: Bytes, visits: seq<Visit>, inPlace: bool, farewell: Bytes)

  function Last(h: History): int {
    |h.visits| - 1
  }

  /** A client that connects is in place until it goes or another one connects. */
  function After(h: History, e: Event): History {
    match e
    case Accepts => h.(visits := h.visits + [Visit([], |h.browser|, 0)], inPlace := true)
    case PipeBytes(chunk) => h.(browser := h.browser + chunk)
    case ClientBytes(chunk) =>
      if h.visits == [] then h
      else h.(visits := h.visits[Last(h) := h.visits[Last(h)].(typed := h.visits[Last(h)].typed + chunk)])
    case ClientGone => h.(inPlace := false)
    case Sends(n) =>
      if h.visits == [] then h
      else h.(visits := h.visits[Last(h) := h.visits[Last(h)].(taken := h.visits[Last(h)].taken + n)])
    case Stops(m) => h.(farewell := m)
  }

  function Tell(es: seq<Event>): History {
    if es == [] then History([], [], false, []) else After(Tell(es[..|es| - 1]), es[|es| - 1])
  }

  predicate Tells(v: Visit, c: Conn) {
    v.typed == c.received && v.since == c.since && v.taken == |c.sent|
  }

  ghost predicate Matches(h: History, s: State) {
    && h.browser == s.browser && h.farewell == s.farewell
    && |h.visits| == |s.conns|
    && (forall i :: 0 <= i < |s.conns| ==> Tells(h.visits[i], s.conns[i]))
    && (h.inPlace ==> s.conns != [] && s.client == Some(|s.conns| - 1))
    && (!h.inPlace ==> s.client.None?)
  }

  lemma StepMatches(h: History, s: State, e: Event)
    requires Matches(h, s) && Enabled(s, e)
    ensures Matches(After(h, e), Step(s, e))
  {
  }

  lemma OneMoreEvent(done: seq<Event>, es: seq<Event>)
    ensures es == [] ==> done + es == done
    ensures es != [] ==> done + [es[0]] + es[1..] == done + es
    ensures es != [] ==> (done + [es[0]])[..|done|] == done
  {
  }

  lemma {:induction false} RunMatches(s: State, done: seq<Event>, es: seq<Event>)
    requires Matches(Tell(done), s) && ValidRun(s, es)
    ensures Matches(Tell(done + es), Exec(s, es))
    decreases |es|
  {
    OneMoreEvent(done, es);
    if es != [] {
      StepMatches(Tell(done), s, es[0]);
      RunMatches(Step(s, es[0]), done + [es[0]], es[1..]);
    }
  }

  /** The messages of all clients, in the order the clients came. */
  function Typed(visits: seq<Visit>): seq<Bytes> {
    if visits == [] then [] else Messages(visits[0].typed) + Typed(visits[1..])
  }

  lemma {:induction false} TypedIsAll(visits: seq<Visit>, conns: seq<Conn>)
    requires |visits| == |conns| && forall i :: 0 <= i < |conns| ==> Tells(visits[i], conns[i])
    ensures Typed(visits) == AllMessages(conns)
  {
    if visits != [] {
      TypedIsAll(visits[1..], conns[1..]);
    }
  }

  /** The browser's messages that were completed while the client was there to hear them, or
      after. */
  function Owed(h: History, v: Visit): Bytes
    requires v.since <= |h.browser|
  {
    var missed := |Messages(h.browser[..v.since])|;
    if missed <= |Messages(h.browser)| then Flatten(Messages(h.browser)[missed..]) else []
  }

  /** The bytes a socket took are the first ones of what its client was owed, and what waits for
      the client in place is the rest. */
  ghost predicate Fed(h: History, s: State, i: nat)
    requires i < |h.visits| && i < |s.conns|
  {
    var v := h.visits[i];
    && v.since <= |h.browser| && v.taken <= |Owed(h, v)|
    && s.conns[i].sent == Owed(h, v)[..v.taken]
    && (h.inPlace && i == |h.visits| - 1 ==> s.toClient == Owed(h, v)[v.taken..])
  }

  lemma CutOwed(owed: Bytes, sent: Bytes, rest: Bytes)
    ensures sent <= owed ==> sent == owed[..|sent|]
    ensures sent + rest == owed ==> sent == owed[..|sent|] && rest == owed[|sent|..]
  {
  }

  lemma ServedIsFed(h: History, s: State, i: nat)
    requires Matches(h, s) && i < |s.conns| && ClientServed(s, i)
    ensures Fed(h, s, i)
  {
    assert Tells(h.visits[i], s.conns[i]);
    CutOwed(Owed(h, h.visits[i]), s.conns[i].sent, s.toClient);
  }

  ghost predicate Relayed(h: History, s: State) {
    && s.pipe == Flatten(Typed(h.visits)) + h.farewell
    && |h.visits| == |s.conns|
    && (forall i: nat :: i < |s.conns| ==> Fed(h, s, i))
    && s.client == (if h.inPlace then Some(|h.visits| - 1) else None)
    && (!h.inPlace ==> s.toClient == [] && s.fromClient == [])
  }

  lemma MatchingIsRelayed(h: History, s: State)
    requires Matches(h, s) && Inv(s)
    ensures Relayed(h, s)
  {
    InvServesBrowser(s);
    TypedIsAll(h.visits, s.conns);
    forall i: nat | i < |s.conns|
      ensures Fed(h, s, i)
    {
      InvServesClient(s, i);
      ServedIsFed(h, s, i);
    }
  }

  /** Whatever the chunks, the clients and the sockets do: the browser was written the messages
      of the clients, then the keeper's farewell; every client was sent as many bytes as its
      socket took of the browser's messages completed since it connected; and the next ones are
      waiting for the client in place, which is the one that came last unless it has gone. */
  lemma RelayedExactly(es: seq<Event>)
    requires ValidRun(Start, es)
    ensures Relayed(Tell(es), Exec(Start, es))
  {
    assert [] + es == es;
    RunMatches(Start, [], es);
    Reachable(es);
    MatchingIsRelayed(Tell(es), Exec(Start, es));
  }

  /** What is waiting gets shorter by what the socket takes. */
  lemma SendingGetsOn(s: State, n: nat)
    requires Inv(s) && Enabled(s, Sends(n))
    ensures |Step(s, Sends(n)).toClient| == |s.toClient| - n
    ensures Step(s, Sends(n)).pipe == s.pipe && Step(s, Sends(n)).browser == s.browser
  {
  }
}
