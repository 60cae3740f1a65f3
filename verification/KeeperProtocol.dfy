/** What the browser keeper relays (pcbridge/browser/keeper.py): NUL-terminated messages
    between one browser pipe and one client at a time, in chunks of any size. */
module KeeperProtocol {
  import opened Wrappers
  import opened Utf8
  import opened Newlines

  type Bytes = seq<Byte>

  // ------------------------------------------------------------------ framing

  /** The part of a stream that holds only whole messages. */
  function Whole(s: Bytes): Bytes {
    s[..AfterLast(s, 0)]
  }

  /** The unfinished message at the end of a stream. */
  function Partial(s: Bytes): Bytes {
    s[AfterLast(s, 0)..]
  }

  predicate IsMessage(m: Bytes) {
    m != [] && m[|m| - 1] == 0 && 0 !in m[..|m| - 1]
  }

  /** The whole messages of a stream, in order. */
  function Messages(s: Bytes): seq<Bytes> {
    var n := AfterNth(s, 0, 1);
    if 0 !in s then [] else [s[..n]] + (assert n > 0; Messages(s[n..]))
  }

  function Flatten(parts: seq<Bytes>): Bytes {
    if parts == [] then [] else parts[0] + Flatten(parts[1..])
  }

  lemma {:induction false} FlattenJoins(a: seq<Bytes>, b: seq<Bytes>)
    ensures Flatten(a + b) == Flatten(a) + Flatten(b)
  {
    if a == [] {
      assert a + b == b;
    } else {
      FlattenJoins(a[1..], b);
      assert (a + b)[1..] == a[1..] + b;
      Assoc(a[0], Flatten(a[1..]), Flatten(b));
    }
  }

  lemma {:induction false} AfterLastJoins(a: Bytes, b: Bytes)
    ensures AfterLast(a + b, 0) == if 0 in b then |a| + AfterLast(b, 0) else AfterLast(a, 0)
  {
    if b == [] {
      assert a + b == a;
    } else if b[|b| - 1] != 0 {
      AfterLastJoins(a, b[..|b| - 1]);
      assert (a + b)[..|a + b| - 1] == a + b[..|b| - 1];
    }
  }

  /** Cutting a buffer that starts at the last message boundary is cutting the stream. */
  lemma MoreArrives(s: Bytes, chunk: Bytes)
    ensures var buf := Partial(s) + chunk;
            && Whole(s + chunk) == Whole(s) + Whole(buf)
            && Partial(s + chunk) == Partial(buf)
  {
    var buf := Partial(s) + chunk;
    Assoc(Whole(s), Partial(s), chunk);
    assert Whole(s) + Partial(s) == s;
    AfterLastJoins(Whole(s), buf);
    WholeIsWhole(s);
    CutJoin(Whole(s), buf, AfterLast(buf, 0));
  }

  lemma CutJoin(a: Bytes, b: Bytes, n: nat)
    requires n <= |b|
    ensures (a + b)[..|a| + n] == a + b[..n] && (a + b)[|a| + n..] == b[n..]
  {
  }

  lemma WholeIsWhole(s: Bytes)
    ensures AfterLast(Whole(s), 0) == |Whole(s)|
  {
  }

  lemma FirstIsMessage(m: Bytes)
    requires m != [] && Count(m, 0) == 1 && m[|m| - 1] == 0
    ensures IsMessage(m) && AfterLast(m, 0) == |m|
  {
    var head := m[..|m| - 1];
    assert m == head + [0];
    CountJoins(head, [0], 0);
    CountIn(head, 0);
  }

  lemma MessageEnds(m: Bytes, s: Bytes)
    requires IsMessage(m)
    ensures AfterNth(m + s, 0, 1) == |m|
  {
    var head := m[..|m| - 1];
    assert m + s == head + ([0] + s);
    CountIn(head, 0);
    AfterNext(head, [0] + s, 0);
  }

  /** A stream that starts with a message. */
  lemma MessageFirst(m: Bytes, s: Bytes)
    requires IsMessage(m)
    ensures Messages(m + s) == [m] + Messages(s)
    ensures Partial(m + s) == Partial(s)
  {
    MessageEnds(m, s);
    CutJoin(m, s, 0);
    assert (m + s)[|m| - 1] == 0;
    AfterLastJoins(m, s);
    CutJoin(m, s, AfterLast(s, 0));
  }

  lemma SplitFirst(s: Bytes) returns (m: Bytes, rest: Bytes)
    requires 0 in s
    ensures IsMessage(m) && s == m + rest
  {
    var n := AfterNth(s, 0, 1);
    CountIn(s, 0);
    AfterNthCounts(s, 0, 1);
    FirstIsMessage(s[..n]);
    m, rest := s[..n], s[n..];
  }

  lemma {:induction false} MessagesFlatten(s: Bytes)
    ensures Flatten(Messages(s)) == Whole(s)
    ensures forall i :: 0 <= i < |Messages(s)| ==> IsMessage(Messages(s)[i])
    decreases |s|
  {
    if 0 in s {
      var m, rest := SplitFirst(s);
      MessagesFlatten(rest);
      MessageFirst(m, rest);
      AfterLastJoins(m, rest);
      FirstMessageCut(m);
      CutJoin(m, rest, AfterLast(rest, 0));
    } else {
      assert AfterLast(s, 0) == 0;
    }
  }

  lemma FirstMessageCut(m: Bytes)
    requires IsMessage(m)
    ensures AfterLast(m, 0) == |m|
  {
  }

  // -------------------------------------------------------------------- state

  /** One client connection: every byte it sent, every byte it was sent, and how much the
      browser had written when it connected. */
  datatype Conn = Conn(received: Bytes, sent: Bytes, since: nat)

  /** The keeper's buffers, and the streams so far; `farewell` is the message the keeper itself
      writes to the browser (its Browser.close) when it stops. */
  datatype State = State(
    client: Option<nat>,
    fromClient: Bytes,
    fromPipe: Bytes,
    toClient: Bytes,
    pipe: Bytes,
    browser: Bytes,
    conns: seq<Conn>,
    farewell: Bytes)

  const Start: State := State(None, [], [], [], [], [], [], [])

  datatype Event =
    | Accepts
    | PipeBytes(chunk: Bytes)
    | ClientBytes(chunk: Bytes)
    | ClientGone
    | Sends(n: nat)
    | Stops(farewell: Bytes)

  predicate Enabled(s: State, e: Event) {
    && s.farewell == []
    && match e
       case Accepts => true
       case PipeBytes(_) => true
       case ClientBytes(_) => s.client.Some? && s.client.value < |s.conns|
       case ClientGone => s.client.Some?
       case Sends(n) => s.client.Some? && s.client.value < |s.conns| && n <= |s.toClient|
       case Stops(m) => IsMessage(m)
  }

  function Drop(s: State): State {
    s.(client := None, fromClient := [], toClient := [])
  }

  function Step(s: State, e: Event): State
    requires Enabled(s, e)
  {
    match e
    case Accepts =>
      Drop(s).(client := Some(|s.conns|), conns := s.conns + [Conn([], [], |s.browser|)])
    case PipeBytes(chunk) =>
      var buf := s.fromPipe + chunk;
      s.(browser := s.browser + chunk, fromPipe := Partial(buf),
         toClient := if s.client.Some? then s.toClient + Whole(buf) else s.toClient)
    case ClientBytes(chunk) =>
      var c := s.client.value;
      var buf := s.fromClient + chunk;
      s.(conns := s.conns[c := s.conns[c].(received := s.conns[c].received + chunk)],
         pipe := s.pipe + Whole(buf), fromClient := Partial(buf))
    case ClientGone => Drop(s)
    case Sends(n) =>
      var c := s.client.value;
      s.(conns := s.conns[c := s.conns[c].(sent := s.conns[c].sent + s.toClient[..n])],
         toClient := s.toClient[n..])
    case Stops(m) => s.(pipe := s.pipe + m, farewell := m)
  }

  predicate ValidRun(s: State, es: seq<Event>)
    decreases |es|
  {
    es == [] || (Enabled(s, es[0]) && ValidRun(Step(s, es[0]), es[1..]))
  }

  function Exec(s: State, es: seq<Event>): State
    requires ValidRun(s, es)
    decreases |es|
  {
    if es == [] then s else Exec(Step(s, es[0]), es[1..])
  }

  // --------------------------------------------------------------- invariants

  /** The whole messages each client has completed, in the order the clients came. */
  function Completed(conns: seq<Conn>): seq<Bytes> {
    seq(|conns|, i requires 0 <= i < |conns| => Whole(conns[i].received))
  }

  /** The browser messages completed since a point of its stream. */
  function Since(browser: Bytes, from: nat): Bytes
    requires from <= |browser|
  {
    AfterLastGrows(browser, from);
    Whole(browser)[|Whole(browser[..from])|..]
  }

  lemma AfterLastGrows(s: Bytes, n: nat)
    requires n <= |s|
    ensures |Whole(s[..n])| <= |Whole(s)|
    ensures Whole(s[..n]) <= Whole(s)
  {
    assert s == s[..n] + s[n..];
    MoreArrives(s[..n], s[n..]);
  }

  /** What a connection was sent are browser messages completed since it was accepted. */
  ghost predicate FedFrom(c: Conn, browser: Bytes) {
    c.since <= |browser| && c.sent <= Since(browser, c.since)
  }

  /** The client in place has been sent, or will be, all of them. */
  ghost predicate FullyFed(c: Conn, toClient: Bytes, browser: Bytes) {
    c.since <= |browser| && c.sent + toClient == Since(browser, c.since)
  }

  ghost predicate Inv(s: State) {
    && (s.client.Some? ==> s.client.value == |s.conns| - 1)
    && s.fromPipe == Partial(s.browser)
    && s.fromClient == (if s.client.Some? then Partial(s.conns[s.client.value].received) else [])
    && (s.client.None? ==> s.toClient == [])
    && s.pipe == Flatten(Completed(s.conns)) + s.farewell
    && (s.farewell != [] ==> IsMessage(s.farewell))
    && (forall i :: 0 <= i < |s.conns| ==> FedFrom(s.conns[i], s.browser))
    && (s.client.Some? ==> FullyFed(s.conns[s.client.value], s.toClient, s.browser))
  }

  // ------------------------------------------------------------- preservation

  lemma StartInv()
    ensures Inv(Start)
  {
  }

  lemma AcceptsKeepsInv(s: State)
    requires Inv(s) && Enabled(s, Accepts)
    ensures Inv(Step(s, Accepts))
  {
    var s' := Step(s, Accepts);
    assert Completed(s'.conns) == Completed(s.conns) + [[]];
    FlattenJoins(Completed(s.conns), [[]]);
    assert Flatten([[]]) == [];
    assert s.browser[..|s.browser|] == s.browser;
  }

  lemma SinceGrows(browser: Bytes, chunk: Bytes, from: nat)
    requires from <= |browser|
    ensures Since(browser + chunk, from) == Since(browser, from) + Whole(Partial(browser) + chunk)
  {
    MoreArrives(browser, chunk);
    AfterLastGrows(browser, from);
    assert (browser + chunk)[..from] == browser[..from];
    DropJoin(Whole(browser), Whole(Partial(browser) + chunk), |Whole(browser[..from])|);
  }

  lemma DropJoin(a: Bytes, b: Bytes, n: nat)
    requires n <= |a|
    ensures (a + b)[n..] == a[n..] + b
  {
  }

  lemma PrefixJoin(a: Bytes, b: Bytes, c: Bytes)
    requires a <= b
    ensures a <= b + c
  {
  }

  lemma PipeBytesKeepsInv(s: State, chunk: Bytes)
    requires Inv(s) && Enabled(s, PipeBytes(chunk))
    ensures Inv(Step(s, PipeBytes(chunk)))
  {
    var s' := Step(s, PipeBytes(chunk));
    MoreArrives(s.browser, chunk);
    forall i | 0 <= i < |s.conns|
      ensures FedFrom(s.conns[i], s'.browser)
    {
      SinceGrows(s.browser, chunk, s.conns[i].since);
      PrefixJoin(s.conns[i].sent, Since(s.browser, s.conns[i].since), Whole(s.fromPipe + chunk));
    }
    if s.client.Some? {
      var c := s.conns[s.client.value];
      SinceGrows(s.browser, chunk, c.since);
      Assoc(c.sent, s.toClient, Whole(s.fromPipe + chunk));
    }
  }

  lemma FlattenLast(parts: seq<Bytes>, more: Bytes)
    requires parts != []
    ensures var n := |parts| - 1;
            Flatten(parts[n := parts[n] + more]) == Flatten(parts) + more
  {
    var n := |parts| - 1;
    var last := parts[n];
    assert parts == parts[..n] + [last];
    assert parts[n := last + more] == parts[..n] + [last + more];
    FlattenJoins(parts[..n], [last]);
    FlattenJoins(parts[..n], [last + more]);
    assert Flatten([last]) == last + Flatten([]) == last;
    assert Flatten([last + more]) == (last + more) + Flatten([]) == last + more;
    Assoc(Flatten(parts[..n]), last, more);
  }

  lemma ClientBytesKeepsInv(s: State, chunk: Bytes)
    requires Inv(s) && Enabled(s, ClientBytes(chunk))
    ensures Inv(Step(s, ClientBytes(chunk)))
  {
    var s' := Step(s, ClientBytes(chunk));
    var c := s.client.value;
    var buf := s.fromClient + chunk;
    MoreArrives(s.conns[c].received, chunk);
    var parts := Completed(s.conns);
    assert Completed(s'.conns) == parts[c := parts[c] + Whole(buf)];
    FlattenLast(parts, Whole(buf));
    assert s.pipe == Flatten(parts);
  }

  lemma SendsKeepsInv(s: State, n: nat)
    requires Inv(s) && Enabled(s, Sends(n))
    ensures Inv(Step(s, Sends(n)))
  {
    var s' := Step(s, Sends(n));
    var c := s.client.value;
    assert Completed(s'.conns) == Completed(s.conns);
    Assoc(s.conns[c].sent, s.toClient[..n], s.toClient[n..]);
    assert s.toClient[..n] + s.toClient[n..] == s.toClient;
    assert FullyFed(s'.conns[c], s'.toClient, s'.browser);
    assert FedFrom(s'.conns[c], s'.browser);
  }

  lemma GoneKeepsInv(s: State)
    requires Inv(s) && Enabled(s, ClientGone)
    ensures Inv(Step(s, ClientGone))
  {
  }

  lemma StopsKeepsInv(s: State, m: Bytes)
    requires Inv(s) && Enabled(s, Stops(m))
    ensures Inv(Step(s, Stops(m)))
  {
    var parts := Flatten(Completed(s.conns));
    assert s.pipe == parts by {
      assert parts + [] == parts;
    }
    assert Step(s, Stops(m)).pipe == parts + m;
  }

  lemma StepInv(s: State, e: Event)
    requires Inv(s) && Enabled(s, e)
    ensures Inv(Step(s, e))
  {
    match e
    case Accepts => AcceptsKeepsInv(s);
    case PipeBytes(chunk) => PipeBytesKeepsInv(s, chunk);
    case ClientBytes(chunk) => ClientBytesKeepsInv(s, chunk);
    case Sends(n) => SendsKeepsInv(s, n);
    case ClientGone => GoneKeepsInv(s);
    case Stops(m) => StopsKeepsInv(s, m);
  }

  lemma {:induction false} RunInv(s: State, es: seq<Event>)
    requires Inv(s) && ValidRun(s, es)
    ensures Inv(Exec(s, es))
    decreases |es|
  {
    if es != [] {
      StepInv(s, es[0]);
      RunInv(Step(s, es[0]), es[1..]);
    }
  }

  // ----------------------------------------------------------------- theorems

  /** Every message completed by any client, in order, each within one client's stream. */
  function AllMessages(conns: seq<Conn>): seq<Bytes> {
    if conns == [] then [] else Messages(conns[0].received) + AllMessages(conns[1..])
  }

  lemma {:induction false} AllMessagesFlatten(conns: seq<Conn>)
    ensures Flatten(AllMessages(conns)) == Flatten(Completed(conns))
    ensures forall m :: m in AllMessages(conns) ==> IsMessage(m)
  {
    if conns != [] {
      MessagesFlatten(conns[0].received);
      AllMessagesFlatten(conns[1..]);
      FlattenJoins(Messages(conns[0].received), AllMessages(conns[1..]));
      assert Completed(conns)[1..] == Completed(conns[1..]);
    }
  }

  /** The browser was written exactly the messages the clients completed, none of them torn,
      and at most the keeper's own farewell after them. */
  ghost predicate BrowserServed(s: State) {
    && s.pipe == Flatten(AllMessages(s.conns)) + s.farewell
    && (forall m :: m in AllMessages(s.conns) ==> IsMessage(m))
    && (s.farewell != [] ==> IsMessage(s.farewell))
  }

  lemma Reachable(es: seq<Event>)
    requires ValidRun(Start, es)
    ensures Inv(Exec(Start, es))
  {
    StartInv();
    RunInv(Start, es);
  }

  lemma InvServesBrowser(s: State)
    requires Inv(s)
    ensures BrowserServed(s)
  {
    AllMessagesFlatten(s.conns);
  }

  /** However the streams are chunked and whichever clients come, go or break off. */
  lemma BrowserGetsWholeMessages(es: seq<Event>)
    requires ValidRun(Start, es)
    ensures BrowserServed(Exec(Start, es))
  {
    Reachable(es);
    InvServesBrowser(Exec(Start, es));
  }

  lemma {:induction false} MessagesJoin(a: Bytes, b: Bytes)
    ensures Messages(a + b) == Messages(a) + Messages(Partial(a) + b)
    decreases |a|
  {
    if 0 in a {
      var m, rest := SplitFirst(a);
      MessagesJoin(rest, b);
      MessageFirst(m, rest);
      MessageFirst(m, rest + b);
      Assoc(m, rest, b);
      Assoc([m], Messages(rest), Messages(Partial(rest) + b));
    } else {
      assert AfterLast(a, 0) == 0;
      assert Partial(a) == a;
    }
  }

  /** The bytes of `Since` are the messages that were completed after that point. */
  lemma SinceIsMessages(browser: Bytes, from: nat)
    requires from <= |browser|
    ensures var done := |Messages(browser[..from])|;
            done <= |Messages(browser)| && Since(browser, from) == Flatten(Messages(browser)[done..])
  {
    var a, b := browser[..from], browser[from..];
    assert browser == a + b;
    MessagesJoin(a, b);
    MoreArrives(a, b);
    MessagesFlatten(Partial(a) + b);
    assert Messages(browser)[|Messages(a)|..] == Messages(Partial(a) + b);
    assert Whole(browser)[|Whole(a)|..] == Whole(Partial(a) + b);
  }

  /** A client in place has been sent, or has waiting, exactly the browser messages completed
      since it connected; an earlier client got a beginning of them and nothing else. */
  ghost predicate ClientServed(s: State, i: nat)
    requires i < |s.conns|
  {
    var c := s.conns[i];
    && c.since <= |s.browser|
    && var missed := |Messages(s.browser[..c.since])|;
       && missed <= |Messages(s.browser)|
       && var owed := Flatten(Messages(s.browser)[missed..]);
          && c.sent <= owed
          && (s.client == Some(i) ==> c.sent + s.toClient == owed)
  }

  lemma InvServesClient(s: State, i: nat)
    requires Inv(s) && i < |s.conns|
    ensures ClientServed(s, i)
  {
    assert FedFrom(s.conns[i], s.browser);
    SinceIsMessages(s.browser, s.conns[i].since);
  }

  lemma ClientsGetWholeMessages(es: seq<Event>, i: nat)
    requires ValidRun(Start, es) && i < |Exec(Start, es).conns|
    ensures ClientServed(Exec(Start, es), i)
  {
    Reachable(es);
    InvServesClient(Exec(Start, es), i);
  }
}
