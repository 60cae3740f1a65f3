/** The promises of the relay over every run (pcbridge/relay.py). */
module RelayTheorems {
  import opened Wrappers
  import opened RelayProtocol
  import opened RelaySafety

  /** What the client was written for request `k`. */
  function Answers(s: State, k: Key): nat {
    multiset(s.out)[Forward(Answer(k))] + multiset(s.out)[Retry(k)]
  }

  /** The protocol's rule: one initialize per session. */
  predicate OneInitialize(history: seq<Line>) {
    forall i, j :: 0 <= i < j < |history| && Has(history[i], Initialize) && Has(history[j], Initialize)
                   ==> history[i] == history[j]
  }

  lemma Reachable(es: seq<Event>)
    requires ValidRun(Start, es)
    ensures Inv(Exec(Start, es))
  {
    StartInv();
    RunInv(Start, es);
  }

  /** Whenever the server thread reads from a backend, each pending request is in the
      client thread's hands and not on its way to an abandoned backend, or was sent to that very
      backend, which still owes its answer, or is an initialize the client itself replaced by a
      later one. */
  lemma NoRequestIsLost(es: seq<Event>, k: Key)
    requires ValidRun(Start, es)
    requires Exec(Start, es).server.Reading? && k in Exec(Start, es).sh.inFlight
    ensures var s := Exec(Start, es);
            || Held(s, k)
            || (s.server.b < |s.conns| && k in s.conns[s.server.b].owed && WasSent(s.conns[s.server.b], k))
            || Overtaken(s, k)
    ensures OneInitialize(Exec(Start, es).history) ==> !Overtaken(Exec(Start, es), k)
  {
    Reachable(es);
    var s := Exec(Start, es);
    assert Covered(s, k);
  }

  /** A request is only ever dropped from the pending ones by an answer, an error or a cancellation. */
  lemma EveryRequestIsAccountedFor(es: seq<Event>, k: Key)
    requires ValidRun(Start, es)
    ensures var s := Exec(Start, es);
            k in s.noted && k !in s.sh.inFlight && k !in s.cancelled && s.server.Top? ==> Answers(s, k) > 0
  {
    Reachable(es);
    assert AccountedFor(Exec(Start, es), k);
  }

  /** Answers and errors for one id never outnumber the deliveries of its line, save for
      the one error given to a request whose line the client thread was still holding. */
  lemma AnswersNeverExceedDeliveries(es: seq<Event>, k: Key)
    requires ValidRun(Start, es)
    ensures var s := Exec(Start, es); Answers(s, k) <= s.delivered[k] + Bit(k in s.parkedFailed)
    ensures var s := Exec(Start, es); k !in s.parkedFailed && s.delivered[k] <= 1 ==> Answers(s, k) <= 1
    ensures multiset(Exec(Start, es).out)[Retry(k)] <= 1
  {
    Reachable(es);
    assert BudgetOf(Exec(Start, es), k);
  }

  /** Exactly the answers to replayed initializes are held back from the client. */
  lemma OnlyReplaysAreSwallowed(es: seq<Event>, k: Key)
    requires ValidRun(Start, es)
    requires Exec(Start, es).server == Noting(Answer(k))
    ensures Forwards(Exec(Start, es).sh, Answer(k)) <==> !k.ReplayKey?
  {
    Reachable(es);
    if k.ReplayKey? {
      assert Swallowed(Exec(Start, es), k.n);
    }
  }

  lemma ReplayAnswersNeverReachTheClient(es: seq<Event>, n: nat)
    requires ValidRun(Start, es)
    ensures Forward(Answer(ReplayKey(n))) !in Exec(Start, es).out
  {
    Reachable(es);
    assert Swallowed(Exec(Start, es), n);
  }

  // ------------------------------------------------------------- handshake

  /** Connections opened from number `n` on knew the initialize, and `ready` ones the notification too. */
  ghost predicate KnownFrom(s: State, n: nat, ready: bool) {
    && n <= |s.conns|
    && s.sh.initLine.Some? && (ready ==> s.sh.readyLine.Some?)
    && (forall i :: n <= i < |s.conns| ==> s.conns[i].initKnown && (ready ==> s.conns[i].readyKnown))
  }

  lemma StepKeepsKnown(s: State, e: Event, n: nat, ready: bool)
    requires KnownFrom(s, n, ready) && Enabled(s, e)
    ensures KnownFrom(Step(s, e), n, ready)
  {
  }

  lemma {:induction false} RunKeepsKnown(s: State, es: seq<Event>, n: nat, ready: bool)
    requires KnownFrom(s, n, ready) && ValidRun(s, es)
    ensures KnownFrom(Exec(s, es), n, ready)
    decreases |es|
  {
    if es != [] {
      StepKeepsKnown(s, es[0], n, ready);
      RunKeepsKnown(Step(s, es[0]), es[1..], n, ready);
    }
  }

  /** No client line reaches such a backend before the replay is complete. */
  lemma ClientWaitsForTheHandshake(es: seq<Event>)
    requires ValidRun(Start, es) && Exec(Start, es).client.Sending?
    ensures var s := Exec(Start, es); s.client.b < |s.conns| && Greeted(s.conns[s.client.b])
  {
    Reachable(es);
  }

  // ---------------------------------------------------- where the bounds bite

  ghost predicate Reaches(s: State, t: State) {
    exists es :: ValidRun(s, es) && Exec(s, es) == t
  }

  lemma {:induction false} RunThenStep(s: State, es: seq<Event>, e: Event)
    requires ValidRun(s, es) && Enabled(Exec(s, es), e)
    ensures ValidRun(s, es + [e]) && Exec(s, es + [e]) == Step(Exec(s, es), e)
    decreases |es|
  {
    if es == [] {
      assert es + [e] == [e];
      assert ValidRun(Step(s, e), []);
    } else {
      RunThenStep(Step(s, es[0]), es[1..], e);
      assert (es + [e])[1..] == es[1..] + [e];
    }
  }

  lemma Stay(s: State)
    ensures Reaches(s, s)
  {
    assert ValidRun(s, []) && Exec(s, []) == s;
  }

  lemma Go(s: State, t: State, e: Event) returns (u: State)
    requires Reaches(s, t) && Enabled(t, e)
    ensures u == Step(t, e) && Reaches(s, u)
  {
    u := Step(t, e);
    var es :| ValidRun(s, es) && Exec(s, es) == t;
    RunThenStep(s, es, e);
    assert Exec(s, es + [e]) == u;
  }

  /** `_replay` gets through: there is nothing to replay, or one initialize message. */
  predicate Replayable(sh: Shared) {
    sh.initLine.Some? ==> !sh.initLine.value.isArray && |sh.initLine.value.msgs| == 1
  }

  /** What recovery leaves alone in the state it started from. */
  ghost predicate Untouched(t: State, u: State) {
    && u.client == t.client && u.used == t.used && u.noted == t.noted && u.history == t.history
    && u.parkedFailed == t.parkedFailed && u.sh.inFlight == t.sh.inFlight && u.sh.closing == t.sh.closing
    && u.sh.initLine == t.sh.initLine && u.sh.readyLine == t.sh.readyLine
    && (forall k :: k in u.sh.swallow ==> k in t.sh.swallow || k.ReplayKey?)
  }

  lemma Drain(s: State, t: State, k: Key) returns (u: State)
    requires Reaches(s, t) && t.server.Erroring?
    ensures Reaches(s, u) && Untouched(t, u) && u.server.Connecting? && u.conns == t.conns
    ensures Answers(u, k) == Answers(t, k) + multiset(t.server.todo)[k]
    decreases |t.server.todo|
  {
    u := Go(s, t, Recovery(WritesError));
    if t.server.todo != [] {
      PopFront(t.server.todo, k);
      u := Drain(s, u, k);
    }
  }

  /** The new backend's log once recovery has installed it. */
  function Greeting(sh: Shared): seq<Wire>
    requires Replayable(sh)
  {
    if sh.initLine.None? then []
    else if KeyOf(sh.initLine.value) in sh.inFlight then [FromClient(sh.initLine.value)]
    else [Replay(sh.initLine.value, sh.replays + 1)]
         + if sh.readyLine.None? then [] else [FromClient(sh.readyLine.value)]
  }

  lemma Reconnect(s: State, t: State) returns (u: State)
    requires Reaches(s, t) && t.server.Connecting? && Replayable(t.sh)
    ensures Reaches(s, u) && Untouched(t, u) && u.server.Top? && u.out == t.out
    ensures |u.conns| == |t.conns| + 1 && u.sh.backend == Some(|t.conns|)
    ensures u.conns[|t.conns|].log == Greeting(t.sh)
  {
    u := Go(s, t, Recovery(Connects(true)));
    u := Go(s, u, Recovery(LooksForInit));
    if t.sh.initLine.Some? {
      u := ReplayAll(s, u);
    }
    u := Go(s, u, Recovery(Installs));
  }

  lemma ReplayAll(s: State, t: State) returns (u: State)
    requires Reaches(s, t) && t.server.ReplayLoad? && t.sh.initLine.Some? && Replayable(t.sh)
    requires |t.conns| > 0 && t.conns[Cur(t)].log == []
    ensures Reaches(s, u) && Untouched(t, u) && u.server.Installing? && u.out == t.out
    ensures |u.conns| == |t.conns| && u.conns[Cur(u)].log == Greeting(t.sh)
  {
    u := Go(s, t, Recovery(LoadsInit));
    u := Go(s, u, Recovery(ChecksInit));
    if u.server.ReplayPending? {
      u := Go(s, u, Recovery(SendsReplay(true)));
    } else {
      u := ReplayFresh(s, u);
    }
  }

  lemma ReplayFresh(s: State, t: State) returns (u: State)
    requires Reaches(s, t) && t.server.ReplayMark?
    requires |t.conns| > 0 && t.conns[Cur(t)].log == []
    ensures Reaches(s, u) && Untouched(t, u) && u.server.Installing? && u.out == t.out
    ensures |u.conns| == |t.conns|
    ensures u.conns[Cur(u)].log == [Replay(t.server.init, t.sh.replays + 1)]
              + if t.sh.readyLine.None? then [] else [FromClient(t.sh.readyLine.value)]
  {
    u := Go(s, t, Recovery(Marks));
    u := Go(s, u, Recovery(SendsReplay(true)));
    u := Go(s, u, Recovery(LooksForReady));
    if u.server.ReplaySendReady? {
      u := Go(s, u, Recovery(SendsReplay(true)));
    }
  }

  /** The exception in `AnswersNeverExceedDeliveries` is real: whenever recovery has failed
      a request whose line the client thread still has in hand, noting the rest of it, waiting,
      sending or having failed to send, and there is something to replay or nothing, the run can
      go on so that the client gets a second answer to it. */
  lemma ParkedFailureCanBeAnsweredTwice(es: seq<Event>, k: Key)
    requires ValidRun(Start, es)
    requires Exec(Start, es).server.Erroring? && Replayable(Exec(Start, es).sh)
    requires k in Hand(Exec(Start, es).client) && k in Exec(Start, es).parkedFailed
    ensures exists u :: Reaches(Exec(Start, es), u) && Answers(u, k) >= 2
  {
    var s := Exec(Start, es);
    Reachable(es);
    assert BudgetOf(s, k);
    Stay(s);
    var u := Drain(s, s, k);
    assert Answers(u, k) >= 1;
    u := AnswerAfterRecovery(s, u, k);
  }

  /** What the client thread has in hand is answered once recovery has connected. */
  lemma AnswerAfterRecovery(s: State, t: State, k: Key) returns (u: State)
    requires Reaches(s, t) && t.server.Connecting? && Replayable(t.sh)
    requires k in Hand(t.client) && !t.sh.closing && k !in t.sh.swallow && !k.ReplayKey?
    requires t.client.Note? ==> t.client.i < |t.client.line.msgs|
    requires t.client.Sending? || t.client.SendBroke? ==> t.client.b < |t.conns|
    ensures Reaches(s, u) && Answers(u, k) == Answers(t, k) + 1
  {
    u := Reconnect(s, t);
    u := BackToWaiting(s, u, k);
    u := AnswerParked(s, u, k);
  }

  /** A client thread with a line in hand gets to the point of picking a backend for it: it
      notes the rest of the line, or the send to the lost backend fails. */
  lemma BackToWaiting(s: State, t: State, k: Key) returns (u: State)
    requires Reaches(s, t) && k in Hand(t.client) && !t.sh.closing && t.server.Top?
    requires t.sh.backend == Some(|t.conns| - 1) && k !in t.sh.swallow
    requires t.client.Note? ==> t.client.i < |t.client.line.msgs|
    requires t.client.Sending? || t.client.SendBroke? ==> t.client.b < |t.conns| - 1
    ensures Reaches(s, u) && u.client == Wait(t.client.line) && !u.sh.closing && u.server.Top?
    ensures u.conns == t.conns && u.sh.backend == t.sh.backend && u.sh.swallow == t.sh.swallow && u.out == t.out
  {
    u := t;
    if t.client.Note? {
      u := NoteTheRest(s, t);
    }
    if u.client.Sending? {
      u := Go(s, u, Client(Sends(false, false)));
    }
    if u.client.SendBroke? {
      u := Go(s, u, Client(Drops));
    }
  }

  lemma NoteTheRest(s: State, t: State) returns (u: State)
    requires Reaches(s, t) && t.client.Note? && t.client.i < |t.client.line.msgs|
    ensures Reaches(s, u) && u.client == Wait(t.client.line)
    ensures u.server == t.server && u.conns == t.conns && u.out == t.out
    ensures u.sh.backend == t.sh.backend && u.sh.swallow == t.sh.swallow && u.sh.closing == t.sh.closing
    decreases |t.client.line.msgs| - t.client.i
  {
    u := t;
    if !t.client.recorded {
      u := Go(s, u, Client(Records));
    }
    u := Go(s, u, Client(Registers));
    if u.client.Note? {
      u := NoteTheRest(s, u);
    }
  }

  /** A parked client line is sent to the backend in use, which answers it. */
  lemma AnswerParked(s: State, t: State, k: Key) returns (u: State)
    requires Reaches(s, t) && t.client.Wait? && k in Hand(t.client) && !t.sh.closing && t.server.Top?
    requires |t.conns| > 0 && t.sh.backend == Some(|t.conns| - 1) && k !in t.sh.swallow
    ensures Reaches(s, u) && Answers(u, k) == Answers(t, k) + 1
  {
    u := Go(s, t, Client(Picks));
    u := Go(s, u, Client(Sends(true, true)));
    assert k in u.conns[Cur(u)].owed;
    u := Go(s, u, Server(Looks));
    u := Go(s, u, Server(Reads(Answer(k))));
    u := Go(s, u, Server(Notes));
    u := Go(s, u, Server(Writes));
  }

  /** Does the replay resend `k`? Only as part of a recorded line that holds it. */
  predicate Resent(sh: Shared, k: Key)
    requires Replayable(sh)
  {
    exists i :: 0 <= i < |Greeting(sh)| && k in WireKeys(Greeting(sh)[i])
  }

  /** Two unanswered initializes are one too many: whenever a recovery is about to connect and
      the replay will not resend the older one, it can end up pending for good, with the server
      thread reading from a backend that never heard of it, whether or not the newer one is
      answered and whatever else the client is doing. */
  lemma OvertakenInitializeCanBeLost(es: seq<Event>, k: Key)
    requires ValidRun(Start, es)
    requires Exec(Start, es).server.Connecting? && Replayable(Exec(Start, es).sh)
    requires Overtaken(Exec(Start, es), k) && k !in Hand(Exec(Start, es).client)
    requires !Exec(Start, es).sh.closing && !Resent(Exec(Start, es).sh, k)
    ensures exists u :: Reaches(Exec(Start, es), u) && u.server.Reading? && k !in Hand(u.client)
              && u.server.b < |u.conns| && k in u.sh.inFlight && !WasSent(u.conns[u.server.b], k)
  {
    var s := Exec(Start, es);
    Reachable(es);
    Stay(s);
    var u := Reconnect(s, s);
    u := Go(s, u, Server(Looks));
    assert u.conns[u.server.b].log == Greeting(s.sh);
  }

  /** With the newer initialize unanswered the replay never resends the older one; with it
      answered, only if the recorded notification came in one array with the older one. */
  lemma ResentExactly(sh: Shared, k: Key)
    requires Replayable(sh) && sh.initLine.Some? && k !in RequestKeys(sh.initLine.value) && !k.ReplayKey?
    ensures Resent(sh, k) <==> KeyOf(sh.initLine.value) !in sh.inFlight && sh.readyLine.Some? && k in RequestKeys(sh.readyLine.value)
  {
    var g := Greeting(sh);
    if KeyOf(sh.initLine.value) !in sh.inFlight && sh.readyLine.Some? {
      assert g[1] == FromClient(sh.readyLine.value);
    }
  }

  // ------------------------------------------------------ two concrete runs

  function Request(kind: Kind, n: nat): Line {
    Line([Msg(kind, Some(ClientKey(n)))], false)
  }

  /** The client thread takes and notes one request, and is about to send it. */
  lemma TakeRequest(s: State, t: State, kind: Kind, n: nat) returns (u: State)
    requires Reaches(s, t) && t.client.Idle? && !kind.Cancelled? && kind != NoMethod && kind != Initialized
    requires ClientKey(n) !in t.used
    ensures Reaches(s, u) && u.client == Wait(Request(kind, n)) && u.server == t.server && u.conns == t.conns
    ensures u.used == t.used + {ClientKey(n)}
    ensures u.sh == t.sh.(inFlight := t.sh.inFlight[ClientKey(n) := kind], initLine := u.sh.initLine)
    ensures kind == Initialize ==> u.sh.initLine == Some(Request(kind, n))
    ensures kind != Initialize ==> u.sh.initLine == t.sh.initLine
    ensures Hand(u.client) == {ClientKey(n)}
  {
    var l := Request(kind, n);
    assert RequestKeys(l) == {ClientKey(n)} by {
      assert l.msgs[0].id.value in RequestKeys(l);
    }
    u := Go(s, t, Client(ReadsLine(l)));
    u := Go(s, u, Client(Records));
    u := Go(s, u, Client(Registers));
  }

  lemma SendTaken(s: State, t: State) returns (u: State)
    requires Reaches(s, t) && t.client.Wait? && t.sh.backend == Some(0) && |t.conns| > 0 && !t.sh.closing
    ensures Reaches(s, u) && |u.conns| > 0
    ensures u == t.(client := Idle, conns := u.conns, delivered := u.delivered)
  {
    u := Go(s, t, Client(Picks));
    u := Go(s, u, Client(Sends(true, true)));
  }

  /** The backend breaks under an idle server thread, up to the recovery's first step. */
  lemma Break(s: State, t: State) returns (u: State)
    requires Reaches(s, t) && t.server.Top? && t.sh.backend.Some? && !t.sh.closing
    ensures Reaches(s, u) && u == t.(sh := t.sh.(backend := None), server := Failing)
  {
    u := Go(s, t, Server(Looks));
    u := Go(s, u, Server(SeesEof));
    u := Go(s, u, Server(MarksEof));
    u := Go(s, u, Server(Looks));
  }

  /** The premises of `OvertakenInitializeCanBeLost` do come about. */
  lemma TwoInitializesOvertake()
    ensures exists s :: Reaches(Start, s) && s.server.Connecting? && Replayable(s.sh) && s.client.Idle?
              && Overtaken(s, ClientKey(1)) && !s.sh.closing && !Resent(s.sh, ClientKey(1))
  {
    Stay(Start);
    var s := TakeRequest(Start, Start, Initialize, 1);
    s := SendTaken(Start, s);
    s := TakeRequest(Start, s, Initialize, 2);
    s := SendTaken(Start, s);
    s := Break(Start, s);
    assert PendingKeys(s.sh) == {};
    s := Go(Start, s, Recovery(Fails([])));
    s := Go(Start, s, Recovery(WritesError));
    assert ClientKey(1) !in RequestKeys(Request(Initialize, 2));
    ResentExactly(s.sh, ClientKey(1));
  }

  /** The premises of `ParkedFailureCanBeAnsweredTwice` do come about. */
  lemma ParkedRequestIsFailed()
    ensures exists s :: Reaches(Start, s) && s.server.Erroring? && Replayable(s.sh) && s.client.Wait?
              && ClientKey(1) in Hand(s.client) && ClientKey(1) in s.parkedFailed
  {
    Stay(Start);
    var s := TakeRequest(Start, Start, OtherMethod, 1);
    s := Break(Start, s);
    assert PendingKeys(s.sh) == {ClientKey(1)};
    s := Go(Start, s, Recovery(Fails([ClientKey(1)])));
  }
}
