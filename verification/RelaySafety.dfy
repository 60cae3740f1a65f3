/** What every run of the relay keeps (pcbridge/relay.py). */
module RelaySafety {
  import opened Wrappers
  import opened RelayProtocol

  // ------------------------------------------------------------ vocabulary

  /** The server thread will still read from the newest connection. */
  predicate Readable(s: State) {
    !(s.server.Erroring? || s.server.Connecting? || s.server.Stopped?)
  }

  /** The client thread holds `k` and has not handed it to an abandoned connection. */
  predicate Held(s: State, k: Key) {
    && k in Hand(s.client)
    && (s.client.Sending? ==> Readable(s) && s.client.b == Cur(s))
  }

  function Owed(s: State, k: Key): nat {
    if Readable(s) && |s.conns| > 0 then s.conns[Cur(s)].owed[k] else 0
  }

  predicate InTransit(s: State, k: Key) {
    (s.server.Noting? || s.server.Writing?) && s.server.got == Answer(k)
  }

  /** `k` is an unanswered initialize and the client recorded another initialize after it. */
  predicate Overtaken(s: State, k: Key) {
    && k in s.sh.inFlight && s.sh.inFlight[k] == Initialize
    && s.sh.initLine.Some? && k !in RequestKeys(s.sh.initLine.value)
  }

  /** `k` is an unanswered initialize that the recovery under way will resend. */
  predicate AwaitsReplay(s: State, k: Key) {
    && k in s.sh.inFlight && s.sh.inFlight[k] == Initialize
    && match s.server
       case Erroring(_) => true
       case Connecting => true
       case ReplayStart => true
       case ReplayLoad => true
       case ReplayPending => true
       case ReplayCheck(l) => s.sh.initLine == Some(l)
       case _ => false
  }

  function Replies(s: State, k: Key): nat {
    multiset(s.out)[Forward(Answer(k))] + if InTransit(s, k) then 1 else 0
  }

  function Errors(s: State, k: Key): nat {
    multiset(s.out)[Retry(k)] + if s.server.Erroring? then multiset(s.server.todo)[k] else 0
  }

  function Bit(b: bool): nat {
    if b then 1 else 0
  }

  // ------------------------------------------------------------- invariants

  predicate InService(p: ServerPc) {
    p.Top? || p.Reading? || p.Noting? || p.Writing? || p.AtEof? || p.Stopped?
  }

  /** Where the two threads can be. */
  ghost predicate Shape(s: State) {
    && |s.conns| > 0
    && (s.sh.backend.Some? ==> s.sh.backend.value == Cur(s) && InService(s.server))
    && (s.server.Reading? ==> s.server.b == Cur(s))
    && (s.server.AtEof? ==> s.server.b == Cur(s))
    && (s.client.Sending? || s.client.SendBroke? ==> s.client.b < |s.conns|)
    && (s.sh.closing <==> s.client.Gone?)
    && (s.client.Note? ==> s.client.i < |s.client.line.msgs|)
  }

  /** The ids of `l` from message `i` on are not noted yet. */
  ghost predicate Unnoted(s: State, l: Line, i: nat) {
    forall j :: i <= j < |l.msgs| && IsRequest(l.msgs[j]) ==> l.msgs[j].id.value !in s.noted
  }

  predicate JustRecordedInit(c: ClientPc) {
    c.Note? && c.recorded && c.i < |c.line.msgs| && c.line.msgs[c.i].kind == Initialize
  }

  /** Where ids come from. */
  ghost predicate Ids(s: State) {
    && (forall l :: l in s.history ==> WellFormed(l) && RequestKeys(l) <= s.used)
    && (!s.client.Idle? && !s.client.Gone? ==> s.client.line in s.history)
    && (s.sh.initLine.Some? ==> s.sh.initLine.value in s.history && Has(s.sh.initLine.value, Initialize))
    && (s.sh.readyLine.Some? ==> s.sh.readyLine.value in s.history && Has(s.sh.readyLine.value, Initialized))
    && s.sh.inFlight.Keys <= s.noted <= s.used
    && (forall k :: k in s.used ==> !k.ReplayKey?)
    && (forall k :: k in s.sh.inFlight && s.sh.inFlight[k] == Initialize ==>
          s.sh.initLine.Some? && exists l :: l in s.history && Has(l, Initialize) && k in RequestKeys(l))
    && (s.client.Note? ==> Unnoted(s, s.client.line, s.client.i))
    && (JustRecordedInit(s.client) ==> s.sh.initLine.Some?)
    && (s.server.ReplayCheck? ==> s.server.init in s.history && |s.server.init.msgs| == 1)
  }

  /** Someone still owes the client an answer to `k`, if `k` is pending. */
  ghost predicate Covered(s: State, k: Key) {
    || k !in s.sh.inFlight
    || Held(s, k)
    || Owed(s, k) > 0
    || (s.server.Noting? && s.server.got == Answer(k))
    || Overtaken(s, k)
    || AwaitsReplay(s, k)
    || s.server.Stopped?
  }

  /** No pending request is forgotten. */
  ghost predicate NoneLost(s: State) {
    forall k :: Covered(s, k)
  }

  /** Answers never outnumber deliveries, but for one error to a request failed while parked. */
  ghost predicate BudgetOf(s: State, k: Key) {
    && Errors(s, k) + Replies(s, k) + Owed(s, k) <= s.delivered[k] + Bit(k in s.parkedFailed)
    && Errors(s, k) <= 1
    && (Errors(s, k) > 0 ==> k in s.noted && k !in s.sh.inFlight)
    && (k in s.parkedFailed ==> Errors(s, k) > 0)
  }

  ghost predicate Budget(s: State) {
    forall k :: BudgetOf(s, k)
  }

  /** Every request the client announced is pending, cancelled, or has its answer. */
  ghost predicate AccountedFor(s: State, k: Key) {
    k in s.noted ==> k in s.sh.inFlight || k in s.cancelled || Errors(s, k) + Replies(s, k) > 0
  }

  ghost predicate Accounted(s: State) {
    forall k :: AccountedFor(s, k)
  }

  /** The answer to replay `n` is swallowed. */
  ghost predicate Swallowed(s: State, n: nat) {
    var k := ReplayKey(n);
    && (Owed(s, k) > 0 ==> k in s.sh.swallow && Owed(s, k) == 1 && !InTransit(s, k))
    && (s.server.Noting? && s.server.got == Answer(k) ==> k in s.sh.swallow)
    && (s.server.Writing? ==> s.server.got != Answer(k))
    && Forward(Answer(k)) !in s.out
  }

  /** Replay ids are swallowed and nothing else is. */
  ghost predicate Swallowing(s: State) {
    && (forall k :: k in s.sh.swallow ==> k.ReplayKey? && k.n <= s.sh.replays)
    && (forall n: nat :: Swallowed(s, n))
    && (s.server.ReplaySend? ==> s.server.n == s.sh.replays && ReplayKey(s.server.n) in s.sh.swallow)
  }

  predicate WasSent(c: Conn, k: Key) {
    exists i :: 0 <= i < |c.log| && k in WireKeys(c.log[i])
  }

  /** A connection owes answers only to what it was sent. */
  ghost predicate OwesSent(s: State) {
    forall i, k :: 0 <= i < |s.conns| && k in s.conns[i].owed ==> WasSent(s.conns[i], k)
  }

  /** The first lines of a connection opened by recovery. */
  predicate Greeted(c: Conn) {
    && (c.initKnown ==> c.log != [])
    && (c.initKnown && c.readyKnown && c.log[0].Replay? ==> |c.log| >= 2)
  }

  predicate GoodStart(c: Conn) {
    && (c.initKnown && c.log != [] ==> IsInit(c.log[0]))
    && (c.initKnown && c.readyKnown && |c.log| >= 2 && c.log[0].Replay? ==> IsReady(c.log[1]))
  }

  predicate BeforeReplay(p: ServerPc) {
    p.ReplayStart? || p.ReplayLoad? || p.ReplayCheck? || p.ReplayPending? || p.ReplayMark? || p.ReplaySend?
  }

  ghost predicate Handshake(s: State) {
    && |s.conns| > 0
    && (forall i :: 0 <= i < |s.conns| ==> GoodStart(s.conns[i]))
    && (BeforeReplay(s.server) ==> var c := s.conns[Cur(s)];
          c.log == [] && c.owed == multiset{} && (c.initKnown ==> s.sh.initLine.Some?) && (c.readyKnown ==> s.sh.readyLine.Some?))
    && ((s.server.ReplayReady? || s.server.ReplaySendReady?) ==> var c := s.conns[Cur(s)];
          |c.log| == 1 && c.log[0].Replay? && (c.readyKnown ==> s.sh.readyLine.Some?))
    && (s.server.Installing? || s.sh.backend.Some? ==> Greeted(s.conns[Cur(s)]))
    && (s.client.Sending? && s.client.b < |s.conns| ==> Greeted(s.conns[s.client.b]))
    && (s.client.Sending? && s.client.b == Cur(s) ==> Settled(s.server))
  }

  /** Nothing of a replay is left to do. */
  predicate Settled(p: ServerPc) {
    !BeforeReplay(p) && !p.ReplayReady? && !p.ReplaySendReady? && !p.Installing?
  }

  ghost predicate Inv(s: State) {
    Shape(s) && Ids(s) && NoneLost(s) && Budget(s) && Accounted(s) && Swallowing(s) && Handshake(s) && OwesSent(s)
  }

  // ----------------------------------------------------------- preservation

  lemma StartInv()
    ensures Inv(Start)
  {
  }

  lemma ClientKeepsShape(s: State, e: ClientEvent)
    requires Shape(s)
    requires ClientEnabled(s, e)
    ensures Shape(ClientStep(s, e))
  {
  }

  lemma ServerKeepsShape(s: State, e: ServerEvent)
    requires Shape(s)
    requires ServerEnabled(s, e)
    ensures Shape(ServerStep(s, e))
  {
  }

  lemma RecoveryKeepsShape(s: State, e: RecoveryEvent)
    requires Shape(s)
    requires RecoveryEnabled(s, e)
    ensures Shape(RecoveryStep(s, e))
  {
  }

  lemma SendsKeepsIds(s: State, ok: bool, reached: bool)
    requires Shape(s) && Ids(s)
    requires ClientEnabled(s, Sends(ok, reached))
    ensures Ids(ClientStep(s, Sends(ok, reached)))
  {
  }

  lemma NoteKeepsIds(s: State, e: ClientEvent)
    requires Shape(s) && Ids(s)
    requires (e.Records? || e.Registers?) && ClientEnabled(s, e)
    ensures Ids(ClientStep(s, e))
  {
  }

  lemma ClientKeepsIds(s: State, e: ClientEvent)
    requires Shape(s) && Ids(s)
    requires ClientEnabled(s, e)
    ensures Ids(ClientStep(s, e))
  {
    match e
    case Sends(ok, reached) => SendsKeepsIds(s, ok, reached);
    case Records => NoteKeepsIds(s, e);
    case Registers => NoteKeepsIds(s, e);
    case _ =>
  }

  lemma ServerKeepsIds(s: State, e: ServerEvent)
    requires Shape(s) && Ids(s)
    requires ServerEnabled(s, e)
    ensures Ids(ServerStep(s, e))
  {
  }

  lemma FailsKeepsIds(s: State, order: seq<Key>)
    requires Shape(s) && Ids(s)
    requires RecoveryEnabled(s, Fails(order))
    ensures Ids(RecoveryStep(s, Fails(order)))
  {
  }

  lemma SendsReplayKeepsIds(s: State, ok: bool)
    requires Shape(s) && Ids(s)
    requires RecoveryEnabled(s, SendsReplay(ok))
    ensures Ids(RecoveryStep(s, SendsReplay(ok)))
  {
  }

  lemma QuietRecoveryKeepsIds(s: State, e: RecoveryEvent)
    requires Shape(s) && Ids(s)
    requires RecoveryEnabled(s, e) && !e.Fails? && !e.SendsReplay?
    ensures Ids(RecoveryStep(s, e))
  {
  }

  lemma RecoveryKeepsIds(s: State, e: RecoveryEvent)
    requires Shape(s) && Ids(s)
    requires RecoveryEnabled(s, e)
    ensures Ids(RecoveryStep(s, e))
  {
    match e
    case Fails(order) => FailsKeepsIds(s, order);
    case SendsReplay(ok) => SendsReplayKeepsIds(s, ok);
    case _ => QuietRecoveryKeepsIds(s, e);
  }

  lemma ClientKeepsHandshake(s: State, e: ClientEvent)
    requires Shape(s) && Ids(s) && Handshake(s)
    requires ClientEnabled(s, e)
    ensures Handshake(ClientStep(s, e))
  {
  }

  lemma ServerKeepsHandshake(s: State, e: ServerEvent)
    requires Shape(s) && Ids(s) && Handshake(s)
    requires ServerEnabled(s, e)
    ensures Handshake(ServerStep(s, e))
  {
  }

  lemma SendsReplayKeepsHandshake(s: State, ok: bool)
    requires Shape(s) && Ids(s) && Handshake(s)
    requires RecoveryEnabled(s, SendsReplay(ok))
    ensures Handshake(RecoveryStep(s, SendsReplay(ok)))
  {
  }

  lemma RecoveryKeepsHandshake(s: State, e: RecoveryEvent)
    requires Shape(s) && Ids(s) && Handshake(s)
    requires RecoveryEnabled(s, e)
    ensures Handshake(RecoveryStep(s, e))
  {
    match e
    case SendsReplay(ok) => SendsReplayKeepsHandshake(s, ok);
    case _ =>
  }

  lemma SendsKeepsCovered(s: State, ok: bool, reached: bool, k: Key)
    requires Shape(s) && Ids(s) && Swallowing(s)
    requires ClientEnabled(s, Sends(ok, reached)) && Covered(s, k)
    ensures Covered(ClientStep(s, Sends(ok, reached)), k)
  {
  }

  lemma NoteKeepsCovered(s: State, e: ClientEvent, k: Key)
    requires Shape(s) && Ids(s) && Swallowing(s)
    requires (e.Records? || e.Registers?) && ClientEnabled(s, e) && Covered(s, k)
    ensures Covered(ClientStep(s, e), k)
  {
  }

  lemma ClientKeepsCovered(s: State, e: ClientEvent, k: Key)
    requires Shape(s) && Ids(s) && Swallowing(s)
    requires ClientEnabled(s, e) && Covered(s, k)
    ensures Covered(ClientStep(s, e), k)
  {
    match e
    case Sends(ok, reached) => SendsKeepsCovered(s, ok, reached, k);
    case Records => NoteKeepsCovered(s, e, k);
    case Registers => NoteKeepsCovered(s, e, k);
    case _ =>
  }

  lemma NotesKeepsCovered(s: State, k: Key)
    requires Shape(s) && Ids(s) && Swallowing(s)
    requires ServerEnabled(s, Notes) && Covered(s, k)
    ensures Covered(ServerStep(s, Notes), k)
  {
  }

  lemma ServerKeepsCovered(s: State, e: ServerEvent, k: Key)
    requires Shape(s) && Ids(s) && Swallowing(s)
    requires ServerEnabled(s, e) && Covered(s, k)
    ensures Covered(ServerStep(s, e), k)
  {
    match e
    case Notes => NotesKeepsCovered(s, k);
    case _ =>
  }

  lemma FailsKeepsCovered(s: State, order: seq<Key>, k: Key)
    requires Shape(s) && Ids(s) && Swallowing(s)
    requires RecoveryEnabled(s, Fails(order)) && Covered(s, k)
    ensures Covered(RecoveryStep(s, Fails(order)), k)
  {
  }

  lemma SendsReplayKeepsCovered(s: State, ok: bool, k: Key)
    requires Shape(s) && Ids(s) && Swallowing(s)
    requires RecoveryEnabled(s, SendsReplay(ok)) && Covered(s, k)
    ensures Covered(RecoveryStep(s, SendsReplay(ok)), k)
  {
  }

  lemma ChecksInitKeepsCovered(s: State, k: Key)
    requires Shape(s) && Ids(s)
    requires RecoveryEnabled(s, ChecksInit) && Covered(s, k)
    ensures Covered(RecoveryStep(s, ChecksInit), k)
  {
  }

  lemma ConnectingKeepsCovered(s: State, e: RecoveryEvent, k: Key)
    requires Shape(s) && Ids(s) && Swallowing(s)
    requires RecoveryEnabled(s, e) && Covered(s, k)
    requires e.WritesError? || e.Connects? || e.Installs?
    ensures Covered(RecoveryStep(s, e), k)
  {
  }

  lemma LookingKeepsCovered(s: State, e: RecoveryEvent, k: Key)
    requires Shape(s) && Ids(s) && Swallowing(s)
    requires RecoveryEnabled(s, e) && Covered(s, k)
    requires e.LooksForInit? || e.LoadsInit? || e.Marks? || e.LooksForReady?
    ensures Covered(RecoveryStep(s, e), k)
  {
  }

  lemma RecoveryKeepsCovered(s: State, e: RecoveryEvent, k: Key)
    requires Shape(s) && Ids(s) && Swallowing(s)
    requires RecoveryEnabled(s, e) && Covered(s, k)
    ensures Covered(RecoveryStep(s, e), k)
  {
    match e
    case Fails(order) => FailsKeepsCovered(s, order, k);
    case SendsReplay(ok) => SendsReplayKeepsCovered(s, ok, k);
    case ChecksInit => ChecksInitKeepsCovered(s, k);
    case _ =>
      if e.WritesError? || e.Connects? || e.Installs? {
        ConnectingKeepsCovered(s, e, k);
      } else {
        LookingKeepsCovered(s, e, k);
      }
  }

  lemma SendsKeepsBudgetOf(s: State, ok: bool, reached: bool, k: Key)
    requires Shape(s) && Ids(s) && NoneLost(s)
    requires ClientEnabled(s, Sends(ok, reached)) && BudgetOf(s, k)
    ensures BudgetOf(ClientStep(s, Sends(ok, reached)), k)
  {
  }

  lemma NoteKeepsBudgetOf(s: State, e: ClientEvent, k: Key)
    requires Shape(s) && Ids(s) && NoneLost(s)
    requires (e.Records? || e.Registers?) && ClientEnabled(s, e) && BudgetOf(s, k)
    ensures BudgetOf(ClientStep(s, e), k)
  {
  }

  lemma ClientKeepsBudgetOf(s: State, e: ClientEvent, k: Key)
    requires Shape(s) && Ids(s) && NoneLost(s)
    requires ClientEnabled(s, e) && BudgetOf(s, k)
    ensures BudgetOf(ClientStep(s, e), k)
  {
    match e
    case Sends(ok, reached) => SendsKeepsBudgetOf(s, ok, reached, k);
    case Records => NoteKeepsBudgetOf(s, e, k);
    case Registers => NoteKeepsBudgetOf(s, e, k);
    case _ =>
  }

  lemma ServerKeepsBudgetOf(s: State, e: ServerEvent, k: Key)
    requires Shape(s) && Ids(s) && NoneLost(s)
    requires ServerEnabled(s, e) && BudgetOf(s, k)
    ensures BudgetOf(ServerStep(s, e), k)
  {
  }

  lemma {:induction false} CountDistinct<T>(xs: seq<T>, x: T)
    requires forall i, j :: 0 <= i < j < |xs| ==> xs[i] != xs[j]
    ensures multiset(xs)[x] == Bit(x in xs)
  {
    if xs != [] {
      CountDistinct(xs[1..], x);
      PopFront(xs, x);
    }
  }

  lemma PopFront<T>(xs: seq<T>, x: T)
    ensures xs != [] ==> multiset(xs)[x] == Bit(xs[0] == x) + multiset(xs[1..])[x]
  {
    if xs != [] {
      assert xs == [xs[0]] + xs[1..];
    }
  }

  lemma FailsKeepsBudgetOf(s: State, order: seq<Key>, k: Key)
    requires Shape(s) && Ids(s) && NoneLost(s)
    requires RecoveryEnabled(s, Fails(order)) && BudgetOf(s, k)
    ensures BudgetOf(RecoveryStep(s, Fails(order)), k)
  {
    CountDistinct(order, k);
    assert k in order <==> k in PendingKeys(s.sh);
    assert Covered(s, k);
  }

  lemma SendsReplayKeepsBudgetOf(s: State, ok: bool, k: Key)
    requires Shape(s) && BudgetOf(s, k)
    requires RecoveryEnabled(s, SendsReplay(ok))
    ensures BudgetOf(RecoveryStep(s, SendsReplay(ok)), k)
  {
  }

  lemma WritesErrorKeepsBudgetOf(s: State, k: Key)
    requires Shape(s) && Ids(s) && NoneLost(s)
    requires RecoveryEnabled(s, WritesError) && BudgetOf(s, k)
    ensures BudgetOf(RecoveryStep(s, WritesError), k)
  {
    PopFront(s.server.todo, k);
  }

  lemma QuietRecoveryKeepsBudgetOf(s: State, e: RecoveryEvent, k: Key)
    requires Shape(s) && Ids(s) && NoneLost(s)
    requires RecoveryEnabled(s, e) && BudgetOf(s, k)
    requires !e.Fails? && !e.WritesError? && !e.SendsReplay?
    ensures BudgetOf(RecoveryStep(s, e), k)
  {
  }

  lemma RecoveryKeepsBudgetOf(s: State, e: RecoveryEvent, k: Key)
    requires Shape(s) && Ids(s) && NoneLost(s)
    requires RecoveryEnabled(s, e) && BudgetOf(s, k)
    ensures BudgetOf(RecoveryStep(s, e), k)
  {
    match e
    case Fails(order) => FailsKeepsBudgetOf(s, order, k);
    case WritesError => WritesErrorKeepsBudgetOf(s, k);
    case SendsReplay(ok) => SendsReplayKeepsBudgetOf(s, ok, k);
    case _ => QuietRecoveryKeepsBudgetOf(s, e, k);
  }

  lemma ClientKeepsAccountedFor(s: State, e: ClientEvent, k: Key)
    requires Shape(s) && Ids(s) && Swallowing(s)
    requires ClientEnabled(s, e) && AccountedFor(s, k)
    ensures AccountedFor(ClientStep(s, e), k)
  {
  }

  lemma ServerKeepsAccountedFor(s: State, e: ServerEvent, k: Key)
    requires Shape(s) && Ids(s) && Swallowing(s)
    requires ServerEnabled(s, e) && AccountedFor(s, k)
    ensures AccountedFor(ServerStep(s, e), k)
  {
  }

  lemma RecoveryKeepsAccountedFor(s: State, e: RecoveryEvent, k: Key)
    requires Shape(s) && Ids(s) && Swallowing(s)
    requires RecoveryEnabled(s, e) && AccountedFor(s, k)
    ensures AccountedFor(RecoveryStep(s, e), k)
  {
    match e
    case Fails(order) =>
      CountDistinct(order, k);
      assert k in order <==> k in PendingKeys(s.sh);
    case WritesError => PopFront(s.server.todo, k);
    case _ =>
  }

  lemma ClientKeepsSwallowed(s: State, e: ClientEvent, k: nat)
    requires Shape(s) && Ids(s) && Handshake(s) && Swallowing(s)
    requires ClientEnabled(s, e) && Swallowed(s, k)
    ensures Swallowed(ClientStep(s, e), k)
  {
  }

  lemma ServerKeepsSwallowed(s: State, e: ServerEvent, k: nat)
    requires Shape(s) && Ids(s) && Handshake(s) && Swallowing(s)
    requires ServerEnabled(s, e) && Swallowed(s, k)
    ensures Swallowed(ServerStep(s, e), k)
  {
  }

  lemma SendsReplayKeepsSwallowed(s: State, ok: bool, k: nat)
    requires Shape(s) && Ids(s) && Handshake(s) && Swallowing(s)
    requires RecoveryEnabled(s, SendsReplay(ok)) && Swallowed(s, k)
    ensures Swallowed(RecoveryStep(s, SendsReplay(ok)), k)
  {
  }

  lemma QuietRecoveryKeepsSwallowed(s: State, e: RecoveryEvent, k: nat)
    requires Shape(s) && Ids(s) && Handshake(s) && Swallowing(s)
    requires RecoveryEnabled(s, e) && !e.SendsReplay? && Swallowed(s, k)
    ensures Swallowed(RecoveryStep(s, e), k)
  {
  }

  lemma RecoveryKeepsSwallowed(s: State, e: RecoveryEvent, k: nat)
    requires Shape(s) && Ids(s) && Handshake(s) && Swallowing(s)
    requires RecoveryEnabled(s, e) && Swallowed(s, k)
    ensures Swallowed(RecoveryStep(s, e), k)
  {
    if e.SendsReplay? {
      SendsReplayKeepsSwallowed(s, e.ok, k);
    } else {
      QuietRecoveryKeepsSwallowed(s, e, k);
    }
  }

  lemma DeliverKeepsOwesSent(s: State, b: nat, w: Wire)
    requires OwesSent(s) && b < |s.conns|
    ensures OwesSent(Deliver(s, b, w))
  {
    var s' := Deliver(s, b, w);
    forall i, k | 0 <= i < |s'.conns| && k in s'.conns[i].owed
      ensures WasSent(s'.conns[i], k)
    {
      var log' := s'.conns[i].log;
      if k in s.conns[i].owed {
        var j :| 0 <= j < |s.conns[i].log| && k in WireKeys(s.conns[i].log[j]);
        assert k in WireKeys(log'[j]);
      } else {
        assert k in WireKeys(log'[|log'| - 1]);
      }
    }
  }

  lemma ClientKeepsOwesSent(s: State, e: ClientEvent)
    requires Shape(s) && OwesSent(s) && ClientEnabled(s, e)
    ensures OwesSent(ClientStep(s, e))
  {
    if e.Sends? {
      DeliverKeepsOwesSent(s, s.client.b, FromClient(s.client.line));
    }
  }

  lemma ServerKeepsOwesSent(s: State, e: ServerEvent)
    requires OwesSent(s) && ServerEnabled(s, e)
    ensures OwesSent(ServerStep(s, e))
  {
  }

  lemma RecoveryKeepsOwesSent(s: State, e: RecoveryEvent)
    requires Shape(s) && OwesSent(s) && RecoveryEnabled(s, e)
    ensures OwesSent(RecoveryStep(s, e))
  {
    if e.SendsReplay? {
      DeliverKeepsOwesSent(s, Cur(s), ReplayWire(s));
    }
  }

  // ------------------------------------------------------------ whole steps

  lemma StepKeepsThreads(s: State, e: Event)
    requires Inv(s) && Enabled(s, e)
    ensures Shape(Step(s, e)) && Ids(Step(s, e)) && Handshake(Step(s, e)) && OwesSent(Step(s, e))
  {
    match e
    case Client(c) =>
      ClientKeepsShape(s, c);
      ClientKeepsIds(s, c);
      ClientKeepsHandshake(s, c);
      ClientKeepsOwesSent(s, c);
    case Server(v) =>
      ServerKeepsShape(s, v);
      ServerKeepsIds(s, v);
      ServerKeepsHandshake(s, v);
      ServerKeepsOwesSent(s, v);
    case Recovery(r) =>
      RecoveryKeepsShape(s, r);
      RecoveryKeepsIds(s, r);
      RecoveryKeepsHandshake(s, r);
      RecoveryKeepsOwesSent(s, r);
  }

  lemma StepKeepsKey(s: State, e: Event, k: Key)
    requires Inv(s) && Enabled(s, e)
    ensures Covered(Step(s, e), k) && BudgetOf(Step(s, e), k) && AccountedFor(Step(s, e), k)
  {
    assert Covered(s, k) && BudgetOf(s, k) && AccountedFor(s, k);
    match e
    case Client(c) => ClientKeepsCovered(s, c, k); ClientKeepsBudgetOf(s, c, k); ClientKeepsAccountedFor(s, c, k);
    case Server(v) => ServerKeepsCovered(s, v, k); ServerKeepsBudgetOf(s, v, k); ServerKeepsAccountedFor(s, v, k);
    case Recovery(r) =>
      RecoveryKeepsCovered(s, r, k);
      RecoveryKeepsBudgetOf(s, r, k);
      RecoveryKeepsAccountedFor(s, r, k);
  }

  lemma StepKeepsSwallowing(s: State, e: Event)
    requires Inv(s) && Enabled(s, e)
    ensures Swallowing(Step(s, e))
  {
    forall n: nat
      ensures Swallowed(Step(s, e), n)
    {
      assert Swallowed(s, n);
      match e
      case Client(c) => ClientKeepsSwallowed(s, c, n);
      case Server(v) => ServerKeepsSwallowed(s, v, n);
      case Recovery(r) => RecoveryKeepsSwallowed(s, r, n);
    }
  }

  /** One step of either thread, whatever the backend does, keeps every invariant. */
  lemma StepInv(s: State, e: Event)
    requires Inv(s) && Enabled(s, e)
    ensures Inv(Step(s, e))
  {
    StepKeepsThreads(s, e);
    StepKeepsSwallowing(s, e);
    forall k
      ensures Covered(Step(s, e), k) && BudgetOf(Step(s, e), k) && AccountedFor(Step(s, e), k)
    {
      StepKeepsKey(s, e, k);
    }
  }

  lemma {:induction false} RunInv(s: State, es: seq<Event>)
    requires Inv(s) && ValidRun(s, es)
    ensures Inv(Exec(s, es))
    decreases |es|
  {
    if es != [] {
      StepInv(s, es[0]);
      RunInv(Step(s, es[0]), es[1..]);
    }
  }
}
