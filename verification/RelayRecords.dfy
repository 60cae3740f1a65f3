/** What the relay remembers of the client's lines and what it does with it
    (pcbridge/relay.py, `_note_client_message` and `_recover`), in terms of the lines the
    client sent. */
module RelayRecords {
  import opened Wrappers
  import opened RelayProtocol
  import opened RelaySafety
  import opened RelayTheorems

  // --------------------------------------------------------- recorded lines

  /** The last line that holds a message of that kind. */
  function LastWith(history: seq<Line>, kind: Kind): Option<Line> {
    if history == [] then None
    else if Has(history[|history| - 1], kind) then Some(history[|history| - 1])
    else LastWith(history[..|history| - 1], kind)
  }

  lemma {:induction false} LastWithIsLast(history: seq<Line>, kind: Kind)
    ensures LastWith(history, kind).None? <==> forall i :: 0 <= i < |history| ==> !Has(history[i], kind)
    ensures LastWith(history, kind).Some? ==>
              exists i :: 0 <= i < |history| && LastWith(history, kind) == Some(history[i]) && Has(history[i], kind)
                          && forall j :: i < j < |history| ==> !Has(history[j], kind)
  {
    if history != [] && !Has(history[|history| - 1], kind) {
      var front := history[..|history| - 1];
      LastWithIsLast(front, kind);
      assert forall i :: 0 <= i < |front| ==> front[i] == history[i];
      if LastWith(front, kind).Some? {
        var i :| 0 <= i < |front| && LastWith(front, kind) == Some(front[i]) && Has(front[i], kind)
                 && forall j :: i < j < |front| ==> !Has(front[j], kind);
        assert LastWith(history, kind) == Some(history[i]) && Has(history[i], kind);
      }
    }
  }

  lemma LastOfLonger(history: seq<Line>, l: Line, kind: Kind)
    ensures LastWith(history + [l], kind) == if Has(l, kind) then Some(l) else LastWith(history, kind)
  {
    assert (history + [l])[..|history|] == history;
  }

  /** One of the first `i` messages of the line is of that kind. */
  predicate Seen(l: Line, i: nat, kind: Kind) {
    exists j :: 0 <= j < i && j < |l.msgs| && l.msgs[j].kind == kind
  }

  function NotedCount(c: ClientPc): nat
    requires c.Note?
  {
    if c.recorded then c.i + 1 else c.i
  }

  /** The lines the client thread is through with noting. */
  function NotedLines(s: State): seq<Line> {
    if s.client.Note? && s.history != [] then s.history[..|s.history| - 1] else s.history
  }

  /** What is recorded of a kind: the last line with it, where a line being noted counts
      as soon as its message of that kind has been. */
  ghost predicate RecordedIs(s: State, kind: Kind, recorded: Option<Line>) {
    && (s.client.Note? ==> s.history != [] && s.history[|s.history| - 1] == s.client.line)
    && recorded == if s.client.Note? && Seen(s.client.line, NotedCount(s.client), kind) then Some(s.client.line)
                   else LastWith(NotedLines(s), kind)
  }

  ghost predicate Recorded(s: State) {
    RecordedIs(s, Initialize, s.sh.initLine) && RecordedIs(s, Initialized, s.sh.readyLine)
  }

  lemma SeenAll(l: Line, kind: Kind)
    ensures Seen(l, |l.msgs|, kind) <==> Has(l, kind)
  {
  }

  lemma SeenNext(l: Line, i: nat, kind: Kind)
    requires i < |l.msgs|
    ensures Seen(l, i + 1, kind) <==> Seen(l, i, kind) || l.msgs[i].kind == kind
  {
  }

  lemma EndsWith(history: seq<Line>, l: Line)
    requires history != [] && history[|history| - 1] == l
    ensures history == history[..|history| - 1] + [l]
  {
  }

  lemma ReadingKeepsRecorded(s: State, l: Line, kind: Kind, recorded: Option<Line>)
    requires ClientEnabled(s, ReadsLine(l)) && RecordedIs(s, kind, recorded)
    ensures RecordedIs(ClientStep(s, ReadsLine(l)), kind, recorded)
  {
    LastOfLonger(s.history, l, kind);
    assert (s.history + [l])[..|s.history|] == s.history;
  }

  lemma NotingKeepsRecorded(s: State)
    requires ClientEnabled(s, Records) && Recorded(s)
    ensures Recorded(ClientStep(s, Records))
  {
    SeenNext(s.client.line, s.client.i, Initialize);
    SeenNext(s.client.line, s.client.i, Initialized);
  }

  lemma RegisteringKeepsRecorded(s: State, kind: Kind, recorded: Option<Line>)
    requires ClientEnabled(s, Registers) && RecordedIs(s, kind, recorded)
    ensures RecordedIs(ClientStep(s, Registers), kind, recorded)
  {
    if s.client.i + 1 == |s.client.line.msgs| {
      SeenAll(s.client.line, kind);
      EndsWith(s.history, s.client.line);
      LastOfLonger(s.history[..|s.history| - 1], s.client.line, kind);
    }
  }

  lemma ClientKeepsRecorded(s: State, e: ClientEvent)
    requires Recorded(s) && ClientEnabled(s, e)
    ensures Recorded(ClientStep(s, e))
  {
    match e
    case ReadsLine(l) =>
      ReadingKeepsRecorded(s, l, Initialize, s.sh.initLine);
      ReadingKeepsRecorded(s, l, Initialized, s.sh.readyLine);
    case Records => NotingKeepsRecorded(s);
    case Registers =>
      RegisteringKeepsRecorded(s, Initialize, s.sh.initLine);
      RegisteringKeepsRecorded(s, Initialized, s.sh.readyLine);
    case _ =>
  }

  lemma ServersKeepRecords(s: State, e: Event)
    requires Enabled(s, e) && !e.Client?
    ensures var u := Step(s, e);
            u.client == s.client && u.history == s.history
            && u.sh.initLine == s.sh.initLine && u.sh.readyLine == s.sh.readyLine
  {
  }

  lemma StepKeepsRecorded(s: State, e: Event)
    requires Recorded(s) && Enabled(s, e)
    ensures Recorded(Step(s, e))
  {
    if e.Client? {
      ClientKeepsRecorded(s, e.c);
    } else {
      ServersKeepRecords(s, e);
    }
  }

  lemma {:induction false} RunKeepsRecorded(s: State, es: seq<Event>)
    requires Recorded(s) && ValidRun(s, es)
    ensures Recorded(Exec(s, es))
    decreases |es|
  {
    if es != [] {
      StepKeepsRecorded(s, es[0]);
      RunKeepsRecorded(Step(s, es[0]), es[1..]);
    }
  }

  /** Whenever the client thread has noted the line it read last, the relay has recorded the
      client's last line with an initialize and its last line with the initialized notification. */
  lemma RecordsAreTheLast(es: seq<Event>)
    requires ValidRun(Start, es)
    ensures var s := Exec(Start, es);
            !s.client.Note? ==> s.sh.initLine == LastWith(s.history, Initialize)
                                && s.sh.readyLine == LastWith(s.history, Initialized)
  {
    RunKeepsRecorded(Start, es);
  }

  /** The client sent such a line and the relay is through with noting it. */
  predicate HasSent(s: State, kind: Kind) {
    exists i :: 0 <= i < |NotedLines(s)| && Has(NotedLines(s)[i], kind)
  }

  lemma SentIsRecorded(es: seq<Event>)
    requires ValidRun(Start, es)
    ensures HasSent(Exec(Start, es), Initialize) ==> Exec(Start, es).sh.initLine.Some?
    ensures HasSent(Exec(Start, es), Initialized) ==> Exec(Start, es).sh.readyLine.Some?
  {
    RunKeepsRecorded(Start, es);
    LastWithIsLast(NotedLines(Exec(Start, es)), Initialize);
    LastWithIsLast(NotedLines(Exec(Start, es)), Initialized);
  }

  // --------------------------------------------------------------- greeting

  /** Once the client has sent an initialize, every backend connected later hears an
      initialize first; once it has also sent the initialized notification, a backend given a
      replayed initialize hears that notification second. Both have been heard by any such
      backend that is in use or that the client thread is sending to. */
  lemma LaterBackendsAreGreeted(es: seq<Event>, more: seq<Event>, i: nat)
    requires ValidRun(Start, es) && ValidRun(Exec(Start, es), more)
    requires HasSent(Exec(Start, es), Initialize)
    requires |Exec(Start, es).conns| <= i < |Exec(Exec(Start, es), more).conns|
    ensures var s := Exec(Start, es);
            var u := Exec(s, more);
            var log := u.conns[i].log;
            var inUse := u.sh.backend == Some(i) || (u.client.Sending? && u.client.b == i);
            && (log != [] ==> IsInit(log[0]))
            && (HasSent(s, Initialized) && |log| >= 2 && log[0].Replay? ==> IsReady(log[1]))
            && (inUse ==> log != [] && (HasSent(s, Initialized) && log[0].Replay? ==> |log| >= 2))
  {
    var s := Exec(Start, es);
    SentIsRecorded(es);
    Reachable(es);
    RunInv(s, more);
    RunKeepsKnown(s, more, |s.conns|, s.sh.readyLine.Some?);
    assert GoodStart(Exec(s, more).conns[i]);
  }

  /** Recovery from the moment it connects, with no step of the client thread in between
      and no failing send. */
  predicate Undisturbed(es: seq<Event>) {
    forall i :: 0 <= i < |es| ==>
      es[i].Recovery? && (es[i].r.Connects? ==> es[i].r.ok) && (es[i].r.SendsReplay? ==> es[i].r.ok)
  }

  /** One message, as `_replay` needs it. */
  predicate Single(init: Option<Line>) {
    init.Some? && !init.value.isArray && |init.value.msgs| == 1
  }

  /** What a new backend has to hear first: nothing, the unanswered initialize itself, or the
      answered initialize as a replay and then the notification. */
  predicate HearsWhatItMust(log: seq<Wire>, init: Option<Line>, ready: Option<Line>, inFlight: map<Key, Kind>) {
    match init
    case None => log == []
    case Some(l) =>
      && Single(init)
      && if KeyOf(l) in inFlight then log == [FromClient(l)]
         else
           && log != [] && log[0].Replay? && log[0].line == l
           && log[1..] == if ready.Some? then [FromClient(ready.value)] else []
  }

  ghost predicate SameButConns(t: State, u: State) {
    && u.client == t.client && u.history == t.history && u.out == t.out
    && u.sh == t.sh.(swallow := u.sh.swallow, replays := u.sh.replays, backend := u.sh.backend)
  }

  predicate Unanswered(init: Option<Line>, inFlight: map<Key, Kind>) {
    Single(init) && KeyOf(init.value) in inFlight
  }

  ghost predicate LogOnTheWay(t: State, p: ServerPc, log: seq<Wire>) {
    var init, ready := t.sh.initLine, t.sh.readyLine;
    match p
    case ReplayStart => log == []
    case ReplayLoad => log == [] && init.Some?
    case ReplayCheck(l) => log == [] && init == Some(l) && Single(init)
    case ReplayPending => log == [] && Unanswered(init, t.sh.inFlight)
    case ReplayMark(l) => log == [] && init == Some(l) && Single(init) && !Unanswered(init, t.sh.inFlight)
    case ReplaySend(l, n) => log == [] && init == Some(l) && Single(init) && !Unanswered(init, t.sh.inFlight)
    case ReplayReady => HearsWhatItMust(log, init, None, t.sh.inFlight) && log != [] && log[0].Replay?
    case ReplaySendReady => HearsWhatItMust(log, init, None, t.sh.inFlight) && log != [] && log[0].Replay? && ready.Some?
    case Installing => HearsWhatItMust(log, init, ready, t.sh.inFlight)
    case Top => HearsWhatItMust(log, init, ready, t.sh.inFlight)
    case _ => false
  }

  ghost predicate OnTheWay(t: State, u: State) {
    && SameButConns(t, u)
    && if u.server.Connecting? then u.conns == t.conns
       else if u.server.Stopped? then t.sh.initLine.Some? && !Single(t.sh.initLine)
       else
         && |u.conns| == |t.conns| + 1 && LogOnTheWay(t, u.server, u.conns[|t.conns|].log)
         && (u.server.Top? ==> u.sh.backend == Some(|t.conns|))
  }

  lemma StepOnTheWay(t: State, u: State, r: RecoveryEvent)
    requires OnTheWay(t, u) && RecoveryEnabled(u, r) && (r.Connects? ==> r.ok) && (r.SendsReplay? ==> r.ok)
    ensures OnTheWay(t, RecoveryStep(u, r))
  {
  }

  lemma {:induction false} RunOnTheWay(t: State, u: State, es: seq<Event>)
    requires OnTheWay(t, u) && ValidRun(u, es) && Undisturbed(es)
    ensures OnTheWay(t, Exec(u, es))
    decreases |es|
  {
    if es != [] {
      StepOnTheWay(t, u, es[0].r);
      RunOnTheWay(t, Step(u, es[0]), es[1..]);
    }
  }

  /** An undisturbed recovery that gets back to its loop has put a new backend in use, which has
      heard exactly this: the client's last initialize itself while it is unanswered, otherwise
      that initialize as a replay and the client's last initialized notification. It gets stuck
      only on a last initialize that came in an array. */
  lemma NewBackendHears(es: seq<Event>, more: seq<Event>)
    requires ValidRun(Start, es) && Exec(Start, es).server.Connecting? && !Exec(Start, es).client.Note?
    requires ValidRun(Exec(Start, es), more) && Undisturbed(more)
    ensures var s := Exec(Start, es);
            var u := Exec(s, more);
            var init := LastWith(s.history, Initialize);
            && SameButConns(s, u)
            && (u.server.Top? ==>
                  |u.conns| == |s.conns| + 1 && u.sh.backend == Some(|s.conns|)
                  && HearsWhatItMust(u.conns[|s.conns|].log, init, LastWith(s.history, Initialized), s.sh.inFlight))
            && (u.server.Stopped? ==> init.Some? && !Single(init))
  {
    RecordsAreTheLast(es);
    RunOnTheWay(Exec(Start, es), Exec(Start, es), more);
  }

  // ------------------------------------------------------------ ids for good

  /** An id that is no longer pending stays so. */
  ghost predicate Through(s: State, k: Key) {
    k in s.noted && k !in s.sh.inFlight
  }

  lemma ClientKeepsThrough(s: State, e: ClientEvent, k: Key)
    requires Shape(s) && Ids(s) && Through(s, k) && ClientEnabled(s, e)
    ensures Through(ClientStep(s, e), k) && Errors(ClientStep(s, e), k) == Errors(s, k)
  {
  }

  lemma ServerKeepsThrough(s: State, e: ServerEvent, k: Key)
    requires Through(s, k) && ServerEnabled(s, e)
    ensures Through(ServerStep(s, e), k) && Errors(ServerStep(s, e), k) == Errors(s, k)
  {
  }

  lemma RecoveryKeepsThrough(s: State, e: RecoveryEvent, k: Key)
    requires Through(s, k) && RecoveryEnabled(s, e)
    ensures Through(RecoveryStep(s, e), k) && Errors(RecoveryStep(s, e), k) == Errors(s, k)
  {
    match e
    case Fails(order) =>
      CountDistinct(order, k);
      assert k in order <==> k in PendingKeys(s.sh);
    case WritesError => PopFront(s.server.todo, k);
    case _ =>
  }

  lemma StepKeepsThrough(s: State, e: Event, k: Key)
    requires Shape(s) && Ids(s) && Through(s, k) && Enabled(s, e)
    ensures Through(Step(s, e), k) && Errors(Step(s, e), k) == Errors(s, k)
  {
    match e
    case Client(c) => ClientKeepsThrough(s, c, k);
    case Server(v) => ServerKeepsThrough(s, v, k);
    case Recovery(r) => RecoveryKeepsThrough(s, r, k);
  }

  lemma {:induction false} RunKeepsThrough(s: State, es: seq<Event>, k: Key)
    requires Inv(s) && Through(s, k) && ValidRun(s, es)
    ensures Through(Exec(s, es), k) && Errors(Exec(s, es), k) == Errors(s, k)
    decreases |es|
  {
    if es != [] {
      StepKeepsThrough(s, es[0], k);
      StepInv(s, es[0]);
      RunKeepsThrough(Step(s, es[0]), es[1..], k);
    }
  }

  /** A request the client has cancelled is never pending again, and no recovery answers it
      with an error that was not already on its way. */
  lemma CancelledForGood(es: seq<Event>, more: seq<Event>, k: Key)
    requires ValidRun(Start, es) && Enabled(Exec(Start, es), Client(Records)) && k in Exec(Start, es).noted
    requires var c := Exec(Start, es).client; c.line.msgs[c.i].kind == Cancelled(k)
    requires ValidRun(Step(Exec(Start, es), Client(Records)), more)
    ensures var s := Exec(Start, es);
            var u := Exec(Step(s, Client(Records)), more);
            k !in u.sh.inFlight && Errors(u, k) == Errors(s, k)
  {
    var s := Exec(Start, es);
    Reachable(es);
    StepInv(s, Client(Records));
    RunKeepsThrough(Step(s, Client(Records)), more, k);
  }

  // --------------------------------------------- no error for an initialize

  predicate AsksAs(l: Line, k: Key, kind: Kind) {
    exists i :: 0 <= i < |l.msgs| && IsRequest(l.msgs[i]) && l.msgs[i] == Msg(kind, Some(k))
  }

  /** The client asked for `k` with a message of that kind. */
  predicate Asked(history: seq<Line>, k: Key, kind: Kind) {
    exists i :: 0 <= i < |history| && AsksAs(history[i], k, kind)
  }

  /** One id is asked for with one kind only, and that kind is noted with it. */
  ghost predicate KindOf(s: State, k: Key) {
    && (forall a, b :: Asked(s.history, k, a) && Asked(s.history, k, b) ==> a == b)
    && (k in s.sh.inFlight ==> Asked(s.history, k, s.sh.inFlight[k]))
    && (Errors(s, k) > 0 ==> !Asked(s.history, k, Initialize))
  }

  lemma AskedOfLonger(history: seq<Line>, l: Line, k: Key, kind: Kind)
    ensures Asked(history + [l], k, kind) <==> Asked(history, k, kind) || AsksAs(l, k, kind)
  {
    if Asked(history, k, kind) {
      var i :| 0 <= i < |history| && AsksAs(history[i], k, kind);
      assert (history + [l])[i] == history[i];
    }
    if AsksAs(l, k, kind) {
      assert (history + [l])[|history|] == l;
    }
  }

  lemma AsksIsKey(l: Line, k: Key, kind: Kind)
    ensures AsksAs(l, k, kind) ==> k in RequestKeys(l)
  {
  }

  lemma AsksOnce(l: Line, k: Key, a: Kind, b: Kind)
    requires WellFormed(l) && AsksAs(l, k, a) && AsksAs(l, k, b)
    ensures a == b
  {
  }

  lemma ReadingKeepsKindOf(s: State, l: Line, k: Key)
    requires Inv(s) && KindOf(s, k) && ClientEnabled(s, ReadsLine(l))
    ensures KindOf(ClientStep(s, ReadsLine(l)), k)
  {
    forall a
      ensures Asked(s.history + [l], k, a) <==> Asked(s.history, k, a) || AsksAs(l, k, a)
      ensures AsksAs(l, k, a) ==> k in RequestKeys(l) && k !in s.used
      ensures Asked(s.history, k, a) ==> k in s.used
    {
      AskedOfLonger(s.history, l, k, a);
      AsksIsKey(l, k, a);
      if Asked(s.history, k, a) {
        var i :| 0 <= i < |s.history| && AsksAs(s.history[i], k, a);
        AsksIsKey(s.history[i], k, a);
        assert s.history[i] in s.history;
      }
    }
    forall a, b | AsksAs(l, k, a) && AsksAs(l, k, b)
      ensures a == b
    {
      AsksOnce(l, k, a, b);
    }
    assert BudgetOf(s, k);
  }

  lemma RegisteringKeepsKindOf(s: State, k: Key)
    requires Inv(s) && KindOf(s, k) && ClientEnabled(s, Registers)
    ensures KindOf(ClientStep(s, Registers), k)
  {
    var l, i := s.client.line, s.client.i;
    if IsRequest(l.msgs[i]) && l.msgs[i].id == Some(k) {
      assert AsksAs(l, k, l.msgs[i].kind);
      var j :| 0 <= j < |s.history| && s.history[j] == l;
      assert Asked(s.history, k, l.msgs[i].kind);
    }
  }

  lemma ClientKeepsKindOf(s: State, e: ClientEvent, k: Key)
    requires Inv(s) && KindOf(s, k) && ClientEnabled(s, e)
    ensures KindOf(ClientStep(s, e), k)
  {
    match e
    case ReadsLine(l) => ReadingKeepsKindOf(s, l, k);
    case Registers => RegisteringKeepsKindOf(s, k);
    case _ =>
  }

  lemma ServerKeepsKindOf(s: State, e: ServerEvent, k: Key)
    requires KindOf(s, k) && ServerEnabled(s, e)
    ensures KindOf(ServerStep(s, e), k)
  {
  }

  lemma RecoveryKeepsKindOf(s: State, e: RecoveryEvent, k: Key)
    requires KindOf(s, k) && RecoveryEnabled(s, e)
    ensures KindOf(RecoveryStep(s, e), k)
  {
    match e
    case Fails(order) =>
      CountDistinct(order, k);
      assert k in order <==> k in PendingKeys(s.sh);
    case WritesError => PopFront(s.server.todo, k);
    case _ =>
  }

  lemma StepKeepsKindOf(s: State, e: Event, k: Key)
    requires Inv(s) && KindOf(s, k) && Enabled(s, e)
    ensures KindOf(Step(s, e), k)
  {
    match e
    case Client(c) => ClientKeepsKindOf(s, c, k);
    case Server(v) => ServerKeepsKindOf(s, v, k);
    case Recovery(r) => RecoveryKeepsKindOf(s, r, k);
  }

  lemma {:induction false} RunKeepsKindOf(s: State, es: seq<Event>, k: Key)
    requires Inv(s) && KindOf(s, k) && ValidRun(s, es)
    ensures KindOf(Exec(s, es), k)
    decreases |es|
  {
    if es != [] {
      StepKeepsKindOf(s, es[0], k);
      StepInv(s, es[0]);
      RunKeepsKindOf(Step(s, es[0]), es[1..], k);
    }
  }

  /** The relay's own error is only ever given to a request that is not an initialize. */
  lemma NoErrorForAnInitialize(es: seq<Event>, k: Key)
    requires ValidRun(Start, es) && Asked(Exec(Start, es).history, k, Initialize)
    ensures Retry(k) !in Exec(Start, es).out
  {
    StartInv();
    RunKeepsKindOf(Start, es, k);
  }

  // ---------------------------------------------------- lines in and out

  /** What the server thread read, without the answers to replays. */
  function ReadBy(es: seq<Event>): seq<ServerLine> {
    if es == [] then []
    else
      var e := es[|es| - 1];
      ReadBy(es[..|es| - 1])
      + if e.Server? && e.v.Reads? && !(e.v.got.Answer? && e.v.got.key.ReplayKey?) then [e.v.got] else []
  }

  /** What the client was written of it. */
  function Forwarded(out: seq<Out>): seq<ServerLine> {
    if out == [] then []
    else
      var o := out[|out| - 1];
      Forwarded(out[..|out| - 1]) + if o.Forward? then [o.line] else []
  }

  /** Read but not yet written. */
  function OnItsWay(p: ServerPc): seq<ServerLine> {
    if (p.Noting? || p.Writing?) && !(p.got.Answer? && p.got.key.ReplayKey?) then [p.got] else []
  }

  lemma ForwardedOfLonger(out: seq<Out>, o: Out)
    ensures Forwarded(out + [o]) == Forwarded(out) + if o.Forward? then [o.line] else []
  {
    assert (out + [o])[..|out|] == out;
  }

  lemma ReadByLonger(es: seq<Event>, e: Event)
    ensures ReadBy(es + [e]) == ReadBy(es)
              + if e.Server? && e.v.Reads? && !(e.v.got.Answer? && e.v.got.key.ReplayKey?) then [e.v.got] else []
  {
    assert (es + [e])[..|es|] == es;
  }

  lemma ClientForwardsNothing(s: State, e: ClientEvent)
    requires ClientEnabled(s, e)
    ensures ClientStep(s, e).out == s.out && ClientStep(s, e).server == s.server
  {
  }

  function NewlyRead(e: ServerEvent): seq<ServerLine> {
    if e.Reads? && !(e.got.Answer? && e.got.key.ReplayKey?) then [e.got] else []
  }

  lemma ServerWrites(s: State, e: ServerEvent)
    requires ServerEnabled(s, e)
    ensures ServerStep(s, e).out == s.out + if e.Writes? then [Forward(s.server.got)] else []
  {
  }

  lemma ServerPasses(s: State, e: ServerEvent)
    requires Swallowing(s) && ServerEnabled(s, e)
    ensures !e.Writes? ==> OnItsWay(ServerStep(s, e).server) == OnItsWay(s.server) + NewlyRead(e)
    ensures e.Writes? ==> OnItsWay(s.server) == [s.server.got] && OnItsWay(ServerStep(s, e).server) == NewlyRead(e) == []
  {
    if (s.server.Noting? || s.server.Writing?) && s.server.got.Answer? && s.server.got.key.ReplayKey? {
      assert Swallowed(s, s.server.got.key.n);
    }
  }

  lemma ServerForwards(s: State, e: ServerEvent)
    requires Swallowing(s) && ServerEnabled(s, e)
    ensures Forwarded(ServerStep(s, e).out) + OnItsWay(ServerStep(s, e).server) ==
            Forwarded(s.out) + OnItsWay(s.server) + NewlyRead(e)
  {
    ServerWrites(s, e);
    ServerPasses(s, e);
    if e.Writes? {
      ForwardedOfLonger(s.out, Forward(s.server.got));
    }
  }

  lemma RecoveryWrites(s: State, e: RecoveryEvent)
    requires RecoveryEnabled(s, e)
    ensures RecoveryStep(s, e).out == s.out
              + if e.WritesError? && s.server.todo != [] then [Retry(s.server.todo[0])] else []
    ensures OnItsWay(RecoveryStep(s, e).server) == OnItsWay(s.server)
  {
  }

  lemma RecoveryForwardsNothing(s: State, e: RecoveryEvent)
    requires RecoveryEnabled(s, e)
    ensures Forwarded(RecoveryStep(s, e).out) == Forwarded(s.out)
    ensures OnItsWay(RecoveryStep(s, e).server) == OnItsWay(s.server)
  {
    RecoveryWrites(s, e);
    if e.WritesError? && s.server.todo != [] {
      ForwardedOfLonger(s.out, Retry(s.server.todo[0]));
    }
  }

  lemma OneMoreEvent(done: seq<Event>, es: seq<Event>)
    ensures es == [] ==> done + es == done
    ensures es != [] ==> done + [es[0]] + es[1..] == done + es
  {
  }

  lemma StepForwards(s: State, e: Event, done: seq<Event>)
    requires Swallowing(s) && Enabled(s, e) && Forwarded(s.out) + OnItsWay(s.server) == ReadBy(done)
    ensures Forwarded(Step(s, e).out) + OnItsWay(Step(s, e).server) == ReadBy(done + [e])
  {
    ReadByLonger(done, e);
    match e
    case Client(c) => ClientForwardsNothing(s, c);
    case Server(v) => ServerForwards(s, v);
    case Recovery(r) => RecoveryForwardsNothing(s, r);
  }

  lemma {:induction false} RunForwards(s: State, done: seq<Event>, es: seq<Event>)
    requires Inv(s) && ValidRun(s, es) && Forwarded(s.out) + OnItsWay(s.server) == ReadBy(done)
    ensures Forwarded(Exec(s, es).out) + OnItsWay(Exec(s, es).server) == ReadBy(done + es)
    decreases |es|
  {
    OneMoreEvent(done, es);
    if es != [] {
      StepForwards(s, es[0], done);
      StepInv(s, es[0]);
      RunForwards(Step(s, es[0]), done + [es[0]], es[1..]);
    }
  }

  /** The client is written every line the relay read from any backend, once and in order,
      but for the answers to replays. */
  lemma EveryOtherLineIsForwarded(es: seq<Event>)
    requires ValidRun(Start, es)
    ensures Forwarded(Exec(Start, es).out) + OnItsWay(Exec(Start, es).server) == ReadBy(es)
  {
    StartInv();
    RunForwards(Start, [], es);
    assert [] + es == es;
  }

  predicate WasDelivered(s: State, l: Line) {
    exists b, i :: 0 <= b < |s.conns| && 0 <= i < |s.conns[b].log| && s.conns[b].log[i] == FromClient(l)
  }

  function InHand(c: ClientPc): nat {
    if c.Idle? || c.Gone? then 0 else 1
  }

  /** All lines but the one in hand were sent to a backend. */
  ghost predicate LinesSent(s: State) {
    && (InHand(s.client) == 1 ==> s.history != [] && s.history[|s.history| - 1] == s.client.line)
    && (forall j :: 0 <= j < |s.history| - InHand(s.client) ==> WasDelivered(s, s.history[j]))
  }

  lemma DeliverKeepsDelivered(s: State, b: nat, w: Wire, l: Line)
    requires b < |s.conns|
    ensures WasDelivered(s, l) ==> WasDelivered(Deliver(s, b, w), l)
    ensures w == FromClient(l) ==> WasDelivered(Deliver(s, b, w), l)
  {
    var u := Deliver(s, b, w);
    assert u.conns[b].log[|s.conns[b].log|] == w;
    if WasDelivered(s, l) {
      var c, i :| 0 <= c < |s.conns| && 0 <= i < |s.conns[c].log| && s.conns[c].log[i] == FromClient(l);
      assert u.conns[c].log[i] == FromClient(l);
    }
  }

  lemma StepKeepsDelivered(s: State, e: Event, l: Line)
    requires Enabled(s, e) && WasDelivered(s, l)
    ensures WasDelivered(Step(s, e), l)
  {
    var c, i :| 0 <= c < |s.conns| && 0 <= i < |s.conns[c].log| && s.conns[c].log[i] == FromClient(l);
    assert 0 <= c < |Step(s, e).conns| && 0 <= i < |Step(s, e).conns[c].log|;
    assert Step(s, e).conns[c].log[i] == FromClient(l);
  }

  lemma ClientKeepsLinesSent(s: State, e: ClientEvent)
    requires Shape(s) && LinesSent(s) && ClientEnabled(s, e)
    ensures LinesSent(ClientStep(s, e))
  {
    var u := ClientStep(s, e);
    forall j | 0 <= j < |u.history| - InHand(u.client)
      ensures WasDelivered(u, u.history[j])
    {
      if j < |s.history| - InHand(s.client) {
        StepKeepsDelivered(s, Client(e), s.history[j]);
      } else {
        DeliverKeepsDelivered(s, s.client.b, FromClient(s.client.line), s.client.line);
      }
    }
  }

  lemma ServersKeepLines(s: State, e: Event)
    requires Enabled(s, e) && !e.Client?
    ensures Step(s, e).client == s.client && Step(s, e).history == s.history
  {
  }

  lemma StepKeepsLinesSent(s: State, e: Event)
    requires Shape(s) && LinesSent(s) && Enabled(s, e)
    ensures LinesSent(Step(s, e))
  {
    if e.Client? {
      ClientKeepsLinesSent(s, e.c);
    } else {
      ServersKeepLines(s, e);
      forall j | 0 <= j < |s.history| - InHand(s.client)
        ensures WasDelivered(Step(s, e), s.history[j])
      {
        StepKeepsDelivered(s, e, s.history[j]);
      }
    }
  }

  lemma {:induction false} RunKeepsLinesSent(s: State, es: seq<Event>)
    requires Inv(s) && LinesSent(s) && ValidRun(s, es)
    ensures LinesSent(Exec(s, es))
    decreases |es|
  {
    if es != [] {
      StepKeepsLinesSent(s, es[0]);
      StepInv(s, es[0]);
      RunKeepsLinesSent(Step(s, es[0]), es[1..]);
    }
  }

  /** The client thread takes no new line before the last one was sent whole to a backend. */
  lemma EveryLineIsSent(es: seq<Event>, j: nat)
    requires ValidRun(Start, es)
    requires j < |Exec(Start, es).history| - InHand(Exec(Start, es).client)
    ensures WasDelivered(Exec(Start, es), Exec(Start, es).history[j])
  {
    StartInv();
    RunKeepsLinesSent(Start, es);
  }

  // ------------------------------------------------------------ end of input

  /** Nothing is recovered for a client that is gone. */
  ghost predicate Leaving(s: State) {
    s.sh.closing && s.client.Gone? && InService(s.server)
  }

  lemma {:induction false} GoneMeansNoRecovery(s: State, es: seq<Event>)
    requires Leaving(s) && ValidRun(s, es)
    ensures Leaving(Exec(s, es)) && |Exec(s, es).conns| == |s.conns|
    decreases |es|
  {
    if es != [] {
      GoneMeansNoRecovery(Step(s, es[0]), es[1..]);
    }
  }

  /** Once the client has closed its end while the server thread is serving, no backend is
      connected any more, and the next time the server thread looks it stops. */
  lemma NoBackendAfterTheEnd(es: seq<Event>, more: seq<Event>)
    requires ValidRun(Start, es) && Enabled(Exec(Start, es), Client(Eof)) && InService(Exec(Start, es).server)
    requires ValidRun(Step(Exec(Start, es), Client(Eof)), more)
    ensures var u := Exec(Step(Exec(Start, es), Client(Eof)), more);
            && |u.conns| == |Exec(Start, es).conns|
            && (u.server.Top? ==> Step(u, Server(Looks)).server.Stopped?)
            && (u.server.AtEof? ==> Step(u, Server(MarksEof)).server.Stopped?)
  {
    GoneMeansNoRecovery(Step(Exec(Start, es), Client(Eof)), more);
  }
}
