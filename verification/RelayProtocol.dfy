/** The stdio relay (pcbridge/relay.py) as a transition system of two threads.

    The client thread runs `client_loop`, the server thread runs `server_loop`.
    Every critical section under `cond`, every unlocked read or write of a shared
    field and every `backend.send` is one step. A backend may stop answering or
    refuse a send at any moment, which is what "the backend breaks" means here.
 */
module RelayProtocol {
  import opened Wrappers

  // ---------------------------------------------------------------- messages

  /** A JSON-RPC id as `_id_key` prints it. Replay ids are the relay's own. */
  datatype Key = NullKey | ClientKey(n: nat) | ReplayKey(n: nat)

  datatype Kind = Initialize | Initialized | Cancelled(target: Key) | OtherMethod | NoMethod

  datatype Msg = Msg(kind: Kind, id: Option<Key>)

  /** One line from the client: a JSON array of messages, one message, or no JSON at all (`[]`). */
  datatype Line = Line(msgs: seq<Msg>, isArray: bool)

  predicate IsRequest(m: Msg) {
    m.kind != NoMethod && m.id.Some?
  }

  function RequestKeys(l: Line): set<Key> {
    set i | 0 <= i < |l.msgs| && IsRequest(l.msgs[i]) :: l.msgs[i].id.value
  }

  predicate Has(l: Line, kind: Kind) {
    exists i :: 0 <= i < |l.msgs| && l.msgs[i].kind == kind
  }

  /** What is assumed of a client line: ids within it differ and none is a replay id. */
  predicate WellFormed(l: Line) {
    && (!l.isArray ==> |l.msgs| <= 1)
    && (forall i, j :: 0 <= i < j < |l.msgs| && IsRequest(l.msgs[i]) && IsRequest(l.msgs[j])
                       ==> l.msgs[i].id != l.msgs[j].id)
    && (forall i :: 0 <= i < |l.msgs| && IsRequest(l.msgs[i]) ==> !l.msgs[i].id.value.ReplayKey?)
  }

  /** `_id_key(msg.get("id"))` of a single message. */
  function KeyOf(l: Line): Key
    requires |l.msgs| == 1
  {
    if l.msgs[0].id.Some? then l.msgs[0].id.value else NullKey
  }

  /** A line as a backend receives it: unchanged, or the recorded initialize under a replay id. */
  datatype Wire = FromClient(line: Line) | Replay(line: Line, n: nat)

  function WireKeys(w: Wire): set<Key> {
    match w
    case FromClient(l) => RequestKeys(l)
    case Replay(_, n) => {ReplayKey(n)}
  }

  predicate IsInit(w: Wire) {
    w.Replay? || Has(w.line, Initialize)
  }

  predicate IsReady(w: Wire) {
    w.FromClient? && Has(w.line, Initialized)
  }

  /** A line from a backend: the answer to one id, or anything the relay only forwards. */
  datatype ServerLine = Answer(key: Key) | Other

  /** What the client is written: a backend's line, or the relay's own retryable error. */
  datatype Out = Forward(line: ServerLine) | Retry(key: Key)

  // ------------------------------------------------------------------- state

  /** The fields of the `Relay` object. */
  datatype Shared = Shared(
    backend: Option<nat>,
    inFlight: map<Key, Kind>,
    swallow: set<Key>,
    initLine: Option<Line>,
    readyLine: Option<Line>,
    replays: nat,
    closing: bool)

  /** One connection: what was delivered to it, the answers it still owes, and what
      the relay had recorded when the connection was opened. */
  datatype Conn = Conn(log: seq<Wire>, owed: multiset<Key>, initKnown: bool, readyKnown: bool)

  datatype ClientPc =
    | Idle
    | Note(line: Line, i: nat, recorded: bool)
    | Wait(line: Line)
    | Sending(line: Line, b: nat)
    | SendBroke(line: Line, b: nat)
    | Gone

  datatype ServerPc =
    | Top
    | Reading(b: nat)
    | Noting(got: ServerLine)
    | Writing(got: ServerLine)
    | AtEof(b: nat)
    | Failing
    | Erroring(todo: seq<Key>)
    | Connecting
    | ReplayStart
    | ReplayLoad
    | ReplayCheck(init: Line)
    | ReplayPending
    | ReplayMark(init: Line)
    | ReplaySend(init: Line, n: nat)
    | ReplayReady
    | ReplaySendReady
    | Installing
    | Stopped

  /** The whole system. From `history` on the fields only record what happened. */
  datatype State = State(
    sh: Shared,
    client: ClientPc,
    server: ServerPc,
    conns: seq<Conn>,
    out: seq<Out>,
    history: seq<Line>,
    used: set<Key>,
    noted: set<Key>,
    cancelled: set<Key>,
    parkedFailed: set<Key>,
    delivered: multiset<Key>)

  const Start: State := State(
    Shared(Some(0), map[], {}, None, None, 0, false),
    Idle, Top, [Conn([], multiset{}, false, false)], [], [], {}, {}, {}, {}, multiset{})

  /** The newest connection: the one in use, or the one being prepared. */
  function Cur(s: State): int {
    |s.conns| - 1
  }

  // ------------------------------------------- critical sections of `Relay`

  /** First part of `_note_client_message` for one message. */
  function Record(sh: Shared, m: Msg, l: Line): Shared {
    match m.kind
    case Initialize => sh.(initLine := Some(l))
    case Initialized => sh.(readyLine := Some(l))
    case Cancelled(k) => sh.(inFlight := sh.inFlight - {k})
    case OtherMethod => sh
    case NoMethod => sh
  }

  /** Second part of `_note_client_message` for one message. */
  function Register(sh: Shared, m: Msg): Shared {
    if IsRequest(m) then sh.(inFlight := sh.inFlight[m.id.value := m.kind]) else sh
  }

  function DropBackend(sh: Shared, b: nat): Shared {
    if sh.backend == Some(b) then sh.(backend := None) else sh
  }

  predicate Forwards(sh: Shared, got: ServerLine) {
    got.Other? || got.key !in sh.swallow
  }

  /** `_note_server_line`. */
  function NoteServer(sh: Shared, got: ServerLine): Shared {
    if got.Other? then sh
    else if got.key in sh.swallow then sh.(swallow := sh.swallow - {got.key})
    else sh.(inFlight := sh.inFlight - {got.key})
  }

  /** The requests `_fail_in_flight` gives up: all but an unanswered initialize. */
  function PendingKeys(sh: Shared): set<Key> {
    set k | k in sh.inFlight && sh.inFlight[k] != Initialize
  }

  function KeepInit(sh: Shared): Shared {
    sh.(inFlight := map k | k in sh.inFlight && sh.inFlight[k] == Initialize :: sh.inFlight[k])
  }

  function MarkReplay(sh: Shared): Shared {
    sh.(replays := sh.replays + 1, swallow := sh.swallow + {ReplayKey(sh.replays + 1)})
  }

  function Install(sh: Shared, b: nat): Shared {
    sh.(backend := Some(b))
  }

  // ------------------------------------------------------------------- steps

  /** Steps of the client thread: `client_loop` and `_send`. */
  datatype ClientEvent =
    | ReadsLine(line: Line)
    | Records
    | Registers
    | Picks
    | Sends(ok: bool, reached: bool)
    | Drops
    | Eof

  /** Steps of the server thread in `server_loop`. */
  datatype ServerEvent =
    | Looks
    | Reads(got: ServerLine)
    | SeesEof
    | MarksEof
    | Notes
    | Writes

  /** Steps of the server thread in `_recover`. */
  datatype RecoveryEvent =
    | Fails(order: seq<Key>)
    | WritesError
    | Connects(ok: bool)
    | LooksForInit
    | LoadsInit
    | ChecksInit
    | Marks
    | SendsReplay(ok: bool)
    | LooksForReady
    | Installs

  datatype Event = Client(c: ClientEvent) | Server(v: ServerEvent) | Recovery(r: RecoveryEvent)

  function NextNote(l: Line, i: nat): ClientPc {
    if i < |l.msgs| then Note(l, i, false) else Wait(l)
  }

  /** The requests in the line the client thread is working on. */
  function Hand(c: ClientPc): set<Key> {
    if c.Idle? || c.Gone? then {} else RequestKeys(c.line)
  }

  predicate Enumerates(order: seq<Key>, keys: set<Key>) {
    && (set k | k in order) == keys
    && (forall i, j :: 0 <= i < j < |order| ==> order[i] != order[j])
  }

  predicate ClientEnabled(s: State, e: ClientEvent) {
    match e
    case ReadsLine(l) => s.client.Idle? && WellFormed(l) && RequestKeys(l) !! s.used
    case Records => s.client.Note? && !s.client.recorded && s.client.i < |s.client.line.msgs|
    case Registers => s.client.Note? && s.client.recorded && s.client.i < |s.client.line.msgs|
    case Picks => s.client.Wait? && (s.sh.closing || s.sh.backend.Some?)
    case Sends(_, _) => s.client.Sending? && s.client.b < |s.conns|
    case Drops => s.client.SendBroke?
    case Eof => s.client.Idle?
  }

  predicate ServerEnabled(s: State, e: ServerEvent) {
    match e
    case Looks => s.server.Top?
    case Reads(got) =>
      s.server.Reading? && s.server.b < |s.conns| && (got.Answer? ==> got.key in s.conns[s.server.b].owed)
    case SeesEof => s.server.Reading?
    case MarksEof => s.server.AtEof?
    case Notes => s.server.Noting?
    case Writes => s.server.Writing?
  }

  predicate RecoveryEnabled(s: State, e: RecoveryEvent) {
    match e
    case Fails(order) => s.server.Failing? && Enumerates(order, PendingKeys(s.sh))
    case WritesError => s.server.Erroring?
    case Connects(_) => s.server.Connecting?
    case LooksForInit => s.server.ReplayStart?
    case LoadsInit => s.server.ReplayLoad? && s.sh.initLine.Some?
    case ChecksInit => s.server.ReplayCheck? && |s.server.init.msgs| == 1
    case Marks => s.server.ReplayMark?
    case SendsReplay(_) =>
      && |s.conns| > 0
      && (s.server.ReplaySend? || (s.server.ReplayPending? && s.sh.initLine.Some?)
          || (s.server.ReplaySendReady? && s.sh.readyLine.Some?))
    case LooksForReady => s.server.ReplayReady?
    case Installs => s.server.Installing? && |s.conns| > 0
  }

  predicate Enabled(s: State, e: Event) {
    match e
    case Client(c) => ClientEnabled(s, c)
    case Server(v) => ServerEnabled(s, v)
    case Recovery(r) => RecoveryEnabled(s, r)
  }

  /** Line `w` reaches connection `b`, which from then on owes the answers. */
  function Deliver(s: State, b: nat, w: Wire): State
    requires b < |s.conns|
  {
    var c := s.conns[b];
    s.(conns := s.conns[b := c.(log := c.log + [w], owed := c.owed + multiset(WireKeys(w)))],
       delivered := s.delivered + multiset(WireKeys(w)))
  }

  function ClientStep(s: State, e: ClientEvent): State
    requires ClientEnabled(s, e)
  {
    match e
    case ReadsLine(l) =>
      s.(client := NextNote(l, 0), used := s.used + RequestKeys(l), history := s.history + [l])
    case Records =>
      var m := s.client.line.msgs[s.client.i];
      s.(sh := Record(s.sh, m, s.client.line),
         cancelled := if m.kind.Cancelled? then s.cancelled + {m.kind.target} else s.cancelled,
         client := s.client.(recorded := true))
    case Registers =>
      var m := s.client.line.msgs[s.client.i];
      s.(sh := Register(s.sh, m),
         noted := if IsRequest(m) then s.noted + {m.id.value} else s.noted,
         client := NextNote(s.client.line, s.client.i + 1))
    case Picks =>
      s.(client := if s.sh.closing then Idle else Sending(s.client.line, s.sh.backend.value))
    case Sends(ok, reached) =>
      // A send that fails may still have handed the line over.
      var l, b := s.client.line, s.client.b;
      var s' := if ok || reached then Deliver(s, b, FromClient(l)) else s;
      s'.(client := if ok then Idle else SendBroke(l, b))
    case Drops =>
      s.(sh := DropBackend(s.sh, s.client.b), client := Wait(s.client.line))
    case Eof =>
      s.(sh := s.sh.(closing := true), client := Gone)
  }

  function ServerStep(s: State, e: ServerEvent): State
    requires ServerEnabled(s, e)
  {
    match e
    case Looks =>
      s.(server := if s.sh.closing then Stopped
                   else if s.sh.backend.None? then Failing
                   else Reading(s.sh.backend.value))
    case Reads(got) =>
      var b := s.server.b;
      var c := s.conns[b];
      s.(server := Noting(got),
         conns := if got.Other? then s.conns
                  else s.conns[b := c.(owed := c.owed - multiset{got.key})])
    case SeesEof => s.(server := AtEof(s.server.b))
    case MarksEof =>
      if s.sh.closing then s.(server := Stopped)
      else s.(sh := DropBackend(s.sh, s.server.b), server := Top)
    case Notes =>
      var got := s.server.got;
      s.(sh := NoteServer(s.sh, got), server := if Forwards(s.sh, got) then Writing(got) else Top)
    case Writes =>
      s.(out := s.out + [Forward(s.server.got)], server := Top)
  }

  /** The line a replay step sends: the shared fields are read again at the send. */
  function ReplayWire(s: State): Wire
    requires RecoveryEnabled(s, SendsReplay(true))
  {
    if s.server.ReplaySend? then Replay(s.server.init, s.server.n)
    else if s.server.ReplayPending? then FromClient(s.sh.initLine.value)
    else FromClient(s.sh.readyLine.value)
  }

  function RecoveryStep(s: State, e: RecoveryEvent): State
    requires RecoveryEnabled(s, e)
  {
    match e
    case Fails(order) =>
      s.(sh := KeepInit(s.sh), server := Erroring(order),
         parkedFailed := s.parkedFailed + PendingKeys(s.sh) * Hand(s.client))
    case WritesError =>
      if s.server.todo == [] then s.(server := Connecting)
      else s.(out := s.out + [Retry(s.server.todo[0])], server := Erroring(s.server.todo[1..]))
    case Connects(ok) =>
      if !ok then s.(server := Stopped)
      else s.(conns := s.conns + [Conn([], multiset{}, s.sh.initLine.Some?, s.sh.readyLine.Some?)],
              server := ReplayStart)
    case LooksForInit =>
      s.(server := if s.sh.initLine.None? then Installing else ReplayLoad)
    case LoadsInit =>
      // An array has no `get`: the server thread dies on it.
      var l := s.sh.initLine.value;
      s.(server := if l.isArray || |l.msgs| != 1 then Stopped else ReplayCheck(l))
    case ChecksInit =>
      s.(server := if KeyOf(s.server.init) in s.sh.inFlight then ReplayPending
                   else ReplayMark(s.server.init))
    case Marks =>
      s.(sh := MarkReplay(s.sh), server := ReplaySend(s.server.init, s.sh.replays + 1))
    case SendsReplay(ok) =>
      if !ok then s.(server := Stopped)
      else Deliver(s, Cur(s), ReplayWire(s)).(server := if s.server.ReplaySend? then ReplayReady else Installing)
    case LooksForReady =>
      s.(server := if s.sh.readyLine.None? then Installing else ReplaySendReady)
    case Installs =>
      s.(sh := Install(s.sh, Cur(s)), server := Top)
  }

  function Step(s: State, e: Event): State
    requires Enabled(s, e)
  {
    match e
    case Client(c) => ClientStep(s, c)
    case Server(v) => ServerStep(s, v)
    case Recovery(r) => RecoveryStep(s, r)
  }

  predicate ValidRun(s: State, es: seq<Event>)
    decreases |es|
  {
    es == [] || (Enabled(s, es[0]) && ValidRun(Step(s, es[0]), es[1..]))
  }

  function Exec(s: State, es: seq<Event>): State
    requires ValidRun(s, es)
    decreases |es|
  {
    if es == [] then s else Exec(Step(s, es[0]), es[1..])
  }
}
