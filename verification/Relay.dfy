/** The `Relay` object itself (pcbridge/relay.py): each method is one critical section, or one
    of the loops around them when the other thread stays out, proved against `RelayProtocol`. */
module RelayObject {
  import opened Wrappers
  import opened RelayProtocol
  import opened RelaySafety
  import opened RelayTheorems

  /** The fields after `_note_client_message` has worked through messages `i` onward. */
  function NoteFrom(sh: Shared, l: Line, i: nat): Shared
    requires i <= |l.msgs|
    decreases |l.msgs| - i
  {
    if i == |l.msgs| then sh else NoteFrom(Register(Record(sh, l.msgs[i], l), l.msgs[i]), l, i + 1)
  }

  /** Undisturbed, the client thread's single steps add up to `NoteFrom`. */
  lemma NotingStepwise(s: State, t: State, l: Line, i: nat) returns (u: State)
    requires Reaches(s, t) && i <= |l.msgs| && t.client == NextNote(l, i)
    ensures Reaches(s, u) && u.client == Wait(l) && u.sh == NoteFrom(t.sh, l, i)
    ensures u.server == t.server && u.conns == t.conns && u.out == t.out
    decreases |l.msgs| - i
  {
    u := t;
    if i < |l.msgs| {
      u := Go(s, u, Client(Records));
      u := Go(s, u, Client(Registers));
      u := NotingStepwise(s, u, l, i + 1);
    }
  }

  /** Errors for `keys`, in order. */
  function Retries(keys: seq<Key>): seq<Out> {
    seq(|keys|, i requires 0 <= i < |keys| => Retry(keys[i]))
  }

  class Relay {
    var backend: Option<nat>
    var inFlight: map<Key, Kind>
    var swallow: set<Key>
    var initLine: Option<Line>
    var readyLine: Option<Line>
    var replays: nat
    var closing: bool
    var written: seq<Out>

    function Fields(): Shared
      reads this
    {
      Shared(backend, inFlight, swallow, initLine, readyLine, replays, closing)
    }

    constructor ()
      ensures Fields() == Start.sh && written == Start.out
    {
      backend, inFlight, swallow := Some(0), map[], {};
      initLine, readyLine, replays, closing, written := None, None, 0, false, [];
    }

    method RecordMessage(m: Msg, l: Line)
      modifies this
      ensures Fields() == Record(old(Fields()), m, l) && written == old(written)
    {
      match m.kind
      case Initialize => initLine := Some(l);
      case Initialized => readyLine := Some(l);
      case Cancelled(k) => inFlight := inFlight - {k};
      case OtherMethod =>
      case NoMethod =>
    }

    method RegisterRequest(m: Msg)
      modifies this
      ensures Fields() == Register(old(Fields()), m) && written == old(written)
    {
      if m.kind != NoMethod && m.id.Some? {
        inFlight := inFlight[m.id.value := m.kind];
      }
    }

    method NoteClientMessage(l: Line)
      modifies this
      ensures Fields() == NoteFrom(old(Fields()), l, 0) && written == old(written)
    {
      var i := 0;
      while i < |l.msgs|
        invariant i <= |l.msgs| && written == old(written)
        invariant NoteFrom(Fields(), l, i) == NoteFrom(old(Fields()), l, 0)
      {
        RecordMessage(l.msgs[i], l);
        RegisterRequest(l.msgs[i]);
        i := i + 1;
      }
    }

    method DropIf(b: nat)
      modifies this
      ensures Fields() == DropBackend(old(Fields()), b) && written == old(written)
    {
      if backend == Some(b) {
        backend := None;
      }
    }

    /** False means: do not forward this line. */
    method NoteServerLine(got: ServerLine) returns (forward: bool)
      modifies this
      ensures Fields() == NoteServer(old(Fields()), got) && forward == Forwards(old(Fields()), got)
      ensures written == old(written)
    {
      if got.Other? {
        return true;
      }
      if got.key in swallow {
        swallow := swallow - {got.key};
        return false;
      }
      inFlight := inFlight - {got.key};
      return true;
    }

    method WriteClient(o: Out)
      modifies this`written
      ensures written == old(written) + [o]
    {
      written := written + [o];
    }

    /** Every pending request but an initialize gets one retryable error and is forgotten. */
    method FailInFlight() returns (pending: seq<Key>)
      modifies this
      ensures Enumerates(pending, PendingKeys(old(Fields())))
      ensures Fields() == KeepInit(old(Fields()))
      ensures written == old(written) + Retries(pending)
    {
      pending := [];
      var left := set k | k in inFlight && inFlight[k] != Initialize;
      while left != {}
        invariant Fields() == old(Fields()) && written == old(written)
        invariant (set k | k in pending) + left == PendingKeys(Fields())
        invariant forall k :: k in pending ==> k !in left
        invariant forall i, j :: 0 <= i < j < |pending| ==> pending[i] != pending[j]
        decreases left
      {
        var k :| k in left;
        pending, left := pending + [k], left - {k};
      }
      inFlight := map k | k in inFlight && inFlight[k] == Initialize :: inFlight[k];
      var i := 0;
      while i < |pending|
        invariant i <= |pending| && Fields() == KeepInit(old(Fields()))
        invariant written == old(written) + Retries(pending[..i])
      {
        WriteClient(Retry(pending[i]));
        assert pending[..i + 1] == pending[..i] + [pending[i]];
        i := i + 1;
      }
      assert pending[..|pending|] == pending;
    }

    /** `_replay` on a fresh backend whose send number `breaks` raises: what it was sent. It
        raises at once for a recorded line that is an array. */
    method ReplayTo(breaks: nat) returns (sent: seq<Wire>, ok: bool)
      modifies this
      ensures !Replayable(old(Fields())) ==> !ok && sent == [] && Fields() == old(Fields())
      ensures Replayable(old(Fields())) ==>
                var whole := Greeting(old(Fields()));
                ok == (breaks >= |whole|) && sent == if ok then whole else whole[..breaks]
      ensures Fields() == old(Fields()) || Fields() == MarkReplay(old(Fields()))
      ensures written == old(written)
    {
      sent := [];
      if initLine.None? {
        return [], true;
      }
      if initLine.value.isArray || |initLine.value.msgs| != 1 {
        return [], false;
      }
      var pendingInit := KeyOf(initLine.value) in inFlight;
      if pendingInit {
        if breaks == 0 {
          return [], false;
        }
        return [FromClient(initLine.value)], true;
      }
      replays := replays + 1;
      swallow := swallow + {ReplayKey(replays)};
      if breaks == 0 {
        return [], false;
      }
      sent := [Replay(initLine.value, replays)];
      if readyLine.Some? {
        if breaks == 1 {
          return sent, false;
        }
        sent := sent + [FromClient(readyLine.value)];
      }
      return sent, true;
    }

    method InstallBackend(b: nat)
      modifies this
      ensures Fields() == Install(old(Fields()), b) && written == old(written)
    {
      backend := Some(b);
    }
  }
}
