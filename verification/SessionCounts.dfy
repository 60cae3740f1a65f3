/** The daemon's count of calls in flight (pcbridge/daemon.py): every session keeps the set of
    its unanswered requests, and the daemon a single number over all of them. */
module SessionCounts {
  /** A session, numbered in the order of opening; `inFlight` holds request ids as JSON text. */
  datatype Session = Session(open: bool, inFlight: set<string>)

  datatype State = State(sessions: seq<Session>, inFlight: int)

  const Start: State := State([], 0)

  /** The reader, the writer and the end of a session interleave in any order. */
  datatype Event =
    | Opens
    | Reads(key: nat, id: string)
    | Writes(key: nat, id: string)
    | Ends(key: nat)

  predicate Live(s: State, key: nat) {
    key < |s.sessions| && s.sessions[key].open
  }

  predicate Enabled(s: State, e: Event) {
    e.Opens? || Live(s, e.key)
  }

  function Step(s: State, e: Event): State
    requires Enabled(s, e)
  {
    match e
    case Opens => s.(sessions := s.sessions + [Session(true, {})])
    case Reads(key, id) =>
      State(s.sessions[key := Session(true, s.sessions[key].inFlight + {id})], s.inFlight + 1)
    case Writes(key, id) =>
      if id in s.sessions[key].inFlight then
        State(s.sessions[key := Session(true, s.sessions[key].inFlight - {id})], s.inFlight - 1)
      else s
    case Ends(key) =>
      State(s.sessions[key := Session(false, {})], s.inFlight - |s.sessions[key].inFlight|)
  }

  ghost predicate ValidRun(es: seq<Event>)
    decreases |es|, 0
  {
    es == [] || (ValidRun(es[..|es| - 1]) && Enabled(Exec(es[..|es| - 1]), es[|es| - 1]))
  }

  ghost function Exec(es: seq<Event>): State
    requires ValidRun(es)
    decreases |es|, 1
  {
    if es == [] then Start else Step(Exec(es[..|es| - 1]), es[|es| - 1])
  }

  /** The unanswered requests of all sessions. */
  function Sum(sessions: seq<Session>): nat {
    if sessions == [] then 0 else |sessions[0].inFlight| + Sum(sessions[1..])
  }

  /** Does the event read a request whose id is still unanswered in its session? */
  predicate Duplicate(s: State, e: Event) {
    e.Reads? && Live(s, e.key) && e.id in s.sessions[e.key].inFlight
  }

  ghost function Duplicates(es: seq<Event>): nat
    requires ValidRun(es)
  {
    if es == [] then 0
    else Duplicates(es[..|es| - 1]) + (if Duplicate(Exec(es[..|es| - 1]), es[|es| - 1]) then 1 else 0)
  }

  lemma {:induction false} SumUpdated(sessions: seq<Session>, key: nat, s: Session)
    requires key < |sessions|
    ensures Sum(sessions[key := s]) == Sum(sessions) - |sessions[key].inFlight| + |s.inFlight|
  {
    if key == 0 {
      assert sessions[0 := s][1..] == sessions[1..];
    } else {
      SumUpdated(sessions[1..], key - 1, s);
      assert sessions[key := s][1..] == sessions[1..][key - 1 := s];
    }
  }

  lemma {:induction false} SumMore(sessions: seq<Session>, s: Session)
    ensures Sum(sessions + [s]) == Sum(sessions) + |s.inFlight|
  {
    if sessions == [] {
      assert sessions + [s] == [s];
      assert [s][1..] == [];
    } else {
      SumMore(sessions[1..], s);
      assert (sessions + [s])[1..] == sessions[1..] + [s];
    }
  }

  /** One step changes the number as it changes the sets, but for a repeated id. */
  lemma StepCounts(s: State, e: Event)
    requires Enabled(s, e)
    ensures var after := Step(s, e);
            after.inFlight - Sum(after.sessions) == s.inFlight - Sum(s.sessions) + (if Duplicate(s, e) then 1 else 0)
  {
    match e
    case Opens =>
      SumMore(s.sessions, Session(true, {}));
    case Reads(key, id) =>
      var was := s.sessions[key].inFlight;
      SumUpdated(s.sessions, key, Session(true, was + {id}));
      assert |was + {id}| == |was| + (if id in was then 0 else 1) by {
        if id in was {
          assert was + {id} == was;
        }
      }
    case Writes(key, id) =>
      var was := s.sessions[key].inFlight;
      if id in was {
        SumUpdated(s.sessions, key, Session(true, was - {id}));
        assert |was - {id}| == |was| - 1;
      }
    case Ends(key) =>
      SumUpdated(s.sessions, key, Session(false, {}));
  }

  /** After every run the number is the unanswered requests of all sessions plus one for each
      time an id was used again while unanswered, and never below zero. */
  lemma {:induction false} CallsAreConserved(es: seq<Event>)
    requires ValidRun(es)
    ensures Exec(es).inFlight == Sum(Exec(es).sessions) + Duplicates(es)
  {
    if es != [] {
      CallsAreConserved(es[..|es| - 1]);
      StepCounts(Exec(es[..|es| - 1]), es[|es| - 1]);
    }
  }

  lemma {:induction false} ClosedAreEmpty(es: seq<Event>, key: nat)
    requires ValidRun(es) && key < |Exec(es).sessions| && !Exec(es).sessions[key].open
    ensures Exec(es).sessions[key].inFlight == {}
  {
    var s := Exec(es[..|es| - 1]);
    if key < |s.sessions| && !s.sessions[key].open {
      ClosedAreEmpty(es[..|es| - 1], key);
    }
  }

  lemma {:induction false} EmptySum(sessions: seq<Session>)
    requires forall i :: 0 <= i < |sessions| ==> sessions[i].inFlight == {}
    ensures Sum(sessions) == 0
  {
    if sessions != [] {
      EmptySum(sessions[1..]);
    }
  }

  /** Once all sessions have ended the number is back at zero exactly when no session used an
      id again while it was unanswered; otherwise the daemon counts as busy for good. */
  lemma IdleOnceAllEnded(es: seq<Event>)
    requires ValidRun(es)
    requires forall key :: 0 <= key < |Exec(es).sessions| ==> !Exec(es).sessions[key].open
    ensures Exec(es).inFlight == 0 <==> Duplicates(es) == 0
  {
    var s := Exec(es);
    CallsAreConserved(es);
    forall key | 0 <= key < |s.sessions|
      ensures s.sessions[key].inFlight == {}
    {
      ClosedAreEmpty(es, key);
    }
    EmptySum(s.sessions);
  }

  lemma RunMore(es: seq<Event>, e: Event)
    requires ValidRun(es) && Enabled(Exec(es), e)
    ensures ValidRun(es + [e]) && Exec(es + [e]) == Step(Exec(es), e)
  {
    assert (es + [e])[..|es|] == es;
  }

  /** One session that uses an id twice before it is answered, and ends: the count stays at one. */
  lemma ReusedIdIsNeverForgotten(id: string)
    ensures var es := (([Opens] + [Reads(0, id)]) + [Reads(0, id)]) + [Ends(0)];
            && ValidRun(es) && Exec(es).inFlight == 1
            && forall key :: 0 <= key < |Exec(es).sessions| ==> !Exec(es).sessions[key].open
  {
    assert ValidRun([]) && Exec([]) == Start;
    RunMore([], Opens);
    assert [] + [Opens] == [Opens];
    RunMore([Opens], Reads(0, id));
    var two := [Opens] + [Reads(0, id)];
    assert Exec(two).sessions == [Session(true, {id})];
    RunMore(two, Reads(0, id));
    var three := two + [Reads(0, id)];
    assert Exec(three) == State([Session(true, {id})], 2) by {
      assert {id} + {id} == {id};
    }
    RunMore(three, Ends(0));
  }

  // ---------------------------------------------------- told from the events

  /** The request was read and has neither been answered since nor has its session ended. */
  ghost predicate Unanswered(es: seq<Event>, key: nat, id: string) {
    exists i :: 0 <= i < |es| && es[i] == Reads(key, id) && forall j :: i < j < |es| ==> es[j] != Writes(key, id) && es[j] != Ends(key)
  }

  lemma UnansweredMore(es: seq<Event>, e: Event, key: nat, id: string)
    ensures Unanswered(es + [e], key, id) <==>
            e == Reads(key, id) || (Unanswered(es, key, id) && e != Writes(key, id) && e != Ends(key))
  {
    var more := es + [e];
    assert more[|es|] == e;
    if Unanswered(more, key, id) {
      var i :| 0 <= i < |more| && more[i] == Reads(key, id)
               && forall j :: i < j < |more| ==> more[j] != Writes(key, id) && more[j] != Ends(key);
      assert i < |es| ==> es[i] == Reads(key, id);
      assert forall j :: i < j < |es| ==> es[j] == more[j];
    }
    if Unanswered(es, key, id) {
      var i :| 0 <= i < |es| && es[i] == Reads(key, id)
               && forall j :: i < j < |es| ==> es[j] != Writes(key, id) && es[j] != Ends(key);
      assert more[i] == Reads(key, id);
      assert forall j :: i < j < |es| ==> more[j] == es[j];
    }
  }

  function CountOpens(es: seq<Event>): nat {
    if es == [] then 0 else CountOpens(es[..|es| - 1]) + (if es[|es| - 1].Opens? then 1 else 0)
  }

  ghost predicate KeyTold(es: seq<Event>, s: State, key: nat, id: string) {
    && (key < |s.sessions| ==> (s.sessions[key].open <==> Ends(key) !in es)
                               && (id in s.sessions[key].inFlight <==> Unanswered(es, key, id)))
    && (key >= |s.sessions| ==> Ends(key) !in es && !Unanswered(es, key, id))
  }

  lemma StepTold(es: seq<Event>, s: State, e: Event, key: nat, id: string)
    requires KeyTold(es, s, key, id) && Enabled(s, e)
    ensures KeyTold(es + [e], Step(s, e), key, id)
  {
    UnansweredMore(es, e, key, id);
  }

  /** After every run: there are as many sessions as were opened, one is open until it ends, and
      its set holds exactly the requests that were read and not answered since. */
  lemma {:induction false} SetsAreTheUnanswered(es: seq<Event>, key: nat, id: string)
    requires ValidRun(es)
    ensures |Exec(es).sessions| == CountOpens(es) && KeyTold(es, Exec(es), key, id)
  {
    if es != [] {
      var before := es[..|es| - 1];
      SetsAreTheUnanswered(before, key, id);
      StepTold(before, Exec(before), es[|es| - 1], key, id);
      assert before + [es[|es| - 1]] == es;
    }
  }

  /** The counting object. */
  class Daemon {
    var sessions: seq<Session>
    var inFlight: int

    ghost function Now(): State
      reads this
    {
      State(sessions, inFlight)
    }

    constructor ()
      ensures Now() == Start
    {
      sessions, inFlight := [], 0;
    }

    method Open() returns (key: nat)
      modifies this
      ensures key == |old(sessions)| && Now() == Step(old(Now()), Opens)
    {
      key := |sessions|;
      sessions := sessions + [Session(true, {})];
    }

    method NoteRequest(key: nat, id: string)
      requires Live(Now(), key)
      modifies this
      ensures Now() == Step(old(Now()), Reads(key, id))
    {
      sessions := sessions[key := Session(true, sessions[key].inFlight + {id})];
      inFlight := inFlight + 1;
    }

    method NoteAnswer(key: nat, id: string)
      requires Live(Now(), key)
      modifies this
      ensures Now() == Step(old(Now()), Writes(key, id))
    {
      if id in sessions[key].inFlight {
        sessions := sessions[key := Session(true, sessions[key].inFlight - {id})];
        inFlight := inFlight - 1;
      }
    }

    method End(key: nat)
      requires Live(Now(), key)
      modifies this
      ensures Now() == Step(old(Now()), Ends(key))
    {
      inFlight := inFlight - |sessions[key].inFlight|;
      sessions := sessions[key := Session(false, {})];
    }
  }
}
