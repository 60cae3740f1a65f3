/** When the keep-awake supervisor starts, keeps and gives up a child (pcbridge/power.py,
    `update`), for every state and every answer of the system. */
module KeepAwakeTheorems {
  import opened Wrappers
  import opened KeepAwakeProtocol

  predicate Wants(e: Around) {
    e.enabled && e.jobs > 0
  }

  /** The inhibitor to start on each desktop; only the KDE one is ever skipped. */
  function BestFor(d: Desktop, installed: set<Name>, skip: set<Name>): Inhibitor {
    match d
    case Gnome => Inhibitor(GnomeSession, Suspend)
    case Other => Inhibitor(Logind, Idle)
    case Kde =>
      if PowerDevil in skip || (PowerDevil !in installed && Logind in installed) then Inhibitor(Logind, Sleep)
      else Inhibitor(PowerDevil, Suspend)
  }

  lemma ChosenIsBest(d: Desktop, installed: set<Name>, skip: set<Name>)
    requires skip <= {PowerDevil}
    ensures MethodFor(d, installed, skip) == BestFor(d, installed, skip)
  {
    var ms := MethodsFor(d);
    assert ms[1..] == [] || (d.Kde? && ms[1..] == [Inhibitor(Logind, Sleep)]);
    assert Unskipped([], skip) == [];
    if d.Kde? {
      assert Unskipped(ms[1..], skip) == [Inhibitor(Logind, Sleep)];
      assert PowerDevil in skip ==> Unskipped(ms, skip) == [Inhibitor(Logind, Sleep)];
      assert PowerDevil !in skip ==> Unskipped(ms, skip) == ms;
      assert FirstInstalled([Inhibitor(Logind, Sleep)], installed)
             == if Logind in installed then Some(Inhibitor(Logind, Sleep)) else None;
    } else {
      assert Unskipped(ms, skip) == ms;
    }
  }

  /** What an attempt to start a child leaves behind. */
  ghost predicate Attempted(s: State, u: State, e: Around, skip: set<Name>) {
    var m := BestFor(e.desktop, e.installed, skip);
    && u.skip == skip
    && u.starts == s.starts + (if e.found then [Start(m.name, e.started)] else [])
    && (e.found && e.starts && e.settles ==>
          && u.proc == Some(Child(s.spawned, m)) && u.unreaped == {s.spawned}
          && u.started == e.settled && !u.confirmed)
    && (!(e.found && e.starts && e.settles) ==>
          u.proc.None? && u.unreaped == {} && u.retryAt == e.settled + RETRY_S)
  }

  /** Nothing is running while a job is wanted: before the retry time nothing happens, and from
      then on a child of the desktop's inhibitor is started, and held if it starts and stays. */
  lemma NothingRunning(s: State, e: Around)
    requires Wants(e) && s.proc.None? && OneChild(s) && s.skip <= {PowerDevil}
    ensures e.checked < s.retryAt ==> Update(s, e) == s.(enabled := true, wanted := true)
    ensures e.checked >= s.retryAt ==> Attempted(s, Update(s, e), e, s.skip)
  {
    ChosenIsBest(e.desktop, e.installed, s.skip);
  }

  /** The inhibitor ran but the desktop does not list it in the time it takes to apply. */
  predicate NotTaken(s: State, e: Around)
    requires s.proc.Some?
  {
    Unconfirmed(s.proc.value.inhibitor) && !s.confirmed && e.judged - s.started >= CONFIRM_AFTER_S && !e.confirms
  }

  /** A living child is kept, unless it did not take. */
  lemma LivingChildIsKept(s: State, e: Around)
    requires Wants(e) && s.proc.Some? && e.alive && !NotTaken(s, e)
    ensures var u := Update(s, e);
            && u == s.(enabled := true, wanted := true, confirmed := u.confirmed)
            && (u.confirmed <==> s.confirmed
                                 || (Unconfirmed(s.proc.value.inhibitor) && e.judged - s.started >= CONFIRM_AFTER_S && e.confirms))
  {
  }

  /** A child that did not take is stopped and its inhibitor skipped, and the next one is tried at
      once. */
  lemma NotTakenIsReplaced(s: State, e: Around)
    requires Wants(e) && OneChild(s) && s.proc.Some? && e.alive && NotTaken(s, e)
    requires s.skip <= {PowerDevil} && e.checked >= 0.0
    ensures Attempted(s, Update(s, e), e, s.skip + {PowerDevil})
  {
    assert s.unreaped - {s.proc.value.pid} == {};
    ChosenIsBest(e.desktop, e.installed, s.skip + {PowerDevil});
  }

  /** A child found dead is waited for, and nothing is started for a minute. */
  lemma DeadChildWaits(s: State, e: Around)
    requires Wants(e) && OneChild(s) && s.proc.Some? && !e.alive && e.checked < e.failed + RETRY_S
    ensures Update(s, e) == s.(enabled := true, wanted := true, proc := None, unreaped := {}, retryAt := e.failed + RETRY_S)
  {
    assert s.unreaped - {s.proc.value.pid} == {};
  }

  /** With nothing wanted, or when closing, there is no child; and the next job starts afresh,
      with the best inhibitor and no wait. */
  lemma UnwantedStopsTheChild(s: State, e: Around)
    requires !Wants(e) && OneChild(s)
    ensures var u := Update(s, e);
            u.proc.None? && u.unreaped == {} && u.skip == {} && u.retryAt == 0.0 && !u.wanted && u.enabled == e.enabled
    ensures Close(s).proc.None? && Close(s).unreaped == {} && !Close(s).wanted
  {
    if s.proc.Some? {
      assert s.unreaped - {s.proc.value.pid} == {};
    }
  }

  // ------------------------------------------------------------------- runs

  lemma {:induction false} RetryWithinAMinute(es: seq<Event>)
    requires Monotone(es)
    ensures Exec(es).retryAt <= Clock(es) + RETRY_S
  {
    if es != [] {
      var before := es[..|es| - 1];
      RetryWithinAMinute(before);
      RunInv(before);
    }
  }

  /** A minute after whatever happened, an update that wants a child and finds an inhibitor that
      starts and stays has a child of it afterwards. */
  lemma HeldAfterAMinute(es: seq<Event>, e: Around)
    requires Monotone(es) && InOrder(Clock(es), e) && Wants(e) && e.found && e.starts && e.settles
    requires Exec(es).proc.None? && e.checked >= Clock(es) + RETRY_S
    ensures var u := Exec(es + [Updates(e)]);
            u.proc.Some? && u.proc.value.inhibitor == BestFor(e.desktop, e.installed, Exec(es).skip)
            && u.unreaped == {u.proc.value.pid}
  {
    RunInv(es);
    RetryWithinAMinute(es);
    NothingRunning(Exec(es), e);
    assert (es + [Updates(e)])[..|es|] == es;
  }
}
