/** The supervisor of the one child process that keeps the machine awake while jobs run
    (pcbridge/power.py). Every clock reading and everything the system answers in a call is
    part of the call; a child may die at any time. */
module KeepAwakeProtocol {
  import opened Wrappers

  datatype Name = Logind | GnomeSession | PowerDevil
  datatype What = Suspend | Sleep | Idle
  datatype Inhibitor = Inhibitor(name: Name, what: What)
  datatype Desktop = Gnome | Kde | Other

  const RETRY_S: real := 60.0
  const CONFIRM_AFTER_S: real := 6.0

  /** The exit code of its command does not say whether it took. */
  predicate Unconfirmed(m: Inhibitor) {
    m.name == PowerDevil
  }

  function MethodsFor(d: Desktop): (ms: seq<Inhibitor>)
    ensures ms != []
    ensures !Unconfirmed(ms[|ms| - 1])
  {
    match d
    case Gnome => [Inhibitor(GnomeSession, Suspend)]
    case Kde => [Inhibitor(PowerDevil, Suspend), Inhibitor(Logind, Sleep)]
    case Other => [Inhibitor(Logind, Idle)]
  }

  function Unskipped(ms: seq<Inhibitor>, skip: set<Name>): (r: seq<Inhibitor>)
    ensures forall i :: 0 <= i < |r| ==> r[i] in ms && r[i].name !in skip
    ensures forall m :: m in ms && m.name !in skip ==> m in r
  {
    if ms == [] then [] else (if ms[0].name in skip then [] else [ms[0]]) + Unskipped(ms[1..], skip)
  }

  function FirstInstalled(ms: seq<Inhibitor>, installed: set<Name>): (r: Option<Inhibitor>)
    ensures r.Some? ==> r.value in ms && r.value.name in installed
    ensures r.None? ==> forall m :: m in ms ==> m.name !in installed
  {
    if ms == [] then None else if ms[0].name in installed then Some(ms[0]) else FirstInstalled(ms[1..], installed)
  }

  function MethodFor(d: Desktop, installed: set<Name>, skip: set<Name>): Inhibitor {
    var left := Unskipped(MethodsFor(d), skip);
    var candidates := if left != [] then left else MethodsFor(d);
    match FirstInstalled(candidates, installed)
    case Some(m) => m
    case None => candidates[0]
  }

  /** Only inhibitors that need confirming are ever skipped, so one that was skipped is not
      chosen again. */
  lemma SkippedIsNotChosen(d: Desktop, installed: set<Name>, skip: set<Name>)
    requires skip <= {PowerDevil}
    ensures MethodFor(d, installed, skip) in MethodsFor(d)
    ensures MethodFor(d, installed, skip).name !in skip
  {
    var ms := MethodsFor(d);
    assert ms[|ms| - 1] in Unskipped(ms, skip);
  }

  // ------------------------------------------------------------------ state

  datatype Child = Child(pid: nat, inhibitor: Inhibitor)
  datatype Start = Start(name: Name, at: real)

  /** `starts`, `unreaped` and `spawned` tell what was done to the system: the attempts to
      start a child since a job is wanted, the children not waited for, and how many there
      were. */
  datatype State = State(
    proc: Option<Child>,
    started: real,
    confirmed: bool,
    skip: set<Name>,
    enabled: bool,
    wanted: bool,
    retryAt: real,
    starts: seq<Start>,
    unreaped: set<nat>,
    spawned: nat)

  const Fresh: State := State(None, 0.0, false, {}, false, false, 0.0, [], {}, 0)

  /** What happens around one `update`: the request, the system's answers, the clock. */
  datatype Around = Around(
    enabled: bool,
    jobs: int,
    alive: bool,
    confirms: bool,
    desktop: Desktop,
    installed: set<Name>,
    found: bool,
    starts: bool,
    settles: bool,
    judged: real,
    failed: real,
    checked: real,
    started: real,
    settled: real)

  predicate InOrder(clock: real, e: Around) {
    clock <= e.judged <= e.failed <= e.checked <= e.started <= e.settled
  }

  /** The child is told to stop and waited for. */
  function Drop(s: State): State {
    match s.proc
    case None => s
    case Some(c) => s.(proc := None, unreaped := s.unreaped - {c.pid})
  }

  function Fail(s: State, now: real): State {
    Drop(s.(retryAt := now + RETRY_S))
  }

  datatype Verdict = Holds | TooEarly | Refused

  function Judge(s: State, c: Child, e: Around): Verdict {
    if !Unconfirmed(c.inhibitor) || s.confirmed then Holds
    else if e.judged - s.started < CONFIRM_AFTER_S then TooEarly
    else if e.confirms then Holds else Refused
  }

  function Acquire(s: State, e: Around): State {
    var m := MethodFor(e.desktop, e.installed, s.skip);
    if !e.found then Fail(s, e.settled)
    else
      var tried := s.(starts := s.starts + [Start(m.name, e.started)]);
      if !e.starts then Fail(tried, e.settled)
      else
        var up := tried.(proc := Some(Child(s.spawned, m)), unreaped := s.unreaped + {s.spawned}, spawned := s.spawned + 1);
        if e.settles then up.(started := e.settled, confirmed := false) else Fail(up, e.settled)
  }

  function StandDown(s: State): State {
    Drop(s).(retryAt := 0.0, skip := {}, starts := [])
  }

  function TryAgain(s: State, e: Around): State {
    if e.checked < s.retryAt then s else Acquire(s, e)
  }

  /** While a job is wanted. */
  function Keep(s: State, e: Around): State {
    match s.proc
    case None => TryAgain(s, e)
    case Some(c) =>
      if !e.alive then TryAgain(Fail(s, e.failed), e)
      else match Judge(s, c, e)
        case TooEarly => s
        case Holds => s.(confirmed := s.confirmed || Unconfirmed(c.inhibitor))
        case Refused => TryAgain(Fail(s.(skip := s.skip + {c.inhibitor.name}), e.failed).(retryAt := 0.0), e)
  }

  function Update(s: State, e: Around): State {
    var asked := s.(enabled := e.enabled, wanted := e.enabled && e.jobs > 0);
    if asked.wanted then Keep(asked, e) else StandDown(asked)
  }

  /** Closing ends the run of a job being wanted. */
  function Close(s: State): State {
    Drop(s).(wanted := false, starts := [])
  }

  datatype Event = Updates(around: Around) | Closes

  function Step(s: State, e: Event): State {
    match e
    case Updates(around) => Update(s, around)
    case Closes => Close(s)
  }

  function Exec(es: seq<Event>): State {
    if es == [] then Fresh else Step(Exec(es[..|es| - 1]), es[|es| - 1])
  }

  function Clock(es: seq<Event>): real {
    if es == [] then 0.0
    else match es[|es| - 1]
      case Updates(around) => around.settled
      case Closes => Clock(es[..|es| - 1])
  }

  predicate Monotone(es: seq<Event>) {
    es == []
    || (Monotone(es[..|es| - 1])
        && match es[|es| - 1]
           case Updates(around) => InOrder(Clock(es[..|es| - 1]), around)
           case Closes => true)
  }

  // -------------------------------------------------------------- invariant

  /** Two starts of one method are a retry interval apart. */
  ghost predicate Spaced(starts: seq<Start>) {
    forall i, j :: 0 <= i < j < |starts| && starts[i].name == starts[j].name ==> starts[j].at - starts[i].at >= RETRY_S
  }

  /** All starts of methods that may be chosen again were at `at` or before. */
  ghost predicate StartedBy(starts: seq<Start>, skip: set<Name>, at: real) {
    forall i :: 0 <= i < |starts| ==> starts[i].name in skip || starts[i].at <= at
  }

  ghost predicate Timed(s: State, clock: real) {
    && s.skip <= {PowerDevil}
    && Spaced(s.starts)
    && StartedBy(s.starts, {}, clock)
    && match s.proc
       case None => StartedBy(s.starts, s.skip, s.retryAt - RETRY_S)
       case Some(c) =>
         s.starts != []
         && var last := s.starts[|s.starts| - 1];
            last.name == c.inhibitor.name && StartedBy(s.starts[..|s.starts| - 1], s.skip, last.at - RETRY_S)
  }

  predicate OneChild(s: State) {
    && s.unreaped == (if s.proc.Some? then {s.proc.value.pid} else {})
    && (s.proc.Some? ==> s.proc.value.pid < s.spawned)
  }

  lemma OneStartMore(starts: seq<Start>, skip: set<Name>, at: real, start: Start)
    requires Spaced(starts) && StartedBy(starts, skip, at) && start.name !in skip && start.at >= at + RETRY_S
    ensures Spaced(starts + [start])
  {
  }

  lemma AllBy(starts: seq<Start>, skip: set<Name>, at: real, start: Start, clock: real)
    requires StartedBy(starts, skip, at)
    ensures at <= clock && start.at <= clock ==> StartedBy(starts + [start], skip, clock)
    ensures (starts + [start])[..|starts + [start]| - 1] == starts
  {
  }

  lemma AcquireTimed(s: State, e: Around)
    requires s.proc.None? && s.skip <= {PowerDevil} && Spaced(s.starts) && StartedBy(s.starts, {}, e.checked)
    requires StartedBy(s.starts, s.skip, e.checked - RETRY_S)
    requires e.checked <= e.started <= e.settled
    ensures Timed(Acquire(s, e), e.settled)
  {
    var m := MethodFor(e.desktop, e.installed, s.skip);
    SkippedIsNotChosen(e.desktop, e.installed, s.skip);
    var start := Start(m.name, e.started);
    OneStartMore(s.starts, s.skip, e.checked - RETRY_S, start);
    AllBy(s.starts, {}, e.checked, start, e.settled);
    AllBy(s.starts, s.skip, e.checked - RETRY_S, start, e.settled);
  }

  lemma TryAgainTimed(s: State, e: Around)
    requires s.proc.None? && Timed(s, e.checked)
    requires e.checked <= e.started <= e.settled
    ensures Timed(TryAgain(s, e), e.settled)
  {
    if e.checked >= s.retryAt {
      AcquireTimed(s, e);
    }
  }

  /** An inhibitor that did not take is skipped, and the next method may be tried at once. */
  lemma RefusedTimed(s: State, c: Child, e: Around, clock: real)
    requires Timed(s, clock) && InOrder(clock, e) && s.proc == Some(c) && Unconfirmed(c.inhibitor)
    ensures Timed(TryAgain(Fail(s.(skip := s.skip + {c.inhibitor.name}), e.failed).(retryAt := 0.0), e), e.settled)
  {
    var next := Fail(s.(skip := s.skip + {c.inhibitor.name}), e.failed).(retryAt := 0.0);
    var last := |s.starts| - 1;
    assert s.starts[..last] + [s.starts[last]] == s.starts;
    forall i | 0 <= i < |s.starts|
      ensures s.starts[i].name in next.skip || s.starts[i].at <= e.checked - RETRY_S
    {
      if i < last {
        assert s.starts[..last][i] == s.starts[i];
      }
    }
    if e.checked >= 0.0 {
      AcquireTimed(next, e);
    }
  }

  lemma UpdateTimed(s: State, e: Around, clock: real)
    requires Timed(s, clock) && InOrder(clock, e) && clock >= 0.0
    ensures Timed(Update(s, e), e.settled)
  {
    var asked := s.(enabled := e.enabled, wanted := e.enabled && e.jobs > 0);
    if asked.wanted && s.proc.Some? {
      var c := s.proc.value;
      if !e.alive {
        TryAgainTimed(Fail(asked, e.failed), e);
      } else if Judge(asked, c, e).Refused? {
        RefusedTimed(asked, c, e, clock);
      }
    } else if asked.wanted {
      TryAgainTimed(asked, e);
    }
  }

  lemma UpdateOneChild(s: State, e: Around)
    requires OneChild(s)
    ensures OneChild(Update(s, e))
  {
  }

  lemma {:induction false} RunInv(es: seq<Event>)
    requires Monotone(es)
    ensures Timed(Exec(es), Clock(es)) && OneChild(Exec(es)) && Clock(es) >= 0.0
  {
    if es != [] {
      var before := es[..|es| - 1];
      RunInv(before);
      match es[|es| - 1]
      case Updates(around) =>
        UpdateTimed(Exec(before), around, Clock(before));
        UpdateOneChild(Exec(before), around);
      case Closes =>
    }
  }

  // --------------------------------------------------------------- theorems

  /** As long as a job stays wanted, one method is started at most once a minute, whatever dies
      or refuses in between. */
  lemma StartsAreAMinuteApart(es: seq<Event>, i: nat, j: nat)
    requires Monotone(es) && i < j < |Exec(es).starts| && Exec(es).starts[i].name == Exec(es).starts[j].name
    ensures Exec(es).starts[j].at - Exec(es).starts[i].at >= RETRY_S
  {
    RunInv(es);
  }

  /** The log of starts is only begun anew when no job is wanted any more. */
  lemma WantedKeepsTheLog(s: State, e: Around)
    requires e.enabled && e.jobs > 0
    ensures s.starts <= Update(s, e).starts
  {
  }

  /** At most one child has not been waited for, and it is the one the supervisor holds. */
  lemma AtMostOneChild(es: seq<Event>)
    requires Monotone(es)
    ensures |Exec(es).unreaped| <= 1
    ensures Exec(es).proc.None? ==> Exec(es).unreaped == {}
  {
    RunInv(es);
  }

  /** After an update or a close there is a child only if keeping awake is on and a job runs. */
  lemma ChildOnlyForAJob(es: seq<Event>)
    requires Monotone(es) && es != []
    ensures Exec(es).unreaped != {} ==>
              es[|es| - 1].Updates? && es[|es| - 1].around.enabled && es[|es| - 1].around.jobs > 0
  {
    RunInv(es);
  }

  /** An inhibitor that needs confirming is kept past the time it takes to apply only if the
      desktop lists it. */
  lemma HeldMeansConfirmed(s: State, e: Around)
    requires s.proc.Some? && e.enabled && e.jobs > 0 && Update(s, e).proc == s.proc
    requires s.proc.value.pid < s.spawned
    ensures e.alive
    ensures Unconfirmed(s.proc.value.inhibitor) && e.judged - s.started >= CONFIRM_AFTER_S ==> s.confirmed || e.confirms
  {
  }
}
