/** The supervisor object (pcbridge/power.py, `KeepAwake`). */
module KeepAwakeObject {
  import opened Wrappers
  import opened KeepAwakeProtocol

  class KeepAwake {
    var proc: Option<Child>
    var started: real
    var confirmed: bool
    var skip: set<Name>
    var enabled: bool
    var wanted: bool
    var retryAt: real
    var spawned: nat
    ghost var starts: seq<KeepAwakeProtocol.Start>
    ghost var unreaped: set<nat>

    ghost function Now(): State
      reads this
    {
      State(proc, started, confirmed, skip, enabled, wanted, retryAt, starts, unreaped, spawned)
    }

    constructor ()
      ensures Now() == Fresh
    {
      proc, started, confirmed, skip := None, 0.0, false, {};
      enabled, wanted, retryAt, spawned := false, false, 0.0, 0;
      starts, unreaped := [], {};
    }

    /** Stops the child and waits for it. */
    method DropChild()
      modifies this
      ensures Now() == Drop(old(Now()))
    {
      if proc.Some? {
        unreaped := unreaped - {proc.value.pid};
        proc := None;
      }
    }

    method FailNow(now: real)
      modifies this
      ensures Now() == Fail(old(Now()), now)
    {
      retryAt := now + RETRY_S;
      DropChild();
    }

    /** False once an inhibitor that needs confirming turns out not to have taken. */
    method Took(e: Around) returns (ok: bool)
      requires proc.Some?
      modifies this
      ensures ok <==> !Judge(old(Now()), old(proc).value, e).Refused?
      ensures ok ==> Now() == old(Now()).(confirmed := old(confirmed)
                                            || (Unconfirmed(old(proc).value.inhibitor) && Judge(old(Now()), old(proc).value, e).Holds?))
      ensures !ok ==> Now() == Fail(old(Now()).(skip := old(skip) + {old(proc).value.inhibitor.name}), e.failed)
    {
      var m := proc.value.inhibitor;
      if !Unconfirmed(m) || confirmed {
        return true;
      }
      if e.judged - started < CONFIRM_AFTER_S {
        return true;
      }
      if e.confirms {
        confirmed := true;
        return true;
      }
      skip := skip + {m.name};
      FailNow(e.failed);
      return false;
    }

    method Start(e: Around)
      modifies this
      ensures Now() == Acquire(old(Now()), e)
    {
      var m := MethodFor(e.desktop, e.installed, skip);
      if !e.found {
        FailNow(e.settled);
        return;
      }
      starts := starts + [KeepAwakeProtocol.Start(m.name, e.started)];
      if !e.starts {
        FailNow(e.settled);
        return;
      }
      proc := Some(Child(spawned, m));
      unreaped := unreaped + {spawned};
      spawned := spawned + 1;
      if e.settles {
        started, confirmed := e.settled, false;
        return;
      }
      FailNow(e.settled);
    }

    method UpdateNow(e: Around)
      modifies this
      ensures Now() == Update(old(Now()), e)
    {
      enabled := e.enabled;
      wanted := e.enabled && e.jobs > 0;
      if !wanted {
        DropChild();
        retryAt, skip := 0.0, {};
        starts := [];
        return;
      }
      if proc.Some? && e.alive {
        var took := Took(e);
        if took {
          return;
        }
        retryAt := 0.0;
      }
      if proc.Some? {
        FailNow(e.failed);
      }
      if e.checked < retryAt {
        return;
      }
      Start(e);
    }

    method CloseNow()
      modifies this
      ensures Now() == Close(old(Now()))
    {
      wanted := false;
      DropChild();
      starts := [];
    }
  }
}
