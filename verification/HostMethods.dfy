/**
 The host's methods in the order the host runs them: every statement that touches shared
 state is one step of module RuntimeHost, and the steps of requests and workers come in
 between. `Valid` says that the host has been reached by such steps from a started one, so
 the theorems over runs hold for it, and each method says where it leaves the host.
 */
module HostMethods {
  import opened R = RuntimeHost

  /** Steps of requests and workers, which go on during a transition. */
  predicate Foreign(step: Step) {
    step.Enter? || step.Leave? || step.Signal? || step.WorkerExit?
  }

  /** What the steps of others leave alone. */
  ghost predicate Quiet(a: Host, b: Host) {
    && b.phase == a.phase && b.prior == a.prior && b.saved == a.saved && b.app == a.app && b.guard == a.guard
    && b.reloading == a.reloading && b.closed == a.closed && |b.apps| == |a.apps|
    && (a.phase.PastBarrier() && a.reloading ==> b.active == a.active)
    && (a.app < |a.apps| ==> b.apps[b.app].workers <= a.apps[a.app].workers)
    && (a.phase.InTransition() && a.phase.ticket in a.active ==> a.phase.ticket in b.active)
  }

  lemma ForeignQuiet(h: Host, step: Step)
    requires Enabled(h, step) && Foreign(step) && BarrierInv(h)
    ensures Quiet(h, Do(h, step))
  {
  }

  lemma QuietTwice(a: Host, b: Host, c: Host)
    requires Quiet(a, b) && Quiet(b, c)
    ensures Quiet(a, c)
  {
  }

  lemma {:induction false} RunsAppend(a: Host, steps: seq<Step>, b: Host, step: Step)
    requires R.Runs(a, steps, b) && Enabled(b, step)
    ensures R.Runs(a, steps + [step], Do(b, step))
    decreases |steps|
  {
    hide Do, Enabled;
    if steps == [] {
      assert [step][1..] == [];
      assert R.Runs(Do(b, step), [], Do(b, step));
      assert [] + [step] == [step];
    } else {
      RunsAppend(Do(a, steps[0]), steps[1..], b, step);
      assert (steps + [step])[1..] == steps[1..] + [step];
    }
  }

  lemma {:induction false} StatesOfRun(a: Host, steps: seq<Step>, b: Host) returns (hs: seq<Host>)
    requires R.Runs(a, steps, b)
    ensures |hs| == |steps| + 1 && hs[0] == a && hs[|steps|] == b
    ensures forall i :: 0 <= i < |steps| ==> Enabled(hs[i], steps[i]) && hs[i + 1] == Do(hs[i], steps[i])
    decreases |steps|
  {
    hide Do, Enabled;
    if steps == [] {
      hs := [a];
    } else {
      var rest := StatesOfRun(Do(a, steps[0]), steps[1..], b);
      hs := [a] + rest;
      forall i | 0 <= i < |steps| ensures Enabled(hs[i], steps[i]) && hs[i + 1] == Do(hs[i], steps[i]) {
        assert i > 0 ==> steps[1..][i - 1] == steps[i] && hs[i] == rest[i - 1] && hs[i + 1] == rest[i];
      }
    }
  }

  /** A host that the methods have brought to a state is in a run of the machine. */
  lemma RunOf(h: RuntimeHost) returns (hs: seq<Host>)
    requires h.Valid()
    ensures Behavior(hs, h.log) && hs[|h.log|] == h.Value()
  {
    hs := StatesOfRun(h.start, h.log, h.Value());
  }

  lemma Unmoved(h: Host)
    ensures Quiet(h, h)
  {
  }

  /** How a reload goes: refused before anything is persisted, the configuration readable back,
      the old application closed without an error, the next one started, the old one restored. */
  datatype Course = Course(
    refused: bool, readable: bool, drained: bool, starts: bool, restores: bool, workers: nat, patience: nat)

  lemma AppExists(h: Host)
    requires Inv(h)
    ensures h.app < |h.apps|
  {
  }

  lemma ReadyIsPrior(h: Host)
    requires Inv(h) && h.phase.Ready?
    ensures h.saved == h.prior
  {
  }

  lemma IdleIsLive(h: Host)
    requires Inv(h) && h.phase.Idle? && !h.closed
    ensures LiveApp(h, h.app, h.saved)
  {
  }

  datatype Turning = Through | Again | GaveUp

  lemma PastTheBarrier(h: Host)
    requires Inv(h) && h.phase.PastBarrier()
    ensures h.active == {h.phase.ticket} && h.reloading
  {
  }

  class RuntimeHost {
    var apps: seq<App>
    var app: nat
    var saved: Config
    var reloading: bool
    var closed: bool
    var active: set<Ticket>
    var changed: bool
    /** The position of the transition, tickets handed out, requests under way. */
    var rest: Host
    ghost const start: Host
    ghost var log: seq<Step>

    function Value(): Host
      reads this
    {
      rest.(apps := apps, app := app, saved := saved, reloading := reloading, closed := closed,
            active := active, changed := changed)
    }

    ghost predicate Valid()
      reads this
    {
      Started(start) && R.Runs(start, log, Value()) && Inv(Value())
    }

    predicate Holds(h: Host)
      reads this
    {
      && apps == h.apps && app == h.app && saved == h.saved && reloading == h.reloading && closed == h.closed
      && active == h.active && changed == h.changed
    }

    /** InitRuntimeHost and a successful Start. */
    constructor (config: Config, workers: nat)
      ensures Valid() && Value() == start && log == []
      ensures apps == [App(config, true, false, workers)]
    {
      apps, app, saved, reloading, closed, active, changed :=
        [App(config, true, false, workers)], 0, config, false, false, {}, false;
      var h := Host([App(config, true, false, workers)], 0, config, config, false, false,
                    {}, 0, map[], {}, {}, false, Idle, {});
      rest := h;
      start := h;
      log := [];
    }

    /** Closes one statement of the code: the fields already are what the step makes of them. */
    method Commit(before: Host, step: Step)
      requires Started(start) && R.Runs(start, log, before) && Inv(before)
      requires Enabled(before, step) && Holds(Do(before, step))
      modifies this`rest, this`log
      ensures Valid() && Value() == Do(before, step)
    {
      hide Do, Enabled, Inv;
      RunsAppend(start, log, before, step);
      StepKeeps(before, step);
      rest := Do(before, step);
      log := log + [step];
    }

    /** Requests enter, leave and signal, workers exit. */
    method Others(foreign: seq<Step>)
      requires Valid()
      modifies this
      ensures Valid() && Quiet(old(Value()), Value())
    {
      hide Do, Enabled, StageInv, WorkersInv, BarrierInv, SignalInv, RequestInv, Quiet;
      ghost var first := Value();
      Unmoved(first);
      for i := 0 to |foreign|
        invariant Valid() && Quiet(first, Value())
      {
        var before := Value();
        if Foreign(foreign[i]) && Enabled(before, foreign[i]) {
          var h := Do(before, foreign[i]);
          ForeignQuiet(before, foreign[i]);
          QuietTwice(first, before, h);
          apps, app, saved, reloading, closed, active, changed :=
            h.apps, h.app, h.saved, h.reloading, h.closed, h.active, h.changed;
          Commit(before, foreign[i]);
        }
      }
    }

    /** ServeHTTP, up to the handler. */
    method Enter() returns (admitted: bool, ticket: Ticket)
      requires Valid()
      modifies this
      ensures Valid() && admitted == (!old(reloading) && !old(closed))
      ensures Value() == if admitted then Do(old(Value()), R.Enter) else old(Value())
      ensures admitted ==> ticket in active && ticket !in old(active)
    {
      ticket := rest.issued;
      if reloading || closed {
        return false, ticket;
      }
      var before := Value();
      active := active + {ticket};
      Commit(before, R.Enter);
      admitted := true;
    }

    /** ServeHTTP, after the handler: the signal is sent without blocking, after the unlock. */
    method Leave(ticket: Ticket)
      requires Valid() && ticket in active && !(rest.phase.InTransition() && rest.phase.ticket == ticket)
      modifies this
      ensures Valid()
    {
      var before := Value();
      active := active - {ticket};
      Commit(before, R.Leave(ticket));
      before := Value();
      changed := true;
      Commit(before, Signal(ticket));
    }

    method Look(ticket: Ticket, purpose: Purpose) returns (through: bool)
      requires Valid() && rest.phase == Checking(ticket, purpose)
      modifies this
      ensures Valid() && saved == old(saved) && app == old(app) && closed == old(closed)
      ensures rest.prior == old(rest.prior) && |apps| == |old(apps)|
      ensures rest.phase == if !through then Sleeping(ticket, purpose)
                            else if purpose.Apply? then Ready(ticket) else Guarding(ticket)
    {
      hide R.Runs, Inv;
      var pending := |active|;
      var before := Value();
      Commit(before, Check);
      through := pending == 1;
    }

    /** One turn of the wait loop in barrier: look at the active requests, then wait for the
        signal or, when `late`, for the timer. */
    method Turn(ticket: Ticket, purpose: Purpose, late: bool, others: seq<Step>) returns (turn: Turning)
      requires Valid() && rest.phase == Checking(ticket, purpose)
      modifies this
      ensures Valid() && saved == old(saved) && app == old(app) && closed == old(closed)
      ensures rest.prior == old(rest.prior) && |apps| == |old(apps)|
      ensures turn.Through? ==> rest.phase == (if purpose.Apply? then Ready(ticket) else Guarding(ticket))
      ensures turn.Again? ==> rest.phase == Checking(ticket, purpose) && !late
      ensures turn.GaveUp? ==> rest.phase.Idle? && !reloading
    {
      hide R.Runs, Inv;
      var through := Look(ticket, purpose);
      if through {
        return Through;
      }
      Others(others);
      turn := Await(ticket, purpose, late);
    }

    method Await(ticket: Ticket, purpose: Purpose, late: bool) returns (turn: Turning)
      requires Valid() && rest.phase == Sleeping(ticket, purpose)
      modifies this
      ensures Valid() && saved == old(saved) && app == old(app) && closed == old(closed)
      ensures rest.prior == old(rest.prior) && |apps| == |old(apps)| && !turn.Through?
      ensures turn.Again? ==> rest.phase == Checking(ticket, purpose) && !late
      ensures turn.GaveUp? ==> rest.phase.Idle? && !reloading
    {
      hide R.Runs, Inv;
      var before := Value();
      if late || !changed {
        reloading := false;
        Commit(before, GiveUp);
        return GaveUp;
      }
      changed := false;
      Commit(before, Wake);
      turn := Again;
    }

    /** barrier, with a timer that ends after `patience` wake-ups. */
    method Barrier(ticket: Ticket, purpose: Purpose, patience: nat, others: nat -> seq<Step>) returns (ok: bool)
      requires Valid() && rest.phase.Idle?
      modifies this
      ensures Valid() && saved == old(saved) && app == old(app) && closed == old(closed)
      ensures ok ==> rest.phase == (if purpose.Apply? then Ready(ticket) else Guarding(ticket)) && rest.prior == saved
      ensures ok ==> active == {ticket} && reloading && !old(reloading) && !closed && |apps| == |old(apps)|
      ensures !ok ==> rest.phase.Idle? && reloading == old(reloading)
    {
      hide R.Runs, Inv;
      if ticket !in active || reloading || closed {
        return false;
      }
      var before := Value();
      reloading := true;
      Commit(before, R.Barrier(ticket, purpose));
      for turn := 0 to patience
        invariant Valid() && rest.phase == Checking(ticket, purpose) && rest.prior == saved == old(saved)
        invariant app == old(app) && closed == old(closed) && |apps| == |old(apps)|
      {
        Others(others(2 * turn));
        var turned := Turn(ticket, purpose, false, others(2 * turn + 1));
        if !turned.Again? {
          if turned.Through? {
            PastTheBarrier(Value());
          }
          return turned.Through?;
        }
      }
      var turned := Turn(ticket, purpose, true, others(2 * patience));
      if turned.Through? {
        PastTheBarrier(Value());
      }
      ok := turned.Through?;
    }

    /** Close with a background context, and the rollback when it reports an error: either way
        every worker of the old application has exited first. */
    method CloseOldApp(ticket: Ticket, failed: bool, others: nat -> seq<Step>)
      requires Valid() && rest.phase == Persisted(ticket)
      modifies this
      ensures Valid() && app == old(app) && closed == old(closed) && rest.prior == old(rest.prior) && |apps| == |old(apps)|
      ensures saved == if failed then rest.prior else old(saved)
      ensures rest.phase == if failed then Restoring(ticket) else Building(ticket)
    {
      hide R.Runs, Inv;
      AppExists(Value());
      StopOldApp(ticket);
      Drain(others);
      OldAppClosed(ticket, failed);
    }

    method StopOldApp(ticket: Ticket)
      requires Valid() && rest.phase == Persisted(ticket) && app < |apps|
      modifies this
      ensures Valid() && app == old(app) && closed == old(closed) && saved == old(saved)
      ensures rest.prior == old(rest.prior) && |apps| == |old(apps)|
      ensures rest.phase == Draining(ticket)
    {
      hide R.Runs, Inv;
      var before := Value();
      apps := apps[app := apps[app].(closed := true)];
      Commit(before, CloseOld);
    }

    method OldAppClosed(ticket: Ticket, failed: bool)
      requires Valid() && rest.phase == Draining(ticket) && app < |apps| && apps[app].workers == 0
      modifies this
      ensures Valid() && app == old(app) && closed == old(closed)
      ensures rest.prior == old(rest.prior) && |apps| == |old(apps)|
      ensures saved == if failed then rest.prior else old(saved)
      ensures rest.phase == if failed then Restoring(ticket) else Building(ticket)
    {
      hide R.Runs, Inv;
      var before := Value();
      if failed {
        saved := rest.prior;
      }
      Commit(before, Drained(failed));
    }

    /** The wait for the application's workers, which exit one by one. */
    method Drain(others: nat -> seq<Step>)
      requires Valid() && app < |apps|
      modifies this
      ensures Valid() && app == old(app) && closed == old(closed) && rest.prior == old(rest.prior) && |apps| == |old(apps)|
      ensures saved == old(saved) && rest.phase == old(rest.phase) && app < |apps| && apps[app].workers == 0
    {
      hide R.Runs, Inv;
      var turn := 0;
      while apps[app].workers > 0
        invariant Valid() && app == old(app) && closed == old(closed) && rest.prior == old(rest.prior)
        invariant |apps| == |old(apps)| && saved == old(saved) && rest.phase == old(rest.phase) && app < |apps|
        decreases apps[app].workers
      {
        Others(others(turn));
        if apps[app].workers > 0 {
          var before := Value();
          apps := apps[app := apps[app].(workers := apps[app].workers - 1)];
          Commit(before, WorkerExit(app));
        }
        turn := turn + 1;
      }
    }

    /** Start of the next application, with the rollback when it fails. */
    method StartNextApp(ticket: Ticket, starts: bool, workers: nat)
      requires Valid() && rest.phase == Building(ticket)
      modifies this
      ensures Valid() && closed == old(closed) && rest.prior == old(rest.prior) && |apps| == |old(apps)| + 1
      ensures starts ==> saved == old(saved) && rest.phase == Leaving(ticket, true) && app == |old(apps)|
      ensures !starts ==> saved == rest.prior && rest.phase == Restoring(ticket) && app == old(app)
    {
      hide R.Runs, Inv;
      var before := Value();
      if starts {
        apps := apps + [App(saved, true, false, workers)];
        Commit(before, StartNext(workers));
        SwitchApp();
      } else {
        apps, saved := apps + [App(saved, false, true, 0)], rest.prior;
        Commit(before, StartFails);
      }
    }

    method SwitchApp()
      requires Valid() && rest.phase.Switching?
      modifies this
      ensures Valid() && closed == old(closed) && rest.prior == old(rest.prior) && apps == old(apps) && saved == old(saved)
      ensures rest.phase == Leaving(old(rest.phase.ticket), old(rest.phase.ok)) && app == old(rest.phase.next)
    {
      hide R.Runs, Inv;
      var before := Value();
      app := rest.phase.next;
      Commit(before, Switch);
    }

    /** restore: a new application for the old configuration, or the host closes. */
    method Restore(ticket: Ticket, starts: bool, workers: nat)
      requires Valid() && rest.phase == Restoring(ticket)
      modifies this
      ensures Valid() && saved == old(saved) && rest.prior == old(rest.prior)
      ensures rest.phase == Leaving(ticket, false) && closed == (old(closed) || !starts)
    {
      hide R.Runs, StageInv, WorkersInv, BarrierInv, SignalInv, RequestInv;
      AppExists(Value());
      var before := Value();
      if starts {
        apps := apps + [App(apps[app].config, true, false, workers)];
        Commit(before, Restored(workers));
        SwitchApp();
      } else {
        closed := true;
        Commit(before, RestoreFails);
      }
    }

    /** The deferred release. */
    method Release(ticket: Ticket)
      requires Valid() && rest.phase.Leaving?
      modifies this
      ensures Valid() && saved == old(saved) && app == old(app) && apps == old(apps) && closed == old(closed)
      ensures rest.phase.Idle? && !reloading
    {
      hide R.Runs, Inv;
      var before := Value();
      reloading := false;
      Commit(before, R.Release);
    }

    /** apply. Whatever fails and whatever requests and workers do meanwhile: it succeeds with
        the new configuration persisted and a new live application running it; or it fails
        with the persisted configuration as it was, run by a live application, unless the old
        one could not be restored, which closes the host. */
    method Apply(ticket: Ticket, wanted: Config, how: Course, others: nat -> seq<Step>) returns (ok: bool)
      requires Valid()
      modifies this
      ensures Valid() && reloading == old(reloading)
      ensures old(rest.phase.Idle?) ==> rest.phase.Idle?
      ensures ok ==> saved == wanted && app >= |old(apps)| && LiveApp(Value(), app, wanted)
      ensures !ok ==> saved == old(saved)
      ensures closed && !old(closed) ==> !ok && !how.restores
      ensures ok ==> !how.refused && how.readable && how.drained && how.starts
      ensures old(rest.phase.Idle?) && !closed ==> LiveApp(Value(), app, saved)
    {
      hide R.Runs, Inv, Do, Enabled;
      ok := false;
      if !rest.phase.Idle? {
        return;
      }
      var through := Barrier(ticket, R.Apply, how.patience, others);
      if through {
        ok := PastBarrier(ticket, wanted, how, others);
        Release(ticket);
      }
      if !closed {
        IdleIsLive(Value());
      }
    }

    /** apply, from the barrier to the configuration read back. */
    method Settle(ticket: Ticket, wanted: Config, how: Course) returns (ok: bool)
      requires Valid() && rest.phase == Ready(ticket)
      modifies this
      ensures Valid() && app == old(app) && closed == old(closed) && apps == old(apps) && rest.prior == old(rest.prior)
      ensures ok <==> !how.refused && how.readable
      ensures rest.phase == if ok then Persisted(ticket) else Leaving(ticket, false)
      ensures saved == if ok then wanted else old(rest.prior)
    {
      hide R.Runs, Inv;
      var before := Value();
      if how.refused {
        ReadyIsPrior(before);
        Commit(before, Refuse);
        return false;
      }
      saved := wanted;
      Commit(before, Persist(wanted));
      before := Value();
      if !how.readable {
        saved := rest.prior;
        Commit(before, ReloadFails);
        return false;
      }
      ok := true;
    }

    method PastBarrier(ticket: Ticket, wanted: Config, how: Course, others: nat -> seq<Step>) returns (ok: bool)
      requires Valid() && rest.phase == Ready(ticket)
      modifies this
      ensures Valid() && rest.phase == Leaving(ticket, ok)
      ensures ok <==> !how.refused && how.readable && how.drained && how.starts
      ensures ok ==> saved == wanted && app >= |old(apps)| && closed == old(closed)
      ensures !ok ==> saved == old(rest.prior)
      ensures closed && !old(closed) ==> !how.restores
    {
      hide R.Runs, Inv, Do, Enabled;
      var settled := Settle(ticket, wanted, how);
      if !settled {
        return false;
      }
      CloseOldApp(ticket, !how.drained, others);
      if how.drained {
        StartNextApp(ticket, how.starts, how.workers);
      }
      if rest.phase.Restoring? {
        Restore(ticket, how.restores, how.workers);
        return false;
      }
      ok := true;
    }

    /** prepareSoftwareRestart: on success the caller's request is the only one, and the
        barrier stays up until the guard is released. */
    method PrepareSoftwareRestart(ticket: Ticket, grants: bool, patience: nat, others: nat -> seq<Step>)
      returns (ok: bool)
      requires Valid()
      modifies this
      ensures Valid() && saved == old(saved) && app == old(app) && closed == old(closed)
      ensures old(rest.phase.Idle?) ==> rest.phase.Idle?
      ensures ok ==> grants && rest.guard == {ticket} && active == {ticket} && reloading
      ensures !ok ==> reloading == old(reloading)
    {
      hide R.Runs, Inv;
      ok := false;
      if !rest.phase.Idle? {
        return;
      }
      var through := Barrier(ticket, SoftwareRestart, patience, others);
      if through {
        var before := Value();
        if grants {
          Commit(before, GuardTaken);
        } else {
          reloading := false;
          Commit(before, GuardRefused);
        }
        ok := grants;
      }
    }

    /** The function that prepareSoftwareRestart returns. */
    method ReleaseGuard()
      requires Valid() && rest.guard != {}
      modifies this
      ensures Valid() && !reloading && rest.guard == {} && saved == old(saved) && app == old(app) && apps == old(apps)
    {
      hide R.Runs, Inv;
      var before := Value();
      reloading := false;
      Commit(before, GuardReleased);
    }

    /** The first half of Close: the host refuses requests, and the application's hooks stop. */
    method CloseApp() returns (already: bool)
      requires Valid() && rest.phase.Idle? && app < |apps|
      modifies this
      ensures Valid() && closed && rest.phase == Closing(already) && saved == old(saved) && app == old(app)
      ensures app < |apps| == |old(apps)| && already == old(apps)[app].closed
    {
      hide R.Runs, Inv;
      var before := Value();
      already := apps[app].closed;
      closed, apps := true, apps[app := apps[app].(closed := true)];
      Commit(before, CloseHost);
    }

    /** Close, once it has the transition lock. It waits for the workers unless its context
        ends first, or the application had been closed before. */
    method Close(timedOut: bool, others: nat -> seq<Step>)
      requires Valid() && rest.phase.Idle?
      modifies this
      ensures Valid() && closed && rest.phase.Idle? && saved == old(saved) && app == old(app)
      ensures app < |apps| == |old(apps)|
      ensures !timedOut && !old(apps)[app].closed ==> apps[app].workers == 0
    {
      hide R.Runs, Inv;
      AppExists(Value());
      var already := CloseApp();
      if !already && !timedOut {
        Drain(others);
      }
      var before := Value();
      Commit(before, CloseReturns(timedOut));
    }
  }
}
