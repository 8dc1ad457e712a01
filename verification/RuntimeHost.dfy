/**
 Live reload of the running application, one step per critical section: requests enter and
 leave at any time, workers exit when they like, and a settings change or a software restart
 goes through the reload barrier. Applications are numbered in the order they are built.
 */
module RuntimeHost {

  type Ticket = nat
  type Config = int

  datatype App = App(config: Config, started: bool, closed: bool, workers: nat)

  datatype Purpose = Apply | SoftwareRestart

  /** Where the holder of the transition lock stands. */
  datatype Phase =
    | Idle
    | Checking(ticket: Ticket, purpose: Purpose)
    | Sleeping(ticket: Ticket, purpose: Purpose)
    | Ready(ticket: Ticket)
    | Persisted(ticket: Ticket)
    | Draining(ticket: Ticket)
    | Building(ticket: Ticket)
    | Restoring(ticket: Ticket)
    | Switching(ticket: Ticket, next: nat, ok: bool)
    | Leaving(ticket: Ticket, ok: bool)
    | Guarding(ticket: Ticket)
    | Closing(already: bool)
  {
    /** Inside apply or prepareSoftwareRestart, between the barrier's first check and release. */
    predicate InTransition() {
      !Idle? && !Closing?
    }

    /** The barrier has been passed. */
    predicate PastBarrier() {
      InTransition() && !Checking? && !Sleeping?
    }
  }

  /** `saved` is the persisted configuration, `prior` what it was when the current transition
      began; `served` is the application that handles a request, `reloaders` the requests
      that have called the barrier; `leaving` are requests gone from `active` that have not
      sent their signal yet; `guard` is the request whose software restart holds the barrier. */
  datatype Host = Host(
    apps: seq<App>, app: nat, saved: Config, prior: Config, reloading: bool, closed: bool,
    active: set<Ticket>, issued: nat, served: map<Ticket, nat>, reloaders: set<Ticket>, leaving: set<Ticket>, changed: bool,
    phase: Phase, guard: set<Ticket>)

  datatype Step =
    | Enter
    | Leave(ticket: Ticket)
    | Signal(ticket: Ticket)
    | WorkerExit(id: nat)
    | Barrier(ticket: Ticket, purpose: Purpose)
    | Check
    | Wake
    | GiveUp
    | Refuse
    | Persist(config: Config)
    | ReloadFails
    | CloseOld
    | Drained(failed: bool)
    | StartNext(workers: nat)
    | StartFails
    | Restored(workers: nat)
    | RestoreFails
    | Switch
    | Release
    | GuardRefused
    | GuardTaken
    | GuardReleased
    | CloseHost
    | CloseReturns(timedOut: bool)

  predicate Enabled(h: Host, step: Step) {
    match step
    case Enter => !h.reloading && !h.closed
    // A handler that is inside apply or prepareSoftwareRestart has not returned.
    case Leave(t) => t in h.active && !(h.phase.InTransition() && h.phase.ticket == t)
    case Signal(t) => t in h.leaving
    case WorkerExit(id) => id < |h.apps| && h.apps[id].workers > 0
    case Barrier(t, _) => h.phase.Idle? && t in h.active && !h.reloading && !h.closed
    case Check => h.phase.Checking?
    case Wake => h.phase.Sleeping? && h.changed
    case GiveUp => h.phase.Sleeping?
    case Refuse => h.phase.Ready?
    case Persist(_) => h.phase.Ready?
    case ReloadFails => h.phase.Persisted?
    case CloseOld => h.phase.Persisted? && h.app < |h.apps|
    // Close with a background context waits for every worker, whatever its hooks answer: see
    // module HostApplications.
    case Drained(_) => h.phase.Draining? && h.app < |h.apps| && h.apps[h.app].workers == 0
    case StartNext(_) => h.phase.Building?
    case StartFails => h.phase.Building?
    case Restored(_) => h.phase.Restoring? && h.app < |h.apps|
    case RestoreFails => h.phase.Restoring?
    case Switch => h.phase.Switching?
    case Release => h.phase.Leaving?
    case GuardRefused => h.phase.Guarding?
    case GuardTaken => h.phase.Guarding?
    case GuardReleased => h.guard != {}
    case CloseHost => h.phase.Idle? && h.app < |h.apps|
    case CloseReturns(timedOut) =>
      h.phase.Closing? && h.app < |h.apps| && (h.phase.already || timedOut || h.apps[h.app].workers == 0)
  }

  function Do(h: Host, step: Step): Host
    requires Enabled(h, step)
  {
    match step
    case Enter => h.(active := h.active + {h.issued}, issued := h.issued + 1, served := h.served[h.issued := h.app])
    case Leave(t) => h.(active := h.active - {t}, leaving := h.leaving + {t})
    case Signal(t) => h.(leaving := h.leaving - {t}, changed := true)
    case WorkerExit(id) => h.(apps := h.apps[id := h.apps[id].(workers := h.apps[id].workers - 1)])
    case Barrier(t, purpose) =>
      h.(reloading := true, prior := h.saved, reloaders := h.reloaders + {t}, phase := Checking(t, purpose))
    case Check =>
      if |h.active| != 1 then h.(phase := Sleeping(h.phase.ticket, h.phase.purpose))
      else if h.phase.purpose.Apply? then h.(phase := Ready(h.phase.ticket))
      else h.(phase := Guarding(h.phase.ticket))
    case Wake => h.(changed := false, phase := Checking(h.phase.ticket, h.phase.purpose))
    case GiveUp => h.(reloading := false, phase := Idle)
    case Refuse => h.(phase := Leaving(h.phase.ticket, false))
    case Persist(config) => h.(saved := config, phase := Persisted(h.phase.ticket))
    case ReloadFails => h.(saved := h.prior, phase := Leaving(h.phase.ticket, false))
    case CloseOld =>
      h.(apps := h.apps[h.app := h.apps[h.app].(closed := true)], phase := Draining(h.phase.ticket))
    case Drained(failed) =>
      if failed then h.(saved := h.prior, phase := Restoring(h.phase.ticket))
      else h.(phase := Building(h.phase.ticket))
    case StartNext(workers) =>
      h.(apps := h.apps + [App(h.saved, true, false, workers)], phase := Switching(h.phase.ticket, |h.apps|, true))
    case StartFails =>
      h.(apps := h.apps + [App(h.saved, false, true, 0)], saved := h.prior, phase := Restoring(h.phase.ticket))
    case Restored(workers) =>
      h.(apps := h.apps + [App(h.apps[h.app].config, true, false, workers)],
         phase := Switching(h.phase.ticket, |h.apps|, false))
    case RestoreFails => h.(closed := true, phase := Leaving(h.phase.ticket, false))
    case Switch => h.(app := h.phase.next, phase := Leaving(h.phase.ticket, h.phase.ok))
    case Release => h.(reloading := false, phase := Idle)
    case GuardRefused => h.(reloading := false, phase := Idle)
    case GuardTaken => h.(guard := {h.phase.ticket}, phase := Idle)
    case GuardReleased => h.(reloading := false, guard := {})
    case CloseHost =>
      h.(closed := true, apps := h.apps[h.app := h.apps[h.app].(closed := true)],
         phase := Closing(h.apps[h.app].closed))
    case CloseReturns(_) => h.(phase := Idle)
  }

  /** The state after a successful Host.Start. */
  predicate Started(h: Host) {
    && |h.apps| == 1 && h.app == 0 && h.apps[0].started && !h.apps[0].closed
    && h.saved == h.apps[0].config && !h.reloading && !h.closed
    && h.active == {} && h.served == map[] && h.leaving == {} && h.phase.Idle? && h.guard == {}
  }

  predicate Behavior(hs: seq<Host>, steps: seq<Step>) {
    && |hs| == |steps| + 1
    && Started(hs[0])
    && forall i :: 0 <= i < |steps| ==> Enabled(hs[i], steps[i]) && hs[i + 1] == Do(hs[i], steps[i])
  }

  // ---------------------------------------------------------------- invariants

  predicate LiveApp(h: Host, id: nat, config: Config) {
    id < |h.apps| && h.apps[id].started && !h.apps[id].closed && h.apps[id].config == config
  }

  /** What each stage of a transition may rely on. */
  predicate StageInv(h: Host) {
    && h.app < |h.apps|
    && match h.phase
       case Idle => h.closed || LiveApp(h, h.app, h.saved)
       case Checking(_, _) => LiveApp(h, h.app, h.saved) && h.saved == h.prior
       case Sleeping(_, _) => LiveApp(h, h.app, h.saved) && h.saved == h.prior
       case Ready(_) => LiveApp(h, h.app, h.saved) && h.saved == h.prior
       case Guarding(_) => LiveApp(h, h.app, h.saved) && h.saved == h.prior
       case Persisted(_) => LiveApp(h, h.app, h.prior)
       case Draining(_) => h.apps[h.app].config == h.prior
       case Building(_) => h.apps[h.app].config == h.prior
       case Restoring(_) => h.apps[h.app].config == h.prior && h.saved == h.prior
       case Switching(_, next, ok) => LiveApp(h, next, h.saved) && (!ok ==> h.saved == h.prior)
       case Leaving(_, ok) => (h.closed || LiveApp(h, h.app, h.saved)) && (!ok ==> h.saved == h.prior)
       case Closing(_) => h.closed
  }

  /** The one application that may have running workers. */
  predicate MayWork(h: Host, id: nat) {
    match h.phase
    case Building(_) => false
    case Restoring(_) => false
    case Switching(_, next, _) => id == next
    case _ => id == h.app
  }

  ghost predicate WorkersInv(h: Host) {
    forall id :: 0 <= id < |h.apps| && h.apps[id].workers > 0 ==> MayWork(h, id)
  }

  predicate BarrierInv(h: Host) {
    && h.reloading == (h.phase.InTransition() || h.guard != {})
    && (h.phase.InTransition() ==> h.guard == {} && h.phase.ticket in h.active && h.phase.ticket in h.reloaders)
    && (h.phase.PastBarrier() ==> h.active == {h.phase.ticket})
    && (h.guard != {} ==> h.active <= h.guard && h.guard <= h.reloaders && |h.guard| == 1)
  }

  /** A sleeper whose request is the last one has a signal in the slot or on its way. */
  predicate SignalInv(h: Host) {
    h.phase.Sleeping? && h.active == {h.phase.ticket} ==> h.changed || h.leaving != {}
  }

  ghost predicate RequestInv(h: Host) {
    && (forall t :: t in h.active ==> t < h.issued && t in h.served)
    && (forall t :: t in h.active && t !in h.reloaders && !h.closed ==> h.served[t] == h.app)
  }

  ghost predicate Inv(h: Host) {
    StageInv(h) && WorkersInv(h) && BarrierInv(h) && SignalInv(h) && RequestInv(h)
  }

  lemma OnlyTicket(active: set<Ticket>, t: Ticket)
    requires t in active && |active| == 1
    ensures active == {t}
  {
    assert |active - {t}| == 0;
  }

  // Steps fall into four groups, and each is shown to keep the invariant on its own.

  predicate ByOthers(step: Step) {
    step.Enter? || step.Leave? || step.Signal? || step.WorkerExit?
  }

  predicate AtBarrier(step: Step) {
    || step.Barrier? || step.Check? || step.Wake? || step.GiveUp?
    || step.GuardRefused? || step.GuardTaken? || step.GuardReleased?
  }

  predicate Closes(step: Step) {
    step.CloseOld? || step.Drained? || step.CloseHost? || step.CloseReturns?
  }

  predicate Replaces(step: Step) {
    !ByOthers(step) && !AtBarrier(step) && !Closes(step)
  }

  lemma OthersKeepStage(h: Host, step: Step)
    requires StageInv(h) && Enabled(h, step) && ByOthers(step)
    ensures StageInv(Do(h, step))
  {
  }

  lemma BarrierKeepsStage(h: Host, step: Step)
    requires StageInv(h) && Enabled(h, step) && AtBarrier(step)
    ensures StageInv(Do(h, step))
  {
  }

  lemma CloseKeepsStage(h: Host, step: Step)
    requires StageInv(h) && Enabled(h, step) && Closes(step)
    ensures StageInv(Do(h, step))
  {
  }

  predicate Adds(step: Step) {
    step.StartNext? || step.StartFails? || step.Restored?
  }

  lemma AddKeepsStage(h: Host, step: Step)
    requires StageInv(h) && Enabled(h, step) && Adds(step)
    ensures StageInv(Do(h, step))
  {
  }

  lemma ReplaceKeepsStage(h: Host, step: Step)
    requires StageInv(h) && Enabled(h, step) && Replaces(step) && !Adds(step)
    ensures StageInv(Do(h, step))
  {
  }

  lemma StageKept(h: Host, step: Step)
    requires StageInv(h) && Enabled(h, step)
    ensures StageInv(Do(h, step))
  {
    hide Do, Enabled, StageInv;
    if ByOthers(step) {
      OthersKeepStage(h, step);
    } else if AtBarrier(step) {
      BarrierKeepsStage(h, step);
    } else if Closes(step) {
      CloseKeepsStage(h, step);
    } else if Adds(step) {
      AddKeepsStage(h, step);
    } else {
      ReplaceKeepsStage(h, step);
    }
  }

  lemma OthersKeepWorkers(h: Host, step: Step)
    requires WorkersInv(h) && Enabled(h, step) && ByOthers(step)
    ensures WorkersInv(Do(h, step))
  {
    assert forall id :: 0 <= id < |h.apps| && Do(h, step).apps[id].workers > 0 ==> h.apps[id].workers > 0;
  }

  lemma BarrierKeepsWorkers(h: Host, step: Step)
    requires WorkersInv(h) && Enabled(h, step) && AtBarrier(step)
    ensures WorkersInv(Do(h, step))
  {
    assert Do(h, step).apps == h.apps && Do(h, step).app == h.app;
  }

  lemma CloseKeepsWorkers(h: Host, step: Step)
    requires WorkersInv(h) && Enabled(h, step) && Closes(step)
    ensures WorkersInv(Do(h, step))
  {
    assert forall id :: 0 <= id < |h.apps| ==> Do(h, step).apps[id].workers == h.apps[id].workers;
  }

  /** Between the old application's end and the next one's start nothing runs. */
  lemma NothingRuns(h: Host)
    requires WorkersInv(h) && (h.phase.Building? || h.phase.Restoring?)
    ensures forall id :: 0 <= id < |h.apps| ==> h.apps[id].workers == 0
  {
    assert forall id :: 0 <= id < |h.apps| ==> !MayWork(h, id);
  }

  lemma NewAppKeepsWorkers(h: Host, step: Step)
    requires WorkersInv(h) && Enabled(h, step) && Adds(step)
    ensures WorkersInv(Do(h, step))
  {
    NothingRuns(h);
    hide WorkersInv;
    var h' := Do(h, step);
    assert forall id :: 0 <= id < |h.apps| ==> h'.apps[id] == h.apps[id];
    forall id | 0 <= id < |h'.apps| && h'.apps[id].workers > 0 ensures MayWork(h', id) {
      assert id == |h.apps|;
    }
    OnlyMayWork(h');
  }

  lemma OnlyMayWork(h: Host)
    requires forall id :: 0 <= id < |h.apps| && h.apps[id].workers > 0 ==> MayWork(h, id)
    ensures WorkersInv(h)
  {
  }

  lemma ReplaceKeepsWorkers(h: Host, step: Step)
    requires WorkersInv(h) && Enabled(h, step) && Replaces(step) && !Adds(step)
    ensures WorkersInv(Do(h, step))
  {
    assert Do(h, step).apps == h.apps;
  }

  lemma WorkersKept(h: Host, step: Step)
    requires StageInv(h) && WorkersInv(h) && Enabled(h, step)
    ensures WorkersInv(Do(h, step))
  {
    hide Do, Enabled, StageInv, WorkersInv;
    if ByOthers(step) {
      OthersKeepWorkers(h, step);
    } else if AtBarrier(step) {
      BarrierKeepsWorkers(h, step);
    } else if Closes(step) {
      CloseKeepsWorkers(h, step);
    } else if Adds(step) {
      NewAppKeepsWorkers(h, step);
    } else {
      ReplaceKeepsWorkers(h, step);
    }
  }

  lemma OthersKeepBarrier(h: Host, step: Step)
    requires BarrierInv(h) && Enabled(h, step) && ByOthers(step)
    ensures BarrierInv(Do(h, step)) && (SignalInv(h) ==> SignalInv(Do(h, step)))
  {
  }

  lemma BarrierKeepsBarrier(h: Host, step: Step)
    requires BarrierInv(h) && Enabled(h, step) && AtBarrier(step)
    ensures BarrierInv(Do(h, step))
  {
    if step.Check? && |h.active| == 1 {
      OnlyTicket(h.active, h.phase.ticket);
    }
  }

  lemma BarrierKeepsSignal(h: Host, step: Step)
    requires BarrierInv(h) && Enabled(h, step) && AtBarrier(step) && SignalInv(h)
    ensures SignalInv(Do(h, step))
  {
  }

  lemma CloseKeepsBarrier(h: Host, step: Step)
    requires BarrierInv(h) && Enabled(h, step) && Closes(step)
    ensures BarrierInv(Do(h, step)) && SignalInv(Do(h, step))
  {
  }

  lemma ReplaceKeepsBarrier(h: Host, step: Step)
    requires BarrierInv(h) && Enabled(h, step) && Replaces(step)
    ensures BarrierInv(Do(h, step)) && SignalInv(Do(h, step))
  {
  }

  lemma BarrierKept(h: Host, step: Step)
    requires BarrierInv(h) && SignalInv(h) && Enabled(h, step)
    ensures BarrierInv(Do(h, step)) && SignalInv(Do(h, step))
  {
    hide Do, Enabled, BarrierInv, SignalInv;
    if ByOthers(step) {
      OthersKeepBarrier(h, step);
    } else if AtBarrier(step) {
      BarrierKeepsBarrier(h, step);
      BarrierKeepsSignal(h, step);
    } else if Closes(step) {
      CloseKeepsBarrier(h, step);
    } else {
      ReplaceKeepsBarrier(h, step);
    }
  }

  /** What requests rely on: only entering, leaving, the barrier and switching touch it. */
  predicate SameRequests(a: Host, b: Host) {
    && b.active == a.active && b.issued == a.issued && b.served == a.served
    && b.reloaders == a.reloaders && b.app == a.app && (a.closed ==> b.closed)
  }

  lemma CloseFrame(h: Host, step: Step)
    requires Enabled(h, step) && Closes(step)
    ensures SameRequests(h, Do(h, step)) && Do(h, step).prior == h.prior
  {
  }

  lemma ReplaceFrame(h: Host, step: Step)
    requires Enabled(h, step) && Replaces(step)
    ensures (!step.Switch? ==> SameRequests(h, Do(h, step))) && Do(h, step).prior == h.prior
  {
  }

  lemma BarrierFrame(h: Host, step: Step)
    requires Enabled(h, step) && AtBarrier(step) && !step.Barrier?
    ensures SameRequests(h, Do(h, step)) && Do(h, step).prior == h.prior
  {
  }

  lemma OthersFrame(h: Host, step: Step)
    requires Enabled(h, step) && ByOthers(step)
    ensures (!step.Enter? && !step.Leave? ==> SameRequests(h, Do(h, step))) && Do(h, step).prior == h.prior
  {
  }

  lemma Frame(h: Host, step: Step)
    requires Enabled(h, step)
    ensures !step.Enter? && !step.Leave? && !step.Barrier? && !step.Switch? ==> SameRequests(h, Do(h, step))
    ensures !step.Barrier? ==> Do(h, step).prior == h.prior
  {
    hide Do, Enabled, SameRequests;
    if ByOthers(step) {
      OthersFrame(h, step);
    } else if AtBarrier(step) {
      if !step.Barrier? {
        BarrierFrame(h, step);
      }
    } else if Closes(step) {
      CloseFrame(h, step);
    } else {
      ReplaceFrame(h, step);
    }
  }

  lemma RequestsMoved(h: Host, step: Step)
    requires BarrierInv(h) && RequestInv(h) && Enabled(h, step)
    requires step.Enter? || step.Leave? || step.Barrier? || step.Switch?
    ensures RequestInv(Do(h, step))
  {
  }

  lemma RequestsKept(h: Host, step: Step)
    requires BarrierInv(h) && RequestInv(h) && Enabled(h, step)
    ensures RequestInv(Do(h, step))
  {
    hide Do, Enabled, BarrierInv;
    if step.Enter? || step.Leave? || step.Barrier? || step.Switch? {
      RequestsMoved(h, step);
    } else {
      Frame(h, step);
    }
  }

  lemma StepKeeps(h: Host, step: Step)
    requires Inv(h) && Enabled(h, step)
    ensures Inv(Do(h, step))
  {
    StageKept(h, step);
    WorkersKept(h, step);
    BarrierKept(h, step);
    RequestsKept(h, step);
  }

  lemma {:induction false} RunKeeps(hs: seq<Host>, steps: seq<Step>, n: nat)
    requires Behavior(hs, steps) && n < |hs|
    ensures Inv(hs[n])
  {
    if n > 0 {
      RunKeeps(hs, steps, n - 1);
      StepKeeps(hs[n - 1], steps[n - 1]);
    }
  }

  // ---------------------------------------------------------------- theorems over every run

  /** Live generation. Whenever the host is neither reloading nor closed, its application is
      started, not closed, and runs the persisted configuration; and every request that did
      not itself ask for a transition is served by it. */
  lemma LiveGeneration(hs: seq<Host>, steps: seq<Step>, n: nat)
    requires Behavior(hs, steps) && n < |hs| && !hs[n].reloading && !hs[n].closed
    ensures LiveApp(hs[n], hs[n].app, hs[n].saved)
    ensures forall t :: t in hs[n].active && t !in hs[n].reloaders
                        ==> t in hs[n].served && LiveApp(hs[n], hs[n].served[t], hs[n].saved)
  {
    RunKeeps(hs, steps, n);
  }

  /** No overlap. Workers of two applications never run at the same time. */
  lemma NoOverlap(hs: seq<Host>, steps: seq<Step>, n: nat, a: nat, b: nat)
    requires Behavior(hs, steps) && n < |hs| && a < |hs[n].apps| && b < |hs[n].apps|
    requires hs[n].apps[a].workers > 0 && hs[n].apps[b].workers > 0
    ensures a == b
  {
    RunKeeps(hs, steps, n);
    assert MayWork(hs[n], a) && MayWork(hs[n], b);
  }

  /** Reload barrier. Past the barrier the caller's request is the only active one and none
      can enter; under a software restart guard no other request is active either. */
  lemma BarrierExcludes(hs: seq<Host>, steps: seq<Step>, n: nat)
    requires Behavior(hs, steps) && n < |hs|
    ensures hs[n].phase.PastBarrier() ==> hs[n].active == {hs[n].phase.ticket} && !Enabled(hs[n], Enter)
    ensures hs[n].guard != {} ==> hs[n].active <= hs[n].guard && |hs[n].guard| == 1 && !Enabled(hs[n], Enter)
  {
    RunKeeps(hs, steps, n);
  }

  lemma BarrierSetsPrior(h: Host, step: Step)
    requires Enabled(h, step) && step.Barrier?
    ensures Do(h, step).prior == h.saved
  {
  }

  lemma {:induction false} PriorStays(hs: seq<Host>, steps: seq<Step>, i: nat, n: nat)
    requires Behavior(hs, steps) && i < n < |hs| && steps[i].Barrier?
    requires forall k :: i < k < n ==> !steps[k].Barrier?
    ensures hs[n].prior == hs[i].saved
  {
    hide Do, Enabled;
    if i + 1 < n {
      PriorStays(hs, steps, i, n - 1);
      Frame(hs[n - 1], steps[n - 1]);
    } else {
      BarrierSetsPrior(hs[i], steps[i]);
    }
  }

  /** Failure restores. A transition that ends in an error leaves the configuration that was
      persisted when it began, run by the host's application unless the host has closed. */
  lemma FailureRestores(hs: seq<Host>, steps: seq<Step>, i: nat, n: nat)
    requires Behavior(hs, steps) && i < n < |hs| && steps[i].Barrier?
    requires forall k :: i < k < n ==> !steps[k].Barrier?
    requires hs[n].phase.Leaving? && !hs[n].phase.ok
    ensures hs[n].saved == hs[i].saved
    ensures hs[n].closed || LiveApp(hs[n], hs[n].app, hs[i].saved)
  {
    PriorStays(hs, steps, i, n);
    RunKeeps(hs, steps, n);
  }

  predicate Runs(h: Host, steps: seq<Step>, h': Host)
    decreases |steps|
  {
    if steps == [] then h == h'
    else Enabled(h, steps[0]) && Runs(Do(h, steps[0]), steps[1..], h')
  }

  /** With the signal in the slot, a sleeping barrier whose caller is alone gets through. */
  lemma WakeAndCheck(h: Host) returns (h': Host)
    requires h.phase.Sleeping? && h.changed && h.active == {h.phase.ticket}
    ensures Runs(h, [Wake, Check], h') && h'.phase.PastBarrier() && h'.phase.ticket == h.phase.ticket
  {
    var woken := Do(h, Wake);
    h' := Do(woken, Check);
    assert [Check][1..] == [] && [Wake, Check][1..] == [Check];
    assert Runs(woken, [Check], h');
  }

  lemma RunsFrom(h: Host, step: Step, steps: seq<Step>, h': Host)
    requires Enabled(h, step) && Runs(Do(h, step), steps, h')
    ensures Runs(h, [step] + steps, h')
  {
    hide Do, Enabled;
    assert ([step] + steps)[1..] == steps;
  }

  /** No lost departure. Once the barrier's caller is the last active request, a sleeping
      barrier gets through as soon as the departures on their way have signalled. */
  lemma LastDepartureWakes(hs: seq<Host>, steps: seq<Step>, n: nat) returns (rest: seq<Step>, h: Host)
    requires Behavior(hs, steps) && n < |hs|
    requires hs[n].phase.Sleeping? && hs[n].active == {hs[n].phase.ticket}
    ensures Runs(hs[n], rest, h) && h.phase.PastBarrier() && h.phase.ticket == hs[n].phase.ticket
    ensures |rest| <= 3 && forall k :: 0 <= k < |rest| ==> rest[k].Signal? || rest[k].Wake? || rest[k].Check?
  {
    RunKeeps(hs, steps, n);
    hide Runs;
    if hs[n].changed {
      h := WakeAndCheck(hs[n]);
      rest := [Wake, Check];
    } else {
      var t :| t in hs[n].leaving;
      h := WakeAndCheck(Do(hs[n], Signal(t)));
      RunsFrom(hs[n], Signal(t), [Wake, Check], h);
      rest := [Signal(t)] + [Wake, Check];
    }
  }
}
