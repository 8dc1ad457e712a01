/**
 Why the host's machine may say what it says of applications. Its steps describe an application
 by four facts; here the calls that the host makes on the applications of module Application
 are shown to be runs of those steps. So it is Close that makes the machine's wait come true,
 and Start that makes a failed start leave no worker behind.
 */
module HostApplications {
  import A = Application
  import opened R = RuntimeHost
  import opened Wrappers

  /** What the host's machine knows of an application. */
  function Image(a: A.Application, config: Config): App
    reads a
  {
    App(config, a.started, a.closed, a.running)
  }

  /** How the hooks of one generation answer. */
  datatype Answers = Answers(parentDone: bool, start: nat -> bool, stop: nat -> bool, final: nat -> bool)

  function Exits(id: nat, count: nat): seq<Step> {
    if count == 0 then [] else [WorkerExit(id)] + Exits(id, count - 1)
  }

  function WithWorkers(h: Host, workers: nat): Host
    requires h.app < |h.apps|
  {
    h.(apps := h.apps[h.app := h.apps[h.app].(workers := workers)])
  }

  lemma ExitStep(h: Host)
    requires h.app < |h.apps| && h.apps[h.app].workers > 0
    ensures Enabled(h, WorkerExit(h.app)) && Do(h, WorkerExit(h.app)) == WithWorkers(h, h.apps[h.app].workers - 1)
  {
  }

  lemma SetTwice(h: Host, first: nat, second: nat)
    requires h.app < |h.apps|
    ensures var next := WithWorkers(h, first);
            && next.app == h.app && next.app < |next.apps| && next.apps[next.app].workers == first
            && WithWorkers(next, second) == WithWorkers(h, second)
    ensures WithWorkers(h, h.apps[h.app].workers) == h
  {
    assert WithWorkers(WithWorkers(h, first), second).apps == WithWorkers(h, second).apps;
    assert WithWorkers(h, h.apps[h.app].workers).apps == h.apps;
  }

  /** Workers that return one by one are steps of the machine. */
  lemma {:induction false} ExitsRun(h: Host, count: nat, steps: seq<Step>, h': Host)
    requires h.app < |h.apps| && count <= h.apps[h.app].workers
    requires Runs(WithWorkers(h, h.apps[h.app].workers - count), steps, h')
    ensures Runs(h, Exits(h.app, count) + steps, h')
    decreases count
  {
    hide Do, Enabled, Runs, WithWorkers;
    var left := h.apps[h.app].workers - count;
    if count == 0 {
      SetTwice(h, left, left);
      assert Exits(h.app, 0) + steps == steps;
    } else {
      ExitStep(h);
      SetTwice(h, left + count - 1, left);
      var next := WithWorkers(h, left + count - 1);
      ExitsRun(next, count - 1, steps, h');
      RunsFrom(h, WorkerExit(h.app), Exits(h.app, count - 1) + steps, h');
      assert [WorkerExit(h.app)] + (Exits(h.app, count - 1) + steps) == Exits(h.app, count) + steps;
    }
  }

  lemma LastStep(h: Host, step: Step)
    requires Enabled(h, step)
    ensures Runs(h, [step], Do(h, step))
  {
    hide Do, Enabled;
    assert [step][1..] == [];
    assert Runs(Do(h, step), [], Do(h, step));
  }

  /** A way from closing an application, over the workers that return, to the end of the wait. */
  lemma CloseRuns(h: Host, first: Step, returned: nat, last: Step, h': Host)
    requires Enabled(h, first)
    requires var closing := Do(h, first);
             closing.app < |closing.apps| && returned <= closing.apps[closing.app].workers &&
             var waited := WithWorkers(closing, closing.apps[closing.app].workers - returned);
             Enabled(waited, last) && h' == Do(waited, last)
    ensures Runs(h, [first] + (Exits(Do(h, first).app, returned) + [last]), h')
  {
    hide Do, Enabled, Exits;
    var closing := Do(h, first);
    LastStep(WithWorkers(closing, closing.apps[closing.app].workers - returned), last);
    ExitsRun(closing, returned, [last], h');
    RunsFrom(h, first, Exits(closing.app, returned) + [last], h');
  }

  lemma CloseOldRuns(h: Host, failed: bool) returns (steps: seq<Step>, h': Host)
    requires h.phase.Persisted? && h.app < |h.apps|
    ensures Runs(h, steps, h')
    ensures h'.apps == h.apps[h.app := h.apps[h.app].(closed := true, workers := 0)]
    ensures h'.phase == if failed then Restoring(h.phase.ticket) else Building(h.phase.ticket)
  {
    hide Runs;
    var closing := Do(h, CloseOld);
    h' := Do(WithWorkers(closing, 0), Drained(failed));
    CloseRuns(h, CloseOld, h.apps[h.app].workers, Drained(failed), h');
    steps := [CloseOld] + (Exits(closing.app, h.apps[h.app].workers) + [Drained(failed)]);
  }

  lemma CloseHostRuns(h: Host, left: nat) returns (steps: seq<Step>, h': Host)
    requires h.phase.Idle? && h.app < |h.apps| && left <= h.apps[h.app].workers
    ensures Runs(h, steps, h')
    ensures h'.apps == h.apps[h.app := h.apps[h.app].(closed := true, workers := left)]
    ensures h'.phase.Idle? && h'.closed
  {
    hide Runs;
    var closing := Do(h, CloseHost);
    h' := Do(WithWorkers(closing, left), CloseReturns(left > 0));
    CloseRuns(h, CloseHost, h.apps[h.app].workers - left, CloseReturns(left > 0), h');
    steps := [CloseHost] + (Exits(closing.app, h.apps[h.app].workers - left) + [CloseReturns(left > 0)]);
  }

  /** What apply and restore do with a new application: start it, and close it if that fails.
      Either way it is what the machine's step adds, and a failure leaves no worker behind. */
  method StartOrClose(next: A.Application, answers: Answers, ghost h: Host) returns (ok: bool)
    requires next.Valid() && !next.started && !next.closed && next.running == 0
    modifies next
    ensures next.Valid()
    ensures ok <==> !answers.parentDone && forall n: nat :: n < next.starts ==> answers.start(n)
    ensures h.phase.Building? ==>
              Do(h, if ok then StartNext(next.workers) else StartFails).apps == h.apps + [Image(next, h.saved)]
    ensures h.phase.Restoring? && h.app < |h.apps| && ok ==>
              Do(h, Restored(next.workers)).apps == h.apps + [Image(next, h.apps[h.app].config)]
    ensures !ok ==> next.closed && next.running == 0
  {
    var r := next.Start(answers.parentDone, answers.start);
    ok := r.Running?;
    if !ok {
      var ignored := next.Close(None, answers.stop, answers.final);
    }
  }

  /** apply's Close of the old application, with a background context. Whatever its hooks
      answer, it is a run of the machine through every worker's exit, and `failed` is whether
      it reports an error. */
  method CloseOldApplication(prior: A.Application, answers: Answers, ghost h: Host)
    returns (failed: bool, ghost steps: seq<Step>, ghost h': Host)
    requires prior.Valid() && !prior.closed
    requires h.phase.Persisted? && h.app < |h.apps| && h.apps[h.app] == Image(prior, h.apps[h.app].config)
    modifies prior
    ensures prior.Valid() && prior.closed && prior.running == 0
    ensures Runs(h, steps, h')
    ensures h'.apps == h.apps[h.app := Image(prior, h.apps[h.app].config)]
    ensures h'.phase == if failed then Restoring(h.phase.ticket) else Building(h.phase.ticket)
    ensures failed <==> || (!old(prior.cleaned) && exists n: nat :: n < prior.stops && !answers.stop(n))
                        || exists n: nat :: n < prior.finals && !answers.final(n)
  {
    hide Runs, Do, Enabled;
    var ok := prior.Close(None, answers.stop, answers.final);
    failed := !ok;
    steps, h' := CloseOldRuns(h, failed);
  }

  /** The host's own Close, whose context may end before the workers do. */
  method CloseLastApplication(last: A.Application, patience: Option<nat>, answers: Answers, ghost h: Host)
    returns (ok: bool, ghost steps: seq<Step>, ghost h': Host)
    requires last.Valid()
    requires h.phase.Idle? && h.app < |h.apps| && h.apps[h.app] == Image(last, h.apps[h.app].config)
    modifies last
    ensures last.Valid() && last.closed && Runs(h, steps, h')
    ensures h'.apps == h.apps[h.app := Image(last, h.apps[h.app].config)] && h'.phase.Idle? && h'.closed
    ensures patience.None? && !old(last.closed) ==> last.running == 0
  {
    hide Runs, Do, Enabled;
    ok := last.Close(patience, answers.stop, answers.final);
    steps, h' := CloseHostRuns(h, last.running);
  }
}
