/**
 Command admission at the Agent: two bounded queues, six workers, the pending counter under
 the admission mutex, and the two pauses. A queue send and the counting of it are two steps,
 because a worker may take the command in between.
 */
module Admission {

  const STATUS_QUEUE := 32
  const GENERAL_QUEUE := 64
  const STATUS_WORKERS := 2
  const WORKERS := 6

  type Command = nat

  datatype Stage = AwaitingAck | Running | Finished

  datatype Held = Held(command: Command, stage: Stage)

  datatype Pause = Unpaused | IdlePause | SoftwareGuard(caller: Command)

  /** Workers 0 and 1 serve the status queue, 2 to 5 the general one. `inserting` holds the
      mutex between a queue send and its count. `dropped` counts the commands that workers
      put down when the Agent stopped before they were acknowledged. */
  datatype Agent = Agent(
    statusQueue: seq<Command>, generalQueue: seq<Command>, held: map<nat, Held>, exited: set<nat>, dropped: nat,
    pending: int, inserting: bool, pause: Pause, stopped: bool, issued: nat, acknowledged: set<Command>, ran: set<Command>)
  {
    function Queue(worker: nat): seq<Command> {
      if worker < STATUS_WORKERS then statusQueue else generalQueue
    }

    function Queued(): nat {
      |statusQueue| + |generalQueue|
    }
  }

  datatype Step =
    | Insert(status: bool)
    | Count
    | Acknowledge(command: Command)
    | Take(worker: nat)
    | Run(worker: nat)
    | Finish(worker: nat)
    | Uncount(worker: nat)
    | Stop
    | Exit(worker: nat)
    | PauseIfIdle
    | Guard(worker: nat)
    | Resume

  predicate Enabled(a: Agent, step: Step) {
    match step
    case Insert(status) =>
      !a.inserting && a.pause.Unpaused? &&
      (if status then |a.statusQueue| < STATUS_QUEUE else |a.generalQueue| < GENERAL_QUEUE)
    case Count => a.inserting
    case Acknowledge(c) => c < a.issued && !(a.inserting && c == a.issued - 1)
    case Take(w) => w < WORKERS && w !in a.held && w !in a.exited && a.Queue(w) != []
    case Run(w) => w in a.held && a.held[w].stage.AwaitingAck? && a.held[w].command in a.acknowledged
    case Finish(w) => w in a.held && a.held[w].stage.Running?
    case Uncount(w) => w in a.held && a.held[w].stage.Finished? && !a.inserting
    case Stop => true
    case Exit(w) => a.stopped && w < WORKERS && w !in a.exited && (w in a.held ==> a.held[w].stage.AwaitingAck?)
    case PauseIfIdle => !a.inserting && a.pause.Unpaused? && a.pending == 0
    // The restart guard is asked for by a command that is running.
    case Guard(w) =>
      !a.inserting && a.pause.Unpaused? && a.pending == 1 && w in a.held && a.held[w].stage.Running?
    case Resume => !a.inserting && !a.pause.Unpaused?
  }

  function Do(a: Agent, step: Step): Agent
    requires Enabled(a, step)
  {
    match step
    case Insert(status) =>
      var b := a.(inserting := true, issued := a.issued + 1);
      if status then b.(statusQueue := a.statusQueue + [a.issued]) else b.(generalQueue := a.generalQueue + [a.issued])
    case Count => a.(inserting := false, pending := a.pending + 1)
    case Acknowledge(c) => a.(acknowledged := a.acknowledged + {c})
    case Take(w) =>
      var b := a.(held := a.held[w := Held(a.Queue(w)[0], AwaitingAck)]);
      if w < STATUS_WORKERS then b.(statusQueue := a.statusQueue[1..]) else b.(generalQueue := a.generalQueue[1..])
    case Run(w) => a.(held := a.held[w := a.held[w].(stage := Running)], ran := a.ran + {a.held[w].command})
    case Finish(w) => a.(held := a.held[w := a.held[w].(stage := Finished)])
    case Uncount(w) => a.(held := a.held - {w}, pending := a.pending - 1)
    case Stop => a.(stopped := true)
    case Exit(w) =>
      a.(exited := a.exited + {w}, held := a.held - {w}, dropped := if w in a.held then a.dropped + 1 else a.dropped)
    case PauseIfIdle => a.(pause := IdlePause)
    case Guard(w) => a.(pause := SoftwareGuard(a.held[w].command))
    case Resume => a.(pause := Unpaused)
  }

  const START := Agent([], [], map[], {}, 0, 0, false, Unpaused, false, 0, {}, {})

  predicate Behavior(states: seq<Agent>, steps: seq<Step>) {
    && |states| == |steps| + 1 && states[0] == START
    && forall i :: 0 <= i < |steps| ==> Enabled(states[i], steps[i]) && states[i + 1] == Do(states[i], steps[i])
  }

  // ---------------------------------------------------------------- counting

  predicate SumInv(a: Agent) {
    && a.pending + (if a.inserting then 1 else 0) == a.Queued() + |a.held| + a.dropped
    && a.pending >= 0
  }

  predicate RoomInv(a: Agent) {
    && |a.statusQueue| <= STATUS_QUEUE && |a.generalQueue| <= GENERAL_QUEUE
    && a.dropped <= |a.exited| && (a.exited != {} ==> a.stopped)
    && (forall w :: w in a.held ==> w < WORKERS && w !in a.exited)
    && (forall w :: w in a.exited ==> w < WORKERS)
  }

  predicate CountInv(a: Agent) {
    SumInv(a) && RoomInv(a)
  }

  predicate PauseInv(a: Agent) {
    && (!a.pause.Unpaused? ==> !a.inserting && a.Queued() == 0)
    && (a.pause.IdlePause? ==> a.held == map[])
    && (a.pause.SoftwareGuard? ==> forall w :: w in a.held ==>
                                     a.held == map[w := a.held[w]] &&
                                     a.held[w].command == a.pause.caller && !a.held[w].stage.AwaitingAck?)
  }

  lemma Replace(m: map<nat, Held>, w: nat, h: Held)
    ensures |m[w := h]| == if w in m then |m| else |m| + 1
    ensures |m - {w}| == if w in m then |m| - 1 else |m|
  {
    assert m[w := h].Keys == m.Keys + {w};
    assert (m - {w}).Keys == m.Keys - {w};
  }

  lemma Single(m: map<nat, Held>, w: nat)
    requires w in m && |m| == 1
    ensures m == map[w := m[w]]
  {
    assert |m.Keys - {w}| == 0;
    assert m.Keys == {w};
  }

  lemma HeldSumKept(a: Agent, step: Step)
    requires SumInv(a) && Enabled(a, step) && (step.Run? || step.Finish? || step.Uncount? || step.Exit?)
    ensures SumInv(Do(a, step))
  {
    var w := step.worker;
    Replace(a.held, w, Held(0, Running));
    if w in a.held {
      Replace(a.held, w, a.held[w].(stage := if step.Run? then Running else Finished));
    }
  }

  lemma TakeSumKept(a: Agent, w: nat)
    requires SumInv(a) && Enabled(a, Take(w))
    ensures SumInv(Do(a, Take(w)))
  {
    Replace(a.held, w, Held(a.Queue(w)[0], AwaitingAck));
  }

  lemma SumKept(a: Agent, step: Step)
    requires SumInv(a) && Enabled(a, step)
    ensures SumInv(Do(a, step))
  {
    match step
    case Take(w) => TakeSumKept(a, w);
    case Run(_) => HeldSumKept(a, step);
    case Finish(_) => HeldSumKept(a, step);
    case Uncount(_) => HeldSumKept(a, step);
    case Exit(_) => HeldSumKept(a, step);
    case _ =>
  }

  lemma RoomKept(a: Agent, step: Step)
    requires RoomInv(a) && Enabled(a, step)
    ensures RoomInv(Do(a, step))
  {
  }

  lemma CountKept(a: Agent, step: Step)
    requires CountInv(a) && Enabled(a, step)
    ensures CountInv(Do(a, step))
  {
    SumKept(a, step);
    RoomKept(a, step);
  }

  lemma GuardPaused(a: Agent, w: nat)
    requires SumInv(a) && Enabled(a, Guard(w))
    ensures PauseInv(Do(a, Guard(w)))
  {
    assert |a.held| >= 1 by {
      Replace(a.held, w, Held(0, Running));
    }
    Single(a.held, w);
  }

  lemma PauseKept(a: Agent, step: Step)
    requires SumInv(a) && PauseInv(a) && Enabled(a, step)
    ensures PauseInv(Do(a, step))
  {
    if step.Guard? {
      GuardPaused(a, step.worker);
    }
  }

  /** Workers never hold more commands than there are workers left. */
  lemma WorkerBound(a: Agent)
    requires CountInv(a)
    ensures |a.held| + |a.exited| <= WORKERS
  {
    Below(a.held.Keys + a.exited, WORKERS);
    assert |a.held.Keys + a.exited| == |a.held.Keys| + |a.exited|;
  }

  lemma {:induction false} Below(s: set<nat>, n: nat)
    requires forall w :: w in s ==> w < n
    ensures |s| <= n
  {
    if n > 0 {
      Below(s - {n - 1}, n - 1);
    } else {
      assert s == {};
    }
  }

  // ---------------------------------------------------------------- each command runs once

  ghost predicate Distinct(q: seq<Command>) {
    forall i, j :: 0 <= i < j < |q| ==> q[i] != q[j]
  }

  /** A command waits in one place, and has not run while it waits. */
  ghost predicate QueueInv(a: Agent) {
    && Distinct(a.statusQueue) && Distinct(a.generalQueue)
    && (forall c :: c in a.statusQueue ==> c < a.issued && c !in a.generalQueue && c !in a.ran)
    && (forall c :: c in a.generalQueue ==> c < a.issued && c !in a.ran)
    && (forall c :: c in a.ran ==> c < a.issued && c in a.acknowledged)
  }

  ghost predicate HeldInv(a: Agent) {
    && (forall w :: w in a.held ==> HeldPlace(a, a.held[w]))
    && (forall v, w :: v in a.held && w in a.held && v != w ==> a.held[v].command != a.held[w].command)
  }

  predicate HeldPlace(a: Agent, h: Held) {
    && h.command < a.issued && h.command !in a.statusQueue && h.command !in a.generalQueue
    && (h.stage.AwaitingAck? ==> h.command !in a.ran)
  }

  /** A command waits in one place, and has not run while it waits. */
  ghost predicate PlaceInv(a: Agent) {
    QueueInv(a) && HeldInv(a)
  }

  lemma InsertPlaced(a: Agent, status: bool)
    requires PlaceInv(a) && Enabled(a, Insert(status))
    ensures PlaceInv(Do(a, Insert(status)))
  {
    Longer(a.statusQueue, a.issued);
    Longer(a.generalQueue, a.issued);
  }

  lemma TakeQueued(a: Agent, w: nat)
    requires QueueInv(a) && Enabled(a, Take(w))
    ensures QueueInv(Do(a, Take(w)))
  {
    Shorter(a.Queue(w));
  }

  lemma TakeHeld(a: Agent, w: nat)
    requires PlaceInv(a) && Enabled(a, Take(w))
    ensures HeldInv(Do(a, Take(w)))
  {
    var a' := Do(a, Take(w));
    Shorter(a.Queue(w));
    assert a.Queue(w)[0] in a.Queue(w);
    forall v | v in a'.held ensures HeldPlace(a', a'.held[v]) {
      assert v != w ==> HeldPlace(a, a.held[v]);
    }
  }

  lemma PlaceKept(a: Agent, step: Step)
    requires PlaceInv(a) && Enabled(a, step)
    ensures PlaceInv(Do(a, step))
  {
    match step
    case Insert(status) => InsertPlaced(a, status);
    case Take(w) => TakeQueued(a, w); TakeHeld(a, w);
    case _ =>
  }

  lemma Longer(q: seq<Command>, c: Command)
    requires Distinct(q) && forall x :: x in q ==> x < c
    ensures Distinct(q + [c]) && forall x :: x in q + [c] <==> x in q || x == c
  {
    assert forall i :: 0 <= i < |q| ==> q[i] in q;
  }

  lemma Shorter(q: seq<Command>)
    requires q != [] && Distinct(q)
    ensures Distinct(q[1..]) && forall x :: x in q[1..] <==> x in q && x != q[0]
  {
    assert q == [q[0]] + q[1..];
    assert forall i :: 0 <= i < |q[1..]| ==> q[1..][i] == q[i + 1];
  }

  ghost predicate Inv(a: Agent) {
    CountInv(a) && PauseInv(a) && PlaceInv(a)
  }

  lemma {:induction false} RunKeeps(states: seq<Agent>, steps: seq<Step>, n: nat)
    requires Behavior(states, steps) && n < |states|
    ensures Inv(states[n])
  {
    if n > 0 {
      RunKeeps(states, steps, n - 1);
      CountKept(states[n - 1], steps[n - 1]);
      PauseKept(states[n - 1], steps[n - 1]);
      PlaceKept(states[n - 1], steps[n - 1]);
    }
  }

  /** Conservation. The pending counter is the commands queued or held by workers, less the
      one being inserted; only a stopped Agent may count commands it has put down. */
  lemma PendingConserved(states: seq<Agent>, steps: seq<Step>, n: nat)
    requires Behavior(states, steps) && n < |states|
    ensures var a := states[n];
            && a.pending == a.Queued() + |a.held| + a.dropped - (if a.inserting then 1 else 0)
            && (a.dropped > 0 ==> a.stopped)
            && 0 <= a.pending <= STATUS_QUEUE + GENERAL_QUEUE + WORKERS
  {
    RunKeeps(states, steps, n);
    WorkerBound(states[n]);
  }

  /** While the idle pause is held nothing is queued or running; while the software guard is
      held, the only command is the one that asked for it. */
  lemma PausesExclude(states: seq<Agent>, steps: seq<Step>, n: nat)
    requires Behavior(states, steps) && n < |states| && !states[n].pause.Unpaused?
    ensures states[n].statusQueue == [] && states[n].generalQueue == []
    ensures states[n].pause.IdlePause? ==> states[n].held == map[]
    ensures states[n].pause.SoftwareGuard? ==>
              |states[n].held| <= 1 && forall w :: w in states[n].held ==> states[n].held[w].command == states[n].pause.caller
  {
    RunKeeps(states, steps, n);
    var a := states[n];
    if a.held != map[] {
      var w :| w in a.held.Keys;
      assert a.held == map[w := a.held[w]];
    }
  }

  /** A command is executed at most once, and only after it was acknowledged. */
  lemma RunsOnce(states: seq<Agent>, steps: seq<Step>, i: nat, j: nat)
    requires Behavior(states, steps) && i < j < |steps| && steps[i].Run? && steps[j].Run?
    ensures states[i].held[steps[i].worker].command != states[j].held[steps[j].worker].command
    ensures states[i].held[steps[i].worker].command in states[i].acknowledged
  {
    RunKeeps(states, steps, j);
    RanStays(states, steps, i + 1, j, states[i].held[steps[i].worker].command);
  }

  lemma {:induction false} RanStays(states: seq<Agent>, steps: seq<Step>, i: nat, j: nat, c: Command)
    requires Behavior(states, steps) && i <= j < |states| && c in states[i].ran
    ensures c in states[j].ran
  {
    if i < j {
      RanStays(states, steps, i, j - 1, c);
    }
  }
}
