/**
 The Agent's admission methods on its own fields. What a method does under the admission
 mutex is one or two steps of module Admission; workers, which do not need the mutex to take
 a command and run it, go on in between. `Valid` says that the Agent is in a run of that machine.
 */
module AgentMethods {
  import opened A = Admission

  /** Steps of workers, and the stop, which do not take the admission mutex. */
  predicate Unlocked(step: Step) {
    step.Take? || step.Run? || step.Finish? || step.Stop? || step.Exit?
  }

  /** What they leave alone. */
  predicate Calm(a: A.Agent, b: A.Agent) {
    && b.pending == a.pending && b.inserting == a.inserting && b.pause == a.pause && b.issued == a.issued
    && b.acknowledged == a.acknowledged
  }

  lemma UnlockedCalm(a: A.Agent, step: Step)
    requires Enabled(a, step) && Unlocked(step)
    ensures Calm(a, Do(a, step))
  {
  }

  /** What the read loop sends back: an acknowledgement, and for a refused command a response. */
  datatype Reply = Received | Rejected | FailedBusy

  class Agent {
    var statusCommands: seq<Command>
    var generalCommands: seq<Command>
    var commandsPending: int
    var commandsPaused: bool
    var stopped: bool
    var acknowledged: set<Command>
    var issued: nat
    /** What the workers hold, and which of them have returned. */
    var held: map<nat, Held>
    var exited: set<nat>
    /** The rest of the machine's state: it only says why the fields are what they are. */
    ghost var rest: A.Agent
    ghost var history: seq<A.Agent>
    ghost var log: seq<Step>

    ghost function Value(): A.Agent
      reads this
    {
      rest.(statusQueue := statusCommands, generalQueue := generalCommands, pending := commandsPending,
            stopped := stopped, acknowledged := acknowledged, issued := issued, held := held, exited := exited)
    }

    ghost predicate Valid()
      reads this
    {
      && Behavior(history, log) && history[|log|] == Value()
      && (commandsPaused <==> !rest.pause.Unpaused?)
    }

    constructor ()
      ensures Valid() && Value() == START
    {
      statusCommands, generalCommands, commandsPending, commandsPaused := [], [], 0, false;
      stopped, acknowledged, issued, held, exited := false, {}, 0, map[], {};
      rest, history, log := START, [START], [];
    }

    ghost method Commit(before: A.Agent, step: Step)
      requires Behavior(history, log) && history[|log|] == before && Enabled(before, step)
      requires var after := Do(before, step);
               && after.(dropped := 0, inserting := false, pause := Unpaused, ran := {}) ==
                  Value().(dropped := 0, inserting := false, pause := Unpaused, ran := {})
               && (commandsPaused <==> !after.pause.Unpaused?)
      modifies this`rest, this`history, this`log
      ensures Valid() && Value() == Do(before, step)
    {
      hide Do, Enabled;
      rest := Do(before, step);
      history := history + [Value()];
      log := log + [step];
    }

    // -------------------------------------------------------------- commandWorker

    /** A worker receives the next command of its queue. */
    method TakeCommand(w: nat)
      requires Valid() && Enabled(Value(), Take(w))
      modifies this
      ensures Valid() && Value() == Do(old(Value()), Take(w))
    {
      hide Behavior;
      ghost var before := Value();
      if w < STATUS_WORKERS {
        held, statusCommands := held[w := Held(statusCommands[0], AwaitingAck)], statusCommands[1..];
      } else {
        held, generalCommands := held[w := Held(generalCommands[0], AwaitingAck)], generalCommands[1..];
      }
      Commit(before, Take(w));
    }

    /** The handler is called once the command has been acknowledged, and returns. */
    method RunCommand(w: nat, done: bool)
      requires Valid() && Enabled(Value(), if done then Finish(w) else Run(w))
      modifies this
      ensures Valid() && Value() == Do(old(Value()), if done then Finish(w) else Run(w))
    {
      hide Behavior;
      ghost var before := Value();
      held := held[w := held[w].(stage := if done then Finished else Running)];
      Commit(before, if done then Finish(w) else Run(w));
    }

    /** After the handler, under the mutex. */
    method UncountCommand(w: nat)
      requires Valid() && Enabled(Value(), Uncount(w))
      modifies this
      ensures Valid() && Value() == Do(old(Value()), Uncount(w))
    {
      hide Behavior;
      ghost var before := Value();
      held, commandsPending := held - {w}, commandsPending - 1;
      Commit(before, Uncount(w));
    }

    /** The worker returns because the Agent has stopped. */
    method LeaveWorker(w: nat)
      requires Valid() && Enabled(Value(), Exit(w))
      modifies this
      ensures Valid() && Value() == Do(old(Value()), Exit(w))
    {
      hide Behavior;
      ghost var before := Value();
      held, exited := held - {w}, exited + {w};
      Commit(before, Exit(w));
    }

    method StopAgent()
      requires Valid()
      modifies this
      ensures Valid() && Value() == Do(old(Value()), Stop)
    {
      hide Behavior;
      ghost var before := Value();
      stopped := true;
      Commit(before, Stop);
    }

    method Others(steps: seq<Step>)
      requires Valid()
      modifies this
      ensures Valid() && Calm(old(Value()), Value())
    {
      hide Behavior, Do;
      for i := 0 to |steps|
        invariant Valid() && Calm(old(Value()), Value())
      {
        ghost var before := Value();
        match steps[i] {
          case Take(w) =>
            if w < WORKERS && w !in held && w !in exited &&
               (if w < STATUS_WORKERS then statusCommands else generalCommands) != [] {
              UnlockedCalm(before, steps[i]);
              TakeCommand(w);
            }
          case Run(w) =>
            if w in held && held[w].stage.AwaitingAck? && held[w].command in acknowledged {
              UnlockedCalm(before, steps[i]);
              RunCommand(w, false);
            }
          case Finish(w) =>
            if w in held && held[w].stage.Running? {
              UnlockedCalm(before, steps[i]);
              RunCommand(w, true);
            }
          case Exit(w) =>
            if stopped && w < WORKERS && w !in exited && (w in held ==> held[w].stage.AwaitingAck?) {
              UnlockedCalm(before, steps[i]);
              LeaveWorker(w);
            }
          case Stop =>
            UnlockedCalm(before, steps[i]);
            StopAgent();
          case _ =>
        }
      }
    }

    // -------------------------------------------------------------- admission

    /** The queue send of enqueueCommand. */
    method InsertCommand(status: bool)
      requires Valid() && Enabled(Value(), Insert(status))
      modifies this
      ensures Valid() && Value() == Do(old(Value()), Insert(status))
    {
      hide Behavior;
      ghost var before := Value();
      if status {
        statusCommands := statusCommands + [issued];
      } else {
        generalCommands := generalCommands + [issued];
      }
      issued := issued + 1;
      Commit(before, Insert(status));
    }

    method CountCommand()
      requires Valid() && rest.inserting
      modifies this
      ensures Valid() && Value() == Do(old(Value()), Count)
    {
      hide Behavior;
      ghost var before := Value();
      commandsPending := commandsPending + 1;
      Commit(before, Count);
    }

    /** Whether the select of enqueueCommand sends; `stopSeen`: it takes the stop channel when
        that is closed too. */
    predicate Accepts(status: bool, stopSeen: bool)
      reads this
    {
      && !commandsPaused && !(stopped && stopSeen)
      && if status then |statusCommands| < STATUS_QUEUE else |generalCommands| < GENERAL_QUEUE
    }

    /** enqueueCommand. Between the send and the count a worker may already have the command. */
    method EnqueueCommand(status: bool, stopSeen: bool, others: seq<Step>) returns (ok: bool, command: Command)
      requires Valid() && !rest.inserting
      modifies this
      ensures Valid() && !rest.inserting && commandsPaused == old(commandsPaused)
      ensures ok <==> old(Accepts(status, stopSeen))
      ensures !ok ==> Value() == old(Value())
      ensures ok ==> command == old(issued) && issued == command + 1 && commandsPending == old(commandsPending) + 1
    {
      hide Behavior;
      command := issued;
      if !Accepts(status, stopSeen) {
        return false, command;
      }
      InsertCommand(status);
      Others(others);
      CountCommand();
      ok := true;
    }

    /** dispatchCommand: a refused command is answered at once and leaves no trace, an accepted
        one is counted, and acknowledged before any worker may run it. */
    method DispatchCommand(status: bool, stopSeen: bool, others: seq<Step>) returns (ok: bool, replies: seq<Reply>)
      requires Valid() && !rest.inserting
      modifies this
      ensures Valid() && !rest.inserting
      ensures ok <==> old(Accepts(status, stopSeen))
      ensures ok ==> old(issued) in acknowledged && commandsPending == old(commandsPending) + 1
      ensures !ok ==> Value() == old(Value())
      ensures replies == if ok then [Received] else [Rejected, FailedBusy]
    {
      hide Behavior;
      var command;
      ok, command := EnqueueCommand(status, stopSeen, others);
      if !ok {
        return false, [Rejected, FailedBusy];
      }
      ghost var before := Value();
      acknowledged := acknowledged + {command};
      Commit(before, Acknowledge(command));
      replies := [Received];
    }

    /** PauseCommandsIfIdle. */
    method PauseCommandsIfIdle() returns (ok: bool)
      requires Valid() && !rest.inserting
      modifies this
      ensures Valid() && ok == (!old(commandsPaused) && old(commandsPending) == 0)
      ensures ok ==> Value() == Do(old(Value()), PauseIfIdle) && commandsPaused
      ensures ok ==> statusCommands == [] && generalCommands == [] && held == map[]
      ensures !ok ==> Value() == old(Value())
    {
      hide Behavior;
      ok := !commandsPaused && commandsPending == 0;
      if ok {
        ghost var before := Value();
        commandsPaused := true;
        Commit(before, PauseIfIdle);
        Alone();
      }
    }

    /** The restart guard, asked for by the command that worker w runs; `busy` is a Steam login. */
    method GuardRestart(w: nat, busy: bool) returns (ok: bool)
      requires Valid() && !rest.inserting && w in held && held[w].stage.Running?
      modifies this
      ensures Valid() && ok == (!old(commandsPaused) && old(commandsPending) == 1 && !busy)
      ensures ok ==> Value() == Do(old(Value()), Guard(w)) && commandsPaused
      ensures ok ==> statusCommands == [] && generalCommands == [] && held == map[w := old(held)[w]]
      ensures !ok ==> Value() == old(Value())
    {
      hide Behavior;
      ok := !commandsPaused && commandsPending == 1 && !busy;
      if ok {
        ghost var before := Value();
        commandsPaused := true;
        Commit(before, Guard(w));
        Alone();
      }
    }

    /** The function that either pause returns. */
    method ResumeCommands()
      requires Valid() && !rest.inserting && commandsPaused
      modifies this
      ensures Valid() && Value() == Do(old(Value()), Resume) && !commandsPaused
    {
      hide Behavior;
      ghost var before := Value();
      commandsPaused := false;
      Commit(before, Resume);
    }

    lemma Alone()
      requires Valid()
      ensures PauseInv(Value())
    {
      RunKeeps(history, log, |log|);
    }
  }
}
