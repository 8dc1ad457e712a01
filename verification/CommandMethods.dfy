/**
 The server's command methods on the records it keeps: objects that handlers update in place
 under the command mutex. Each critical section is one step of module CommandResults, so a
 server that has run any of them is in a run of that machine.
 */
module CommandMethods {
  import opened M = CommandResults

  function ChannelOf(r: Result): set<Channel> {
    if r.changed.Open? then {r.changed.channel} else {}
  }

  lemma NoneGone(s: M.Server)
    ensures s.results - {} == s.results && s.closed + ChannelsOf(s, {}) == s.closed
  {
  }

  lemma OneGone(s: M.Server, gone: set<Id>, id: Id)
    requires id in s.results && id !in gone
    ensures (s.results - gone) - {id} == s.results - (gone + {id})
    ensures ChannelsOf(s, gone + {id}) == ChannelsOf(s, gone) + ChannelOf(s.results[id])
  {
    forall c | c in ChannelsOf(s, gone) + ChannelOf(s.results[id]) ensures c in ChannelsOf(s, gone + {id}) {
      if c in ChannelsOf(s, gone) {
        var k :| k in gone && k in s.results && s.results[k].changed == Open(c);
        assert k in gone + {id};
      }
    }
  }

  class CommandResult {
    const agent: Agent
    var status: Status
    var progress: nat
    var endTime: int
    var output: string
    var changed: Slot

    constructor (agent: Agent, status: Status, endTime: int, output: string)
      ensures Value() == Result(agent, status, 0, endTime, output, NoChannel)
    {
      this.agent, this.status, progress, this.endTime, this.output, changed := agent, status, 0, endTime, output, NoChannel;
    }

    function Value(): Result
      reads this
    {
      Result(agent, status, progress, endTime, output, changed)
    }

    predicate Terminal()
      reads this
    {
      status.Completed? || status.Failed?
    }
  }

  class Server {
    var commandResults: map<Id, CommandResult>
    var channels: nat
    var closed: set<Channel>
    var waiters: seq<Waiter>
    /** A panic has left the command mutex locked: no critical section is entered again. */
    var crashed: bool
    /** Ids in use, and where each call of sendCommandPayload stands. */
    ghost var calls: M.Server
    ghost var history: seq<M.Server>
    ghost var log: seq<Step>

    ghost function Snapshot(): map<Id, Result>
      reads this`commandResults, commandResults.Values
    {
      map id | id in commandResults :: commandResults[id].Value()
    }

    ghost function Value(): M.Server
      reads this, commandResults.Values
    {
      calls.(results := Snapshot(), channels := channels, closed := closed, waiters := waiters,
             crashed := crashed)
    }

    /** No record serves two ids, and the server has got here by steps of the machine. */
    ghost predicate Valid()
      reads this, commandResults.Values
    {
      && Unshared()
      && Behavior(history, log) && history[|log|] == Value()
    }

    ghost predicate Unshared()
      reads this`commandResults
    {
      forall i, j :: i in commandResults && j in commandResults && i != j ==> commandResults[i] != commandResults[j]
    }

    constructor ()
      ensures Valid() && Value() == START
    {
      commandResults, channels, closed, waiters, crashed := map[], 0, {}, [], false;
      calls, history, log := START, [START], [];
    }

    /** Closes a critical section. */
    ghost method Commit(before: M.Server, step: Step)
      requires Unshared() && Behavior(history, log) && history[|log|] == before
      requires Enabled(before, step)
      requires var after := Do(before, step);
               && Snapshot() == after.results && channels == after.channels
               && closed == after.closed && waiters == after.waiters && crashed == after.crashed
      modifies this`calls, this`history, this`log
      ensures Valid() && Value() == Do(before, step)
    {
      hide Do, Enabled;
      calls := Do(before, step);
      history := history + [Value()];
      log := log + [step];
    }

    lemma RecordOf(id: Id)
      ensures id in Snapshot() <==> id in commandResults
      ensures id in commandResults ==> Snapshot()[id] == commandResults[id].Value()
    {
    }

    /** notifyCommandResultLocked. */
    method NotifyCommandResultLocked(result: CommandResult)
      modifies this`closed, result`changed
      ensures result.changed.NoChannel?
      ensures closed == if old(result.changed).Open? then old(closed) + {old(result.changed).channel} else old(closed)
    {
      if result.changed.Open? {
        closed := closed + {result.changed.channel};
        result.changed := NoChannel;
      }
    }

    /** The same on the record of `id`. */
    method NotifyRecord(id: Id)
      requires Unshared() && id in commandResults
      modifies this`closed, commandResults[id]
      ensures Snapshot() == old(Snapshot())[id := old(Snapshot())[id].(changed := NoChannel)]
      ensures closed == old(closed) + ChannelOf(old(Snapshot())[id])
    {
      ghost var before := Snapshot();
      NotifyCommandResultLocked(commandResults[id]);
      assert Snapshot() == before[id := commandResults[id].Value()];
    }

    method SetOutcome(id: Id, status: Status, endTime: int, output: string)
      requires Unshared() && id in commandResults
      modifies commandResults[id]
      ensures Snapshot() == old(Snapshot())[id := old(Snapshot())[id].(status := status, endTime := endTime, output := output)]
    {
      ghost var before := Snapshot();
      var result := commandResults[id];
      result.status, result.endTime, result.output := status, endTime, output;
      assert Snapshot() == before[id := result.Value()];
    }

    method SetProgress(id: Id, sequence: nat)
      requires Unshared() && id in commandResults
      modifies commandResults[id]
      ensures Snapshot() == old(Snapshot())[id := old(Snapshot())[id].(progress := sequence)]
    {
      ghost var before := Snapshot();
      commandResults[id].progress := sequence;
      assert Snapshot() == before[id := commandResults[id].Value()];
    }

    /** Makes the channel of a record that has none. */
    method MakeChannel(id: Id)
      requires Unshared() && id in commandResults
      modifies this`channels, commandResults[id]
      ensures Snapshot() == old(Snapshot())[id := old(Snapshot())[id].(changed := Open(old(channels)))]
      ensures channels == old(channels) + 1
    {
      ghost var before := Snapshot();
      commandResults[id].changed := Open(channels);
      channels := channels + 1;
      assert Snapshot() == before[id := commandResults[id].Value()];
    }

    /** handleCommandAck, with the time of day. */
    method HandleCommandAck(agent: Agent, id: Id, rejected: bool, now: int)
      requires Valid() && !crashed
      modifies this, commandResults.Values
      ensures Valid() && Value() == Do(old(Value()), Ack(agent, id, rejected, now))
      ensures commandResults == old(commandResults)
    {
      hide Behavior, Snapshot;
      ghost var before := Value();
      RecordOf(id);
      if id in commandResults && commandResults[id].agent == agent && !commandResults[id].Terminal() {
        var result := commandResults[id];
        if rejected {
          SetOutcome(id, Failed, now, result.output);
          NotifyRecord(id);
        } else {
          SetOutcome(id, Received, result.endTime, result.output);
        }
      }
      Commit(before, Ack(agent, id, rejected, now));
    }

    /** handleCommandProgress, on a valid message. */
    method HandleCommandProgress(agent: Agent, id: Id, sequence: nat)
      requires Valid() && !crashed && sequence > 0
      modifies this, commandResults.Values
      ensures Valid() && Value() == Do(old(Value()), Progress(agent, id, sequence))
      ensures commandResults == old(commandResults)
    {
      hide Behavior, Snapshot;
      ghost var before := Value();
      RecordOf(id);
      if id in commandResults && commandResults[id].agent == agent && !commandResults[id].Terminal() &&
         commandResults[id].progress < sequence {
        SetProgress(id, sequence);
        NotifyRecord(id);
      }
      Commit(before, Progress(agent, id, sequence));
    }

    /** handleCommandResponse: a reply without a local record makes one. */
    method HandleCommandResponse(agent: Agent, id: Id, success: bool, output: string, now: int)
      requires Valid() && !crashed
      modifies this, commandResults.Values
      ensures Valid() && Value() == Do(old(Value()), Response(agent, id, success, output, now))
    {
      hide Behavior, Snapshot;
      ghost var before := Value();
      RecordOf(id);
      if id !in commandResults {
        AddResult(id, agent, Outcome(success), now, output);
      } else if commandResults[id].agent == agent {
        SetOutcome(id, Outcome(success), now, output);
        NotifyRecord(id);
      }
      Commit(before, Response(agent, id, success, output, now));
    }

    method AddResult(id: Id, agent: Agent, status: Status, endTime: int, output: string)
      requires Unshared()
      modifies this`commandResults
      ensures Unshared() && Snapshot() == old(Snapshot())[id := Result(agent, status, 0, endTime, output, NoChannel)]
      ensures id in commandResults && fresh(commandResults[id])
      ensures commandResults == old(commandResults)[id := commandResults[id]]
    {
      ghost var before := Snapshot();
      var result := new CommandResult(agent, status, endTime, output);
      commandResults := commandResults[id := result];
      assert Snapshot() == before[id := result.Value()];
    }

    /** sendCommandPayload, up to the unlock after the record is made. Ids are generated fresh. */
    method RecordCommand(id: Id, agent: Agent)
      requires Valid() && !crashed && id !in Value().issued
      modifies this
      ensures Valid() && Value() == Do(old(Value()), Register(id, agent))
    {
      hide Behavior, Snapshot;
      ghost var before := Value();
      AddResult(id, agent, Pending, 0, "");
      Commit(before, Register(id, agent));
    }

    /** A failure path of sendCommandPayload: without a record it panics, with the mutex locked. */
    method FailCommand(id: Id, now: int)
      requires Valid() && !crashed && id in Value().sending
      modifies this, commandResults.Values
      ensures Valid() && Value() == Do(old(Value()), SendFailed(id, now))
      ensures crashed <==> id !in old(commandResults)
    {
      hide Behavior, Snapshot;
      ghost var before := Value();
      RecordOf(id);
      if id in commandResults {
        SetOutcome(id, Failed, now, commandResults[id].output);
      } else {
        crashed := true;
      }
      Commit(before, SendFailed(id, now));
    }

    /** One turn of WaitCommandResult, from the lock to the select. */
    method WaitTurn(w: nat)
      requires Valid() && !crashed && w < |waiters| && waiters[w].stage.Looping?
      modifies this, commandResults.Values
      ensures Valid() && Value() == Do(old(Value()), Observe(w))
    {
      hide Behavior, Snapshot;
      ghost var before := Value();
      var waiter := waiters[w];
      RecordOf(waiter.id);
      if waiter.id !in commandResults {
        waiters := waiters[w := waiter.(stage := NotFound)];
      } else {
        var result := commandResults[waiter.id];
        var completed := result.Terminal();
        if !completed && result.changed.NoChannel? {
          MakeChannel(waiter.id);
          RecordOf(waiter.id);
        }
        if result.progress > waiter.last {
          waiter := waiter.(last := result.progress, seen := waiter.seen + [result.progress]);
        }
        waiter := waiter.(stage := if completed then Answered(result.status, result.progress)
                                   else Parked(result.changed.channel, result.progress));
        waiters := waiters[w := waiter];
      }
      Commit(before, Observe(w));
    }

    /** One record of the sweep: a stale one is notified and deleted. */
    method Visit(id: Id, cutoff: int) returns (stale: bool)
      requires Unshared() && id in commandResults
      modifies this`commandResults, this`closed, commandResults[id]
      ensures Unshared() && stale == (old(Snapshot())[id].endTime < cutoff)
      ensures commandResults == if stale then old(commandResults) - {id} else old(commandResults)
      ensures Snapshot() == if stale then old(Snapshot()) - {id} else old(Snapshot())
      ensures closed == if stale then old(closed) + ChannelOf(old(Snapshot())[id]) else old(closed)
    {
      ghost var before := Snapshot();
      var result := commandResults[id];
      stale := result.endTime < cutoff;
      if stale {
        NotifyCommandResultLocked(result);
        commandResults := commandResults - {id};
        assert Snapshot() == before - {id};
      }
    }

    method Sweep(cutoff: int)
      requires Unshared()
      modifies this`commandResults, this`closed, commandResults.Values
      ensures Unshared()
      ensures var stale := Stale(old(Value()), cutoff);
              Snapshot() == old(Snapshot()) - stale && closed == old(closed) + ChannelsOf(old(Value()), stale)
    {
      hide ChannelsOf, ChannelOf, CommandResult.Value;
      ghost var before := Value();
      ghost var gone: set<Id> := {};
      var todo := commandResults.Keys;
      NoneGone(before);
      while todo != {}
        modifies this`commandResults, this`closed, old(commandResults.Values)
        invariant Unshared() && todo <= commandResults.Keys
        invariant forall k :: k in commandResults ==> k in old(commandResults) && commandResults[k] == old(commandResults)[k]
        invariant gone == Stale(before, cutoff) - todo
        invariant Snapshot() == before.results - gone && closed == before.closed + ChannelsOf(before, gone)
        decreases todo
      {
        var id :| id in todo;
        todo := todo - {id};
        var stale := Visit(id, cutoff);
        if stale {
          OneGone(before, gone, id);
          gone := gone + {id};
        }
      }
      assert gone == Stale(before, cutoff);
    }

    /** One round of cleanupCommandResults. */
    method CleanupCommandResults(cutoff: int)
      requires Valid() && !crashed
      modifies this, commandResults.Values
      ensures Valid() && Value() == Do(old(Value()), Cleanup(cutoff))
    {
      hide Behavior;
      ghost var before := Value();
      Sweep(cutoff);
      Commit(before, Cleanup(cutoff));
    }
  }
}
