/**
 The journal in a process that begins and finishes operations and is restarted: the heap
 methods of module JournalStore, each of them one action of module JournalRuns. `Valid` says
 that the journal is in a run of that machine, so its theorems hold here.
 */
module JournalMethods {
  import opened Journal
  import opened JournalRuns
  import opened JournalStore
  import opened Wrappers

  /** The machine can have come to `w` by these actions. */
  ghost predicate Reached(history: seq<World>, log: seq<Action>, w: World) {
    Behavior(history, log) && history[|log|] == w
  }

  lemma ReachedNext(history: seq<World>, log: seq<Action>, w: World, a: Action, w': World)
    requires Reached(history, log, w) && Next(w, a, w')
    ensures Reached(history + [w'], log + [a], w')
  {
    hide Next;
  }

  /** The world after a begin that answered `r`. */
  function Begun(w: World, t: Ticket, s: State, r: BeginResult): World {
    if r.Admitted?
    then World(s, w.running + {TicketId(t)}, w.trace + [Ran(TicketId(t), t.descriptor, t.token, t.lease)])
    else w.(state := s)
  }

  lemma BeginNext(w: World, t: Ticket, now: int, outcome: Persist, s: State, r: BeginResult)
    requires (s, r) == Journal.Begin(w.state, t, now, outcome)
    ensures Next(w, DoBegin(t, now, outcome), Begun(w, t, s, r))
  {
  }

  lemma RestartNext(w: World)
    ensures Next(w, Restart, World(Journal.Load(w.state), {}, w.trace + [Restarted]))
  {
  }

  lemma UnderWay(history: seq<World>, log: seq<Action>, w: World, id: Id)
    requires Reached(history, log, w) && id in w.running
    ensures InFlight(w, id)
  {
    RunKeeps(history, log, |log|);
  }

  class AgentJournal {
    var store: ShardOperationState
    var running: set<Id>
    ghost var world: World
    ghost var history: seq<World>
    ghost var log: seq<Action>

    ghost predicate Valid()
      reads this, store, store.Tables()
    {
      store.Valid() && Reached(history, log, world) && world.state == store.Value() && world.running == running
    }

    constructor ()
      ensures Valid() && running == {} && world.trace == []
    {
      store := new ShardOperationState();
      running := {};
      world, history, log := START, [START], [];
    }

    ghost method Commit(a: Action, w: World)
      requires Reached(history, log, world) && Next(world, a, w)
      modifies this`world, this`history, this`log
      ensures Reached(history, log, world) && world == w
    {
      ReachedNext(history, log, world, a, w);
      history := history + [w];
      log := log + [a];
      world := w;
    }

    /** begin or beginRuntime. */
    method Begin(t: Ticket, now: int, outcome: Persist) returns (r: BeginResult)
      requires Valid()
      modifies this, store
      ensures Valid() && store == old(store)
      ensures r == Journal.Begin(old(world.state), t, now, outcome).1
      ensures world == Begun(old(world), t, world.state, r)
    {
      hide Reached, Next, Journal.Begin, ShardOperationState.Valid, ShardOperationState.Snapshot;
      r := store.BeginTicket(t, now, outcome);
      ghost var s := store.Value();
      BeginNext(world, t, now, outcome, s, r);
      if r.Admitted? {
        running := running + {TicketId(t)};
      }
      label Stored:
      Commit(DoBegin(t, now, outcome), Begun(world, t, s, r));
      assert unchanged@Stored(store.Tables());
    }

    /** finish or finishRuntime, of an operation that this process let through: it always finds
        the record. */
    method Finish(id: Id, result: Result, error: Option<string>, outcome: Persist) returns (r: FinishResult)
      requires Valid() && id in running
      modifies this, store, store.Tables()
      ensures Valid() && store == old(store) && running == old(running) - {id}
      ensures !r.Missing? && (r.Recorded? ==> outcome.Stored?)
      ensures exists evicted :: world.trace == old(world.trace) + [Ended(id, result, error, evicted)]
    {
      hide Reached, Finished, ShardOperationState.Valid, ShardOperationState.Snapshot;
      UnderWay(history, log, world, id);
      r := store.FinishTicket(id.family, id.room, id.key, result, error, outcome);
      ghost var s := store.Value();
      ghost var table := TableOf(s.rooms, id);
      ghost var e := Ended(id, result, error, TableOf(world.state.rooms, id).Keys - table.Keys);
      running := running - {id};
      Commit(DoFinish(id, result, error, outcome, table), World(s, running, world.trace + [e]));
    }

    method InitializeOwnership(outcome: Persist)
      requires Valid()
      modifies this, store
      ensures Valid() && store == old(store) && running == old(running) && world.trace == old(world.trace)
      ensures world.state == Journal.Initialize(old(world.state), outcome)
    {
      hide Reached;
      store.InitializeOwnership(outcome);
      Commit(DoInitialize(outcome), world.(state := store.Value()));
    }

    /** The process dies and a new one loads the file. */
    method RestartProcess()
      requires Valid()
      modifies this
      ensures Valid() && fresh(store) && running == {} && world.trace == old(world.trace) + [Restarted]
    {
      hide Reached, Next, ShardOperationState.Valid, ShardOperationState.Snapshot;
      ghost var w := world;
      RestartNext(w);
      store := new ShardOperationState.Load(store.disk);
      label Loaded:
      running := {};
      Commit(Restart, World(Journal.Load(w.state), {}, w.trace + [Restarted]));
      assert unchanged@Loaded(store.Tables());
    }
  }

  /** A journal that the methods have brought to a state is in a run of the machine. */
  lemma RunOf(j: AgentJournal)
    requires j.Valid()
    ensures Behavior(j.history, j.log) && j.history[|j.log|].state == j.store.Value()
    ensures Inv(j.world)
  {
    RunKeeps(j.history, j.log, |j.log|);
  }
}
