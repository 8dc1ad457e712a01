/**
 Every interleaving of the two begin/finish families, every outcome of writing the
 state file, and restarts at any point. The trace records what was let through to
 execution; the theorems say what holds of every trace.
 */
module JournalRuns {
  import opened Journal
  import opened Wrappers

  datatype Id = Id(room: string, family: Family, key: string)

  datatype Event =
    | Ran(id: Id, descriptor: Descriptor, token: nat, lease: string)
    | Ended(id: Id, result: Result, error: Option<string>, evicted: set<string>)
    | Restarted

  /** `running` are the operations let through by this process and not finished yet. */
  datatype World = World(state: State, running: set<Id>, trace: seq<Event>)

  datatype Action =
    | DoBegin(ticket: Ticket, now: int, outcome: Persist)
    | DoFinish(id: Id, result: Result, error: Option<string>, outcome: Persist, table: Table)
    | DoInitialize(outcome: Persist)
    | Restart

  function TicketId(t: Ticket): Id {
    Id(t.room, t.family, t.key)
  }

  function TableOf(rooms: Rooms, id: Id): Table {
    At(rooms, id.room).Of(id.family)
  }

  ghost predicate Next(w: World, a: Action, w': World) {
    match a
    case DoBegin(t, now, outcome) =>
      var (s, verdict) := Begin(w.state, t, now, outcome);
      w' == if verdict.Admitted?
            then World(s, w.running + {TicketId(t)}, w.trace + [Ran(TicketId(t), t.descriptor, t.token, t.lease)])
            else w.(state := s)
    case DoFinish(id, result, error, outcome, table) =>
      && id in w.running
      && w'.running == w.running - {id}
      && if id.key !in TableOf(w.state.rooms, id)
         then w'.state == w.state && w'.trace == w.trace
         else
           && Finished(w.state, id.family, id.room, id.key, result, error, outcome, table, w'.state)
           && w'.trace == w.trace + [Ended(id, result, error, TableOf(w.state.rooms, id).Keys - table.Keys)]
    case DoInitialize(outcome) => w' == w.(state := Initialize(w.state, outcome))
    case Restart => w' == World(Load(w.state), {}, w.trace + [Restarted])
  }

  const START := World(FRESH, {}, [])

  ghost predicate Behavior(ws: seq<World>, acts: seq<Action>) {
    && |ws| == |acts| + 1
    && ws[0] == START
    && forall i :: 0 <= i < |acts| ==> Next(ws[i], acts[i], ws[i + 1])
  }

  // ---------------------------------------------------------------- reading a trace

  predicate Evicts(e: Event, id: Id) {
    e.Ended? && e.id.room == id.room && e.id.family == id.family && id.key in e.evicted
  }

  /** Let through, and no record of it dropped since. */
  predicate Live(trace: seq<Event>, id: Id) {
    if |trace| == 0 then false
    else
      var e := trace[|trace| - 1];
      if e.Ran? && e.id == id then true
      else if Evicts(e, id) then false
      else Live(trace[..|trace| - 1], id)
  }

  datatype Outcome = Never | Open(descriptor: Descriptor) | Closed(descriptor: Descriptor, result: Result, error: string)

  function ErrorText(error: Option<string>): string {
    if error.Some? then error.value else ""
  }

  /** How the latest execution of `id` ended. */
  function Latest(trace: seq<Event>, id: Id): Outcome {
    if |trace| == 0 then Never
    else
      var e := trace[|trace| - 1];
      var before := Latest(trace[..|trace| - 1], id);
      if e.Ran? && e.id == id then Open(e.descriptor)
      else if e.Ended? && e.id == id && before.Open? then Closed(before.descriptor, e.result, ErrorText(e.error))
      else before
  }

  /** Ended in the process that is still running. */
  predicate Settled(trace: seq<Event>, id: Id) {
    if |trace| == 0 then false
    else
      var e := trace[|trace| - 1];
      if e.Restarted? || (e.Ran? && e.id == id) then false
      else (e.Ended? && e.id == id) || Settled(trace[..|trace| - 1], id)
  }

  datatype Grant = Grant(token: nat, lease: string)

  /** Token and lease of the latest operation let through in a room. */
  function LastGrant(trace: seq<Event>, room: string): Grant {
    if |trace| == 0 then Grant(0, "")
    else
      var e := trace[|trace| - 1];
      if e.Ran? && e.id.room == room then Grant(e.token, e.lease) else LastGrant(trace[..|trace| - 1], room)
  }

  /** `b` may follow `a`: a larger token, or the same token under the same lease. */
  predicate Follows(a: Grant, b: Grant) {
    a.token < b.token || (a.token == b.token && (a.token > 0 ==> a.lease == b.lease))
  }

  /** Every event is lawful after the ones before it. */
  ghost predicate Lawful(trace: seq<Event>) {
    |trace| > 0 ==>
      var before, e := trace[..|trace| - 1], trace[|trace| - 1];
      && Lawful(before)
      && (e.Ran? ==> Follows(LastGrant(before, e.id.room), Grant(e.token, e.lease)) && !Live(before, e.id))
      && (e.Ended? ==> forall k :: k in e.evicted ==> Latest(trace, Id(e.id.room, e.id.family, k)).Closed?)
  }

  // ---------------------------------------------------------------- the invariant

  function Held(rooms: Rooms, room: string): Grant {
    Grant(At(rooms, room).token, At(rooms, room).lease)
  }

  predicate Covers(rooms: Rooms, trace: seq<Event>, room: string) {
    Follows(LastGrant(trace, room), Held(rooms, room))
  }

  /** A live operation has a record naming it, and a completed record tells how the
      latest execution ended. */
  ghost predicate Remembers(rooms: Rooms, trace: seq<Event>, id: Id) {
    var table := TableOf(rooms, id);
    var latest := Latest(trace, id);
    && (latest.Open? ==> Live(trace, id))
    && (Live(trace, id) ==> !latest.Never? && id.key in table && table[id.key].descriptor == latest.descriptor)
    && (id.key in table ==> Truthful(table[id.key], latest))
  }

  predicate Truthful(r: Record, latest: Outcome) {
    if r.completed then latest == Closed(r.descriptor, r.result, r.errorMessage) else r.errorMessage == ""
  }

  ghost predicate OpenOnDisk(w: World, id: Id) {
    var table := TableOf(w.state.rooms, id);
    var stored := TableOf(DiskRooms(w.state), id);
    id.key in table && !table[id.key].completed ==> id.key in stored && stored[id.key] == table[id.key]
  }

  ghost predicate Inv(w: World) {
    && (forall room :: Covers(w.state.rooms, w.trace, room))
    && (forall room :: Covers(DiskRooms(w.state), w.trace, room))
    && (forall id :: Remembers(w.state.rooms, w.trace, id))
    && (forall id :: Remembers(DiskRooms(w.state), w.trace, id))
    && (forall id :: OpenOnDisk(w, id))
    && (forall id :: Replays(w, id))
    && Lawful(w.trace)
    && (forall id :: id in w.running ==> InFlight(w, id))
  }

  ghost predicate Replays(w: World, id: Id) {
    Settled(w.trace, id) && Live(w.trace, id) && id.key in TableOf(w.state.rooms, id)
    ==> TableOf(w.state.rooms, id)[id.key].completed
  }

  ghost predicate InFlight(w: World, id: Id) {
    && Live(w.trace, id) && Latest(w.trace, id).Open?
    && id.key in TableOf(w.state.rooms, id) && !TableOf(w.state.rooms, id)[id.key].completed
  }

  // ---------------------------------------------------------------- one step keeps it

  lemma Extend(trace: seq<Event>, e: Event, id: Id, room: string)
    ensures Live(trace + [e], id) == ((e.Ran? && e.id == id) || (!Evicts(e, id) && Live(trace, id)))
    ensures Latest(trace + [e], id) ==
            if e.Ran? && e.id == id then Open(e.descriptor)
            else if e.Ended? && e.id == id && Latest(trace, id).Open?
            then Closed(Latest(trace, id).descriptor, e.result, ErrorText(e.error))
            else Latest(trace, id)
    ensures LastGrant(trace + [e], room) ==
            if e.Ran? && e.id.room == room then Grant(e.token, e.lease) else LastGrant(trace, room)
    ensures Settled(trace + [e], id) ==
            (!e.Restarted? && !(e.Ran? && e.id == id) && ((e.Ended? && e.id == id) || Settled(trace, id)))
  {
    assert (trace + [e])[..|trace|] == trace;
  }

  lemma ExtendAll(trace: seq<Event>, e: Event)
    ensures forall id :: Live(trace + [e], id) == ((e.Ran? && e.id == id) || (!Evicts(e, id) && Live(trace, id)))
    ensures forall id :: Latest(trace + [e], id) ==
                         if e.Ran? && e.id == id then Open(e.descriptor)
                         else if e.Ended? && e.id == id && Latest(trace, id).Open?
                         then Closed(Latest(trace, id).descriptor, e.result, ErrorText(e.error))
                         else Latest(trace, id)
    ensures forall room :: LastGrant(trace + [e], room) ==
                           if e.Ran? && e.id.room == room then Grant(e.token, e.lease) else LastGrant(trace, room)
    ensures forall id :: Settled(trace + [e], id) ==
                         (!e.Restarted? && !(e.Ran? && e.id == id) && ((e.Ended? && e.id == id) || Settled(trace, id)))
  {
    forall id: Id, room: string {
      Extend(trace, e, id, room);
    }
  }

  /** A record set down for a request that is not let through disturbs nothing. */
  lemma AdmitKeeps(rooms: Rooms, trace: seq<Event>, t: Ticket, now: int)
    requires forall room :: Covers(rooms, trace, room)
    requires forall id :: Remembers(rooms, trace, id)
    requires Judge(At(rooms, t.room), t) == Admitted
    ensures var next := rooms[t.room := Admit(At(rooms, t.room), t, now)];
            && (forall room :: Covers(next, trace, room))
            && (forall id :: Remembers(next, trace, id))
  {
    var next := rooms[t.room := Admit(At(rooms, t.room), t, now)];
    forall room: string ensures Covers(next, trace, room) {
      assert Covers(rooms, trace, room);
    }
    forall id: Id ensures Remembers(next, trace, id) {
      assert Remembers(rooms, trace, id);
    }
  }

  lemma RanKeeps(rooms: Rooms, trace: seq<Event>, t: Ticket, now: int)
    requires forall room :: Covers(rooms, trace, room)
    requires forall id :: Remembers(rooms, trace, id)
    requires Judge(At(rooms, t.room), t) == Admitted
    ensures var next := rooms[t.room := Admit(At(rooms, t.room), t, now)];
            var longer := trace + [Ran(TicketId(t), t.descriptor, t.token, t.lease)];
            && (forall room :: Covers(next, longer, room))
            && (forall id :: Remembers(next, longer, id))
  {
    var next := rooms[t.room := Admit(At(rooms, t.room), t, now)];
    var e := Ran(TicketId(t), t.descriptor, t.token, t.lease);
    ExtendAll(trace, e);
    AdmitKeeps(rooms, trace, t, now);
    forall room: string ensures Covers(next, trace + [e], room) {
      assert Covers(next, trace, room);
    }
    forall id: Id ensures Remembers(next, trace + [e], id) {
      assert Remembers(next, trace, id);
      assert Live(trace + [e], id) == ((e.Ran? && e.id == id) || (!Evicts(e, id) && Live(trace, id)));
    }
  }

  lemma AdmittedKeeps(w: World, t: Ticket, now: int, w': World)
    requires Inv(w) && Next(w, DoBegin(t, now, Stored), w')
    requires Judge(At(w.state.rooms, t.room), t) == Admitted
    ensures Inv(w')
  {
    var e := Ran(TicketId(t), t.descriptor, t.token, t.lease);
    RanKeeps(w.state.rooms, w.trace, t, now);
    ExtendAll(w.trace, e);
    assert DiskRooms(w'.state) == w'.state.rooms;
    forall id: Id ensures OpenOnDisk(w', id) && Replays(w', id) {
      assert Replays(w, id) && Remembers(w.state.rooms, w.trace, id);
    }
    forall id | id in w'.running ensures InFlight(w', id) {
      assert id in w.running ==> InFlight(w, id);
    }
    assert Remembers(w.state.rooms, w.trace, TicketId(t)) && Covers(w.state.rooms, w.trace, t.room);
    assert w'.trace[..|w'.trace| - 1] == w.trace;
  }

  lemma BeginKeeps(w: World, t: Ticket, now: int, outcome: Persist, w': World)
    requires Inv(w) && Next(w, DoBegin(t, now, outcome), w')
    ensures Inv(w')
  {
    if Judge(At(w.state.rooms, t.room), t).Admitted? {
      if outcome.Stored? {
        AdmittedKeeps(w, t, now, w');
      } else {
        AdmitKeeps(w.state.rooms, w.trace, t, now);
        forall id: Id ensures OpenOnDisk(w', id) && Replays(w', id) {
          assert OpenOnDisk(w, id) && Replays(w, id);
        }
        forall id | id in w'.running ensures InFlight(w', id) {
          assert InFlight(w, id);
        }
      }
    }
  }

  function EndOf(w: World, a: Action): Event
    requires a.DoFinish?
  {
    Ended(a.id, a.result, a.error, TableOf(w.state.rooms, a.id).Keys - a.table.Keys)
  }

  lemma FinishRemembersOwn(w: World, a: Action, w': World)
    requires Next(w, a, w') && a.DoFinish? && InFlight(w, a.id)
    requires Remembers(w.state.rooms, w.trace, a.id)
    ensures Remembers(w'.state.rooms, w'.trace, a.id)
  {
    hide Live, Latest, LastGrant, Settled;
    Extend(w.trace, EndOf(w, a), a.id, "");
  }

  lemma FinishRemembersOther(w: World, a: Action, w': World, id: Id)
    requires Next(w, a, w') && a.DoFinish? && InFlight(w, a.id) && id != a.id
    requires Remembers(w.state.rooms, w.trace, id)
    ensures Remembers(w'.state.rooms, w'.trace, id)
  {
    hide Live, Latest, LastGrant, Settled;
    Extend(w.trace, EndOf(w, a), id, "");
  }

  lemma FinishRemembers(w: World, a: Action, w': World, id: Id)
    requires Next(w, a, w') && a.DoFinish? && InFlight(w, a.id)
    requires Remembers(w.state.rooms, w.trace, id)
    ensures Remembers(w'.state.rooms, w'.trace, id)
  {
    hide Next, InFlight, Remembers;
    if id == a.id {
      FinishRemembersOwn(w, a, w');
    } else {
      FinishRemembersOther(w, a, w', id);
    }
  }

  lemma FinishKeepsMemory(w: World, a: Action, w': World)
    requires Inv(w) && Next(w, a, w') && a.DoFinish?
    ensures a.id.key in TableOf(w.state.rooms, a.id)
    ensures forall room :: Covers(w'.state.rooms, w'.trace, room)
    ensures forall id :: Remembers(w'.state.rooms, w'.trace, id)
  {
    hide Live, Latest, LastGrant, Settled, Lawful, Remembers, OpenOnDisk, Replays, Trimmed;
    assert InFlight(w, a.id);
    forall room: string ensures Covers(w'.state.rooms, w'.trace, room) {
      assert Covers(w.state.rooms, w.trace, room);
      Extend(w.trace, EndOf(w, a), a.id, room);
    }
    forall id: Id ensures Remembers(w'.state.rooms, w'.trace, id) {
      assert Remembers(w.state.rooms, w.trace, id);
      FinishRemembers(w, a, w', id);
    }
  }

  predicate OpenInFile(w: World, id: Id) {
    id.key in TableOf(DiskRooms(w.state), id) && !TableOf(DiskRooms(w.state), id)[id.key].completed
  }

  /** A finish that never reached the file leaves there an open record, never a false one. */
  lemma StaleFileRemembers(w: World, a: Action, w': World, id: Id)
    requires Next(w, a, w') && a.DoFinish? && a.outcome.FailedBefore? && a.id.key in TableOf(w.state.rooms, a.id)
    requires Remembers(DiskRooms(w.state), w.trace, id) && OpenOnDisk(w, id) && (id == a.id ==> InFlight(w, id))
    requires Remembers(w'.state.rooms, w'.trace, id)
    ensures Remembers(DiskRooms(w'.state), w'.trace, id)
  {
    hide Live, Latest, LastGrant, Settled, Trimmed;
    Extend(w.trace, EndOf(w, a), id, "");
  }

  lemma FinishKeepsOpen(w: World, a: Action, w': World, id: Id)
    requires Next(w, a, w') && a.DoFinish? && a.id.key in TableOf(w.state.rooms, a.id)
    requires OpenOnDisk(w, id)
    ensures OpenOnDisk(w', id)
  {
  }

  lemma FinishKeepsDisk(w: World, a: Action, w': World)
    requires Inv(w) && Next(w, a, w') && a.DoFinish?
    ensures forall room :: Covers(DiskRooms(w'.state), w'.trace, room)
    ensures forall id :: Remembers(DiskRooms(w'.state), w'.trace, id)
    ensures forall id :: OpenOnDisk(w', id)
    ensures a.outcome.FailedBefore? ==> OpenInFile(w', a.id)
  {
    hide Live, Latest, LastGrant, Settled, Lawful, Replays, Remembers, Trimmed;
    assert InFlight(w, a.id) && OpenOnDisk(w, a.id);
    FinishKeepsMemory(w, a, w');
    forall id: Id ensures OpenOnDisk(w', id) {
      assert OpenOnDisk(w, id);
      FinishKeepsOpen(w, a, w', id);
    }
    if a.outcome.FailedBefore? {
      assert DiskRooms(w'.state) == DiskRooms(w.state);
      forall room: string ensures Covers(DiskRooms(w'.state), w'.trace, room) {
        assert Covers(DiskRooms(w.state), w.trace, room);
        Extend(w.trace, EndOf(w, a), a.id, room);
      }
      forall id: Id ensures Remembers(DiskRooms(w'.state), w'.trace, id) {
        assert Remembers(DiskRooms(w.state), w.trace, id);
        assert id == a.id ==> InFlight(w, id);
        assert Remembers(w'.state.rooms, w'.trace, id);
        StaleFileRemembers(w, a, w', id);
      }
    } else {
      assert DiskRooms(w'.state) == w'.state.rooms;
    }
  }

  lemma FinishInFlight(w: World, a: Action, w': World, id: Id)
    requires Next(w, a, w') && a.DoFinish? && a.id.key in TableOf(w.state.rooms, a.id)
    requires id in w'.running && InFlight(w, id)
    ensures InFlight(w', id)
  {
    hide Live, Latest, LastGrant, Settled;
    Extend(w.trace, EndOf(w, a), id, "");
  }

  lemma FinishReplays(w: World, a: Action, w': World, id: Id)
    requires Next(w, a, w') && a.DoFinish? && a.id.key in TableOf(w.state.rooms, a.id)
    requires Remembers(w.state.rooms, w.trace, id) && Replays(w, id)
    ensures Replays(w', id)
  {
    hide Live, Latest, LastGrant, Settled;
    Extend(w.trace, EndOf(w, a), id, "");
  }

  lemma FinishIsLawful(w: World, a: Action, w': World)
    requires Next(w, a, w') && a.DoFinish? && InFlight(w, a.id) && Lawful(w.trace)
    requires forall id :: Remembers(w.state.rooms, w.trace, id)
    ensures Lawful(w'.trace)
  {
    hide Live, Latest, LastGrant, Settled;
    var e := EndOf(w, a);
    assert w'.trace[..|w'.trace| - 1] == w.trace;
    forall k | k in e.evicted ensures Latest(w'.trace, Id(a.id.room, a.id.family, k)).Closed? {
      var id := Id(a.id.room, a.id.family, k);
      Extend(w.trace, e, id, "");
      assert Remembers(w.state.rooms, w.trace, id);
    }
  }

  lemma FinishKeeps(w: World, a: Action, w': World)
    requires Inv(w) && Next(w, a, w') && a.DoFinish?
    ensures Inv(w')
  {
    hide Live, Latest, LastGrant, Settled, Lawful, Covers, Remembers, OpenOnDisk, Replays, InFlight, Trimmed;
    FinishKeepsMemory(w, a, w');
    FinishKeepsDisk(w, a, w');
    assert InFlight(w, a.id);
    FinishIsLawful(w, a, w');
    forall id: Id ensures Replays(w', id) {
      assert Replays(w, id) && Remembers(w.state.rooms, w.trace, id);
      FinishReplays(w, a, w', id);
    }
    forall id | id in w'.running ensures InFlight(w', id) {
      assert InFlight(w, id);
      FinishInFlight(w, a, w', id);
    }
  }

  lemma RestartKeeps(w: World, w': World)
    requires Inv(w) && Next(w, Restart, w')
    ensures Inv(w')
  {
    ExtendAll(w.trace, Restarted);
    assert w'.trace[..|w'.trace| - 1] == w.trace;
    forall room: string ensures Covers(DiskRooms(w.state), w'.trace, room) {
      assert Covers(DiskRooms(w.state), w.trace, room);
    }
    forall id: Id ensures Remembers(DiskRooms(w.state), w'.trace, id) && Replays(w', id) && OpenOnDisk(w', id) {
      assert Remembers(DiskRooms(w.state), w.trace, id);
    }
  }

  lemma StepKeeps(w: World, a: Action, w': World)
    requires Inv(w) && Next(w, a, w')
    ensures Inv(w')
  {
    match a
    case DoBegin(t, now, outcome) => BeginKeeps(w, t, now, outcome, w');
    case DoFinish(_, _, _, _, _) => FinishKeeps(w, a, w');
    case DoInitialize(_) =>
      forall id: Id ensures OpenOnDisk(w', id) && Replays(w', id) {
        assert OpenOnDisk(w, id) && Replays(w, id);
      }
      forall id | id in w'.running ensures InFlight(w', id) {
        assert InFlight(w, id);
      }
    case Restart => RestartKeeps(w, w');
  }

  lemma {:induction false} RunKeeps(ws: seq<World>, acts: seq<Action>, i: nat)
    requires Behavior(ws, acts) && i < |ws|
    ensures Inv(ws[i])
  {
    if i > 0 {
      RunKeeps(ws, acts, i - 1);
      StepKeeps(ws[i - 1], acts[i - 1], ws[i]);
    }
  }

  // ---------------------------------------------------------------- what every trace obeys

  lemma FollowsTransitive(a: Grant, b: Grant, c: Grant)
    requires Follows(a, b) && Follows(b, c)
    ensures Follows(a, c)
  {
  }

  lemma {:induction false} LastGrantDominates(trace: seq<Event>, i: nat)
    requires Lawful(trace) && i < |trace| && trace[i].Ran?
    ensures Follows(Grant(trace[i].token, trace[i].lease), LastGrant(trace, trace[i].id.room))
  {
    var n := |trace| - 1;
    if i < n {
      LastGrantDominates(trace[..n], i);
    }
  }

  lemma {:induction false} LawfulPrefix(trace: seq<Event>, n: nat)
    requires Lawful(trace) && n <= |trace|
    ensures Lawful(trace[..n])
  {
    if n < |trace| {
      LawfulPrefix(trace[..|trace| - 1], n);
      assert trace[..|trace| - 1][..n] == trace[..n];
    } else {
      assert trace[..n] == trace;
    }
  }

  lemma {:induction false} LiveUntilEvicted(trace: seq<Event>, i: nat)
    requires i < |trace| && trace[i].Ran?
    ensures Live(trace, trace[i].id) || exists k :: i < k < |trace| && Evicts(trace[k], trace[i].id)
  {
    var n := |trace| - 1;
    if i < n {
      LiveUntilEvicted(trace[..n], i);
      if !Live(trace[..n], trace[i].id) {
        var k :| i < k < n && Evicts(trace[..n][k], trace[i].id);
        assert Evicts(trace[k], trace[i].id);
      }
    }
  }

  /** Fencing. In every run, the operations let through in one room carry tokens that never
      decrease, equal tokens mean one lease, and memory and file both hold a token and lease
      that may follow every one of them. */
  lemma Fencing(ws: seq<World>, acts: seq<Action>, n: nat)
    requires Behavior(ws, acts) && n < |ws|
    ensures var t := ws[n].trace;
            forall i, j :: 0 <= i < j < |t| && t[i].Ran? && t[j].Ran? && t[i].id.room == t[j].id.room ==>
                             && t[i].token <= t[j].token
                             && (t[i].token == t[j].token > 0 ==> t[i].lease == t[j].lease)
    ensures var t := ws[n].trace;
            forall i :: 0 <= i < |t| && t[i].Ran? ==>
                          && Follows(Grant(t[i].token, t[i].lease), Held(ws[n].state.rooms, t[i].id.room))
                          && Follows(Grant(t[i].token, t[i].lease), Held(DiskRooms(ws[n].state), t[i].id.room))
  {
    RunKeeps(ws, acts, n);
    var t := ws[n].trace;
    forall i, j | 0 <= i < j < |t| && t[i].Ran? && t[j].Ran? && t[i].id.room == t[j].id.room
      ensures Follows(Grant(t[i].token, t[i].lease), Grant(t[j].token, t[j].lease))
    {
      LawfulPrefix(t, j + 1);
      assert t[..j + 1][..j] == t[..j];
      LawfulPrefix(t, j);
      LastGrantDominates(t[..j], i);
      FollowsTransitive(Grant(t[i].token, t[i].lease), LastGrant(t[..j], t[i].id.room), Grant(t[j].token, t[j].lease));
    }
    forall i | 0 <= i < |t| && t[i].Ran?
      ensures Follows(Grant(t[i].token, t[i].lease), Held(ws[n].state.rooms, t[i].id.room))
      ensures Follows(Grant(t[i].token, t[i].lease), Held(DiskRooms(ws[n].state), t[i].id.room))
    {
      var g, room := Grant(t[i].token, t[i].lease), t[i].id.room;
      LastGrantDominates(t, i);
      assert Covers(ws[n].state.rooms, t, room) && Covers(DiskRooms(ws[n].state), t, room);
      FollowsTransitive(g, LastGrant(t, room), Held(ws[n].state.rooms, room));
      FollowsTransitive(g, LastGrant(t, room), Held(DiskRooms(ws[n].state), room));
    }
  }

  /** At most once. A key is let through again only after an execution that ended had its
      record evicted in between. */
  lemma AtMostOnce(ws: seq<World>, acts: seq<Action>, n: nat, i: nat, j: nat)
    requires Behavior(ws, acts) && n < |ws|
    requires i < j < |ws[n].trace| && ws[n].trace[i].Ran? && ws[n].trace[j].Ran?
    requires ws[n].trace[i].id == ws[n].trace[j].id
    ensures exists k :: && i < k < j && Evicts(ws[n].trace[k], ws[n].trace[i].id)
                        && Latest(ws[n].trace[..k + 1], ws[n].trace[i].id).Closed?
  {
    hide Live, Latest, Inv, Next, Behavior;
    RunKeeps(ws, acts, n);
    var t := ws[n].trace;
    LawfulPrefix(t, j + 1);
    assert t[..j + 1][..j] == t[..j];
    LiveUntilEvicted(t[..j], i);
    var k :| i < k < j && Evicts(t[..j][k], t[i].id);
    LawfulPrefix(t, k + 1);
    assert t[..k + 1][k] == t[k];
    assert Evicts(t[k], t[i].id);
  }

  /** Repeats. While its record has not been evicted, asking again for an operation that was
      let through never runs it, changes nothing, and is answered from the latest execution:
      with its own result if the process that finished it is still the one running. */
  lemma Repeat(ws: seq<World>, acts: seq<Action>, n: nat, t: Ticket, now: int, outcome: Persist)
    requires Behavior(ws, acts) && n < |ws|
    requires Live(ws[n].trace, TicketId(t))
    ensures var latest := Latest(ws[n].trace, TicketId(t));
            var (s, answer) := Begin(ws[n].state, t, now, outcome);
            && !latest.Never?
            && s == ws[n].state
            && (answer == Mismatch <==> !SameOperation(latest.descriptor, t.descriptor))
            && (answer == Mismatch || answer == OutcomeUnknown || answer.Cached?)
            && (answer.Cached? ==>
                  && latest.Closed?
                  && answer == Cached(latest.result.(idempotent := true), latest.error))
            && (answer == OutcomeUnknown ==> latest.Open? || !Settled(ws[n].trace, TicketId(t)))
  {
    RunKeeps(ws, acts, n);
    var id := TicketId(t);
    assert Remembers(ws[n].state.rooms, ws[n].trace, id) && Replays(ws[n], id);
  }

  /** `d` describes the latest execution of `id`, and its record has not been evicted. */
  predicate RunBy(trace: seq<Event>, id: Id, d: Descriptor) {
    var latest := Latest(trace, id);
    Live(trace, id) && !latest.Never? && latest.descriptor == d
  }

  /** Retrying a runtime operation runs nothing. It is refused as another operation as soon as
      anything but the lease expiry differs from the request that ran, so also when the retry
      comes under a new lease or token. */
  lemma RuntimeRetry(ws: seq<World>, acts: seq<Action>, n: nat, ran: RuntimeRequest, again: RuntimeRequest, now: int,
                     outcome: Persist)
    requires Behavior(ws, acts) && n < |ws|
    requires RunBy(ws[n].trace, TicketId(RuntimeTicket(again)), RuntimeTicket(ran).descriptor)
    ensures var (s, answer) := Begin(ws[n].state, RuntimeTicket(again), now, outcome);
            && s == ws[n].state && answer != Admitted
            && (answer == Mismatch <==> ran.(leaseExpiresAt := again.leaseExpiresAt) != again)
  {
    hide RuntimeTicket;
    Repeat(ws, acts, n, RuntimeTicket(again), now, outcome);
    RuntimeDescriptors(ran, again);
  }

  /** Retrying a shard operation runs nothing either, but a retry is told by what it asks for
      alone: a new id, lease, token, expiry or topology revision gets the recorded answer. */
  lemma ShardRetry(ws: seq<World>, acts: seq<Action>, n: nat, ran: ShardRequest, again: ShardRequest, now: int,
                   outcome: Persist)
    requires Behavior(ws, acts) && n < |ws|
    requires RunBy(ws[n].trace, TicketId(ShardTicket(again)), ShardTicket(ran).descriptor)
    ensures var (s, answer) := Begin(ws[n].state, ShardTicket(again), now, outcome);
            && s == ws[n].state && answer != Admitted
            && (answer == Mismatch <==> Readdressed(ran, again) != again)
  {
    hide ShardTicket;
    Repeat(ws, acts, n, ShardTicket(again), now, outcome);
    ShardDescriptors(ran, again);
  }

  /** An operation under way always finds its record when it comes to finish. */
  lemma FinishFindsRecord(ws: seq<World>, acts: seq<Action>, n: nat, id: Id)
    requires Behavior(ws, acts) && n < |ws| && id in ws[n].running
    ensures id.key in TableOf(ws[n].state.rooms, id) && !TableOf(ws[n].state.rooms, id)[id.key].completed
    ensures id.key in TableOf(DiskRooms(ws[n].state), id) && !TableOf(DiskRooms(ws[n].state), id)[id.key].completed
  {
    RunKeeps(ws, acts, n);
    assert InFlight(ws[n], id) && OpenOnDisk(ws[n], id);
  }

  ghost predicate HoldsOpen(w: World, id: Id, r: Record) {
    && id.key in TableOf(w.state.rooms, id)
    && TableOf(w.state.rooms, id)[id.key] == r
    && !r.completed
  }

  lemma OpenSurvivesStep(w: World, a: Action, w': World, id: Id, r: Record)
    requires Inv(w) && Next(w, a, w') && HoldsOpen(w, id, r)
    requires !(a.DoFinish? && a.id == id)
    ensures HoldsOpen(w', id, r)
  {
    if a.Restart? {
      assert OpenOnDisk(w, id);
    }
  }

  /** No unfinished record is ever lost: it stays in memory and in the file, through failed
      writes, trimming and restarts, until its own finish. */
  lemma {:induction false} OpenNeverLost(ws: seq<World>, acts: seq<Action>, i: nat, j: nat, id: Id, r: Record)
    requires Behavior(ws, acts) && i <= j < |ws|
    requires HoldsOpen(ws[i], id, r)
    requires forall k :: i <= k < j ==> !(acts[k].DoFinish? && acts[k].id == id)
    ensures HoldsOpen(ws[j], id, r)
    ensures id.key in TableOf(DiskRooms(ws[j].state), id) && TableOf(DiskRooms(ws[j].state), id)[id.key] == r
  {
    RunKeeps(ws, acts, j);
    if i < j {
      OpenNeverLost(ws, acts, i, j - 1, id, r);
      RunKeeps(ws, acts, j - 1);
      OpenSurvivesStep(ws[j - 1], acts[j - 1], ws[j], id, r);
    }
    assert OpenOnDisk(ws[j], id);
  }

  /** Under token 0, which request validation refuses, one room does let two leases through. */
  lemma ZeroTokenSharesLeases() returns (ws: seq<World>, acts: seq<Action>)
    ensures Behavior(ws, acts) && |ws| == 3
    ensures var t := ws[2].trace;
            |t| == 2 && t[0].Ran? && t[1].Ran? && t[0].id.room == t[1].id.room
            && t[0].token == t[1].token == 0 && t[0].lease != t[1].lease
  {
    var d := ShardDescriptor("i", "start", "c", "s", "", false);
    var a := DoBegin(Ticket(Shard, "room", "one", d, 0, "first"), 0, Stored);
    var b := DoBegin(Ticket(Shard, "room", "two", d, 0, "second"), 0, Stored);
    var one := Begin(FRESH, a.ticket, 0, Stored).0;
    var two := Begin(one, b.ticket, 0, Stored).0;
    var e1, e2 := Ran(TicketId(a.ticket), d, 0, "first"), Ran(TicketId(b.ticket), d, 0, "second");
    ws := [START, World(one, {e1.id}, [e1]), World(two, {e1.id} + {e2.id}, [e1] + [e2])];
    acts := [a, b];
    assert Next(ws[0], acts[0], ws[1]);
    assert Next(ws[1], acts[1], ws[2]);
  }
}
