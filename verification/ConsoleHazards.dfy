/**
 Console input interrupted by a restart: which (cluster, shard) pairs are listed from the
 journal, and when the Agent hands out a control for an installation that has some.
 */
module ConsoleHazards {
  import opened Journal
  import opened JournalRuns
  import opened Wrappers

  datatype Hazard = Hazard(cluster: string, shard: string)

  predicate Clean(s: string) {
    NUL !in s
  }

  /** The part before the first NUL, if there is one. */
  function Before(s: string): (r: Option<string>)
    ensures r.Some? ==> Clean(r.value) && |r.value| < |s| && s[..|r.value|] == r.value && s[|r.value|] == NUL
    ensures r.None? ==> Clean(s)
  {
    if s == [] then None
    else if s[0] == NUL then Some([])
    else
      var rest := Before(s[1..]);
      if rest.Some? then Some([s[0]] + rest.value) else None
  }

  lemma NulSplits(a: string, b: string, c: string, d: string)
    requires Clean(a) && Clean(c) && a + [NUL] + b == c + [NUL] + d
    ensures a == c && b == d
  {
    var s := a + [NUL] + b;
    assert s[|a|] == NUL && s[|c|] == NUL;
    assert forall i :: 0 <= i < |a| ==> s[i] == a[i] && a[i] in a;
    assert forall i :: 0 <= i < |c| ==> s[i] == c[i] && c[i] in c;
    assert |a| == |c|;
    assert a == s[..|a|] && b == s[|a| + 1..] && d == s[|a| + 1..];
  }

  lemma RoomKeyNamesInstallation(installation: string, tail: string)
    requires Clean(installation)
    ensures Before(installation + [NUL] + tail) == Some(installation)
  {
    var s := installation + [NUL] + tail;
    assert s[|installation|] == NUL && NUL in s;
    var head := Before(s).value;
    assert s == head + [NUL] + s[|head| + 1..];
    NulSplits(installation, tail, head, s[|head| + 1..]);
  }

  /** The two families meet in one room, with one token, exactly for one cluster of one
      installation, in any case of letters. Steam logins and mod operations have rooms of
      their own, which a cluster of that name would share. */
  lemma FamiliesMeet(s: ShardRequest, r: RuntimeRequest)
    requires Clean(s.installationID) && Clean(r.installationID)
    ensures ShardTicket(s).room == RuntimeTicket(r).room <==>
            s.installationID == r.installationID &&
            Lower(s.cluster) == (match r.action
                                 case SteamLogin(_) => "steam-login"
                                 case Mod(_) => "mods"
                                 case _ => Lower(r.cluster))
  {
    var name := match r.action case SteamLogin(_) => "steam-login" case Mod(_) => "mods" case _ => Lower(r.cluster);
    if ShardTicket(s).room == RuntimeTicket(r).room {
      NulSplits(s.installationID, Lower(s.cluster), r.installationID, name);
    }
  }

  function Identity(installation: string, h: Hazard): string {
    installation + [NUL] + h.cluster + [NUL] + h.shard
  }

  lemma IdentityInjective(a: string, g: Hazard, b: string, h: Hazard)
    requires Clean(a) && Clean(b) && Clean(g.cluster) && Clean(h.cluster)
    requires Identity(a, g) == Identity(b, h)
    ensures a == b && g == h
  {
    assert Identity(a, g) == a + [NUL] + (g.cluster + [NUL] + g.shard);
    assert Identity(b, h) == b + [NUL] + (h.cluster + [NUL] + h.shard);
    NulSplits(a, g.cluster + [NUL] + g.shard, b, h.cluster + [NUL] + h.shard);
    NulSplits(g.cluster, g.shard, h.cluster, h.shard);
  }

  predicate OpenConsoleSend(r: Record) {
    && !r.completed
    && r.descriptor.RuntimeDescriptor?
    && r.descriptor.runtimeAction.ConsoleSend?
  }

  function HazardOf(d: Descriptor): Hazard {
    Hazard(d.cluster, d.shard)
  }

  /** Some room of the installation records an unfinished console send there. */
  ghost predicate Interrupted(rooms: Rooms, installation: string, h: Hazard) {
    exists k, key :: InterruptedAt(rooms, k, key, installation, h)
  }

  ghost predicate InterruptedAt(rooms: Rooms, k: string, key: string, installation: string, h: Hazard) {
    && k in rooms && Before(k) == Some(installation)
    && key in rooms[k].runtimeOperations
    && OpenConsoleSend(rooms[k].runtimeOperations[key])
    && HazardOf(rooms[k].runtimeOperations[key].descriptor) == h
  }

  /** Request validation keeps NUL out of cluster names. */
  ghost predicate CleanRooms(rooms: Rooms) {
    forall k, key :: k in rooms && key in rooms[k].runtimeOperations
                     ==> Clean(rooms[k].runtimeOperations[key].descriptor.cluster)
  }

  ghost predicate NoRepeats(s: seq<Hazard>) {
    forall i, j :: 0 <= i < j < |s| ==> s[i] != s[j]
  }

  type Listing = map<string, seq<Hazard>>

  predicate Listed(result: Listing, installation: string, h: Hazard) {
    installation in result && h in result[installation]
  }

  /** What has been collected so far: every hazard once, and `seen` holds its identity. */
  ghost predicate Collected(rooms: Rooms, result: Listing, seen: set<string>) {
    && (forall i :: i in result ==> result[i] != [] && NoRepeats(result[i]) && Clean(i))
    && (forall i, h :: Listed(result, i, h) ==> Interrupted(rooms, i, h) && Clean(h.cluster) && Identity(i, h) in seen)
    && (forall s :: s in seen ==> exists i, h :: Listed(result, i, h) && Identity(i, h) == s)
  }

  ghost predicate RoomCollected(rooms: Rooms, k: string, keys: set<string>, result: Listing) {
    forall key, i, h :: key in keys && InterruptedAt(rooms, k, key, i, h) ==> Listed(result, i, h)
  }

  function Append(result: Listing, installation: string, h: Hazard): Listing {
    result[installation := (if installation in result then result[installation] else []) + [h]]
  }

  lemma AppendLists(result: Listing, installation: string, h: Hazard, i: string, g: Hazard)
    ensures Listed(Append(result, installation, h), i, g) <==> Listed(result, i, g) || (i == installation && g == h)
  {
  }

  lemma AppendCollected(rooms: Rooms, result: Listing, seen: set<string>, installation: string, h: Hazard)
    requires Collected(rooms, result, seen)
    requires Interrupted(rooms, installation, h) && Clean(installation) && Clean(h.cluster)
    requires Identity(installation, h) !in seen
    ensures Collected(rooms, Append(result, installation, h), seen + {Identity(installation, h)})
  {
    var result' := Append(result, installation, h);
    forall i, g ensures Listed(result', i, g) <==> Listed(result, i, g) || (i == installation && g == h) {
      AppendLists(result, installation, h, i, g);
    }
    assert !Listed(result, installation, h);
    assert NoRepeats(result'[installation]);
    forall s | s in seen + {Identity(installation, h)}
      ensures exists i, g :: Listed(result', i, g) && Identity(i, g) == s
    {
      if s in seen {
        var i, g :| Listed(result, i, g) && Identity(i, g) == s;
        assert Listed(result', i, g);
      } else {
        assert Listed(result', installation, h);
      }
    }
  }

  /** One record of the inner loop. */
  method Note(rooms: Rooms, k: string, key: string, installation: string, result: Listing, seen: set<string>)
    returns (result': Listing, seen': set<string>)
    requires CleanRooms(rooms) && k in rooms && key in rooms[k].runtimeOperations
    requires Before(k) == Some(installation)
    requires Collected(rooms, result, seen)
    ensures Collected(rooms, result', seen')
    ensures forall i, h :: Listed(result, i, h) ==> Listed(result', i, h)
    ensures RoomCollected(rooms, k, {key}, result')
  {
    var operation := rooms[k].runtimeOperations[key];
    result', seen' := result, seen;
    if OpenConsoleSend(operation) {
      var h := HazardOf(operation.descriptor);
      var identity := Identity(installation, h);
      assert InterruptedAt(rooms, k, key, installation, h);
      if identity in seen {
        ghost var i, g :| Listed(result, i, g) && Identity(i, g) == identity;
        IdentityInjective(i, g, installation, h);
      } else {
        AppendCollected(rooms, result, seen, installation, h);
        result', seen' := Append(result, installation, h), seen + {identity};
        forall i, g ensures Listed(result', i, g) <==> Listed(result, i, g) || (i == installation && g == h) {
          AppendLists(result, installation, h, i, g);
        }
      }
    }
  }

  method NoteRoom(rooms: Rooms, k: string, result: Listing, seen: set<string>)
    returns (result': Listing, seen': set<string>)
    requires CleanRooms(rooms) && k in rooms
    requires Collected(rooms, result, seen)
    ensures Collected(rooms, result', seen')
    ensures forall i, h :: Listed(result, i, h) ==> Listed(result', i, h)
    ensures RoomCollected(rooms, k, rooms[k].runtimeOperations.Keys, result')
  {
    result', seen' := result, seen;
    var cut := Before(k);
    if cut.None? {
      return;
    }
    var todo := rooms[k].runtimeOperations.Keys;
    while todo != {}
      invariant todo <= rooms[k].runtimeOperations.Keys
      invariant Collected(rooms, result', seen')
      invariant forall i, h :: Listed(result, i, h) ==> Listed(result', i, h)
      invariant RoomCollected(rooms, k, rooms[k].runtimeOperations.Keys - todo, result')
      decreases todo
    {
      var key :| key in todo;
      todo := todo - {key};
      result', seen' := Note(rooms, k, key, cut.value, result', seen');
    }
  }

  /** pendingConsoleHazards: every interrupted pair, once, under its installation. */
  method PendingConsoleHazards(rooms: Rooms) returns (result: Listing)
    requires CleanRooms(rooms)
    ensures forall i, h :: Listed(result, i, h) <==> Interrupted(rooms, i, h)
    ensures forall i :: i in result ==> result[i] != [] && NoRepeats(result[i])
  {
    result := map[];
    var seen: set<string> := {};
    var todo := rooms.Keys;
    while todo != {}
      invariant todo <= rooms.Keys
      invariant Collected(rooms, result, seen)
      invariant forall k :: k in rooms && k !in todo ==>
                              RoomCollected(rooms, k, rooms[k].runtimeOperations.Keys, result)
      decreases todo
    {
      var k :| k in todo;
      todo := todo - {k};
      result, seen := NoteRoom(rooms, k, result, seen);
    }
    forall i, h | Interrupted(rooms, i, h) ensures Listed(result, i, h) {
      var k, key :| InterruptedAt(rooms, k, key, i, h);
      assert RoomCollected(rooms, k, rooms[k].runtimeOperations.Keys, result);
    }
  }

  // ---------------------------------------------------------------- over whole runs

  /** Requests come from RuntimeTicket and ShardTicket, after validation of their names. */
  ghost predicate CleanTicket(t: Ticket) {
    t.family.Runtime? ==> Clean(t.descriptor.cluster)
  }

  ghost predicate CleanActions(acts: seq<Action>) {
    forall i :: 0 <= i < |acts| && acts[i].DoBegin? ==> CleanTicket(acts[i].ticket)
  }

  lemma CleanAdmit(rooms: Rooms, t: Ticket, now: int)
    requires CleanRooms(rooms) && CleanTicket(t)
    ensures CleanRooms(rooms[t.room := Admit(At(rooms, t.room), t, now)])
  {
  }

  lemma CleanFinish(rooms: Rooms, room: string, family: Family, table: Table)
    requires CleanRooms(rooms)
    requires forall k :: k in table ==> k in At(rooms, room).Of(family) &&
                                         table[k].descriptor == At(rooms, room).Of(family)[k].descriptor
    ensures CleanRooms(rooms[room := At(rooms, room).With(family, table)])
  {
  }

  lemma CleanStep(w: World, a: Action, w': World)
    requires Next(w, a, w') && (a.DoBegin? ==> CleanTicket(a.ticket))
    requires CleanRooms(w.state.rooms) && CleanRooms(DiskRooms(w.state))
    ensures CleanRooms(w'.state.rooms) && CleanRooms(DiskRooms(w'.state))
  {
    hide CleanRooms, CleanTicket, Judge;
    NoRooms();
    match a
    case DoBegin(t, now, _) => CleanAdmit(w.state.rooms, t, now);
    case DoFinish(id, _, _, _, table) =>
      if id.key in TableOf(w.state.rooms, id) && id in w.running {
        CleanFinish(w.state.rooms, id.room, id.family, table);
      }
    case _ =>
  }

  lemma NoRooms()
    ensures CleanRooms(map[])
  {
  }

  lemma {:induction false} CleanRun(ws: seq<World>, acts: seq<Action>, n: nat)
    requires Behavior(ws, acts) && CleanActions(acts) && n < |ws|
    ensures CleanRooms(ws[n].state.rooms) && CleanRooms(DiskRooms(ws[n].state))
  {
    if n > 0 {
      CleanRun(ws, acts, n - 1);
      CleanStep(ws[n - 1], acts[n - 1], ws[n]);
    }
  }

  /** A console send let through and not finished when the process dies is among the
      interrupted ones of its installation in the next process, whatever became of the
      writes made since. */
  lemma InterruptedAfterRestart(ws: seq<World>, acts: seq<Action>, n: nat, r: RuntimeRequest)
    requires Behavior(ws, acts) && n < |acts| && acts[n].Restart?
    requires Clean(r.installationID) && r.action.ConsoleSend?
    requires Latest(ws[n].trace, TicketId(RuntimeTicket(r))) == Open(RuntimeTicket(r).descriptor)
    ensures Interrupted(ws[n + 1].state.rooms, r.installationID, Hazard(r.cluster, r.shard))
  {
    RunKeeps(ws, acts, n);
    var id := TicketId(RuntimeTicket(r));
    assert Remembers(DiskRooms(ws[n].state), ws[n].trace, id);
    RoomKeyNamesInstallation(r.installationID, Lower(r.cluster));
    assert Next(ws[n], acts[n], ws[n + 1]);
    assert InterruptedAt(ws[n + 1].state.rooms, id.room, id.key, r.installationID, Hazard(r.cluster, r.shard));
  }

  // ---------------------------------------------------------------- handing out controls

  class Control {
    const canRecover: bool
    var recovered: set<Hazard>

    constructor (canRecover: bool)
      ensures this.canRecover == canRecover && recovered == {}
    {
      this.canRecover := canRecover;
      recovered := {};
    }

    method Recover(h: Hazard, answer: bool) returns (ok: bool)
      modifies this
      ensures ok == answer && recovered == if answer then old(recovered) + {h} else old(recovered)
    {
      ok := answer;
      if ok {
        recovered := recovered + {h};
      }
    }
  }

  /** What the driver factory answers: no control, or one that can or cannot recover input. */
  datatype Factory = Fails | Creates(canRecover: bool)

  class ControlRegistry {
    var controls: map<string, Control>
    var hazards: Listing
    ghost const listed: Listing

    ghost predicate Valid()
      reads this, controls.Values
    {
      && (forall i :: i in hazards ==> i in listed && hazards[i] == listed[i] && (i in controls ==> hazards[i] == []))
      && (forall i, h :: Listed(listed, i, h) ==>
                           (i in hazards || i in controls) && (i in controls ==> h in controls[i].recovered))
    }

    constructor (hazards: Listing)
      ensures Valid() && listed == hazards && controls == map[]
    {
      this.hazards := hazards;
      listed := hazards;
      controls := map[];
    }

    /** runtimeControl. `answers(n)` is how the n-th recovery of this call goes. A control is
        handed out only with every hazard listed for its installation recovered through it;
        a refusal leaves everything to be done again. */
    method RuntimeControl(installation: string, deployable: bool, factory: Factory, answers: nat -> bool)
      returns (r: Control?)
      requires Valid()
      modifies this`controls, this`hazards
      ensures Valid()
      ensures r != null ==> installation in controls && controls[installation] == r
      ensures r != null ==> forall h :: Listed(listed, installation, h) ==> h in r.recovered
      ensures r == null ==> controls == old(controls) && hazards == old(hazards)
      ensures forall i :: i != installation ==>
                            && (i in controls <==> i in old(controls)) && (i in controls ==> controls[i] == old(controls)[i])
                            && (i in hazards <==> i in old(hazards))
      ensures r != null <==> deployable && (installation in old(controls) ||
                             (factory.Creates? &&
                              (installation in old(hazards) && old(hazards)[installation] != [] ==>
                                 factory.canRecover && forall n: nat :: n < |old(hazards)[installation]| ==> answers(n))))
    {
      if !deployable {
        return null;
      }
      if installation in controls {
        return controls[installation];
      }
      if factory.Fails? {
        return null;
      }
      var created := new Control(factory.canRecover);
      if installation in hazards && hazards[installation] != [] {
        if !created.canRecover {
          return null;
        }
        var pending := hazards[installation];
        for n := 0 to |pending|
          invariant hazards == old(hazards) && controls == old(controls) && Valid()
          invariant forall m: nat :: m < n ==> pending[m] in created.recovered && answers(m)
        {
          var ok := created.Recover(pending[n], answers(n));
          if !ok {
            return null;
          }
        }
        hazards := hazards - {installation};
      }
      controls := controls[installation := created];
      r := created;
    }
  }
}
