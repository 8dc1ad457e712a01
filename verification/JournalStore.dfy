/**
 The journal as the Agent keeps it: rooms whose tables are shared heap objects, cloned
 before a request is recorded and updated in place when it finishes. Each method is proved
 to do what the value model of module Journal says.
 */
module JournalStore {
  import opened Journal
  import opened Wrappers

  class OperationTable {
    var entries: Table

    constructor (entries: Table)
      ensures this.entries == entries
    {
      this.entries := entries;
    }
  }

  datatype Stamp = Stamp(key: string, at: int)

  ghost predicate Ascending(s: seq<Stamp>) {
    forall i, j :: 0 <= i < j < |s| ==> s[i].at <= s[j].at
  }

  function InsertByTime(sorted: seq<Stamp>, x: Stamp): seq<Stamp> {
    if sorted == [] || sorted[|sorted| - 1].at <= x.at then sorted + [x]
    else InsertByTime(sorted[..|sorted| - 1], x) + [sorted[|sorted| - 1]]
  }

  lemma {:induction false} InsertPermutes(sorted: seq<Stamp>, x: Stamp)
    ensures multiset(InsertByTime(sorted, x)) == multiset(sorted) + multiset{x}
  {
    if sorted != [] && sorted[|sorted| - 1].at > x.at {
      InsertPermutes(sorted[..|sorted| - 1], x);
      assert sorted == sorted[..|sorted| - 1] + [sorted[|sorted| - 1]];
    }
  }

  lemma {:induction false} InsertAscends(sorted: seq<Stamp>, x: Stamp)
    requires Ascending(sorted)
    ensures Ascending(InsertByTime(sorted, x))
    ensures forall i :: 0 <= i < |InsertByTime(sorted, x)| ==>
                          InsertByTime(sorted, x)[i].at <= x.at || InsertByTime(sorted, x)[i] in sorted
  {
    if sorted != [] && sorted[|sorted| - 1].at > x.at {
      InsertAscends(sorted[..|sorted| - 1], x);
    }
  }

  method SortByTime(items: seq<Stamp>) returns (sorted: seq<Stamp>)
    ensures multiset(sorted) == multiset(items) && Ascending(sorted)
  {
    sorted := [];
    for n := 0 to |items|
      invariant multiset(sorted) == multiset(items[..n]) && Ascending(sorted)
    {
      InsertPermutes(sorted, items[n]);
      InsertAscends(sorted, items[n]);
      sorted := InsertByTime(sorted, items[n]);
      assert items[..n + 1] == items[..n] + [items[n]];
    }
    assert items[..|items|] == items;
  }

  lemma DropOne(table: Table, key: string)
    ensures |table - {key}| == if key in table then |table| - 1 else |table|
  {
    assert (table - {key}).Keys == table.Keys - {key};
  }

  ghost predicate Collected(table: Table, todo: set<string>, stamps: seq<Stamp>) {
    && (forall x :: x in stamps ==> x.key in table && table[x.key].completed && x.at == table[x.key].result.observedAt)
    && (forall k :: k in table && k !in todo && table[k].completed ==> Stamp(k, table[k].result.observedAt) in stamps)
  }

  /** Completed records with the time they were observed, in any order. */
  method CompletedStamps(table: Table) returns (stamps: seq<Stamp>)
    ensures Collected(table, {}, stamps)
  {
    stamps := [];
    var todo := table.Keys;
    while todo != {}
      invariant todo <= table.Keys
      invariant Collected(table, todo, stamps)
      decreases todo
    {
      var key :| key in todo;
      todo := todo - {key};
      if table[key].completed {
        stamps := stamps + [Stamp(key, table[key].result.observedAt)];
      }
    }
  }

  /** trimRememberedOperations and trimRememberedRuntimeOperations. */
  method Trim(values: OperationTable)
    modifies values
    ensures Trimmed(old(values.entries), values.entries)
  {
    if |values.entries| <= MAXIMUM_REMEMBERED {
      return;
    }
    ghost var before := values.entries;
    var completed := CompletedStamps(values.entries);
    var sorted := SortByTime(completed);
    assert forall x :: x in sorted <==> x in completed by {
      forall x ensures x in sorted <==> x in completed {
        assert x in multiset(sorted) <==> x in multiset(completed);
      }
    }
    assert Collected(before, {}, sorted);
    ghost var n;
    values.entries, n := DropOldest(values.entries, sorted);
    TrimDone(before, values.entries, sorted, n);
  }

  ghost function Firsts(sorted: seq<Stamp>, i: nat): set<string>
    requires i <= |sorted|
  {
    if i == 0 then {} else Firsts(sorted, i - 1) + {sorted[i - 1].key}
  }

  lemma {:induction false} FirstsMembers(sorted: seq<Stamp>, i: nat, k: string)
    requires i <= |sorted|
    ensures k in Firsts(sorted, i) <==> exists j :: 0 <= j < i && sorted[j].key == k
  {
    if i > 0 {
      FirstsMembers(sorted, i - 1, k);
    }
  }

  lemma DropNext(entries: Table, gone: set<string>, key: string)
    ensures (entries - gone) - {key} == entries - (gone + {key})
  {
  }

  method DropOldest(entries: Table, sorted: seq<Stamp>) returns (kept: Table, ghost n: nat)
    requires |entries| > MAXIMUM_REMEMBERED
    ensures n <= |sorted| && (n < |sorted| ==> |kept| <= MAXIMUM_REMEMBERED)
    ensures |kept| >= MAXIMUM_REMEMBERED
    ensures kept == entries - Firsts(sorted, n)
  {
    kept, n := entries, 0;
    for i := 0 to |sorted|
      invariant |kept| >= MAXIMUM_REMEMBERED && n == i
      invariant kept == entries - Firsts(sorted, i)
    {
      if |kept| <= MAXIMUM_REMEMBERED {
        break;
      }
      DropOne(kept, sorted[i].key);
      DropNext(entries, Firsts(sorted, i), sorted[i].key);
      kept, n := kept - {sorted[i].key}, i + 1;
    }
  }

  lemma TrimDone(before: Table, after: Table, sorted: seq<Stamp>, i: nat)
    requires |before| > MAXIMUM_REMEMBERED && |after| >= MAXIMUM_REMEMBERED && i <= |sorted|
    requires Collected(before, {}, sorted) && Ascending(sorted)
    requires after == before - Firsts(sorted, i)
    requires i < |sorted| ==> |after| <= MAXIMUM_REMEMBERED
    ensures Trimmed(before, after)
  {
    forall e, k | e in before && e !in after && k in after && after[k].completed
      ensures before[e].result.observedAt <= after[k].result.observedAt
      ensures i < |sorted|
    {
      FirstsMembers(sorted, i, e);
      var j :| 0 <= j < i && sorted[j].key == e;
      assert sorted[j] in sorted;
      assert Stamp(k, before[k].result.observedAt) in sorted;
      var m :| 0 <= m < |sorted| && sorted[m] == Stamp(k, before[k].result.observedAt);
      FirstsMembers(sorted, i, k);
      assert i <= m;
    }
    forall k | k in before && k !in after ensures before[k].completed {
      FirstsMembers(sorted, i, k);
      var j :| 0 <= j < i && sorted[j].key == k;
      assert sorted[j] in sorted;
    }
    forall k | k in after && after[k].completed ensures |after| <= MAXIMUM_REMEMBERED {
      assert Stamp(k, before[k].result.observedAt) in sorted;
      var m :| 0 <= m < |sorted| && sorted[m] == Stamp(k, before[k].result.observedAt);
      FirstsMembers(sorted, i, k);
      assert i <= m;
    }
  }

  /** A room as the Agent holds it: a value whose two tables are references, nil until made. */
  datatype RoomState = RoomState(
    token: nat, lease: string, operations: OperationTable?, runtimeOperations: OperationTable?)
  {
    function Table(family: Family): OperationTable? {
      if family.Shard? then operations else runtimeOperations
    }

    function Value(): Room
      reads operations, runtimeOperations
    {
      Room(token, lease, Contents(operations), Contents(runtimeOperations))
    }
  }

  const NO_ROOM := RoomState(0, "", null, null)

  function Contents(t: OperationTable?): Table
    reads t
  {
    if t == null then map[] else t.entries
  }

  /** One table of cloneShardRoomState: a new object with the same entries. */
  method CopyTable(t: OperationTable?) returns (copy: OperationTable)
    ensures fresh(copy) && copy.entries == Contents(t)
  {
    copy := new OperationTable(map[]);
    if t != null {
      var todo := t.entries.Keys;
      while todo != {}
        invariant todo <= t.entries.Keys && copy.entries.Keys == t.entries.Keys - todo
        invariant forall k :: k in copy.entries ==> copy.entries[k] == t.entries[k]
        decreases todo
      {
        var key :| key in todo;
        copy.entries := copy.entries[key := t.entries[key]];
        todo := todo - {key};
      }
    }
  }

  method CloneRoom(value: RoomState) returns (copy: RoomState)
    ensures copy.operations != null && copy.runtimeOperations != null
    ensures fresh(copy.operations) && fresh(copy.runtimeOperations) && copy.operations != copy.runtimeOperations
    ensures copy.Value() == value.Value()
  {
    var operations := CopyTable(value.operations);
    var runtimeOperations := CopyTable(value.runtimeOperations);
    copy := value.(operations := operations, runtimeOperations := runtimeOperations);
  }

  predicate Apart(a: RoomState, b: RoomState) {
    && (a.operations != null ==> a.operations != b.operations && a.operations != b.runtimeOperations)
    && (a.runtimeOperations != null ==>
          a.runtimeOperations != b.operations && a.runtimeOperations != b.runtimeOperations)
  }

  lemma UndoUpdate<K, V>(m: map<K, V>, k: K, v: V)
    ensures k in m ==> m[k := v][k := m[k]] == m
    ensures k !in m ==> m[k := v] - {k} == m
  {
  }

  datatype FinishResult = Recorded | Missing | NotSaved

  class ShardOperationState {
    var rooms: map<string, RoomState>
    var initialized: bool
    var disk: Option<Saved>

    ghost function Tables(): set<OperationTable>
      reads this`rooms
    {
      (set k | k in rooms && rooms[k].operations != null :: rooms[k].operations) +
      (set k | k in rooms && rooms[k].runtimeOperations != null :: rooms[k].runtimeOperations)
    }

    /** No table serves two rooms or both families of one room. */
    ghost predicate Valid()
      reads this`rooms
    {
      && (forall k :: k in rooms && rooms[k].operations != null ==> rooms[k].operations != rooms[k].runtimeOperations)
      && (forall k, l :: k in rooms && l in rooms && k != l ==> Apart(rooms[k], rooms[l]))
    }

    function Snapshot(): Rooms
      reads this`rooms, Tables()
    {
      map k | k in rooms :: rooms[k].Value()
    }

    ghost function Value(): State
      reads this, Tables()
    {
      State(Snapshot(), initialized, disk)
    }

    constructor ()
      ensures Valid() && Value() == FRESH
    {
      rooms := map[];
      initialized := false;
      disk := None;
    }

    /** persistLocked: the whole state goes to the file. */
    method Persist(outcome: Persist) returns (ok: bool)
      modifies this`disk
      ensures Snapshot() == old(Snapshot())
      ensures ok == outcome.Stored?
      ensures disk == Write(old(disk), Saved(initialized, old(Snapshot())), outcome)
    {
      disk := Write(disk, Saved(initialized, Snapshot()), outcome);
      ok := outcome.Stored?;
    }

    twostate lemma Undisturbed()
      requires rooms == old(rooms) && unchanged(old(Tables()))
      ensures Snapshot() == old(Snapshot())
    {
    }

    /** Installs a room whose tables no other room uses. */
    method Put(key: string, room: RoomState)
      requires Valid()
      requires room.operations != null ==> room.operations != room.runtimeOperations
      requires room.operations !in Tables() && room.runtimeOperations !in Tables()
      modifies this`rooms
      ensures Valid() && rooms == old(rooms)[key := room]
      ensures Snapshot() == old(Snapshot())[key := room.Value()]
    {
      assert forall k :: k in rooms ==> Apart(rooms[k], room) && Apart(room, rooms[k]) by {
        forall k | k in rooms ensures Apart(rooms[k], room) && Apart(room, rooms[k]) {
          assert rooms[k].operations != null ==> rooms[k].operations in Tables();
          assert rooms[k].runtimeOperations != null ==> rooms[k].runtimeOperations in Tables();
        }
      }
      rooms := rooms[key := room];
    }

    /** Records a room and writes the file; when that fails the old room is put back. */
    method StoreRoom(key: string, room: RoomState, outcome: Persist) returns (ok: bool)
      requires Valid()
      requires room.operations != null ==> room.operations != room.runtimeOperations
      requires room.operations !in Tables() && room.runtimeOperations !in Tables()
      modifies this`rooms, this`disk
      ensures Valid() && ok == outcome.Stored?
      ensures ok ==> rooms == old(rooms)[key := room]
      ensures !ok ==> rooms == old(rooms)
      ensures var next := old(Snapshot())[key := room.Value()];
              && disk == Write(old(disk), Saved(initialized, next), outcome)
              && Snapshot() == if ok then next else old(Snapshot())
    {
      var existed := key in rooms;
      var original := if existed then rooms[key] else NO_ROOM;
      Put(key, room);
      ok := Persist(outcome);
      if !ok {
        UndoUpdate(old(rooms), key, room);
        rooms := if existed then rooms[key := original] else rooms - {key};
        Undisturbed();
      }
    }

    method BeginTicket(t: Ticket, now: int, outcome: Persist) returns (r: BeginResult)
      requires Valid()
      modifies this
      ensures Valid()
      ensures (Value(), r) == Journal.Begin(old(Value()), t, now, outcome)
      ensures r != Admitted ==> rooms == old(rooms)
    {
      hide Judge, Accepted;
      var original := if t.room in rooms then rooms[t.room] else NO_ROOM;
      ghost var before := Snapshot();
      var room := CloneRoom(original);
      assert Snapshot() == before && room.Value() == At(before, t.room);
      r := Judge(room.Value(), t);
      if r != Admitted {
        return;
      }
      room := AdmitInto(room, t, now);
      Undisturbed();
      var ok := StoreRoom(t.room, room, outcome);
      if !ok {
        r := PersistFailed;
      }
    }

    method BeginShard(request: ShardRequest, now: int, outcome: Persist) returns (r: BeginResult)
      requires Valid()
      modifies this
      ensures Valid() && (Value(), r) == Journal.Begin(old(Value()), ShardTicket(request), now, outcome)
      ensures r != Admitted ==> rooms == old(rooms)
    {
      r := BeginTicket(ShardTicket(request), now, outcome);
    }

    method BeginRuntime(request: RuntimeRequest, now: int, outcome: Persist) returns (r: BeginResult)
      requires Valid()
      modifies this
      ensures Valid() && (Value(), r) == Journal.Begin(old(Value()), RuntimeTicket(request), now, outcome)
      ensures r != Admitted ==> rooms == old(rooms)
    {
      r := BeginTicket(RuntimeTicket(request), now, outcome);
    }

    /** The completed record and the trimming, on the table that the room holds: no other table
        of any room changes. */
    method CompleteInPlace(family: Family, roomKey: string, values: OperationTable, key: string, result: Result,
                           error: Option<string>)
      requires Valid() && roomKey in rooms && values == rooms[roomKey].Table(family) && key in values.entries
      modifies values
      ensures Trimmed(old(values.entries)[key := Complete(old(values.entries)[key], result, error)], values.entries)
      ensures Snapshot() == old(Snapshot())[roomKey := old(Snapshot())[roomKey].With(family, values.entries)]
    {
      hide Trimmed, Complete;
      var room := rooms[roomKey];
      ghost var before := Snapshot();
      CompleteAndTrim(values, key, result, error);
      forall k | k in rooms && k != roomKey ensures rooms[k].Value() == before[k] {
        assert Apart(room, rooms[k]);
      }
      assert room.Value() == before[roomKey].With(family, values.entries);
      assert Snapshot() == before[roomKey := room.Value()];
    }

    /** finish and finishRuntime work on the room's own table: nothing is cloned, and a
        failed write takes nothing back. */
    method FinishTicket(family: Family, roomKey: string, key: string, result: Result, error: Option<string>,
                        outcome: Persist)
      returns (r: FinishResult)
      requires Valid()
      modifies this, Tables()
      ensures Valid() && rooms == old(rooms)
      ensures r.Missing? == (key !in old(At(Snapshot(), roomKey).Of(family)))
      ensures r.Missing? ==> Value() == old(Value())
      ensures !r.Missing? ==> Finished(old(Value()), family, roomKey, key, result, error, outcome,
                                        At(Snapshot(), roomKey).Of(family), Value())
      ensures r.Recorded? ==> outcome.Stored?
    {
      hide Trimmed, Complete;
      var room := if roomKey in rooms then rooms[roomKey] else NO_ROOM;
      var values := room.Table(family);
      if values == null || key !in values.entries {
        r := Missing;
        return;
      }
      assert values in Tables();
      CompleteInPlace(family, roomKey, values, key, result, error);
      var ok := Persist(outcome);
      r := if ok then Recorded else NotSaved;
    }

    method InitializeOwnership(outcome: Persist)
      requires Valid()
      modifies this`initialized, this`disk
      ensures Valid() && rooms == old(rooms) && Value() == Journal.Initialize(old(Value()), outcome)
    {
      if initialized {
        return;
      }
      initialized := true;
      var ok := Persist(outcome);
      if !ok {
        initialized := false;
      }
      Undisturbed();
    }

    method AddRoom(key: string, value: Room)
      requires Valid()
      modifies this`rooms
      ensures Valid() && Snapshot() == old(Snapshot())[key := value]
    {
      hide Snapshot, Valid, Apart;
      var operations := new OperationTable(value.operations);
      var runtimeOperations := new OperationTable(value.runtimeOperations);
      Undisturbed();
      var room := RoomState(value.token, value.lease, operations, runtimeOperations);
      assert room.Value() == value;
      Put(key, room);
    }

    /** loadShardOperationState in a new process: `file` is what the old one left. */
    constructor Load(file: Option<Saved>)
      ensures Valid()
      ensures Value() == State(if file.Some? then file.value.rooms else map[], file.Some?, file)
    {
      rooms := map[];
      initialized := file.Some?;
      disk := file;
      new;
      assert Snapshot() == map[];
      if file.Some? {
        var saved := file.value.rooms;
        var todo := saved.Keys;
        while todo != {}
          invariant Valid() && initialized == true && disk == file
          invariant todo <= saved.Keys && Snapshot() == saved - todo
          decreases todo
        {
          var key :| key in todo;
          todo := todo - {key};
          AddRoom(key, saved[key]);
        }
      }
    }
  }

  method CompleteAndTrim(values: OperationTable, key: string, result: Result, error: Option<string>)
    requires key in values.entries
    modifies values
    ensures Trimmed(old(values.entries)[key := Complete(old(values.entries)[key], result, error)], values.entries)
  {
    values.entries := values.entries[key := Complete(values.entries[key], result, error)];
    Trim(values);
  }

  /** The writes of begin, on a room nothing else refers to. */
  method AdmitInto(room: RoomState, t: Ticket, now: int) returns (admitted: RoomState)
    requires room.operations != null && room.runtimeOperations != null && room.operations != room.runtimeOperations
    modifies room.Table(t.family)
    ensures admitted == room.(token := t.token, lease := t.lease)
    ensures admitted.Value() == Admit(old(room.Value()), t, now)
  {
    var table := room.Table(t.family);
    table.entries := table.entries[t.key := Accepted(t, now)];
    admitted := room.(token := t.token, lease := t.lease);
  }
}
