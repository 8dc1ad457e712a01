/**
 The Agent's operation journal as a value: what one room remembers, how a request
 is judged against it, and the state before and after each critical section.
 The two operation families (shard and runtime) share one fencing token per room.
 */
module Journal {
  import opened Wrappers

  const MAXIMUM_REMEMBERED := 128

  datatype RuntimeAction = ConsoleSend | SteamLogin(name: string) | Mod(name: string) | Other(name: string)

  /** Every field but the protocol version, which validation fixes. */
  datatype ShardRequest = ShardRequest(
    operationID: string, operationKey: string, installationID: string, action: string, runtimeMode: string,
    skipUpdateServerMods: bool, cluster: string, shard: string, topologyRevision: string,
    leaseID: string, fencingToken: nat, leaseExpiresAt: Option<int>)

  /** `payload` stands for the topology revision and every action-specific part. */
  datatype RuntimeRequest = RuntimeRequest(
    operationID: string, operationKey: string, installationID: string, action: RuntimeAction,
    cluster: string, shard: string, leaseID: string, fencingToken: nat,
    leaseExpiresAt: Option<int>, payload: string)

  datatype Family = Shard | Runtime

  /** What a record remembers about the request it was made for. A fingerprint is the
      request itself without its lease expiry: the digest is modelled as injective. */
  datatype Descriptor =
    | ShardDescriptor(installationID: string, action: string, cluster: string, shard: string,
                      runtimeMode: string, skipUpdateServerMods: bool)
    | RuntimeDescriptor(operationID: string, runtimeAction: RuntimeAction, cluster: string, shard: string,
                        fingerprint: RuntimeRequest)

  datatype Result = Result(payload: string, idempotent: bool, observedAt: int)

  datatype Record = Record(
    descriptor: Descriptor, acceptedAt: int, completed: bool, errorMessage: string, result: Result)

  type Table = map<string, Record>

  datatype Room = Room(token: nat, lease: string, operations: Table, runtimeOperations: Table) {
    function Of(family: Family): Table {
      if family.Shard? then operations else runtimeOperations
    }

    function With(family: Family, table: Table): Room {
      if family.Shard? then this.(operations := table) else this.(runtimeOperations := table)
    }
  }

  const NO_RESULT := Result("", false, 0)
  const EMPTY_ROOM := Room(0, "", map[], map[])

  type Rooms = map<string, Room>

  function At(rooms: Rooms, key: string): Room {
    if key in rooms then rooms[key] else EMPTY_ROOM
  }

  /** The part of a request that the journal looks at. */
  datatype Ticket = Ticket(
    family: Family, room: string, key: string, descriptor: Descriptor, token: nat, lease: string)

  function LowerChar(c: char): char {
    if 'A' <= c <= 'Z' then (c as int + 32) as char else c
  }

  function Lower(s: string): string {
    seq(|s|, i requires 0 <= i < |s| => LowerChar(s[i]))
  }

  const NUL: char := 0 as char

  function RuntimeRoomKey(r: RuntimeRequest): string {
    match r.action
    case SteamLogin(_) => r.installationID + [NUL] + "steam-login"
    case Mod(_) => r.installationID + [NUL] + "mods"
    case _ => r.installationID + [NUL] + Lower(r.cluster)
  }

  function ShardTicket(r: ShardRequest): Ticket {
    Ticket(Shard, r.installationID + [NUL] + Lower(r.cluster), r.operationKey,
           ShardDescriptor(r.installationID, r.action, r.cluster, r.shard, r.runtimeMode, r.skipUpdateServerMods),
           r.fencingToken, r.leaseID)
  }

  function Fingerprint(r: RuntimeRequest): RuntimeRequest {
    r.(leaseExpiresAt := None)
  }

  function RuntimeTicket(r: RuntimeRequest): Ticket {
    Ticket(Runtime, RuntimeRoomKey(r), r.operationKey,
           RuntimeDescriptor(r.operationID, r.action, r.cluster, r.shard, Fingerprint(r)),
           r.fencingToken, r.leaseID)
  }

  /** Shard records are compared field by field, runtime records by fingerprint only. */
  predicate SameOperation(recorded: Descriptor, asked: Descriptor) {
    match (recorded, asked)
    case (RuntimeDescriptor(_, _, _, _, f), RuntimeDescriptor(_, _, _, _, g)) => f == g
    case _ => recorded == asked
  }

  datatype BeginResult =
    | Admitted
    | Cached(result: Result, error: string)
    | Mismatch
    | OutcomeUnknown
    | StaleToken
    | LeaseTaken
    | PersistFailed

  /** The verdict on a request, before anything is written. */
  function Judge(room: Room, t: Ticket): BeginResult {
    var table := room.Of(t.family);
    if t.key in table then
      var remembered := table[t.key];
      if !SameOperation(remembered.descriptor, t.descriptor) then Mismatch
      else if !remembered.completed then OutcomeUnknown
      else Cached(remembered.result.(idempotent := true), remembered.errorMessage)
    else if t.token < room.token then StaleToken
    else if t.token == room.token && room.token > 0 && room.lease != t.lease then LeaseTaken
    else Admitted
  }

  function Accepted(t: Ticket, now: int): Record {
    Record(t.descriptor, now, false, "", NO_RESULT)
  }

  function Admit(room: Room, t: Ticket, now: int): Room {
    room.(token := t.token, lease := t.lease).With(t.family, room.Of(t.family)[t.key := Accepted(t, now)])
  }

  /** Writing the state file: done, failed with the old file in place, or failed
      with the new file already in place. */
  datatype Persist = Stored | FailedBefore | FailedAfter

  datatype Saved = Saved(initialized: bool, rooms: Rooms)

  datatype State = State(rooms: Rooms, initialized: bool, disk: Option<Saved>)

  const FRESH := State(map[], false, None)

  function DiskRooms(s: State): Rooms {
    if s.disk.Some? then s.disk.value.rooms else map[]
  }

  function Write(disk: Option<Saved>, saved: Saved, outcome: Persist): Option<Saved> {
    if outcome.FailedBefore? then disk else Some(saved)
  }

  /** begin / beginRuntime: admitted only when the new state was stored. */
  function Begin(s: State, t: Ticket, now: int, outcome: Persist): (State, BeginResult) {
    var verdict := Judge(At(s.rooms, t.room), t);
    if verdict != Admitted then (s, verdict)
    else
      var next := s.rooms[t.room := Admit(At(s.rooms, t.room), t, now)];
      var disk := Write(s.disk, Saved(s.initialized, next), outcome);
      if outcome.Stored? then (s.(rooms := next, disk := disk), Admitted)
      else (s.(disk := disk), PersistFailed)
  }

  function Complete(r: Record, result: Result, error: Option<string>): Record {
    var done := r.(completed := true, result := result);
    if error.Some? then done.(errorMessage := error.value) else done
  }

  /** `after` is `before` less completed records only, oldest observation first, exactly
      as many as it takes to get down to the limit or as there are. Ties may go either way. */
  ghost predicate Trimmed(before: Table, after: Table) {
    && after.Keys <= before.Keys
    && (forall k :: k in after ==> after[k] == before[k])
    && (forall k :: k in before && k !in after ==> before[k].completed)
    && (forall e, k :: e in before && e !in after && k in after && after[k].completed
                       ==> before[e].result.observedAt <= after[k].result.observedAt)
    && (|before| <= MAXIMUM_REMEMBERED ==> after == before)
    && (|before| > MAXIMUM_REMEMBERED ==>
          || |after| == MAXIMUM_REMEMBERED
          || (|after| > MAXIMUM_REMEMBERED && forall k :: k in after ==> !after[k].completed))
  }

  /** finish / finishRuntime: memory keeps the completed record whatever the file says.
      `table` is the trimmed table that replaces the family's table. */
  ghost predicate Finished(s: State, family: Family, room: string, key: string, result: Result,
                           error: Option<string>, outcome: Persist, table: Table, s': State)
  {
    var before := At(s.rooms, room).Of(family);
    && key in before
    && Trimmed(before[key := Complete(before[key], result, error)], table)
    && s' == s.(rooms := s.rooms[room := At(s.rooms, room).With(family, table)],
                disk := Write(s.disk, Saved(s.initialized, s'.rooms), outcome))
  }

  /** initializeOwnership: the one other writer of the state file. */
  function Initialize(s: State, outcome: Persist): State {
    if s.initialized then s
    else s.(initialized := outcome.Stored?, disk := Write(s.disk, Saved(true, s.rooms), outcome))
  }

  /** Restart: memory becomes what the file holds. A file without the ownership mark is trusted. */
  function Load(s: State): State {
    State(DiskRooms(s), s.disk.Some?, s.disk)
  }

  // ---------------------------------------------------------------- retries

  lemma RuntimeDescriptors(r: RuntimeRequest, q: RuntimeRequest)
    ensures SameOperation(RuntimeTicket(r).descriptor, RuntimeTicket(q).descriptor) <==>
            r.(leaseExpiresAt := q.leaseExpiresAt) == q
  {
    assert Fingerprint(r) == Fingerprint(q) <==> r.(leaseExpiresAt := q.leaseExpiresAt) == q;
  }

  /** `r` with the parts of `q` that a shard record does not remember. */
  function Readdressed(r: ShardRequest, q: ShardRequest): ShardRequest {
    r.(operationID := q.operationID, operationKey := q.operationKey, topologyRevision := q.topologyRevision,
       leaseID := q.leaseID, fencingToken := q.fencingToken, leaseExpiresAt := q.leaseExpiresAt)
  }

  lemma ShardDescriptors(r: ShardRequest, q: ShardRequest)
    ensures SameOperation(ShardTicket(r).descriptor, ShardTicket(q).descriptor) <==> Readdressed(r, q) == q
  {
    assert ShardTicket(r).descriptor == ShardTicket(q).descriptor <==> Readdressed(r, q) == q;
  }
}
