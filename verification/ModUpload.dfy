/**
 Resumable upload: a staged file and a state file, and calls that may stop, by an error or by
 the process dying, at any of their disk steps. `history` holds the disk after every step.
 */
module ModUpload {
  import opened Wrappers

  type Bytes = seq<bv8>

  const MAX_CHUNK := 0x4_0000

  /** `sha256` is the digest of the content, modelled as injective: the content itself. */
  datatype Descriptor = Descriptor(uploadID: string, kind: string, operationID: string, workshopID: string,
                                   tree: string, size: nat, sha256: Bytes, metadata: string)

  datatype UploadState = UploadState(descriptor: Descriptor, offset: nat, committed: bool)

  datatype Disk = Disk(state: Option<UploadState>, data: Option<Bytes>)

  /** A disk step is done, or the call stops there. `effect` says how much of the step happened:
      the number of bytes of a chunk, and for any other step nothing (0) or all of it. */
  datatype Fate = Done | Stops(effect: nat)

  datatype Reply = Accepted(offset: nat, complete: bool) | Conflict | Invalid | Incomplete | Interrupted

  // ---------------------------------------------------------------- what the disk promises

  predicate Committed(d: Disk) {
    d.state.Some? && d.state.value.committed
  }

  predicate StagedPrefix(d: Disk, content: Bytes) {
    d.data.Some? ==> d.data.value <= content
  }

  /** The staged file is a prefix of the content; the recorded offset is within it until the
      upload is committed, and then it is the whole size. */
  predicate DiskInv(d: Disk, descriptor: Descriptor, content: Bytes) {
    && StagedPrefix(d, content)
    && (d.state.Some? ==>
          var s := d.state.value;
          && s.descriptor == descriptor
          && (!s.committed ==> d.data.Some? && s.offset <= |d.data.value|)
          && (s.committed ==> s.offset == |content| && (d.data.Some? ==> d.data.value == content)))
  }

  /** Bytes are only added, offsets only grow, a commit needs the whole content and is final;
      only then may the staged file go. */
  predicate DiskStep(a: Disk, b: Disk, content: Bytes) {
    && (Committed(a) ==> Committed(b))
    && (!Committed(a) && Committed(b) ==> a.data == Some(content))
    && (a.state.Some? ==> b.state.Some? && a.state.value.offset <= b.state.value.offset)
    && (a.data.Some? && b.data.Some? ==> a.data.value <= b.data.value)
    && (a.data.Some? && b.data.None? ==> Committed(a))
  }

  ghost predicate Lawful(history: seq<Disk>, descriptor: Descriptor, content: Bytes) {
    && (forall i :: 0 <= i < |history| ==> DiskInv(history[i], descriptor, content))
    && (forall i :: 0 < i < |history| ==> DiskStep(history[i - 1], history[i], content))
  }

  class UploadStore {
    var state: Option<UploadState>
    var data: Option<Bytes>
    ghost var history: seq<Disk>
    ghost const descriptor: Descriptor
    ghost const content: Bytes

    ghost function Now(): Disk
      reads this
    {
      Disk(state, data)
    }

    ghost predicate Valid()
      reads this
    {
      && descriptor.size == |content| > 0 && descriptor.sha256 == content
      && history != [] && history[0] == Disk(None, None) && history[|history| - 1] == Now()
      && Lawful(history, descriptor, content)
    }

    constructor (ghost descriptor: Descriptor, ghost content: Bytes)
      requires descriptor.size == |content| > 0 && descriptor.sha256 == content
      ensures Valid() && state == None && data == None
      ensures this.descriptor == descriptor && this.content == content
    {
      this.descriptor, this.content := descriptor, content;
      state, data := None, None;
      history := [Disk(None, None)];
    }

    /** writeModJSONAtomic: the state file is the old one or the new one. */
    method WriteState(s: UploadState, fate: Fate) returns (ok: bool)
      requires Valid()
      requires DiskInv(Disk(Some(s), data), descriptor, content) && DiskStep(Now(), Disk(Some(s), data), content)
      modifies this`state, this`history
      ensures Valid() && ok == fate.Done?
      ensures state == if fate.Done? || fate.effect > 0 then Some(s) else old(state)
    {
      if fate.Done? || fate.effect > 0 {
        state := Some(s);
        history := history + [Now()];
      }
      ok := fate.Done?;
    }

    /** The chunk goes to the end of the staged file; a torn write leaves a prefix of it. */
    method AppendData(chunk: Bytes, fate: Fate) returns (ok: bool)
      requires Valid() && data.Some? && !Committed(Now()) && data.value + chunk <= content
      modifies this`data, this`history
      ensures Valid() && ok == fate.Done?
      ensures data == Some(old(data).value + if fate.Done? || fate.effect >= |chunk| then chunk else chunk[..fate.effect])
    {
      var written := if fate.Done? || fate.effect >= |chunk| then chunk else chunk[..fate.effect];
      assert data.value + written <= content;
      data := Some(data.value + written);
      history := history + [Now()];
      ok := fate.Done?;
    }

    /** loadModUploadState: what was staged beyond the recorded offset is adopted. */
    method Load(fate: Fate) returns (r: Reply, s: UploadState)
      requires Valid() && state.Some?
      modifies this`state, this`history
      ensures Valid() && data == old(data) && state.Some?
      ensures fate.Done? ==> r.Accepted?
      ensures !fate.Done? ==> r.Accepted? || r.Interrupted?
      ensures state.value.(offset := 0) == old(state).value.(offset := 0)
      ensures r.Accepted? ==> r == Accepted(s.offset, s.committed) && state == Some(s)
      ensures r.Accepted? && data.Some? ==> s.offset == |data.value|
      ensures old(state).value.committed ==> state == old(state)
    {
      s := state.value;
      r := Accepted(s.offset, s.committed);
      if s.committed && data.None? {
        return;
      }
      if data.None? || |data.value| < s.offset || |data.value| > s.descriptor.size {
        assert false;
        return Invalid, s;
      }
      if |data.value| != s.offset {
        s := s.(offset := |data.value|);
        var ok := WriteState(s, fate);
        r := if ok then Accepted(s.offset, s.committed) else Interrupted;
      }
    }

    /** beginModUpload. Once the state file exists, only its own descriptor is answered; a staged
        file without a state file is a conflict for good. */
    method Begin(request: Descriptor, fates: nat -> Fate) returns (r: Reply)
      requires Valid() && (state.None? ==> request == descriptor)
      modifies this`state, this`data, this`history
      ensures Valid()
      ensures old(state).None? && old(data).Some? ==> r == Conflict && Now() == old(Now())
      ensures old(state).Some? && request != descriptor ==> (r.Conflict? || r.Interrupted?) && data == old(data)
      ensures (forall n :: fates(n).Done?) && (old(state).Some? || old(data).None?) && request == descriptor ==>
                r.Accepted? && state.Some? && r == Accepted(state.value.offset, state.value.committed)
      ensures r.Accepted? ==> state.Some? && (data.Some? ==> r.offset == |data.value|)
    {
      if state.Some? {
        var s;
        r, s := Load(fates(0));
        if r.Accepted? && s.descriptor != request {
          r := Conflict;
        }
        return;
      }
      if data.Some? {
        return Conflict;
      }
      var fate := fates(0);
      if fate.Done? || fate.effect > 0 {
        data := Some([]);
        history := history + [Now()];
      }
      if !fate.Done? {
        return Interrupted;
      }
      var ok := WriteState(UploadState(request, 0, false), fates(1));
      r := if ok then Accepted(0, false) else Interrupted;
    }

    /** writeModUpload. The client sends slices of the content. */
    method Write(request: Descriptor, offset: nat, chunk: Bytes, fates: nat -> Fate) returns (r: Reply)
      requires Valid()
      requires request == descriptor && offset + |chunk| <= |content| ==> chunk == content[offset..offset + |chunk|]
      modifies this`state, this`data, this`history
      ensures Valid() && (old(state).None? ==> Now() == old(Now()))
      ensures r.Accepted? ==> && offset + |chunk| <= |content| && data == Some(content[..offset + |chunk|])
                              && state.Some? && state.value.offset == offset + |chunk|
      ensures ((forall n :: fates(n).Done?) && old(state).Some? && !old(state).value.committed && old(data).Some? &&
               request == descriptor && offset == |old(data).value| && 0 < |chunk| <= MAX_CHUNK &&
               offset + |chunk| <= |content|) ==> r == Accepted(offset + |chunk|, false)
      ensures old(state).Some? ==> state.Some? && state.value.committed == old(state).value.committed
    {
      if state.None? {
        return Invalid;
      }
      var s;
      r, s := Load(fates(0));
      if !r.Accepted? {
        return;
      }
      if s.descriptor != request || s.committed {
        return Conflict;
      }
      if offset != s.offset {
        return Conflict;
      }
      if chunk == [] || |chunk| > MAX_CHUNK || offset > s.descriptor.size || |chunk| > s.descriptor.size - offset {
        return Invalid;
      }
      assert data.value + chunk == content[..offset + |chunk|];
      var ok := AppendData(chunk, fates(1));
      if !ok {
        return Interrupted;
      }
      s := s.(offset := s.offset + |chunk|);
      ok := WriteState(s, fates(2));
      r := if ok then Accepted(s.offset, false) else Interrupted;
    }

    /** commitModUpload. `imported` is how the import of the staged bundle goes. */
    method Commit(request: Descriptor, imported: bool, fates: nat -> Fate) returns (r: Reply)
      requires Valid()
      modifies this`state, this`data, this`history
      ensures Valid() && (old(state).None? ==> Now() == old(Now()))
      ensures r.Accepted? ==> state.Some? && state.value.committed
      ensures !Committed(old(Now())) && Committed(Now()) ==> old(data) == Some(content) && imported
      ensures ((forall n :: fates(n).Done?) && old(state).Some? && request == descriptor && imported &&
               old(data) == Some(content)) ==> r == Accepted(|content|, true)
    {
      if state.None? {
        return Invalid;
      }
      var s;
      r, s := Load(fates(0));
      if !r.Accepted? {
        return;
      }
      if s.descriptor != request {
        return Conflict;
      }
      if s.committed {
        return Accepted(s.offset, true);
      }
      if s.offset != s.descriptor.size {
        return Incomplete;
      }
      if data.value != s.descriptor.sha256 {
        assert false;
        return Invalid;
      }
      if !imported {
        return Invalid;
      }
      s := s.(committed := true);
      var ok := WriteState(s, fates(1));
      if !ok {
        return Interrupted;
      }
      if fates(2).Done? || fates(2).effect > 0 {
        data := None;
        history := history + [Now()];
      }
      r := if fates(2).Done? then Accepted(s.offset, true) else Interrupted;
    }

    lemma HistoryPair(i: nat, j: nat)
      requires Valid() && i <= j < |history|
      ensures Committed(history[i]) ==> Committed(history[j])
      ensures history[i].data.Some? && history[j].data.Some? ==> history[i].data.value <= history[j].data.value
      ensures history[i].data.Some? && history[j].data.None? ==> Committed(history[j])
      ensures !Committed(history[i]) && Committed(history[j]) ==>
                exists k :: i <= k < j && history[k].data == Some(content)
    {
      if i < j {
        HistoryPair(i, j - 1);
        assert DiskStep(history[j - 1], history[j], content);
      }
    }

    /** A client that meets no more stops finishes any upload whose state file exists, whatever
        happened to it before: it asks for the offset, sends the rest, and commits. */
    method Resume(request: Descriptor, bytes: Bytes) returns (r: Reply)
      requires Valid() && state.Some? && request == descriptor && bytes == content
      modifies this`state, this`data, this`history
      ensures Valid() && r == Accepted(|content|, true) && Committed(Now())
    {
      var fine: nat -> Fate := _ => Done;
      r := Begin(request, fine);
      if r.complete {
        return;
      }
      while r.offset < |bytes|
        invariant Valid() && r.Accepted? && state.Some? && !state.value.committed
        invariant data.Some? && r.offset == |data.value| <= |bytes|
        decreases |bytes| - r.offset
      {
        var size := if |bytes| - r.offset < MAX_CHUNK then |bytes| - r.offset else MAX_CHUNK;
        r := Write(request, r.offset, bytes[r.offset..r.offset + size], fine);
      }
      assert data.value == content;
      r := Commit(request, true, fine);
    }
  }

  datatype Call =
    | CallBegin(request: Descriptor, fates: nat -> Fate)
    | CallWrite(request: Descriptor, offset: nat, chunk: Bytes, fates: nat -> Fate)
    | CallCommit(request: Descriptor, imported: bool, fates: nat -> Fate)

  ghost predicate Honest(c: Call, descriptor: Descriptor, content: Bytes) {
    match c
    case CallBegin(request, _) => request == descriptor
    case CallWrite(request, offset, chunk, _) =>
      request == descriptor && offset + |chunk| <= |content| ==> chunk == content[offset..offset + |chunk|]
    case CallCommit(_, _, _) => true
  }

  /** Any calls in any order, each stopping wherever it may, from an empty disk: every disk
      state on the way is lawful, and a commit came only after the whole content was staged. */
  method Session(calls: seq<Call>, ghost descriptor: Descriptor, ghost content: Bytes) returns (store: UploadStore)
    requires descriptor.size == |content| > 0 && descriptor.sha256 == content
    requires forall i :: 0 <= i < |calls| ==> Honest(calls[i], descriptor, content)
    ensures store.Valid() && store.content == content && store.descriptor == descriptor
    ensures store.history[0] == Disk(None, None)
    ensures Committed(store.Now()) ==> exists k :: 0 <= k < |store.history| && store.history[k].data == Some(content)
  {
    store := new UploadStore(descriptor, content);
    for i := 0 to |calls|
      invariant fresh(store) && store.Valid() && store.content == content && store.descriptor == descriptor
      invariant store.history[0] == Disk(None, None)
    {
      var r;
      match calls[i]
      case CallBegin(request, fates) => r := store.Begin(request, fates);
      case CallWrite(request, offset, chunk, fates) => r := store.Write(request, offset, chunk, fates);
      case CallCommit(request, imported, fates) => r := store.Commit(request, imported, fates);
    }
    store.HistoryPair(0, |store.history| - 1);
  }
}
