/**
 Command results at the server and the waiters on them, one step per critical section of
 the command mutex. A result allocates its notification channel only for a waiter.
 */
module CommandResults {
  import opened Wrappers

  type Id = string
  type Agent = string
  type Channel = nat

  datatype Status = Pending | Received | Completed | Failed

  datatype Slot = NoChannel | Open(channel: Channel)

  /** `progress` is the stored sequence, 0 while there is none: valid sequences are positive. */
  datatype Result = Result(agent: Agent, status: Status, progress: nat, endTime: int, output: string, changed: Slot) {
    predicate Terminal() {
      status.Completed? || status.Failed?
    }
  }

  /** Parked: waiting on a captured channel, with the progress captured together with it. */
  datatype Stage =
    | Looping
    | Parked(channel: Channel, progress: nat)
    | Answered(status: Status, progress: nat)
    | NotFound
    | Cancelled

  datatype Waiter = Waiter(id: Id, stage: Stage, last: nat, seen: seq<nat>)

  /** `sending`: recorded by sendCommandPayload, which has not come back yet. `returned` and
      `refused` are the ids it came back with and without. `crashed`: a failing send found no
      record and panicked with the command mutex locked, so nobody gets the mutex again. */
  datatype Server = Server(
    results: map<Id, Result>, issued: set<Id>, sending: set<Id>, returned: set<Id>, refused: set<Id>,
    channels: nat, closed: set<Channel>, waiters: seq<Waiter>, crashed: bool)

  datatype Step =
    | Register(id: Id, agent: Agent)
    | Sent(id: Id)
    | SendFailed(id: Id, now: int)
    | Ack(agent: Agent, id: Id, rejected: bool, now: int)
    | Progress(agent: Agent, id: Id, sequence: nat)
    | Response(agent: Agent, id: Id, success: bool, output: string, now: int)
    | Cleanup(cutoff: int)
    | Wait(id: Id)
    | Observe(w: nat)
    | Wake(w: nat)
    | Cancel(w: nat)

  predicate Enabled(s: Server, step: Step) {
    match step
    // Command ids are generated fresh.
    case Register(id, _) => id !in s.issued && !s.crashed
    case Sent(id) => id in s.sending
    case SendFailed(id, _) => id in s.sending && !s.crashed
    case Ack(_, _, _, _) => !s.crashed
    case Progress(_, _, sequence) => sequence > 0 && !s.crashed
    case Response(_, _, _, _, _) => !s.crashed
    case Cleanup(_) => !s.crashed
    case Wait(_) => true
    case Observe(w) => w < |s.waiters| && s.waiters[w].stage.Looping? && !s.crashed
    // Waking and giving up do not take the mutex.
    case Wake(w) => w < |s.waiters| && s.waiters[w].stage.Parked? && s.waiters[w].stage.channel in s.closed
    case Cancel(w) => w < |s.waiters| && (s.waiters[w].stage.Looping? || s.waiters[w].stage.Parked?)
  }

  /** notifyCommandResultLocked, on the result stored under `id`. */
  function Notify(s: Server, id: Id, r: Result): Server {
    s.(results := s.results[id := r.(changed := NoChannel)],
       closed := if r.changed.Open? then s.closed + {r.changed.channel} else s.closed)
  }

  function Stale(s: Server, cutoff: int): set<Id> {
    set id | id in s.results && s.results[id].endTime < cutoff
  }

  function ChannelsOf(s: Server, ids: set<Id>): set<Channel> {
    set id | id in ids && id in s.results && s.results[id].changed.Open? :: s.results[id].changed.channel
  }

  function Outcome(success: bool): Status {
    if success then Completed else Failed
  }

  /** One turn of WaitCommandResult up to its select: the result and its channel are captured
      together, news is passed to the callback, a terminal result is returned. */
  function Look(s: Server, w: nat): Server
    requires w < |s.waiters|
  {
    var waiter := s.waiters[w];
    if waiter.id !in s.results then s.(waiters := s.waiters[w := waiter.(stage := NotFound)])
    else
      var r := s.results[waiter.id];
      var allocate := !r.Terminal() && r.changed.NoChannel?;
      var r' := if allocate then r.(changed := Open(s.channels)) else r;
      var told := if r.progress > waiter.last
                  then waiter.(last := r.progress, seen := waiter.seen + [r.progress]) else waiter;
      var waiter' := told.(stage := if r.Terminal() then Answered(r.status, r.progress)
                                    else Parked(r'.changed.channel, r.progress));
      s.(results := s.results[waiter.id := r'],
         channels := if allocate then s.channels + 1 else s.channels,
         waiters := s.waiters[w := waiter'])
  }

  function Do(s: Server, step: Step): Server
    requires Enabled(s, step)
  {
    match step
    case Register(id, agent) =>
      s.(results := s.results[id := Result(agent, Pending, 0, 0, "", NoChannel)],
         issued := s.issued + {id}, sending := s.sending + {id})
    case Sent(id) => s.(sending := s.sending - {id}, returned := s.returned + {id})
    // The failure paths of sendCommandPayload do not notify, and do not look for the record.
    case SendFailed(id, now) =>
      if id !in s.results then s.(crashed := true, sending := s.sending - {id})
      else s.(results := s.results[id := s.results[id].(status := Failed, endTime := now)],
              sending := s.sending - {id}, refused := s.refused + {id})
    case Ack(agent, id, rejected, now) =>
      if id !in s.results || s.results[id].agent != agent || s.results[id].Terminal() then s
      else if rejected then Notify(s, id, s.results[id].(status := Failed, endTime := now))
      else s.(results := s.results[id := s.results[id].(status := Received)])
    case Progress(agent, id, sequence) =>
      if id !in s.results || s.results[id].agent != agent || s.results[id].Terminal() ||
         s.results[id].progress >= sequence then s
      else Notify(s, id, s.results[id].(progress := sequence))
    case Response(agent, id, success, output, now) =>
      if id !in s.results then
        s.(results := s.results[id := Result(agent, Outcome(success), 0, now, output, NoChannel)],
           issued := s.issued + {id})
      else if s.results[id].agent != agent then s
      else Notify(s, id, s.results[id].(status := Outcome(success), endTime := now, output := output))
    case Cleanup(cutoff) =>
      var stale := Stale(s, cutoff);
      s.(results := s.results - stale, closed := s.closed + ChannelsOf(s, stale))
    case Wait(id) => s.(waiters := s.waiters + [Waiter(id, Looping, 0, [])])
    case Observe(w) => Look(s, w)
    case Wake(w) => s.(waiters := s.waiters[w := s.waiters[w].(stage := Looping)])
    case Cancel(w) => s.(waiters := s.waiters[w := s.waiters[w].(stage := Cancelled)])
  }

  const START := Server(map[], {}, {}, {}, {}, 0, {}, [], false)

  predicate Behavior(ss: seq<Server>, steps: seq<Step>) {
    && |ss| == |steps| + 1 && ss[0] == START
    && forall i :: 0 <= i < |steps| ==> Enabled(ss[i], steps[i]) && ss[i + 1] == Do(ss[i], steps[i])
  }

  // ---------------------------------------------------------------- invariants

  predicate IdsInv(s: Server) {
    && s.results.Keys <= s.issued && s.sending <= s.issued
    && s.sending !! s.returned && s.sending !! s.refused && s.returned !! s.refused
    && s.returned <= s.issued && s.refused <= s.issued
  }

  /** Attached channels are allocated, open, and belong to one result. */
  ghost predicate ChannelsInv(s: Server) {
    && (forall id :: id in s.results && s.results[id].changed.Open? ==>
                       s.results[id].changed.channel < s.channels && s.results[id].changed.channel !in s.closed)
    && (forall i, j :: (i in s.results && j in s.results && s.results[i].changed.Open?
                        && s.results[i].changed == s.results[j].changed) ==> i == j)
    && (forall c :: c in s.closed ==> c < s.channels)
  }

  /** The record still holds the captured channel, so the next news closes it. */
  predicate Attached(s: Server, w: Waiter)
    requires w.stage.Parked?
  {
    w.id in s.results && s.results[w.id].changed == Open(w.stage.channel)
  }

  /** Nothing has happened to the result since the waiter captured it. */
  predicate Unchanged(s: Server, w: Waiter)
    requires w.stage.Parked?
  {
    Attached(s, w) && s.results[w.id].progress == w.stage.progress && !s.results[w.id].Terminal()
  }

  predicate ParkedInv(s: Server, w: Waiter) {
    w.stage.Parked? ==>
      && w.stage.channel < s.channels
      && (w.stage.channel in s.closed || Unchanged(s, w) ||
          (Attached(s, w) && s.results[w.id].Terminal() && w.id in s.refused))
  }

  predicate Increasing(q: seq<nat>) {
    forall i, j :: 0 <= i < j < |q| ==> q[i] < q[j]
  }

  predicate SeenInv(s: Server, w: Waiter) {
    && Increasing(w.seen) && (forall i :: 0 <= i < |w.seen| ==> 0 < w.seen[i] <= w.last)
    && w.last == (if w.seen == [] then 0 else w.seen[|w.seen| - 1])
    && (w.last > 0 ==> w.id in s.issued)
    && (w.id in s.results ==> w.last <= s.results[w.id].progress ||
                              (s.results[w.id].Terminal() && s.results[w.id].progress == 0))
    && (w.stage.Answered? ==> w.stage.progress == 0 || w.stage.progress == w.last)
  }

  ghost predicate Inv(s: Server) {
    && IdsInv(s) && ChannelsInv(s)
    && (forall i :: 0 <= i < |s.waiters| ==> ParkedInv(s, s.waiters[i]))
    && (forall i :: 0 <= i < |s.waiters| ==> SeenInv(s, s.waiters[i]))
  }

  lemma IdsKept(s: Server, step: Step)
    requires IdsInv(s) && Enabled(s, step)
    ensures IdsInv(Do(s, step))
  {
  }

  lemma LookKeepsChannels(s: Server, w: nat)
    requires ChannelsInv(s) && w < |s.waiters|
    ensures ChannelsInv(Look(s, w))
  {
  }

  lemma NotifyKeepsChannels(s: Server, id: Id, r: Result)
    requires ChannelsInv(s) && id in s.results && r.changed == s.results[id].changed
    ensures ChannelsInv(Notify(s, id, r))
  {
  }

  lemma CleanupKeepsChannels(s: Server, cutoff: int)
    requires ChannelsInv(s) && Enabled(s, Cleanup(cutoff))
    ensures ChannelsInv(Do(s, Cleanup(cutoff)))
  {
    var stale := Stale(s, cutoff);
    forall c | c in ChannelsOf(s, stale) ensures c < s.channels {
      var id :| id in stale && id in s.results && s.results[id].changed == Open(c);
    }
  }

  lemma ChannelsKept(s: Server, step: Step)
    requires ChannelsInv(s) && Enabled(s, step)
    ensures ChannelsInv(Do(s, step))
  {
    match step
    case Observe(w) => LookKeepsChannels(s, w);
    case Cleanup(cutoff) => CleanupKeepsChannels(s, cutoff);
    case Ack(_, id, _, now) =>
      if id in s.results {
        NotifyKeepsChannels(s, id, s.results[id].(status := Failed, endTime := now));
      }
    case Progress(_, id, sequence) =>
      if id in s.results {
        NotifyKeepsChannels(s, id, s.results[id].(progress := sequence));
      }
    case Response(_, id, success, output, now) =>
      if id in s.results {
        NotifyKeepsChannels(s, id, s.results[id].(status := Outcome(success), endTime := now, output := output));
      }
    case _ =>
  }

  lemma LookKeepsParked(s: Server, w: nat, i: nat)
    requires ChannelsInv(s) && w < |s.waiters| && i < |s.waiters| && ParkedInv(s, s.waiters[i])
    ensures ParkedInv(Look(s, w), Look(s, w).waiters[i])
  {
  }

  lemma MessageKeepsParked(s: Server, step: Step, i: nat)
    requires ChannelsInv(s) && Enabled(s, step) && i < |s.waiters| && ParkedInv(s, s.waiters[i])
    requires step.Ack? || step.Progress? || step.Response? || step.Cleanup?
    ensures ParkedInv(Do(s, step), Do(s, step).waiters[i])
  {
  }

  lemma CallKeepsParked(s: Server, step: Step, i: nat)
    requires IdsInv(s) && Enabled(s, step) && i < |Do(s, step).waiters|
    requires i < |s.waiters| ==> ParkedInv(s, s.waiters[i])
    requires !(step.Ack? || step.Progress? || step.Response? || step.Cleanup? || step.Observe?)
    ensures ParkedInv(Do(s, step), Do(s, step).waiters[i])
  {
  }

  lemma SameWaiters(s: Server, step: Step)
    requires Enabled(s, step)
    ensures step.Ack? || step.Progress? || step.Response? || step.Cleanup? ==> Do(s, step).waiters == s.waiters
    ensures step.Observe? ==> Do(s, step) == Look(s, step.w) && |Do(s, step).waiters| == |s.waiters| && step.w < |s.waiters|
  {
  }

  lemma ParkedKept(s: Server, step: Step, i: nat)
    requires IdsInv(s) && ChannelsInv(s) && Enabled(s, step)
    requires i < |Do(s, step).waiters|
    requires i < |s.waiters| ==> ParkedInv(s, s.waiters[i])
    ensures ParkedInv(Do(s, step), Do(s, step).waiters[i])
  {
    hide Do, Enabled, Look, ParkedInv, IdsInv, ChannelsInv;
    SameWaiters(s, step);
    if step.Ack? || step.Progress? || step.Response? || step.Cleanup? {
      MessageKeepsParked(s, step, i);
    } else if step.Observe? {
      LookKeepsParked(s, step.w, i);
    } else {
      CallKeepsParked(s, step, i);
    }
  }

  lemma LookKeepsResults(s: Server, w: nat, id: Id)
    requires w < |s.waiters|
    ensures id in Look(s, w).results <==> id in s.results
    ensures id in s.results ==> Look(s, w).results[id].(changed := NoChannel) == s.results[id].(changed := NoChannel)
    ensures Look(s, w).issued == s.issued && |Look(s, w).waiters| == |s.waiters|
    ensures forall i :: 0 <= i < |s.waiters| && i != w ==> Look(s, w).waiters[i] == s.waiters[i]
  {
  }

  /** What a look makes of the waiter itself. */
  lemma LookTells(s: Server, w: nat)
    requires w < |s.waiters|
    ensures var was, next := s.waiters[w], Look(s, w).waiters[w];
            && next.id == was.id
            && (was.id !in s.results ==> next == was.(stage := NotFound))
            && (was.id in s.results ==>
                  var p := s.results[was.id].progress;
                  && (if p > was.last then next.last == p && next.seen == was.seen + [p]
                      else next.last == was.last && next.seen == was.seen)
                  && (next.stage.Answered? ==> next.stage.progress == p && s.results[was.id].Terminal()))
  {
  }

  lemma LookKeepsSeen(s: Server, w: nat, i: nat)
    requires IdsInv(s) && w < |s.waiters| && i < |s.waiters| && SeenInv(s, s.waiters[i])
    ensures SeenInv(Look(s, w), Look(s, w).waiters[i])
  {
    hide Look;
    LookKeepsResults(s, w, s.waiters[i].id);
    LookTells(s, w);
  }

  lemma SeenKept(s: Server, step: Step, i: nat)
    requires IdsInv(s) && Enabled(s, step)
    requires i < |Do(s, step).waiters|
    requires i < |s.waiters| ==> SeenInv(s, s.waiters[i])
    ensures SeenInv(Do(s, step), Do(s, step).waiters[i])
  {
    if step.Observe? {
      LookKeepsSeen(s, step.w, i);
    }
  }

  lemma StepKeeps(s: Server, step: Step)
    requires Inv(s) && Enabled(s, step)
    ensures Inv(Do(s, step))
  {
    IdsKept(s, step);
    ChannelsKept(s, step);
    forall i | 0 <= i < |Do(s, step).waiters|
      ensures ParkedInv(Do(s, step), Do(s, step).waiters[i]) && SeenInv(Do(s, step), Do(s, step).waiters[i])
    {
      ParkedKept(s, step, i);
      SeenKept(s, step, i);
    }
  }

  lemma {:induction false} RunKeeps(ss: seq<Server>, steps: seq<Step>, n: nat)
    requires Behavior(ss, steps) && n < |ss|
    ensures Inv(ss[n])
  {
    if n > 0 {
      RunKeeps(ss, steps, n - 1);
      StepKeeps(ss[n - 1], steps[n - 1]);
    }
  }

  // ---------------------------------------------------------------- waiters

  /** No lost wakeup. For every id, a parked waiter can wake exactly when its record is gone or
      holds the captured channel no more; and a record that still holds it is as captured,
      unless its send failed. */
  lemma NoLostWakeup(ss: seq<Server>, steps: seq<Step>, n: nat, w: nat)
    requires Behavior(ss, steps) && n < |ss| && w < |ss[n].waiters| && ss[n].waiters[w].stage.Parked?
    ensures Enabled(ss[n], Wake(w)) <==> !Attached(ss[n], ss[n].waiters[w])
    ensures ss[n].waiters[w].id !in ss[n].refused ==> (Enabled(ss[n], Wake(w)) <==> !Unchanged(ss[n], ss[n].waiters[w]))
  {
    RunKeeps(ss, steps, n);
    assert ParkedInv(ss[n], ss[n].waiters[w]);
  }

  /** So a waiter that is parked on a finished result wakes, and unless the server has crashed
      it then looks and answers with that result's status. */
  lemma FinishedResultIsReturned(ss: seq<Server>, steps: seq<Step>, n: nat, w: nat)
    requires Behavior(ss, steps) && n < |ss| && w < |ss[n].waiters|
    requires ss[n].waiters[w].stage.Parked? && ss[n].waiters[w].id !in ss[n].refused
    requires ss[n].waiters[w].id in ss[n].results && ss[n].results[ss[n].waiters[w].id].Terminal()
    ensures Enabled(ss[n], Wake(w)) && (Enabled(Do(ss[n], Wake(w)), Observe(w)) <==> !ss[n].crashed)
    ensures var r := ss[n].results[ss[n].waiters[w].id];
            !ss[n].crashed ==>
              Do(Do(ss[n], Wake(w)), Observe(w)).waiters[w].stage == Answered(r.status, r.progress)
  {
    NoLostWakeup(ss, steps, n, w);
  }

  /** A send that fails leaves a finished result, and strands exactly the waiters that were
      parked on it with their channel open. */
  lemma FailedSendStrands(ss: seq<Server>, steps: seq<Step>, n: nat, id: Id, now: int, w: nat)
    requires Behavior(ss, steps) && n < |ss| && Enabled(ss[n], SendFailed(id, now)) && id in ss[n].results
    requires w < |ss[n].waiters| && ss[n].waiters[w].stage.Parked? && ss[n].waiters[w].id == id
    ensures var s := Do(ss[n], SendFailed(id, now));
            && s.results[id].Terminal()
            && (Enabled(s, Wake(w)) <==> ss[n].waiters[w].stage.channel in ss[n].closed)
            && (Enabled(s, Wake(w)) <==> !Attached(s, s.waiters[w]))
  {
    RunKeeps(ss, steps, n);
    assert ParkedInv(ss[n], ss[n].waiters[w]);
  }

  /** The callback sees strictly increasing sequences, and when a result is returned with
      progress, the last one it saw is that progress. */
  lemma CallbackSequences(ss: seq<Server>, steps: seq<Step>, n: nat, w: nat)
    requires Behavior(ss, steps) && n < |ss| && w < |ss[n].waiters|
    ensures Increasing(ss[n].waiters[w].seen)
    ensures var waiter := ss[n].waiters[w];
            waiter.stage.Answered? && waiter.stage.progress > 0 ==>
              waiter.seen != [] && waiter.seen[|waiter.seen| - 1] == waiter.stage.progress
  {
    RunKeeps(ss, steps, n);
    assert SeenInv(ss[n], ss[n].waiters[w]);
  }

  /** An id that sendCommandPayload returned never is a refused one. */
  lemma ReturnedIsNotRefused(ss: seq<Server>, steps: seq<Step>, n: nat, id: Id)
    requires Behavior(ss, steps) && n < |ss| && id in ss[n].returned
    ensures id !in ss[n].refused
  {
    RunKeeps(ss, steps, n);
  }

  /** A run that strands one: somebody waits for an id before sendCommandPayload has returned
      it, and the send then fails. */
  lemma RefusedSendLosesWakeup(id: Id, agent: Agent) returns (ss: seq<Server>, steps: seq<Step>)
    ensures Behavior(ss, steps) && |ss| == 5 && |ss[4].waiters| == 1
    ensures var s, w := ss[4], ss[4].waiters[0];
            w.stage.Parked? && w.id in s.results && s.results[w.id].Terminal() && !Enabled(s, Wake(0))
  {
    var pending := Result(agent, Pending, 0, 0, "", NoChannel);
    var waiter := Waiter(id, Looping, 0, []);
    var s1 := START.(results := map[id := pending], issued := {id}, sending := {id});
    var s2 := s1.(waiters := [waiter]);
    var s3 := s2.(results := map[id := pending.(changed := Open(0))], channels := 1,
                  waiters := [waiter.(stage := Parked(0, 0))]);
    var s4 := s3.(results := map[id := pending.(changed := Open(0), status := Failed, endTime := 1)],
                  sending := {}, refused := {id});
    ss, steps := [START, s1, s2, s3, s4], [Register(id, agent), Wait(id), Observe(0), SendFailed(id, 1)];
    assert Do(START, steps[0]) == s1;
    assert Do(s1, steps[1]) == s2;
    assert Do(s2, steps[2]) == s3;
    assert Do(s3, steps[3]) == s4;
  }

  // ---------------------------------------------------------------- results

  /** Final, or gone for good: the id is used up, and only a reply can bring a record back. */
  predicate Settled(s: Server, id: Id) {
    id in s.issued && (id in s.results ==> s.results[id].Terminal())
  }

  /** Sequence numbers are at least `p`, or the record was replaced by a final one without progress. */
  predicate AtLeast(s: Server, id: Id, p: nat) {
    && id in s.issued
    && (id in s.results ==>
          s.results[id].progress >= p || (s.results[id].Terminal() && s.results[id].progress == 0))
  }

  predicate FixedAt(s: Server, id: Id, p: nat) {
    && Settled(s, id)
    && (id in s.results ==> s.results[id].progress == p || s.results[id].progress == 0)
  }

  lemma StepAdvances(s: Server, step: Step, id: Id, p: nat)
    requires IdsInv(s) && Enabled(s, step)
    ensures FixedAt(s, id, p) ==> FixedAt(Do(s, step), id, p)
    ensures AtLeast(s, id, p) ==> AtLeast(Do(s, step), id, p)
  {
  }

  /** A final result never becomes pending or received again and its progress stops; stored
      progress never goes back; over any order of messages and cleanups. */
  lemma {:induction false} ResultsAdvance(ss: seq<Server>, steps: seq<Step>, i: nat, j: nat, id: Id)
    requires Behavior(ss, steps) && i <= j < |ss| && id in ss[i].results
    ensures ss[i].results[id].Terminal() ==> FixedAt(ss[j], id, ss[i].results[id].progress)
    ensures AtLeast(ss[j], id, ss[i].results[id].progress)
  {
    hide Do, Enabled;
    RunKeeps(ss, steps, i);
    if i < j {
      ResultsAdvance(ss, steps, i, j - 1, id);
      RunKeeps(ss, steps, j - 1);
      StepAdvances(ss[j - 1], steps[j - 1], id, ss[i].results[id].progress);
    }
  }

  /** One message: progress moves only forward and only before the end, a result keeps its
      agent, and a message from another agent changes nothing. */
  lemma MessageEffect(s: Server, step: Step, id: Id)
    requires Inv(s) && Enabled(s, step)
    requires id in s.results && id in Do(s, step).results
    ensures var r, r' := s.results[id], Do(s, step).results[id];
            && r'.agent == r.agent
            && (r'.progress != r.progress ==> !r.Terminal() && !r'.Terminal() && r'.progress > r.progress)
            && (r.Terminal() ==> r'.Terminal())
    ensures (step.Ack? || step.Progress? || step.Response?) && step.id == id && step.agent != s.results[id].agent
            ==> Do(s, step) == s
  {
  }

  // ---------------------------------------------------------------- clean-up

  ghost predicate NoEnds(s: Server) {
    forall id :: id in s.results && !s.results[id].Terminal() ==> s.results[id].endTime == 0
  }

  lemma NoEndsKept(s: Server, step: Step)
    requires NoEnds(s) && Enabled(s, step)
    ensures NoEnds(Do(s, step))
  {
  }

  lemma {:induction false} UnfinishedHaveNoEnd(ss: seq<Server>, steps: seq<Step>, n: nat)
    requires Behavior(ss, steps) && n < |ss|
    ensures NoEnds(ss[n])
  {
    if n > 0 {
      UnfinishedHaveNoEnd(ss, steps, n - 1);
      NoEndsKept(ss[n - 1], steps[n - 1]);
    }
  }

  predicate ParkedOn(s: Server, w: Waiter, id: Id) {
    w.stage.Parked? && w.id == id && Unchanged(s, w)
  }

  /** Clean-up is meant to keep recent records, but it goes by the end time, which is 0 until
      there is one: with any positive cutoff it drops every command still under way, and
      whoever is parked on one wakes to find no record. */
  lemma CleanupDropsUnfinished(ss: seq<Server>, steps: seq<Step>, n: nat, cutoff: int, id: Id)
    requires Behavior(ss, steps) && n < |ss| && cutoff > 0 && Enabled(ss[n], Cleanup(cutoff))
    requires id in ss[n].results
    ensures id !in Do(ss[n], Cleanup(cutoff)).results <==>
            !ss[n].results[id].Terminal() || ss[n].results[id].endTime < cutoff
    ensures !ss[n].results[id].Terminal() ==>
              forall w :: 0 <= w < |ss[n].waiters| && ParkedOn(ss[n], ss[n].waiters[w], id)
                          ==> Enabled(Do(ss[n], Cleanup(cutoff)), Wake(w))
  {
    UnfinishedHaveNoEnd(ss, steps, n);
    if !ss[n].results[id].Terminal() && ss[n].results[id].changed.Open? {
      assert id in Stale(ss[n], cutoff);
      assert ss[n].results[id].changed.channel in ChannelsOf(ss[n], Stale(ss[n], cutoff));
    }
  }

  // ---------------------------------------------------------------- failing sends

  /** What the steps tell of a record: whose it is, and when it ended. */
  datatype Account = Account(agent: Agent, ended: Option<int>)

  function EndTime(told: Option<Account>): int {
    if told.Some? && told.value.ended.Some? then told.value.ended.value else 0
  }

  /** One step's news of `id`. A reply to nothing makes a record; a clean-up drops one whose
      end time, 0 while there is none, lies before its cutoff. */
  function Hear(told: Option<Account>, step: Step, id: Id): Option<Account> {
    match step
    case Register(i, agent) => if i == id then Some(Account(agent, None)) else told
    case SendFailed(i, now) => if i == id && told.Some? then Some(told.value.(ended := Some(now))) else told
    case Ack(agent, i, rejected, now) =>
      if i == id && rejected && told == Some(Account(agent, None)) then Some(Account(agent, Some(now))) else told
    case Response(agent, i, _, _, now) =>
      if i == id && (told.None? || told.value.agent == agent) then Some(Account(agent, Some(now))) else told
    case Cleanup(cutoff) => if EndTime(told) < cutoff then None else told
    case _ => told
  }

  function Told(steps: seq<Step>, id: Id): Option<Account> {
    if steps == [] then None else Hear(Told(steps[..|steps| - 1], id), steps[|steps| - 1], id)
  }

  function AccountOf(s: Server, id: Id): Option<Account> {
    if id !in s.results then None
    else Some(Account(s.results[id].agent, if s.results[id].Terminal() then Some(s.results[id].endTime) else None))
  }

  lemma HearsAll(s: Server, step: Step, id: Id)
    requires NoEnds(s) && Enabled(s, step)
    ensures AccountOf(Do(s, step), id) == Hear(AccountOf(s, id), step, id)
  {
  }

  /** The steps taken tell whether there is a record, whose it is and when it ended. */
  lemma {:induction false} StepsTell(ss: seq<Server>, steps: seq<Step>, n: nat, id: Id)
    requires Behavior(ss, steps) && n < |ss|
    ensures AccountOf(ss[n], id) == Told(steps[..n], id)
  {
    hide Do, Enabled, Hear, AccountOf;
    if n > 0 {
      StepsTell(ss, steps, n - 1, id);
      UnfinishedHaveNoEnd(ss, steps, n - 1);
      HearsAll(ss[n - 1], steps[n - 1], id);
      assert steps[..n][..n - 1] == steps[..n - 1];
    } else {
      NothingTold(id);
    }
  }

  lemma NothingTold(id: Id)
    ensures AccountOf(START, id) == None
  {
  }

  /** Step c is a clean-up whose cutoff lies after the end time that the steps before it tell. */
  predicate Drops(steps: seq<Step>, c: nat, id: Id)
    requires c < |steps|
  {
    steps[c].Cleanup? && EndTime(Told(steps[..c], id)) < steps[c].cutoff
  }

  predicate NoReply(steps: seq<Step>, i: nat, k: nat, id: Id)
    requires k <= |steps|
  {
    forall j :: i < j < k ==> !(steps[j].Response? && steps[j].id == id)
  }

  /** Between r and k a clean-up has dropped the record, and no reply has put it back since. */
  ghost predicate DroppedBetween(steps: seq<Step>, r: nat, k: nat, id: Id)
    requires k <= |steps|
  {
    exists c :: r < c < k && Drops(steps, c, id) && NoReply(steps, c, k, id)
  }

  lemma OneMoreStep(steps: seq<Step>, r: nat, k: nat, id: Id)
    requires r < k < |steps|
    ensures DroppedBetween(steps, r, k + 1, id) <==>
            Drops(steps, k, id) || (DroppedBetween(steps, r, k, id) && !(steps[k].Response? && steps[k].id == id))
  {
    assert Drops(steps, k, id) ==> NoReply(steps, k, k + 1, id);
    forall c | r < c < k
      ensures NoReply(steps, c, k + 1, id) <==> NoReply(steps, c, k, id) && !(steps[k].Response? && steps[k].id == id)
    {
    }
  }

  lemma StepsOver(s: Server, step: Step, id: Id)
    requires NoEnds(s) && Enabled(s, step) && !(step.Register? && step.id == id)
    ensures id !in Do(s, step).results <==>
            || (step.Cleanup? && EndTime(AccountOf(s, id)) < step.cutoff)
            || (id !in s.results && !(step.Response? && step.id == id))
  {
  }

  /** When a command's record is missing: exactly when, since it was made, a clean-up has
      dropped it and no reply has put it back. */
  lemma {:induction false} RecordMissing(ss: seq<Server>, steps: seq<Step>, r: nat, k: nat, id: Id)
    requires Behavior(ss, steps) && r < k < |ss| && steps[r].Register? && steps[r].id == id
    ensures id !in ss[k].results <==> DroppedBetween(steps, r, k, id)
  {
    hide Do, Enabled, Told, Drops, DroppedBetween, Hear, AccountOf;
    if k == r + 1 {
      JustRegistered(ss, steps, r);
      NothingBetween(steps, r, id);
    } else {
      RecordMissing(ss, steps, r, k - 1, id);
      IssuedStays(ss, steps, r, k - 1);
      OneMoreStep(steps, r, k - 1, id);
      UnfinishedHaveNoEnd(ss, steps, k - 1);
      NotAgain(ss[k - 1], steps[k - 1], id);
      StepsOver(ss[k - 1], steps[k - 1], id);
      StepsTell(ss, steps, k - 1, id);
      DropsWhen(steps, k - 1, id);
    }
  }

  lemma DropsWhen(steps: seq<Step>, c: nat, id: Id)
    requires c < |steps|
    ensures Drops(steps, c, id) <==> steps[c].Cleanup? && EndTime(Told(steps[..c], id)) < steps[c].cutoff
  {
  }

  lemma NothingBetween(steps: seq<Step>, r: nat, id: Id)
    requires r < |steps|
    ensures !DroppedBetween(steps, r, r + 1, id)
  {
  }

  lemma JustRegistered(ss: seq<Server>, steps: seq<Step>, r: nat)
    requires Behavior(ss, steps) && r < |steps| && steps[r].Register?
    ensures steps[r].id in ss[r + 1].results && steps[r].id in ss[r + 1].issued
  {
  }

  lemma NotAgain(s: Server, step: Step, id: Id)
    requires Enabled(s, step) && id in s.issued
    ensures !(step.Register? && step.id == id) && id in Do(s, step).issued
  {
  }

  lemma {:induction false} IssuedStays(ss: seq<Server>, steps: seq<Step>, r: nat, k: nat)
    requires Behavior(ss, steps) && r < k < |ss| && steps[r].Register?
    ensures steps[r].id in ss[k].issued
  {
    hide Do, Enabled;
    if k == r + 1 {
      JustRegistered(ss, steps, r);
    } else {
      IssuedStays(ss, steps, r, k - 1);
      NotAgain(ss[k - 1], steps[k - 1], steps[r].id);
    }
  }

  /** A send that failed without any answer from the Agent finds its record exactly when no
      clean-up with a positive cutoff has come since it was made. */
  lemma UnansweredSend(ss: seq<Server>, steps: seq<Step>, r: nat, k: nat, id: Id)
    requires Behavior(ss, steps) && r < k < |ss| && steps[r].Register? && steps[r].id == id
    requires forall j :: r < j < k ==> !Ends(steps[j], id)
    ensures id in ss[k].results <==> forall c :: r < c < k && steps[c].Cleanup? ==> steps[c].cutoff <= 0
  {
    hide Do, Enabled, Told, Hear, AccountOf;
    RecordMissing(ss, steps, r, k, id);
    forall c | r < c < k && steps[c].Cleanup? ensures Drops(steps, c, id) <==> steps[c].cutoff > 0 {
      UnansweredHasNoEnd(ss, steps, r, c, id);
    }
    if c: nat :| r < c < k && steps[c].Cleanup? && steps[c].cutoff > 0 {
      assert Drops(steps, c, id) && NoReply(steps, c, k, id);
    }
  }

  /** The messages that can end a command. */
  predicate Ends(step: Step, id: Id) {
    || ((step.Response? || step.SendFailed?) && step.id == id)
    || (step.Ack? && step.rejected && step.id == id)
  }

  lemma {:induction false} UnansweredHasNoEnd(ss: seq<Server>, steps: seq<Step>, r: nat, c: nat, id: Id)
    requires Behavior(ss, steps) && r < c < |ss| && steps[r].Register? && steps[r].id == id
    requires forall j :: r < j < c ==> !Ends(steps[j], id)
    ensures EndTime(Told(steps[..c], id)) == 0
  {
    hide Do, Enabled;
    assert steps[..c][..c - 1] == steps[..c - 1];
    if c > r + 1 {
      UnansweredHasNoEnd(ss, steps, r, c - 1, id);
      IssuedStays(ss, steps, r, c - 1);
      NotAgain(ss[c - 1], steps[c - 1], id);
    }
  }

  // ---------------------------------------------------------------- the crash

  /** A failing send at k, recorded at r, whose record a clean-up has dropped in between. */
  ghost predicate FatalSend(steps: seq<Step>, r: nat, k: nat)
    requires r < k < |steps|
  {
    && steps[k].SendFailed? && steps[r].Register? && steps[r].id == steps[k].id
    && DroppedBetween(steps, r, k, steps[k].id)
  }

  ghost predicate Fatal(steps: seq<Step>, n: nat)
    requires n <= |steps|
  {
    exists r: nat, k: nat :: r < k < n && FatalSend(steps, r, k)
  }

  lemma {:induction false} SendingWasRegistered(ss: seq<Server>, steps: seq<Step>, n: nat, id: Id)
    requires Behavior(ss, steps) && n < |ss| && id in ss[n].sending
    ensures exists r :: 0 <= r < n && steps[r].Register? && steps[r].id == id
  {
    if n > 0 && id in ss[n - 1].sending {
      SendingWasRegistered(ss, steps, n - 1, id);
    } else {
      assert steps[n - 1].Register? && steps[n - 1].id == id;
    }
  }

  lemma CrashStep(s: Server, step: Step)
    requires Enabled(s, step)
    ensures Do(s, step).crashed <==> s.crashed || (step.SendFailed? && step.id !in s.results)
    ensures step.SendFailed? ==> step.id in s.sending
    ensures s.crashed ==> Do(s, step).results == s.results && Do(s, step).closed == s.closed
  {
  }

  /** The server crashes exactly by a failing send whose record a clean-up has dropped and no
      reply has put back. */
  lemma {:induction false} CrashesExactly(ss: seq<Server>, steps: seq<Step>, n: nat)
    requires Behavior(ss, steps) && n < |ss|
    ensures ss[n].crashed <==> Fatal(steps, n)
  {
    hide Do, Enabled, FatalSend;
    if n > 0 {
      var k := n - 1;
      CrashesExactly(ss, steps, k);
      CrashStep(ss[k], steps[k]);
      forall r: nat | r < k ensures FatalSend(steps, r, k) <==>
                                    steps[k].SendFailed? && steps[k].id !in ss[k].results &&
                                    steps[r].Register? && steps[r].id == steps[k].id
      {
        FatalWhen(ss, steps, r, k);
      }
      if steps[k].SendFailed? {
        SendingWasRegistered(ss, steps, k, steps[k].id);
      }
    }
  }

  lemma FatalWhen(ss: seq<Server>, steps: seq<Step>, r: nat, k: nat)
    requires Behavior(ss, steps) && r < k < |steps|
    ensures FatalSend(steps, r, k) <==>
            steps[k].SendFailed? && steps[k].id !in ss[k].results && steps[r].Register? && steps[r].id == steps[k].id
  {
    hide Do, Enabled, DroppedBetween;
    if steps[k].SendFailed? && steps[r].Register? && steps[r].id == steps[k].id {
      RecordMissing(ss, steps, r, k, steps[k].id);
    }
  }

  /** After a crash no record changes and no channel closes: a waiter that is parked with its
      channel open stays so, unless it gives up. */
  lemma {:induction false} CrashStops(ss: seq<Server>, steps: seq<Step>, i: nat, j: nat)
    requires Behavior(ss, steps) && i <= j < |ss| && ss[i].crashed
    ensures ss[j].crashed && ss[j].results == ss[i].results && ss[j].closed == ss[i].closed
  {
    hide Do, Enabled;
    if i < j {
      CrashStops(ss, steps, i, j - 1);
      CrashStep(ss[j - 1], steps[j - 1]);
    }
  }

  /** The shortest such run. */
  lemma CleanupCrashesSend(id: Id, agent: Agent) returns (ss: seq<Server>, steps: seq<Step>)
    ensures Behavior(ss, steps) && |ss| == 4 && ss[3].crashed
    ensures id in ss[2].sending && id !in ss[2].results
  {
    var s1 := START.(results := map[id := Result(agent, Pending, 0, 0, "", NoChannel)], issued := {id}, sending := {id});
    var s2 := s1.(results := map[]);
    ss, steps := [START, s1, s2, s2.(crashed := true, sending := {})], [Register(id, agent), Cleanup(1), SendFailed(id, 2)];
    assert Do(START, steps[0]) == s1;
    assert Do(s1, steps[1]) == s2 by {
      assert Stale(s1, 1) == {id} && ChannelsOf(s1, {id}) == {};
    }
    assert Do(s2, steps[2]) == ss[3];
  }
}
