/**
 One application generation: start hooks in order, stop hooks in reverse, workers that run
 between a successful Start and the end of a Close that waits. The log records every hook.
 */
module Application {
  import opened Wrappers

  datatype Event = Up(n: nat) | Down(n: nat) | Spawn(n: nat) | Final(n: nat)

  function Ups(n: nat): seq<Event> {
    seq(n, i requires 0 <= i < n => Up(i))
  }

  function Spawns(n: nat): seq<Event> {
    seq(n, i requires 0 <= i < n => Spawn(i))
  }

  function Downs(n: nat): seq<Event> {
    seq(n, i requires 0 <= i < n => Down(n - 1 - i))
  }

  function Finals(n: nat): seq<Event> {
    seq(n, i requires 0 <= i < n => Final(n - 1 - i))
  }

  function DownsIn(log: seq<Event>): seq<Event> {
    if log == [] then []
    else DownsIn(log[..|log| - 1]) + if log[|log| - 1].Down? then [log[|log| - 1]] else []
  }

  lemma {:induction false} DownsInAdds(a: seq<Event>, b: seq<Event>)
    ensures DownsIn(a + b) == DownsIn(a) + DownsIn(b)
  {
    if b == [] {
      assert a + b == a;
    } else {
      var n := |b| - 1;
      assert (a + b)[..|a + b| - 1] == a + b[..n];
      DownsInAdds(a, b[..n]);
    }
  }

  lemma {:induction false} DownsInDowns(s: seq<Event>)
    requires forall e :: e in s ==> e.Down?
    ensures DownsIn(s) == s
  {
    if s != [] {
      DownsInDowns(s[..|s| - 1]);
      assert s[|s| - 1] in s;
    }
  }

  lemma {:induction false} DownsInQuiet(s: seq<Event>)
    requires forall e :: e in s ==> !e.Down?
    ensures DownsIn(s) == []
  {
    if s != [] {
      DownsInQuiet(s[..|s| - 1]);
      assert s[|s| - 1] in s;
    }
  }

  function Rounds(stops: nat, rounds: nat): seq<Event> {
    if rounds == 0 then [] else Rounds(stops, rounds - 1) + Downs(stops)
  }

  lemma AppendStops(before: seq<Event>, ups: seq<Event>, stops: nat)
    requires forall e :: e in ups ==> !e.Down?
    ensures DownsIn(before + ups + Downs(stops)) == DownsIn(before) + Downs(stops)
  {
    DownsInAdds(before + ups, Downs(stops));
    DownsInAdds(before, ups);
    DownsInQuiet(ups);
    DownsInDowns(Downs(stops));
    assert DownsIn(before) + [] == DownsIn(before);
  }

  lemma AppendQuiet(before: seq<Event>, a: seq<Event>, b: seq<Event>)
    requires forall e :: e in a + b ==> !e.Down?
    ensures DownsIn(before + a + b) == DownsIn(before)
  {
    assert before + a + b == before + (a + b);
    DownsInAdds(before, a + b);
    DownsInQuiet(a + b);
  }

  lemma UpsAndSpawns(n: nat, m: nat)
    ensures forall e :: e in Ups(n) ==> !e.Down?
    ensures forall e :: e in Ups(n) + Spawns(m) ==> !e.Down?
  {
  }

  datatype StartResult = Running | WasClosed | Cancelled | HookFailed(n: nat)

  class Application {
    const starts: nat
    const stops: nat
    const workers: nat
    const finals: nat
    var started: bool
    var closed: bool
    var cleaned: bool
    var running: nat
    var log: seq<Event>
    ghost var rounds: nat

    /** The stop hooks run in whole rounds, last hook first: one for each failed start, and
        one for Close if there was none before. */
    ghost predicate Valid()
      reads this
    {
      && DownsIn(log) == Rounds(stops, rounds)
      && (cleaned <==> rounds > 0)
      && (closed ==> cleaned)
      && (running > 0 ==> started)
    }

    constructor (starts: nat, stops: nat, workers: nat, finals: nat)
      ensures Valid() && !started && !closed && !cleaned && running == 0 && log == []
      ensures this.starts == starts && this.stops == stops && this.workers == workers && this.finals == finals
    {
      this.starts, this.stops, this.workers, this.finals := starts, stops, workers, finals;
      started, closed, cleaned, running, log, rounds := false, false, false, 0, [], 0;
    }

    /** All stop hooks, last first, whatever they answer; `answers(n)` is what hook n does. */
    method StopAll(answers: nat -> bool) returns (ok: bool)
      modifies this`log
      ensures log == old(log) + Downs(stops)
      ensures ok <==> forall n: nat :: n < stops ==> answers(n)
    {
      var index := stops;
      ok := true;
      while index > 0
        modifies this`log
        invariant 0 <= index <= stops && log == old(log) + Downs(stops)[..stops - index]
        invariant ok <==> forall n: nat :: index <= n < stops ==> answers(n)
      {
        index := index - 1;
        log := log + [Down(index)];
        ok := ok && answers(index);
      }
    }

    /** `answers(n)` is whether start hook n succeeds. */
    method Start(parentDone: bool, answers: nat -> bool) returns (r: StartResult)
      requires Valid()
      modifies this
      ensures Valid() && closed == old(closed)
      ensures r.Running? ==> started && (running == if old(started) then old(running) else workers)
      ensures r.Running? && !old(started) ==> log == old(log) + Ups(starts) + Spawns(workers) && cleaned == old(cleaned)
      ensures rounds == old(rounds) + if r.HookFailed? then 1 else 0
      ensures r.HookFailed? ==> r.n < starts && !answers(r.n) && log == old(log) + Ups(r.n + 1) + Downs(stops) && cleaned
      ensures !r.Running? ==> started == old(started) && running == old(running)
      ensures (!r.Running? && !r.HookFailed?) || old(started) ==> log == old(log) && cleaned == old(cleaned)
      ensures r.WasClosed? <==> old(closed)
      ensures !old(closed) && !old(started) ==>
                (r.Running? <==> !parentDone && forall n: nat :: n < starts ==> answers(n))
    {
      hide Ups, Spawns, Downs, DownsIn;
      if closed {
        return WasClosed;
      }
      if started {
        return Running;
      }
      if parentDone {
        return Cancelled;
      }
      var failed := StartAll(answers);
      if failed < starts {
        var ignored := StopAll(_ => true);
        cleaned, rounds := true, rounds + 1;
        UpsAndSpawns(failed + 1, 0);
        AppendStops(old(log), Ups(failed + 1), stops);
        return HookFailed(failed);
      }
      started := true;
      SpawnAll();
      UpsAndSpawns(starts, workers);
      AppendQuiet(old(log), Ups(starts), Spawns(workers));
      return Running;
    }

    method StartAll(answers: nat -> bool) returns (failed: nat)
      modifies this`log
      ensures failed <= starts && log == old(log) + Ups(if failed < starts then failed + 1 else failed)
      ensures forall m: nat :: m < failed ==> answers(m)
      ensures failed < starts ==> !answers(failed)
    {
      for n := 0 to starts
        invariant log == old(log) + Ups(n)
        invariant forall m: nat :: m < n ==> answers(m)
      {
        log := log + [Up(n)];
        assert Ups(n) + [Up(n)] == Ups(n + 1);
        if !answers(n) {
          return n;
        }
      }
      return starts;
    }

    method SpawnAll()
      requires running == 0
      modifies this`log, this`running
      ensures log == old(log) + Spawns(workers) && running == workers
    {
      for n := 0 to workers
        modifies this`log, this`running
        invariant log == old(log) + Spawns(n) && running == n
      {
        running := running + 1;
        log := log + [Spawn(n)];
        assert Spawns(n) + [Spawn(n)] == Spawns(n + 1);
      }
    }

    /** A worker returns. */
    method WorkerReturns()
      requires Valid() && running > 0
      modifies this`running
      ensures Valid() && running == old(running) - 1
    {
      running := running - 1;
    }

    /** The wait group against the context: workers return one by one. A background context
        never ends; another one ends when `patience` of them have returned. */
    method AwaitWorkers(patience: Option<nat>) returns (all: bool)
      requires Valid()
      modifies this`running
      ensures Valid() && (all <==> running == 0)
      ensures patience.None? ==> running == 0
      ensures patience.Some? ==> running == if patience.value < old(running) then old(running) - patience.value else 0
    {
      ghost var first := running;
      var returned := 0;
      while running > 0 && (patience.None? || returned < patience.value)
        invariant Valid() && running + returned == first && (patience.Some? ==> returned <= patience.value)
        decreases running
      {
        WorkerReturns();
        returned := returned + 1;
      }
      all := running == 0;
    }

    /** The stop hooks run only if no start has failed before: after a failed start, a second
        one that succeeds is closed without them. No error of a hook keeps Close from waiting
        or from the hooks after it: `ok` is what it reports. */
    method Close(patience: Option<nat>, stopAnswers: nat -> bool, finalAnswers: nat -> bool) returns (ok: bool)
      requires Valid()
      modifies this
      ensures Valid() && closed && cleaned && started == old(started)
      ensures old(closed) ==> ok && log == old(log) && running == old(running)
      ensures patience.None? && !old(closed) ==> running == 0
      ensures patience.Some? && !old(closed) ==>
                running == if patience.value < old(running) then old(running) - patience.value else 0
      ensures !old(closed) ==>
                && rounds == (if old(cleaned) then old(rounds) else 1)
                && log == old(log) + (if old(cleaned) then [] else Downs(stops)) + Finals(finals)
                && (ok <==> && (old(cleaned) || forall n: nat :: n < stops ==> stopAnswers(n))
                            && running == 0 && forall n: nat :: n < finals ==> finalAnswers(n))
    {
      hide Downs, Finals, Rounds;
      if closed {
        return true;
      }
      closed := true;
      var stopped := StopOnce(stopAnswers);
      var waited := AwaitWorkers(patience);
      var finished := FinishAll(finalAnswers);
      ok := stopped && waited && finished;
    }

    method StopOnce(answers: nat -> bool) returns (ok: bool)
      requires DownsIn(log) == Rounds(stops, rounds) && (cleaned <==> rounds > 0)
      modifies this`log, this`rounds, this`cleaned
      ensures cleaned && rounds == (if old(cleaned) then old(rounds) else 1)
      ensures log == old(log) + if old(cleaned) then [] else Downs(stops)
      ensures ok <==> old(cleaned) || forall n: nat :: n < stops ==> answers(n)
      ensures DownsIn(log) == Rounds(stops, rounds)
    {
      ok := true;
      assert old(log) + [] == old(log);
      if !cleaned {
        ok := StopAll(answers);
        rounds := 1;
        AppendStops(old(log), [], stops);
      }
      cleaned := true;
    }

    method FinishAll(answers: nat -> bool) returns (ok: bool)
      modifies this`log
      ensures log == old(log) + Finals(finals) && DownsIn(log) == DownsIn(old(log))
      ensures ok <==> forall n: nat :: n < finals ==> answers(n)
    {
      var index := finals;
      ok := true;
      while index > 0
        modifies this`log
        invariant 0 <= index <= finals && log == old(log) + Finals(finals)[..finals - index]
        invariant ok <==> forall n: nat :: index <= n < finals ==> answers(n)
      {
        index := index - 1;
        log := log + [Final(index)];
        ok := ok && answers(index);
      }
      AppendQuiet(old(log), [], Finals(finals));
      assert old(log) + [] + Finals(finals) == log;
    }
  }
}
