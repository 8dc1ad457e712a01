/**
 The bounded search from a console pane's process to the game server it launched: breadth
 first, at most 32 processes, at most 8 launchers deep.
 */
module ProcessSearch {
  import opened Wrappers

  type Pid = int

  /** What can be read of a process: the lower-case base name of its executable, its
      arguments, its children. */
  datatype Process = Process(name: Option<string>, args: Option<seq<string>>, children: Option<seq<Pid>>)

  type System = map<Pid, Process>

  const BUDGET := 32
  const DEPTH := 8
  const LAUNCHERS: set<string> := {"sh", "dash", "bash", "zsh", "flock", "env", "taskpolicy"}
  const GAME := "dontstarve_dedicated_server"

  // ---------------------------------------------------------------- arguments

  /** Argument i is the last occurrence of the flag before n, and `value` follows it. */
  ghost predicate LastAt(args: seq<string>, flag: string, i: nat, n: nat, value: string) {
    && 1 <= i < n && i + 1 < |args| && args[i] == flag && args[i + 1] == value
    && Absent(args, flag, i + 1, n)
  }

  ghost predicate Absent(args: seq<string>, flag: string, from: nat, n: nat) {
    forall k :: from <= k < n && k < |args| - 1 ==> args[k] != flag
  }

  /** The last occurrence of the flag that has a value gives `value`. */
  ghost predicate Selects(args: seq<string>, flag: string, value: string) {
    exists i :: LastAt(args, flag, i, |args|, value)
  }

  ghost predicate WorldArguments(args: seq<string>, cluster: string, shard: string) {
    cluster != "" && shard != "" && Selects(args, "-cluster", cluster) && Selects(args, "-shard", shard)
  }

  ghost predicate Scanned(args: seq<string>, flag: string, n: nat, got: string) {
    (got == "" && Absent(args, flag, 1, n)) || (exists i :: LastAt(args, flag, i, n, got))
  }

  lemma ScanOne(args: seq<string>, flag: string, n: nat, got: string)
    requires 1 <= n && n + 1 < |args| && Scanned(args, flag, n, got)
    ensures Scanned(args, flag, n + 1, if args[n] == flag then args[n + 1] else got)
  {
    if args[n] == flag {
      assert LastAt(args, flag, n, n + 1, args[n + 1]);
    } else if i: nat :| LastAt(args, flag, i, n, got) {
      assert LastAt(args, flag, i, n + 1, got);
    }
  }

  method ConsoleWorldArgumentsMatch(args: seq<string>, cluster: string, shard: string) returns (r: bool)
    ensures r <==> WorldArguments(args, cluster, shard)
  {
    var gotCluster, gotShard := "", "";
    var index := 1;
    while index + 1 < |args|
      invariant 1 <= index && (|args| >= 2 ==> index < |args|)
      invariant Scanned(args, "-cluster", index, gotCluster)
      invariant Scanned(args, "-shard", index, gotShard)
    {
      ScanOne(args, "-cluster", index, gotCluster);
      ScanOne(args, "-shard", index, gotShard);
      if args[index] == "-cluster" {
        gotCluster := args[index + 1];
      } else if args[index] == "-shard" {
        gotShard := args[index + 1];
      }
      index := index + 1;
    }
    r := cluster != "" && shard != "" && gotCluster == cluster && gotShard == shard;
    if cluster != "" && shard != "" {
      ScannedSelects(args, "-cluster", index, gotCluster, cluster);
      ScannedSelects(args, "-shard", index, gotShard, shard);
    }
  }

  lemma ScannedSelects(args: seq<string>, flag: string, n: nat, got: string, value: string)
    requires Scanned(args, flag, n, got) && n >= |args| - 1 && value != ""
    ensures got == value <==> Selects(args, flag, value)
  {
    if i: nat :| LastAt(args, flag, i, n, got) {
      assert LastAt(args, flag, i, |args|, got);
    }
    if i: nat, j: nat :| LastAt(args, flag, i, |args|, value) && LastAt(args, flag, j, n, got) {
      assert i == j;
    }
  }

  // ---------------------------------------------------------------- what is searched

  predicate IsGame(p: Process) {
    p.name.Some? && GAME <= p.name.value
  }

  predicate IsLauncher(p: Process) {
    p.name.Some? && !IsGame(p) && p.name.value in LAUNCHERS
  }

  ghost predicate IsTarget(system: System, pid: Pid, cluster: string, shard: string) {
    pid in system && IsGame(system[pid]) && system[pid].args.Some? && WorldArguments(system[pid].args.value, cluster, shard)
  }

  predicate ChildOf(system: System, parent: Pid, child: Pid) {
    && parent in system && IsLauncher(system[parent]) && system[parent].children.Some?
    && child in system[parent].children.value
  }

  /** A chain of launchers from `root`, each a child of the one before; the last may be anything. */
  ghost predicate Chain(system: System, root: Pid, path: seq<Pid>) {
    && |path| > 0 && path[0] == root
    && forall i :: 0 <= i < |path| - 1 ==> ChildOf(system, path[i], path[i + 1])
  }

  ghost predicate ChainTo(system: System, root: Pid, pid: Pid, depth: nat) {
    exists path :: Chain(system, root, path) && |path| == depth + 1 && path[depth] == pid
  }

  lemma ChainExtends(system: System, root: Pid, pid: Pid, depth: nat, child: Pid)
    requires ChainTo(system, root, pid, depth) && ChildOf(system, pid, child)
    ensures ChainTo(system, root, child, depth + 1)
  {
    var path :| Chain(system, root, path) && |path| == depth + 1 && path[depth] == pid;
    assert Chain(system, root, path + [child]);
    assert (path + [child])[depth + 1] == child;
  }

  ghost predicate Unique(s: seq<Pid>) {
    forall i, j :: 0 <= i < j < |s| ==> s[i] != s[j]
  }

  /** `tree` holds the root and all children of its launchers, every process has one parent,
      and everything in it can be read. */
  ghost predicate LauncherTree(system: System, root: Pid, tree: set<Pid>) {
    && root in tree
    && (forall p, c :: p in tree && ChildOf(system, p, c) ==> c in tree && c != root)
    && (forall p, q, c :: p in tree && q in tree && ChildOf(system, p, c) && ChildOf(system, q, c) ==> p == q)
    && (forall p :: p in tree ==> p in system && Readable(system[p]))
  }

  ghost predicate Readable(p: Process) {
    && p.name.Some?
    && (IsGame(p) ==> p.args.Some?)
    && (IsLauncher(p) ==> p.children.Some? && Unique(p.children.value))
  }

  // ---------------------------------------------------------------- the search

  datatype Candidate = Candidate(pid: Pid, depth: nat)

  function Pids(queue: seq<Candidate>): set<Pid> {
    set c | c in queue :: c.pid
  }

  /** Every candidate hangs on a launcher chain of its depth. */
  ghost predicate Sound(system: System, root: Pid, queue: seq<Candidate>) {
    forall c :: c in queue ==> ChainTo(system, root, c.pid, c.depth)
  }

  /** In a tree nothing is queued twice, and only the root and children of processes already
      seen are queued or seen. */
  ghost predicate Fresh(system: System, root: Pid, tree: set<Pid>, queue: seq<Candidate>, seen: set<Pid>) {
    && NoRepeats(queue) && seen <= tree && Pids(queue) <= tree && Pids(queue) !! seen
    && (forall p :: p in Pids(queue) || p in seen ==> Known(system, root, seen, p))
  }

  ghost predicate NoRepeats(queue: seq<Candidate>) {
    forall i, j :: 0 <= i < j < |queue| ==> queue[i].pid != queue[j].pid
  }

  ghost predicate Known(system: System, root: Pid, seen: set<Pid>, p: Pid) {
    p == root || exists q :: q in seen && ChildOf(system, q, p)
  }

  /** The next process on the wanted path is waiting in the queue. */
  ghost predicate OnTrack(path: seq<Pid>, queue: seq<Candidate>) {
    exists j :: 0 <= j < |path| && Candidate(path[j], j) in queue
  }

  function Pushed(children: seq<Pid>, depth: nat): seq<Candidate> {
    seq(|children|, i requires 0 <= i < |children| => Candidate(children[i], depth))
  }

  lemma {:induction false} CountUnique(s: seq<Pid>)
    requires Unique(s)
    ensures |set x | x in s| == |s|
  {
    if s != [] {
      var n := |s| - 1;
      CountUnique(s[..n]);
      assert (set x | x in s) == (set x | x in s[..n]) + {s[n]};
    }
  }

  lemma SubsetSize(s: set<Pid>, t: set<Pid>)
    requires s <= t
    ensures |s| <= |t|
  {
    assert t == s + (t - s);
  }

  lemma QueuePids(queue: seq<Candidate>)
    requires NoRepeats(queue)
    ensures |Pids(queue)| == |queue|
  {
    var s := seq(|queue|, i requires 0 <= i < |queue| => queue[i].pid);
    CountUnique(s);
    assert (set x | x in s) == Pids(queue) by {
      forall p | p in Pids(queue) ensures p in s {
        var i :| 0 <= i < |queue| && queue[i].pid == p;
        assert s[i] == p;
      }
    }
  }

  lemma DisjointSizes(a: set<Pid>, b: set<Pid>, c: set<Pid>, t: set<Pid>)
    requires a !! b !! c && a <= t && b <= t && c <= t
    ensures |a| + |b| + |c| <= |t|
  {
    assert |a + b| == |a| + |b|;
    assert |(a + b) + c| == |a + b| + |c|;
    SubsetSize(a + b + c, t);
  }

  /** In a tree the children of a process just seen are new. */
  lemma ChildrenNew(system: System, root: Pid, tree: set<Pid>, queue: seq<Candidate>, seen: set<Pid>, pid: Pid, c: Pid)
    requires LauncherTree(system, root, tree)
    requires Fresh(system, root, tree, queue, seen) && pid in tree && pid !in seen
    requires Known(system, root, seen, pid) && ChildOf(system, pid, c)
    ensures c in tree && c !in seen && c != pid && c !in Pids(queue)
  {
    assert !Known(system, root, seen, c);
  }

  /** In a small tree they also fit the budget. */
  lemma ChildrenFit(system: System, root: Pid, tree: set<Pid>, queue: seq<Candidate>, seen: set<Pid>, pid: Pid,
                    children: seq<Pid>)
    requires LauncherTree(system, root, tree) && |tree| <= BUDGET
    requires Fresh(system, root, tree, queue, seen) && pid in tree && pid !in seen && pid !in Pids(queue)
    requires IsLauncher(system[pid]) && system[pid].children == Some(children)
    requires Known(system, root, seen, pid)
    ensures |children| + |queue| + |seen + {pid}| <= BUDGET
  {
    var kids := set x | x in children;
    forall c | c in kids ensures c in tree && c !in seen + {pid} && c !in Pids(queue) {
      ChildrenNew(system, root, tree, queue, seen, pid, c);
    }
    assert Unique(children) by {
      assert Readable(system[pid]);
    }
    FitCount(children, queue, seen + {pid}, tree);
  }

  lemma FitCount(children: seq<Pid>, queue: seq<Candidate>, seen: set<Pid>, tree: set<Pid>)
    requires Unique(children) && NoRepeats(queue)
    requires (set x | x in children) !! Pids(queue) !! seen
    requires (set x | x in children) <= tree && Pids(queue) <= tree && seen <= tree
    ensures |children| + |queue| + |seen| <= |tree|
  {
    CountUnique(children);
    QueuePids(queue);
    DisjointSizes((set x | x in children), Pids(queue), seen, tree);
  }

  /** Popping a process and queueing its children keeps the search on the tree. */
  lemma PushKeepsFresh(system: System, root: Pid, tree: set<Pid>, queue: seq<Candidate>, seen: set<Pid>, pid: Pid,
                       children: seq<Pid>, depth: nat)
    requires LauncherTree(system, root, tree)
    requires Fresh(system, root, tree, queue, seen) && pid in tree && pid !in seen && pid !in Pids(queue)
    requires IsLauncher(system[pid]) && system[pid].children == Some(children)
    requires Known(system, root, seen, pid)
    ensures Fresh(system, root, tree, queue + Pushed(children, depth), seen + {pid})
  {
    var kids := Pushed(children, depth);
    PopKeepsFresh(system, root, tree, queue, seen, pid);
    assert Readable(system[pid]);
    forall c | c in Pids(kids)
      ensures c in tree && c !in seen + {pid} && c !in Pids(queue) && Known(system, root, seen + {pid}, c)
    {
      var i :| 0 <= i < |kids| && kids[i].pid == c;
      assert ChildOf(system, pid, children[i]);
      ChildrenNew(system, root, tree, queue, seen, pid, children[i]);
    }
    assert NoRepeats(kids);
    JoinQueues(queue, kids);
  }

  lemma JoinQueues(a: seq<Candidate>, b: seq<Candidate>)
    ensures Pids(a + b) == Pids(a) + Pids(b)
    ensures NoRepeats(a) && NoRepeats(b) && Pids(a) !! Pids(b) ==> NoRepeats(a + b)
  {
    if NoRepeats(a) && NoRepeats(b) && Pids(a) !! Pids(b) {
      forall i, j | 0 <= i < j < |a + b| ensures (a + b)[i].pid != (a + b)[j].pid {
        if i < |a| <= j {
          assert a[i] in a && b[j - |a|] in b;
          assert a[i].pid in Pids(a) && b[j - |a|].pid in Pids(b);
        }
      }
    }
    forall p | p in Pids(a) + Pids(b) ensures p in Pids(a + b) {
      var c :| (c in a || c in b) && c.pid == p;
      assert c in a + b;
    }
  }

  lemma PopKeepsFresh(system: System, root: Pid, tree: set<Pid>, queue: seq<Candidate>, seen: set<Pid>, pid: Pid)
    requires Fresh(system, root, tree, queue, seen) && pid in tree && pid !in Pids(queue) && Known(system, root, seen, pid)
    ensures Fresh(system, root, tree, queue, seen + {pid})
  {
    forall p | p in Pids(queue) || p in seen + {pid} ensures Known(system, root, seen + {pid}, p) {
      assert Known(system, root, seen, p);
    }
  }

  /** Calls are numbered; call n fails if the deadline has passed or the system refuses it. */
  predicate Answers(n: nat, deadline: nat, refuses: nat -> bool) {
    n < deadline && !refuses(n)
  }

  ghost predicate SmallTree(system: System, root: Pid, deadline: nat, refuses: nat -> bool, tree: set<Pid>) {
    LauncherTree(system, root, tree) && |tree| <= BUDGET && deadline >= 3 * BUDGET && forall n :: !refuses(n)
  }

  ghost predicate ShortChain(system: System, root: Pid, cluster: string, shard: string, path: seq<Pid>) {
    && Chain(system, root, path) && |path| <= DEPTH + 1
    && IsTarget(system, path[|path| - 1], cluster, shard)
  }

  datatype Visit = Match | Skip | Expand(children: seq<Pid>)

  /** What the search does with one process it has not seen: up to three system calls. */
  method VisitProcess(system: System, pid: Pid, cluster: string, shard: string, clock: nat, deadline: nat,
                      refuses: nat -> bool)
    returns (v: Visit, clock': nat)
    ensures clock <= clock' <= clock + 3
    ensures v.Match? ==> IsTarget(system, pid, cluster, shard)
    ensures v.Expand? ==> pid in system && IsLauncher(system[pid]) && system[pid].children == Some(v.children)
    ensures (clock + 3 <= deadline && (forall n: nat :: !refuses(n)) && pid in system && Readable(system[pid])) ==>
              (v.Match? <==> IsTarget(system, pid, cluster, shard)) && (v.Expand? <==> IsLauncher(system[pid]))
  {
    v, clock' := Skip, clock + 1;
    if pid !in system || !Answers(clock, deadline, refuses) {
      return;
    }
    var p := system[pid];
    clock' := clock + 2;
    if p.name.None? || !Answers(clock + 1, deadline, refuses) {
      return;
    }
    if GAME <= p.name.value {
      clock' := clock + 3;
      if p.args.Some? && Answers(clock + 2, deadline, refuses) {
        var matches := ConsoleWorldArgumentsMatch(p.args.value, cluster, shard);
        v := if matches then Match else Skip;
      }
      return;
    }
    if p.name.value !in LAUNCHERS {
      return;
    }
    clock' := clock + 3;
    if p.children.Some? && Answers(clock + 2, deadline, refuses) {
      v := Expand(p.children.value);
    }
  }

  /** The tracked process is either the one popped or still queued. */
  lemma TrackAfterPop(path: seq<Pid>, next: Candidate, queue: seq<Candidate>)
    requires OnTrack(path, [next] + queue)
    ensures (next.depth < |path| && path[next.depth] == next.pid) || OnTrack(path, queue)
  {
    var j :| 0 <= j < |path| && Candidate(path[j], j) in [next] + queue;
  }

  lemma TrackAfterPush(path: seq<Pid>, next: Candidate, queue: seq<Candidate>, children: seq<Pid>)
    requires OnTrack(path, queue) || (next.depth + 1 < |path| && path[next.depth + 1] in children)
    ensures OnTrack(path, queue + Pushed(children, next.depth + 1))
  {
    if OnTrack(path, queue) {
      var j :| 0 <= j < |path| && Candidate(path[j], j) in queue;
      assert Candidate(path[j], j) in queue + Pushed(children, next.depth + 1);
    } else {
      var i :| 0 <= i < |children| && children[i] == path[next.depth + 1];
      assert Pushed(children, next.depth + 1)[i] == Candidate(path[next.depth + 1], next.depth + 1);
      assert Candidate(path[next.depth + 1], next.depth + 1) in queue + Pushed(children, next.depth + 1);
    }
  }

  /** With every process of a small tree seen, the tracked one would have been seen too. */
  lemma TrackLeavesRoom(system: System, root: Pid, tree: set<Pid>, path: seq<Pid>, queue: seq<Candidate>, seen: set<Pid>)
    requires Fresh(system, root, tree, queue, seen) && OnTrack(path, queue) && |tree| <= BUDGET
    ensures queue != [] && |seen| < BUDGET
  {
    var j :| 0 <= j < |path| && Candidate(path[j], j) in queue;
    assert seen + {path[j]} <= tree;
    SubsetSize(seen + {path[j]}, tree);
  }

  lemma PopHead(system: System, root: Pid, tree: set<Pid>, next: Candidate, queue: seq<Candidate>, seen: set<Pid>)
    requires Fresh(system, root, tree, [next] + queue, seen)
    ensures Fresh(system, root, tree, queue, seen) && next.pid in tree && next.pid !in seen && next.pid !in Pids(queue)
    ensures Known(system, root, seen, next.pid)
  {
    JoinQueues([next], queue);
    assert next.pid in Pids([next]);
    TailDistinct(next, queue);
  }

  lemma TailDistinct(next: Candidate, queue: seq<Candidate>)
    requires NoRepeats([next] + queue)
    ensures NoRepeats(queue) && next.pid !in Pids(queue)
  {
    var all := [next] + queue;
    forall i | 0 <= i < |queue| ensures queue[i].pid != next.pid {
      assert all[i + 1] == queue[i] && all[0].pid != all[i + 1].pid;
    }
    forall i, j | 0 <= i < j < |queue| ensures queue[i].pid != queue[j].pid {
      assert all[i + 1].pid != all[j + 1].pid;
    }
  }

  lemma StartTracked(system: System, root: Pid, tree: set<Pid>, path: seq<Pid>)
    requires LauncherTree(system, root, tree) && Chain(system, root, path)
    ensures Fresh(system, root, tree, [Candidate(root, 0)], {}) && OnTrack(path, [Candidate(root, 0)])
  {
    assert Candidate(path[0], 0) in [Candidate(root, 0)];
  }

  lemma StartSound(system: System, root: Pid)
    ensures Sound(system, root, [Candidate(root, 0)])
  {
    assert Chain(system, root, [root]) && [root][0] == root;
  }

  lemma PopSound(system: System, root: Pid, next: Candidate, queue: seq<Candidate>)
    requires Sound(system, root, [next] + queue)
    ensures Sound(system, root, queue) && ChainTo(system, root, next.pid, next.depth)
  {
    assert next in [next] + queue;
  }

  /** consoleGameDescendant. True only for a process that a chain of at most 8 launchers leads
      to. Of a launcher tree of at most 32 readable processes it misses nothing within depth 8:
      `tree` and `path` are any such tree and any such chain. It makes at most 96 system calls and
      never holds more than 32 processes, queued and seen together (`peak`). */
  method ConsoleGameDescendant(
    system: System, pid: Pid, cluster: string, shard: string, deadline: nat, refuses: nat -> bool,
    ghost tree: set<Pid>, ghost path: seq<Pid>)
    returns (found: bool, calls: nat, ghost peak: nat)
    ensures calls <= 3 * BUDGET && peak <= BUDGET
    ensures found ==> exists p, d: nat :: d <= DEPTH && ChainTo(system, pid, p, d) && IsTarget(system, p, cluster, shard)
    ensures SmallTree(system, pid, deadline, refuses, tree) && ShortChain(system, pid, cluster, shard, path) ==> found
  {
    hide Fresh, OnTrack, Chain, ChainTo, IsTarget, Known, Sound, Pids, NoRepeats, LAUNCHERS;
    var queue := [Candidate(pid, 0)];
    var seen: set<Pid> := {};
    calls, peak := 0, 1;
    ghost var complete := SmallTree(system, pid, deadline, refuses, tree) && ShortChain(system, pid, cluster, shard, path);
    StartSound(system, pid);
    if complete {
      StartTracked(system, pid, tree, path);
    }
    while |queue| > 0 && |seen| < BUDGET && calls < deadline
      invariant |queue| + |seen| <= BUDGET
      invariant calls <= 3 * |seen| && peak <= BUDGET
      invariant Sound(system, pid, queue)
      invariant complete ==> Fresh(system, pid, tree, queue, seen) && OnTrack(path, queue)
      decreases BUDGET - |seen|, |queue|
    {
      var next := queue[0];
      assert queue == [next] + queue[1..];
      queue := queue[1..];
      PopSound(system, pid, next, queue);
      if complete {
        PopHead(system, pid, tree, next, queue, seen);
        TrackAfterPop(path, next, queue);
      }
      if next.pid in seen || next.depth > DEPTH {
        continue;
      }
      var v;
      v, calls := VisitProcess(system, next.pid, cluster, shard, calls, deadline, refuses);
      if v.Match? {
        found := true;
        return;
      }
      if complete {
        PopKeepsFresh(system, pid, tree, queue, seen, next.pid);
        TrackedExpands(system, pid, cluster, shard, path, next, queue, v);
      }
      if v.Expand? {
        if complete {
          ChildrenFit(system, pid, tree, queue, seen, next.pid, v.children);
          PushKeepsFresh(system, pid, tree, queue, seen, next.pid, v.children, next.depth + 1);
          TrackAfterPush(path, next, queue, v.children);
        }
        seen := seen + {next.pid};
        if |v.children| + |queue| + |seen| <= BUDGET {
          PushSound(system, pid, next, queue, v.children);
          queue := queue + Pushed(v.children, next.depth + 1);
        }
      } else {
        seen := seen + {next.pid};
      }
      peak := if |queue| + |seen| > peak then |queue| + |seen| else peak;
    }
    if complete {
      TrackLeavesRoom(system, pid, tree, path, queue, seen);
    }
    found := false;
  }

  lemma PushSound(system: System, root: Pid, next: Candidate, queue: seq<Candidate>, children: seq<Pid>)
    requires Sound(system, root, queue) && ChainTo(system, root, next.pid, next.depth)
    requires next.pid in system && IsLauncher(system[next.pid]) && system[next.pid].children == Some(children)
    ensures Sound(system, root, queue + Pushed(children, next.depth + 1))
  {
    forall i | 0 <= i < |children| ensures ChainTo(system, root, children[i], next.depth + 1) {
      ChainExtends(system, root, next.pid, next.depth, children[i]);
    }
  }

  /** A tracked process that is not the target is a launcher with the next one among its children. */
  lemma TrackedExpands(system: System, root: Pid, cluster: string, shard: string, path: seq<Pid>, next: Candidate,
                       queue: seq<Candidate>, v: Visit)
    requires ShortChain(system, root, cluster, shard, path)
    requires (next.depth < |path| && path[next.depth] == next.pid) || OnTrack(path, queue)
    requires next.pid in system && !IsTarget(system, next.pid, cluster, shard)
    requires v.Expand? <==> IsLauncher(system[next.pid])
    requires v.Expand? ==> system[next.pid].children == Some(v.children)
    ensures OnTrack(path, queue) || (v.Expand? && next.depth + 1 < |path| && path[next.depth + 1] in v.children)
  {
    if !OnTrack(path, queue) {
      assert ChildOf(system, path[next.depth], path[next.depth + 1]);
    }
  }
}
