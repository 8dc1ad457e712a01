/**
 The split-and-merge downloader: inclusive byte ranges (section 14.1.2 of RFC 9110) in
 64-bit unsigned arithmetic, parts that arrive in any order or not at all, and the merge.
 */
module Downloader {
  import opened Wrappers

  type Bytes = seq<bv8>

  const WORD := 0x1_0000_0000_0000_0000

  /** Unsigned 64-bit wrap-around. */
  function Wrap(x: int): nat {
    x % WORD
  }

  lemma WrapAdd(a: nat, b: nat)
    ensures Wrap(Wrap(a) + b) == Wrap(a + b) && Wrap(0) == 0
  {
  }

  lemma WrapSmall(n: nat)
    requires n < WORD
    ensures Wrap(n) == n
  {
  }

  datatype FilePart = FilePart(index: nat, start: nat, end: nat, data: Bytes)

  function TaskAt(fileSize: nat, taskNum: nat, i: nat): FilePart
    requires taskNum > 0
  {
    var length := fileSize / taskNum;
    var start := Wrap(i * length);
    FilePart(i, start, if i == taskNum - 1 then Wrap(fileSize - 1) else Wrap(start + length - 1), [])
  }

  /** Non-empty ranges, in order and without gap or overlap, that cover the file. */
  ghost predicate Covers(tasks: seq<FilePart>, fileSize: nat) {
    && tasks != [] && tasks[0].start == 0 && tasks[|tasks| - 1].end + 1 == fileSize
    && (forall i :: 0 <= i < |tasks| ==> tasks[i].index == i && tasks[i].start <= tasks[i].end < fileSize)
    && (forall i :: 0 < i < |tasks| ==> Adjacent(tasks[i - 1], tasks[i]))
  }

  predicate Adjacent(a: FilePart, b: FilePart) {
    a.end + 1 == b.start
  }

  function Tasks(fileSize: nat, taskNum: nat): seq<FilePart>
    requires taskNum > 0
  {
    seq(taskNum, i requires 0 <= i < taskNum => TaskAt(fileSize, taskNum, i))
  }

  lemma TasksNumbered(fileSize: nat, taskNum: nat)
    requires taskNum > 0
    ensures forall i :: 0 <= i < taskNum ==> Tasks(fileSize, taskNum)[i].index == i
  {
  }

  lemma Multiples(i: nat, n: nat, length: nat, size: nat)
    requires i < n && n * length <= size
    ensures 0 <= i * length && (i + 1) * length == i * length + length <= size
  {
    assert (i + 1) * length <= n * length;
  }

  /** Where range i lies when there is a byte for every task. */
  lemma TaskRange(fileSize: nat, taskNum: nat, i: nat)
    requires i < taskNum <= fileSize < WORD
    ensures var t, length := TaskAt(fileSize, taskNum, i), fileSize / taskNum;
            && t.start == i * length && t.start <= t.end < fileSize
            && (i < taskNum - 1 ==> t.end + 1 == (i + 1) * length)
            && (i == taskNum - 1 ==> t.end + 1 == fileSize)
  {
    var length := fileSize / taskNum;
    assert taskNum * length <= fileSize && length >= 1;
    Multiples(i, taskNum, length, fileSize);
    assert Wrap(i * length) == i * length;
  }

  lemma TasksAdjacent(fileSize: nat, taskNum: nat, i: nat)
    requires 0 < i < taskNum <= fileSize < WORD
    ensures Adjacent(TaskAt(fileSize, taskNum, i - 1), TaskAt(fileSize, taskNum, i))
  {
    TaskRange(fileSize, taskNum, i - 1);
    TaskRange(fileSize, taskNum, i);
  }

  lemma EnoughBytesCover(fileSize: nat, taskNum: nat)
    requires 0 < taskNum <= fileSize < WORD
    ensures Covers(Tasks(fileSize, taskNum), fileSize)
  {
    forall i | 0 <= i < taskNum ensures var t := TaskAt(fileSize, taskNum, i); t.start <= t.end < fileSize {
      TaskRange(fileSize, taskNum, i);
    }
    forall i | 0 < i < taskNum ensures Adjacent(TaskAt(fileSize, taskNum, i - 1), TaskAt(fileSize, taskNum, i)) {
      TasksAdjacent(fileSize, taskNum, i);
    }
    TaskRange(fileSize, taskNum, taskNum - 1);
    assert TaskAt(fileSize, taskNum, 0).start == 0;
  }

  /** With fewer bytes than tasks the first range runs past the file: its end wraps around,
      or the file is empty. */
  lemma FewBytesDoNot(fileSize: nat, taskNum: nat)
    requires fileSize < taskNum && fileSize < WORD
    ensures TaskAt(fileSize, taskNum, 0).end >= fileSize && !Covers(Tasks(fileSize, taskNum), fileSize)
  {
    assert fileSize / taskNum == 0;
    assert Tasks(fileSize, taskNum)[0] == TaskAt(fileSize, taskNum, 0);
  }

  /** The ranges are a proper split exactly when there are at least as many bytes as tasks. */
  lemma SplitCovers(fileSize: nat, taskNum: nat)
    requires taskNum > 0 && fileSize < WORD
    ensures Covers(Tasks(fileSize, taskNum), fileSize) <==> fileSize >= taskNum
  {
    if fileSize < taskNum {
      FewBytesDoNot(fileSize, taskNum);
    } else {
      EnoughBytesCover(fileSize, taskNum);
    }
  }

  /** The bytes that a merge of the first n parts writes. */
  function Joined(parts: seq<FilePart>, n: nat): Bytes
    requires n <= |parts|
  {
    if n == 0 then [] else Joined(parts, n - 1) + parts[n - 1].data
  }

  lemma {:induction false} JoinedGrows(parts: seq<FilePart>, n: nat, m: nat)
    requires n <= m <= |parts|
    ensures Joined(parts, n) <= Joined(parts, m)
  {
    if n < m {
      JoinedGrows(parts, n, m - 1);
    }
  }

  /** Where the first n ranges end. */
  function Reach(tasks: seq<FilePart>, n: nat): nat
    requires n <= |tasks|
  {
    if n == 0 then 0 else tasks[n - 1].end + 1
  }

  predicate Arrived(part: FilePart, task: FilePart, file: Bytes)
    requires task.start <= task.end < |file|
  {
    part.data == file[task.start..task.end + 1]
  }

  /** Parts that arrived hold their range; the others are empty. */
  ghost predicate Gathered(parts: seq<FilePart>, tasks: seq<FilePart>, file: Bytes, got: nat -> bool) {
    && |parts| == |tasks| && Covers(tasks, |file|)
    && forall i :: 0 <= i < |tasks| ==> if got(i) then Arrived(parts[i], tasks[i], file) else parts[i].data == []
  }

  lemma {:induction false} JoinedReaches(parts: seq<FilePart>, tasks: seq<FilePart>, file: Bytes, got: nat -> bool, n: nat)
    requires Gathered(parts, tasks, file, got) && n <= |tasks|
    ensures Reach(tasks, n) <= |file| && |Joined(parts, n)| <= Reach(tasks, n)
    ensures (forall i: nat :: i < n ==> got(i)) ==> Joined(parts, n) == file[..Reach(tasks, n)]
    ensures (exists i: nat :: i < n && !got(i)) ==> |Joined(parts, n)| < Reach(tasks, n)
  {
    hide Arrived, TaskAt, Wrap;
    if n > 0 {
      JoinedReaches(parts, tasks, file, got, n - 1);
      StartsAtReach(tasks, |file|, n);
      if got(n - 1) {
        ArrivedBytes(parts[n - 1], tasks[n - 1], file);
      }
    }
  }

  lemma StartsAtReach(tasks: seq<FilePart>, fileSize: nat, n: nat)
    requires Covers(tasks, fileSize) && 0 < n <= |tasks|
    ensures Reach(tasks, n - 1) == tasks[n - 1].start
  {
    assert n > 1 ==> Adjacent(tasks[n - 2], tasks[n - 1]);
  }

  lemma ArrivedBytes(part: FilePart, task: FilePart, file: Bytes)
    requires task.start <= task.end < |file| && Arrived(part, task, file)
    ensures |part.data| == task.end + 1 - task.start
    ensures file[..task.start] + part.data == file[..task.end + 1]
  {
  }

  /** What a server sends for a range: the bytes it has of it (section 14.1.2 of RFC 9110),
      and an error when it has none. */
  function Reply(file: Bytes, task: FilePart): Option<Bytes> {
    if task.start < |file| && task.start <= task.end
    then Some(file[task.start..if task.end < |file| then task.end + 1 else |file|])
    else None
  }

  /** What is left of a part: nothing unless the reply came and has the length asked for. */
  function Kept(file: Bytes, task: FilePart, got: nat -> bool): Bytes {
    var body := Reply(file, task);
    if got(task.index) && body.Some? && |body.value| == Wrap(task.end - task.start + 1) then body.value else []
  }

  ghost predicate AllKept(parts: seq<FilePart>, tasks: seq<FilePart>, file: Bytes, got: nat -> bool) {
    |parts| == |tasks| && forall i :: 0 <= i < |tasks| ==> parts[i].data == Kept(file, tasks[i], got)
  }

  /** The file as long as its reported size says. */
  function Sized(file: Bytes, size: nat): Bytes {
    if size <= |file| then file[..size] else file + seq(size - |file|, _ => 0)
  }

  /** With a byte for every task the parts are those of a proper split, less the ranges that
      the file does not reach. */
  lemma KeptOfSplit(parts: seq<FilePart>, file: Bytes, size: nat, taskNum: nat, got: nat -> bool)
    requires 0 < taskNum <= size < WORD && AllKept(parts, Tasks(size, taskNum), file, got)
    ensures Gathered(parts, Tasks(size, taskNum), Sized(file, size), InReach(Tasks(size, taskNum), file, got))
  {
    hide TaskAt, Kept, Wrap, Sized;
    EnoughBytesCover(size, taskNum);
    SizedLength(file, size);
    forall i | 0 <= i < taskNum
      ensures var t := Tasks(size, taskNum)[i];
              if got(i) && t.end < |file| then Arrived(parts[i], t, Sized(file, size)) else parts[i].data == []
    {
      RangeKept(file, size, Tasks(size, taskNum)[i], got);
    }
  }

  lemma SizedLength(file: Bytes, size: nat)
    ensures |Sized(file, size)| == size
  {
  }

  function InReach(tasks: seq<FilePart>, file: Bytes, got: nat -> bool): nat -> bool {
    (i: nat) => i < |tasks| && got(i) && tasks[i].end < |file|
  }

  lemma RangeKept(file: Bytes, size: nat, t: FilePart, got: nat -> bool)
    requires t.start <= t.end < size < WORD
    ensures |Sized(file, size)| == size
    ensures Kept(file, t, got) ==
            if got(t.index) && t.end < |file| then Sized(file, size)[t.start..t.end + 1] else []
  {
    assert Wrap(t.end - t.start + 1) == t.end - t.start + 1;
  }

  /** With fewer bytes than tasks every range but the last asks for 2^64 bytes, which reads as
      a length of 0, and the last one asks for the whole size. */
  lemma KeptOfFew(file: Bytes, size: nat, taskNum: nat, got: nat -> bool, i: nat)
    requires i < taskNum && size < taskNum && size < WORD && |file| < WORD
    ensures Kept(file, TaskAt(size, taskNum, i), got) ==
            if i == taskNum - 1 && got(i) && size <= |file| then file[..size] else []
  {
    assert size / taskNum == 0;
  }

  lemma {:induction false} JoinedNothing(parts: seq<FilePart>, n: nat)
    requires n <= |parts| && forall i :: 0 <= i < n ==> parts[i].data == []
    ensures Joined(parts, n) == []
  {
    if n > 0 {
      JoinedNothing(parts, n - 1);
    }
  }

  /** The parts that must arrive: all of them, or with fewer bytes than tasks the last, or of
      an empty file none. */
  predicate Needed(size: nat, taskNum: nat, i: nat) {
    i < taskNum && size > 0 && (size >= taskNum || i == taskNum - 1)
  }

  ghost predicate AllArrive(size: nat, taskNum: nat, got: nat -> bool) {
    forall i :: Needed(size, taskNum, i) ==> got(i)
  }

  /** Merging what the requests left: never more than the reported size, and as much only when
      the file is that long and the needed parts arrived; then it is that much of the file. */
  lemma MergedIsFile(parts: seq<FilePart>, file: Bytes, size: nat, taskNum: nat, got: nat -> bool)
    requires 0 < taskNum && size < WORD && |file| < WORD && AllKept(parts, Tasks(size, taskNum), file, got)
    ensures var output := Joined(parts, taskNum);
            && |output| <= size && (|output| == size <==> size <= |file| && AllArrive(size, taskNum, got))
            && (|output| == size ==> output == file[..size])
  {
    hide TaskAt, Kept, Joined, Wrap, Sized, AllArrive;
    if taskNum <= size {
      MergedOfSplit(parts, file, size, taskNum, got);
    } else {
      MergedOfFew(parts, file, size, taskNum, got);
    }
  }

  lemma MergedOfSplit(parts: seq<FilePart>, file: Bytes, size: nat, taskNum: nat, got: nat -> bool)
    requires 0 < taskNum <= size < WORD && AllKept(parts, Tasks(size, taskNum), file, got)
    ensures var output := Joined(parts, taskNum);
            && |output| <= size && (|output| == size <==> size <= |file| && AllArrive(size, taskNum, got))
            && (|output| == size ==> output == file[..size])
  {
    hide TaskAt, Kept, Joined, Wrap, Sized, AllArrive;
    var tasks := Tasks(size, taskNum);
    EnoughBytesCover(size, taskNum);
    KeptOfSplit(parts, file, size, taskNum, got);
    SizedLength(file, size);
    JoinedReaches(parts, tasks, Sized(file, size), InReach(tasks, file, got), taskNum);
    assert Sized(file, size)[..size] == Sized(file, size);
    AllInReach(tasks, file, size, taskNum, got);
    SizedShort(file, size);
  }

  lemma SizedShort(file: Bytes, size: nat)
    ensures size <= |file| ==> Sized(file, size) == file[..size]
  {
  }

  lemma AllInReach(tasks: seq<FilePart>, file: Bytes, size: nat, taskNum: nat, got: nat -> bool)
    requires 0 < taskNum <= size && |tasks| == taskNum && Covers(tasks, size)
    ensures (forall i: nat :: i < taskNum ==> InReach(tasks, file, got)(i)) <==>
            size <= |file| && AllArrive(size, taskNum, got)
  {
    var all := forall i: nat :: i < taskNum ==> InReach(tasks, file, got)(i);
    if all {
      assert InReach(tasks, file, got)(taskNum - 1);
      forall i | Needed(size, taskNum, i) ensures got(i) {
        assert InReach(tasks, file, got)(i);
      }
    } else {
      var i: nat :| i < taskNum && !InReach(tasks, file, got)(i);
      assert Needed(size, taskNum, i);
    }
  }

  lemma MergedOfFew(parts: seq<FilePart>, file: Bytes, size: nat, taskNum: nat, got: nat -> bool)
    requires size < taskNum && size < WORD && |file| < WORD && AllKept(parts, Tasks(size, taskNum), file, got)
    ensures var output := Joined(parts, taskNum);
            && |output| <= size && (|output| == size <==> size <= |file| && AllArrive(size, taskNum, got))
            && (|output| == size ==> output == file[..size])
  {
    hide TaskAt, Kept, Wrap;
    var n := taskNum - 1;
    forall i | 0 <= i < taskNum
      ensures parts[i].data == if i == n && got(i) && size <= |file| then file[..size] else []
    {
      KeptOfFew(file, size, taskNum, got, i);
      assert Tasks(size, taskNum)[i] == TaskAt(size, taskNum, i);
    }
    JoinedNothing(parts, n);
    assert size > 0 ==> Needed(size, taskNum, n);
  }

  class Downloader {
    const taskNum: nat
    const dividedFile: array<FilePart>
    var fileSize: nat

    ghost predicate Valid()
      reads this
    {
      dividedFile.Length == taskNum && fileSize < WORD
    }

    /** NewDownloader: every part starts empty. */
    constructor (taskNum: nat)
      ensures Valid() && this.taskNum == taskNum && fresh(dividedFile)
      ensures forall i :: 0 <= i < taskNum ==> dividedFile[i].data == []
    {
      this.taskNum := taskNum;
      fileSize := 0;
      dividedFile := new FilePart[taskNum](_ => FilePart(0, 0, 0, []));
    }

    method Divide() returns (tasks: array<FilePart>)
      requires Valid() && taskNum > 0
      ensures fresh(tasks) && tasks[..] == Tasks(fileSize, taskNum)
    {
      tasks := new FilePart[taskNum](_ => FilePart(0, 0, 0, []));
      var taskLength := fileSize / taskNum;
      for i := 0 to taskNum
        invariant tasks[..i] == Tasks(fileSize, taskNum)[..i]
      {
        var start := Wrap(i * taskLength);
        var end := if i == taskNum - 1 then Wrap(fileSize - 1) else Wrap(start + taskLength - 1);
        tasks[i] := FilePart(i, start, end, []);
        assert tasks[..i + 1] == tasks[..i] + [tasks[i]];
      }
      assert tasks[..] == tasks[..taskNum];
    }

    /** downloadPart: a body of the wrong length is refused and the part stays as it was. */
    method DownloadPart(p: FilePart, body: Option<Bytes>) returns (ok: bool)
      requires Valid() && p.index < taskNum
      modifies dividedFile
      ensures ok <==> body.Some? && |body.value| == Wrap(p.end - p.start + 1)
      ensures dividedFile[..] == if ok then old(dividedFile[..])[p.index := p.(data := body.value)] else old(dividedFile[..])
    {
      if body.None? || |body.value| != Wrap(p.end - p.start + 1) {
        return false;
      }
      dividedFile[p.index] := p.(data := body.value);
      return true;
    }

    /** merge. `created` and `writes(i)` are whether the file can be made and part i written; a
        write that fails leaves `torn` bytes of its part. */
    method Merge(created: bool, writes: nat -> bool, torn: nat) returns (ok: bool, output: Bytes)
      requires Valid()
      ensures output <= Joined(dividedFile[..], taskNum)
      ensures created && (forall i: nat :: i < taskNum ==> writes(i)) ==> output == Joined(dividedFile[..], taskNum)
      ensures ok <==> created && (forall i: nat :: i < taskNum ==> writes(i)) &&
                      Wrap(|Joined(dividedFile[..], taskNum)|) == fileSize
    {
      hide Wrap;
      WrapAdd(0, 0);
      output := [];
      if !created {
        return false, output;
      }
      var totalSize := 0;
      for i := 0 to taskNum
        invariant output == Joined(dividedFile[..], i) && totalSize == Wrap(|output|)
        invariant forall k: nat :: k < i ==> writes(k)
      {
        var data := dividedFile[i].data;
        if !writes(i) {
          output := output + data[..if torn < |data| then torn else |data|];
          JoinedGrows(dividedFile[..], i + 1, taskNum);
          return false, output;
        }
        WrapAdd(|output|, |data|);
        output := output + data;
        totalSize := Wrap(totalSize + |data|);
      }
      ok := totalSize == fileSize;
    }

    /** The parts are fetched one by one in any order. */
    method FetchAll(file: Bytes, tasks: seq<FilePart>, got: nat -> bool)
      requires Valid() && |tasks| == taskNum && forall i :: 0 <= i < taskNum ==> tasks[i].index == i
      requires forall i :: 0 <= i < taskNum ==> dividedFile[i].data == []
      modifies dividedFile
      ensures AllKept(dividedFile[..], tasks, file, got)
    {
      hide Kept, Wrap, Reply;
      var todo := set t | t in tasks;
      while todo != {}
        invariant todo <= set t | t in tasks
        invariant forall i :: 0 <= i < taskNum ==>
                                dividedFile[i].data == if tasks[i] in todo then [] else Kept(file, tasks[i], got)
        decreases todo
      {
        var t :| t in todo;
        todo := todo - {t};
        FetchOne(file, t, got);
      }
    }

    /** The server answers the range, or the request fails. */
    method FetchOne(file: Bytes, t: FilePart, got: nat -> bool)
      requires Valid() && t.index < taskNum && dividedFile[t.index].data == []
      modifies dividedFile
      ensures forall i :: 0 <= i < taskNum && i != t.index ==> dividedFile[i] == old(dividedFile[i])
      ensures dividedFile[t.index].data == Kept(file, t, got)
    {
      hide Wrap, Reply;
      var body := if got(t.index) then Reply(file, t) else None;
      ghost var before := dividedFile[..];
      var fetched := DownloadPart(t, body);
      assert dividedFile[..] == if fetched then before[t.index := t.(data := body.value)] else before;
      assert forall i :: 0 <= i < taskNum ==> dividedFile[i] == dividedFile[..][i];
    }

    /** Download, from a fresh downloader. `head` is the content length that the server reports,
        negative when it does not know, or nothing when that request fails; it answers the
        requests in `got` with the bytes it has and fails the others. It succeeds exactly when
        the file is as long as reported, the needed parts arrived and could be written; and
        then it has written that much of the file. */
    method Download(file: Bytes, head: Option<int>, got: nat -> bool, created: bool, writes: nat -> bool, torn: nat)
      returns (ok: bool, output: Bytes)
      requires Valid() && |file| < WORD && 0 < taskNum
      requires forall i :: 0 <= i < taskNum ==> dividedFile[i].data == []
      modifies this, dividedFile
      ensures Valid()
      ensures ok <==> head.Some? && Wrap(head.value) <= |file| && AllArrive(Wrap(head.value), taskNum, got)
                      && created && forall i: nat :: i < taskNum ==> writes(i)
      ensures ok ==> output == file[..Wrap(head.value)]
      ensures head == Some(|file|) && created && (forall i: nat :: i < taskNum ==> writes(i)) ==> (ok <==> output == file)
    {
      hide TaskAt, Joined, Kept, AllArrive;
      if head.None? {
        return false, [];
      }
      fileSize := Wrap(head.value);
      var tasks := Divide();
      TasksNumbered(fileSize, taskNum);
      FetchAll(file, tasks[..], got);
      MergedIsFile(dividedFile[..], file, fileSize, taskNum, got);
      WrapSmall(|Joined(dividedFile[..], taskNum)|);
      WrapSmall(|file|);
      ok, output := Merge(created, writes, torn);
      assert file[..|file|] == file;
    }
  }
}
