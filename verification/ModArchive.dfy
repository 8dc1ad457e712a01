/**
 Extraction of an uploaded mod archive: which entry names are accepted, where they land, and
 how much is written. Paths are the slash-separated ones of the archive's host.
 */
module ModArchive {
  import opened Wrappers

  newtype int64 = x: int | -0x8000_0000_0000_0000 <= x < 0x8000_0000_0000_0000

  const MAX_ENTRIES := 100000
  const MAX_BUNDLE: int64 := 0x10_0000_0000

  const NUL: char := 0 as char

  // ---------------------------------------------------------------- components

  /** The pieces between slashes; n slashes give n + 1 pieces. */
  function Split(s: string): (r: seq<string>)
    ensures r != []
  {
    if s == [] then [""]
    else
      var n := |s| - 1;
      var before := Split(s[..n]);
      if s[n] == '/' then before + [""]
      else before[..|before| - 1] + [before[|before| - 1] + [s[n]]]
  }

  function Join(parts: seq<string>): string {
    if parts == [] then ""
    else if |parts| == 1 then parts[0]
    else Join(parts[..|parts| - 1]) + "/" + parts[|parts| - 1]
  }

  predicate NoSlash(parts: seq<string>) {
    forall i :: 0 <= i < |parts| ==> '/' !in parts[i]
  }

  lemma {:induction false} JoinAppend(parts: seq<string>, last: string, c: char)
    ensures Join(parts + [last + [c]]) == Join(parts + [last]) + [c]
  {
    assert (parts + [last + [c]])[..|parts|] == parts && (parts + [last])[..|parts|] == parts;
    if parts != [] {
      assert Join(parts) + "/" + (last + [c]) == Join(parts) + "/" + last + [c];
    }
  }

  lemma {:induction false} JoinSplit(s: string)
    ensures Join(Split(s)) == s && NoSlash(Split(s))
  {
    if s != [] {
      var n := |s| - 1;
      JoinSplit(s[..n]);
      var before := Split(s[..n]);
      assert s == s[..n] + [s[n]];
      if s[n] == '/' {
        assert (before + [""])[..|before|] == before;
      } else {
        var init, last := before[..|before| - 1], before[|before| - 1];
        assert before == init + [last];
        JoinAppend(init, last, s[n]);
      }
    }
  }

  lemma {:induction false} SplitGlue(s: string, t: string)
    requires '/' !in t
    ensures var b := Split(s); Split(s + t) == b[..|b| - 1] + [b[|b| - 1] + t]
  {
    hide Split;
    var b := Split(s);
    if t == [] {
      assert s + t == s && b[|b| - 1] + t == b[|b| - 1];
    } else {
      var init, c := t[..|t| - 1], t[|t| - 1];
      assert c in t && t == init + [c];
      SplitGlue(s, init);
      SplitChar(s + init, c);
      assert s + t == s + init + [c];
      assert Split(s + init)[..|b| - 1] == b[..|b| - 1];
      assert b[|b| - 1] + init + [c] == b[|b| - 1] + t;
    }
  }

  lemma SplitPlain(t: string)
    requires '/' !in t
    ensures Split(t) == [t]
  {
    SplitGlue("", t);
    assert "" + t == t;
  }

  lemma SplitSlash(s: string)
    ensures Split(s + "/") == Split(s) + [""]
  {
    assert (s + "/")[..|s|] == s;
  }

  lemma {:induction false} SplitJoin(parts: seq<string>)
    requires parts != [] && NoSlash(parts)
    ensures Split(Join(parts)) == parts
  {
    hide Split;
    var n := |parts| - 1;
    SplitPlain(parts[n]);
    if n > 0 {
      SplitJoin(parts[..n]);
      SplitJoined(Join(parts[..n]), parts[n]);
      assert parts[..n] + [parts[n]] == parts;
    }
  }

  function Grow(parts: seq<string>, c: char): seq<string>
    requires parts != []
  {
    if c == '/' then parts + [""] else parts[..|parts| - 1] + [parts[|parts| - 1] + [c]]
  }

  lemma SplitChar(s: string, c: char)
    ensures Split(s + [c]) == Grow(Split(s), c)
  {
    assert (s + [c])[..|s|] == s;
  }

  lemma GrowRight(a: seq<string>, b: seq<string>, c: char)
    requires b != []
    ensures Grow(a + b, c) == a + Grow(b, c)
  {
    assert (a + b)[..|a + b| - 1] == a + b[..|b| - 1];
  }

  /** Splitting s/t splits both sides. */
  lemma {:induction false} SplitJoined(s: string, t: string)
    ensures Split(s + "/" + t) == Split(s) + Split(t)
  {
    if t == [] {
      assert s + "/" + t == s + "/";
      SplitSlash(s);
    } else {
      var init, c := t[..|t| - 1], t[|t| - 1];
      assert t == init + [c] && s + "/" + t == s + "/" + init + [c];
      SplitJoined(s, init);
      SplitChar(s + "/" + init, c);
      SplitChar(init, c);
      GrowRight(Split(s), Split(init), c);
    }
  }

  // ---------------------------------------------------------------- lexical cleaning

  predicate Ordinary(part: string) {
    part != "" && part != "." && part != ".."
  }

  predicate AllOrdinary(parts: seq<string>) {
    forall i :: 0 <= i < |parts| ==> Ordinary(parts[i])
  }

  function Push(stack: seq<string>, part: string, rooted: bool): seq<string> {
    if part == "" || part == "." then stack
    else if part == ".." then
      if stack != [] && stack[|stack| - 1] != ".." then stack[..|stack| - 1]
      else if rooted then stack
      else stack + [part]
    else stack + [part]
  }

  function CleanParts(parts: seq<string>, rooted: bool): seq<string> {
    if parts == [] then [] else Push(CleanParts(parts[..|parts| - 1], rooted), parts[|parts| - 1], rooted)
  }

  /** filepath.Clean. */
  function Clean(path: string): string {
    var rooted := path != "" && path[0] == '/';
    var text := (if rooted then "/" else "") + Join(CleanParts(Split(path), rooted));
    if text == "" then "." else text
  }

  /** Some parent steps, only in a relative path, then ordinary components. */
  ghost predicate Stacked(stack: seq<string>, rooted: bool) {
    exists k :: StackedAt(stack, rooted, k)
  }

  ghost predicate StackedAt(stack: seq<string>, rooted: bool, k: nat) {
    && k <= |stack| && (rooted ==> k == 0)
    && (forall i :: 0 <= i < k ==> stack[i] == "..")
    && AllOrdinary(stack[k..])
  }

  lemma PushShape(stack: seq<string>, part: string, rooted: bool, k: nat)
    requires StackedAt(stack, rooted, k)
    ensures Stacked(Push(stack, part, rooted), rooted)
  {
    var next := Push(stack, part, rooted);
    if next == stack + [part] && part == ".." {
      assert k == |stack|;
      assert StackedAt(next, rooted, |next|);
    } else if next == stack + [part] {
      assert next[k..] == stack[k..] + [part];
      assert StackedAt(next, rooted, k);
    } else if next != stack {
      assert k < |stack|;
      assert next[k..] == stack[k..][..|stack| - 1 - k];
      assert StackedAt(next, rooted, k);
    }
  }

  lemma {:induction false} CleanPartsShape(parts: seq<string>, rooted: bool)
    requires NoSlash(parts)
    ensures Stacked(CleanParts(parts, rooted), rooted) && NoSlash(CleanParts(parts, rooted))
  {
    hide Stacked, StackedAt, AllOrdinary;
    if parts == [] {
      EmptyShape(rooted);
    } else {
      var n := |parts| - 1;
      CleanPartsShape(parts[..n], rooted);
      var stack := CleanParts(parts[..n], rooted);
      var k := ShapeOf(stack, rooted);
      PushShape(stack, parts[n], rooted, k);
    }
  }

  lemma EmptyShape(rooted: bool)
    ensures Stacked([], rooted)
  {
    assert StackedAt([], rooted, 0);
  }

  lemma ShapeOf(stack: seq<string>, rooted: bool) returns (k: nat)
    requires Stacked(stack, rooted)
    ensures StackedAt(stack, rooted, k)
  {
    k :| StackedAt(stack, rooted, k);
  }

  lemma PushOrdinary(stack: seq<string>, part: string, rooted: bool)
    requires Ordinary(part)
    ensures Push(stack, part, rooted) == stack + [part]
  {
  }

  lemma {:induction false} CleanOrdinary(stack: seq<string>, parts: seq<string>, rooted: bool)
    requires AllOrdinary(parts)
    ensures CleanParts(stack + parts, rooted) == CleanParts(stack, rooted) + parts
  {
    hide Push, Ordinary;
    if parts == [] {
      assert stack + parts == stack;
    } else {
      var n := |parts| - 1;
      CleanOrdinary(stack, parts[..n], rooted);
      PushOrdinary(CleanParts(stack + parts[..n], rooted), parts[n], rooted);
      assert (stack + parts)[..|stack + parts| - 1] == stack + parts[..n];
      assert parts[..n] + [parts[n]] == parts;
    }
  }

  // ---------------------------------------------------------------- accepted names

  predicate HasPrefix(s: string, prefix: string) {
    prefix <= s
  }

  predicate EndsWithSlash(s: string) {
    s != "" && s[|s| - 1] == '/'
  }

  function Canonical(name: string): string {
    if EndsWithSlash(name) then name[..|name| - 1] else name
  }

  /** What is asked of a name without its trailing slash. */
  predicate SafeComparison(c: string) {
    c != "" && !EndsWithSlash(c) && Clean(c) == c && c != ".." && !HasPrefix(c, "../")
  }

  predicate SafeModArchivePath(value: string) {
    && value != "" && value != "." && !HasPrefix(value, "/") && '\\' !in value && NUL !in value
    && SafeComparison(Canonical(value))
  }

  /** Where an accepted entry lies under the extraction root. */
  function Parts(canonical: string): seq<string> {
    if canonical == "." then [] else Split(canonical)
  }

  lemma SplitDotDot(s: string)
    requires HasPrefix(s, "../")
    ensures |Split(s)| > 1 && Split(s)[0] == ".."
  {
    hide Split;
    assert s == "../" + s[3..] && ".." + "/" == "../";
    SplitJoined("..", s[3..]);
    SplitPlain("..");
    assert |Split(s[3..])| > 0;
  }

  lemma SplitFirst(s: string)
    ensures Split(s)[0] == ".." <==> s == ".." || HasPrefix(s, "../")
  {
    if HasPrefix(s, "../") {
      SplitDotDot(s);
    } else if s == ".." {
      SplitPlain("..");
    } else if Split(s)[0] == ".." {
      JoinSplit(s);
      if |Split(s)| > 1 {
        JoinFirst(Split(s));
      }
    }
  }

  lemma {:induction false} JoinFirst(parts: seq<string>)
    requires |parts| > 1
    ensures HasPrefix(Join(parts), parts[0] + "/")
  {
    if |parts| > 2 {
      JoinFirst(parts[..|parts| - 1]);
    } else {
      assert parts[..1] == [parts[0]];
    }
  }

  lemma TrailingSlash(c: string)
    requires EndsWithSlash(c)
    ensures !AllOrdinary(Split(c))
  {
    assert c == c[..|c| - 1] + "/";
    SplitSlash(c[..|c| - 1]);
    assert !Ordinary(Split(c)[|Split(c)| - 1]);
  }

  lemma LeadingSlash(c: string)
    requires HasPrefix(c, "/")
    ensures !AllOrdinary(Split(c))
  {
    assert c == "" + "/" + c[1..];
    SplitJoined("", c[1..]);
    assert !Ordinary(Split(c)[0]);
  }

  lemma OrdinaryIsClean(c: string)
    requires AllOrdinary(Split(c))
    ensures Clean(c) == c && c != "" && c[0] != '/'
  {
    JoinSplit(c);
    if HasPrefix(c, "/") {
      LeadingSlash(c);
    }
    assert [] + Split(c) == Split(c);
    CleanOrdinary([], Split(c), false);
    assert "" + Join(Split(c)) == c;
  }

  lemma CleanIsOrdinary(c: string)
    requires c != "" && c[0] != '/' && c != "." && Clean(c) == c && c != ".." && !HasPrefix(c, "../")
    ensures AllOrdinary(Split(c))
  {
    JoinSplit(c);
    var stack := CleanParts(Split(c), false);
    CleanPartsShape(Split(c), false);
    assert "" + Join(stack) == Join(stack) == c;
    SplitJoin(stack);
    var k: nat :| StackedAt(stack, false, k);
    SplitFirst(c);
    assert k == 0 && stack[0..] == stack;
  }

  lemma OrdinaryIsSafe(c: string)
    requires AllOrdinary(Split(c))
    ensures SafeComparison(c)
  {
    OrdinaryIsClean(c);
    SplitFirst(c);
    if EndsWithSlash(c) {
      TrailingSlash(c);
    }
  }

  lemma DotIsSafe()
    ensures SafeComparison(".") && !AllOrdinary(Split("."))
  {
    SplitPlain(".");
    assert CleanParts(["."], false) == [];
    assert !Ordinary(Split(".")[0]);
  }

  lemma SafeComparisonExactly(c: string)
    requires !HasPrefix(c, "/")
    ensures SafeComparison(c) <==> c == "." || AllOrdinary(Split(c))
  {
    if c == "." {
      DotIsSafe();
    } else if AllOrdinary(Split(c)) {
      OrdinaryIsSafe(c);
    } else if SafeComparison(c) {
      CleanIsOrdinary(c);
    }
  }

  /** The test on names is exactly this: no NUL or backslash, relative, and made of ordinary
      components, or the root itself written "./". */
  lemma SafeExactly(value: string)
    ensures SafeModArchivePath(value) <==>
            && '\\' !in value && NUL !in value
            && (value == "./" || (AllOrdinary(Split(Canonical(value))) && value != ""))
  {
    hide Clean, CleanParts;
    var c := Canonical(value);
    if HasPrefix(value, "/") {
      if c == "" {
        SplitPlain("");
      } else {
        LeadingSlash(c);
      }
    } else if value == "." {
      DotIsSafe();
    } else {
      SafeComparisonExactly(c);
    }
  }

  // ---------------------------------------------------------------- where entries land

  function RootedParts(path: string): seq<string> {
    CleanParts(Split(path), true)
  }

  /** filepath.Join(root, canonical). */
  function Target(root: string, canonical: string): string {
    Clean(root + "/" + canonical)
  }

  function Common(a: seq<string>, b: seq<string>): (k: nat)
    ensures k <= |a| && k <= |b| && a[..k] == b[..k]
    ensures k < |a| && k < |b| ==> a[k] != b[k]
  {
    if a == [] || b == [] || a[0] != b[0] then 0
    else
      var k := Common(a[1..], b[1..]);
      assert a[..k + 1] == [a[0]] + a[1..][..k] && b[..k + 1] == [b[0]] + b[1..][..k];
      k + 1
  }

  predicate IsRooted(path: string) {
    HasPrefix(path, "/")
  }

  function PathParts(path: string): seq<string> {
    CleanParts(Split(path), IsRooted(path))
  }

  /** What the way down ends with; the clean form of an empty relative path is a dot. */
  function Tail(base: seq<string>, target: seq<string>, rooted: bool): seq<string> {
    if target == [] && base != [] && !rooted then ["."] else target[Common(base, target)..]
  }

  /** filepath.Rel, as text: an error when only one path is absolute, and when the way up from
      the base would lead over a parent step. */
  function Rel(root: string, path: string): Option<string> {
    var base, target := PathParts(root), PathParts(path);
    var k := Common(base, target);
    if IsRooted(root) != IsRooted(path) || (k < |base| && base[k] == "..") then None
    else
      var parts := seq(|base| - k, _ => "..") + Tail(base, target, IsRooted(path));
      Some(if parts == [] then "." else Join(parts))
  }

  predicate PathWithinRoot(path: string, root: string) {
    var relative := Rel(root, path);
    relative.Some? && relative.value != ".." && !HasPrefix(relative.value, "../")
  }

  /** pathWithinRoot is component-wise containment, not a test on text: both paths absolute or
      both relative, the root's components first, and no parent step after them. */
  lemma WithinExactly(path: string, root: string)
    ensures var base, target := PathParts(root), PathParts(path);
            PathWithinRoot(path, root) <==>
            IsRooted(path) == IsRooted(root) && base <= target && (|base| < |target| ==> target[|base|] != "..")
  {
    hide Split, CleanParts, Common, Join;
    JoinSplit(path);
    CleanPartsShape(Split(path), IsRooted(path));
    StaysInside(PathParts(root), PathParts(path), IsRooted(path));
  }

  lemma StaysInside(base: seq<string>, target: seq<string>, rooted: bool)
    requires NoSlash(target)
    ensures var parts := seq(|base| - Common(base, target), _ => "..") + Tail(base, target, rooted);
            (parts == [] || (Join(parts) != ".." && !HasPrefix(Join(parts), "../"))) <==>
            base <= target && (|base| < |target| ==> target[|base|] != "..")
  {
    hide Common, Join;
    CommonPrefix(base, target);
    var k := Common(base, target);
    var parts := seq(|base| - k, _ => "..") + Tail(base, target, rooted);
    if parts != [] {
      FirstOfJoin(parts);
      assert parts[0] == if k < |base| then ".." else target[k];
    }
  }

  /** Of absolute paths it is containment of components alone. */
  lemma WithinRooted(path: string, root: string)
    requires IsRooted(path) && IsRooted(root)
    ensures PathWithinRoot(path, root) <==> RootedParts(root) <= RootedParts(path)
  {
    WithinExactly(path, root);
    RootedShape(path);
    var base, target := RootedParts(root), RootedParts(path);
    assert |base| < |target| ==> Ordinary(target[|base|]);
  }

  lemma RootedShape(path: string)
    ensures AllOrdinary(RootedParts(path)) && NoSlash(RootedParts(path))
  {
    JoinSplit(path);
    CleanPartsShape(Split(path), true);
    var stack := RootedParts(path);
    var j: nat :| StackedAt(stack, true, j);
    assert stack[0..] == stack;
  }

  lemma FirstOfJoin(parts: seq<string>)
    requires parts != [] && NoSlash(parts)
    ensures parts[0] == ".." <==> Join(parts) == ".." || HasPrefix(Join(parts), "../")
  {
    SplitJoin(parts);
    SplitFirst(Join(parts));
  }

  lemma CommonPrefix(a: seq<string>, b: seq<string>)
    ensures a <= b <==> Common(a, b) == |a|
  {
    var k := Common(a, b);
    assert k == |a| ==> a[..k] == a;
    assert a <= b ==> forall i :: 0 <= i < |a| ==> a[i] == b[i];
  }

  lemma EmptyParts()
    ensures CleanParts([""], true) == [] && CleanParts([""] + [""], true) == []
  {
    assert ([""] + [""])[..1] == [""];
  }

  lemma RootedClean(path: string)
    requires HasPrefix(path, "/")
    ensures HasPrefix(Clean(path), "/") && RootedParts(Clean(path)) == RootedParts(path)
  {
    hide Split, CleanParts, AllOrdinary, NoSlash;
    var stack := RootedParts(path);
    RootedShape(path);
    SplitPlain("");
    assert Clean(path) == "" + "/" + Join(stack);
    SplitJoined("", Join(stack));
    EmptyParts();
    if stack != [] {
      SplitJoin(stack);
      CleanOrdinary([""], stack, true);
      assert [] + stack == stack;
    }
  }

  /** An accepted entry lands under the root at its own components. */
  lemma TargetInside(root: string, value: string)
    requires HasPrefix(root, "/") && SafeModArchivePath(value)
    ensures var path := Target(root, Canonical(value));
            && RootedParts(path) == RootedParts(root) + Parts(Canonical(value))
            && PathWithinRoot(path, root)
  {
    var c := Canonical(value);
    SafeExactly(value);
    SplitJoined(root, c);
    RootedClean(root + "/" + c);
    WithinRooted(Target(root, c), root);
    if c == "." {
      SplitPlain(".");
      assert (Split(root) + ["."])[..|Split(root)|] == Split(root);
      assert RootedParts(root) + [] == RootedParts(root);
    } else {
      CleanOrdinary(Split(root), Split(c), true);
    }
  }

  /** Different accepted names never land on one path. */
  lemma TargetsDiffer(root: string, v: string, w: string)
    requires HasPrefix(root, "/") && SafeModArchivePath(v) && SafeModArchivePath(w)
    requires Canonical(v) != Canonical(w)
    ensures Target(root, Canonical(v)) != Target(root, Canonical(w))
  {
    TargetInside(root, v);
    TargetInside(root, w);
    JoinSplit(Canonical(v));
    JoinSplit(Canonical(w));
    var base, p, q := RootedParts(root), Parts(Canonical(v)), Parts(Canonical(w));
    assert p != q;
    assert (base + p)[|base|..] == p && (base + q)[|base|..] == q;
  }

  // ---------------------------------------------------------------- extraction

  datatype Kind = Directory | Regular | Special

  datatype Entry = Entry(name: string, kind: Kind, size: int64, executable: bool)

  datatype Written = Written(path: string, size: int64, mode: nat)

  function Mode(executable: bool): nat {
    if executable then 365 else 292
  }

  /** Bytes of the first n entries. */
  function Total(entries: seq<Entry>, n: nat): int
    requires n <= |entries|
  {
    if n == 0 then 0
    else Total(entries, n - 1) + if entries[n - 1].kind.Regular? then entries[n - 1].size as int else 0
  }

  predicate EntryFits(e: Entry) {
    SafeModArchivePath(e.name) && !e.kind.Special? && (e.kind.Regular? ==> e.size >= 0)
  }

  ghost predicate NamesDiffer(entries: seq<Entry>, n: nat)
    requires n <= |entries|
  {
    forall i, j :: 0 <= i < j < n ==> Canonical(entries[i].name) != Canonical(entries[j].name)
  }

  ghost predicate HasFile(entries: seq<Entry>, n: nat)
    requires n <= |entries|
  {
    exists i :: 0 <= i < n && entries[i].kind.Regular?
  }

  ghost predicate Extractable(entries: seq<Entry>) {
    && |entries| <= MAX_ENTRIES
    && (forall i :: 0 <= i < |entries| ==> EntryFits(entries[i]))
    && NamesDiffer(entries, |entries|) && HasFile(entries, |entries|)
    && Total(entries, |entries|) <= MAX_BUNDLE as int
  }

  lemma {:induction false} TotalGrows(entries: seq<Entry>, n: nat, m: nat)
    requires n <= m <= |entries| && forall i :: 0 <= i < |entries| ==> EntryFits(entries[i])
    ensures Total(entries, n) <= Total(entries, m)
  {
    hide SafeModArchivePath;
    if n < m {
      TotalGrows(entries, n, m - 1);
    }
  }

  function Sum(files: seq<Written>): int {
    if files == [] then 0 else Sum(files[..|files| - 1]) + files[|files| - 1].size as int
  }

  /** The files of the first n entries, each at its target. */
  function FilesOf(root: string, entries: seq<Entry>, n: nat): seq<Written>
    requires n <= |entries|
  {
    if n == 0 then []
    else if !entries[n - 1].kind.Regular? then FilesOf(root, entries, n - 1)
    else FilesOf(root, entries, n - 1) + [FileOf(root, entries[n - 1])]
  }

  function FileOf(root: string, e: Entry): Written {
    Written(Target(root, Canonical(e.name)), e.size, Mode(e.executable))
  }

  lemma {:induction false} FilesSum(root: string, entries: seq<Entry>, n: nat)
    requires n <= |entries|
    ensures Sum(FilesOf(root, entries, n)) == Total(entries, n)
  {
    if n > 0 {
      FilesSum(root, entries, n - 1);
      var before := FilesOf(root, entries, n - 1);
      assert (before + [FileOf(root, entries[n - 1])])[..|before|] == before;
    }
  }

  lemma {:induction false} FilesFrom(root: string, entries: seq<Entry>, n: nat, i: nat)
    requires n <= |entries| && i < |FilesOf(root, entries, n)|
    ensures exists k :: 0 <= k < n && FilesOf(root, entries, n)[i] == FileOf(root, entries[k])
  {
    if i < |FilesOf(root, entries, n - 1)| {
      FilesFrom(root, entries, n - 1, i);
    }
  }

  lemma FilesInside(root: string, entries: seq<Entry>, n: nat, i: nat)
    requires HasPrefix(root, "/") && n <= |entries| && i < |FilesOf(root, entries, n)|
    requires forall k :: 0 <= k < n ==> EntryFits(entries[k])
    ensures PathWithinRoot(FilesOf(root, entries, n)[i].path, root)
  {
    FilesFrom(root, entries, n, i);
    var k :| 0 <= k < n && FilesOf(root, entries, n)[i] == FileOf(root, entries[k]);
    assert EntryFits(entries[k]);
    TargetInside(root, entries[k].name);
  }

  lemma {:induction false} FilesDiffer(root: string, entries: seq<Entry>, n: nat, i: nat, j: nat)
    requires HasPrefix(root, "/") && n <= |entries| && i < j < |FilesOf(root, entries, n)|
    requires NamesDiffer(entries, n) && forall k :: 0 <= k < n ==> EntryFits(entries[k])
    ensures FilesOf(root, entries, n)[i].path != FilesOf(root, entries, n)[j].path
  {
    hide SafeModArchivePath, Canonical, Target;
    var before := FilesOf(root, entries, n - 1);
    if j < |before| {
      FilesDiffer(root, entries, n - 1, i, j);
    } else {
      FilesFrom(root, entries, n - 1, i);
      var k :| 0 <= k < n - 1 && before[i] == FileOf(root, entries[k]);
      assert EntryFits(entries[k]) && EntryFits(entries[n - 1]);
      TargetsDiffer(root, entries[k].name, entries[n - 1].name);
    }
  }

  /** The extraction after `count` entries. */
  datatype Progress = Progress(seen: set<string>, total: int64, fileCount: nat, files: seq<Written>)

  ghost predicate Extracted(p: Progress, entries: seq<Entry>, root: string, count: nat) {
    && count <= |entries| && count <= MAX_ENTRIES
    && p.files == FilesOf(root, entries, count)
    && 0 <= p.total as int == Total(entries, count) <= MAX_BUNDLE as int
    && (forall i :: 0 <= i < count ==> EntryFits(entries[i]) && Canonical(entries[i].name) in p.seen)
    && (forall c :: c in p.seen ==> exists i :: 0 <= i < count && c == Canonical(entries[i].name))
    && NamesDiffer(entries, count)
    && (p.fileCount > 0 <==> HasFile(entries, count))
  }

  lemma OneMore(p: Progress, p': Progress, entries: seq<Entry>, root: string, count: nat)
    requires Extracted(p, entries, root, count) && count < |entries| && count < MAX_ENTRIES
    requires EntryFits(entries[count]) && Canonical(entries[count].name) !in p.seen
    requires p'.seen == p.seen + {Canonical(entries[count].name)}
    requires p'.total as int == Total(entries, count + 1) <= MAX_BUNDLE as int
    requires p'.files == FilesOf(root, entries, count + 1)
    requires p'.fileCount == p.fileCount + if entries[count].kind.Regular? then 1 else 0
    ensures Extracted(p', entries, root, count + 1)
  {
    hide SafeModArchivePath, Canonical, Target;
    var c := Canonical(entries[count].name);
    forall x | x in p'.seen ensures exists i :: 0 <= i < count + 1 && x == Canonical(entries[i].name) {
      if x == c {
        assert c == Canonical(entries[count].name);
      }
    }
    assert HasFile(entries, count + 1) <==> HasFile(entries, count) || entries[count].kind.Regular?;
  }

  lemma SeenTwice(p: Progress, entries: seq<Entry>, root: string, count: nat)
    requires Extracted(p, entries, root, count) && count < |entries| && Canonical(entries[count].name) in p.seen
    ensures !NamesDiffer(entries, count + 1)
  {
    hide SafeModArchivePath, Canonical, Target;
    var i :| 0 <= i < count && Canonical(entries[count].name) == Canonical(entries[i].name);
  }

  /** One turn of the loop: the entry is extracted, or the archive is refused for it. */
  method ExtractEntry(p: Progress, entries: seq<Entry>, root: string, count: nat, works: bool) returns (ok: bool, p': Progress)
    requires HasPrefix(root, "/") && count < |entries| && Extracted(p, entries, root, count)
    ensures ok ==> works && Extracted(p', entries, root, count + 1)
    ensures !ok && works ==>
              || count >= MAX_ENTRIES || !EntryFits(entries[count]) || !NamesDiffer(entries, count + 1)
              || Total(entries, count + 1) > MAX_BUNDLE as int
  {
    hide SafeModArchivePath, Canonical, Target, PathWithinRoot, NamesDiffer, HasFile;
    p' := p;
    var header := entries[count];
    var canonical := Canonical(header.name);
    if canonical in p.seen {
      SeenTwice(p, entries, root, count);
    }
    if count >= MAX_ENTRIES || !SafeModArchivePath(header.name) || canonical in p.seen {
      return false, p;
    }
    var path := Target(root, canonical);
    TargetInside(root, header.name);
    if !PathWithinRoot(path, root) {
      assert false;
      return false, p;
    }
    p' := p.(seen := p.seen + {canonical});
    match header.kind {
      case Directory =>
      case Regular =>
        if header.size < 0 || p.total > MAX_BUNDLE - header.size {
          return false, p;
        }
        p' := Progress(p'.seen, p.total + header.size, p.fileCount + 1,
                       p.files + [Written(path, header.size, Mode(header.executable))]);
      case Special =>
        return false, p;
    }
    OneMore(p, p', entries, root, count);
    ok := works;
  }

  lemma RefusedNotExtractable(entries: seq<Entry>, count: nat)
    requires count < |entries|
    requires || count >= MAX_ENTRIES || !EntryFits(entries[count]) || !NamesDiffer(entries, count + 1)
             || Total(entries, count + 1) > MAX_BUNDLE as int
    ensures !Extractable(entries)
  {
    if forall i :: 0 <= i < |entries| ==> EntryFits(entries[i]) {
      TotalGrows(entries, count + 1, |entries|);
    }
  }

  /** extractModArchive. `io(n)` is whether every file-system operation for entry n succeeds.
      It succeeds exactly on an extractable archive that meets no such failure, and then has
      written each file at its own path inside the root. Sizes are 64-bit: no step of the sum
      overflows. */
  method ExtractModArchive(entries: seq<Entry>, root: string, io: nat -> bool) returns (ok: bool, files: seq<Written>)
    requires HasPrefix(root, "/")
    ensures ok <==> Extractable(entries) && forall n: nat :: n < |entries| ==> io(n)
    ensures ok ==> files == FilesOf(root, entries, |entries|)
    ensures Sum(files) <= MAX_BUNDLE as int
    ensures forall i :: 0 <= i < |files| ==> PathWithinRoot(files[i].path, root)
    ensures forall i, j :: 0 <= i < j < |files| ==> files[i].path != files[j].path
  {
    hide SafeModArchivePath, Canonical, Target, PathWithinRoot;
    var p := Progress({}, 0, 0, []);
    var count := 0;
    ok := true;
    while count < |entries| && ok
      invariant 0 <= count <= |entries| && Extracted(p, entries, root, count)
      invariant forall n: nat :: n < count ==> io(n)
      invariant !ok ==> count < |entries| && (!Extractable(entries) || !io(count))
      decreases |entries| - count, ok
    {
      var next;
      ok, next := ExtractEntry(p, entries, root, count, io(count));
      if ok {
        p, count := next, count + 1;
      } else if io(count) {
        RefusedNotExtractable(entries, count);
      }
    }
    files := p.files;
    ok := ok && p.fileCount != 0;
    FilesSum(root, entries, count);
    forall i | 0 <= i < |files| ensures PathWithinRoot(files[i].path, root) {
      FilesInside(root, entries, count, i);
    }
    forall i, j | 0 <= i < j < |files| ensures files[i].path != files[j].path {
      FilesDiffer(root, entries, count, i, j);
    }
  }
}
