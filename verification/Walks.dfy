/**
 The early-exit directory walks of mcp.rs. A directory tree is finite; directory entries come in any
 order and are sorted by name; the regular expression is any predicate on text.
 */
module Walks {
  import opened Wrappers
  import opened StableSort

  const MAX_GREP_LINES := 500
  const MAX_GLOB_RESULTS := 1000
  const SKIP_DIRS := [
    ".git", ".build", "target", "node_modules", ".cargo", ".npm", ".yarn", "__pycache__", ".venv",
    "dist", "build"]

  /** `File` has no lines when it cannot be read as text; `Other` is neither a file nor a directory. */
  datatype Node =
    | File(name: string, text: Option<seq<string>>)
    | Dir(name: string, entries: seq<Node>)
    | Other(name: string)

  /** Lexicographic order on names. */
  predicate NameLe(a: string, b: string) {
    a == "" || (b != "" && (a[0] < b[0] || (a[0] == b[0] && NameLe(a[1..], b[1..]))))
  }

  lemma {:induction false} NameLeTotal(a: string, b: string)
    ensures NameLe(a, b) || NameLe(b, a)
  {
    if a != "" && b != "" {
      NameLeTotal(a[1..], b[1..]);
    }
  }

  lemma {:induction false} NameLeTransitive(a: string, b: string, c: string)
    requires NameLe(a, b) && NameLe(b, c)
    ensures NameLe(a, c)
  {
    if a != "" && a[0] == b[0] == c[0] {
      NameLeTransitive(a[1..], b[1..], c[1..]);
    }
  }

  lemma NameLeIsOrder()
    ensures TotalPreorder(NameLe)
  {
    forall a, b ensures NameLe(a, b) || NameLe(b, a) {
      NameLeTotal(a, b);
    }
    forall a, b, c | NameLe(a, b) && NameLe(b, c) ensures NameLe(a, c) {
      NameLeTransitive(a, b, c);
    }
  }

  predicate EntryLe(a: Node, b: Node) {
    NameLe(a.name, b.name)
  }

  function SortedEntries(d: Node): (r: seq<Node>)
    requires d.Dir?
    ensures forall n :: n in r ==> n in d.entries
  {
    SortPermutes(d.entries, EntryLe);
    Sort(d.entries, EntryLe)
  }

  function Take<T>(s: seq<T>, n: nat): seq<T> {
    if |s| <= n then s else s[..n]
  }

  /** Cutting early changes nothing, and what was cut is full. */
  lemma TakeStep<T>(before: seq<T>, here: seq<T>, rest: seq<T>, n: nat)
    ensures var items := Take(before + here, n);
            && Take(items + rest, n) == Take(before + (here + rest), n)
            && (|items| >= n ==> Take(items + rest, n) == items)
  {
    assert before + (here + rest) == (before + here) + rest;
  }

  // ---------------------------------------------------------------- grep

  datatype Hit = Hit(path: string, line: nat, text: string)

  function LineHits(path: string, lines: seq<string>, re: string -> bool, from: nat): seq<Hit>
    requires from <= |lines|
    decreases |lines| - from
  {
    if from == |lines| then []
    else (if re(lines[from]) then [Hit(path, from + 1, lines[from])] else []) + LineHits(path, lines, re, from + 1)
  }

  /** Every hit of the full walk: sorted, depth first, skipping the skipped directories. */
  function AllHits(node: Node, re: string -> bool, display: string): seq<Hit>
    decreases node, 1, 0
  {
    match node
    case File(_, text) => if text.Some? then LineHits(display, text.value, re, 0) else []
    case Dir(name, _) => if name in SKIP_DIRS then [] else EntryHits(node, SortedEntries(node), re, display, 0)
    case Other(_) => []
  }

  function EntryHits(dir: Node, sorted: seq<Node>, re: string -> bool, display: string, from: nat): seq<Hit>
    requires dir.Dir? && (forall n :: n in sorted ==> n in dir.entries) && from <= |sorted|
    decreases dir, 0, |sorted| - from
  {
    if from == |sorted| then []
    else
      assert sorted[from] in dir.entries;
      AllHits(sorted[from], re, display + "/" + sorted[from].name) + EntryHits(dir, sorted, re, display, from + 1)
  }

  /** The `&mut Vec<String>` that the walks share. */
  class Results<T> {
    var items: seq<T>

    constructor ()
      ensures items == []
    {
      items := [];
    }
  }

  /** `grep_walk`: from a list below the limit, it leaves the first hits of the full walk. */
  method GrepWalk(node: Node, re: string -> bool, display: string, out: Results<Hit>)
    modifies out
    ensures |old(out.items)| < MAX_GREP_LINES ==>
              out.items == Take(old(out.items) + AllHits(node, re, display), MAX_GREP_LINES)
    decreases node
  {
    match node {
      case Dir(name, _) =>
        if name in SKIP_DIRS {
          return;
        }
        var entries := SortedEntries(node);
        var i := 0;
        while i < |entries|
          invariant 0 <= i <= |entries|
          invariant |old(out.items)| < MAX_GREP_LINES ==>
                      && Take(out.items + EntryHits(node, entries, re, display, i), MAX_GREP_LINES)
                         == Take(old(out.items) + AllHits(node, re, display), MAX_GREP_LINES)
                      && |out.items| < MAX_GREP_LINES
        {
          var child := entries[i];
          assert child in node.entries;
          ghost var before := out.items;
          ghost var here := AllHits(child, re, display + "/" + child.name);
          ghost var rest := EntryHits(node, entries, re, display, i + 1);
          GrepWalk(child, re, display + "/" + child.name, out);
          TakeStep(before, here, rest, MAX_GREP_LINES);
          i := i + 1;
          if |out.items| >= MAX_GREP_LINES {
            break;
          }
        }
      case File(_, text) =>
        if text.Some? {
          GrepFile(text.value, re, display, out);
        }
      case Other(_) =>
    }
  }

  method GrepFile(lines: seq<string>, re: string -> bool, display: string, out: Results<Hit>)
    modifies out
    ensures |old(out.items)| < MAX_GREP_LINES ==>
              out.items == Take(old(out.items) + LineHits(display, lines, re, 0), MAX_GREP_LINES)
  {
    ghost var before := out.items;
    var i := 0;
    while i < |lines|
      invariant 0 <= i <= |lines|
      invariant |before| < MAX_GREP_LINES ==>
                  && out.items + LineHits(display, lines, re, i) == before + LineHits(display, lines, re, 0)
                  && |out.items| < MAX_GREP_LINES
    {
      if re(lines[i]) {
        out.items := out.items + [Hit(display, i + 1, lines[i])];
        if |out.items| >= MAX_GREP_LINES {
          ghost var later := LineHits(display, lines, re, i + 1);
          assert |before| < MAX_GREP_LINES ==> out.items + later == before + LineHits(display, lines, re, 0);
          break;
        }
      }
      i := i + 1;
    }
  }

  /**
   `grep`: the first 500 hits of the full walk. The walk itself never exceeds the limit, so the
   truncation notice is never printed, whether or not hits were cut off.
   */
  method Grep(root: Node, re: string -> bool, display: string) returns (hits: seq<Hit>, truncated: bool)
    ensures hits == Take(AllHits(root, re, display), 500)
    ensures !truncated
  {
    var results := new Results<Hit>();
    GrepWalk(root, re, display, results);
    truncated := |results.items| > MAX_GREP_LINES;
    hits := Take(results.items, MAX_GREP_LINES);
    assert [] + AllHits(root, re, display) == AllHits(root, re, display);
  }

  // ---------------------------------------------------------------- glob

  /** The matching files below `dir`, in walk order; the base directory itself is never skipped. */
  function AllPaths(dir: Node, isBase: bool, re: string -> bool, prefix: string): seq<string>
    decreases dir, 1, 0
  {
    if !dir.Dir? || (!isBase && dir.name in SKIP_DIRS) then []
    else EntryPaths(dir, SortedEntries(dir), re, prefix, 0)
  }

  function EntryPaths(dir: Node, sorted: seq<Node>, re: string -> bool, prefix: string, from: nat): seq<string>
    requires dir.Dir? && (forall n :: n in sorted ==> n in dir.entries) && from <= |sorted|
    decreases dir, 0, |sorted| - from
  {
    if from == |sorted| then []
    else
      var n := sorted[from];
      assert n in dir.entries;
      PathsOf(n, re, prefix + n.name) + EntryPaths(dir, sorted, re, prefix, from + 1)
  }

  /** What one entry with relative path `rel` contributes. */
  function PathsOf(n: Node, re: string -> bool, rel: string): seq<string>
    decreases n, 2, 0
  {
    if n.File? then if re(rel) then [rel] else []
    else if n.Dir? then AllPaths(n, false, re, rel + "/")
    else []
  }

  method GlobWalk(dir: Node, isBase: bool, re: string -> bool, prefix: string, results: Results<string>)
    modifies results
    ensures |old(results.items)| < MAX_GLOB_RESULTS ==>
              results.items == Take(old(results.items) + AllPaths(dir, isBase, re, prefix), MAX_GLOB_RESULTS)
    decreases dir, 0
  {
    if !dir.Dir? {
      return;
    }
    if !isBase && dir.name in SKIP_DIRS {
      return;
    }
    var entries := SortedEntries(dir);
    var i := 0;
    while i < |entries|
      invariant 0 <= i <= |entries|
      invariant |old(results.items)| < MAX_GLOB_RESULTS ==>
                  && Take(results.items + EntryPaths(dir, entries, re, prefix, i), MAX_GLOB_RESULTS)
                     == Take(old(results.items) + AllPaths(dir, isBase, re, prefix), MAX_GLOB_RESULTS)
                  && |results.items| < MAX_GLOB_RESULTS
    {
      var entry := entries[i];
      assert entry in dir.entries;
      var rel := prefix + entry.name;
      ghost var before := results.items;
      ghost var here := PathsOf(entry, re, rel);
      ghost var rest := EntryPaths(dir, entries, re, prefix, i + 1);
      VisitEntry(entry, re, rel, results);
      TakeStep(before, here, rest, MAX_GLOB_RESULTS);
      i := i + 1;
      if |results.items| >= MAX_GLOB_RESULTS {
        break;
      }
    }
  }

  method VisitEntry(entry: Node, re: string -> bool, rel: string, results: Results<string>)
    modifies results
    ensures |old(results.items)| < MAX_GLOB_RESULTS ==>
              results.items == Take(old(results.items) + PathsOf(entry, re, rel), MAX_GLOB_RESULTS)
    decreases entry, 1
  {
    if entry.File? && re(rel) {
      results.items := results.items + [rel];
    }
    if entry.Dir? {
      GlobWalk(entry, false, re, rel + "/", results);
    }
  }

  /** `glob_tool`: the first 1000 matches of the walk, then sorted. `capped` is only "at least 1000". */
  method Glob(base: Node, re: string -> bool) returns (paths: seq<string>, capped: bool)
    ensures paths == Sort(Take(AllPaths(base, true, re, ""), 1000), NameLe)
    ensures Sorted(paths, NameLe)
    ensures capped <==> |AllPaths(base, true, re, "")| >= 1000
  {
    var results := new Results<string>();
    GlobWalk(base, true, re, "", results);
    assert [] + AllPaths(base, true, re, "") == AllPaths(base, true, re, "");
    var matches := Sort(results.items, NameLe);
    SortPermutes(results.items, NameLe);
    NameLeIsOrder();
    SortSorts(results.items, NameLe);
    capped := |matches| >= MAX_GLOB_RESULTS;
    paths := Take(matches, MAX_GLOB_RESULTS);
  }

  // ---------------------------------------------------------------- the full walks find exactly the matches

  /** The text file displayed as `path`, reached from `node` without entering a skipped directory. */
  ghost predicate FileAt(node: Node, display: string, path: string, text: seq<string>) {
    match node
    case File(_, t) => path == display && t == Some(text)
    case Dir(name, entries) =>
      name !in SKIP_DIRS && exists n :: n in entries && FileAt(n, display + "/" + n.name, path, text)
    case Other(_) => false
  }

  ghost predicate HitIn(text: seq<string>, re: string -> bool, h: Hit) {
    1 <= h.line <= |text| && text[h.line - 1] == h.text && re(h.text)
  }

  lemma {:induction false} LineHitsExact(path: string, lines: seq<string>, re: string -> bool, from: nat, h: Hit)
    requires from <= |lines|
    ensures h in LineHits(path, lines, re, from) <==> h.path == path && h.line > from && HitIn(lines, re, h)
    decreases |lines| - from
  {
    if from < |lines| {
      var here := if re(lines[from]) then [Hit(path, from + 1, lines[from])] else [];
      var later := LineHits(path, lines, re, from + 1);
      LineHitsExact(path, lines, re, from + 1, h);
      assert h in here + later <==> h in here || h in later;
      assert h in here <==> re(lines[from]) && h == Hit(path, from + 1, lines[from]);
    }
  }

  /** A full grep walk reports a line exactly when an unskipped text file has that matching line. */
  lemma {:induction false} HitsAreExact(node: Node, re: string -> bool, display: string, h: Hit)
    ensures h in AllHits(node, re, display) <==>
            exists text :: FileAt(node, display, h.path, text) && HitIn(text, re, h)
    decreases node, 1, 0
  {
    match node {
      case File(_, text) =>
        if text.Some? {
          LineHitsExact(display, text.value, re, 0, h);
          assert h.path == display ==> FileAt(node, display, h.path, text.value);
        }
      case Dir(name, entries) =>
        if name !in SKIP_DIRS {
          EntryHitsExact(node, SortedEntries(node), re, display, 0, h);
          if h in AllHits(node, re, display) {
            var i :| 0 <= i < |SortedEntries(node)| && EntryHas(SortedEntries(node)[i], re, display, h);
            var n := SortedEntries(node)[i];
            var text :| FileAt(n, display + "/" + n.name, h.path, text) && HitIn(text, re, h);
            assert n in entries && FileAt(node, display, h.path, text);
          }
          if text :| FileAt(node, display, h.path, text) && HitIn(text, re, h) {
            var n :| n in entries && FileAt(n, display + "/" + n.name, h.path, text);
            SortPermutes(entries, EntryLe);
            assert n in SortedEntries(node);
            var i :| 0 <= i < |SortedEntries(node)| && SortedEntries(node)[i] == n;
            assert EntryHas(SortedEntries(node)[i], re, display, h);
          }
        }
      case Other(_) =>
    }
  }

  ghost predicate EntryHas(n: Node, re: string -> bool, display: string, h: Hit) {
    exists text :: FileAt(n, display + "/" + n.name, h.path, text) && HitIn(text, re, h)
  }

  lemma {:induction false} EntryHitsExact(dir: Node, sorted: seq<Node>, re: string -> bool, display: string, from: nat, h: Hit)
    requires dir.Dir? && (forall n :: n in sorted ==> n in dir.entries) && from <= |sorted|
    ensures h in EntryHits(dir, sorted, re, display, from) <==>
            exists i :: from <= i < |sorted| && EntryHas(sorted[i], re, display, h)
    decreases dir, 0, |sorted| - from
  {
    if from < |sorted| {
      assert sorted[from] in dir.entries;
      HitsAreExact(sorted[from], re, display + "/" + sorted[from].name, h);
      EntryHitsExact(dir, sorted, re, display, from + 1, h);
    }
  }

  /** The file with relative path `path` below `dir`, reached without entering a skipped directory. */
  ghost predicate PathAt(n: Node, rel: string, path: string) {
    match n
    case File(_, _) => path == rel
    case Dir(name, entries) =>
      name !in SKIP_DIRS && exists m :: m in entries && PathAt(m, rel + "/" + m.name, path)
    case Other(_) => false
  }

  /** A full glob walk lists a path exactly when it matches and names an unskipped file. */
  lemma {:induction false} PathsAreExact(n: Node, re: string -> bool, rel: string, path: string)
    ensures path in PathsOf(n, re, rel) <==> PathAt(n, rel, path) && re(path)
    decreases n, 2, 0
  {
    if n.Dir? && n.name !in SKIP_DIRS {
      var sorted := SortedEntries(n);
      EntryPathsExact(n, sorted, re, rel + "/", 0, path);
      if path in PathsOf(n, re, rel) {
        var i :| 0 <= i < |sorted| && path in PathsOf(sorted[i], re, rel + "/" + sorted[i].name);
        assert sorted[i] in n.entries;
        PathsAreExact(sorted[i], re, rel + "/" + sorted[i].name, path);
      }
      if PathAt(n, rel, path) && re(path) {
        var m :| m in n.entries && PathAt(m, rel + "/" + m.name, path);
        PathsAreExact(m, re, rel + "/" + m.name, path);
        SortPermutes(n.entries, EntryLe);
        assert m in sorted;
        var i :| 0 <= i < |sorted| && sorted[i] == m;
      }
    }
  }

  lemma {:induction false} EntryPathsExact(dir: Node, sorted: seq<Node>, re: string -> bool, prefix: string, from: nat, path: string)
    requires dir.Dir? && (forall n :: n in sorted ==> n in dir.entries) && from <= |sorted|
    ensures path in EntryPaths(dir, sorted, re, prefix, from) <==>
            exists i :: from <= i < |sorted| && path in PathsOf(sorted[i], re, prefix + sorted[i].name)
    decreases |sorted| - from
  {
    if from < |sorted| {
      EntryPathsExact(dir, sorted, re, prefix, from + 1, path);
    }
  }

  /** The base of a glob is never skipped, whatever its name; a base that is no directory has no paths. */
  lemma BasePathsAreExact(base: Node, re: string -> bool, path: string)
    ensures path in AllPaths(base, true, re, "") <==>
            base.Dir? && exists m :: m in base.entries && PathAt(m, m.name, path) && re(path)
  {
    if base.Dir? {
      var sorted := SortedEntries(base);
      EntryPathsExact(base, sorted, re, "", 0, path);
      if path in AllPaths(base, true, re, "") {
        var i :| 0 <= i < |sorted| && path in PathsOf(sorted[i], re, "" + sorted[i].name);
        assert sorted[i] in base.entries && "" + sorted[i].name == sorted[i].name;
        PathsAreExact(sorted[i], re, sorted[i].name, path);
      }
      if m :| m in base.entries && PathAt(m, m.name, path) && re(path) {
        PathsAreExact(m, re, m.name, path);
        SortPermutes(base.entries, EntryLe);
        assert m in sorted && "" + m.name == m.name;
        var i :| 0 <= i < |sorted| && sorted[i] == m;
      }
    }
  }

  // ---------------------------------------------------------------- the full walks go in order

  /** `NameLe` is the lexicographic order: a prefix, or smaller at the first difference. */
  lemma {:induction false} NameLeIsLexicographic(a: string, b: string)
    ensures NameLe(a, b) <==> a <= b || exists k :: FirstDifference(a, b, k) && a[k] < b[k]
  {
    if a != "" && b != "" {
      var x, y := a[1..], b[1..];
      NameLeIsLexicographic(x, y);
      if a[0] == b[0] {
        if k :| FirstDifference(x, y, k) && x[k] < y[k] {
          assert FirstDifference(a, b, k + 1);
        }
        if k :| FirstDifference(a, b, k) && a[k] < b[k] {
          assert FirstDifference(x, y, k - 1);
        }
      } else {
        assert FirstDifference(a, b, 0);
      }
    }
  }

  predicate FirstDifference(a: string, b: string, k: int) {
    0 <= k < |a| && k < |b| && a[k] != b[k] && forall i :: 0 <= i < k ==> a[i] == b[i]
  }

  predicate OneEach(entries: seq<Node>) {
    forall i, j :: 0 <= i < j < |entries| ==> entries[i].name != entries[j].name
  }

  /** As a file system names its entries: no slash in a name, and no name twice in a directory. */
  ghost predicate WellNamed(node: Node) {
    node.Dir? ==>
      OneEach(node.entries) && forall n :: n in node.entries ==> '/' !in n.name && WellNamed(n)
  }

  predicate Ascending(entries: seq<Node>) {
    forall i, j :: 0 <= i < j < |entries| ==>
      entries[i].name != entries[j].name && NameLe(entries[i].name, entries[j].name)
  }

  lemma OneMoreEach(x: Node, s: seq<Node>)
    requires OneEach(s) && forall n :: n in s ==> n.name != x.name
    ensures OneEach([x] + s)
  {
  }

  lemma {:induction false} InsertOneEach(x: Node, s: seq<Node>)
    requires OneEach(s) && forall n :: n in s ==> n.name != x.name
    ensures OneEach(Insert(x, s, EntryLe))
  {
    if s != [] && !EntryLe(x, s[0]) {
      var rest := Insert(x, s[1..], EntryLe);
      InsertOneEach(x, s[1..]);
      InsertPermutes(x, s[1..], EntryLe);
      forall n | n in rest ensures n.name != s[0].name {
        assert n in multiset(rest);
        assert n == x || n in s[1..];
      }
      OneMoreEach(s[0], rest);
    } else {
      OneMoreEach(x, s);
    }
  }

  lemma {:induction false} SortOneEach(s: seq<Node>)
    requires OneEach(s)
    ensures OneEach(Sort(s, EntryLe))
  {
    if s != [] {
      SortOneEach(s[1..]);
      SortPermutes(s[1..], EntryLe);
      forall n | n in Sort(s[1..], EntryLe) ensures n.name != s[0].name {
        var i :| 0 <= i < |s[1..]| && s[1..][i] == n;
        assert s[i + 1] == n;
      }
      InsertOneEach(s[0], Sort(s[1..], EntryLe));
    }
  }

  /** The entries are visited in the order of their names, every one once. */
  lemma EntriesAscend(d: Node)
    requires d.Dir? && OneEach(d.entries)
    ensures Ascending(SortedEntries(d)) && multiset(SortedEntries(d)) == multiset(d.entries)
  {
    NameLeIsOrder();
    assert TotalPreorder(EntryLe) by {
      forall a: Node, b: Node ensures EntryLe(a, b) || EntryLe(b, a) {
        NameLeTotal(a.name, b.name);
      }
      forall a: Node, b: Node, c: Node | EntryLe(a, b) && EntryLe(b, c) ensures EntryLe(a, c) {
        NameLeTransitive(a.name, b.name, c.name);
      }
    }
    SortSorts(d.entries, EntryLe);
    SortOneEach(d.entries);
    SortPermutes(d.entries, EntryLe);
    var r := SortedEntries(d);
    forall i, j | 0 <= i < j < |r| ensures NameLe(r[i].name, r[j].name) {
      assert EntryLe(r[i], r[j]);
    }
  }

  /** `path` is `dir`, which is empty or ends in a slash, then the component `name`, then `tail`. */
  predicate Parts(path: string, dir: string, name: string, tail: string) {
    && path == dir + (name + tail)
    && (dir == "" || dir[|dir| - 1] == '/') && '/' !in name && (tail == "" || tail[0] == '/')
  }

  ghost predicate DifferAt(p: string, q: string, dir: string, m: string, n: string, s: string, t: string) {
    Parts(p, dir, m, s) && Parts(q, dir, n, t) && m != n && NameLe(m, n)
  }

  /** Component by component: where the two paths first differ, `p` has the smaller name. */
  ghost predicate PathBefore(p: string, q: string) {
    exists dir, m, n, s, t :: DifferAt(p, q, dir, m, n, s, t)
  }

  /** What stands before the first slash. */
  function First(p: string): string {
    if p == "" || p[0] == '/' then "" else [p[0]] + First(p[1..])
  }

  lemma {:induction false} FirstOf(name: string, tail: string)
    requires '/' !in name && (tail == "" || tail[0] == '/')
    ensures First(name + tail) == name
  {
    if name == "" {
      assert name + tail == tail;
    } else {
      FirstOf(name[1..], tail);
      assert (name + tail)[1..] == name[1..] + tail;
    }
  }

  lemma {:induction false} FirstOfPrefix(u: string, v: string)
    requires '/' in u
    ensures First(u + v) == First(u)
  {
    if u[0] != '/' {
      FirstOfPrefix(u[1..], v);
      assert (u + v)[1..] == u[1..] + v;
    }
  }

  lemma {:induction false} NameLeAntisymmetric(a: string, b: string)
    requires NameLe(a, b) && NameLe(b, a)
    ensures a == b
  {
    if a != "" && b != "" {
      NameLeAntisymmetric(a[1..], b[1..]);
      assert a == [a[0]] + a[1..] && b == [b[0]] + b[1..];
    }
  }

  lemma DroppedPrefix(p: string, dir: string, rest: string)
    requires p == dir + rest
    ensures p[..|dir|] == dir && p[|dir|..] == rest
  {
  }

  lemma FirstBelow(p: string, dir: string, name: string, tail: string, deeper: string)
    requires Parts(p, dir, name, tail) && deeper <= p && |dir| < |deeper| && deeper[|deeper| - 1] == '/'
    ensures First(deeper[|dir|..]) == name
  {
    var u, v := deeper[|dir|..], p[|deeper|..];
    DroppedPrefix(p, dir, name + tail);
    assert u[|u| - 1] == '/';
    assert p[|dir|..] == u + v;
    FirstOfPrefix(u, v);
    FirstOf(name, tail);
  }

  /** No common directory of two paths reaches past where they differ. */
  lemma NoLongerCommon(p: string, q: string, dir: string, m: string, n: string, s: string, t: string, deeper: string)
    requires DifferAt(p, q, dir, m, n, s, t) && deeper <= p && deeper <= q
    requires deeper != "" && deeper[|deeper| - 1] == '/'
    ensures |deeper| <= |dir|
  {
    if |dir| < |deeper| {
      FirstBelow(p, dir, m, s, deeper);
      FirstBelow(q, dir, n, t, deeper);
    }
  }

  lemma SameDirectory(p: string, q: string, dir: string, m: string, n: string, s: string, t: string,
                      dir': string, m': string, n': string, s': string, t': string)
    requires DifferAt(p, q, dir, m, n, s, t) && DifferAt(q, p, dir', n', m', t', s')
    ensures m == m' && n == n'
  {
    DroppedPrefix(p, dir, m + s);
    DroppedPrefix(q, dir, n + t);
    DroppedPrefix(p, dir', m' + s');
    DroppedPrefix(q, dir', n' + t');
    if dir' != "" { NoLongerCommon(p, q, dir, m, n, s, t, dir'); }
    if dir != "" { NoLongerCommon(q, p, dir', n', m', t', s', dir); }
    FirstOf(m, s);
    FirstOf(n, t);
    FirstOf(m', s');
    FirstOf(n', t');
  }

  /** The order is strict: no path is before itself, and no two are before each other. */
  lemma PathBeforeIsStrict(p: string, q: string)
    requires PathBefore(p, q)
    ensures !PathBefore(q, p) && p != q
  {
    var dir, m, n, s, t :| DifferAt(p, q, dir, m, n, s, t);
    DroppedPrefix(p, dir, m + s);
    DroppedPrefix(q, dir, n + t);
    FirstOf(m, s);
    FirstOf(n, t);
    if PathBefore(q, p) {
      var dir', n', m', t', s' :| DifferAt(q, p, dir', n', m', t', s');
      SameDirectory(p, q, dir, m, n, s, t, dir', m', n', s', t');
      NameLeAntisymmetric(m, n);
    }
  }

  /** `path` is `base` or something below it. */
  predicate Under(path: string, base: string) {
    base <= path && (|path| == |base| || path[|base|] == '/')
  }

  lemma UnderParts(p: string, dir: string, name: string)
    requires Under(p, dir + name) && (dir == "" || dir[|dir| - 1] == '/') && '/' !in name
    ensures Parts(p, dir, name, p[|dir + name|..])
  {
    var tail := p[|dir + name|..];
    assert p == (dir + name) + tail;
    assert (dir + name) + tail == dir + (name + tail);
  }

  lemma UnderSiblings(p: string, q: string, dir: string, m: string, n: string)
    requires Under(p, dir + m) && Under(q, dir + n) && (dir == "" || dir[|dir| - 1] == '/')
    requires '/' !in m && '/' !in n && m != n && NameLe(m, n)
    ensures PathBefore(p, q)
  {
    UnderParts(p, dir, m);
    UnderParts(q, dir, n);
    assert DifferAt(p, q, dir, m, n, p[|dir + m|..], q[|dir + n|..]);
  }

  lemma {:induction false} FileIsUnder(node: Node, display: string, path: string, text: seq<string>)
    requires FileAt(node, display, path, text)
    ensures Under(path, display)
  {
    if node.Dir? {
      var n :| n in node.entries && FileAt(n, display + "/" + n.name, path, text);
      FileIsUnder(n, display + "/" + n.name, path, text);
      var longer := display + "/" + n.name;
      assert longer <= path && longer[|display|] == '/' && path[|display|] == longer[|display|];
      assert display <= longer;
    }
  }

  ghost predicate HitBefore(a: Hit, b: Hit) {
    (a.path == b.path && a.line < b.line) || PathBefore(a.path, b.path)
  }

  ghost predicate HitsAscend(hits: seq<Hit>) {
    forall i, j :: 0 <= i < j < |hits| ==> HitBefore(hits[i], hits[j])
  }

  lemma HitsAscendConcat(a: seq<Hit>, b: seq<Hit>)
    requires HitsAscend(a) && HitsAscend(b) && forall x, y :: x in a && y in b ==> HitBefore(x, y)
    ensures HitsAscend(a + b)
  {
    var c := a + b;
    forall i, j | 0 <= i < j < |c| ensures HitBefore(c[i], c[j]) {
      assert i < |a| ==> c[i] == a[i] && a[i] in a;
      assert j >= |a| ==> c[j] == b[j - |a|] && b[j - |a|] in b;
      assert j < |a| ==> HitBefore(a[i], a[j]);
      assert i >= |a| ==> HitBefore(b[i - |a|], b[j - |a|]);
    }
  }

  lemma {:induction false} LineHitsAscend(path: string, lines: seq<string>, re: string -> bool, from: nat)
    requires from <= |lines|
    ensures HitsAscend(LineHits(path, lines, re, from))
    decreases |lines| - from
  {
    if from < |lines| {
      var here := if re(lines[from]) then [Hit(path, from + 1, lines[from])] else [];
      var later := LineHits(path, lines, re, from + 1);
      LineHitsAscend(path, lines, re, from + 1);
      forall x, y | x in here && y in later ensures HitBefore(x, y) {
        LineHitsExact(path, lines, re, from + 1, y);
      }
      HitsAscendConcat(here, later);
    }
  }

  lemma HitsAreUnder(n: Node, re: string -> bool, display: string, h: Hit)
    requires h in AllHits(n, re, display)
    ensures Under(h.path, display)
  {
    HitsAreExact(n, re, display, h);
    var text :| FileAt(n, display, h.path, text) && HitIn(text, re, h);
    FileIsUnder(n, display, h.path, text);
  }

  lemma EntryHitIsUnder(n: Node, re: string -> bool, display: string, h: Hit)
    requires EntryHas(n, re, display, h)
    ensures Under(h.path, display + "/" + n.name)
  {
    var text :| FileAt(n, display + "/" + n.name, h.path, text) && HitIn(text, re, h);
    FileIsUnder(n, display + "/" + n.name, h.path, text);
  }

  lemma EntryHitPlace(dir: Node, sorted: seq<Node>, re: string -> bool, display: string, from: nat, h: Hit)
    returns (i: nat)
    requires dir.Dir? && (forall n :: n in sorted ==> n in dir.entries) && from <= |sorted|
    requires h in EntryHits(dir, sorted, re, display, from)
    ensures from <= i < |sorted| && Under(h.path, display + "/" + sorted[i].name)
  {
    EntryHitsExact(dir, sorted, re, display, from, h);
    i :| from <= i < |sorted| && EntryHas(sorted[i], re, display, h);
    EntryHitIsUnder(sorted[i], re, display, h);
  }

  lemma LaterSibling(sorted: seq<Node>, dir: string, i: nat, j: nat, p: string, q: string)
    requires Ascending(sorted) && (forall n :: n in sorted ==> '/' !in n.name) && i < j < |sorted|
    requires (dir == "" || dir[|dir| - 1] == '/') && Under(p, dir + sorted[i].name) && Under(q, dir + sorted[j].name)
    ensures PathBefore(p, q)
  {
    assert sorted[i] in sorted && sorted[j] in sorted;
    UnderSiblings(p, q, dir, sorted[i].name, sorted[j].name);
  }

  lemma LaterEntryHits(dir: Node, sorted: seq<Node>, re: string -> bool, display: string, from: nat, x: Hit, y: Hit)
    requires dir.Dir? && (forall n :: n in sorted ==> n in dir.entries) && from < |sorted|
    requires Ascending(sorted) && forall n :: n in sorted ==> '/' !in n.name
    requires x in AllHits(sorted[from], re, display + "/" + sorted[from].name)
    requires y in EntryHits(dir, sorted, re, display, from + 1)
    ensures HitBefore(x, y)
  {
    HitsAreUnder(sorted[from], re, display + "/" + sorted[from].name, x);
    var i := EntryHitPlace(dir, sorted, re, display, from + 1, y);
    LaterSibling(sorted, display + "/", from, i, x.path, y.path);
  }

  lemma {:induction false} EntryHitsAscend(dir: Node, sorted: seq<Node>, re: string -> bool, display: string, from: nat)
    requires dir.Dir? && (forall n :: n in sorted ==> n in dir.entries) && from <= |sorted|
    requires Ascending(sorted) && forall n :: n in sorted ==> '/' !in n.name && WellNamed(n)
    ensures HitsAscend(EntryHits(dir, sorted, re, display, from))
    decreases dir, 0, |sorted| - from
  {
    if from < |sorted| {
      assert sorted[from] in dir.entries;
      var here := AllHits(sorted[from], re, display + "/" + sorted[from].name);
      var later := EntryHits(dir, sorted, re, display, from + 1);
      HitsAreOrdered(sorted[from], re, display + "/" + sorted[from].name);
      EntryHitsAscend(dir, sorted, re, display, from + 1);
      forall x, y | x in here && y in later ensures HitBefore(x, y) {
        LaterEntryHits(dir, sorted, re, display, from, x, y);
      }
      HitsAscendConcat(here, later);
    }
  }

  /**
   The hits come in the order of their paths, component by component, and within a file in the order
   of its lines; with `PathBeforeIsStrict`, none is listed twice.
   */
  lemma {:induction false} HitsAreOrdered(node: Node, re: string -> bool, display: string)
    requires WellNamed(node)
    ensures HitsAscend(AllHits(node, re, display))
    decreases node, 1, 0
  {
    match node {
      case File(_, text) =>
        if text.Some? {
          LineHitsAscend(display, text.value, re, 0);
        }
      case Dir(name, entries) =>
        if name !in SKIP_DIRS {
          EntriesAscend(node);
          EntryHitsAscend(node, SortedEntries(node), re, display, 0);
        }
      case Other(_) =>
    }
  }

  lemma HitsAreDistinct(hits: seq<Hit>)
    requires HitsAscend(hits)
    ensures forall i, j :: 0 <= i < j < |hits| ==> hits[i] != hits[j]
  {
    forall i, j | 0 <= i < j < |hits| ensures hits[i] != hits[j] {
      assert HitBefore(hits[i], hits[j]);
      if PathBefore(hits[i].path, hits[j].path) {
        PathBeforeIsStrict(hits[i].path, hits[j].path);
      }
    }
  }

  lemma {:induction false} PathIsUnder(n: Node, rel: string, path: string)
    requires PathAt(n, rel, path)
    ensures Under(path, rel)
  {
    if n.Dir? {
      var m :| m in n.entries && PathAt(m, rel + "/" + m.name, path);
      PathIsUnder(m, rel + "/" + m.name, path);
      var longer := rel + "/" + m.name;
      assert longer <= path && longer[|rel|] == '/' && path[|rel|] == longer[|rel|];
      assert rel <= longer;
    }
  }

  ghost predicate PathsAscend(paths: seq<string>) {
    forall i, j :: 0 <= i < j < |paths| ==> PathBefore(paths[i], paths[j])
  }

  lemma PathsAscendConcat(a: seq<string>, b: seq<string>)
    requires PathsAscend(a) && PathsAscend(b) && forall x, y :: x in a && y in b ==> PathBefore(x, y)
    ensures PathsAscend(a + b)
  {
    var c := a + b;
    forall i, j | 0 <= i < j < |c| ensures PathBefore(c[i], c[j]) {
      assert i < |a| ==> c[i] == a[i] && a[i] in a;
      assert j >= |a| ==> c[j] == b[j - |a|] && b[j - |a|] in b;
      assert j < |a| ==> PathBefore(a[i], a[j]);
      assert i >= |a| ==> PathBefore(b[i - |a|], b[j - |a|]);
    }
  }

  lemma PathsAreUnder(n: Node, re: string -> bool, rel: string, path: string)
    requires path in PathsOf(n, re, rel)
    ensures Under(path, rel)
  {
    PathsAreExact(n, re, rel, path);
    PathIsUnder(n, rel, path);
  }

  lemma EntryPathPlace(dir: Node, sorted: seq<Node>, re: string -> bool, prefix: string, from: nat, path: string)
    returns (i: nat)
    requires dir.Dir? && (forall n :: n in sorted ==> n in dir.entries) && from <= |sorted|
    requires path in EntryPaths(dir, sorted, re, prefix, from)
    ensures from <= i < |sorted| && Under(path, prefix + sorted[i].name)
  {
    EntryPathsExact(dir, sorted, re, prefix, from, path);
    i :| from <= i < |sorted| && path in PathsOf(sorted[i], re, prefix + sorted[i].name);
    PathsAreUnder(sorted[i], re, prefix + sorted[i].name, path);
  }

  lemma LaterEntryPaths(dir: Node, sorted: seq<Node>, re: string -> bool, prefix: string, from: nat, x: string, y: string)
    requires dir.Dir? && (forall n :: n in sorted ==> n in dir.entries) && from < |sorted|
    requires Ascending(sorted) && forall n :: n in sorted ==> '/' !in n.name
    requires prefix == "" || prefix[|prefix| - 1] == '/'
    requires x in PathsOf(sorted[from], re, prefix + sorted[from].name)
    requires y in EntryPaths(dir, sorted, re, prefix, from + 1)
    ensures PathBefore(x, y)
  {
    PathsAreUnder(sorted[from], re, prefix + sorted[from].name, x);
    var i := EntryPathPlace(dir, sorted, re, prefix, from + 1, y);
    LaterSibling(sorted, prefix, from, i, x, y);
  }

  lemma {:induction false} EntryPathsAscend(dir: Node, sorted: seq<Node>, re: string -> bool, prefix: string, from: nat)
    requires dir.Dir? && (forall n :: n in sorted ==> n in dir.entries) && from <= |sorted|
    requires Ascending(sorted) && forall n :: n in sorted ==> '/' !in n.name && WellNamed(n)
    requires prefix == "" || prefix[|prefix| - 1] == '/'
    ensures PathsAscend(EntryPaths(dir, sorted, re, prefix, from))
    decreases dir, 0, |sorted| - from
  {
    if from < |sorted| {
      var n := sorted[from];
      assert n in dir.entries;
      var here, later := PathsOf(n, re, prefix + n.name), EntryPaths(dir, sorted, re, prefix, from + 1);
      if n.Dir? {
        PathsAreOrdered(n, false, re, prefix + n.name + "/");
      }
      EntryPathsAscend(dir, sorted, re, prefix, from + 1);
      forall x, y | x in here && y in later ensures PathBefore(x, y) {
        LaterEntryPaths(dir, sorted, re, prefix, from, x, y);
      }
      PathsAscendConcat(here, later);
    }
  }

  /** The matching paths are found in that order too, before they are sorted as texts. */
  lemma {:induction false} PathsAreOrdered(dir: Node, isBase: bool, re: string -> bool, prefix: string)
    requires WellNamed(dir) && (prefix == "" || prefix[|prefix| - 1] == '/')
    ensures PathsAscend(AllPaths(dir, isBase, re, prefix))
    decreases dir, 1, 0
  {
    if dir.Dir? && (isBase || dir.name !in SKIP_DIRS) {
      EntriesAscend(dir);
      EntryPathsAscend(dir, SortedEntries(dir), re, prefix, 0);
    }
  }

  // ---------------------------------------------------------------- cut off without a notice

  const ANY_LINE := (line: string) => true

  lemma {:induction false} EveryLineHits(path: string, lines: seq<string>, from: nat)
    requires from <= |lines|
    ensures |LineHits(path, lines, ANY_LINE, from)| == |lines| - from
    decreases |lines| - from
  {
    if from < |lines| {
      EveryLineHits(path, lines, from + 1);
    }
  }

  /** One file with more than 500 matching lines: `Grep` cuts the rest off and reports no truncation. */
  lemma HitsAreCutOff(name: string, lines: seq<string>)
    requires |lines| > MAX_GREP_LINES
    ensures var hits := AllHits(File(name, Some(lines)), ANY_LINE, name);
            |hits| > MAX_GREP_LINES && Take(hits, MAX_GREP_LINES) != hits
  {
    EveryLineHits(name, lines, 0);
  }
}
