/**
 Rust's `sort_by_key` is a stable sort. It is specified here once, as insertion sort over a total
 preorder, for the span merger, the directory walks and the telemetry rotation.
 */
module StableSort {

  ghost predicate TotalPreorder<T(!new)>(le: (T, T) -> bool) {
    && (forall x, y :: le(x, y) || le(y, x))
    && (forall x, y, z :: le(x, y) && le(y, z) ==> le(x, z))
  }

  ghost predicate Sorted<T>(s: seq<T>, le: (T, T) -> bool) {
    forall i, j :: 0 <= i < j < |s| ==> le(s[i], s[j])
  }

  function Insert<T>(x: T, s: seq<T>, le: (T, T) -> bool): seq<T> {
    if s == [] then [x]
    else if le(x, s[0]) then [x] + s
    else [s[0]] + Insert(x, s[1..], le)
  }

  function Sort<T>(s: seq<T>, le: (T, T) -> bool): seq<T> {
    if s == [] then [] else Insert(s[0], Sort(s[1..], le), le)
  }

  /** The elements that `p` selects, in order. */
  function Select<T>(s: seq<T>, p: T -> bool): seq<T> {
    if s == [] then [] else (if p(s[0]) then [s[0]] else []) + Select(s[1..], p)
  }

  lemma {:induction false} InsertPermutes<T>(x: T, s: seq<T>, le: (T, T) -> bool)
    ensures multiset(Insert(x, s, le)) == multiset{x} + multiset(s)
  {
    if s != [] && !le(x, s[0]) {
      InsertPermutes(x, s[1..], le);
      assert s == [s[0]] + s[1..];
    }
  }

  lemma {:induction false} SortPermutes<T>(s: seq<T>, le: (T, T) -> bool)
    ensures multiset(Sort(s, le)) == multiset(s)
    ensures |Sort(s, le)| == |s|
    ensures forall x :: x in Sort(s, le) <==> x in s
  {
    if s != [] {
      SortPermutes(s[1..], le);
      InsertPermutes(s[0], Sort(s[1..], le), le);
      assert s == [s[0]] + s[1..];
    }
    var m := multiset(s);
    assert |Sort(s, le)| == |multiset(Sort(s, le))| == |m| == |s|;
    forall x ensures x in Sort(s, le) <==> x in s {
      assert x in multiset(Sort(s, le)) <==> x in m;
    }
  }

  lemma {:induction false} InsertSorts<T(!new)>(x: T, s: seq<T>, le: (T, T) -> bool)
    requires TotalPreorder(le) && Sorted(s, le)
    ensures Sorted(Insert(x, s, le), le)
  {
    if s != [] && !le(x, s[0]) {
      var rest := Insert(x, s[1..], le);
      InsertSorts(x, s[1..], le);
      InsertPermutes(x, s[1..], le);
      forall y | y in rest ensures le(s[0], y) {
        assert y in multiset(rest);
        assert y == x || y in s[1..];
      }
    }
  }

  lemma {:induction false} SortSorts<T(!new)>(s: seq<T>, le: (T, T) -> bool)
    requires TotalPreorder(le)
    ensures Sorted(Sort(s, le), le)
  {
    if s != [] {
      SortSorts(s[1..], le);
      InsertSorts(s[0], Sort(s[1..], le), le);
    }
  }

  lemma {:induction false} SortedIsFixed<T>(s: seq<T>, le: (T, T) -> bool)
    requires Sorted(s, le)
    ensures Sort(s, le) == s
  {
    if s != [] {
      SortedIsFixed(s[1..], le);
      assert |s| > 1 ==> le(s[0], s[1]);
    }
  }

  lemma SelectHead<T>(x: T, s: seq<T>, p: T -> bool)
    ensures Select([x] + s, p) == if p(x) then [x] + Select(s, p) else Select(s, p)
  {
    assert ([x] + s)[1..] == s;
    assert [] + Select(s, p) == Select(s, p);
  }

  lemma {:induction false} SelectKeeps<T(!new)>(s: seq<T>, p: T -> bool, le: (T, T) -> bool)
    ensures forall x :: x in Select(s, p) <==> x in s && p(x)
    ensures Sorted(s, le) ==> Sorted(Select(s, p), le)
  {
    if s != [] {
      var rest := Select(s[1..], p);
      SelectKeeps(s[1..], p, le);
      assert [s[0]] + s[1..] == s;
      SelectHead(s[0], s[1..], p);
      assert forall x :: x in s <==> x == s[0] || x in s[1..];
      if Sorted(s, le) {
        forall j | 0 <= j < |rest| ensures le(s[0], rest[j]) {
          assert rest[j] in s[1..];
        }
      }
    }
  }

  lemma {:induction false} InsertThenSelect<T(!new)>(x: T, s: seq<T>, le: (T, T) -> bool, p: T -> bool)
    requires TotalPreorder(le) && Sorted(s, le)
    ensures Select(Insert(x, s, le), p) == if p(x) then Insert(x, Select(s, p), le) else Select(s, p)
  {
    if s != [] && !le(x, s[0]) {
      var rest := s[1..];
      assert [s[0]] + rest == s;
      SelectHead(s[0], rest, p);
      SelectHead(s[0], Insert(x, rest, le), p);
      InsertThenSelect(x, rest, le, p);
      assert ([s[0]] + Select(rest, p))[1..] == Select(rest, p);
    } else {
      SelectHead(x, s, p);
      SelectKeeps(s, p, le);
      assert forall y :: y in s ==> le(x, y);
      assert Select(s, p) != [] ==> Select(s, p)[0] in s;
    }
  }

  /** Selecting from a stable sort is sorting the selection. */
  lemma {:induction false} SortThenSelect<T(!new)>(s: seq<T>, le: (T, T) -> bool, p: T -> bool)
    requires TotalPreorder(le)
    ensures Select(Sort(s, le), p) == Sort(Select(s, p), le)
  {
    if s != [] {
      var rest := s[1..];
      assert [s[0]] + rest == s;
      SortThenSelect(rest, le, p);
      SortSorts(rest, le);
      InsertThenSelect(s[0], Sort(rest, le), le, p);
      SelectHead(s[0], rest, p);
      assert ([s[0]] + Select(rest, p))[1..] == Select(rest, p);
    }
  }

  function Tied<T>(le: (T, T) -> bool, k: T): T -> bool {
    (y: T) => le(y, k) && le(k, y)
  }

  /** Stability: the elements tied with `k` keep their order. */
  lemma SortIsStable<T(!new)>(s: seq<T>, le: (T, T) -> bool, k: T)
    requires TotalPreorder(le)
    ensures Select(Sort(s, le), Tied(le, k)) == Select(s, Tied(le, k))
  {
    var tied := Select(s, Tied(le, k));
    SortThenSelect(s, le, Tied(le, k));
    SelectKeeps(s, Tied(le, k), le);
    forall i, j | 0 <= i < j < |tied| ensures le(tied[i], tied[j]) {
      assert tied[i] in tied && tied[j] in tied;
      assert le(tied[i], k) && le(k, tied[j]);
    }
    SortedIsFixed(tied, le);
  }
}
