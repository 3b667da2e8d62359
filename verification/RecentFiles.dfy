/**
 The most-recently-used list of fsm.rs. `Recent` is the specification over a whole history of
 pushes; `Pushed` is what one push does to the list.
 */
module RecentFiles {
  import opened Text

  const RECENT_FILES_MAX := 8

  /** `retain(|p| p != x)`. */
  function Without(s: seq<string>, x: string): seq<string> {
    if s == [] then [] else (if s[0] == x then [] else [s[0]]) + Without(s[1..], x)
  }

  function Pushed(recent: seq<string>, x: string): seq<string> {
    var all := Without(recent, x) + [x];
    if |all| > RECENT_FILES_MAX then all[1..] else all
  }

  /** The distinct paths of a history, in the order of their last occurrence. */
  function ByRecency(h: seq<string>): seq<string> {
    if h == [] then [] else (if h[0] in h[1..] then [] else [h[0]]) + ByRecency(h[1..])
  }

  function LastOf(s: seq<string>): seq<string> {
    if |s| > RECENT_FILES_MAX then s[|s| - RECENT_FILES_MAX..] else s
  }

  function Recent(h: seq<string>): seq<string> {
    LastOf(ByRecency(h))
  }

  predicate Distinct(s: seq<string>) {
    forall i, j :: 0 <= i < j < |s| ==> s[i] != s[j]
  }

  /** Where `x` was last pushed. */
  function LastIndex(h: seq<string>, x: string): (r: nat)
    requires x in h
    ensures r < |h| && h[r] == x
    ensures forall i :: r < i < |h| ==> h[i] != x
  {
    if x in h[1..] then 1 + LastIndex(h[1..], x) else 0
  }

  // ---------------------------------------------------------------- removing one path

  lemma WithoutHead(head: string, s: seq<string>, x: string)
    ensures Without([head] + s, x) == (if head == x then [] else [head]) + Without(s, x)
  {
    assert ([head] + s)[1..] == s;
  }

  lemma {:induction false} WithoutSplits(a: seq<string>, b: seq<string>, x: string)
    ensures Without(a + b, x) == Without(a, x) + Without(b, x)
  {
    if a == [] {
      assert a + b == b;
    } else {
      var head, rest := a[0], a[1..];
      assert [head] + rest == a;
      WithoutSplits(rest, b, x);
      Associates([head], rest, b);
      WithoutHead(head, rest, x);
      WithoutHead(head, rest + b, x);
      Associates(if head == x then [] else [head], Without(rest, x), Without(b, x));
    }
  }

  lemma {:induction false} WithoutAbsent(s: seq<string>, x: string)
    requires x !in s
    ensures Without(s, x) == s
  {
    if s != [] {
      WithoutAbsent(s[1..], x);
    }
  }

  /** From a list without duplicates at most one element goes. */
  lemma {:induction false} WithoutOne(s: seq<string>, x: string)
    requires Distinct(s)
    ensures |Without(s, x)| == |s| - (if x in s then 1 else 0)
  {
    if s != [] {
      if s[0] == x {
        WithoutAbsent(s[1..], x);
      } else {
        WithoutOne(s[1..], x);
      }
    }
  }

  lemma {:induction false} ByRecencyGrows(h: seq<string>, x: string)
    ensures ByRecency(h + [x]) == Without(ByRecency(h), x) + [x]
  {
    if h != [] {
      assert (h + [x])[1..] == h[1..] + [x];
      ByRecencyGrows(h[1..], x);
      var head := if h[0] in h[1..] then [] else [h[0]];
      WithoutSplits(head, ByRecency(h[1..]), x);
    } else {
      assert (h + [x])[1..] == [];
    }
  }

  // ---------------------------------------------------------------- the specification means recency

  lemma {:induction false} ByRecencyMembers(h: seq<string>)
    ensures forall x :: x in ByRecency(h) <==> x in h
    ensures Distinct(ByRecency(h))
  {
    if h != [] {
      ByRecencyMembers(h[1..]);
      assert forall x :: x in h <==> x == h[0] || x in h[1..];
    }
  }

  /** `s` is in the order in which `h` last saw its elements. */
  predicate InOrderOf(h: seq<string>, s: seq<string>)
    requires forall x :: x in s ==> x in h
  {
    forall i, j :: 0 <= i < j < |s| ==> LastIndex(h, s[i]) < LastIndex(h, s[j])
  }

  lemma OrderShifts(h: seq<string>, s: seq<string>)
    requires h != [] && (forall x :: x in s ==> x in h[1..]) && InOrderOf(h[1..], s)
    ensures InOrderOf(h, s) && forall x :: x in s ==> LastIndex(h, x) > 0
  {
    forall x | x in s ensures LastIndex(h, x) == LastIndex(h[1..], x) + 1 {
    }
  }

  /** `ByRecency` lists every path of the history once, the last pushed last. */
  lemma {:induction false} ByRecencyIsRecency(h: seq<string>)
    ensures forall x :: x in ByRecency(h) <==> x in h
    ensures Distinct(ByRecency(h))
    ensures InOrderOf(h, ByRecency(h))
  {
    ByRecencyMembers(h);
    if h != [] {
      var rest := ByRecency(h[1..]);
      ByRecencyMembers(h[1..]);
      ByRecencyIsRecency(h[1..]);
      OrderShifts(h, rest);
      if h[0] !in h[1..] {
        assert LastIndex(h, h[0]) == 0;
        assert ByRecency(h) == [h[0]] + rest;
      } else {
        assert ByRecency(h) == rest;
      }
    }
  }

  /** The list holds at most eight distinct paths of the history, most recently pushed last. */
  lemma RecentIsOrdered(h: seq<string>)
    ensures var r := Recent(h);
            && Distinct(r) && |r| <= 8 && (forall x :: x in r ==> x in h)
            && InOrderOf(h, r)
  {
    ByRecencyIsRecency(h);
    var all, r := ByRecency(h), Recent(h);
    var d := |all| - |r|;
    forall j | 0 <= j < |r| ensures r[j] == all[d + j] && r[j] in h {
      assert all[d + j] in all;
    }
  }

  /** What is missing was last pushed before everything listed, and only a full list misses any. */
  lemma RecentIsNewest(h: seq<string>, x: string)
    requires x in h && x !in Recent(h)
    ensures |Recent(h)| == 8
    ensures forall j :: 0 <= j < |Recent(h)| ==>
              Recent(h)[j] in h && LastIndex(h, x) < LastIndex(h, Recent(h)[j])
  {
    ByRecencyIsRecency(h);
    var all, r := ByRecency(h), Recent(h);
    var d := |all| - |r|;
    var i :| 0 <= i < |all| && all[i] == x;
    assert forall k :: d <= k < |all| ==> all[k] == r[k - d];
    forall j | 0 <= j < |r| ensures r[j] in h && LastIndex(h, x) < LastIndex(h, r[j]) {
      assert r[j] == all[d + j] && all[d + j] in all;
    }
  }

  lemma LastOfTail(front: seq<string>, s: seq<string>)
    requires |s| <= RECENT_FILES_MAX + 1 && (front == [] || RECENT_FILES_MAX <= |s|)
    ensures LastOf(front + s) == if |s| > RECENT_FILES_MAX then s[1..] else s
  {
    assert front == [] ==> front + s == s;
  }

  lemma WithoutFromTail(front: seq<string>, kept: seq<string>, x: string)
    ensures Without(front + kept, x) + [x] == Without(front, x) + (Without(kept, x) + [x])
  {
    WithoutSplits(front, kept, x);
  }

  /** Cutting to the last eight before or after a push makes no difference. */
  lemma PushTruncates(all: seq<string>, x: string)
    requires Distinct(all)
    ensures Pushed(LastOf(all), x) == LastOf(Without(all, x) + [x])
  {
    var kept := LastOf(all);
    var gone := all[..|all| - |kept|];
    var pushed := Without(kept, x) + [x];
    WithoutOne(kept, x);
    assert Without(all, x) + [x] == Without(gone, x) + pushed by {
      WithoutFromTail(gone, kept, x);
      assert gone + kept == all;
    }
    LastOfTail(Without(gone, x), pushed);
  }

  /** One push keeps the bounded list equal to its specification over the longer history. */
  lemma PushFollowsHistory(h: seq<string>, x: string)
    ensures Pushed(Recent(h), x) == Recent(h + [x])
  {
    ByRecencyIsRecency(h);
    ByRecencyGrows(h, x);
    PushTruncates(ByRecency(h), x);
  }
}
