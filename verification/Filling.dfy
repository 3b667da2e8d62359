/**
 Filling a template twice: first one text into its holes, then a second placeholder everywhere. The
 theorems say exactly when the second filling leaves the first text alone.
 */
module Filling {
  import opened Text

  /** No proper end of `p` is also a beginning of it, so occurrences of `p` never overlap. */
  predicate Unbordered(p: string) {
    forall k :: 0 < k < |p| ==> p[k..] != p[..|p| - k]
  }

  function Occurrences(s: string, p: string): nat
    requires p != ""
  {
    if s == "" then 0
    else if StartsWith(s, p) then 1 + Occurrences(s[|p|..], p)
    else Occurrences(s[1..], p)
  }

  lemma {:induction false} OccurrencesArePieces(s: string, p: string)
    requires p != ""
    ensures |Pieces(s, p)| == Occurrences(s, p) + 1
    ensures Contains(s, p) <==> Occurrences(s, p) > 0
  {
    if s == "" {
    } else if StartsWith(s, p) {
      OccurrencesArePieces(s[|p|..], p);
    } else {
      OccurrencesArePieces(s[1..], p);
    }
  }

  // ---------------------------------------------------------------- concatenation

  lemma {:induction false} ShortHasNone(s: string, p: string)
    requires |s| < |p|
    ensures Occurrences(s, p) == 0
  {
    if s != "" {
      ShortHasNone(s[1..], p);
    }
  }

  lemma EndIsBeginning(p: string, k: nat, rest: string)
    requires 0 < k < |p| && StartsWith(p[k..] + rest, p)
    ensures p[k..] == p[..|p| - k]
  {
    var s := p[k..] + rest;
    assert p[..|p| - k] == s[..|p|][..|p| - k] == s[..|p| - k];
  }

  /** After the beginning of an occurrence, its end holds no other one. */
  lemma {:induction false} EndHasNone(p: string, k: nat, rest: string)
    requires Unbordered(p) && 0 < k <= |p|
    ensures Occurrences(p[k..] + rest, p) == Occurrences(rest, p)
    decreases |p| - k
  {
    if k == |p| {
      assert p[k..] + rest == rest;
    } else {
      var s := p[k..] + rest;
      assert s[1..] == p[k + 1..] + rest;
      if StartsWith(s, p) {
        EndIsBeginning(p, k, rest);
      }
      EndHasNone(p, k + 1, rest);
    }
  }

  /** What a concatenation has beyond its parts straddles the seam. */
  lemma {:induction false} ConcatOccurrences(a: string, b: string, p: string, fill: string)
    requires p != "" && Unbordered(p)
    ensures Occurrences(a + b, p) >= Occurrences(a, p) + Occurrences(b, p)
    ensures Occurrences(a + b, p) == Occurrences(a, p) + Occurrences(b, p) ==>
              Replace(a + b, p, fill) == Replace(a, p, fill) + Replace(b, p, fill)
    decreases |a|
  {
    if a == "" {
      assert a + b == b;
    } else if StartsWith(a, p) {
      assert a + b == p + (a[|p|..] + b) && (a + b)[|p|..] == a[|p|..] + b;
      ConcatOccurrences(a[|p|..], b, p, fill);
      Associates(fill, Replace(a[|p|..], p, fill), Replace(b, p, fill));
    } else if StartsWith(a + b, p) {
      SeamOccurrence(a, b, p);
    } else {
      assert (a + b)[0] == a[0] && (a + b)[1..] == a[1..] + b;
      ConcatOccurrences(a[1..], b, p, fill);
      Associates([a[0]], Replace(a[1..], p, fill), Replace(b, p, fill));
    }
  }

  lemma ShorterThan(a: string, b: string, p: string)
    requires StartsWith(a + b, p) && |a| >= |p|
    ensures StartsWith(a, p)
  {
    assert a[..|p|] == (a + b)[..|p|];
  }

  /** An occurrence at the start of `a + b` that `a` does not have runs over the seam. */
  lemma SeamIsInside(a: string, b: string, p: string)
    requires StartsWith(a + b, p) && !StartsWith(a, p) && a != ""
    ensures |a| < |p| && p[..|a|] == a && b != ""
    ensures a[|a| - 1] in p && b[0] in p
  {
    if |a| >= |p| {
      ShorterThan(a, b, p);
    } else {
      assert p[|a| - 1] == (a + b)[|a| - 1] && p[|a|] == (a + b)[|a|];
    }
  }

  lemma SeamOccurrence(a: string, b: string, p: string)
    requires p != "" && Unbordered(p) && a != "" && !StartsWith(a, p) && StartsWith(a + b, p)
    ensures Occurrences(a + b, p) == 1 + Occurrences(b, p) && Occurrences(a, p) == 0
  {
    SeamIsInside(a, b, p);
    ShortHasNone(a, p);
    var rest := (a + b)[|p|..];
    assert b == p[|a|..] + rest by {
      assert a + b == p + rest && p == a + p[|a|..];
    }
    EndHasNone(p, |a|, rest);
  }

  // ---------------------------------------------------------------- templates

  /** Every part replaced on its own. */
  function ReplaceEach(parts: seq<string>, p: string, fill: string): (r: seq<string>)
    requires p != ""
    ensures |r| == |parts|
  {
    if parts == [] then [] else [Replace(parts[0], p, fill)] + ReplaceEach(parts[1..], p, fill)
  }

  function InParts(parts: seq<string>, p: string): nat
    requires p != ""
  {
    if parts == [] then 0 else Occurrences(parts[0], p) + InParts(parts[1..], p)
  }

  lemma JoinNext(parts: seq<string>, text: string)
    requires |parts| > 1
    ensures Join(parts, text) == parts[0] + (text + Join(parts[1..], text))
  {
    Associates(parts[0], text, Join(parts[1..], text));
  }

  lemma JoinEachNext(parts: seq<string>, text: string, p: string, fill: string)
    requires |parts| > 1 && p != ""
    ensures Join(ReplaceEach(parts, p, fill), text) ==
            Replace(parts[0], p, fill) + (text + Join(ReplaceEach(parts[1..], p, fill), text))
  {
    var rest := ReplaceEach(parts[1..], p, fill);
    assert ReplaceEach(parts, p, fill)[1..] == rest;
    JoinNext(ReplaceEach(parts, p, fill), text);
  }

  /** A joined template has at least the occurrences of its parts; if no others, nothing else is replaced. */
  lemma {:induction false} NoOthers(parts: seq<string>, text: string, p: string, fill: string)
    requires parts != [] && p != "" && Unbordered(p)
    ensures Occurrences(Join(parts, text), p) >= InParts(parts, p)
    ensures Occurrences(Join(parts, text), p) == InParts(parts, p) ==>
              Replace(Join(parts, text), p, fill) == Join(ReplaceEach(parts, p, fill), text)
  {
    if |parts| == 1 {
      assert InParts(parts[1..], p) == 0 && ReplaceEach(parts[1..], p, fill) == [];
    } else {
      var rest := Join(parts[1..], text);
      NoOthers(parts[1..], text, p, fill);
      JoinNext(parts, text);
      JoinEachNext(parts, text, p, fill);
      ConcatOccurrences(parts[0], text + rest, p, fill);
      ConcatOccurrences(text, rest, p, fill);
      if Occurrences(Join(parts, text), p) == InParts(parts, p) {
        OccurrencesArePieces(text, p);
        ReplaceIsIdentity(text, p, fill);
      }
    }
  }

  // ---------------------------------------------------------------- telling two fillings apart

  lemma LengthByOccurrences(s: string, p: string, fill: string)
    requires p != ""
    ensures |Replace(s, p, fill)| == |s| + Occurrences(s, p) * (|fill| - |p|)
  {
    ReplaceLength(s, p, fill);
    OccurrencesArePieces(s, p);
  }

  lemma {:induction false} EachLength(parts: seq<string>, text: string, p: string, fill: string)
    requires parts != [] && p != ""
    ensures |Join(ReplaceEach(parts, p, fill), text)| ==
            |Join(parts, text)| + InParts(parts, p) * (|fill| - |p|)
  {
    LengthByOccurrences(parts[0], p, fill);
    var here, later := Occurrences(parts[0], p), InParts(parts[1..], p);
    assert InParts(parts, p) == here + later;
    Distributes(here, later, |fill| - |p|);
    if |parts| == 1 {
      assert later == 0 && ReplaceEach(parts[1..], p, fill) == [];
    } else {
      EachLength(parts[1..], text, p, fill);
      JoinNext(parts, text);
      JoinEachNext(parts, text, p, fill);
    }
  }

  lemma Distributes(a: int, b: int, d: int)
    ensures (a + b) * d == a * d + b * d
  {
  }

  /** At how many places two texts of the same length differ. */
  function Differences(a: string, b: string): nat
    requires |a| == |b|
  {
    if a == "" then 0 else (if a[0] == b[0] then 0 else 1) + Differences(a[1..], b[1..])
  }

  lemma {:induction false} DifferencesConcat(a: string, b: string, c: string, d: string)
    requires |a| == |b| && |c| == |d|
    ensures Differences(a + c, b + d) == Differences(a, b) + Differences(c, d)
  {
    if a == "" {
      assert a + c == c && b + d == d;
    } else {
      assert (a + c)[1..] == a[1..] + c && (b + d)[1..] == b[1..] + d;
      DifferencesConcat(a[1..], b[1..], c, d);
    }
  }

  lemma {:induction false} NoDifferences(a: string, b: string)
    requires |a| == |b|
    ensures Differences(a, b) == 0 <==> a == b
  {
    if a != "" {
      NoDifferences(a[1..], b[1..]);
      assert a == [a[0]] + a[1..] && b == [b[0]] + b[1..];
    }
  }

  lemma SameLength(s: string, p: string, fill: string)
    requires p != "" && |fill| == |p|
    ensures |Replace(s, p, fill)| == |s|
  {
    ReplaceLength(s, p, fill);
    TimesZero(|Pieces(s, p)| - 1);
  }

  lemma TimesZero(k: int)
    ensures k * 0 == 0
  {
  }

  lemma {:induction false} ReplaceDifferences(s: string, p: string, fill: string)
    requires p != "" && |fill| == |p|
    ensures |Replace(s, p, fill)| == |s|
    ensures Differences(s, Replace(s, p, fill)) == Occurrences(s, p) * Differences(p, fill)
  {
    SameLength(s, p, fill);
    if s == "" {
    } else if StartsWith(s, p) {
      var rest := s[|p|..];
      ReplaceDifferences(rest, p, fill);
      assert s == p + rest;
      DifferencesConcat(p, fill, rest, Replace(rest, p, fill));
      Distributes(1, Occurrences(rest, p), Differences(p, fill));
    } else {
      var rest := s[1..];
      ReplaceDifferences(rest, p, fill);
      assert s == [s[0]] + rest;
      DifferencesConcat([s[0]], [s[0]], rest, Replace(rest, p, fill));
    }
  }

  lemma {:induction false} EachDifferences(parts: seq<string>, text: string, p: string, fill: string)
    requires parts != [] && p != "" && |fill| == |p|
    ensures |Join(ReplaceEach(parts, p, fill), text)| == |Join(parts, text)|
    ensures Differences(Join(parts, text), Join(ReplaceEach(parts, p, fill), text)) ==
            InParts(parts, p) * Differences(p, fill)
  {
    ReplaceDifferences(parts[0], p, fill);
    if |parts| == 1 {
      assert InParts(parts[1..], p) == 0 && ReplaceEach(parts[1..], p, fill) == [];
    } else {
      var rest, each := Join(parts[1..], text), Join(ReplaceEach(parts[1..], p, fill), text);
      EachDifferences(parts[1..], text, p, fill);
      JoinNext(parts, text);
      JoinEachNext(parts, text, p, fill);
      NoDifferences(text, text);
      DifferencesConcat(text, text, rest, each);
      DifferencesConcat(parts[0], Replace(parts[0], p, fill), text + rest, text + each);
      Distributes(Occurrences(parts[0], p), InParts(parts[1..], p), Differences(p, fill));
    }
  }

  lemma Cancels(a: int, b: int, d: int)
    requires d != 0 && a * d == b * d
    ensures a == b
  {
  }

  lemma OthersShow(parts: seq<string>, text: string, p: string, fill: string)
    requires parts != [] && p != "" && fill != p
    requires Replace(Join(parts, text), p, fill) == Join(ReplaceEach(parts, p, fill), text)
    ensures Occurrences(Join(parts, text), p) == InParts(parts, p)
  {
    var whole := Join(parts, text);
    if |fill| == |p| {
      ReplaceDifferences(whole, p, fill);
      EachDifferences(parts, text, p, fill);
      NoDifferences(p, fill);
      Cancels(Occurrences(whole, p), InParts(parts, p), Differences(p, fill));
    } else {
      LengthByOccurrences(whole, p, fill);
      EachLength(parts, text, p, fill);
      Cancels(Occurrences(whole, p), InParts(parts, p), |fill| - |p|);
    }
  }

  lemma {:induction false} EachByItself(parts: seq<string>, p: string)
    requires p != ""
    ensures ReplaceEach(parts, p, p) == parts
  {
    if parts != [] {
      ReplaceByItself(parts[0], p);
      EachByItself(parts[1..], p);
      assert [parts[0]] + parts[1..] == parts;
    }
  }

  /**
   Replacing `p` in the joined template replaces it in the parts alone, and leaves every inserted
   `text` as it is, exactly when the joined template has no occurrence of `p` that its parts do not
   have (or `p` is replaced with itself).
   */
  lemma FillingKeepsText(parts: seq<string>, text: string, p: string, fill: string)
    requires parts != [] && p != "" && Unbordered(p)
    ensures Replace(Join(parts, text), p, fill) == Join(ReplaceEach(parts, p, fill), text)
            <==> fill == p || Occurrences(Join(parts, text), p) == InParts(parts, p)
  {
    NoOthers(parts, text, p, fill);
    if fill == p {
      ReplaceByItself(Join(parts, text), p);
      EachByItself(parts, p);
    } else if Replace(Join(parts, text), p, fill) == Join(ReplaceEach(parts, p, fill), text) {
      OthersShow(parts, text, p, fill);
    }
  }

  // ---------------------------------------------------------------- templates whose holes stand apart

  /** No occurrence of `p` runs over the end of `s`. */
  predicate Stops(s: string, p: string) {
    s == "" || s[|s| - 1] !in p
  }

  predicate Starts(s: string, p: string) {
    s == "" || s[0] !in p
  }

  /** Around every hole stands the edge of the template or a character that `p` does not have. */
  predicate Apart(parts: seq<string>, p: string) {
    forall i :: 0 <= i < |parts| ==>
      && (i > 0 ==> Starts(parts[i], p) && (parts[i] == "" ==> i == |parts| - 1))
      && (i < |parts| - 1 ==> Stops(parts[i], p) && (parts[i] == "" ==> i == 0))
  }

  lemma {:induction false} StoppedConcat(a: string, b: string, p: string)
    requires p != "" && Stops(a, p)
    ensures Occurrences(a + b, p) == Occurrences(a, p) + Occurrences(b, p)
    decreases |a|
  {
    if a == "" {
      assert a + b == b;
    } else if StartsWith(a, p) {
      assert (a + b)[|p|..] == a[|p|..] + b && StartsWith(a + b, p);
      StoppedConcat(a[|p|..], b, p);
    } else {
      if StartsWith(a + b, p) {
        SeamIsInside(a, b, p);
      }
      assert (a + b)[1..] == a[1..] + b;
      StoppedConcat(a[1..], b, p);
    }
  }

  lemma {:induction false} StartedConcat(a: string, b: string, p: string)
    requires p != "" && Starts(b, p)
    ensures Occurrences(a + b, p) == Occurrences(a, p) + Occurrences(b, p)
    decreases |a|
  {
    if b == "" {
      assert a + b == a;
    } else if a == "" {
      assert a + b == b;
    } else if StartsWith(a, p) {
      assert (a + b)[|p|..] == a[|p|..] + b && StartsWith(a + b, p);
      StartedConcat(a[|p|..], b, p);
    } else {
      if StartsWith(a + b, p) {
        SeamIsInside(a, b, p);
      }
      assert (a + b)[1..] == a[1..] + b;
      StartedConcat(a[1..], b, p);
    }
  }

  lemma LaterApart(parts: seq<string>, p: string)
    requires |parts| > 1 && Apart(parts, p)
    ensures Apart(parts[1..], p) && Stops(parts[0], p)
    ensures Starts(parts[1], p) && (parts[1] == "" ==> |parts| == 2)
  {
    assert forall i :: 0 <= i < |parts| - 1 ==> parts[1..][i] == parts[i + 1];
  }

  lemma {:induction false} ApartOccurrences(parts: seq<string>, text: string, p: string)
    requires parts != [] && p != "" && Apart(parts, p)
    ensures Occurrences(Join(parts, text), p) == InParts(parts, p) + (|parts| - 1) * Occurrences(text, p)
  {
    if |parts| == 1 {
      assert InParts(parts[1..], p) == 0;
    } else {
      var later := parts[1..];
      var rest := Join(later, text);
      LaterApart(parts, p);
      ApartOccurrences(later, text, p);
      RestStarts(later, text, p);
      JoinNext(parts, text);
      StoppedConcat(parts[0], text + rest, p);
      StartedConcat(text, rest, p);
      Distributes(1, |later| - 1, Occurrences(text, p));
    }
  }

  lemma RestStarts(parts: seq<string>, text: string, p: string)
    requires parts != [] && Starts(parts[0], p) && (parts[0] == "" ==> |parts| == 1)
    ensures Starts(Join(parts, text), p)
  {
    if |parts| > 1 {
      JoinNext(parts, text);
    }
  }

  /** With the holes apart, a joined template spells `p` anew exactly when the inserted text does. */
  lemma ApartSpells(parts: seq<string>, text: string, p: string)
    requires |parts| > 1 && p != "" && Apart(parts, p)
    ensures Occurrences(Join(parts, text), p) == InParts(parts, p) <==> !Contains(text, p)
  {
    ApartOccurrences(parts, text, p);
    OccurrencesArePieces(text, p);
    if Occurrences(text, p) > 0 {
      ProductNonzero(|parts| - 1, Occurrences(text, p));
    } else {
      TimesZero(|parts| - 1);
    }
  }

  lemma OnePiece(s: string, p: string)
    requires p != "" && !Contains(s, p)
    ensures Pieces(s, p) == [s]
  {
    HolesAreOccurrences(s, p);
    ReplaceFillsHoles(s, p, p);
    ReplaceByItself(s, p);
    assert Pieces(s, p) == [Pieces(s, p)[0]];
  }

  /** A template with one hole, in front of which a character stands that `p` does not have. */
  lemma {:induction false} OneHole(a: string, p: string, b: string)
    requires p != "" && !Contains(a, p) && !Contains(b, p) && Stops(a, p)
    ensures Pieces(a + (p + b), p) == [a, b]
  {
    var s := a + (p + b);
    if a == "" {
      assert s == p + b && s[|p|..] == b;
      OnePiece(b, p);
      assert Pieces(s, p) == [""] + [b];
    } else {
      if StartsWith(s, p) {
        SeamIsInside(a, p + b, p);
      }
      assert s[1..] == a[1..] + (p + b);
      OneHole(a[1..], p, b);
      assert Pieces(s, p) == [[s[0]] + a[1..]] + [a[1..], b][1..];
      assert [s[0]] + a[1..] == a;
    }
  }
}
