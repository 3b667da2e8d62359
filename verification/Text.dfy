/** Strings as the repository's Rust code uses them: search, replace, join, trim. */
module Text {
  import opened Wrappers

  // ---------------------------------------------------------------- search and replace

  predicate StartsWith(s: string, p: string) {
    p <= s
  }

  predicate Contains(s: string, p: string) {
    StartsWith(s, p) || (s != "" && Contains(s[1..], p))
  }

  /** `str::replace`: leftmost, non-overlapping, and inserted text is not rescanned. */
  function Replace(s: string, p: string, fill: string): string
    requires p != ""
  {
    if s == "" then ""
    else if StartsWith(s, p) then fill + Replace(s[|p|..], p, fill)
    else [s[0]] + Replace(s[1..], p, fill)
  }

  function Join(parts: seq<string>, sep: string): string {
    if parts == [] then ""
    else if |parts| == 1 then parts[0]
    else parts[0] + sep + Join(parts[1..], sep)
  }

  /** The literal pieces of `s` around the occurrences of `p`. */
  function Pieces(s: string, p: string): (r: seq<string>)
    requires p != ""
    ensures r != []
  {
    if s == "" then [""]
    else if StartsWith(s, p) then [""] + Pieces(s[|p|..], p)
    else var rest := Pieces(s[1..], p); [[s[0]] + rest[0]] + rest[1..]
  }

  lemma JoinCons(x: string, rest: seq<string>, sep: string)
    requires rest != []
    ensures Join([x] + rest, sep) == x + sep + Join(rest, sep)
  {
    assert ([x] + rest)[1..] == rest;
  }

  lemma JoinPrepend(c: char, rest: seq<string>, sep: string)
    requires rest != []
    ensures Join([[c] + rest[0]] + rest[1..], sep) == [c] + Join(rest, sep)
  {
    var r := [[c] + rest[0]] + rest[1..];
    assert r[1..] == rest[1..];
    if |rest| > 1 {
      assert Join(rest, sep) == rest[0] + sep + Join(rest[1..], sep);
      assert Join(r, sep) == ([c] + rest[0]) + sep + Join(rest[1..], sep);
    }
  }

  /** `Replace` puts `fill` in every hole, and nothing else changes. */
  lemma {:induction false} ReplaceFillsHoles(s: string, p: string, fill: string)
    requires p != ""
    ensures Join(Pieces(s, p), fill) == Replace(s, p, fill)
  {
    if s == "" {
    } else if StartsWith(s, p) {
      var rest := Pieces(s[|p|..], p);
      ReplaceFillsHoles(s[|p|..], p, fill);
      JoinCons("", rest, fill);
      assert Join([""] + rest, fill) == fill + Join(rest, fill);
    } else {
      ReplaceFillsHoles(s[1..], p, fill);
      JoinPrepend(s[0], Pieces(s[1..], p), fill);
    }
  }

  lemma {:induction false} ReplaceByItself(s: string, p: string)
    requires p != ""
    ensures Replace(s, p, p) == s
  {
    if s == "" {
    } else if StartsWith(s, p) {
      ReplaceByItself(s[|p|..], p);
      assert s == p + s[|p|..];
    } else {
      ReplaceByItself(s[1..], p);
      assert s == [s[0]] + s[1..];
    }
  }

  /** Without an occurrence there is exactly one piece, so nothing is replaced. */
  lemma {:induction false} HolesAreOccurrences(s: string, p: string)
    requires p != ""
    ensures Contains(s, p) <==> |Pieces(s, p)| > 1
  {
    if s != "" && !StartsWith(s, p) {
      HolesAreOccurrences(s[1..], p);
    }
  }

  predicate StandsAt(s: string, p: string, k: nat) {
    k + |p| <= |s| && s[k..k + |p|] == p
  }

  /** `p` stands somewhere in `s`. */
  predicate Occurs(s: string, p: string) {
    exists k :: 0 <= k <= |s| && StandsAt(s, p, k)
  }

  lemma {:induction false} ContainsIsOccurs(s: string, p: string)
    ensures Contains(s, p) <==> Occurs(s, p)
  {
    if StartsWith(s, p) {
      assert StandsAt(s, p, 0);
    } else if s != "" {
      var t := s[1..];
      ContainsIsOccurs(t, p);
      if Occurs(t, p) {
        var k :| 0 <= k <= |t| && StandsAt(t, p, k);
        assert s[k + 1..k + 1 + |p|] == t[k..k + |p|];
        assert StandsAt(s, p, k + 1);
      }
      if Occurs(s, p) {
        var k :| 0 <= k <= |s| && StandsAt(s, p, k);
        assert k > 0 && t[k - 1..k - 1 + |p|] == s[k..k + |p|];
        assert StandsAt(t, p, k - 1);
      }
    }
  }

  lemma OneMoreTimes(k: int, d: int)
    ensures (k + 1) * d == k * d + d
  {
  }

  lemma {:induction false} ReplaceLength(s: string, p: string, fill: string)
    requires p != ""
    ensures |Replace(s, p, fill)| == |s| + (|Pieces(s, p)| - 1) * (|fill| - |p|)
  {
    if s == "" {
      assert |Pieces(s, p)| == 1;
    } else if StartsWith(s, p) {
      var rest := s[|p|..];
      ReplaceLength(rest, p, fill);
      assert |Pieces(s, p)| == 1 + |Pieces(rest, p)|;
      assert |Replace(s, p, fill)| == |fill| + |Replace(rest, p, fill)|;
      OneMoreTimes(|Pieces(rest, p)| - 1, |fill| - |p|);
    } else {
      ReplaceLength(s[1..], p, fill);
      assert |Pieces(s, p)| == |Pieces(s[1..], p)|;
      assert |Replace(s, p, fill)| == 1 + |Replace(s[1..], p, fill)|;
    }
  }

  /** A replacement is invisible exactly when there is no occurrence or it inserts the pattern. */
  lemma {:induction false} ReplaceIsIdentity(s: string, p: string, fill: string)
    requires p != ""
    ensures Replace(s, p, fill) == s <==> !Contains(s, p) || fill == p
  {
    HolesAreOccurrences(s, p);
    if fill == p {
      ReplaceByItself(s, p);
    } else {
      ReplaceMoves(s, p, fill);
    }
  }

  lemma ProductNonzero(k: int, d: int)
    requires k > 0 && d != 0
    ensures k * d != 0
  {
  }

  lemma FirstReplacedDiffers(s: string, p: string, fill: string)
    requires p != "" && fill != p && StartsWith(s, p)
    ensures Replace(s, p, fill) != s && |Pieces(s, p)| > 1
  {
    var rest := Replace(s[|p|..], p, fill);
    assert Replace(s, p, fill) == fill + rest;
    assert |Pieces(s, p)| == 1 + |Pieces(s[|p|..], p)|;
    if |fill| == |p| {
      assert (fill + rest)[..|p|] == fill && s[..|p|] == p;
    } else {
      ReplaceLength(s, p, fill);
      ProductNonzero(|Pieces(s, p)| - 1, |fill| - |p|);
    }
  }

  lemma {:induction false} ReplaceMoves(s: string, p: string, fill: string)
    requires p != "" && fill != p
    ensures Replace(s, p, fill) == s <==> |Pieces(s, p)| == 1
  {
    if s == "" {
      assert |Pieces(s, p)| == 1;
    } else if StartsWith(s, p) {
      FirstReplacedDiffers(s, p, fill);
    } else {
      ReplaceMoves(s[1..], p, fill);
      assert s == [s[0]] + s[1..];
      assert Replace(s, p, fill) == [s[0]] + Replace(s[1..], p, fill);
      assert |Pieces(s, p)| == |Pieces(s[1..], p)|;
    }
  }

  lemma Associates<T>(a: seq<T>, b: seq<T>, c: seq<T>)
    ensures (a + b) + c == a + (b + c)
  {
  }

  /** Index of the first `c`, as `str::find` reports it. */
  function Find(s: string, c: char): (r: Option<nat>)
    ensures r.None? <==> c !in s
    ensures r.Some? ==> r.value < |s| && s[r.value] == c && c !in s[..r.value]
  {
    if s == "" then None
    else if s[0] == c then Some(0)
    else match Find(s[1..], c)
      case None => None
      case Some(i) =>
        assert s[..i + 1] == [s[0]] + s[1..][..i];
        Some(i + 1)
  }

  lemma {:induction false} FindSplits(a: string, c: char, b: string)
    requires c !in a
    ensures Find(a + [c] + b, c) == Some(|a|)
  {
    if a != "" {
      FindSplits(a[1..], c, b);
      assert (a + [c] + b)[1..] == a[1..] + [c] + b;
    }
  }

  /** `to_lowercase`, on ASCII. */
  function LowerChar(c: char): char {
    if 'A' <= c <= 'Z' then (c as int + 32) as char else c
  }

  function Lower(s: string): (r: string)
    ensures |r| == |s|
    ensures forall i :: 0 <= i < |s| ==>
              if 'A' <= s[i] <= 'Z' then 'a' <= r[i] <= 'z' && r[i] - s[i] == 'a' - 'A' else r[i] == s[i]
  {
    seq(|s|, i requires 0 <= i < |s| => LowerChar(s[i]))
  }

  // ---------------------------------------------------------------- white space

  /** The Unicode White_Space characters, as `char::is_whitespace` has them. */
  predicate IsSpace(c: char) {
    var n := c as int;
    || 0x9 <= n <= 0xD || n == 0x20 || n == 0x85 || n == 0xA0 || n == 0x1680
    || 0x2000 <= n <= 0x200A || n == 0x2028 || n == 0x2029 || n == 0x202F || n == 0x205F || n == 0x3000
  }

  function TrimStart(s: string): (r: string)
    ensures |r| <= |s|
  {
    if s != "" && IsSpace(s[0]) then TrimStart(s[1..]) else s
  }

  function TrimEnd(s: string): (r: string)
    ensures |r| <= |s|
  {
    if s != "" && IsSpace(s[|s| - 1]) then TrimEnd(s[..|s| - 1]) else s
  }

  function Trim(s: string): string {
    TrimEnd(TrimStart(s))
  }

  lemma {:induction false} TrimStartIsSuffix(s: string)
    ensures var r := TrimStart(s); r == s[|s| - |r|..] && (r != "" ==> !IsSpace(r[0]))
  {
    if s != "" && IsSpace(s[0]) {
      TrimStartIsSuffix(s[1..]);
    }
  }

  lemma {:induction false} TrimEndIsPrefix(s: string)
    ensures var r := TrimEnd(s); r == s[..|r|] && (r != "" ==> !IsSpace(r[|r| - 1]))
  {
    if s != "" && IsSpace(s[|s| - 1]) {
      TrimEndIsPrefix(s[..|s| - 1]);
    }
  }

  lemma TrimIsTrimmed(s: string)
    ensures Trimmed(Trim(s))
  {
    TrimStartIsSuffix(s);
    TrimEndIsPrefix(TrimStart(s));
  }

  predicate Trimmed(s: string) {
    s != "" ==> !IsSpace(s[0]) && !IsSpace(s[|s| - 1])
  }

  predicate AllSpace(s: string) {
    forall i :: 0 <= i < |s| ==> IsSpace(s[i])
  }

  lemma {:induction false} TrimStartOfSpace(s: string)
    ensures TrimStart(s) == "" <==> AllSpace(s)
  {
    if s != "" && IsSpace(s[0]) {
      TrimStartOfSpace(s[1..]);
      assert forall i :: 0 < i < |s| ==> s[i] == s[1..][i - 1];
    }
  }

  /** Only white space trims to nothing. */
  lemma BlankIsSpace(s: string)
    ensures Trim(s) == "" <==> AllSpace(s)
  {
    TrimStartOfSpace(s);
    TrimStartIsSuffix(s);
    var t := TrimStart(s);
    TrimEndIsPrefix(t);
    if t != "" && TrimEnd(t) == "" {
      NotAllTrimmed(t);
    }
  }

  lemma {:induction false} NotAllTrimmed(t: string)
    requires t != "" && !IsSpace(t[0])
    ensures TrimEnd(t) != ""
  {
    if IsSpace(t[|t| - 1]) {
      NotAllTrimmed(t[..|t| - 1]);
    }
  }

  lemma {:induction false} TrimStartDrops(pad: string, s: string)
    requires AllSpace(pad) && (s != "" ==> !IsSpace(s[0]))
    ensures TrimStart(pad + s) == s
  {
    if pad == "" {
      assert pad + s == s;
    } else {
      assert (pad + s)[1..] == pad[1..] + s;
      TrimStartDrops(pad[1..], s);
    }
  }

  lemma {:induction false} TrimEndDrops(s: string, pad: string)
    requires AllSpace(pad) && (s != "" ==> !IsSpace(s[|s| - 1]))
    ensures TrimEnd(s + pad) == s
  {
    if pad == "" {
      assert s + pad == s;
    } else {
      assert (s + pad)[..|s + pad| - 1] == s + pad[..|pad| - 1];
      TrimEndDrops(s, pad[..|pad| - 1]);
    }
  }

  /** Trimming removes exactly the padding. */
  lemma TrimDrops(before: string, s: string, after: string)
    requires AllSpace(before) && AllSpace(after) && Trimmed(s)
    ensures Trim(before + s + after) == s
  {
    if s == "" {
      TrimStartDrops(before + after, "");
      assert before + s + after == before + after + "";
    } else {
      TrimStartDrops(before, s + after);
      assert before + s + after == before + (s + after);
      TrimEndDrops(s, after);
    }
  }

  lemma TrimKeepsOut(s: string, c: char)
    requires c !in s
    ensures c !in Trim(s)
  {
    TrimStartIsSuffix(s);
    TrimEndIsPrefix(TrimStart(s));
  }

  lemma TrimPadded(pad: string, s: string)
    requires AllSpace(pad) && Trimmed(s)
    ensures Trim(pad + s) == s && Trim(s + pad) == s
  {
    TrimDrops(pad, s, "");
    assert pad + s + "" == pad + s;
    TrimDrops("", s, pad);
    assert "" + s + pad == s + pad;
  }
}
