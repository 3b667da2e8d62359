// What a glob means, said on the characters of the pattern alone: no tokens, no parser, no syntax
// tree. The compiled regular expression is proved to match exactly that.
module GlobText {
  import opened Wrappers
  import opened Text
  import opened GlobRegex
  import opened GlobMeaning
  import opened GlobDocumented

  // ---------------------------------------------------------------- the meaning of a pattern text

  /** `alts` with commas between them, the closing brace, and `rest`. */
  function Grouped(alts: seq<string>, rest: string): string
    requires alts != []
  {
    if |alts| == 1 then alts[0] + ("}" + rest) else alts[0] + ("," + Grouped(alts[1..], rest))
  }

  /** A text in which braces match up and every comma is inside them. */
  predicate IsAlternative(a: string) {
    Balanced(a, 0) && !TopComma(a, 0)
  }

  predicate AreAlternatives(alts: seq<string>) {
    alts != [] && forall i :: 0 <= i < |alts| ==> IsAlternative(alts[i])
  }

  /** `p` starts with a brace that opens these alternatives, and goes on with `rest`. */
  predicate IsGroup(p: string, alts: seq<string>, rest: string) {
    AreAlternatives(alts) && p == "{" + Grouped(alts, rest)
  }

  lemma {:induction false} PartsAreShorter(alts: seq<string>, rest: string, i: nat)
    requires i < |alts|
    ensures |alts[i]| < |Grouped(alts, rest)| && |rest| < |Grouped(alts, rest)|
  {
    if |alts| > 1 {
      PartsAreShorter(alts[1..], rest, if i == 0 then 0 else i - 1);
    }
  }

  /**
   Two stars and a slash that follows them, if one does, stand for any text (any text on one line
   unless `dotAll`), a star for any text without a slash, `?` for one character other than a slash,
   braces for one of their alternatives, and every other character for itself.
   */
  ghost predicate TextMatches(p: string, s: string, dotAll: bool)
    decreases |p|
  {
    if p == "" then s == ""
    else if StartsWith(p, "**/") then
      exists k :: 0 <= k <= |s| && (dotAll || '\n' !in s[..k]) && TextMatches(p[3..], s[k..], dotAll)
    else if StartsWith(p, "**") then
      exists k :: 0 <= k <= |s| && (dotAll || '\n' !in s[..k]) && TextMatches(p[2..], s[k..], dotAll)
    else if p[0] == '*' then
      exists k :: 0 <= k <= |s| && '/' !in s[..k] && TextMatches(p[1..], s[k..], dotAll)
    else if p[0] == '?' then s != "" && s[0] != '/' && TextMatches(p[1..], s[1..], dotAll)
    else if p[0] == '{' then
      exists alts, rest, i, k ::
        IsGroup(p, alts, rest) && 0 <= i < |alts| && 0 <= k <= |s| &&
        (PartsAreShorter(alts, rest, i);
         TextMatches(alts[i], s[..k], dotAll) && TextMatches(rest, s[k..], dotAll))
    else s != "" && s[0] == p[0] && TextMatches(p[1..], s[1..], dotAll)
  }

  // ---------------------------------------------------------------- catenation

  ghost predicate Cuts(g: Glob, h: Glob, s: string, k: int, dotAll: bool) {
    0 <= k <= |s| && Matches(g, s[..k], dotAll) && Matches(h, s[k..], dotAll)
  }

  lemma CatCuts(g: Glob, h: Glob, s: string, dotAll: bool)
    ensures Matches(GCat(g, h), s, dotAll) <==> exists k :: Cuts(g, h, s, k, dotAll)
  {
    if Matches(GCat(g, h), s, dotAll) {
      var k :| 0 <= k <= |s| && Matches(g, s[..k], dotAll) && Matches(h, s[k..], dotAll);
      assert Cuts(g, h, s, k, dotAll);
    }
  }

  ghost predicate Same(g: Glob, h: Glob, dotAll: bool) {
    forall s :: Matches(g, s, dotAll) <==> Matches(h, s, dotAll)
  }

  lemma CatSame(g: Glob, h: Glob, g': Glob, h': Glob, dotAll: bool)
    requires Same(g, g', dotAll) && Same(h, h', dotAll)
    ensures Same(GCat(g, h), GCat(g', h'), dotAll)
  {
    forall s ensures Matches(GCat(g, h), s, dotAll) <==> Matches(GCat(g', h'), s, dotAll) {
      CatCuts(g, h, s, dotAll);
      CatCuts(g', h', s, dotAll);
      assert forall k :: Cuts(g, h, s, k, dotAll) <==> Cuts(g', h', s, k, dotAll);
    }
  }

  lemma CutIsCat(g: Glob, h: Glob, s: string, k: int, dotAll: bool)
    requires Cuts(g, h, s, k, dotAll)
    ensures Matches(GCat(g, h), s, dotAll)
  {
  }

  lemma CutOfPrefix(g: Glob, h: Glob, s: string, j: int, k: int, dotAll: bool)
    requires 0 <= j <= k <= |s| && Matches(g, s[..j], dotAll) && Matches(h, s[j..k], dotAll)
    ensures Cuts(g, h, s[..k], j, dotAll)
  {
    assert s[..k][..j] == s[..j] && s[..k][j..] == s[j..k];
  }

  lemma CutOfSuffix(g: Glob, h: Glob, s: string, j: int, k: int, dotAll: bool)
    requires 0 <= j <= k <= |s| && Matches(g, s[j..k], dotAll) && Matches(h, s[k..], dotAll)
    ensures Cuts(g, h, s[j..], k - j, dotAll)
  {
    assert s[j..][..k - j] == s[j..k] && s[j..][k - j..] == s[k..];
  }

  lemma BothCats(a: Glob, b: Glob, c: Glob, s: string, j: int, k: int, dotAll: bool)
    requires 0 <= j <= k <= |s|
    requires Matches(a, s[..j], dotAll) && Matches(b, s[j..k], dotAll) && Matches(c, s[k..], dotAll)
    ensures Matches(GCat(GCat(a, b), c), s, dotAll) && Matches(GCat(a, GCat(b, c)), s, dotAll)
  {
    CutOfPrefix(a, b, s, j, k, dotAll);
    CutIsCat(a, b, s[..k], j, dotAll);
    CutIsCat(GCat(a, b), c, s, k, dotAll);
    CutOfSuffix(b, c, s, j, k, dotAll);
    CutIsCat(b, c, s[j..], k - j, dotAll);
    CutIsCat(a, GCat(b, c), s, j, dotAll);
  }

  lemma CutsLeft(a: Glob, b: Glob, c: Glob, s: string, dotAll: bool) returns (j: int, k: int)
    requires Matches(GCat(GCat(a, b), c), s, dotAll)
    ensures 0 <= j <= k <= |s|
    ensures Matches(a, s[..j], dotAll) && Matches(b, s[j..k], dotAll) && Matches(c, s[k..], dotAll)
  {
    CatCuts(GCat(a, b), c, s, dotAll);
    k :| Cuts(GCat(a, b), c, s, k, dotAll);
    CatCuts(a, b, s[..k], dotAll);
    j :| Cuts(a, b, s[..k], j, dotAll);
    assert s[..k][..j] == s[..j] && s[..k][j..] == s[j..k];
  }

  lemma CutsRight(a: Glob, b: Glob, c: Glob, s: string, dotAll: bool) returns (j: int, k: int)
    requires Matches(GCat(a, GCat(b, c)), s, dotAll)
    ensures 0 <= j <= k <= |s|
    ensures Matches(a, s[..j], dotAll) && Matches(b, s[j..k], dotAll) && Matches(c, s[k..], dotAll)
  {
    CatCuts(a, GCat(b, c), s, dotAll);
    j :| Cuts(a, GCat(b, c), s, j, dotAll);
    CatCuts(b, c, s[j..], dotAll);
    var m :| Cuts(b, c, s[j..], m, dotAll);
    k := j + m;
    assert s[j..][..m] == s[j..k] && s[j..][m..] == s[k..];
  }

  lemma CatAssociates(a: Glob, b: Glob, c: Glob, dotAll: bool)
    ensures Same(GCat(GCat(a, b), c), GCat(a, GCat(b, c)), dotAll)
  {
    forall s ensures Matches(GCat(GCat(a, b), c), s, dotAll) <==> Matches(GCat(a, GCat(b, c)), s, dotAll) {
      if Matches(GCat(GCat(a, b), c), s, dotAll) {
        var j, k := CutsLeft(a, b, c, s, dotAll);
        BothCats(a, b, c, s, j, k, dotAll);
      } else if Matches(GCat(a, GCat(b, c)), s, dotAll) {
        var j, k := CutsRight(a, b, c, s, dotAll);
        BothCats(a, b, c, s, j, k, dotAll);
      }
    }
  }

  lemma EmptyFirst(g: Glob, dotAll: bool)
    ensures Same(GCat(GEps, g), g, dotAll)
  {
    forall s ensures Matches(GCat(GEps, g), s, dotAll) <==> Matches(g, s, dotAll) {
      CatCuts(GEps, g, s, dotAll);
      assert s[..0] == "" && s[0..] == s;
      if Matches(g, s, dotAll) {
        assert Cuts(GEps, g, s, 0, dotAll);
      }
      if Matches(GCat(GEps, g), s, dotAll) {
        var k :| Cuts(GEps, g, s, k, dotAll);
        assert k == 0;
      }
    }
  }

  lemma EmptyLast(g: Glob, dotAll: bool)
    ensures Same(GCat(g, GEps), g, dotAll)
  {
    forall s ensures Matches(GCat(g, GEps), s, dotAll) <==> Matches(g, s, dotAll) {
      CatCuts(g, GEps, s, dotAll);
      assert s[..|s|] == s && s[|s|..] == "";
      if Matches(g, s, dotAll) {
        assert Cuts(g, GEps, s, |s|, dotAll);
      }
      if Matches(GCat(g, GEps), s, dotAll) {
        var k :| Cuts(g, GEps, s, k, dotAll);
        assert k == |s|;
      }
    }
  }

  // ---------------------------------------------------------------- reading on top of something

  /** A chain of factors, as the parser builds them. */
  predicate Chain(g: Glob) {
    g.GEps? || (g.GCat? && Chain(g.l))
  }

  /** The factors of `g` behind `c`. */
  function Graft(c: Glob, g: Glob): (r: Glob)
    requires Chain(g)
    ensures Chain(c) ==> Chain(r)
  {
    if g.GEps? then c else GCat(Graft(c, g.l), g.r)
  }

  lemma {:induction false} GraftIsCat(c: Glob, g: Glob, dotAll: bool)
    requires Chain(g)
    ensures Same(Graft(c, g), GCat(c, g), dotAll)
  {
    if g.GEps? {
      EmptyLast(c, dotAll);
    } else {
      GraftIsCat(c, g.l, dotAll);
      CatSame(Graft(c, g.l), g.r, GCat(c, g.l), g.r, dotAll);
      CatAssociates(c, g.l, g.r, dotAll);
    }
  }

  lemma {:induction false} GraftOnNothing(g: Glob)
    requires Chain(g)
    ensures Graft(GEps, g) == g
  {
    if g.GCat? {
      GraftOnNothing(g.l);
    }
  }

  /** The state `t`, reached from the start, as it is when reading starts in frame `f` above `base`. */
  function Lifted(base: seq<GFrame>, f: GFrame, t: seq<GFrame>): (r: seq<GFrame>)
    requires t != [] && Chain(t[0].cat)
    ensures r != [] && |r| == |base| + |t|
  {
    base + [GFrame(f.alts, Graft(f.cat, t[0].cat))] + t[1..]
  }

  predicate Bottom(t: seq<GFrame>) {
    t != [] && t[0].alts.None? && Chain(t[0].cat)
  }

  lemma PushLifted(base: seq<GFrame>, f: GFrame, t: seq<GFrame>, g: Glob)
    requires Bottom(t)
    ensures Bottom(Push(t, g)) && Push(Lifted(base, f, t), g) == Lifted(base, f, Push(t, g))
  {
  }

  lemma AppendLifted(base: seq<GFrame>, f: GFrame, t: seq<GFrame>, x: GFrame)
    requires Bottom(t)
    ensures Lifted(base, f, t) + [x] == Lifted(base, f, t + [x])
  {
  }

  lemma ReadLifted(base: seq<GFrame>, f: GFrame, t: seq<GFrame>, tok: Tok)
    requires Bottom(t) && Read(t, tok).Some? && (tok.Comma? && |t| == 1 ==> base == [])
    ensures Bottom(Read(t, tok).value)
    ensures Read(Lifted(base, f, t), tok) == Some(Lifted(base, f, Read(t, tok).value))
  {
    var n, u := |t| - 1, Lifted(base, f, t);
    assert n > 0 ==> u[|u| - 1] == t[n] && u[..|u| - 1] == Lifted(base, f, t[..n]);
    match tok {
      case Deep => PushLifted(base, f, t, GDeep);
      case Star => PushLifted(base, f, t, GStar);
      case Quest => PushLifted(base, f, t, GQuest);
      case Lit(c) => PushLifted(base, f, t, GLit(c));
      case Open => AppendLifted(base, f, t, GFrame(None, GEps));
      case Close => PushLifted(base, f, t[..n], Closed(t[n]));
      case Comma =>
        if n == 0 {
          PushLifted(base, f, t, GLit(','));
        } else {
          AppendLifted(base, f, t[..n], GFrame(Some(Closed(t[n])), GEps));
        }
    }
  }

  lemma {:induction false} ReadAllLifted(base: seq<GFrame>, f: GFrame, t: seq<GFrame>, p: string)
    requires Bottom(t) && ReadAll(t, Lex(p)).Some? && (base == [] || !TopComma(p, |t| - 1))
    ensures Bottom(ReadAll(t, Lex(p)).value)
    ensures ReadAll(Lifted(base, f, t), Lex(p)) == Some(Lifted(base, f, ReadAll(t, Lex(p)).value))
    decreases |p|
  {
    if p != "" {
      var toks := Lex(p);
      TextStep(p, |t| - 1);
      ReadDepth(t, toks[0]);
      ReadLifted(base, f, t, toks[0]);
      ReadAllLifted(base, f, Read(t, toks[0]).value, AfterToken(p));
    }
  }

  /** What a balanced text parses to. */
  function Parsed(p: string): Glob
    requires Balanced(p, 0)
  {
    Compiles(p);
    ParseGlob(p).value
  }

  lemma ParsedIsBottom(p: string)
    requires Balanced(p, 0)
    ensures Chain(Parsed(p)) && ReadAll(GLOB_START, Lex(p)) == Some([GFrame(None, Parsed(p))])
  {
    Compiles(p);
    ReadAllLifted([], GFrame(None, GEps), GLOB_START, p);
    var t := ReadAll(GLOB_START, Lex(p)).value;
    assert t == [t[0]];
  }

  /** A balanced text, read on top of anything, adds what it parses to. */
  lemma Reads(base: seq<GFrame>, f: GFrame, p: string)
    requires Balanced(p, 0) && (base == [] || !TopComma(p, 0))
    ensures Chain(Parsed(p))
    ensures ReadAll(base + [f], Lex(p)) == Some(base + [GFrame(f.alts, Graft(f.cat, Parsed(p)))])
  {
    ParsedIsBottom(p);
    ReadAllLifted(base, f, GLOB_START, p);
    assert Lifted(base, f, GLOB_START) == base + [f];
    var end := [GFrame(None, Parsed(p))];
    assert Lifted(base, f, end) == base + [GFrame(f.alts, Graft(f.cat, Parsed(p)))];
  }

  lemma {:induction false} ReadAllConcat(t: seq<GFrame>, a: seq<Tok>, b: seq<Tok>)
    requires t != [] && ReadAll(t, a).Some? && ReadAll(t, a).value != []
    ensures ReadAll(t, a + b) == ReadAll(ReadAll(t, a).value, b)
    decreases |a|
  {
    if a == [] {
      assert a + b == b;
    } else {
      assert (a + b)[0] == a[0] && (a + b)[1..] == a[1..] + b;
      ReadAllConcat(Read(t, a[0]).value, a[1..], b);
    }
  }

  // ---------------------------------------------------------------- catenation on the text

  /** No star at the end of `x` runs into a star or a slash at the start of `y`. */
  predicate NoSeam(x: string, y: string) {
    x == "" || y == "" || x[|x| - 1] != '*' || (y[0] != '*' && y[0] != '/')
  }

  lemma {:induction false} LexConcat(x: string, y: string)
    requires NoSeam(x, y)
    ensures Lex(x + y) == Lex(x) + Lex(y)
    decreases |x|
  {
    if x == "" {
      assert x + y == y;
    } else if IsDeep(x) {
      assert AfterDeep(x + y) == AfterDeep(x) + y;
      LexConcat(AfterDeep(x), y);
    } else {
      assert (x + y)[1..] == x[1..] + y;
      LexConcat(x[1..], y);
    }
  }

  lemma {:induction false} BalancedConcat(x: string, y: string, depth: nat)
    requires Balanced(x, depth)
    ensures Balanced(x + y, depth) <==> Balanced(y, 0)
  {
    if x == "" {
      assert x + y == y;
    } else {
      assert (x + y)[1..] == x[1..] + y;
      BalancedConcat(x[1..], y, if x[0] == '{' then depth + 1 else if x[0] == '}' then depth - 1 else depth);
    }
  }

  /** Two balanced texts one after the other, when no star runs over the seam. */
  lemma ConcatParses(x: string, y: string, dotAll: bool)
    requires Balanced(x, 0) && Balanced(y, 0) && NoSeam(x, y)
    ensures Balanced(x + y, 0) && Same(Parsed(x + y), GCat(Parsed(x), Parsed(y)), dotAll)
  {
    BalancedConcat(x, y, 0);
    LexConcat(x, y);
    ParsedIsBottom(x);
    ParsedIsBottom(x + y);
    ReadAllConcat(GLOB_START, Lex(x), Lex(y));
    Reads([], GFrame(None, Parsed(x)), y);
    assert [] + [GFrame(None, Parsed(x))] == [GFrame(None, Parsed(x))];
    assert Parsed(x + y) == Graft(Parsed(x), Parsed(y));
    GraftIsCat(Parsed(x), Parsed(y), dotAll);
  }

  /** The first token, when it is no brace. */
  lemma FirstParses(p: string, g: Glob, dotAll: bool)
    requires Balanced(p, 0) && p != "" && Read(GLOB_START, Lex(p)[0]) == Some(Push(GLOB_START, g))
    requires Balanced(AfterToken(p), 0)
    ensures Same(Parsed(p), GCat(g, Parsed(AfterToken(p))), dotAll)
  {
    var rest := AfterToken(p);
    TextStep(p, 0);
    ParsedIsBottom(p);
    Reads([], GFrame(None, GCat(GEps, g)), rest);
    assert Push(GLOB_START, g) == [] + [GFrame(None, GCat(GEps, g))];
    assert Parsed(p) == Graft(GCat(GEps, g), Parsed(rest));
    GraftIsCat(GCat(GEps, g), Parsed(rest), dotAll);
    EmptyFirst(g, dotAll);
    CatSame(GCat(GEps, g), Parsed(rest), g, Parsed(rest), dotAll);
  }

  // ---------------------------------------------------------------- braces

  ghost predicate SomeMatches(alts: seq<string>, s: string, dotAll: bool)
    requires AreAlternatives(alts)
  {
    exists i :: 0 <= i < |alts| && IsAlternative(alts[i]) && Matches(Parsed(alts[i]), s, dotAll)
  }

  ghost predicate Chooses(r: Glob, before: Option<Glob>, alts: seq<string>, dotAll: bool)
    requires AreAlternatives(alts)
  {
    forall s :: Matches(r, s, dotAll) <==>
      (before.Some? && Matches(before.value, s, dotAll)) || SomeMatches(alts, s, dotAll)
  }

  /** The alternatives read so far, and the one just read. */
  lemma ReadAlternative(f: GFrame, before: Option<Glob>, a: string, rest: string)
    requires IsAlternative(a) && NoSeam(a, rest)
    ensures Chain(Parsed(a))
    ensures ReadAll([f, GFrame(before, GEps)], Lex(a + rest)) == ReadAll([f, GFrame(before, Parsed(a))], Lex(rest))
  {
    LexConcat(a, rest);
    Reads([f], GFrame(before, GEps), a);
    GraftOnNothing(Parsed(a));
    assert [f] + [GFrame(before, GEps)] == [f, GFrame(before, GEps)];
    assert [f] + [GFrame(before, Parsed(a))] == [f, GFrame(before, Parsed(a))];
    ReadAllConcat([f, GFrame(before, GEps)], Lex(a), Lex(rest));
  }

  lemma ReadPunctuation(t: seq<GFrame>, c: char, rest: string)
    requires t != [] && (c == ',' || c == '{' || c == '}') && Read(t, Single(c)).Some?
    ensures ReadAll(t, Lex([c] + rest)) == ReadAll(Read(t, Single(c)).value, Lex(rest))
  {
    assert ([c] + rest)[1..] == rest;
    assert Lex([c] + rest)[1..] == Lex(rest);
  }

  lemma OneAlternative(a: string, before: Option<Glob>, dotAll: bool)
    requires IsAlternative(a)
    ensures Chooses(Closed(GFrame(before, Parsed(a))), before, [a], dotAll)
  {
    assert AreAlternatives([a]);
    forall s ensures Matches(Parsed(a), s, dotAll) <==> SomeMatches([a], s, dotAll) {
      assert [a][0] == a;
    }
  }

  lemma OneMoreAlternative(r: Glob, before: Option<Glob>, alts: seq<string>, dotAll: bool)
    requires AreAlternatives(alts) && |alts| > 1
    requires AreAlternatives(alts[1..]) && Chooses(r, Some(Closed(GFrame(before, Parsed(alts[0])))), alts[1..], dotAll)
    ensures Chooses(r, before, alts, dotAll)
  {
    var first := Closed(GFrame(before, Parsed(alts[0])));
    forall s
      ensures Matches(r, s, dotAll) <==>
        (before.Some? && Matches(before.value, s, dotAll)) || SomeMatches(alts, s, dotAll)
    {
      assert Matches(first, s, dotAll) <==>
        (before.Some? && Matches(before.value, s, dotAll)) || Matches(Parsed(alts[0]), s, dotAll);
      if SomeMatches(alts, s, dotAll) && !Matches(Parsed(alts[0]), s, dotAll) {
        var i :| 0 <= i < |alts| && IsAlternative(alts[i]) && Matches(Parsed(alts[i]), s, dotAll);
        assert alts[1..][i - 1] == alts[i];
        assert SomeMatches(alts[1..], s, dotAll);
      }
      if SomeMatches(alts[1..], s, dotAll) {
        var i :| 0 <= i < |alts[1..]| && IsAlternative(alts[1..][i]) && Matches(Parsed(alts[1..][i]), s, dotAll);
        assert alts[1..][i] == alts[i + 1];
        assert SomeMatches(alts, s, dotAll);
      }
    }
  }

  /** Reading the alternatives up to the closing brace. */
  lemma {:induction false} ReadGroup(f: GFrame, before: Option<Glob>, alts: seq<string>, rest: string, dotAll: bool)
    returns (r: Glob)
    requires AreAlternatives(alts)
    ensures ReadAll([f, GFrame(before, GEps)], Lex(Grouped(alts, rest))) ==
            ReadAll([GFrame(f.alts, GCat(f.cat, r))], Lex(rest))
    ensures Chooses(r, before, alts, dotAll)
    decreases |alts|
  {
    var a := alts[0];
    var frame := GFrame(before, Parsed(a));
    if |alts| == 1 {
      assert alts == [a];
      ReadAlternative(f, before, a, "}" + rest);
      ReadPunctuation([f, frame], '}', rest);
      r := Closed(frame);
      assert [f, frame][..1] == [f];
      assert Push([f], r) == [GFrame(f.alts, GCat(f.cat, r))];
      OneAlternative(a, before, dotAll);
    } else {
      var more := Grouped(alts[1..], rest);
      ReadAlternative(f, before, a, "," + more);
      ReadPunctuation([f, frame], ',', more);
      assert [f, frame][..1] + [GFrame(Some(Closed(frame)), GEps)] == [f, GFrame(Some(Closed(frame)), GEps)];
      assert AreAlternatives(alts[1..]);
      r := ReadGroup(f, Some(Closed(frame)), alts[1..], rest, dotAll);
      OneMoreAlternative(r, before, alts, dotAll);
    }
  }

  lemma {:induction false} GroupedBalanced(alts: seq<string>, rest: string)
    requires AreAlternatives(alts)
    ensures Balanced(Grouped(alts, rest), 1) <==> Balanced(rest, 0)
    decreases |alts|
  {
    var a := alts[0];
    if |alts| == 1 {
      BalancedDeeper(a, "}" + rest, 0);
      assert ("}" + rest)[1..] == rest;
    } else {
      assert AreAlternatives(alts[1..]);
      var more := Grouped(alts[1..], rest);
      BalancedDeeper(a, "," + more, 0);
      assert ("," + more)[1..] == more;
      GroupedBalanced(alts[1..], rest);
    }
  }

  lemma {:induction false} BalancedDeeper(x: string, y: string, depth: nat)
    requires Balanced(x, depth)
    ensures Balanced(x + y, depth + 1) <==> Balanced(y, 1)
  {
    if x == "" {
      assert x + y == y;
    } else {
      assert (x + y)[1..] == x[1..] + y;
      BalancedDeeper(x[1..], y, if x[0] == '{' then depth + 1 else if x[0] == '}' then depth - 1 else depth);
    }
  }

  /** A group at the start: one of its alternatives, and then the rest. */
  lemma GroupParses(p: string, alts: seq<string>, rest: string, dotAll: bool) returns (r: Glob)
    requires Balanced(p, 0) && IsGroup(p, alts, rest)
    ensures Balanced(rest, 0) && Chooses(r, None, alts, dotAll)
    ensures Same(Parsed(p), GCat(r, Parsed(rest)), dotAll)
  {
    var body := Grouped(alts, rest);
    assert p[1..] == body;
    GroupedBalanced(alts, rest);
    var f := GFrame(None, GEps);
    ReadPunctuation(GLOB_START, '{', body);
    assert GLOB_START + [f] == [f, f];
    r := ReadGroup(f, None, alts, rest, dotAll);
    ParsedIsBottom(p);
    Reads([], GFrame(None, GCat(GEps, r)), rest);
    assert [] + [GFrame(None, GCat(GEps, r))] == [GFrame(None, GCat(GEps, r))];
    assert Parsed(p) == Graft(GCat(GEps, r), Parsed(rest));
    GraftIsCat(GCat(GEps, r), Parsed(rest), dotAll);
    EmptyFirst(r, dotAll);
    CatSame(GCat(GEps, r), Parsed(rest), r, Parsed(rest), dotAll);
  }

  // ---------------------------------------------------------------- every brace opens a group

  lemma {:induction false} Closes(q: string, depth: nat) returns (x: string, y: string)
    requires Balanced(q, depth + 1)
    ensures q == x + ("}" + y) && Balanced(x, depth) && Balanced(y, 0)
  {
    if q[0] == '}' && depth == 0 {
      x, y := "", q[1..];
    } else {
      var z;
      z, y := Closes(q[1..], if q[0] == '{' then depth + 1 else if q[0] == '}' then depth - 1 else depth);
      x := [q[0]] + z;
      assert x[1..] == z;
      assert q == [q[0]] + (z + ("}" + y));
    }
  }

  lemma {:induction false} FirstComma(x: string, depth: nat) returns (a: string, b: string)
    requires Balanced(x, depth) && TopComma(x, depth)
    ensures x == a + ("," + b) && Balanced(a, depth) && !TopComma(a, depth) && Balanced(b, 0)
  {
    if x[0] == ',' && depth == 0 {
      a, b := "", x[1..];
    } else {
      var z;
      z, b := FirstComma(x[1..], if x[0] == '{' then depth + 1 else if x[0] == '}' then depth - 1 else depth);
      a := [x[0]] + z;
      assert a[1..] == z;
      assert x == [x[0]] + (z + ("," + b));
    }
  }

  lemma {:induction false} Alternatives(x: string, rest: string) returns (alts: seq<string>)
    requires Balanced(x, 0)
    ensures AreAlternatives(alts) && Grouped(alts, rest) == x + ("}" + rest)
    decreases |x|
  {
    if TopComma(x, 0) {
      var a, b := FirstComma(x, 0);
      var more := Alternatives(b, rest);
      alts := [a] + more;
      assert alts[1..] == more;
      assert a + ("," + (b + ("}" + rest))) == x + ("}" + rest);
    } else {
      alts := [x];
    }
  }

  lemma GroupExists(p: string) returns (alts: seq<string>, rest: string)
    requires Balanced(p, 0) && p != "" && p[0] == '{'
    ensures IsGroup(p, alts, rest)
  {
    var x;
    x, rest := Closes(p[1..], 0);
    alts := Alternatives(x, rest);
    assert p == "{" + p[1..];
  }

  // ---------------------------------------------------------------- the two meanings are one

  lemma AnyText(g: Glob, h: Glob, s: string, dotAll: bool)
    ensures g == GDeep ==>
      (Matches(GCat(g, h), s, dotAll) <==>
       exists k :: 0 <= k <= |s| && (dotAll || '\n' !in s[..k]) && Matches(h, s[k..], dotAll))
    ensures g == GStar ==>
      (Matches(GCat(g, h), s, dotAll) <==> exists k :: 0 <= k <= |s| && '/' !in s[..k] && Matches(h, s[k..], dotAll))
  {
    CatCuts(g, h, s, dotAll);
    if g == GDeep || g == GStar {
      assert forall k :: 0 <= k <= |s| && Matches(g, s[..k], dotAll) && Matches(h, s[k..], dotAll) ==>
        Cuts(g, h, s, k, dotAll);
    }
  }

  predicate OneChar(g: Glob) {
    g.GLit? || g.GQuest?
  }

  lemma OneCharFirst(g: Glob, h: Glob, s: string, dotAll: bool)
    requires OneChar(g)
    ensures Matches(GCat(g, h), s, dotAll) <==> s != "" && Matches(g, [s[0]], dotAll) && Matches(h, s[1..], dotAll)
  {
    CatCuts(g, h, s, dotAll);
    if s != "" {
      assert s[..1] == [s[0]];
      if Matches(g, [s[0]], dotAll) && Matches(h, s[1..], dotAll) {
        assert Cuts(g, h, s, 1, dotAll);
      }
    }
  }

  /** The parser and the text agree on what `p` matches. */
  ghost predicate Agree(p: string, s: string, dotAll: bool)
    requires Balanced(p, 0)
  {
    Matches(Parsed(p), s, dotAll) <==> TextMatches(p, s, dotAll)
  }

  lemma DeepFirst(p: string, s: string, dotAll: bool)
    requires Balanced(p, 0) && IsDeep(p) && Balanced(AfterDeep(p), 0)
    requires forall k :: 0 <= k <= |s| ==> Agree(AfterDeep(p), s[k..], dotAll)
    ensures Agree(p, s, dotAll)
  {
    var rest := AfterDeep(p);
    FirstParses(p, GDeep, dotAll);
    AnyText(GDeep, Parsed(rest), s, dotAll);
    assert StartsWith(p, "**") && (StartsWith(p, "**/") <==> |p| > 2 && p[2] == '/');
    assert TextMatches(p, s, dotAll) <==>
      exists k :: 0 <= k <= |s| && (dotAll || '\n' !in s[..k]) && TextMatches(rest, s[k..], dotAll);
  }

  lemma StarFirst(p: string, s: string, dotAll: bool)
    requires Balanced(p, 0) && p != "" && !IsDeep(p) && p[0] == '*' && Balanced(p[1..], 0)
    requires forall k :: 0 <= k <= |s| ==> Agree(p[1..], s[k..], dotAll)
    ensures Agree(p, s, dotAll)
  {
    FirstParses(p, GStar, dotAll);
    AnyText(GStar, Parsed(p[1..]), s, dotAll);
    assert !StartsWith(p, "**") && !StartsWith(p, "**/");
    assert TextMatches(p, s, dotAll) <==>
      exists k :: 0 <= k <= |s| && '/' !in s[..k] && TextMatches(p[1..], s[k..], dotAll);
  }

  lemma CharFirst(p: string, s: string, dotAll: bool)
    requires Balanced(p, 0) && p != "" && p[0] !in "*{}" && Balanced(p[1..], 0)
    requires s != "" ==> Agree(p[1..], s[1..], dotAll)
    ensures Agree(p, s, dotAll)
  {
    var g := if p[0] == '?' then GQuest else GLit(p[0]);
    assert p[0] != '*' && p[0] != '{' && p[0] != '}';
    assert Read(GLOB_START, Single(p[0])) == Some(Push(GLOB_START, g));
    FirstParses(p, g, dotAll);
    OneCharFirst(g, Parsed(p[1..]), s, dotAll);
    assert !StartsWith(p, "**") && !StartsWith(p, "**/");
  }

  ghost predicate GroupCut(alts: seq<string>, rest: string, s: string, i: int, k: int, dotAll: bool) {
    0 <= i < |alts| && 0 <= k <= |s| && TextMatches(alts[i], s[..k], dotAll) && TextMatches(rest, s[k..], dotAll)
  }

  /** The parser and the text agree on the parts of a group. */
  ghost predicate PartsAgree(alts: seq<string>, rest: string, s: string, dotAll: bool)
    requires AreAlternatives(alts) && Balanced(rest, 0)
  {
    && (forall i, k :: 0 <= i < |alts| && 0 <= k <= |s| ==> IsAlternative(alts[i]) && Agree(alts[i], s[..k], dotAll))
    && (forall k :: 0 <= k <= |s| ==> Agree(rest, s[k..], dotAll))
  }

  lemma ChosenCut(r: Glob, alts: seq<string>, rest: string, s: string, k: int, dotAll: bool) returns (i: int)
    requires AreAlternatives(alts) && Balanced(rest, 0) && PartsAgree(alts, rest, s, dotAll)
    requires Chooses(r, None, alts, dotAll) && Cuts(r, Parsed(rest), s, k, dotAll)
    ensures GroupCut(alts, rest, s, i, k, dotAll)
  {
    assert SomeMatches(alts, s[..k], dotAll);
    i :| 0 <= i < |alts| && IsAlternative(alts[i]) && Matches(Parsed(alts[i]), s[..k], dotAll);
    assert Agree(alts[i], s[..k], dotAll) && Agree(rest, s[k..], dotAll);
  }

  lemma CutChosen(r: Glob, alts: seq<string>, rest: string, s: string, i: int, k: int, dotAll: bool)
    requires AreAlternatives(alts) && Balanced(rest, 0) && PartsAgree(alts, rest, s, dotAll)
    requires Chooses(r, None, alts, dotAll) && GroupCut(alts, rest, s, i, k, dotAll)
    ensures Cuts(r, Parsed(rest), s, k, dotAll)
  {
    assert Agree(alts[i], s[..k], dotAll) && Agree(rest, s[k..], dotAll);
    assert SomeMatches(alts, s[..k], dotAll);
  }

  /** Whichever way the group is written as alternatives and a rest. */
  lemma GroupCuts(p: string, alts: seq<string>, rest: string, s: string, dotAll: bool)
    requires Balanced(p, 0) && IsGroup(p, alts, rest) && Balanced(rest, 0) && PartsAgree(alts, rest, s, dotAll)
    ensures Matches(Parsed(p), s, dotAll) <==> exists i, k :: GroupCut(alts, rest, s, i, k, dotAll)
  {
    var r := GroupParses(p, alts, rest, dotAll);
    CatCuts(r, Parsed(rest), s, dotAll);
    assert Matches(Parsed(p), s, dotAll) <==> Matches(GCat(r, Parsed(rest)), s, dotAll);
    if Matches(Parsed(p), s, dotAll) {
      var k :| Cuts(r, Parsed(rest), s, k, dotAll);
      var i := ChosenCut(r, alts, rest, s, k, dotAll);
    }
    if i, k :| GroupCut(alts, rest, s, i, k, dotAll) {
      CutChosen(r, alts, rest, s, i, k, dotAll);
    }
  }

  lemma CutIsGroup(p: string, alts: seq<string>, rest: string, s: string, i: int, k: int, dotAll: bool)
    requires IsGroup(p, alts, rest) && GroupCut(alts, rest, s, i, k, dotAll)
    ensures TextMatches(p, s, dotAll)
  {
    assert p[0] == '{' && !StartsWith(p, "**") && !StartsWith(p, "**/");
  }

  lemma GroupIsCut(p: string, s: string, dotAll: bool)
    returns (alts: seq<string>, rest: string, i: int, k: int)
    requires p != "" && p[0] == '{' && TextMatches(p, s, dotAll)
    ensures IsGroup(p, alts, rest) && GroupCut(alts, rest, s, i, k, dotAll)
  {
    assert !StartsWith(p, "**") && !StartsWith(p, "**/");
    alts, rest, i, k :|
      IsGroup(p, alts, rest) && 0 <= i < |alts| && 0 <= k <= |s| &&
      (PartsAreShorter(alts, rest, i);
       TextMatches(alts[i], s[..k], dotAll) && TextMatches(rest, s[k..], dotAll));
  }

  lemma GroupRest(p: string, alts: seq<string>, rest: string)
    requires Balanced(p, 0) && IsGroup(p, alts, rest)
    ensures Balanced(rest, 0)
  {
    assert p[1..] == Grouped(alts, rest);
    GroupedBalanced(alts, rest);
  }

  lemma GroupParts(p: string, alts: seq<string>, rest: string, s: string, dotAll: bool)
    requires Balanced(p, 0) && IsGroup(p, alts, rest)
    ensures Balanced(rest, 0) && PartsAgree(alts, rest, s, dotAll)
    decreases |p|, 0
  {
    GroupRest(p, alts, rest);
    forall i, k | 0 <= i < |alts| && 0 <= k <= |s| ensures IsAlternative(alts[i]) && Agree(alts[i], s[..k], dotAll) {
      PartsAreShorter(alts, rest, i);
      TextMeaning(alts[i], s[..k], dotAll);
    }
    forall k | 0 <= k <= |s| ensures Agree(rest, s[k..], dotAll) {
      PartsAreShorter(alts, rest, 0);
      TextMeaning(rest, s[k..], dotAll);
    }
  }

  /** The parsed glob matches exactly what the text says. */
  lemma {:induction false} TextMeaning(p: string, s: string, dotAll: bool)
    requires Balanced(p, 0)
    ensures Matches(Parsed(p), s, dotAll) <==> TextMatches(p, s, dotAll)
    decreases |p|, 1
  {
    if p == "" {
      assert Parsed(p) == GEps;
    } else if IsDeep(p) {
      DeepKeepsBraces(p, 0);
      forall k | 0 <= k <= |s| ensures Agree(AfterDeep(p), s[k..], dotAll) {
        TextMeaning(AfterDeep(p), s[k..], dotAll);
      }
      DeepFirst(p, s, dotAll);
    } else if p[0] == '*' {
      forall k | 0 <= k <= |s| ensures Agree(p[1..], s[k..], dotAll) {
        TextMeaning(p[1..], s[k..], dotAll);
      }
      StarFirst(p, s, dotAll);
    } else if p[0] == '{' {
      if TextMatches(p, s, dotAll) {
        var alts, rest, i, k := GroupIsCut(p, s, dotAll);
        GroupParts(p, alts, rest, s, dotAll);
        GroupCuts(p, alts, rest, s, dotAll);
      }
      if Matches(Parsed(p), s, dotAll) {
        var alts, rest := GroupExists(p);
        GroupParts(p, alts, rest, s, dotAll);
        GroupCuts(p, alts, rest, s, dotAll);
        var i, k :| GroupCut(alts, rest, s, i, k, dotAll);
        CutIsGroup(p, alts, rest, s, i, k, dotAll);
      }
    } else {
      if s != "" {
        TextMeaning(p[1..], s[1..], dotAll);
      }
      CharFirst(p, s, dotAll);
    }
  }

  // ---------------------------------------------------------------- the theorems

  /** `Regex::new` on the text of `glob_to_regex`. */
  function Compiled(p: string): Re
    requires Balanced(p, 0)
  {
    Compiles(p);
    ParseRe(RegexText(p)).value
  }

  /**
   A pattern with matching braces compiles, and if every comma is inside them the regular expression
   matches exactly the paths that the pattern says, `**` stopping at line ends.
   */
  lemma CompiledMeaning(p: string, path: string)
    requires Balanced(p, 0) && !TopComma(p, 0)
    ensures IsMatch(Compiled(p), path) <==> TextMatches(p, path, false)
    ensures '\n' !in path ==> (IsMatch(Compiled(p), path) <==> TextMatches(p, path, true))
  {
    MeaningPreserved(p, path);
    TextMeaning(p, path, false);
    TextMeaning(p, path, true);
  }

  ghost predicate MatchesAsWritten(p: string, path: string, dotAll: bool)
    requires Balanced(p, 0)
  {
    IsMatch(Compiled(p), path) <==> TextMatches(p, path, dotAll)
  }

  /** Over all paths: exactly when no comma stands outside braces. */
  lemma CompiledMeaningExactly(p: string)
    requires Balanced(p, 0)
    ensures (forall path :: MatchesAsWritten(p, path, false)) <==> !TopComma(p, 0)
  {
    if TopComma(p, 0) {
      var path := TopCommaBreaks(p);
      TextMeaning(p, path, false);
      assert !MatchesAsWritten(p, path, false);
    } else {
      forall path ensures MatchesAsWritten(p, path, false) {
        CompiledMeaning(p, path);
      }
    }
  }

  /** Under the documented meaning, where `**` is any text at all: exactly when besides there is no `**`. */
  lemma CompiledDocumentedExactly(p: string)
    requires Balanced(p, 0)
    ensures (forall path :: MatchesAsWritten(p, path, true)) <==> !TopComma(p, 0) && !Contains(p, "**")
  {
    DocumentedExactly(p);
    forall path ensures MatchesAsWritten(p, path, true) <==> Agrees(p, path) {
      TextMeaning(p, path, true);
    }
  }

  /**
   `glob_to_regex` as a whole: it fails exactly when the braces do not match up, and without an outer
   comma its regular expression matches exactly the paths that the pattern says.
   */
  method Compile(pattern: string) returns (r: Option<Re>)
    ensures r.Some? <==> Balanced(pattern, 0)
    ensures r.Some? && !TopComma(pattern, 0) ==>
              forall path :: IsMatch(r.value, path) <==> TextMatches(pattern, path, false)
  {
    var out := GlobToRegex(pattern);
    r := ParseRe(out);
    Compiles(pattern);
    if r.Some? && !TopComma(pattern, 0) {
      forall path ensures IsMatch(r.value, path) <==> TextMatches(pattern, path, false) {
        CompiledMeaning(pattern, path);
      }
    }
  }

  // ---------------------------------------------------------------- brace expansion

  ghost predicate TextCut(x: string, y: string, s: string, k: int, dotAll: bool) {
    0 <= k <= |s| && TextMatches(x, s[..k], dotAll) && TextMatches(y, s[k..], dotAll)
  }

  lemma CutsAgree(x: string, y: string, s: string, k: int, dotAll: bool)
    requires Balanced(x, 0) && Balanced(y, 0)
    ensures Cuts(Parsed(x), Parsed(y), s, k, dotAll) <==> TextCut(x, y, s, k, dotAll)
  {
    if 0 <= k <= |s| {
      TextMeaning(x, s[..k], dotAll);
      TextMeaning(y, s[k..], dotAll);
    }
  }

  /** Catenated texts, when no star runs over the seam. */
  lemma TextConcat(x: string, y: string, s: string, dotAll: bool)
    requires Balanced(x, 0) && Balanced(y, 0) && NoSeam(x, y)
    ensures TextMatches(x + y, s, dotAll) <==> exists k :: TextCut(x, y, s, k, dotAll)
  {
    var g, h := Parsed(x), Parsed(y);
    ConcatParses(x, y, dotAll);
    TextMeaning(x + y, s, dotAll);
    CatCuts(g, h, s, dotAll);
    forall k ensures Cuts(g, h, s, k, dotAll) <==> TextCut(x, y, s, k, dotAll) {
      CutsAgree(x, y, s, k, dotAll);
    }
  }

  ghost predicate Expands(alts: seq<string>, rest: string, s: string, i: int, dotAll: bool) {
    0 <= i < |alts| && TextMatches(alts[i] + rest, s, dotAll)
  }

  lemma AlternativeExpands(alts: seq<string>, rest: string, s: string, i: int, dotAll: bool)
    requires AreAlternatives(alts) && Balanced(rest, 0) && 0 <= i < |alts| && NoSeam(alts[i], rest)
    ensures Expands(alts, rest, s, i, dotAll) <==> exists k :: GroupCut(alts, rest, s, i, k, dotAll)
  {
    TextConcat(alts[i], rest, s, dotAll);
    forall k ensures TextCut(alts[i], rest, s, k, dotAll) <==> GroupCut(alts, rest, s, i, k, dotAll) {
    }
  }

  lemma GroupExpands(alts: seq<string>, rest: string, s: string, dotAll: bool)
    requires AreAlternatives(alts) && Balanced(rest, 0)
    requires forall i :: 0 <= i < |alts| ==> NoSeam(alts[i], rest)
    ensures Balanced("{" + Grouped(alts, rest), 0)
    ensures TextMatches("{" + Grouped(alts, rest), s, dotAll) <==> exists i :: Expands(alts, rest, s, i, dotAll)
  {
    var p := "{" + Grouped(alts, rest);
    assert p[1..] == Grouped(alts, rest);
    GroupedBalanced(alts, rest);
    GroupParts(p, alts, rest, s, dotAll);
    GroupCuts(p, alts, rest, s, dotAll);
    TextMeaning(p, s, dotAll);
    if i, k :| GroupCut(alts, rest, s, i, k, dotAll) {
      AlternativeExpands(alts, rest, s, i, dotAll);
    }
    if i :| Expands(alts, rest, s, i, dotAll) {
      AlternativeExpands(alts, rest, s, i, dotAll);
    }
  }

  ghost predicate ExpandsBehind(x: string, alts: seq<string>, rest: string, s: string, i: int, dotAll: bool) {
    0 <= i < |alts| && TextMatches(x + (alts[i] + rest), s, dotAll)
  }

  /**
   `x{a,b,..}y` matches exactly what `xay`, `xby`, .. match, when no star at the end of one part runs
   into a star or a slash at the start of the next.
   */
  lemma BracesExpand(x: string, alts: seq<string>, rest: string, s: string, dotAll: bool)
    requires Balanced(x, 0) && AreAlternatives(alts) && Balanced(rest, 0)
    requires forall i :: 0 <= i < |alts| ==> NoSeam(alts[i], rest) && NoSeam(x, alts[i] + rest)
    ensures TextMatches(x + ("{" + Grouped(alts, rest)), s, dotAll) <==>
            exists i :: ExpandsBehind(x, alts, rest, s, i, dotAll)
  {
    var p := "{" + Grouped(alts, rest);
    GroupExpands(alts, rest, s, dotAll);
    TextConcat(x, p, s, dotAll);
    forall i | 0 <= i < |alts| ensures Balanced(alts[i] + rest, 0) {
      BalancedConcat(alts[i], rest, 0);
    }
    if TextMatches(x + p, s, dotAll) {
      var k :| TextCut(x, p, s, k, dotAll);
      GroupExpands(alts, rest, s[k..], dotAll);
      var i :| Expands(alts, rest, s[k..], i, dotAll);
      TextConcat(x, alts[i] + rest, s, dotAll);
      assert TextCut(x, alts[i] + rest, s, k, dotAll);
      assert ExpandsBehind(x, alts, rest, s, i, dotAll);
    }
    if i :| ExpandsBehind(x, alts, rest, s, i, dotAll) {
      TextConcat(x, alts[i] + rest, s, dotAll);
      var k :| TextCut(x, alts[i] + rest, s, k, dotAll);
      GroupExpands(alts, rest, s[k..], dotAll);
      assert Expands(alts, rest, s[k..], i, dotAll);
      assert TextCut(x, p, s, k, dotAll);
    }
  }
}
