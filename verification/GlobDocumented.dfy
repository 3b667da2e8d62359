/**
 The documented meaning of the globs of GlobRegex.dfy, under which `**` matches any text at all, and
 exactly when the compiled regular expression has it.
 */
module GlobDocumented {
  import opened Wrappers
  import opened Text
  import opened GlobRegex
  import opened GlobMeaning

  // ---------------------------------------------------------------- where `**` is read

  predicate HasDeep(g: Glob) {
    match g
    case GDeep => true
    case GCat(l, r) => HasDeep(l) || HasDeep(r)
    case GAlt(l, r) => HasDeep(l) || HasDeep(r)
    case _ => false
  }

  predicate DeepFrames(stack: seq<GFrame>) {
    exists i :: 0 <= i < |stack| && HasDeep(Closed(stack[i]))
  }

  lemma FramesConcat(a: seq<GFrame>, b: seq<GFrame>)
    ensures DeepFrames(a + b) <==> DeepFrames(a) || DeepFrames(b)
  {
    if DeepFrames(a) {
      var i :| 0 <= i < |a| && HasDeep(Closed(a[i]));
      assert (a + b)[i] == a[i];
    } else if DeepFrames(b) {
      var i :| 0 <= i < |b| && HasDeep(Closed(b[i]));
      assert (a + b)[|a| + i] == b[i];
    }
  }

  lemma OneFrame(f: GFrame)
    ensures DeepFrames([f]) <==> HasDeep(Closed(f))
  {
    assert [f][0] == f;
  }

  /** The last frame split off. */
  lemma LastFrame(stack: seq<GFrame>)
    requires stack != []
    ensures var n := |stack| - 1; DeepFrames(stack) <==> DeepFrames(stack[..n]) || HasDeep(Closed(stack[n]))
  {
    var n := |stack| - 1;
    assert stack == stack[..n] + [stack[n]];
    FramesConcat(stack[..n], [stack[n]]);
    OneFrame(stack[n]);
  }

  lemma PushDeep(stack: seq<GFrame>, g: Glob)
    requires stack != []
    ensures DeepFrames(Push(stack, g)) <==> DeepFrames(stack) || HasDeep(g)
  {
    var n := |stack| - 1;
    var f := GFrame(stack[n].alts, GCat(stack[n].cat, g));
    LastFrame(stack);
    FramesConcat(stack[..n], [f]);
    OneFrame(f);
  }

  lemma ReadDeep(stack: seq<GFrame>, t: Tok)
    requires stack != [] && Read(stack, t).Some?
    ensures DeepFrames(Read(stack, t).value) <==> DeepFrames(stack) || t.Deep?
  {
    var n := |stack| - 1;
    match t {
      case Deep => PushDeep(stack, GDeep);
      case Star => PushDeep(stack, GStar);
      case Quest => PushDeep(stack, GQuest);
      case Lit(c) => PushDeep(stack, GLit(c));
      case Open =>
        FramesConcat(stack, [GFrame(None, GEps)]);
        OneFrame(GFrame(None, GEps));
      case Close =>
        LastFrame(stack);
        PushDeep(stack[..n], Closed(stack[n]));
      case Comma =>
        if n == 0 {
          PushDeep(stack, GLit(','));
        } else {
          var f := GFrame(Some(Closed(stack[n])), GEps);
          LastFrame(stack);
          FramesConcat(stack[..n], [f]);
          OneFrame(f);
        }
    }
  }

  lemma {:induction false} ReadAllDeep(stack: seq<GFrame>, toks: seq<Tok>)
    requires stack != [] && ReadAll(stack, toks).Some?
    ensures DeepFrames(ReadAll(stack, toks).value) <==> DeepFrames(stack) || Deep in toks
    decreases |toks|
  {
    if toks != [] {
      ReadDeep(stack, toks[0]);
      ReadAllDeep(Read(stack, toks[0]).value, toks[1..]);
      assert toks == [toks[0]] + toks[1..];
    }
  }

  lemma {:induction false} LexDeepIn(p: string)
    ensures Deep in Lex(p) <==> Contains(p, "**")
  {
    if p != "" {
      assert IsDeep(p) <==> StartsWith(p, "**");
      if !IsDeep(p) {
        LexDeepIn(p[1..]);
      }
    }
  }

  /** The parsed glob has a `**` exactly when the text has. */
  lemma DeepIsText(p: string)
    requires ParseGlob(p).Some?
    ensures HasDeep(ParseGlob(p).value) <==> Contains(p, "**")
  {
    LexDeepIn(p);
    ReadAllDeep(GLOB_START, Lex(p));
    OneFrame(GFrame(None, GEps));
    var stack := ReadAll(GLOB_START, Lex(p)).value;
    assert stack == [stack[0]];
    OneFrame(stack[0]);
  }

  // ---------------------------------------------------------------- without `**` both meanings agree

  lemma {:induction false} NoDeepAgrees(g: Glob, s: string)
    requires !HasDeep(g)
    ensures Matches(g, s, false) <==> Matches(g, s, true)
  {
    match g {
      case GCat(l, r) =>
        forall k | 0 <= k <= |s|
          ensures Matches(l, s[..k], false) <==> Matches(l, s[..k], true)
          ensures Matches(r, s[k..], false) <==> Matches(r, s[k..], true)
        {
          NoDeepAgrees(l, s[..k]);
          NoDeepAgrees(r, s[k..]);
        }
      case GAlt(l, r) =>
        NoDeepAgrees(l, s);
        NoDeepAgrees(r, s);
      case _ =>
    }
  }

  // ---------------------------------------------------------------- with `**` they differ

  /** How often a line feed is directly followed by a slash: no factor but a `**` can hold one. */
  function Switches(s: string): nat {
    if |s| < 2 then 0 else (if s[0] == '\n' && s[1] == '/' then 1 else 0) + Switches(s[1..])
  }

  lemma {:induction false} SwitchesConcat(a: string, b: string)
    ensures Switches(a) + Switches(b) <= Switches(a + b) <= Switches(a) + Switches(b) + 1
  {
    if a == "" {
      assert a + b == b;
    } else {
      assert (a + b)[1..] == a[1..] + b;
      SwitchesConcat(a[1..], b);
      if |a| == 1 {
        assert a[1..] + b == b;
      } else {
        assert (a + b)[0] == a[0] && (a + b)[1] == a[1];
      }
    }
  }

  lemma {:induction false} NoSwitches(s: string, c: char)
    requires c !in s && (c == '\n' || c == '/')
    ensures Switches(s) == 0
  {
    if |s| >= 2 {
      NoSwitches(s[1..], c);
    }
  }

  function Factors(g: Glob): nat {
    match g
    case GCat(l, r) => Factors(l) + Factors(r)
    case GAlt(l, r) => Factors(l) + Factors(r)
    case _ => 1
  }

  /** When `**` stops at line ends, a match has fewer switches than the glob has factors. */
  lemma {:induction false} FewSwitches(g: Glob, s: string)
    requires Matches(g, s, false)
    ensures Switches(s) < Factors(g)
  {
    match g {
      case GCat(l, r) =>
        var k :| 0 <= k <= |s| && Matches(l, s[..k], false) && Matches(r, s[k..], false);
        FewSwitches(l, s[..k]);
        FewSwitches(r, s[k..]);
        SwitchesConcat(s[..k], s[k..]);
        assert s[..k] + s[k..] == s;
      case GAlt(l, r) =>
        if Matches(l, s, false) { FewSwitches(l, s); } else { FewSwitches(r, s); }
      case GDeep => NoSwitches(s, '\n');
      case GStar => NoSwitches(s, '/');
      case _ =>
    }
  }

  function Many(n: nat): string {
    if n == 0 then "" else "\n/" + Many(n - 1)
  }

  lemma {:induction false} ManySwitches(n: nat)
    ensures Switches(Many(n)) >= n
  {
    if n > 0 {
      ManySwitches(n - 1);
      SwitchesConcat("\n/", Many(n - 1));
      assert Switches("\n/") == 1;
    }
  }

  lemma Joined(l: Glob, r: Glob, a: string, b: string)
    requires Matches(l, a, true) && Matches(r, b, true)
    ensures Matches(GCat(l, r), a + b, true)
  {
    assert (a + b)[..|a|] == a && (a + b)[|a|..] == b;
  }

  /** Every glob matches some text. */
  lemma {:induction false} Member(g: Glob) returns (s: string)
    ensures Matches(g, s, true)
  {
    match g {
      case GCat(l, r) =>
        var a := Member(l);
        var b := Member(r);
        s := a + b;
        Joined(l, r, a, b);
      case GAlt(l, _) => s := Member(l);
      case GLit(c) => s := [c];
      case GQuest => s := "x";
      case _ => s := "";
    }
  }

  /** A glob with a `**` matches, as documented, texts with any number of switches. */
  lemma {:induction false} ManySwitchMember(g: Glob, n: nat) returns (s: string)
    requires HasDeep(g)
    ensures Matches(g, s, true) && Switches(s) >= n
  {
    match g {
      case GDeep =>
        s := Many(n);
        ManySwitches(n);
      case GCat(l, r) =>
        var a, b;
        if HasDeep(l) {
          a := ManySwitchMember(l, n);
          b := Member(r);
        } else {
          a := Member(l);
          b := ManySwitchMember(r, n);
        }
        s := a + b;
        Joined(l, r, a, b);
        SwitchesConcat(a, b);
      case GAlt(l, r) =>
        if HasDeep(l) { s := ManySwitchMember(l, n); } else { s := ManySwitchMember(r, n); }
    }
  }

  /** Every glob with a `**` means, as documented, some path that it does not match within one line. */
  lemma DeepMissesPath(g: Glob) returns (path: string)
    requires HasDeep(g)
    ensures Matches(g, path, true) && !Matches(g, path, false)
  {
    path := ManySwitchMember(g, Factors(g));
    if Matches(g, path, false) {
      FewSwitches(g, path);
    }
  }

  // ---------------------------------------------------------------- the theorem


  ghost predicate Agrees(p: string, path: string)
    requires Balanced(p, 0)
  {
    Compiles(p);
    IsMatch(ParseRe(RegexText(p)).value, path) <==> Matches(ParseGlob(p).value, path, true)
  }

  /**
   For compiling patterns, the documented meaning holds on all paths exactly when no comma stands
   outside braces and the pattern has no `**`. (On paths without a line feed `**` is no obstacle:
   `MeaningPreserved`.)
   */
  lemma DocumentedExactly(p: string)
    requires Balanced(p, 0)
    ensures (forall path :: Agrees(p, path)) <==> !TopComma(p, 0) && !Contains(p, "**")
  {
    Compiles(p);
    var g := ParseGlob(p).value;
    DeepIsText(p);
    if TopComma(p, 0) {
      var path := TopCommaBreaks(p);
      assert !Agrees(p, path);
    } else if HasDeep(g) {
      var path := DeepMissesPath(g);
      MeaningPreserved(p, path);
      assert !Agrees(p, path);
    } else {
      forall path ensures Agrees(p, path) {
        MeaningPreserved(p, path);
        NoDeepAgrees(g, path);
      }
    }
  }

  /** Under the documented "any sequence of characters", `**` misses paths that contain a line end. */
  lemma DeepStopsAtLineEnd()
    ensures Balanced("**", 0) && !TopComma("**", 0)
    ensures ParseRe(RegexText("**")).Some? && ParseGlob("**").Some?
    ensures Matches(ParseGlob("**").value, "\n", true) && !IsMatch(ParseRe(RegexText("**")).value, "\n")
  {
    var p := "**";
    assert p[1..] == "*" && "*"[1..] == "" && AfterDeep(p) == "";
    assert Balanced("*", 0) && !TopComma("*", 0);
    MeaningPreserved(p, "\n");
    assert Lex(p) == [Deep];
    assert [Deep][1..] == [];
    assert ReadAll(GLOB_START, [Deep]) == Some(Push(GLOB_START, GDeep));
    var g := GCat(GEps, GDeep);
    assert ParseGlob(p) == Some(g);
    var s := "\n";
    assert s[..0] == "" && s[0..] == s;
    assert Matches(g, s, true);
    assert '\n' in s[0..];
    assert forall k :: 0 < k <= |s| ==> s[..k] != "";
  }

  // ---------------------------------------------------------------- the slash after `**`

  /** The tokens without the code's special case: `**`, and then whatever stands there. */
  function PlainLex(p: string): seq<Tok> {
    if p == "" then []
    else if IsDeep(p) then [Deep] + PlainLex(p[2..])
    else [Single(p[0])] + PlainLex(p[1..])
  }

  /** Some `**` is directly followed by a slash. */
  predicate Swallows(p: string) {
    p != "" &&
    if IsDeep(p) then (|p| > 2 && p[2] == '/') || Swallows(AfterDeep(p)) else Swallows(p[1..])
  }

  /** The special case changes how a pattern is read exactly when a slash follows a `**`. */
  lemma {:induction false} SlashIsSwallowed(p: string)
    ensures Lex(p) == PlainLex(p) <==> !Swallows(p)
    ensures |Lex(p)| <= |PlainLex(p)| && (Swallows(p) ==> |Lex(p)| < |PlainLex(p)|)
    decreases |p|
  {
    if p == "" {
    } else if IsDeep(p) {
      SlashIsSwallowed(AfterDeep(p));
      if |p| > 2 && p[2] == '/' {
        assert p[2..][1..] == p[3..] && !IsDeep(p[2..]);
      }
    } else {
      SlashIsSwallowed(p[1..]);
    }
  }

  lemma ReadsTwo(t: Tok, a: Glob, c: char)
    requires Read(GLOB_START, t) == Some(Push(GLOB_START, a))
    ensures ReadAll(GLOB_START, [t, Lit(c)]) == Some([GFrame(None, GCat(GCat(GEps, a), GLit(c)))])
  {
    var one := Push(GLOB_START, a);
    var two := Push(one, GLit(c));
    assert one == [GFrame(None, GCat(GEps, a))];
    assert two == [GFrame(None, GCat(GCat(GEps, a), GLit(c)))];
    assert [t, Lit(c)][1..] == [Lit(c)] && [Lit(c)][1..] == [];
    assert ReadAll(two, []) == Some(two);
    assert ReadAll(one, [Lit(c)]) == Some(two);
    assert ReadAll(GLOB_START, [t, Lit(c)]) == ReadAll(one, [Lit(c)]);
  }

  // It matters: the pattern below means "yx", which has no slash.
  lemma SwallowedSlashShows()
    ensures Swallows("**/x") && ParseGlob("**/x").Some?
    ensures Matches(ParseGlob("**/x").value, "yx", true)
  {
    var p := "**/x";
    assert AfterDeep(p) == "x" && "x"[1..] == "";
    assert Lex(p) == [Deep, Lit('x')];
    ReadsTwo(Deep, GDeep, 'x');
    Joined(GEps, GDeep, "", "y");
    assert "" + "y" == "y" && "y" + "x" == "yx";
    Joined(GCat(GEps, GDeep), GLit('x'), "y", "x");
  }
}
