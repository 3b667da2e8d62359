/** Meaning preservation for the glob compiler of GlobRegex.dfy. */
module GlobMeaning {
  import opened Wrappers
  import opened GlobRegex

  // ---------------------------------------------------------------- well-formed patterns, on their text

  /** Braces match up, starting `depth` braces deep. */
  predicate Balanced(p: string, depth: nat) {
    if p == "" then depth == 0
    else if p[0] == '{' then Balanced(p[1..], depth + 1)
    else if p[0] == '}' then depth > 0 && Balanced(p[1..], depth - 1)
    else Balanced(p[1..], depth)
  }

  /** Some comma stands outside all braces. */
  predicate TopComma(p: string, depth: nat) {
    p != "" &&
    if p[0] == '{' then TopComma(p[1..], depth + 1)
    else if p[0] == '}' then depth > 0 && TopComma(p[1..], depth - 1)
    else (p[0] == ',' && depth == 0) || TopComma(p[1..], depth)
  }

  // ---------------------------------------------------------------- the emitted text lexes back

  function ReTokens(t: Tok): seq<RTok> {
    match t
    case Deep => [RAny, RStar]
    case Star => [RNotSlash, RStar]
    case Quest => [RNotSlash]
    case Open => [ROpen]
    case Close => [RClose]
    case Comma => [RBar]
    case Lit(c) => [RChar(c)]
  }

  function AllReTokens(toks: seq<Tok>): seq<RTok> {
    if toks == [] then [] else ReTokens(toks[0]) + AllReTokens(toks[1..])
  }

  /** A literal token is never one of the glob's own characters. */
  predicate Plain(t: Tok) {
    t.Lit? ==> t.c !in "*?{},"
  }

  lemma {:induction false} LexIsPlain(p: string)
    ensures forall i :: 0 <= i < |Lex(p)| ==> Plain(Lex(p)[i])
    decreases |p|
  {
    if p == "" {
    } else if IsDeep(p) {
      LexIsPlain(AfterDeep(p));
    } else {
      LexIsPlain(p[1..]);
    }
  }

  lemma LexStar(rest: string)
    ensures LexRe("*" + rest) == Cons(RStar, LexRe(rest))
  {
    assert ("*" + rest)[1..] == rest;
  }

  lemma LexLit(c: char, rest: string)
    requires c !in "*?{},"
    ensures LexRe(EmitTok(Lit(c)) + rest) == Cons(RChar(c), LexRe(rest))
  {
    var s := EmitTok(Lit(c)) + rest;
    if c == '.' || c in META {
      assert c in ESCAPABLE;
      assert s[0] == '\\' && s[1] == c && s[2..] == rest;
    } else {
      assert c !in ESCAPABLE;
      assert s[0] == c && s[1..] == rest;
    }
  }

  lemma LexDeep(rest: string)
    ensures LexRe(".*" + rest) == Cons(RAny, Cons(RStar, LexRe(rest)))
  {
    LexStar(rest);
    assert (".*" + rest)[1..] == "*" + rest;
  }

  lemma LexNotSlash(rest: string)
    ensures LexRe("[^/]" + rest) == Cons(RNotSlash, LexRe(rest))
  {
    assert ("[^/]" + rest)[4..] == rest;
  }

  lemma LexPunctuation(t: Tok, rest: string)
    requires (t.Open? && (rest == "" || rest[0] != '?')) || t.Close? || t.Comma?
    ensures LexRe(EmitTok(t) + rest) == Cons(ReTokens(t)[0], LexRe(rest))
  {
    assert (EmitTok(t) + rest)[1..] == rest;
  }

  function Prepend(toks: seq<RTok>, rest: Option<seq<RTok>>): Option<seq<RTok>> {
    match rest case None => None case Some(more) => Some(toks + more)
  }

  /** The regex tokens of `t`, read off the front. */
  lemma LexTok(t: Tok, rest: string)
    requires Plain(t) && (rest == "" || rest[0] != '?')
    ensures LexRe(EmitTok(t) + rest) == Prepend(ReTokens(t), LexRe(rest))
  {
    match t {
      case Deep =>
        LexDeep(rest);
        ConsTwice(RAny, RStar, LexRe(rest));
      case Star =>
        LexStar(rest);
        LexNotSlash("*" + rest);
        assert "[^/]*" + rest == "[^/]" + ("*" + rest);
        ConsTwice(RNotSlash, RStar, LexRe(rest));
      case Quest => LexNotSlash(rest);
      case Lit(c) => LexLit(c, rest);
      case _ => LexPunctuation(t, rest);
    }
  }

  lemma ConsTwice(a: RTok, b: RTok, rest: Option<seq<RTok>>)
    ensures Cons(a, Cons(b, rest)) == Prepend([a, b], rest)
  {
    if rest.Some? {
      assert [a] + ([b] + rest.value) == [a, b] + rest.value;
    }
  }

  lemma EmitTokStarts(t: Tok)
    requires Plain(t)
    ensures EmitTok(t) != "" && EmitTok(t)[0] != '?'
  {
    if t.Lit? {
      assert '?' in "*?{},";
    }
  }

  lemma {:induction false} EmittedLexes(toks: seq<Tok>)
    requires forall i :: 0 <= i < |toks| ==> Plain(toks[i])
    ensures LexRe(Emit(toks) + "$") == Some(AllReTokens(toks) + [REnd])
  {
    if toks == [] {
      assert Emit(toks) + "$" == "$" && "$"[1..] == "";
      assert LexRe("$") == Cons(REnd, LexRe(""));
      assert [REnd] + [] == [REnd] == AllReTokens(toks) + [REnd];
    } else {
      var rest := Emit(toks[1..]) + "$";
      EmittedLexes(toks[1..]);
      if toks[1..] != [] {
        EmitTokStarts(toks[1]);
        assert rest[0] == EmitTok(toks[1])[0];
      }
      LexTok(toks[0], rest);
      assert Emit(toks) + "$" == EmitTok(toks[0]) + rest;
      assert AllReTokens(toks) + [REnd] == ReTokens(toks[0]) + (AllReTokens(toks[1..]) + [REnd]);
    }
  }

  // ---------------------------------------------------------------- the two parsers run in step

  /** The regular expression a glob stands for. */
  function Tr(g: Glob): Re {
    match g
    case GEps => Eps
    case GCat(l, r) => Cat(Tr(l), Tr(r))
    case GAlt(l, r) => Alt(Tr(l), Tr(r))
    case GLit(c) => Char(c)
    case GDeep => Rep(Dot)
    case GStar => Rep(Slashless)
    case GQuest => Slashless
  }

  /** The same, with the opening anchor in front of the first factor. */
  function Anchored(g: Glob): Re {
    match g
    case GEps => Cat(Eps, Bol)
    case GCat(l, r) => Cat(Anchored(l), Tr(r))
    case _ => Cat(Cat(Eps, Bol), Tr(g))
  }

  function TrFrame(f: GFrame): Frame {
    Frame(match f.alts case None => None case Some(a) => Some(Tr(a)), Tr(f.cat))
  }

  /** No literal comma: it only ever comes from a comma outside all braces. */
  predicate NoComma(g: Glob) {
    match g
    case GCat(l, r) => NoComma(l) && NoComma(r)
    case GAlt(l, r) => NoComma(l) && NoComma(r)
    case GLit(c) => c != ','
    case _ => true
  }

  predicate NoCommaFrame(f: GFrame) {
    NoComma(f.cat) && (f.alts.Some? ==> NoComma(f.alts.value))
  }

  /** A literal comma is one of the factors. */
  predicate NeedsComma(g: Glob) {
    g.GCat? && (g.r == GLit(',') || NeedsComma(g.l))
  }

  /** `b` is the first of the alternatives `e`. */
  predicate FirstAlternative(e: Re, b: Re) {
    e == b || (e.Alt? && FirstAlternative(e.l, b))
  }

  /**
   The parser states correspond. Inside braces the frames are translations of each other; outside,
   the regular expression is anchored, and once a comma has been read there (`first` is what stood
   before it) the regular expression has started a second alternative where the glob has a comma.
   */
  predicate InStep(gs: seq<GFrame>, rs: seq<Frame>, first: Option<Glob>) {
    && |gs| == |rs| > 0
    && (forall i :: 0 < i < |gs| ==> rs[i] == TrFrame(gs[i]) && NoCommaFrame(gs[i]))
    && gs[0].alts.None?
    && match first
       case None => NoComma(gs[0].cat) && rs[0] == Frame(None, Anchored(gs[0].cat))
       case Some(a) =>
         NoComma(a) && NeedsComma(gs[0].cat) && rs[0].alts.Some? && FirstAlternative(rs[0].alts.value, Anchored(a))
  }

  /** Appending one translated factor on both sides. */
  lemma PushInStep(gs: seq<GFrame>, rs: seq<Frame>, first: Option<Glob>, g: Glob)
    requires InStep(gs, rs, first) && NoComma(g)
    ensures InStep(Push(gs, g), PushRe(rs, Tr(g)), first)
  {
  }

  /** Reading the regex tokens of one glob token. */
  function ReadReTok(rs: seq<Frame>, t: Tok): Option<seq<Frame>>
    requires rs != []
  {
    ReadAllRe(rs, ReTokens(t))
  }

  lemma ReadOne(rs: seq<Frame>, t: RTok)
    requires rs != []
    ensures ReadAllRe(rs, [t]) == ReadRe(rs, t)
  {
    assert [t][1..] == [];
  }

  lemma ReadStarred(rs: seq<Frame>, atom: Re, t: RTok)
    requires rs != [] && ReadRe(rs, t) == Some(PushRe(rs, atom))
    ensures ReadAllRe(rs, [t, RStar]) == Some(PushRe(rs, Rep(atom)))
  {
    assert [t, RStar][1..] == [RStar];
    ReadOne(PushRe(rs, atom), RStar);
    var n := |rs| - 1;
    assert PushRe(rs, atom)[..n] == rs[..n];
  }

  function FirstAfter(gs: seq<GFrame>, first: Option<Glob>, t: Tok): Option<Glob>
    requires gs != []
  {
    if first.None? && t.Comma? && |gs| == 1 then Some(gs[0].cat) else first
  }

  /** One glob token keeps the parsers in step; both reject together. */
  lemma TokInStep(gs: seq<GFrame>, rs: seq<Frame>, first: Option<Glob>, t: Tok)
    requires InStep(gs, rs, first) && Plain(t)
    ensures Read(gs, t).Some? <==> ReadReTok(rs, t).Some?
    ensures Read(gs, t).Some? ==> InStep(Read(gs, t).value, ReadReTok(rs, t).value, FirstAfter(gs, first, t))
  {
    var n := |gs| - 1;
    match t {
      case Deep =>
        ReadStarred(rs, Dot, RAny);
        PushInStep(gs, rs, first, GDeep);
      case Star =>
        ReadStarred(rs, Slashless, RNotSlash);
        PushInStep(gs, rs, first, GStar);
      case Quest =>
        ReadOne(rs, RNotSlash);
        PushInStep(gs, rs, first, GQuest);
      case Lit(c) =>
        ReadOne(rs, RChar(c));
        PushInStep(gs, rs, first, GLit(c));
      case Open =>
        ReadOne(rs, ROpen);
      case Close =>
        ReadOne(rs, RClose);
        if n > 0 {
          assert ClosedRe(rs[n]) == Tr(Closed(gs[n]));
          PushInStep(gs[..n], rs[..n], first, Closed(gs[n]));
        }
      case Comma =>
        ReadOne(rs, RBar);
    }
  }

  lemma {:induction false} ReadAllReConcat(rs: seq<Frame>, a: seq<RTok>, b: seq<RTok>)
    requires rs != []
    ensures ReadAllRe(rs, a + b) ==
            match ReadAllRe(rs, a) case None => None case Some(next) => if next == [] then None else ReadAllRe(next, b)
    decreases |a|
  {
    if a == [] {
      assert a + b == b;
    } else {
      assert (a + b)[0] == a[0] && (a + b)[1..] == a[1..] + b;
      if ReadRe(rs, a[0]).Some? {
        ReadAllReConcat(ReadRe(rs, a[0]).value, a[1..], b);
      }
    }
  }

  /** The first segment after reading all of `toks`. */
  function FirstSegment(gs: seq<GFrame>, first: Option<Glob>, toks: seq<Tok>): Option<Glob>
    requires gs != []
    decreases |toks|
  {
    if toks == [] || Read(gs, toks[0]).None? then first
    else FirstSegment(Read(gs, toks[0]).value, FirstAfter(gs, first, toks[0]), toks[1..])
  }

  lemma {:induction false} AllInStep(gs: seq<GFrame>, rs: seq<Frame>, first: Option<Glob>, toks: seq<Tok>)
    requires InStep(gs, rs, first) && forall i :: 0 <= i < |toks| ==> Plain(toks[i])
    ensures ReadAll(gs, toks).Some? <==> ReadAllRe(rs, AllReTokens(toks)).Some?
    ensures ReadAll(gs, toks).Some? ==>
              InStep(ReadAll(gs, toks).value, ReadAllRe(rs, AllReTokens(toks)).value, FirstSegment(gs, first, toks))
    decreases |toks|
  {
    if toks != [] {
      TokInStep(gs, rs, first, toks[0]);
      ReadAllReConcat(rs, ReTokens(toks[0]), AllReTokens(toks[1..]));
      if Read(gs, toks[0]).Some? {
        AllInStep(Read(gs, toks[0]).value, ReadReTok(rs, toks[0]).value, FirstAfter(gs, first, toks[0]), toks[1..]);
      }
    }
  }

  // ---------------------------------------------------------------- well-formedness of the text

  lemma DeepKeepsBraces(p: string, depth: nat)
    requires IsDeep(p)
    ensures Balanced(p, depth) <==> Balanced(AfterDeep(p), depth)
    ensures TopComma(p, depth) <==> TopComma(AfterDeep(p), depth)
  {
    var q := p[1..];
    assert q[1..] == p[2..];
    assert Balanced(p, depth) <==> Balanced(q, depth);
    assert Balanced(q, depth) <==> Balanced(p[2..], depth);
    assert TopComma(p, depth) <==> TopComma(q, depth);
    assert TopComma(q, depth) <==> TopComma(p[2..], depth);
    if |p| > 2 && p[2] == '/' {
      assert p[2..][1..] == p[3..];
    }
  }

  /** What is left of the text after its first token. */
  function AfterToken(p: string): string
    requires p != ""
  {
    if IsDeep(p) then AfterDeep(p) else p[1..]
  }

  function DepthAfter(depth: nat, t: Tok): Option<nat> {
    match t
    case Open => Some(depth + 1)
    case Close => if depth == 0 then None else Some(depth - 1)
    case _ => Some(depth)
  }

  lemma ReadDepth(gs: seq<GFrame>, t: Tok)
    requires gs != []
    ensures DepthAfter(|gs| - 1, t) ==
            match Read(gs, t) case None => None case Some(next) => Some(|next| - 1)
  {
  }

  /** One token, on the text. */
  lemma TextStep(p: string, depth: nat)
    requires p != ""
    ensures Lex(p) != [] && Lex(p)[1..] == Lex(AfterToken(p))
    ensures var next := DepthAfter(depth, Lex(p)[0]);
            && (Balanced(p, depth) <==> next.Some? && Balanced(AfterToken(p), next.value))
            && (TopComma(p, depth) <==>
                next.Some? && ((Lex(p)[0].Comma? && depth == 0) || TopComma(AfterToken(p), next.value)))
  {
    if IsDeep(p) {
      DeepKeepsBraces(p, depth);
    }
  }

  lemma FirstAfterComma(gs: seq<GFrame>, first: Option<Glob>, t: Tok)
    requires gs != []
    ensures FirstAfter(gs, first, t).Some? <==> first.Some? || (t.Comma? && |gs| == 1)
  {
  }

  /** The glob parser accepts exactly the balanced patterns, and sees every top-level comma. */
  lemma {:induction false} ReadsBalanced(gs: seq<GFrame>, first: Option<Glob>, p: string)
    requires gs != []
    ensures (ReadAll(gs, Lex(p)).Some? && |ReadAll(gs, Lex(p)).value| == 1) <==> Balanced(p, |gs| - 1)
    ensures ReadAll(gs, Lex(p)).Some? ==>
              (FirstSegment(gs, first, Lex(p)).Some? <==> first.Some? || TopComma(p, |gs| - 1))
    decreases |p|
  {
    if p != "" {
      TextStep(p, |gs| - 1);
      var toks := Lex(p);
      ReadDepth(gs, toks[0]);
      FirstAfterComma(gs, first, toks[0]);
      match Read(gs, toks[0]) {
        case None =>
          assert ReadAll(gs, toks).None?;
        case Some(next) =>
          var f := FirstAfter(gs, first, toks[0]);
          ReadsBalanced(next, f, AfterToken(p));
          ReadsOne(gs, first, toks, next);
      }
    }
  }

  /** Reading all of a token list, one token on. */
  lemma ReadsOne(gs: seq<GFrame>, first: Option<Glob>, toks: seq<Tok>, next: seq<GFrame>)
    requires gs != [] && toks != [] && Read(gs, toks[0]) == Some(next)
    ensures next != [] && ReadAll(gs, toks) == ReadAll(next, toks[1..])
    ensures FirstSegment(gs, first, toks) == FirstSegment(next, FirstAfter(gs, first, toks[0]), toks[1..])
  {
  }

  /** The text that `glob_to_regex` hands to `Regex::new`. */
  function RegexText(p: string): string {
    "^" + (Emit(Lex(p)) + "$")
  }

  ghost predicate Related(p: string, g: Glob, e: Re) {
    if TopComma(p, 0) then
      && NeedsComma(g) && e.Alt?
      && exists a :: NoComma(a) && FirstAlternative(e.l, Anchored(a))
    else
      e == Cat(Anchored(g), Eol)
  }

  const ANCHORED_START := [Frame(None, Cat(Eps, Bol))]

  lemma StartInStep()
    ensures ReadRe(RE_START, RBegin) == Some(ANCHORED_START)
    ensures InStep(GLOB_START, ANCHORED_START, None)
  {
    assert RE_START[..0] == [];
    assert [] + [Frame(None, Cat(Eps, Bol))] == ANCHORED_START;
    assert PushRe(RE_START, Bol) == ANCHORED_START;
  }

  /** The emitted text as tokens: the body between the two anchors. */
  lemma TextLexes(p: string)
    ensures LexRe(RegexText(p)) == Some([RBegin] + (AllReTokens(Lex(p)) + [REnd]))
  {
    LexIsPlain(p);
    EmittedLexes(Lex(p));
    var body := Emit(Lex(p)) + "$";
    assert RegexText(p)[0] == '^' && RegexText(p)[1..] == body;
    assert LexRe(RegexText(p)) == Cons(RBegin, LexRe(body));
  }

  /** Reading a body between the anchors. */
  lemma AnchorsRead(body: seq<RTok>)
    ensures ReadAllRe(RE_START, [RBegin] + (body + [REnd])) ==
            match ReadAllRe(ANCHORED_START, body)
            case None => None
            case Some(rs) => if rs == [] then None else ReadRe(rs, REnd)
  {
    var toks := [RBegin] + (body + [REnd]);
    StartInStep();
    assert toks[0] == RBegin && toks[1..] == body + [REnd];
    assert ReadAllRe(RE_START, toks) == ReadAllRe(ANCHORED_START, body + [REnd]);
    ReadAllReConcat(ANCHORED_START, body, [REnd]);
    match ReadAllRe(ANCHORED_START, body) {
      case None =>
      case Some(rs) => if rs != [] { ReadOne(rs, REnd); }
    }
  }

  lemma ParseOfTokens(s: string, toks: seq<RTok>)
    requires LexRe(s) == Some(toks)
    ensures ParseRe(s) ==
            match ReadAllRe(RE_START, toks)
            case None => None
            case Some(stack) => if |stack| == 1 then Some(ClosedRe(stack[0])) else None
  {
  }

  lemma EndIsPushed(rs: seq<Frame>)
    requires rs != []
    ensures ReadRe(rs, REnd).Some? && |ReadRe(rs, REnd).value| == |rs|
    ensures |rs| == 1 ==> ReadRe(rs, REnd).value[0] == Frame(rs[0].alts, Cat(rs[0].cat, Eol))
  {
  }

  /** The anchors around the body: what `Regex::new` does with the emitted text. */
  lemma ParsesBody(p: string)
    ensures ParseRe(RegexText(p)) ==
            match ReadAllRe(ANCHORED_START, AllReTokens(Lex(p)))
            case None => None
            case Some(rs) => if |rs| == 1 then Some(ClosedRe(Frame(rs[0].alts, Cat(rs[0].cat, Eol)))) else None
  {
    var body := AllReTokens(Lex(p));
    TextLexes(p);
    ParseOfTokens(RegexText(p), [RBegin] + (body + [REnd]));
    AnchorsRead(body);
    NeverEmpty(ANCHORED_START, body);
    match ReadAllRe(ANCHORED_START, body) {
      case None =>
      case Some(rs) => EndIsPushed(rs);
    }
  }

  lemma {:induction false} NeverEmpty(rs: seq<Frame>, toks: seq<RTok>)
    requires rs != []
    ensures ReadAllRe(rs, toks).Some? ==> ReadAllRe(rs, toks).value != []
    decreases |toks|
  {
    if toks != [] && ReadRe(rs, toks[0]).Some? {
      NeverEmpty(ReadRe(rs, toks[0]).value, toks[1..]);
    }
  }

  lemma Compiles(p: string)
    ensures ParseGlob(p).Some? <==> Balanced(p, 0)
    ensures ParseRe(RegexText(p)).Some? <==> Balanced(p, 0)
    ensures Balanced(p, 0) ==> Related(p, ParseGlob(p).value, ParseRe(RegexText(p)).value)
  {
    var toks := Lex(p);
    LexIsPlain(p);
    StartInStep();
    AllInStep(GLOB_START, ANCHORED_START, None, toks);
    ReadsBalanced(GLOB_START, None, p);
    ParsesBody(p);
    var first := FirstSegment(GLOB_START, None, toks);
    if Balanced(p, 0) && first.Some? {
      var rs := ReadAllRe(ANCHORED_START, AllReTokens(toks)).value;
      assert NoComma(first.value) && FirstAlternative(rs[0].alts.value, Anchored(first.value));
    }
  }

  // ---------------------------------------------------------------- the two meanings

  lemma SplitCat(l: Re, r: Re, t: string, i: nat, j: nat) returns (k: nat)
    requires i <= j <= |t| && MatchesAt(Cat(l, r), t, i, j)
    ensures i <= k <= j && MatchesAt(l, t, i, k) && MatchesAt(r, t, k, j)
  {
    k :| i <= k <= j && MatchesAt(l, t, i, k) && MatchesAt(r, t, k, j);
  }

  lemma JoinCat(l: Re, r: Re, t: string, i: nat, k: nat, j: nat)
    requires i <= k <= j <= |t| && MatchesAt(l, t, i, k) && MatchesAt(r, t, k, j)
    ensures MatchesAt(Cat(l, r), t, i, j)
  {
  }

  lemma SplitRep(e: Re, t: string, i: nat, j: nat) returns (k: nat)
    requires i < j <= |t| && MatchesAt(Rep(e), t, i, j)
    ensures i < k <= j && MatchesAt(e, t, i, k) && MatchesAt(Rep(e), t, k, j)
  {
    k :| i < k <= j && MatchesAt(e, t, i, k) && MatchesAt(Rep(e), t, k, j);
  }

  /** A repeated one-character class matches exactly the texts without the excluded character. */
  lemma {:induction false} RepMatches(one: Re, excluded: char, t: string, i: nat, j: nat)
    requires i <= j <= |t|
    requires (one == Dot && excluded == '\n') || (one == Slashless && excluded == '/')
    ensures MatchesAt(Rep(one), t, i, j) <==> excluded !in t[i..j]
    decreases j - i
  {
    if i < j {
      RepMatches(one, excluded, t, i + 1, j);
      assert t[i..j] == [t[i]] + t[i + 1..j];
      assert MatchesAt(one, t, i, i + 1) <==> t[i] != excluded;
      if excluded !in t[i..j] {
        assert MatchesAt(one, t, i, i + 1) && MatchesAt(Rep(one), t, i + 1, j);
      }
      if MatchesAt(Rep(one), t, i, j) {
        var k := SplitRep(one, t, i, j);
        assert k == i + 1;
      }
    }
  }

  lemma {:induction false} TrMatches(g: Glob, t: string, i: nat, j: nat)
    requires i <= j <= |t|
    ensures MatchesAt(Tr(g), t, i, j) <==> Matches(g, t[i..j], false)
  {
    match g {
      case GCat(l, r) =>
        var s := t[i..j];
        forall k | i <= k <= j
          ensures MatchesAt(Tr(l), t, i, k) <==> Matches(l, s[..k - i], false)
          ensures MatchesAt(Tr(r), t, k, j) <==> Matches(r, s[k - i..], false)
        {
          assert s[..k - i] == t[i..k] && s[k - i..] == t[k..j];
          TrMatches(l, t, i, k);
          TrMatches(r, t, k, j);
        }
        if MatchesAt(Tr(g), t, i, j) {
          var k := SplitCat(Tr(l), Tr(r), t, i, j);
          assert Matches(l, s[..k - i], false) && Matches(r, s[k - i..], false);
        }
        if Matches(g, s, false) {
          var m :| 0 <= m <= |s| && Matches(l, s[..m], false) && Matches(r, s[m..], false);
          assert (i + m) - i == m;
          JoinCat(Tr(l), Tr(r), t, i, i + m, j);
        }
      case GAlt(l, r) =>
        TrMatches(l, t, i, j);
        TrMatches(r, t, i, j);
      case GDeep => RepMatches(Dot, '\n', t, i, j);
      case GStar => RepMatches(Slashless, '/', t, i, j);
      case GEps =>
      case GLit(_) =>
      case GQuest =>
    }
  }

  lemma {:induction false} AnchoredMatches(g: Glob, t: string, i: nat, j: nat)
    requires i <= j <= |t|
    ensures MatchesAt(Anchored(g), t, i, j) <==> i == 0 && MatchesAt(Tr(g), t, 0, j)
  {
    if g.GCat? {
      forall k: nat | i <= k <= j
        ensures MatchesAt(Anchored(g.l), t, i, k) <==> i == 0 && MatchesAt(Tr(g.l), t, 0, k)
      {
        AnchoredMatches(g.l, t, i, k);
      }
      if i == 0 && MatchesAt(Tr(g), t, 0, j) {
        var k := SplitCat(Tr(g.l), Tr(g.r), t, 0, j);
        JoinCat(Anchored(g.l), Tr(g.r), t, 0, k, j);
      }
      if MatchesAt(Anchored(g), t, i, j) {
        var k := SplitCat(Anchored(g.l), Tr(g.r), t, i, j);
        JoinCat(Tr(g.l), Tr(g.r), t, 0, k, j);
      }
    } else {
      StartOnly(t, i, j);
      if !g.GEps? {
        if i == 0 && MatchesAt(Tr(g), t, 0, j) {
          StartOnly(t, 0, 0);
          JoinCat(Cat(Eps, Bol), Tr(g), t, 0, 0, j);
        }
        if MatchesAt(Anchored(g), t, i, j) {
          var k := SplitCat(Cat(Eps, Bol), Tr(g), t, i, j);
          StartOnly(t, i, k);
        }
      }
    }
  }

  lemma StartOnly(t: string, i: nat, j: nat)
    requires i <= j <= |t|
    ensures MatchesAt(Cat(Eps, Bol), t, i, j) <==> i == j == 0
  {
    if i == j == 0 {
      JoinCat(Eps, Bol, t, 0, 0, 0);
    }
    if MatchesAt(Cat(Eps, Bol), t, i, j) {
      var k := SplitCat(Eps, Bol, t, i, j);
    }
  }

  /** Between the anchors, the whole text has to match. */
  lemma FullMatch(g: Glob, t: string)
    ensures IsMatch(Cat(Anchored(g), Eol), t) <==> Matches(g, t, false)
  {
    assert t[0..|t|] == t;
    TrMatches(g, t, 0, |t|);
    if Matches(g, t, false) {
      AnchoredMatches(g, t, 0, |t|);
      JoinCat(Anchored(g), Eol, t, 0, |t|, |t|);
    }
    if IsMatch(Cat(Anchored(g), Eol), t) {
      var i, j :| 0 <= i <= j <= |t| && MatchesAt(Cat(Anchored(g), Eol), t, i, j);
      var k := SplitCat(Anchored(g), Eol, t, i, j);
      AnchoredMatches(g, t, i, k);
    }
  }

  lemma {:induction false} OneLine(g: Glob, s: string)
    requires '\n' !in s
    ensures Matches(g, s, false) <==> Matches(g, s, true)
  {
    match g {
      case GCat(l, r) =>
        forall k | 0 <= k <= |s|
          ensures Matches(l, s[..k], false) <==> Matches(l, s[..k], true)
          ensures Matches(r, s[k..], false) <==> Matches(r, s[k..], true)
        {
          OneLine(l, s[..k]);
          OneLine(r, s[k..]);
        }
      case GAlt(l, r) =>
        OneLine(l, s);
        OneLine(r, s);
      case _ =>
    }
  }

  // ---------------------------------------------------------------- the theorems

  /**
   A pattern compiles exactly when its braces match up. If, besides, every comma is inside braces,
   the regular expression matches exactly the paths the glob matches: on every path when `**` stops
   at line ends, and on one-line paths under the documented meaning.
   */
  lemma MeaningPreserved(p: string, path: string)
    requires Balanced(p, 0) && !TopComma(p, 0)
    ensures ParseRe(RegexText(p)).Some? && ParseGlob(p).Some?
    ensures var e, g := ParseRe(RegexText(p)).value, ParseGlob(p).value;
            && (IsMatch(e, path) <==> Matches(g, path, false))
            && ('\n' !in path ==> (IsMatch(e, path) <==> Matches(g, path, true)))
  {
    Compiles(p);
    FullMatch(ParseGlob(p).value, path);
    if '\n' !in path {
      OneLine(ParseGlob(p).value, path);
    }
  }

  /** Some text matches `a`, and it has no comma. */
  lemma {:induction false} CommaFreeMember(a: Glob) returns (s: string)
    requires NoComma(a)
    ensures Matches(a, s, false) && ',' !in s
  {
    match a {
      case GEps => s := "";
      case GCat(l, r) =>
        var x := CommaFreeMember(l);
        var y := CommaFreeMember(r);
        s := x + y;
        assert s[..|x|] == x && s[|x|..] == y;
      case GAlt(l, _) => s := CommaFreeMember(l);
      case GLit(c) => s := [c];
      case GDeep => s := "";
      case GStar => s := "";
      case GQuest => s := "x";
    }
  }

  lemma {:induction false} CommaNeeded(g: Glob, s: string, dotAll: bool)
    requires NeedsComma(g) && Matches(g, s, dotAll)
    ensures ',' in s
  {
    var k :| 0 <= k <= |s| && Matches(g.l, s[..k], dotAll) && Matches(g.r, s[k..], dotAll);
    if g.r == GLit(',') {
      assert s[k..][0] == ',';
    } else {
      CommaNeeded(g.l, s[..k], dotAll);
    }
  }

  lemma {:induction false} FirstAlternativeMatches(e: Re, b: Re, t: string, i: nat, j: nat)
    requires i <= j <= |t| && FirstAlternative(e, b) && MatchesAt(b, t, i, j)
    ensures MatchesAt(e, t, i, j)
  {
    if e != b {
      FirstAlternativeMatches(e.l, b, t, i, j);
    }
  }

  /** A comma outside all braces splits the anchors: some path matches that the glob does not. */
  lemma TopCommaBreaks(p: string) returns (path: string)
    requires Balanced(p, 0) && TopComma(p, 0)
    ensures ParseRe(RegexText(p)).Some? && ParseGlob(p).Some?
    ensures IsMatch(ParseRe(RegexText(p)).value, path)
    ensures !Matches(ParseGlob(p).value, path, false) && !Matches(ParseGlob(p).value, path, true)
  {
    Compiles(p);
    var g, e := ParseGlob(p).value, ParseRe(RegexText(p)).value;
    var a :| NoComma(a) && FirstAlternative(e.l, Anchored(a));
    path := CommaFreeMember(a);
    assert path[0..|path|] == path;
    TrMatches(a, path, 0, |path|);
    AnchoredMatches(a, path, 0, |path|);
    FirstAlternativeMatches(e.l, Anchored(a), path, 0, |path|);
    assert MatchesAt(e, path, 0, |path|);
    if Matches(g, path, false) {
      CommaNeeded(g, path, false);
    } else if Matches(g, path, true) {
      CommaNeeded(g, path, true);
    }
  }

  /** For compiling patterns, "every comma is inside braces" is exactly when meaning is preserved. */
  lemma MeaningPreservedExactly(p: string)
    requires Balanced(p, 0)
    ensures ParseRe(RegexText(p)).Some? && ParseGlob(p).Some?
    ensures (forall path :: IsMatch(ParseRe(RegexText(p)).value, path) <==> Matches(ParseGlob(p).value, path, false))
            <==> !TopComma(p, 0)
  {
    Compiles(p);
    if TopComma(p, 0) {
      var path := TopCommaBreaks(p);
    } else {
      forall path ensures IsMatch(ParseRe(RegexText(p)).value, path) <==> Matches(ParseGlob(p).value, path, false) {
        MeaningPreserved(p, path);
      }
    }
  }
}
