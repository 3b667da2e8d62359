/**
 `glob_to_regex` of mcp.rs as a compiler. The pattern and the emitted regular expression each have a
 lexer, a parser and a meaning; the theorems say when and how the two meanings agree.
 */
module GlobRegex {
  import opened Wrappers

  // ---------------------------------------------------------------- globs

  datatype Tok = Deep | Star | Quest | Open | Close | Comma | Lit(c: char)

  function Single(c: char): Tok {
    if c == '*' then Star
    else if c == '?' then Quest
    else if c == '{' then Open
    else if c == '}' then Close
    else if c == ',' then Comma
    else Lit(c)
  }

  /** `**` with an optional slash is one token; any other character is one token. */
  function Lex(p: string): seq<Tok> {
    if p == "" then []
    else if IsDeep(p) then [Deep] + Lex(AfterDeep(p))
    else [Single(p[0])] + Lex(p[1..])
  }

  predicate IsDeep(p: string) {
    |p| > 1 && p[0] == '*' && p[1] == '*'
  }

  function AfterDeep(p: string): string
    requires IsDeep(p)
  {
    if |p| > 2 && p[2] == '/' then p[3..] else p[2..]
  }

  datatype Glob = GEps | GCat(l: Glob, r: Glob) | GAlt(l: Glob, r: Glob) | GLit(c: char) | GDeep | GStar | GQuest

  /** An open brace: the finished alternatives and the current one. */
  datatype GFrame = GFrame(alts: Option<Glob>, cat: Glob)

  function Closed(f: GFrame): Glob {
    if f.alts.None? then f.cat else GAlt(f.alts.value, f.cat)
  }

  function Push(stack: seq<GFrame>, g: Glob): seq<GFrame>
    requires stack != []
  {
    var n := |stack| - 1;
    stack[..n] + [GFrame(stack[n].alts, GCat(stack[n].cat, g))]
  }

  /** Reading one token. A comma separates alternatives inside braces and is itself outside. */
  function Read(stack: seq<GFrame>, t: Tok): (r: Option<seq<GFrame>>)
    requires stack != []
    ensures r.Some? ==> r.value != []
  {
    var n := |stack| - 1;
    match t
    case Deep => Some(Push(stack, GDeep))
    case Star => Some(Push(stack, GStar))
    case Quest => Some(Push(stack, GQuest))
    case Lit(c) => Some(Push(stack, GLit(c)))
    case Open => Some(stack + [GFrame(None, GEps)])
    case Close => if n == 0 then None else Some(Push(stack[..n], Closed(stack[n])))
    case Comma =>
      if n == 0 then Some(Push(stack, GLit(','))) else Some(stack[..n] + [GFrame(Some(Closed(stack[n])), GEps)])
  }

  function ReadAll(stack: seq<GFrame>, toks: seq<Tok>): Option<seq<GFrame>>
    requires stack != []
    decreases |toks|
  {
    if toks == [] then Some(stack)
    else match Read(stack, toks[0])
      case None => None
      case Some(next) => ReadAll(next, toks[1..])
  }

  const GLOB_START := [GFrame(None, GEps)]

  function ParseGlob(p: string): Option<Glob> {
    match ReadAll(GLOB_START, Lex(p))
    case None => None
    case Some(stack) => if |stack| == 1 then Some(Closed(stack[0])) else None
  }

  /**
   The documented meaning: `**` matches any text (any text on one line unless `dotAll`), `*` any
   text without a slash, `?` one character other than a slash.
   */
  ghost predicate Matches(g: Glob, s: string, dotAll: bool) {
    match g
    case GEps => s == ""
    case GCat(l, r) => exists k :: 0 <= k <= |s| && Matches(l, s[..k], dotAll) && Matches(r, s[k..], dotAll)
    case GAlt(l, r) => Matches(l, s, dotAll) || Matches(r, s, dotAll)
    case GLit(c) => s == [c]
    case GDeep => dotAll || '\n' !in s
    case GStar => '/' !in s
    case GQuest => |s| == 1 && s[0] != '/'
  }

  // ---------------------------------------------------------------- regular expressions

  datatype RTok = RChar(c: char) | RAny | RNotSlash | RStar | ROpen | RClose | RBar | RBegin | REnd

  const ESCAPABLE := "\\.+*?()|[]{}^$"

  /** The regex syntax that the compiler uses; anything else is no token here. */
  function LexRe(s: string): Option<seq<RTok>> {
    if s == "" then Some([])
    else if s[0] == '\\' then
      if |s| > 1 && s[1] in ESCAPABLE then Cons(RChar(s[1]), LexRe(s[2..])) else None
    else if s[0] == '[' then
      if |s| > 3 && s[1] == '^' && s[2] == '/' && s[3] == ']' then Cons(RNotSlash, LexRe(s[4..])) else None
    else if s[0] == '(' then
      if |s| > 1 && s[1] == '?' then None else Cons(ROpen, LexRe(s[1..]))
    else if s[0] == ')' then Cons(RClose, LexRe(s[1..]))
    else if s[0] == '|' then Cons(RBar, LexRe(s[1..]))
    else if s[0] == '.' then Cons(RAny, LexRe(s[1..]))
    else if s[0] == '*' then Cons(RStar, LexRe(s[1..]))
    else if s[0] == '^' then Cons(RBegin, LexRe(s[1..]))
    else if s[0] == '$' then Cons(REnd, LexRe(s[1..]))
    else if s[0] in ESCAPABLE then None
    else Cons(RChar(s[0]), LexRe(s[1..]))
  }

  function Cons(t: RTok, rest: Option<seq<RTok>>): Option<seq<RTok>> {
    match rest case None => None case Some(toks) => Some([t] + toks)
  }

  datatype Re = Eps | Cat(l: Re, r: Re) | Alt(l: Re, r: Re) | Rep(e: Re) | Dot | Slashless | Char(c: char) | Bol | Eol

  datatype Frame = Frame(alts: Option<Re>, cat: Re)

  function ClosedRe(f: Frame): Re {
    if f.alts.None? then f.cat else Alt(f.alts.value, f.cat)
  }

  function PushRe(stack: seq<Frame>, e: Re): seq<Frame>
    requires stack != []
  {
    var n := |stack| - 1;
    stack[..n] + [Frame(stack[n].alts, Cat(stack[n].cat, e))]
  }

  function ReadRe(stack: seq<Frame>, t: RTok): (r: Option<seq<Frame>>)
    requires stack != []
    ensures r.Some? ==> r.value != []
  {
    var n := |stack| - 1;
    match t
    case RChar(c) => Some(PushRe(stack, Char(c)))
    case RAny => Some(PushRe(stack, Dot))
    case RNotSlash => Some(PushRe(stack, Slashless))
    case RBegin => Some(PushRe(stack, Bol))
    case REnd => Some(PushRe(stack, Eol))
    case RStar =>
      var cat := stack[n].cat;
      if cat.Cat? then Some(stack[..n] + [Frame(stack[n].alts, Cat(cat.l, Rep(cat.r)))]) else None
    case ROpen => Some(stack + [Frame(None, Eps)])
    case RClose => if n == 0 then None else Some(PushRe(stack[..n], ClosedRe(stack[n])))
    case RBar => Some(stack[..n] + [Frame(Some(ClosedRe(stack[n])), Eps)])
  }

  function ReadAllRe(stack: seq<Frame>, toks: seq<RTok>): Option<seq<Frame>>
    requires stack != []
    decreases |toks|
  {
    if toks == [] then Some(stack)
    else match ReadRe(stack, toks[0])
      case None => None
      case Some(next) => ReadAllRe(next, toks[1..])
  }

  const RE_START := [Frame(None, Eps)]

  /** `Regex::new`. */
  function ParseRe(s: string): Option<Re> {
    match LexRe(s)
    case None => None
    case Some(toks) =>
      match ReadAllRe(RE_START, toks)
      case None => None
      case Some(stack) => if |stack| == 1 then Some(ClosedRe(stack[0])) else None
  }

  /** `e` matches `t[i..j]`; the anchors look at the whole text, and the dot stops at a line end. */
  ghost predicate MatchesAt(e: Re, t: string, i: nat, j: nat)
    requires i <= j <= |t|
    decreases e, j - i
  {
    match e
    case Eps => i == j
    case Cat(l, r) => exists k :: i <= k <= j && MatchesAt(l, t, i, k) && MatchesAt(r, t, k, j)
    case Alt(l, r) => MatchesAt(l, t, i, j) || MatchesAt(r, t, i, j)
    case Rep(x) => i == j || exists k :: i < k <= j && MatchesAt(x, t, i, k) && MatchesAt(e, t, k, j)
    case Dot => j == i + 1 && t[i] != '\n'
    case Slashless => j == i + 1 && t[i] != '/'
    case Char(c) => j == i + 1 && t[i] == c
    case Bol => i == j == 0
    case Eol => i == j == |t|
  }

  /** `Regex::is_match`: some part of the text matches. */
  ghost predicate IsMatch(e: Re, t: string) {
    exists i, j :: 0 <= i <= j <= |t| && MatchesAt(e, t, i, j)
  }

  // ---------------------------------------------------------------- the compiler

  const META := "^$+|[]\\()"

  function EmitTok(t: Tok): string {
    match t
    case Deep => ".*"
    case Star => "[^/]*"
    case Quest => "[^/]"
    case Open => "("
    case Close => ")"
    case Comma => "|"
    case Lit(c) => if c == '.' then "\\." else if c in META then ['\\', c] else [c]
  }

  function Emit(toks: seq<Tok>): string {
    if toks == [] then "" else EmitTok(toks[0]) + Emit(toks[1..])
  }

  /** The loop of `glob_to_regex`; `Regex::new` is applied to its result. */
  method GlobToRegex(pattern: string) returns (out: string)
    ensures out == "^" + (Emit(Lex(pattern)) + "$")
  {
    out := "^";
    var i := 0;
    while i < |pattern|
      invariant 0 <= i <= |pattern|
      invariant out + Emit(Lex(pattern[i..])) == "^" + Emit(Lex(pattern))
    {
      ghost var rest := pattern[i..];
      ghost var before := out;
      assert rest[1..] == pattern[i + 1..];
      if pattern[i] == '*' && i + 1 < |pattern| && pattern[i + 1] == '*' {
        out := out + ".*";
        i := i + 2;
        assert rest[2..] == pattern[i..];
        if i < |pattern| && pattern[i] == '/' {
          i := i + 1;
          assert rest[3..] == pattern[i..];
        }
        assert IsDeep(rest) && AfterDeep(rest) == pattern[i..];
        EmitFirst(before, Deep, Lex(pattern[i..]));
      } else {
        assert !IsDeep(rest);
        var c := pattern[i];
        if c == '*' {
          out := out + "[^/]*";
        } else if c == '?' {
          out := out + "[^/]";
        } else if c == '.' {
          out := out + "\\.";
        } else if c == '{' {
          out := out + "(";
        } else if c == '}' {
          out := out + ")";
        } else if c == ',' {
          out := out + "|";
        } else if c in META {
          out := out + "\\";
          out := out + [c];
        } else {
          out := out + [c];
        }
        i := i + 1;
        assert out == before + EmitTok(Single(c));
        EmitFirst(before, Single(c), Lex(pattern[i..]));
      }
    }
    assert pattern[i..] == "";
    assert out + "" == out;
    out := out + "$";
  }

  lemma EmitFirst(before: string, t: Tok, rest: seq<Tok>)
    ensures before + Emit([t] + rest) == (before + EmitTok(t)) + Emit(rest)
  {
    assert ([t] + rest)[1..] == rest;
  }
}
