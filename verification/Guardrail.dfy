/** The tool-call parser of guardrail.rs. Paths are texts; a path is equal only to itself. */
module Guardrail {
  import opened Wrappers
  import opened Text

  datatype ToolCall =
    | FsListDir(path: string)
    | FsReadFile(path: string)
    | ReadDocument(path: string)
    | MoveFile(source: string, dest: string)
    | TrashFile(path: string)
    | ShellRun(command: string, args: seq<string>)

  datatype ActionSpec = NoTool | Tool(call: ToolCall)

  datatype AgenticError =
    | HallucinationDetected(message: string)
    | EmptyResponse
    | ValidationFailed(message: string)
    | DbError
    | StepLimitExceeded(limit: nat)

  // ---------------------------------------------------------------- splitting

  /** Index of the first white space. */
  function FindSpace(s: string): (r: nat)
    ensures r <= |s|
    ensures forall i :: 0 <= i < r ==> !IsSpace(s[i])
    ensures r < |s| ==> IsSpace(s[r])
  {
    if s == "" || IsSpace(s[0]) then 0 else 1 + FindSpace(s[1..])
  }

  /** `splitn(2, char::is_whitespace)`: the first word and the rest after one white space. */
  function FirstWord(s: string): string {
    s[..FindSpace(s)]
  }

  function AfterWord(s: string): string {
    if FindSpace(s) < |s| then s[FindSpace(s) + 1..] else ""
  }

  /** `split_whitespace`. */
  function Words(s: string): seq<string>
    decreases |s|
  {
    if s == "" then []
    else if IsSpace(s[0]) then Words(s[1..])
    else [FirstWord(s)] + Words(AfterWord(s))
  }

  // ---------------------------------------------------------------- validate_action_selection

  const MOVE_FORMAT := "move_file requires 'source | dest' format, e.g.: move_file a.txt | b.txt"

  function OnePath(rest: string, missing: string, call: ToolCall): (r: Result<ActionSpec, AgenticError>)
    ensures r.Err? ==> r.error.HallucinationDetected?
  {
    if rest == "" then Err(HallucinationDetected(missing)) else Ok(Tool(call))
  }

  function ParseMove(rest: string): (r: Result<ActionSpec, AgenticError>)
    ensures r.Err? ==> r.error.HallucinationDetected?
  {
    var pipe := Find(rest, '|');
    var src := Trim(if pipe.Some? then rest[..pipe.value] else rest);
    var dst := Trim(if pipe.Some? then rest[pipe.value + 1..] else "");
    if src == "" || dst == "" then Err(HallucinationDetected(MOVE_FORMAT)) else Ok(Tool(MoveFile(src, dst)))
  }

  function ParseShell(rest: string): (r: Result<ActionSpec, AgenticError>)
    ensures r.Err? ==> r.error.HallucinationDetected?
  {
    if rest == "" then Err(HallucinationDetected("shell_run requires at least a command name"))
    else Ok(Tool(ShellRun(Trim(FirstWord(rest)), Words(Trim(AfterWord(rest))))))
  }

  datatype ToolKind = ListDirTool | ReadFileTool | ReadDocumentTool | MoveTool | TrashTool | ShellTool

  function Name(kind: ToolKind): string {
    match kind
    case ListDirTool => "fs_list_dir"
    case ReadFileTool => "fs_read_file"
    case ReadDocumentTool => "read_document"
    case MoveTool => "move_file"
    case TrashTool => "trash_file"
    case ShellTool => "shell_run"
  }

  function Named(name: string): Option<ToolKind> {
    if name == "fs_list_dir" then Some(ListDirTool)
    else if name == "fs_read_file" then Some(ReadFileTool)
    else if name == "read_document" then Some(ReadDocumentTool)
    else if name == "move_file" then Some(MoveTool)
    else if name == "trash_file" then Some(TrashTool)
    else if name == "shell_run" then Some(ShellTool)
    else None
  }

  function ParseArguments(kind: ToolKind, rest: string): (r: Result<ActionSpec, AgenticError>)
    ensures r.Err? ==> r.error.HallucinationDetected?
  {
    match kind
    case ListDirTool => OnePath(rest, "fs_list_dir requires a path argument", FsListDir(rest))
    case ReadFileTool => OnePath(rest, "fs_read_file requires a path argument", FsReadFile(rest))
    case ReadDocumentTool => OnePath(rest, "read_document requires a path argument", ReadDocument(rest))
    case MoveTool => ParseMove(rest)
    case TrashTool => OnePath(rest, "trash_file requires a path argument", TrashFile(rest))
    case ShellTool => ParseShell(rest)
  }

  function UnknownTool(name: string): AgenticError {
    HallucinationDetected("unknown tool '" + name + "'; expected: fs_list_dir, fs_read_file, read_document, move_file, trash_file, shell_run, or [NO_TOOL]")
  }

  function ParseCall(name: string, rest: string): (r: Result<ActionSpec, AgenticError>)
    ensures r.Err? ==> r.error.HallucinationDetected?
  {
    match Named(name)
    case None => Err(UnknownTool(name))
    case Some(kind) => ParseArguments(kind, rest)
  }

  function ValidateActionSelection(output: string): (r: Result<ActionSpec, AgenticError>)
    ensures r.Err? ==> r.error.HallucinationDetected? || r.error.EmptyResponse?
  {
    var trimmed := Trim(output);
    if trimmed == "" then Err(EmptyResponse)
    else if trimmed == "[NO_TOOL]" then Ok(NoTool)
    else ParseCall(Trim(FirstWord(trimmed)), Trim(AfterWord(trimmed)))
  }

  function ValidateFinalAnswer(output: string): (r: Result<string, AgenticError>)
    ensures r.Err? ==> r.error.ValidationFailed? || r.error.EmptyResponse?
  {
    var trimmed := Trim(output);
    if trimmed == "" then Err(EmptyResponse)
    else if StartsWith(trimmed, "[ERROR:") then Err(ValidationFailed("LLM returned an error token: " + trimmed))
    else Ok(trimmed)
  }

  // ---------------------------------------------------------------- the documented format

  function Kind(c: ToolCall): ToolKind {
    match c
    case FsListDir(_) => ListDirTool
    case FsReadFile(_) => ReadFileTool
    case ReadDocument(_) => ReadDocumentTool
    case MoveFile(_, _) => MoveTool
    case TrashFile(_) => TrashTool
    case ShellRun(_, _) => ShellTool
  }

  function Arguments(c: ToolCall): string {
    match c
    case FsListDir(p) => p
    case FsReadFile(p) => p
    case ReadDocument(p) => p
    case MoveFile(s, d) => s + " | " + d
    case TrashFile(p) => p
    case ShellRun(cmd, args) => Join([cmd] + args, " ")
  }

  function Print(c: ToolCall): string {
    Name(Kind(c)) + " " + Arguments(c)
  }

  predicate IsWord(s: string) {
    s != "" && forall i :: 0 <= i < |s| ==> !IsSpace(s[i])
  }

  predicate IsText(s: string) {
    s != "" && Trimmed(s)
  }

  /** The calls that the format can express. */
  predicate Expressible(c: ToolCall) {
    match c
    case FsListDir(p) => IsText(p)
    case FsReadFile(p) => IsText(p)
    case ReadDocument(p) => IsText(p)
    case MoveFile(s, d) => IsText(s) && '|' !in s && IsText(d)
    case TrashFile(p) => IsText(p)
    case ShellRun(cmd, args) => IsWord(cmd) && forall a :: a in args ==> IsWord(a)
  }

  // ---------------------------------------------------------------- what is parsed is expressible

  lemma WordIsTrimmed(w: string)
    requires forall i :: 0 <= i < |w| ==> !IsSpace(w[i])
    ensures Trim(w) == w
  {
    TrimDrops("", w, "");
    assert "" + w + "" == w;
  }

  lemma TrimIsIdentity(s: string)
    requires Trimmed(s)
    ensures Trim(s) == s
  {
    TrimDrops("", s, "");
    assert "" + s + "" == s;
  }

  lemma {:induction false} WordsAreWords(s: string)
    ensures forall w :: w in Words(s) ==> IsWord(w)
    decreases |s|
  {
    if s != "" {
      if IsSpace(s[0]) {
        WordsAreWords(s[1..]);
      } else {
        WordsAreWords(AfterWord(s));
        assert IsWord(FirstWord(s));
      }
    }
  }

  lemma ParsedMoveIsExpressible(rest: string)
    ensures var r := ParseMove(rest); r.Ok? ==> r.value.Tool? && Expressible(r.value.call)
  {
    var pipe := Find(rest, '|');
    if pipe.Some? {
      TrimIsTrimmed(rest[..pipe.value]);
      TrimIsTrimmed(rest[pipe.value + 1..]);
      TrimKeepsOut(rest[..pipe.value], '|');
    }
  }

  lemma ParsedShellIsExpressible(rest: string)
    requires Trimmed(rest)
    ensures var r := ParseShell(rest); r.Ok? ==> r.value.Tool? && Expressible(r.value.call)
  {
    if rest != "" {
      WordIsTrimmed(FirstWord(rest));
      WordsAreWords(Trim(AfterWord(rest)));
    }
  }

  lemma ParsedArgumentsAreExpressible(kind: ToolKind, rest: string)
    requires Trimmed(rest)
    ensures var r := ParseArguments(kind, rest); r.Ok? ==> r.value.Tool? && Expressible(r.value.call)
  {
    match kind {
      case MoveTool => ParsedMoveIsExpressible(rest);
      case ShellTool => ParsedShellIsExpressible(rest);
      case _ =>
    }
  }

  lemma ParsedCallIsExpressible(name: string, rest: string)
    requires Trimmed(rest)
    ensures var r := ParseCall(name, rest); r.Ok? ==> r.value.Tool? && Expressible(r.value.call)
  {
    match Named(name) {
      case None => assert ParseCall(name, rest).Err?;
      case Some(kind) =>
        assert ParseCall(name, rest) == ParseArguments(kind, rest);
        ParsedArgumentsAreExpressible(kind, rest);
    }
  }

  /** What validation does with a reply that is neither empty nor the no-tool token. */
  lemma ValidationCases(output: string)
    ensures var t := Trim(output);
            ValidateActionSelection(output) ==
            if t == "" then Err(EmptyResponse)
            else if t == "[NO_TOOL]" then Ok(NoTool)
            else ParseCall(Trim(FirstWord(t)), Trim(AfterWord(t)))
  {
  }

  /** Every call that comes out of the parser is one that the documented format can express. */
  lemma ParsedIsExpressible(output: string)
    ensures var r := ValidateActionSelection(output); r.Ok? && r.value.Tool? ==> Expressible(r.value.call)
  {
    var trimmed := Trim(output);
    TrimIsTrimmed(AfterWord(trimmed));
    var name, rest := Trim(FirstWord(trimmed)), Trim(AfterWord(trimmed));
    var r := ParseCall(name, rest);
    assert r.Ok? ==> r.value.Tool? && Expressible(r.value.call) by {
      ParsedCallIsExpressible(name, rest);
    }
    ValidationCases(output);
  }

  // ---------------------------------------------------------------- what is expressible is parsed

  lemma {:induction false} FindSpaceAfter(w: string, rest: string)
    requires forall i :: 0 <= i < |w| ==> !IsSpace(w[i])
    ensures FindSpace(w + " " + rest) == |w|
    ensures FirstWord(w + " " + rest) == w && AfterWord(w + " " + rest) == rest
    ensures FindSpace(w) == |w|
  {
    if w != "" {
      FindSpaceAfter(w[1..], rest);
      assert (w + " " + rest)[1..] == w[1..] + " " + rest;
    }
  }

  /** A tool name, one space, trimmed arguments. */
  lemma PrintedParses(name: string, arguments: string)
    requires IsWord(name) && name[0] != '[' && IsText(arguments)
    ensures ValidateActionSelection(name + " " + arguments) == ParseCall(name, arguments)
  {
    var s := name + " " + arguments;
    assert Trimmed(s);
    TrimIsIdentity(s);
    FindSpaceAfter(name, arguments);
    WordIsTrimmed(name);
    TrimIsIdentity(arguments);
    assert s[0] == name[0] != "[NO_TOOL]"[0];
  }

  lemma PipeSplits(left: string, right: string)
    requires '|' !in left
    ensures var rest := left + ['|'] + right;
            ParseMove(rest) ==
            if Trim(left) == "" || Trim(right) == "" then Err(HallucinationDetected(MOVE_FORMAT))
            else Ok(Tool(MoveFile(Trim(left), Trim(right))))
  {
    var rest := left + ['|'] + right;
    FindSplits(left, '|', right);
    assert rest[..|left|] == left && rest[|left| + 1..] == right;
  }

  lemma MoveShape(src: string, dst: string)
    ensures src + " | " + dst == (src + " ") + ['|'] + (" " + dst)
  {
    assert " | " == " " + ("|" + " ");
  }

  lemma MoveIsText(src: string, dst: string)
    requires IsText(src) && IsText(dst)
    ensures IsText(src + " | " + dst)
  {
    var s := src + " | " + dst;
    assert s[0] == src[0] && s[|s| - 1] == dst[|dst| - 1];
  }

  lemma MoveParses(src: string, dst: string)
    requires IsText(src) && '|' !in src && IsText(dst)
    ensures ParseMove(src + " | " + dst) == Ok(Tool(MoveFile(src, dst)))
  {
    MoveShape(src, dst);
    TrimPadded(" ", src);
    TrimPadded(" ", dst);
    PipeSplits(src + " ", " " + dst);
  }

  lemma {:induction false} WordsOfJoined(words: seq<string>)
    requires forall w :: w in words ==> IsWord(w)
    ensures Words(Join(words, " ")) == words
    ensures Trimmed(Join(words, " ")) && (words != [] ==> Join(words, " ") != "")
  {
    if words != [] {
      var w, rest := words[0], Join(words[1..], " ");
      assert IsWord(w);
      FindSpaceAfter(w, rest);
      WordsOfJoined(words[1..]);
      assert [w] + words[1..] == words;
      if |words| == 1 {
        assert FirstWord(w) == w && AfterWord(w) == "";
        assert Words(w) == [w] + Words("");
      } else {
        var s := w + " " + rest;
        assert Join(words, " ") == s && s[0] == w[0] && s[|s| - 1] == rest[|rest| - 1];
        assert Words(s) == [w] + Words(rest);
      }
    }
  }

  lemma ShellIsText(cmd: string, args: seq<string>)
    requires IsWord(cmd) && forall a :: a in args ==> IsWord(a)
    ensures IsText(Join([cmd] + args, " "))
  {
    WordsOfJoined([cmd] + args);
  }

  lemma ShellParses(cmd: string, args: seq<string>)
    requires IsWord(cmd) && forall a :: a in args ==> IsWord(a)
    ensures ParseShell(Join([cmd] + args, " ")) == Ok(Tool(ShellRun(cmd, args)))
  {
    var rest := Join(args, " ");
    WordsOfJoined(args);
    assert ([cmd] + args)[1..] == args;
    WordIsTrimmed(cmd);
    TrimIsIdentity(rest);
    FindSpaceAfter(cmd, rest);
    if args == [] {
      assert Join([cmd] + args, " ") == cmd;
      assert AfterWord(cmd) == "" && FirstWord(cmd) == cmd;
    } else {
      assert Join([cmd] + args, " ") == cmd + " " + rest;
    }
  }

  lemma PathParses(c: ToolCall)
    requires Expressible(c) && !c.MoveFile? && !c.ShellRun?
    ensures ParseArguments(Kind(c), Arguments(c)) == Ok(Tool(c)) && IsText(Arguments(c))
  {
  }

  lemma MoveArgumentsParse(s: string, d: string)
    requires Expressible(MoveFile(s, d))
    ensures var rest := Arguments(MoveFile(s, d));
            ParseArguments(MoveTool, rest) == Ok(Tool(MoveFile(s, d))) && IsText(rest)
  {
    MoveParses(s, d);
    MoveIsText(s, d);
    assert Arguments(MoveFile(s, d)) == s + " | " + d;
  }

  lemma ShellLine(rest: string)
    ensures ParseArguments(ShellTool, rest) == ParseShell(rest)
  {
  }

  lemma ShellArgumentsParse(cmd: string, args: seq<string>)
    requires IsWord(cmd) && forall a :: a in args ==> IsWord(a)
    ensures ParseArguments(ShellTool, Join([cmd] + args, " ")) == Ok(Tool(ShellRun(cmd, args)))
  {
    var rest := Join([cmd] + args, " ");
    ShellLine(rest);
    assert ParseShell(rest) == Ok(Tool(ShellRun(cmd, args))) by {
      ShellParses(cmd, args);
    }
  }

  lemma ArgumentsParse(c: ToolCall)
    requires Expressible(c)
    ensures ParseArguments(Kind(c), Arguments(c)) == Ok(Tool(c)) && IsText(Arguments(c))
  {
    if c.MoveFile? {
      MoveArgumentsParse(c.source, c.dest);
    } else if c.ShellRun? {
      ShellArgumentsParse(c.command, c.args);
      ShellIsText(c.command, c.args);
    } else {
      PathParses(c);
    }
  }

  lemma NamesAreWords(kind: ToolKind)
    ensures IsWord(Name(kind)) && Name(kind)[0] != '['
    ensures Named(Name(kind)) == Some(kind)
  {
  }

  /**
   The parser inverts the documented format on exactly the calls that the format can express:
   trimmed nonempty paths, a source without `|` (the destination may contain more), and a command
   and arguments without white space.
   */
  lemma ParsesWhatItPrints(c: ToolCall)
    ensures ValidateActionSelection(Print(c)) == Ok(Tool(c)) <==> Expressible(c)
  {
    if Expressible(c) {
      NamesAreWords(Kind(c));
      ArgumentsParse(c);
      PrintedParses(Name(Kind(c)), Arguments(c));
    } else if ValidateActionSelection(Print(c)) == Ok(Tool(c)) {
      ParsedIsExpressible(Print(c));
    }
  }

  /** Parsing normalises: printing what was parsed, and parsing again, gives the same call. */
  lemma ParsingNormalises(output: string)
    ensures var r := ValidateActionSelection(output);
            r.Ok? && r.value.Tool? ==> ValidateActionSelection(Print(r.value.call)) == r
  {
    var r := ValidateActionSelection(output);
    if r.Ok? && r.value.Tool? {
      ParsedIsExpressible(output);
      ParsesWhatItPrints(r.value.call);
    }
  }

  /** A reply is empty exactly when it is blank, and anything else that is no call is a hallucination. */
  lemma RepliesAreClassified(output: string)
    ensures var r := ValidateActionSelection(output);
            && (r == Err(EmptyResponse) <==> AllSpace(output))
            && (r == Ok(NoTool) <==> Trim(output) == "[NO_TOOL]")
            && (r.Err? && !AllSpace(output) ==> r.error.HallucinationDetected?)
            && (r.Ok? && r.value.Tool? ==> Named(Trim(FirstWord(Trim(output)))) == Some(Kind(r.value.call)))
  {
    BlankIsSpace(output);
    ValidationCases(output);
    var t := Trim(output);
    match Named(Trim(FirstWord(t))) {
      case None =>
      case Some(kind) => KindIsParsed(kind, Trim(AfterWord(t)));
    }
  }

  predicate IsKind(r: Result<ActionSpec, AgenticError>, kind: ToolKind) {
    r.Ok? ==> r.value.Tool? && Kind(r.value.call) == kind
  }

  lemma PathKind(kind: ToolKind, rest: string)
    requires !kind.MoveTool? && !kind.ShellTool?
    ensures IsKind(ParseArguments(kind, rest), kind)
  {
  }

  lemma MoveKind(rest: string)
    ensures IsKind(ParseMove(rest), MoveTool)
  {
  }

  lemma ShellKind(rest: string)
    ensures IsKind(ParseShell(rest), ShellTool)
  {
  }

  lemma MoveLine(rest: string)
    ensures ParseArguments(MoveTool, rest) == ParseMove(rest)
  {
  }

  lemma KindIsParsed(kind: ToolKind, rest: string)
    ensures IsKind(ParseArguments(kind, rest), kind)
  {
    if kind.MoveTool? {
      MoveKind(rest);
      MoveLine(rest);
    } else if kind.ShellTool? {
      ShellKind(rest);
      ShellLine(rest);
    } else {
      PathKind(kind, rest);
    }
  }

  /** Surrounding white space never matters. */
  lemma PaddingIsIgnored(before: string, output: string, after: string)
    requires AllSpace(before) && AllSpace(after)
    ensures ValidateActionSelection(before + Trim(output) + after) == ValidateActionSelection(output)
  {
    TrimIsTrimmed(output);
    TrimDrops(before, Trim(output), after);
  }

  // ---------------------------------------------------------------- the parser is exact, on the text of the reply

  predicate Gap(g: string) {
    g != "" && AllSpace(g)
  }

  ghost predicate WrittenWith(s: string, name: string, arguments: string, before: string, gap: string, after: string) {
    AllSpace(before) && Gap(gap) && AllSpace(after) && s == before + (name + (gap + arguments)) + after
  }

  /** `name`, white space, `arguments`, and white space around the whole. */
  ghost predicate Written(s: string, name: string, arguments: string) {
    exists before, gap, after :: WrittenWith(s, name, arguments, before, gap, after)
  }

  /** The words with the gaps between them. */
  function Woven(words: seq<string>, gaps: seq<string>): string
    requires |words| == |gaps| + 1
  {
    if gaps == [] then words[0] else words[0] + (gaps[0] + Woven(words[1..], gaps[1..]))
  }

  predicate AreWoven(words: seq<string>, gaps: seq<string>) {
    && |words| == |gaps| + 1 && (forall w :: w in words ==> IsWord(w)) && (forall g :: g in gaps ==> Gap(g))
  }

  predicate IsMove(arguments: string, src: string, dst: string, left: string, right: string) {
    AllSpace(left) && AllSpace(right) && arguments == src + (left + ("|" + (right + dst)))
  }

  predicate IsShell(arguments: string, cmd: string, args: seq<string>, gaps: seq<string>) {
    AreWoven([cmd] + args, gaps) && arguments == Woven([cmd] + args, gaps)
  }

  /** The documented names and arguments, and the call that each stands for. */
  ghost predicate Denotes(name: string, arguments: string, c: ToolCall) {
    match c
    case FsListDir(p) => name == "fs_list_dir" && arguments == p
    case FsReadFile(p) => name == "fs_read_file" && arguments == p
    case ReadDocument(p) => name == "read_document" && arguments == p
    case TrashFile(p) => name == "trash_file" && arguments == p
    case MoveFile(src, dst) =>
      name == "move_file" && IsText(src) && '|' !in src && IsText(dst) &&
      exists left, right :: IsMove(arguments, src, dst, left, right)
    case ShellRun(cmd, args) => name == "shell_run" && exists gaps :: IsShell(arguments, cmd, args, gaps)
  }

  /** The reply `s` is the documented line for `c`, with any amount of any white space. */
  ghost predicate Says(s: string, c: ToolCall) {
    exists name, arguments :: IsText(arguments) && Written(s, name, arguments) && Denotes(name, arguments, c)
  }

  lemma TrimSplits(s: string) returns (before: string, after: string)
    ensures AllSpace(before) && AllSpace(after) && s == before + Trim(s) + after
  {
    var t := TrimStart(s);
    TrimStartIsSuffix(s);
    TrimEndIsPrefix(t);
    before, after := s[..|s| - |t|], t[|Trim(s)|..];
    LeadIsSpace(s);
    TailIsSpace(t);
    assert t == Trim(s) + after;
    assert s == before + t;
    Associates(before, Trim(s), after);
  }

  lemma {:induction false} LeadIsSpace(s: string)
    ensures AllSpace(s[..|s| - |TrimStart(s)|])
  {
    if s != "" && IsSpace(s[0]) {
      var lead := s[1..][..|s[1..]| - |TrimStart(s[1..])|];
      LeadIsSpace(s[1..]);
      assert s[..|s| - |TrimStart(s)|] == [s[0]] + lead;
    }
  }

  lemma {:induction false} TailIsSpace(s: string)
    ensures AllSpace(s[|TrimEnd(s)|..])
  {
    if s != "" && IsSpace(s[|s| - 1]) {
      var front := s[..|s| - 1];
      TailIsSpace(front);
      assert s[|TrimEnd(s)|..] == front[|TrimEnd(front)|..] + [s[|s| - 1]];
    }
  }

  lemma {:induction false} FindSpaceGapped(w: string, gap: string, rest: string)
    requires (forall i :: 0 <= i < |w| ==> !IsSpace(w[i])) && Gap(gap)
    ensures FindSpace(w + (gap + rest)) == |w|
  {
    if w == "" {
      assert w + (gap + rest) == gap + rest;
    } else {
      FindSpaceGapped(w[1..], gap, rest);
      assert (w + (gap + rest))[1..] == w[1..] + (gap + rest);
    }
  }

  lemma FirstOfGapped(w: string, gap: string, rest: string)
    requires (forall i :: 0 <= i < |w| ==> !IsSpace(w[i])) && Gap(gap)
    ensures FirstWord(w + (gap + rest)) == w && AfterWord(w + (gap + rest)) == gap[1..] + rest
  {
    FindSpaceGapped(w, gap, rest);
    var s := w + (gap + rest);
    assert s[..|w|] == w && s[|w| + 1..] == gap[1..] + rest;
  }

  lemma {:induction false} WordsSkipGap(gap: string, b: string)
    requires AllSpace(gap)
    ensures Words(gap + b) == Words(b)
  {
    if gap == "" {
      assert gap + b == b;
    } else {
      assert (gap + b)[1..] == gap[1..] + b;
      WordsSkipGap(gap[1..], b);
    }
  }

  lemma WordFirst(w: string, gap: string, b: string)
    requires IsWord(w) && Gap(gap)
    ensures Words(w + (gap + b)) == [w] + Words(b)
  {
    FirstOfGapped(w, gap, b);
    WordsSkipGap(gap[1..], b);
    assert (w + (gap + b))[0] == w[0];
  }

  lemma WordStep(s: string)
    requires s != "" && !IsSpace(s[0])
    ensures Words(s) == [FirstWord(s)] + Words(AfterWord(s))
  {
  }

  lemma SpaceStep(s: string)
    requires s != "" && IsSpace(s[0])
    ensures Words(s) == Words(s[1..])
  {
  }

  lemma FirstCharOf(a: string, b: string)
    ensures a != "" ==> (a + b)[0] == a[0] && (a + b)[1..] == a[1..] + b
  {
  }

  /** White space between two texts separates their words, however much of it there is. */
  lemma {:induction false} WordsOfConcat(a: string, gap: string, b: string)
    requires Gap(gap)
    ensures Words(a + (gap + b)) == Words(a) + Words(b)
    decreases |a|
  {
    var tail := gap + b;
    var s := a + tail;
    FirstCharOf(a, tail);
    if a == "" {
      WordsSkipGap(gap, b);
      assert s == tail;
    } else if IsSpace(a[0]) {
      SpaceStep(a);
      SpaceStep(s);
      WordsOfConcat(a[1..], gap, b);
    } else if FindSpace(a) < |a| {
      FindSpaceIn(a, tail);
      WordStep(a);
      WordStep(s);
      WordsOfConcat(AfterWord(a), gap, b);
      Associates([FirstWord(a)], Words(AfterWord(a)), Words(b));
    } else {
      OneWord(a);
      WordFirst(a, gap, b);
    }
  }

  lemma {:induction false} FindSpaceIn(a: string, b: string)
    requires FindSpace(a) < |a|
    ensures FindSpace(a + b) == FindSpace(a)
    ensures FirstWord(a + b) == FirstWord(a) && AfterWord(a + b) == AfterWord(a) + b
  {
    if !IsSpace(a[0]) {
      FindSpaceIn(a[1..], b);
      assert (a + b)[1..] == a[1..] + b;
    }
  }

  lemma OneWord(w: string)
    requires IsWord(w)
    ensures Words(w) == [w]
  {
    assert w[..|w|] == w;
    assert FirstWord(w) == w && AfterWord(w) == "";
    assert Words("") == [];
  }

  lemma JoinedText(w: string, gap: string, rest: string)
    requires IsWord(w) && IsText(rest)
    ensures IsText(w + (gap + rest))
  {
    LastOf(gap, rest);
    LastOf(w, gap + rest);
    FirstCharOf(w, gap + rest);
  }

  /** `f` reads a word and a gap off the front of a text, as splitting at white space does. */
  ghost predicate ReadsWords(f: string -> seq<string>) {
    && (forall w :: IsWord(w) ==> f(w) == [w])
    && (forall w, gap, rest :: IsWord(w) && Gap(gap) ==> f(w + (gap + rest)) == [w] + f(rest))
  }

  lemma {:induction false} ReadsWoven(f: string -> seq<string>, words: seq<string>, gaps: seq<string>)
    requires ReadsWords(f) && AreWoven(words, gaps)
    ensures f(Woven(words, gaps)) == words
    decreases |gaps|
  {
    if gaps == [] {
      assert words == [words[0]];
    } else {
      ReadsWoven(f, words[1..], gaps[1..]);
      assert words == [words[0]] + words[1..];
    }
  }

  lemma {:induction false} WovenIsText(words: seq<string>, gaps: seq<string>)
    requires AreWoven(words, gaps)
    ensures IsText(Woven(words, gaps))
    decreases |gaps|
  {
    if gaps != [] {
      WovenIsText(words[1..], gaps[1..]);
      JoinedText(words[0], gaps[0], Woven(words[1..], gaps[1..]));
    }
  }

  lemma WovenWords(words: seq<string>, gaps: seq<string>)
    requires AreWoven(words, gaps)
    ensures Words(Woven(words, gaps)) == words && IsText(Woven(words, gaps))
  {
    WovenIsText(words, gaps);
    forall w | IsWord(w) ensures Words(w) == [w] {
      OneWord(w);
    }
    forall w, gap, rest | IsWord(w) && Gap(gap) ensures Words(w + (gap + rest)) == [w] + Words(rest) {
      WordFirst(w, gap, rest);
    }
    ReadsWoven(Words, words, gaps);
  }

  lemma LastOf(a: string, b: string)
    ensures b != "" ==> (a + b)[|a + b| - 1] == b[|b| - 1]
  {
  }

  /** A text that does not end in white space: white space, and then what trimming leaves. */
  lemma OpenEnd(t: string) returns (lead: string)
    requires t != "" && !IsSpace(t[|t| - 1])
    ensures AllSpace(lead) && IsText(Trim(t)) && t == lead + Trim(t)
  {
    BlankIsSpace(t);
    TrimIsTrimmed(t);
    var trail;
    lead, trail := TrimSplits(t);
    LastOf(lead + Trim(t), trail);
    assert trail == "";
    assert lead + Trim(t) + "" == lead + Trim(t);
  }

  lemma OpenStart(t: string) returns (trail: string)
    requires t != "" && !IsSpace(t[0])
    ensures AllSpace(trail) && IsText(Trim(t)) && t == Trim(t) + trail
  {
    BlankIsSpace(t);
    TrimIsTrimmed(t);
    var lead;
    lead, trail := TrimSplits(t);
    FirstCharOf(lead, Trim(t) + trail);
    Associates(lead, Trim(t), trail);
    assert lead == "";
    assert "" + Trim(t) + trail == Trim(t) + trail;
  }

  lemma CutOut(s: string, k: nat)
    requires k < |s|
    ensures s == s[..k] + ([s[k]] + s[k + 1..])
    ensures k + 1 < |s| ==> s[k + 1..] != "" && s[k + 1..][|s| - k - 2] == s[|s| - 1]
  {
  }

  lemma WiderGap(w: string, space: string, lead: string, rest: string)
    requires Gap(space) && AllSpace(lead)
    ensures Gap(space + lead) && w + (space + (lead + rest)) == w + ((space + lead) + rest)
  {
    Associates(space, lead, rest);
  }

  /** A trimmed text with white space at `k`: a word, a gap, and a trimmed text that is not empty. */
  lemma SplitAt(s: string, k: nat) returns (w: string, gap: string, rest: string)
    requires IsText(s) && 0 < k < |s| && IsSpace(s[k]) && forall i :: 0 <= i < k ==> !IsSpace(s[i])
    ensures w == s[..k] && rest == Trim(s[k + 1..])
    ensures IsWord(w) && IsText(rest) && Gap(gap) && s == w + (gap + rest)
  {
    CutOut(s, k);
    w := s[..k];
    rest := Trim(s[k + 1..]);
    var lead := OpenEnd(s[k + 1..]);
    WiderGap(w, [s[k]], lead, rest);
    gap := [s[k]] + lead;
  }

  /** A trimmed text as a word, and a gap and another such text unless the word is all. */
  lemma SplitText(s: string) returns (w: string, gap: string, rest: string)
    requires IsText(s)
    ensures w == FirstWord(s) && rest == Trim(AfterWord(s)) && IsWord(w) && Trimmed(rest)
    ensures if rest == "" then s == w else Gap(gap) && s == w + (gap + rest)
  {
    var k := FindSpace(s);
    if k < |s| {
      w, gap, rest := SplitAt(s, k);
    } else {
      w, gap, rest := s, "", "";
      TrimIsIdentity("");
    }
  }

  lemma {:induction false} WordsAreWoven(s: string) returns (gaps: seq<string>)
    requires IsText(s)
    ensures AreWoven(Words(s), gaps) && s == Woven(Words(s), gaps)
    decreases |s|
  {
    var w, gap, rest := SplitText(s);
    if rest == "" {
      OneWord(w);
      gaps := [];
    } else {
      WordFirst(w, gap, rest);
      var more := WordsAreWoven(rest);
      gaps := [gap] + more;
      assert gaps[1..] == more && ([w] + Words(rest))[1..] == Words(rest);
    }
  }

  /** A tool name and arguments, however the reply spaces them. */
  lemma WrittenParses(s: string, name: string, arguments: string)
    requires IsWord(name) && name[0] != '[' && IsText(arguments) && Written(s, name, arguments)
    ensures ValidateActionSelection(s) == ParseCall(name, arguments)
  {
    var before, gap, after :| WrittenWith(s, name, arguments, before, gap, after);
    var t := name + (gap + arguments);
    assert t[0] == name[0] && t[|t| - 1] == arguments[|arguments| - 1];
    TrimDrops(before, t, after);
    FirstOfGapped(name, gap, arguments);
    WordIsTrimmed(name);
    TrimPadded(gap[1..], arguments);
    assert t[0] != "[NO_TOOL]"[0];
    ValidationCases(s);
  }

  /** A reply that parses to a call is a name and arguments. */
  lemma ParsedIsWritten(s: string) returns (name: string, arguments: string)
    requires ValidateActionSelection(s).Ok? && ValidateActionSelection(s).value.Tool?
    ensures IsText(arguments) && Written(s, name, arguments)
    ensures ValidateActionSelection(s) == ParseCall(name, arguments)
  {
    ValidationCases(s);
    var t := Trim(s);
    TrimIsTrimmed(s);
    var before, after := TrimSplits(s);
    var gap;
    name, gap, arguments := SplitText(t);
    WordIsTrimmed(name);
    CallNeedsArguments(name, arguments);
    assert WrittenWith(s, name, arguments, before, gap, after);
  }

  lemma CallNeedsArguments(name: string, rest: string)
    requires ParseCall(name, rest).Ok?
    ensures rest != ""
  {
    if rest == "" {
      TrimIsIdentity("");
    }
  }

  lemma PipeWritten(arguments: string, src: string, dst: string, left: string, right: string)
    requires IsMove(arguments, src, dst, left, right) && IsText(src) && '|' !in src && IsText(dst)
    ensures ParseMove(arguments) == Ok(Tool(MoveFile(src, dst)))
  {
    assert '|' !in left by {
      assert !IsSpace('|');
    }
    TrimPadded(left, src);
    TrimPadded(right, dst);
    var y := right + dst;
    assert "|" == ['|'];
    Associates(src, left, "|" + y);
    Associates(src + left, "|", y);
    PipeSplits(src + left, y);
  }

  lemma ShellWritten(arguments: string, cmd: string, args: seq<string>, gaps: seq<string>)
    requires IsShell(arguments, cmd, args, gaps)
    ensures ParseShell(arguments) == Ok(Tool(ShellRun(cmd, args)))
  {
    var words := [cmd] + args;
    assert words[0] == cmd && words[1..] == args;
    assert IsWord(cmd) && forall a :: a in args ==> a in words;
    WordIsTrimmed(cmd);
    if gaps == [] {
      assert args == [] && arguments == cmd && FirstWord(cmd) == cmd && AfterWord(cmd) == "";
      TrimIsIdentity("");
      assert Words("") == [];
    } else {
      var rest := Woven(args, gaps[1..]);
      WovenWords(args, gaps[1..]);
      FirstOfGapped(cmd, gaps[0], rest);
      TrimPadded(gaps[0][1..], rest);
    }
  }

  lemma DenotedName(name: string, arguments: string, c: ToolCall)
    requires Denotes(name, arguments, c)
    ensures name == Name(Kind(c))
  {
  }

  lemma DenotedArguments(name: string, arguments: string, c: ToolCall)
    requires IsText(arguments) && Denotes(name, arguments, c)
    ensures ParseArguments(Kind(c), arguments) == Ok(Tool(c))
  {
    if c.MoveFile? {
      var left, right :| IsMove(arguments, c.source, c.dest, left, right);
      PipeWritten(arguments, c.source, c.dest, left, right);
    } else if c.ShellRun? {
      var gaps :| IsShell(arguments, c.command, c.args, gaps);
      ShellWritten(arguments, c.command, c.args, gaps);
      ShellLine(arguments);
    }
  }

  /** What the documented arguments stand for is what is parsed. */
  lemma DenotedParses(name: string, arguments: string, c: ToolCall)
    requires IsText(arguments) && Denotes(name, arguments, c)
    ensures ParseCall(name, arguments) == Ok(Tool(c)) && IsWord(name) && name[0] != '['
  {
    DenotedName(name, arguments, c);
    NamesAreWords(Kind(c));
    DenotedArguments(name, arguments, c);
  }

  lemma NoPipe(arguments: string)
    requires ParseMove(arguments).Ok?
    ensures Find(arguments, '|').Some?
  {
    TrimIsIdentity("");
  }

  lemma MovePipe(arguments: string, src: string, dst: string) returns (x: string, y: string)
    requires ParseMove(arguments) == Ok(Tool(MoveFile(src, dst)))
    ensures arguments == x + ("|" + y) && '|' !in x && src == Trim(x) && dst == Trim(y) && src != "" && dst != ""
  {
    var pipe := Find(arguments, '|');
    NoPipe(arguments);
    x, y := arguments[..pipe.value], arguments[pipe.value + 1..];
    CutOut(arguments, pipe.value);
    assert ['|'] == "|";
  }

  lemma ParsedMoveDenotes(arguments: string, src: string, dst: string)
    requires IsText(arguments) && ParseMove(arguments) == Ok(Tool(MoveFile(src, dst)))
    ensures Denotes("move_file", arguments, MoveFile(src, dst))
  {
    var x, y := MovePipe(arguments, src, dst);
    TrimKeepsOut(x, '|');
    TrimIsIdentity("");
    assert x != "" && y != "";
    assert x[0] == arguments[0] && y[|y| - 1] == arguments[|arguments| - 1];
    var left := OpenStart(x);
    var right := OpenEnd(y);
    Associates(src, left, "|" + (right + dst));
    assert IsMove(arguments, src, dst, left, right);
  }

  lemma ParsedShellDenotes(arguments: string, cmd: string, args: seq<string>)
    requires IsText(arguments) && ParseShell(arguments) == Ok(Tool(ShellRun(cmd, args)))
    ensures Denotes("shell_run", arguments, ShellRun(cmd, args))
  {
    var gaps := WordsAreWoven(arguments);
    var w, gap, rest := SplitText(arguments);
    WordIsTrimmed(w);
    if rest == "" {
      OneWord(w);
      assert Words(rest) == [];
    } else {
      WordFirst(w, gap, rest);
    }
    assert Words(arguments) == [cmd] + args;
    assert IsShell(arguments, cmd, args, gaps);
  }

  lemma ParsedDenotes(name: string, arguments: string, c: ToolCall)
    requires IsText(arguments) && ParseCall(name, arguments) == Ok(Tool(c))
    ensures Denotes(name, arguments, c)
  {
    if c.MoveFile? {
      ParsedMoveDenotes(arguments, c.source, c.dest);
    } else if c.ShellRun? {
      ParsedShellDenotes(arguments, c.command, c.args);
    }
  }

  /**
   A reply is parsed to a call exactly when it is the documented line for that call: widening or
   changing the white space between its words, or around the pipe, never changes what is parsed.
   */
  lemma ParserIsExact(s: string, c: ToolCall)
    ensures ValidateActionSelection(s) == Ok(Tool(c)) <==> Says(s, c)
  {
    if ValidateActionSelection(s) == Ok(Tool(c)) {
      var name, arguments := ParsedIsWritten(s);
      ParsedDenotes(name, arguments, c);
    }
    if name, arguments :| IsText(arguments) && Written(s, name, arguments) && Denotes(name, arguments, c) {
      DenotedParses(name, arguments, c);
      WrittenParses(s, name, arguments);
    }
  }

  // ---------------------------------------------------------------- final answers, on the text of the reply

  predicate PaddedBy(output: string, text: string, before: string, after: string) {
    AllSpace(before) && AllSpace(after) && output == before + text + after
  }

  predicate ErrorBehind(output: string, before: string, rest: string) {
    AllSpace(before) && output == before + ("[ERROR:" + rest)
  }

  /** The first thing in the reply, after white space, is the error token. */
  ghost predicate ReportsError(output: string) {
    exists before, rest :: ErrorBehind(output, before, rest)
  }

  /** A blank reply is no answer, one that reports an error is refused, and any other is trimmed. */
  ghost predicate IsFinal(output: string, r: Result<string, AgenticError>) {
    if AllSpace(output) then r == Err(EmptyResponse)
    else if ReportsError(output) then r.Err? && r.error.ValidationFailed?
    else r.Ok? && IsText(r.value) && exists before, after :: PaddedBy(output, r.value, before, after)
  }

  lemma {:induction false} TrimEndKeeps(s: string, k: nat)
    requires 0 < k <= |s| && !IsSpace(s[k - 1])
    ensures |TrimEnd(s)| >= k
  {
    if IsSpace(s[|s| - 1]) {
      TrimEndKeeps(s[..|s| - 1], k);
    }
  }

  lemma TokenIsKept(token: string, rest: string)
    requires token != "" && !IsSpace(token[0]) && !IsSpace(token[|token| - 1])
    ensures StartsWith(TrimEnd(token + rest), token)
  {
    var s := token + rest;
    assert s[|token| - 1] == token[|token| - 1];
    TrimEndKeeps(s, |token|);
    TrimEndIsPrefix(s);
    assert TrimEnd(s)[..|token|] == token;
  }

  lemma ErrorIsTrimmed(output: string)
    ensures StartsWith(Trim(output), "[ERROR:") <==> ReportsError(output)
  {
    var token := "[ERROR:";
    if StartsWith(Trim(output), token) {
      var before, after := TrimSplits(output);
      var tail := Trim(output)[|token|..];
      assert Trim(output) == token + tail;
      Associates(before, token + tail, after);
      Associates(token, tail, after);
      assert ErrorBehind(output, before, tail + after);
    }
    if before, rest :| ErrorBehind(output, before, rest) {
      TrimStartDrops(before, token + rest);
      TokenIsKept(token, rest);
    }
  }

  lemma FinalAnswersAreExact(output: string)
    ensures IsFinal(output, ValidateFinalAnswer(output))
  {
    BlankIsSpace(output);
    ErrorIsTrimmed(output);
    TrimIsTrimmed(output);
    var before, after := TrimSplits(output);
    assert PaddedBy(output, Trim(output), before, after);
  }
}
