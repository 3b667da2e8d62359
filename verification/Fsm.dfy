/**
 The experimental agent loop of fsm.rs, against any language model and any executor. The i-th reply
 of the model and the outcome of the i-th execution are arbitrary, so nothing below depends on the
 model behaving.
 */
module Fsm {
  import opened Wrappers
  import opened Text
  import opened Guardrail
  import opened RecentFiles

  datatype AgentState = Init | RetrieveContext | ActionSelection | Execution | Validation | Finalize

  datatype Fact = Fact(query: string, observation: string)

  /** Everything outside the loop. A canonical path or a tool outcome is asked for by step number. */
  datatype World = World(
    facts: Result<seq<Fact>, AgenticError>,
    reply: nat -> string,
    outcome: nat -> Result<string, string>,
    canonical: nat -> Option<string>,
    parent: string -> Option<string>,
    saveBeside: (string, string) -> Option<string>)

  /** The two validators of guardrail.rs, as the loop sees them. */
  datatype Guard = Guard(select: string -> Result<ActionSpec, AgenticError>,
                         final: string -> Result<string, AgenticError>)

  const GUARDRAIL := Guard(s => ValidateActionSelection(s), s => ValidateFinalAnswer(s))

  /** What an ActionSelection prompt carries besides its fixed text. */
  datatype Prompt = Prompt(query: string, memory: string, previous: Option<string>,
                           directory: Option<string>, recent: seq<string>)

  datatype Event =
    | Selected(prompt: Prompt, reply: string)
    | Executed(call: ToolCall, path: Option<string>, output: string)
    | Finalized(query: string, previous: Option<string>, reply: string)

  // ---------------------------------------------------------------- helpers of the loop

  const PROMPT_OUTPUT_MAX := 1000
  const FINAL_OUTPUT_MAX := 2000
  const SUMMARY_WORDS := ["summar", "overview", "brief", "tldr", "tl;dr", "condense"]

  predicate IsSummarizationQuery(query: string) {
    exists i :: 0 <= i < |SUMMARY_WORDS| && Contains(Lower(query), SUMMARY_WORDS[i])
  }

  function Head(s: Option<string>, n: nat): Option<string> {
    match s
    case Some(t) => Some(if |t| > n then t[..n] else t)
    case None => None
  }

  function MemoryLines(facts: seq<Fact>): seq<string> {
    if facts == [] then []
    else ["Q: " + facts[0].query + " => " + facts[0].observation] + MemoryLines(facts[1..])
  }

  function MemoryContext(facts: seq<Fact>): string {
    if facts == [] then "" else Join(["[MEMORY]"] + MemoryLines(facts) + ["[/MEMORY]"], "\n")
  }

  function PrimaryPath(call: ToolCall, canonical: Option<string>): Option<string> {
    match call
    case FsListDir(p) => Some(if canonical.Some? then canonical.value else p)
    case FsReadFile(p) => Some(if canonical.Some? then canonical.value else p)
    case ReadDocument(p) => Some(if canonical.Some? then canonical.value else p)
    case _ => None
  }

  function ToolOutput(outcome: Result<string, string>): string {
    match outcome
    case Ok(output) => output
    case Err(e) => "[TOOL_ERROR: " + e + "]"
  }

  // ---------------------------------------------------------------- what a log says

  /** The first `n` characters of `full`, or all of it; nothing when there is nothing. */
  predicate IsHead(shown: Option<string>, full: Option<string>, n: nat) {
    match full
    case None => shown.None?
    case Some(text) =>
      shown.Some? && shown.value <= text && (if |text| > n then |shown.value| == n else shown.value == text)
  }

  lemma HeadIsHead(s: Option<string>, n: nat)
    ensures IsHead(Head(s, n), s, n)
  {
  }

  function FactLines(facts: seq<Fact>): string {
    if facts == [] then "" else "Q: " + facts[0].query + " => " + facts[0].observation + "\n" + FactLines(facts[1..])
  }

  /** One line for each fact, between the memory tags. */
  predicate TellsFacts(memory: string, facts: seq<Fact>) {
    memory == if facts == [] then "" else "[MEMORY]\n" + (FactLines(facts) + "[/MEMORY]")
  }

  lemma {:induction false} LinesTell(facts: seq<Fact>)
    ensures Join(MemoryLines(facts) + ["[/MEMORY]"], "\n") == FactLines(facts) + "[/MEMORY]"
  {
    var close := ["[/MEMORY]"];
    if facts == [] {
      assert MemoryLines(facts) + close == close;
    } else {
      var line := "Q: " + facts[0].query + " => " + facts[0].observation;
      var rest := MemoryLines(facts[1..]) + close;
      LinesTell(facts[1..]);
      Associates([line], MemoryLines(facts[1..]), close);
      JoinCons(line, rest, "\n");
      Associates(line + "\n", FactLines(facts[1..]), "[/MEMORY]");
    }
  }

  lemma MemoryTells(facts: seq<Fact>)
    ensures TellsFacts(MemoryContext(facts), facts)
  {
    if facts != [] {
      var rest := MemoryLines(facts) + ["[/MEMORY]"];
      LinesTell(facts);
      Associates(["[MEMORY]"], MemoryLines(facts), ["[/MEMORY]"]);
      JoinCons("[MEMORY]", rest, "\n");
      assert "[MEMORY]" + "\n" == "[MEMORY]\n";
    }
  }

  /** The canonical path of the file or directory that a tool reads, or the path as given. */
  predicate IsPrimary(path: Option<string>, call: ToolCall, canonical: Option<string>) {
    path ==
    if call.FsListDir? || call.FsReadFile? || call.ReadDocument?
    then (if canonical.Some? then canonical else Some(call.path))
    else None
  }

  predicate IsOutput(output: string, outcome: Result<string, string>) {
    (outcome.Ok? ==> output == outcome.value) && (outcome.Err? ==> output == "[TOOL_ERROR: " + outcome.error + "]")
  }

  lemma ExecutionShows(call: ToolCall, canonical: Option<string>, outcome: Result<string, string>)
    ensures IsPrimary(PrimaryPath(call, canonical), call, canonical) && IsOutput(ToolOutput(outcome), outcome)
  {
  }

  predicate ReadsFile(e: Event) {
    e.Executed? && (e.call.FsReadFile? || e.call.ReadDocument?) && e.path.Some?
  }

  /** The files read, in order. */
  function FilesRead(log: seq<Event>): seq<string> {
    if log == [] then []
    else
      var e := log[|log| - 1];
      FilesRead(log[..|log| - 1]) + if ReadsFile(e) then [e.path.value] else []
  }

  /** The newest tool output. */
  function LastOutput(log: seq<Event>): Option<string> {
    if log == [] then None
    else if log[|log| - 1].Executed? then Some(log[|log| - 1].output)
    else LastOutput(log[..|log| - 1])
  }

  /** The newest document. */
  function LastDocument(log: seq<Event>): Option<string> {
    if log == [] then None
    else if log[|log| - 1].Executed? && log[|log| - 1].call.ReadDocument? then log[|log| - 1].path
    else LastDocument(log[..|log| - 1])
  }

  /** The directory listed last, or the parent of the file read last, whichever is newer. */
  function Directory(log: seq<Event>, parent: string -> Option<string>): Option<string> {
    if log == [] then None
    else
      var e := log[|log| - 1];
      if e.Executed? && e.call.FsListDir? then e.path
      else if ReadsFile(e) && parent(e.path.value).Some? then parent(e.path.value)
      else Directory(log[..|log| - 1], parent)
  }

  function Executions(log: seq<Event>): nat {
    if log == [] then 0 else Executions(log[..|log| - 1]) + if log[|log| - 1].Executed? then 1 else 0
  }

  function ModelCalls(log: seq<Event>): nat {
    if log == [] then 0 else ModelCalls(log[..|log| - 1]) + if log[|log| - 1].Executed? then 0 else 1
  }

  /** What may come after `log` in a run for `query`. */
  predicate Follows(g: Guard, w: World, query: string, log: seq<Event>, e: Event) {
    match e
    case Selected(prompt, reply) =>
      && (log == [] || log[|log| - 1].Executed?)
      && reply == w.reply(ModelCalls(log))
      && w.facts.Ok?
      && prompt.query == query && TellsFacts(prompt.memory, w.facts.value)
      && IsHead(prompt.previous, LastOutput(log), 1000)
      && prompt.directory == Directory(log, w.parent) && prompt.recent == Recent(FilesRead(log))
    case Executed(call, path, output) =>
      && log != [] && log[|log| - 1].Selected?
      && g.select(log[|log| - 1].reply) == Ok(Tool(call))
      && IsPrimary(path, call, w.canonical(Executions(log)))
      && IsOutput(output, w.outcome(Executions(log)))
    case Finalized(q, previous, reply) =>
      && log != [] && log[|log| - 1].Selected?
      && g.select(log[|log| - 1].reply) == Ok(NoTool)
      && q == query && IsHead(previous, LastOutput(log), 2000)
      && reply == w.reply(ModelCalls(log))
  }

  /** Every prompt shows exactly what was executed before it, and every execution was just selected. */
  predicate Faithful(g: Guard, w: World, query: string, log: seq<Event>) {
    log == [] || (Faithful(g, w, query, log[..|log| - 1]) && Follows(g, w, query, log[..|log| - 1], log[|log| - 1]))
  }

  lemma CountsGrow(log: seq<Event>, e: Event)
    ensures Executions(log + [e]) == Executions(log) + if e.Executed? then 1 else 0
    ensures ModelCalls(log + [e]) == ModelCalls(log) + if e.Executed? then 0 else 1
  {
    assert (log + [e])[..|log|] == log;
  }

  lemma Extends(g: Guard, w: World, query: string, log: seq<Event>, e: Event)
    requires Faithful(g, w, query, log) && Follows(g, w, query, log, e)
    ensures Faithful(g, w, query, log + [e])
    ensures Executions(log + [e]) == Executions(log) + if e.Executed? then 1 else 0
    ensures ModelCalls(log + [e]) == ModelCalls(log) + if e.Executed? then 0 else 1
  {
    var all := log + [e];
    assert all[..|all| - 1] == log && all[|all| - 1] == e;
    CountsGrow(log, e);
  }

  /** How one execution moves what the log says. */
  lemma AfterExecution(log: seq<Event>, e: Event, parent: string -> Option<string>)
    requires e.Executed?
    ensures var all := log + [e];
            && LastOutput(all) == Some(e.output)
            && LastDocument(all) == (if e.call.ReadDocument? then e.path else LastDocument(log))
            && Directory(all, parent) ==
               (if e.call.FsListDir? then e.path
                else if ReadsFile(e) && parent(e.path.value).Some? then parent(e.path.value)
                else Directory(log, parent))
            && Recent(FilesRead(all)) ==
               (if ReadsFile(e) then Pushed(Recent(FilesRead(log)), e.path.value) else Recent(FilesRead(log)))
  {
    var all := log + [e];
    assert all[..|all| - 1] == log;
    if ReadsFile(e) {
      PushFollowsHistory(FilesRead(log), e.path.value);
    } else {
      assert FilesRead(log) + [] == FilesRead(log);
    }
  }

  // ---------------------------------------------------------------- the variables of the loop

  class FsmContext {
    const query: string
    var memoryContext: string
    var pendingTool: Option<ToolCall>
    var toolOutput: Option<string>
    var step: nat
    var lastDocPath: Option<string>
    var contextDir: Option<string>
    var recentFiles: seq<string>

    constructor (query: string)
      ensures this.query == query && step == 0 && pendingTool == None
      ensures Tracks([], _ => None)
    {
      this.query := query;
      memoryContext, pendingTool, toolOutput, step := "", None, None, 0;
      lastDocPath, contextDir, recentFiles := None, None, [];
    }

    /** The navigation fields are functions of what was executed so far. */
    ghost predicate Tracks(log: seq<Event>, parent: string -> Option<string>)
      reads this
    {
      && toolOutput == LastOutput(log)
      && lastDocPath == LastDocument(log)
      && contextDir == Directory(log, parent)
      && recentFiles == Recent(FilesRead(log))
    }

    method PushRecentFile(path: string)
      modifies this`recentFiles
      ensures recentFiles == Pushed(old(recentFiles), path)
    {
      recentFiles := Without(recentFiles, path);
      recentFiles := recentFiles + [path];
      if |recentFiles| > RECENT_FILES_MAX {
        recentFiles := recentFiles[1..];
      }
    }

    /** Navigation after a tool with primary path `path`. */
    method Navigate(tool: ToolCall, path: Option<string>, parent: string -> Option<string>)
      modifies this`contextDir, this`recentFiles
      ensures contextDir ==
                if tool.FsListDir? then path
                else if path.Some? && parent(path.value).Some? then parent(path.value)
                else old(contextDir)
      ensures recentFiles ==
                if !tool.FsListDir? && path.Some? then Pushed(old(recentFiles), path.value) else old(recentFiles)
    {
      if tool.FsListDir? {
        contextDir := path;
      } else if path.Some? {
        var up := parent(path.value);
        if up.Some? {
          contextDir := up;
        }
        PushRecentFile(path.value);
      }
    }

    /** The Execution state. The pending tool is consumed. */
    method Execute(w: World, log: seq<Event>) returns (e: Event)
      requires pendingTool.Some? && Tracks(log, w.parent) && step == Executions(log)
      modifies this
      ensures pendingTool == None && step == old(step) + 1 && memoryContext == old(memoryContext)
      ensures e == Executed(old(pendingTool).value, PrimaryPath(old(pendingTool).value, w.canonical(Executions(log))),
                            ToolOutput(w.outcome(Executions(log))))
      ensures Tracks(log + [e], w.parent)
    {
      var tool := pendingTool.value;
      pendingTool := None;
      var path := PrimaryPath(tool, w.canonical(step));
      if tool.ReadDocument? {
        lastDocPath := path;
      }
      var output := ToolOutput(w.outcome(step));
      e := Executed(tool, path, output);
      AfterExecution(log, e, w.parent);
      Navigate(tool, path, w.parent);
      toolOutput := Some(output);
      step := step + 1;
    }
  }

  // ---------------------------------------------------------------- the loop

  /** The first selection, from `i` on, that is not a tool call, or `limit`. */
  function FirstStop(g: Guard, reply: nat -> string, i: nat, limit: nat): (k: nat)
    requires i <= limit
    ensures i <= k <= limit
    ensures forall j :: i <= j < k ==> IsCall(g, reply(j))
    ensures k < limit ==> !IsCall(g, reply(k))
    decreases limit - i
  {
    if i == limit || !IsCall(g, reply(i)) then i else FirstStop(g, reply, i + 1, limit)
  }

  predicate IsCall(g: Guard, reply: string) {
    var r := g.select(reply);
    r.Ok? && r.value.Tool?
  }

  function Saved(w: World, query: string, doc: Option<string>, answer: string): string {
    if doc.Some? && IsSummarizationQuery(query) && w.saveBeside(doc.value, answer).Some?
    then "\n\nSaved summary to: " + w.saveBeside(doc.value, answer).value
    else ""
  }

  predicate AsksForSummary(query: string) {
    var q := Lower(query);
    || Contains(q, "summar") || Contains(q, "overview") || Contains(q, "brief")
    || Contains(q, "tldr") || Contains(q, "tl;dr") || Contains(q, "condense")
  }

  lemma SummaryWords(query: string)
    ensures IsSummarizationQuery(query) <==> AsksForSummary(query)
  {
    var q := Lower(query);
    if IsSummarizationQuery(query) {
      var i :| 0 <= i < |SUMMARY_WORDS| && Contains(q, SUMMARY_WORDS[i]);
    }
    if Contains(q, "summar") { assert SUMMARY_WORDS[0] == "summar"; }
    if Contains(q, "overview") { assert SUMMARY_WORDS[1] == "overview"; }
    if Contains(q, "brief") { assert SUMMARY_WORDS[2] == "brief"; }
    if Contains(q, "tldr") { assert SUMMARY_WORDS[3] == "tldr"; }
    if Contains(q, "tl;dr") { assert SUMMARY_WORDS[4] == "tl;dr"; }
    if Contains(q, "condense") { assert SUMMARY_WORDS[5] == "condense"; }
  }

  /**
   The validated reply, and behind it where the summary was saved: when the query asks for one, a
   document was read, and saving beside it worked.
   */
  predicate Answers(g: Guard, w: World, query: string, doc: Option<string>, reply: string, r: Result<string, AgenticError>) {
    match g.final(reply)
    case Err(e) => r == Err(e)
    case Ok(answer) =>
      r.Ok? &&
      if AsksForSummary(query) && doc.Some? && w.saveBeside(doc.value, answer).Some?
      then r.value == answer + ("\n\nSaved summary to: " + w.saveBeside(doc.value, answer).value)
      else r.value == answer
  }

  predicate EndsInAnswer(log: seq<Event>) {
    log != [] && log[|log| - 1].Finalized?
  }

  /** The result of a run in terms of the model's replies alone, up to the document that was read. */
  predicate Finished(g: Guard, w: World, query: string, maxSteps: nat, log: seq<Event>, r: Result<string, AgenticError>) {
    var k := FirstStop(g, w.reply, 0, maxSteps);
    && Faithful(g, w, query, log)
    && match w.facts
       case Err(e) => log == [] && r == Err(e)
       case Ok(_) =>
         && Executions(log) == k
         && if k == maxSteps then ModelCalls(log) == k && r == Err(StepLimitExceeded(maxSteps)) && !EndsInAnswer(log)
            else match g.select(w.reply(k))
                 case Err(e) => ModelCalls(log) == k + 1 && r == Err(e) && !EndsInAnswer(log)
                 case Ok(_) =>
                   && ModelCalls(log) == k + 2
                   && EndsInAnswer(log) && log[|log| - 1].reply == w.reply(k + 1)
                   && Answers(g, w, query, LastDocument(log), w.reply(k + 1), r)
  }

  /** The state machine's invariant. */
  ghost predicate InState(g: Guard, w: World, maxSteps: nat, state: AgentState, ctx: FsmContext, log: seq<Event>)
    reads ctx
  {
    && ctx.Tracks(log, w.parent)
    && Faithful(g, w, ctx.query, log)
    && ctx.step == Executions(log) <= maxSteps
    && (forall j :: 0 <= j < ctx.step ==> IsCall(g, w.reply(j)))
    && (ctx.pendingTool.Some? <==> state == Execution)
    && match state
       case Init => log == []
       case RetrieveContext => log == []
       case ActionSelection => Between(g, w, ctx, log)
       case Validation => Between(g, w, ctx, log)
       case Execution =>
         && Selecting(g, w, maxSteps, ctx, log)
         && g.select(w.reply(ctx.step)) == Ok(Tool(ctx.pendingTool.value))
       case Finalize =>
         && Selecting(g, w, maxSteps, ctx, log)
         && g.select(w.reply(ctx.step)) == Ok(NoTool)
  }

  ghost predicate Between(g: Guard, w: World, ctx: FsmContext, log: seq<Event>)
    reads ctx
  {
    && (log == [] || log[|log| - 1].Executed?)
    && ModelCalls(log) == ctx.step
    && w.facts.Ok? && ctx.memoryContext == MemoryContext(w.facts.value)
  }

  ghost predicate Selecting(g: Guard, w: World, maxSteps: nat, ctx: FsmContext, log: seq<Event>)
    reads ctx
  {
    && log != [] && log[|log| - 1].Selected? && log[|log| - 1].reply == w.reply(ctx.step)
    && ModelCalls(log) == ctx.step + 1 && ctx.step < maxSteps
    && w.facts.Ok? && ctx.memoryContext == MemoryContext(w.facts.value)
  }

  function Rank(state: AgentState): nat {
    match state
    case Init => 5
    case RetrieveContext => 4
    case Validation => 4
    case ActionSelection => 3
    case Execution => 2
    case Finalize => 1
  }

  lemma FirstStopIs(g: Guard, reply: nat -> string, i: nat, limit: nat, k: nat)
    requires i <= k <= limit
    requires forall j :: i <= j < k ==> IsCall(g, reply(j))
    requires k < limit ==> !IsCall(g, reply(k))
    ensures FirstStop(g, reply, i, limit) == k
    decreases limit - i
  {
    if i < k {
      FirstStopIs(g, reply, i + 1, limit, k);
    }
  }

  /** The RetrieveContext state. */
  method Retrieve(g: Guard, w: World, maxSteps: nat, ctx: FsmContext, log: seq<Event>)
    returns (next: AgentState, result: Option<Result<string, AgenticError>>)
    requires InState(g, w, maxSteps, RetrieveContext, ctx, log)
    modifies ctx`memoryContext
    ensures result.None? ==> next == ActionSelection && InState(g, w, maxSteps, next, ctx, log)
    ensures result.Some? ==> next == RetrieveContext && Finished(g, w, ctx.query, maxSteps, log, result.value)
  {
    match w.facts {
      case Err(e) =>
        next, result := RetrieveContext, Some(Err(e));
      case Ok(facts) =>
        ctx.memoryContext := MemoryContext(facts);
        next, result := ActionSelection, None;
    }
  }

  /** After `n` executions, `e` executes what has just been selected. */
  predicate Due(g: Guard, w: World, query: string, log: seq<Event>, e: Event, n: nat) {
    && Faithful(g, w, query, log) && e.Executed? && Follows(g, w, query, log, e)
    && Executions(log) == n && ModelCalls(log) == n + 1
    && forall j :: 0 <= j <= n ==> IsCall(g, w.reply(j))
  }

  /** What the pending tool was selected by. */
  lemma PendingWasSelected(g: Guard, w: World, maxSteps: nat, ctx: FsmContext, log: seq<Event>, e: Event)
    requires InState(g, w, maxSteps, Execution, ctx, log)
    requires var tool, n := ctx.pendingTool.value, Executions(log);
             e == Executed(tool, PrimaryPath(tool, w.canonical(n)), ToolOutput(w.outcome(n)))
    ensures Due(g, w, ctx.query, log, e, ctx.step)
  {
    var n := ctx.step;
    ExecutionShows(e.call, w.canonical(n), w.outcome(n));
  }

  /** `n` executions, each just after its selection, and nothing since. */
  predicate Stepped(g: Guard, w: World, query: string, log: seq<Event>, n: nat) {
    && Faithful(g, w, query, log) && log != [] && log[|log| - 1].Executed?
    && Executions(log) == n && ModelCalls(log) == n
    && forall j :: 0 <= j < n ==> IsCall(g, w.reply(j))
  }

  /** One execution more, on the log. */
  lemma Advanced(g: Guard, w: World, query: string, log: seq<Event>, e: Event, n: nat)
    requires Due(g, w, query, log, e, n)
    ensures Stepped(g, w, query, log + [e], n + 1)
  {
    Extends(g, w, query, log, e);
  }

  lemma EntersValidation(g: Guard, w: World, maxSteps: nat, ctx: FsmContext, log: seq<Event>)
    requires ctx.Tracks(log, w.parent) && ctx.pendingTool.None? && ctx.step <= maxSteps
    requires Stepped(g, w, ctx.query, log, ctx.step)
    requires w.facts.Ok? && ctx.memoryContext == MemoryContext(w.facts.value)
    ensures InState(g, w, maxSteps, Validation, ctx, log)
  {
  }

  lemma PendingSteps(g: Guard, w: World, maxSteps: nat, ctx: FsmContext, log: seq<Event>, e: Event)
    requires InState(g, w, maxSteps, Execution, ctx, log)
    requires var tool, n := ctx.pendingTool.value, Executions(log);
             e == Executed(tool, PrimaryPath(tool, w.canonical(n)), ToolOutput(w.outcome(n)))
    ensures Stepped(g, w, ctx.query, log + [e], ctx.step + 1) && ctx.step < maxSteps
  {
    PendingWasSelected(g, w, maxSteps, ctx, log, e);
    Advanced(g, w, ctx.query, log, e, ctx.step);
  }

  /** The Execution state: a selected tool is executed, and one step of the budget is used. */
  method Perform(g: Guard, w: World, maxSteps: nat, ctx: FsmContext, log: seq<Event>)
    returns (all: seq<Event>)
    requires InState(g, w, maxSteps, Execution, ctx, log)
    modifies ctx
    ensures InState(g, w, maxSteps, Validation, ctx, all)
    ensures ctx.step == old(ctx.step) + 1
  {
    ghost var tool, n := ctx.pendingTool.value, ctx.step;
    PendingSteps(g, w, maxSteps, ctx, log,
                 Executed(tool, PrimaryPath(tool, w.canonical(n)), ToolOutput(w.outcome(n))));
    var e := ctx.Execute(w, log);
    all := log + [e];
    EntersValidation(g, w, maxSteps, ctx, all);
  }

  /** A run that stopped at selection `k`, before or after asking the model. */
  lemma StoppedAt(g: Guard, w: World, query: string, maxSteps: nat, log: seq<Event>, k: nat, e: AgenticError)
    requires Faithful(g, w, query, log) && w.facts.Ok? && k <= maxSteps
    requires Executions(log) == k && forall j :: 0 <= j < k ==> IsCall(g, w.reply(j))
    requires if k == maxSteps then ModelCalls(log) == k && e == StepLimitExceeded(maxSteps)
             else ModelCalls(log) == k + 1 && g.select(w.reply(k)) == Err(e)
    requires !EndsInAnswer(log)
    ensures Finished(g, w, query, maxSteps, log, Err(e))
  {
    FirstStopIs(g, w.reply, 0, maxSteps, k);
  }

  function SelectionPrompt(ctx: FsmContext): Prompt
    reads ctx
  {
    Prompt(ctx.query, ctx.memoryContext, Head(ctx.toolOutput, PROMPT_OUTPUT_MAX), ctx.contextDir, ctx.recentFiles)
  }

  lemma Asked(g: Guard, w: World, maxSteps: nat, ctx: FsmContext, log: seq<Event>)
    requires InState(g, w, maxSteps, ActionSelection, ctx, log) && ctx.step < maxSteps
    ensures var all := log + [Selected(SelectionPrompt(ctx), w.reply(ctx.step))];
            && ctx.Tracks(all, w.parent) && Faithful(g, w, ctx.query, all)
            && Executions(all) == ctx.step && Selecting(g, w, maxSteps, ctx, all)
  {
    var e := Selected(SelectionPrompt(ctx), w.reply(ctx.step));
    MemoryTells(w.facts.value);
    HeadIsHead(ctx.toolOutput, PROMPT_OUTPUT_MAX);
    Extends(g, w, ctx.query, log, e);
    TracksAfter(ctx, log, e, w.parent);
    assert (log + [e])[|log|] == e;
  }

  /** The ActionSelection state. */
  method Select(g: Guard, w: World, maxSteps: nat, ctx: FsmContext, log: seq<Event>)
    returns (next: AgentState, result: Option<Result<string, AgenticError>>, all: seq<Event>)
    requires InState(g, w, maxSteps, ActionSelection, ctx, log)
    modifies ctx`pendingTool
    ensures result.None? ==> next in {Execution, Finalize} && InState(g, w, maxSteps, next, ctx, all)
    ensures result.Some? ==> next == ActionSelection && Finished(g, w, ctx.query, maxSteps, all, result.value)
  {
    next, result, all := ActionSelection, None, log;
    if ctx.step >= maxSteps {
      StoppedAt(g, w, ctx.query, maxSteps, log, ctx.step, StepLimitExceeded(maxSteps));
      result := Some(Err(StepLimitExceeded(maxSteps)));
    } else {
      var raw := w.reply(ctx.step);
      all := log + [Selected(SelectionPrompt(ctx), raw)];
      Asked(g, w, maxSteps, ctx, log);
      match g.select(raw) {
        case Err(e) =>
          StoppedAt(g, w, ctx.query, maxSteps, all, ctx.step, e);
          result := Some(Err(e));
        case Ok(NoTool) =>
          next := Finalize;
        case Ok(Tool(call)) =>
          ctx.pendingTool := Some(call);
          next := Execution;
      }
    }
  }

  lemma TracksAfter(ctx: FsmContext, log: seq<Event>, e: Event, parent: string -> Option<string>)
    requires ctx.Tracks(log, parent) && !e.Executed?
    ensures ctx.Tracks(log + [e], parent)
  {
    assert (log + [e])[..|log|] == log;
    assert FilesRead(log) + [] == FilesRead(log);
  }

  method Compose(g: Guard, w: World, query: string, doc: Option<string>, raw: string)
    returns (r: Result<string, AgenticError>)
    ensures Answers(g, w, query, doc, raw, r)
  {
    SummaryWords(query);
    match g.final(raw) {
      case Err(e) => r := Err(e);
      case Ok(answer) => r := Ok(answer + Saved(w, query, doc, answer));
    }
  }

  /** The last model call, on the log. */
  lemma ConcludedLog(g: Guard, w: World, query: string, log: seq<Event>, e: Event, n: nat)
    requires Faithful(g, w, query, log) && e.Finalized? && Follows(g, w, query, log, e)
    requires Executions(log) == n && ModelCalls(log) == n + 1
    ensures var all := log + [e];
            && Faithful(g, w, query, all) && EndsInAnswer(all) && all[|all| - 1] == e
            && Executions(all) == n && ModelCalls(all) == n + 2
  {
    Extends(g, w, query, log, e);
  }

  lemma FinalFollows(g: Guard, w: World, maxSteps: nat, ctx: FsmContext, log: seq<Event>, e: Event)
    requires InState(g, w, maxSteps, Finalize, ctx, log)
    requires e == Finalized(ctx.query, Head(ctx.toolOutput, FINAL_OUTPUT_MAX), w.reply(ctx.step + 1))
    ensures Follows(g, w, ctx.query, log, e)
  {
    HeadIsHead(ctx.toolOutput, FINAL_OUTPUT_MAX);
  }

  lemma Concluded(g: Guard, w: World, maxSteps: nat, ctx: FsmContext, log: seq<Event>, e: Event)
    requires InState(g, w, maxSteps, Finalize, ctx, log)
    requires e == Finalized(ctx.query, Head(ctx.toolOutput, FINAL_OUTPUT_MAX), w.reply(ctx.step + 1))
    ensures var all := log + [e];
            && Faithful(g, w, ctx.query, all) && LastDocument(all) == ctx.lastDocPath
            && Executions(all) == ctx.step == FirstStop(g, w.reply, 0, maxSteps) < maxSteps
            && ModelCalls(all) == ctx.step + 2 && EndsInAnswer(all) && all[|all| - 1] == e
  {
    FinalFollows(g, w, maxSteps, ctx, log, e);
    ConcludedLog(g, w, ctx.query, log, e, ctx.step);
    TracksAfter(ctx, log, e, w.parent);
    FirstStopIs(g, w.reply, 0, maxSteps, ctx.step);
  }

  /** The Finalize state. */
  method Answer(g: Guard, w: World, maxSteps: nat, ctx: FsmContext, log: seq<Event>)
    returns (r: Result<string, AgenticError>, all: seq<Event>)
    requires InState(g, w, maxSteps, Finalize, ctx, log)
    ensures Finished(g, w, ctx.query, maxSteps, all, r)
  {
    var raw := w.reply(ctx.step + 1);
    var e := Finalized(ctx.query, Head(ctx.toolOutput, FINAL_OUTPUT_MAX), raw);
    all := log + [e];
    Concluded(g, w, maxSteps, ctx, log, e);
    r := Compose(g, w, ctx.query, ctx.lastDocPath, raw);
  }

  /**
   The loop. It ends for every model and every executor, and what it returns and how often it
   executes are fixed by the first reply that is not a tool call.
   */
  method RunWith(g: Guard, w: World, query: string, maxSteps: nat)
    returns (r: Result<string, AgenticError>, log: seq<Event>)
    ensures Finished(g, w, query, maxSteps, log, r)
  {
    var state := Init;
    var ctx := new FsmContext(query);
    var result: Option<Result<string, AgenticError>> := None;
    log := [];
    while result.None?
      invariant result.None? ==> InState(g, w, maxSteps, state, ctx, log)
      invariant result.Some? ==> Finished(g, w, query, maxSteps, log, result.value)
      decreases maxSteps - ctx.step, Rank(state), result.None?
    {
      match state {
        case Init =>
          state := RetrieveContext;
        case RetrieveContext =>
          state, result := Retrieve(g, w, maxSteps, ctx, log);
        case ActionSelection =>
          state, result, log := Select(g, w, maxSteps, ctx, log);
        case Execution =>
          log := Perform(g, w, maxSteps, ctx, log);
          state := Validation;
        case Validation =>
          state := ActionSelection;
        case Finalize =>
          var answer;
          answer, log := Answer(g, w, maxSteps, ctx, log);
          result := Some(answer);
      }
    }
    r := result.value;
  }

  /** Validators that never claim an exhausted budget. */
  ghost predicate NeverLimits(g: Guard) {
    && (forall s :: g.select(s).Err? ==> !g.select(s).error.StepLimitExceeded?)
    && (forall s :: g.final(s).Err? ==> !g.final(s).error.StepLimitExceeded?)
  }

  lemma GuardrailNeverLimits()
    ensures NeverLimits(GUARDRAIL)
  {
    forall s ensures GUARDRAIL.select(s) == ValidateActionSelection(s) {
    }
    forall s ensures GUARDRAIL.final(s) == ValidateFinalAnswer(s) {
    }
  }

  /** The budget: executions, model calls, and when it is exceeded. */
  lemma RunIsBounded(g: Guard, w: World, query: string, maxSteps: nat, log: seq<Event>, r: Result<string, AgenticError>)
    requires Finished(g, w, query, maxSteps, log, r) && w.facts.Ok?
    ensures Executions(log) <= maxSteps && ModelCalls(log) <= maxSteps + 1
    ensures r.Ok? ==> Executions(log) < maxSteps
    ensures NeverLimits(g) ==> (r == Err(StepLimitExceeded(maxSteps)) <==> Executions(log) == maxSteps)
  {
  }

  /** Whatever was executed had just been selected, whatever is shown had just been executed. */
  lemma {:induction false} FaithfulEverywhere(g: Guard, w: World, query: string, log: seq<Event>, i: nat)
    requires Faithful(g, w, query, log) && i < |log|
    ensures Follows(g, w, query, log[..i], log[i])
  {
    if i < |log| - 1 {
      FaithfulEverywhere(g, w, query, log[..|log| - 1], i);
      assert log[..|log| - 1][..i] == log[..i];
    }
  }

  ghost predicate Concludes(reply: string, answer: Result<string, AgenticError>, suffix: string, r: Result<string, AgenticError>) {
    IsFinal(reply, answer) && match answer case Err(e) => r == Err(e) case Ok(text) => r == Ok(text + suffix)
  }

  /** The answer of a run, on the text of the last reply: refused or not, and what it says. */
  ghost predicate AnswersReply(reply: string, r: Result<string, AgenticError>) {
    exists answer, suffix :: Concludes(reply, answer, suffix, r)
  }

  /** Validators that accept and refuse final answers on their text. */
  ghost predicate FinalIsExact(g: Guard) {
    forall s :: IsFinal(s, g.final(s))
  }

  lemma GuardrailIsExact()
    ensures FinalIsExact(GUARDRAIL)
  {
    forall s ensures IsFinal(s, GUARDRAIL.final(s)) {
      FinalAnswersAreExact(s);
    }
  }

  lemma LastReply(g: Guard, w: World, query: string, maxSteps: nat, log: seq<Event>, r: Result<string, AgenticError>)
    requires Finished(g, w, query, maxSteps, log, r) && EndsInAnswer(log)
    ensures Answers(g, w, query, LastDocument(log), log[|log| - 1].reply, r)
  {
  }

  lemma AnswerAndSuffix(g: Guard, w: World, query: string, doc: Option<string>, reply: string, r: Result<string, AgenticError>)
    returns (suffix: string)
    requires Answers(g, w, query, doc, reply, r)
    ensures match g.final(reply) case Err(e) => r == Err(e) case Ok(answer) => r == Ok(answer + suffix)
  {
    suffix := "";
    if r.Ok? {
      var answer := g.final(reply).value;
      if r.value == answer {
        assert answer + suffix == answer;
      } else {
        suffix := "\n\nSaved summary to: " + w.saveBeside(doc.value, answer).value;
      }
    }
  }

  lemma LastReplyAnswers(g: Guard, w: World, query: string, maxSteps: nat, log: seq<Event>, r: Result<string, AgenticError>)
    requires FinalIsExact(g) && Finished(g, w, query, maxSteps, log, r) && EndsInAnswer(log)
    ensures AnswersReply(log[|log| - 1].reply, r)
  {
    var reply := log[|log| - 1].reply;
    LastReply(g, w, query, maxSteps, log, r);
    var suffix := AnswerAndSuffix(g, w, query, LastDocument(log), reply, r);
    assert Concludes(reply, g.final(reply), suffix, r);
  }

  /** `AgentFsm::run`: the loop under the validators of guardrail.rs. */
  method Run(w: World, query: string, maxSteps: nat) returns (r: Result<string, AgenticError>, log: seq<Event>)
    ensures Finished(GUARDRAIL, w, query, maxSteps, log, r)
    ensures Executions(log) <= maxSteps && ModelCalls(log) <= maxSteps + 1
    ensures r.Ok? ==> Executions(log) < maxSteps
    ensures w.facts.Ok? ==> (r == Err(StepLimitExceeded(maxSteps)) <==> Executions(log) == maxSteps)
    ensures forall i :: 0 <= i < |log| ==> Follows(GUARDRAIL, w, query, log[..i], log[i])
    ensures EndsInAnswer(log) ==> AnswersReply(log[|log| - 1].reply, r)
    ensures r.Ok? ==> EndsInAnswer(log)
  {
    r, log := RunWith(GUARDRAIL, w, query, maxSteps);
    GuardrailNeverLimits();
    forall i | 0 <= i < |log| ensures Follows(GUARDRAIL, w, query, log[..i], log[i]) {
      FaithfulEverywhere(GUARDRAIL, w, query, log, i);
    }
    if w.facts.Ok? {
      RunIsBounded(GUARDRAIL, w, query, maxSteps, log, r);
    }
    if EndsInAnswer(log) {
      GuardrailIsExact();
      LastReplyAnswers(GUARDRAIL, w, query, maxSteps, log, r);
    }
  }
}
