/**
 The plan-first orchestrator: planning.rs (start_session, do_expand_plan) and execution.rs
 (next_action, agent_step). `NextAction` and `AgentSession.AgentStep` update a session step by
 step; `Next` and `Step` say what they compute, and OrchestratorRuns.dfy reasons about whole runs.
 */
module Orchestrator {
  import opened Wrappers
  import opened Text
  import opened OrchestratorTypes

  const FS_RESULT_MAX_CHARS := 4000
  const FS_RESULT_TRUNCATION_NOTICE :=
    "\n\n[Note: file content was truncated to fit the model's context window.]"
  const FS_RESULT_PLACEHOLDER := "{{FS_RESULT}}"
  const MOST_RECENT_FILE_PLACEHOLDER := "{{MOST_RECENT_FILE}}"
  const FILE_CONTENTS_PLACEHOLDER := "{{FILE_CONTENTS}}"
  const FILE_SEPARATOR := "\n\n---\n\n"

  const NO_CONTENTS_ERROR :=
    "Cannot generate summary: no file contents were loaded. Check that the target files exist in the specified directory and retry."
  const NO_TEXT_ERROR :=
    "Cannot generate answer: the filesystem tool did not return readable text. Check that the target file exists and is a plain-text file."
  const NO_RECENT_FILE_ERROR := "No recent files found in the target directory."
  const NARRATION_ERROR :=
    "The model tried to describe internal tool calls instead of summarizing the provided document contents. Please retry or adjust the prompt."
  const NARRATION_PATTERNS := [
    "fs_list_dir", "fs_read_file", "fs_write_file", "i'll use ", "i will use ", "i will now call ",
    "first, i'll ", "next, i'll ", "now, i'll "]
  const READABLE := [".md", ".txt", ".csv", ".json", ".yaml", ".yml", ".log", ".rst"]

  // ---------------------------------------------------------------- planning.rs

  predicate EndsWith(s: string, suffix: string) {
    |suffix| <= |s| && s[|s| - |suffix|..] == suffix
  }

  predicate IsReadableFileType(name: string) {
    (exists i :: 0 <= i < |READABLE| && EndsWith(Lower(name), READABLE[i])) && !StartsWith(name, ".")
  }

  function KindFromPlan(plan: seq<ToolCallIntent>): SessionKind {
    if exists i :: 0 <= i < |plan| && !plan[i].LlmGenerate? then Task else Chat
  }

  /** The session `start_session` builds; the plan and the expansion are the router's choice. */
  function StartSession(sessionId: string, task: string, plan: seq<ToolCallIntent>,
                        expansion: Option<ExpansionKind>): SessionState {
    NewSession(sessionId, task).(
      state := Executing, kind := KindFromPlan(plan), plan := plan, pendingExpansion := expansion)
  }

  predicate Selected(e: ExpansionKind, name: string) {
    match e
    case ReadAndSummarize(filter) =>
      (filter.Some? ==> Contains(name, filter.value)) && IsReadableFileType(name)
    case MoveToDir(_, _, _, filter) =>
      if filter.Some? then Contains(name, filter.value) else !StartsWith(name, ".")
  }

  function Selection(e: ExpansionKind, listing: seq<string>): seq<string> {
    if listing == [] then []
    else (if Selected(e, listing[0]) then [listing[0]] else []) + Selection(e, listing[1..])
  }

  function FileStep(e: ExpansionKind, wsId: string, wsRoot: string, name: string): ToolCallIntent {
    match e
    case ReadAndSummarize(_) => FsReadFile(wsId, wsRoot, name)
    case MoveToDir(_, destRoot, destDir, _) => FsMove(wsId, wsRoot, name, destRoot, destDir + "/" + name)
  }

  function FileSteps(e: ExpansionKind, wsId: string, wsRoot: string, names: seq<string>): seq<ToolCallIntent> {
    seq(|names|, i requires 0 <= i < |names| => FileStep(e, wsId, wsRoot, names[i]))
  }

  function Preparation(e: ExpansionKind): seq<ToolCallIntent> {
    if e.MoveToDir? then [FsCreateDir(e.destWorkspaceId, e.destWorkspaceRoot, e.destRelDir)] else []
  }

  /** The index of the step that has just been done, with Rust's saturating subtraction. */
  function JustDone(s: SessionState): nat {
    if s.stepIndex > 0 then s.stepIndex - 1 else 0
  }

  predicate JustListed(s: SessionState) {
    JustDone(s) < |s.plan| && s.plan[JustDone(s)].FsListDir?
  }

  /** The steps an expansion inserts into the plan of `s`. */
  function ExpansionSteps(e: ExpansionKind, s: SessionState): seq<ToolCallIntent> {
    var wsRoot := if s.confirmedRoot.Some? then s.confirmedRoot.value else "";
    var wsId := if JustListed(s) then s.plan[JustDone(s)].workspaceId else "";
    Preparation(e) + FileSteps(e, wsId, wsRoot, Selection(e, s.lastDirListingSorted))
  }

  function Spliced(plan: seq<ToolCallIntent>, at: nat, steps: seq<ToolCallIntent>): seq<ToolCallIntent>
    requires at <= |plan|
  {
    plan[..at] + steps + plan[at..]
  }

  lemma FileStepsCons(e: ExpansionKind, wsId: string, wsRoot: string, name: string, names: seq<string>)
    ensures FileSteps(e, wsId, wsRoot, [name] + names) ==
            [FileStep(e, wsId, wsRoot, name)] + FileSteps(e, wsId, wsRoot, names)
  {
    forall i | 0 <= i < |names|
      ensures FileSteps(e, wsId, wsRoot, [name] + names)[i + 1] == FileSteps(e, wsId, wsRoot, names)[i]
    {
      assert ([name] + names)[i + 1] == names[i];
    }
  }

  lemma SelectionNext(e: ExpansionKind, listing: seq<string>)
    requires listing != []
    ensures Selection(e, listing) ==
            if Selected(e, listing[0]) then [listing[0]] + Selection(e, listing[1..]) else Selection(e, listing[1..])
  {
  }

  /** The loop of `do_expand_plan` over the listing. */
  method NewSteps(e: ExpansionKind, wsId: string, wsRoot: string, names: seq<string>)
    returns (steps: seq<ToolCallIntent>)
    ensures steps == Preparation(e) + FileSteps(e, wsId, wsRoot, Selection(e, names))
  {
    steps := Preparation(e);
    ghost var target := Preparation(e) + FileSteps(e, wsId, wsRoot, Selection(e, names));
    assert names[0..] == names;
    for i := 0 to |names|
      invariant steps + FileSteps(e, wsId, wsRoot, Selection(e, names[i..])) == target
    {
      var name := names[i];
      assert names[i..][0] == name && names[i..][1..] == names[i + 1..];
      SelectionNext(e, names[i..]);
      if Selected(e, name) {
        var step := FileStep(e, wsId, wsRoot, name);
        FileStepsCons(e, wsId, wsRoot, name, Selection(e, names[i + 1..]));
        Associates(steps, [step], FileSteps(e, wsId, wsRoot, Selection(e, names[i + 1..])));
        steps := steps + [step];
      }
    }
    assert names[|names|..] == [];
    assert steps + [] == steps;
  }

  method DoExpandPlan(s: SessionState, e: ExpansionKind) returns (r: SessionState)
    requires s.stepIndex <= |s.plan|
    ensures r == s.(plan := s.plan[..s.stepIndex] + ExpansionSteps(e, s) + s.plan[s.stepIndex..])
  {
    var insertAt := s.stepIndex;
    var wsRoot := if s.confirmedRoot.Some? then s.confirmedRoot.value else "";
    var wsId := if JustListed(s) then s.plan[JustDone(s)].workspaceId else "";
    var newSteps := NewSteps(e, wsId, wsRoot, s.lastDirListingSorted);
    r := s.(plan := s.plan[..insertAt] + newSteps + s.plan[insertAt..]);
  }

  // ---------------------------------------------------------------- guards and sanitizer

  /** `sanitize_llm_generate_output` refuses text that narrates tool calls. */
  predicate Narrates(raw: string) {
    exists i :: 0 <= i < |NARRATION_PATTERNS| && Contains(Lower(raw), NARRATION_PATTERNS[i])
  }

  predicate HasRealText(response: Option<string>) {
    response.Some? && response.value != "" && !StartsWith(response.value, "{")
  }

  function CheckLlmGeneratePrecondition(s: SessionState, idx: nat): Option<string> {
    if idx >= |s.plan| || !s.plan[idx].LlmGenerate? then None
    else
      var task := s.plan[idx].task;
      if Contains(task, FILE_CONTENTS_PLACEHOLDER) && s.contentAccumulator == [] then Some(NO_CONTENTS_ERROR)
      else if Contains(task, FS_RESULT_PLACEHOLDER) && !HasRealText(s.accumulatedResponse) then Some(NO_TEXT_ERROR)
      else None
  }

  // ---------------------------------------------------------------- next_action, as a function

  /** What a tool reported: its text, or the whole payload as JSON. */
  function Reported(p: Payload): string {
    if p.text.Some? then p.text.value else p.json
  }

  function Traced(s: SessionState, r: StepResult): SessionState {
    if s.stepIndex < |s.plan|
    then s.(toolTraces := s.toolTraces + [BuildToolTrace(s.plan[s.stepIndex], r)])
    else s
  }

  /** The facts a successful result leaves in the session, before the step counter moves. */
  function Learned(s: SessionState, p: Payload): SessionState {
    var here := s.stepIndex < |s.plan|;
    s.(confirmedRoot :=
         if s.confirmedRoot.None? && here && (s.plan[s.stepIndex].FsListDir? || s.plan[s.stepIndex].FsReadFile?)
         then Some(s.plan[s.stepIndex].workspaceRoot) else s.confirmedRoot,
       lastDirListingSorted :=
         if p.sortedByModified.Some? then p.sortedByModified.value else s.lastDirListingSorted,
       contentAccumulator :=
         if here && s.plan[s.stepIndex].FsReadFile? && p.text.Some?
         then s.contentAccumulator + [p.text.value] else s.contentAccumulator)
  }

  predicate Blocked(s: SessionState, p: Payload) {
    && s.kind == Task && s.stepIndex < |s.plan| && s.plan[s.stepIndex].LlmGenerate?
    && p.text.Some? && Narrates(p.text.value)
  }

  function Finish(s: SessionState, response: string): OrchestratorAction {
    Completed(response, s.(state := Complete, accumulatedResponse := Some(response)))
  }

  function Expanded(s: SessionState): SessionState {
    if s.pendingExpansion.Some? && JustListed(s) then
      s.(plan := Spliced(s.plan, s.stepIndex, ExpansionSteps(s.pendingExpansion.value, s)),
         pendingExpansion := None)
    else s
  }

  /** Text for `{{FILE_CONTENTS}}`. */
  function FileContents(s: SessionState): string {
    if s.contentAccumulator != [] then Join(s.contentAccumulator, FILE_SEPARATOR)
    else if s.accumulatedResponse.Some? then s.accumulatedResponse.value
    else "(no content)"
  }

  /** A report, cut to the character budget. */
  function Capped(raw: string): string {
    if |raw| > FS_RESULT_MAX_CHARS then raw[..FS_RESULT_MAX_CHARS] + FS_RESULT_TRUNCATION_NOTICE else raw
  }

  /** Text for `{{FS_RESULT}}`. */
  function FsResult(s: SessionState): string {
    Capped(if s.accumulatedResponse.Some? then s.accumulatedResponse.value else "(no tool result available)")
  }

  function Filled(s: SessionState, task: string): string {
    Replace(Replace(task, FILE_CONTENTS_PLACEHOLDER, FileContents(s)), FS_RESULT_PLACEHOLDER, FsResult(s))
  }

  predicate WantsRecent(intent: ToolCallIntent) {
    intent.FsReadFile? && Contains(intent.relPath, MOST_RECENT_FILE_PLACEHOLDER)
  }

  function Resolved(s: SessionState, intent: ToolCallIntent): ToolCallIntent
    requires WantsRecent(intent) ==> s.lastDirListingSorted != []
  {
    if WantsRecent(intent) then
      FsReadFile(intent.workspaceId, intent.workspaceRoot,
                 Replace(intent.relPath, MOST_RECENT_FILE_PLACEHOLDER, s.lastDirListingSorted[0]))
    else if intent.LlmGenerate? then intent.(task := Filled(s, intent.task))
    else intent
  }

  function Emit(s: SessionState): OrchestratorAction {
    if s.stepIndex >= |s.plan| then
      Completed(if s.accumulatedResponse.Some? then s.accumulatedResponse.value else "Done.",
                s.(state := Complete))
    else
      var guard := if s.kind == Task then CheckLlmGeneratePrecondition(s, s.stepIndex) else None;
      if guard.Some? then Finish(s, guard.value)
      else if WantsRecent(s.plan[s.stepIndex]) && s.lastDirListingSorted == [] then Finish(s, NO_RECENT_FILE_ERROR)
      else ToolCall(Resolved(s, s.plan[s.stepIndex]), s)
  }

  /** A successful result, applied: recorded, learned from, and stepped past. */
  function Applied(s: SessionState, p: Payload): SessionState {
    Learned(Traced(s, StepOk(p)), p).(accumulatedResponse := Some(Reported(p)), stepIndex := s.stepIndex + 1)
  }

  function Refused(s: SessionState, p: Payload): OrchestratorAction {
    var t := Learned(Traced(s, StepOk(p)), p);
    Finish(t.(observations := t.observations + ["LlmGenerate sanitizer blocked narration: " + NARRATION_ERROR]),
           NARRATION_ERROR)
  }

  function Failed(s: SessionState, message: string): OrchestratorAction {
    Finish(Traced(s, StepErr(message)).(observations := s.observations + ["Step failed: " + message]),
           "Error: " + message)
  }

  function Next(s: SessionState, last: Option<StepResult>): OrchestratorAction {
    match last
    case None =>
      var t := Expanded(s);
      if t.plan != [] then ToolCall(t.plan[0], t) else Emit(t)
    case Some(ApprovalPending(id)) =>
      AwaitingApproval(id, s.(approvalsRequested := s.approvalsRequested + [id]))
    case Some(StepErr(message)) => Failed(s, message)
    case Some(StepOk(p)) => if Blocked(s, p) then Refused(s, p) else Emit(Expanded(Applied(s, p)))
  }

  /** A completion's response is what its session records, or "Done." when that records nothing. */
  lemma ResponseIsRecorded(s: SessionState, last: Option<StepResult>)
    ensures var action := Next(s, last);
            action.Completed? ==>
              var answer := action.session.accumulatedResponse;
              action.session.state == Complete && action.response == if answer.Some? then answer.value else "Done."
  {
  }

  // ---------------------------------------------------------------- next_action, as the code runs it

  method SanitizeLlmGenerateOutput(raw: string) returns (r: Result<string, string>)
    ensures r == if Narrates(raw) then Err(NARRATION_ERROR) else Ok(raw)
  {
    var lower := Lower(raw);
    for i := 0 to |NARRATION_PATTERNS|
      invariant forall k :: 0 <= k < i ==> !Contains(lower, NARRATION_PATTERNS[k])
    {
      if Contains(lower, NARRATION_PATTERNS[i]) {
        return Err(NARRATION_ERROR);
      }
    }
    r := Ok(raw);
  }

  method NextAction(s: SessionState, last: Option<StepResult>) returns (action: OrchestratorAction)
    ensures action == Next(s, last)
  {
    var session := s;
    if last.Some? {
      var res := last.value;
      if res.ApprovalPending? {
        session := session.(approvalsRequested := session.approvalsRequested + [res.requestId]);
        return AwaitingApproval(res.requestId, session);
      }
      if session.stepIndex < |session.plan| {
        var trace := BuildToolTrace(session.plan[session.stepIndex], res);
        session := session.(toolTraces := session.toolTraces + [trace]);
      }
      assert session == Traced(s, res);
      if res.StepErr? {
        session := session.(state := Complete);
        session := session.(accumulatedResponse := Some("Error: " + res.message));
        session := session.(observations := session.observations + ["Step failed: " + res.message]);
        return Completed(session.accumulatedResponse.value, session);
      }
      session := LearnFrom(session, res.payload);
      if res.payload.text.Some? {
        var text := res.payload.text.value;
        if session.kind == Task && session.stepIndex < |session.plan| && session.plan[session.stepIndex].LlmGenerate? {
          var cleaned := SanitizeLlmGenerateOutput(text);
          if cleaned.Err? {
            session := session.(state := Complete);
            session := session.(accumulatedResponse := Some(cleaned.error));
            session := session.(
              observations := session.observations + ["LlmGenerate sanitizer blocked narration: " + cleaned.error]);
            return Completed(cleaned.error, session);
          }
          session := session.(accumulatedResponse := Some(cleaned.value));
        } else {
          session := session.(accumulatedResponse := Some(text));
        }
      } else {
        session := session.(accumulatedResponse := Some(res.payload.json));
      }
      session := session.(stepIndex := session.stepIndex + 1);
      assert session == Applied(s, res.payload);
    }
    session := ExpandIfListed(session);
    if last.None? && session.plan != [] {
      return ToolCall(session.plan[0], session);
    }
    action := EmitNext(session);
  }

  method LearnFrom(s: SessionState, payload: Payload) returns (session: SessionState)
    ensures session == Learned(s, payload)
  {
    session := s;
    if session.confirmedRoot.None? && session.stepIndex < |session.plan| {
      var done := session.plan[session.stepIndex];
      if done.FsListDir? || done.FsReadFile? {
        session := session.(confirmedRoot := Some(done.workspaceRoot));
      }
    }
    if payload.sortedByModified.Some? {
      session := session.(lastDirListingSorted := payload.sortedByModified.value);
    }
    if session.stepIndex < |session.plan| && session.plan[session.stepIndex].FsReadFile? {
      if payload.text.Some? {
        session := session.(contentAccumulator := session.contentAccumulator + [payload.text.value]);
      }
    }
  }

  /** Takes the pending expansion; puts it back when the last step was not a listing. */
  method ExpandIfListed(s: SessionState) returns (session: SessionState)
    ensures session == Expanded(s)
  {
    session := s;
    if session.pendingExpansion.Some? {
      var expansion := session.pendingExpansion.value;
      session := session.(pendingExpansion := None);
      if JustListed(session) {
        session := DoExpandPlan(session, expansion);
      } else {
        session := session.(pendingExpansion := Some(expansion));
      }
    }
  }

  /** The tail of `next_action`: guards, placeholders, next intent. */
  method EmitNext(s: SessionState) returns (action: OrchestratorAction)
    ensures action == Emit(s)
  {
    var session := s;
    if session.stepIndex < |session.plan| {
      if session.kind == Task {
        var guard := CheckLlmGeneratePrecondition(session, session.stepIndex);
        if guard.Some? {
          session := session.(state := Complete);
          session := session.(accumulatedResponse := Some(guard.value));
          return Completed(guard.value, session);
        }
      }
      var intent := session.plan[session.stepIndex];
      if intent.FsReadFile? && Contains(intent.relPath, MOST_RECENT_FILE_PLACEHOLDER) {
        if session.lastDirListingSorted == [] {
          session := session.(state := Complete);
          session := session.(accumulatedResponse := Some(NO_RECENT_FILE_ERROR));
          return Completed(NO_RECENT_FILE_ERROR, session);
        }
        var resolved := session.lastDirListingSorted[0];
        intent := FsReadFile(intent.workspaceId, intent.workspaceRoot,
                             Replace(intent.relPath, MOST_RECENT_FILE_PLACEHOLDER, resolved));
      }
      if intent.LlmGenerate? {
        ReplaceIsIdentity(intent.task, FILE_CONTENTS_PLACEHOLDER, FileContents(session));
        if Contains(intent.task, FILE_CONTENTS_PLACEHOLDER) {
          intent := intent.(task := Replace(intent.task, FILE_CONTENTS_PLACEHOLDER, FileContents(session)));
        }
        ReplaceIsIdentity(intent.task, FS_RESULT_PLACEHOLDER, FsResult(session));
        if Contains(intent.task, FS_RESULT_PLACEHOLDER) {
          intent := intent.(task := Replace(intent.task, FS_RESULT_PLACEHOLDER, FsResult(session)));
        }
      }
      return ToolCall(intent, session);
    }
    session := session.(state := Complete);
    var response := if session.accumulatedResponse.Some? then session.accumulatedResponse.value else "Done.";
    action := Completed(response, session);
  }

  // ---------------------------------------------------------------- agent_step

  datatype AgentStepOutcome =
    | TaskComplete(result: AgentTaskResult)
    | NeedTool(intent: ToolCallIntent, session: SessionState)
    | NeedApproval(requestId: string, session: SessionState)

  /** What one step asks of the runner. */
  datatype Status = Asks(intent: ToolCallIntent) | Waits(requestId: string) | Done

  datatype Turn = Turn(status: Status, session: SessionState)

  function Begin(s: SessionState): Turn {
    Turn(if s.plan == [] then Done else Asks(s.plan[0]), s)
  }

  function Step(s: SessionState, r: StepResult): Turn {
    match Next(s, Some(r))
    case Completed(_, t) => Turn(Done, t)
    case ToolCall(intent, t) => Turn(Asks(intent), t)
    case AwaitingApproval(id, t) => Turn(Waits(id), t)
  }

  function Outcome(t: Turn): AgentStepOutcome {
    match t.status
    case Done => TaskComplete(AgentTaskResult(t.session.accumulatedResponse, t.session.toolTraces))
    case Asks(intent) => NeedTool(intent, t.session)
    case Waits(id) => NeedApproval(id, t.session)
  }

  /** The `&mut AgentSessionState` that `agent_step` advances in place. */
  class AgentSession {
    var state: SessionState

    constructor (s: SessionState)
      ensures state == s
    {
      state := s;
    }

    /** `plan` and `expansion` are what the router would build for `task`. */
    method AgentStep(task: string, plan: seq<ToolCallIntent>, expansion: Option<ExpansionKind>,
                     last: Option<StepResult>)
      returns (r: Result<AgentStepOutcome, string>)
      modifies this
      ensures old(state).state == Initial && last.None? ==>
                && state == StartSession(old(state).sessionId, task, plan, expansion)
                && r == Ok(Outcome(Begin(state)))
      ensures last.Some? ==>
                && state == Step(old(state), last.value).session
                && r == Ok(Outcome(Step(old(state), last.value)))
      ensures old(state).state != Initial && last.None? ==> r.Err? && state == old(state)
    {
      if state.state == Initial && last.None? {
        state := StartSession(state.sessionId, task, plan, expansion);
        if |state.plan| > 0 {
          return Ok(NeedTool(state.plan[0], state));
        }
        return Ok(TaskComplete(AgentTaskResult(state.accumulatedResponse, state.toolTraces)));
      }
      if last.Some? {
        var action := NextAction(state, last);
        match action {
          case Completed(_, s) =>
            state := s;
            r := Ok(TaskComplete(AgentTaskResult(s.accumulatedResponse, s.toolTraces)));
          case ToolCall(intent, s) =>
            state := s;
            r := Ok(NeedTool(intent, s));
          case AwaitingApproval(id, s) =>
            state := s;
            r := Ok(NeedApproval(id, s));
        }
      } else {
        r := Err("last_result required when session is already executing");
      }
    }
  }
}
