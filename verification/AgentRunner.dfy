/**
 The app's driver: AgentRunner.swift over `ffi_agent_step` of oxcer_ffi/src/lib.rs. Session JSON is
 passed back unchanged, so it is modelled by the session itself.
 */
module AgentRunner {
  import opened Wrappers
  import opened OrchestratorTypes
  import opened Orchestrator
  import opened OrchestratorRuns

  // ---------------------------------------------------------------- ffi_agent_step

  datatype FfiToolIntent = FfiToolIntent(kind: string, intent: ToolCallIntent)

  datatype FfiStepResult = FfiStepResult(ok: bool, payloadJson: Option<string>, error: Option<string>)

  datatype FfiStepOutcome = FfiStepOutcome(
    status: string, intent: Option<FfiToolIntent>, approvalRequestId: Option<string>,
    finalAnswer: Option<string>, session: SessionState)

  const JSON_NULL := Payload(None, None, "null")

  /** How the bridge reads an executor result; `parse` is the JSON parser. */
  function ToStepResult(r: FfiStepResult, parse: string -> Option<Payload>): StepResult {
    if r.ok then
      var payload := if r.payloadJson.Some? then parse(r.payloadJson.value) else None;
      StepOk(if payload.Some? then payload.value else JSON_NULL)
    else StepErr(if r.error.Some? then r.error.value else "unknown error")
  }

  /** How the bridge reports a turn. */
  function ToOutcome(t: Turn): FfiStepOutcome {
    match t.status
    case Asks(i) => FfiStepOutcome("need_tool", Some(FfiToolIntent(IntentToolName(i), i)), None, None, t.session)
    case Waits(id) => FfiStepOutcome("awaiting_approval", None, Some(id), None, t.session)
    case Done => FfiStepOutcome("complete", None, None, t.session.accumulatedResponse, t.session)
  }

  /**
   One request and what answers it: its text, the router's plan for it, the JSON parser, and any user
   and any executor, who may answer differently in every step.
   */
  datatype Environment = Environment(
    sessionId: string, task: string, plan: seq<ToolCallIntent>, expansion: Option<ExpansionKind>,
    parse: string -> Option<Payload>,
    approve: (nat, ToolCallIntent) -> bool,
    execute: (nat, ToolCallIntent) -> FfiStepResult)
  {
    function Start(): SessionState {
      StartSession(sessionId, task, plan, expansion)
    }
  }

  /**
   `s` is what result `r` has to be read as: the payload if there is one that parses, and JSON null if
   not; a failure with its own error text.
   */
  predicate Reads(r: FfiStepResult, parse: string -> Option<Payload>, s: StepResult) {
    var parsed := if r.payloadJson.Some? then parse(r.payloadJson.value) else None;
    && (r.ok ==> s.StepOk?) && (!r.ok ==> s.StepErr?)
    && (r.ok && parsed.Some? ==> s.payload == parsed.value)
    && (r.ok && parsed.None? ==> s.payload == Payload(None, None, "null"))
    && (!r.ok && r.error.Some? ==> s.message == r.error.value)
    && (!r.ok && r.error.None? ==> s.message == "unknown error")
  }

  lemma ResultsAreRead(r: FfiStepResult, parse: string -> Option<Payload>, s: StepResult)
    ensures Reads(r, parse, s) <==> s == ToStepResult(r, parse)
  {
  }

  method FfiAgentStep(env: Environment, sessionJson: Option<SessionState>, last: Option<FfiStepResult>)
    returns (r: Result<FfiStepOutcome, string>)
    ensures sessionJson.None? && last.None? ==> r == Ok(ToOutcome(Begin(env.Start())))
    ensures last.Some? ==>
              var s := if sessionJson.Some? then sessionJson.value else NewSession(env.sessionId, env.task);
              r == Ok(ToOutcome(Step(s, ToStepResult(last.value, env.parse))))
              && Reads(last.value, env.parse, ToStepResult(last.value, env.parse))
    ensures sessionJson.Some? && last.None? ==>
              var s := sessionJson.value;
              if s.state != Initial then r.Err?
              else r == Ok(ToOutcome(Begin(StartSession(s.sessionId, env.task, env.plan, env.expansion))))
  {
    var session := new AgentSession(
      if sessionJson.Some? then sessionJson.value else NewSession(env.sessionId, env.task));
    var stepResult := if last.Some? then Some(ToStepResult(last.value, env.parse)) else None;
    var outcome := session.AgentStep(env.task, env.plan, env.expansion, stepResult);
    if outcome.Err? {
      return Err(outcome.error);
    }
    match outcome.value {
      case NeedTool(intent, _) =>
        var kind := IntentToolName(intent);
        r := Ok(FfiStepOutcome("need_tool", Some(FfiToolIntent(kind, intent)), None, None, session.state));
      case NeedApproval(id, _) =>
        r := Ok(FfiStepOutcome("awaiting_approval", None, Some(id), None, session.state));
      case TaskComplete(result) =>
        r := Ok(FfiStepOutcome("complete", None, None, result.finalAnswer, session.state));
    }
  }

  // ---------------------------------------------------------------- the runner's log

  const APPROVAL_REQUIRED_KINDS := {
    "fs_write_file", "fs_delete", "fs_rename", "fs_move", "fs_create_dir", "shell_run"}

  /** Everything a run does to the outside world, in order. */
  datatype Event =
    | Approval(step: nat, intent: ToolCallIntent, approved: bool)
    | Executed(step: nat, intent: ToolCallIntent, result: FfiStepResult)

  datatype RunResult =
    | Answer(text: string)
    | MissingIntent
    | UnknownStatus(status: string)
    | StepLimitExceeded(maxSteps: nat)
    | BackendError(message: string)

  /** Writes, deletes, renames, moves, new folders and shell commands. */
  predicate Destructive(i: ToolCallIntent) {
    i.FsWriteFile? || i.FsDelete? || i.FsRename? || i.FsMove? || i.FsCreateDir? || i.ShellRun?
  }

  /** The kinds the runner gates are exactly the destructive intents. */
  lemma GatedKindsAreDestructive(i: ToolCallIntent)
    ensures IntentToolName(i) in APPROVAL_REQUIRED_KINDS <==> Destructive(i)
  {
    assert |"fs_list_dir"| == 11 && |"fs_read_file"| == 12 && |"llm_generate"| == 12;
    assert |"fs_write_file"| == 13 && |"fs_delete"| == 9 && |"fs_rename"| == 9;
    assert |"fs_move"| == 7 && |"fs_create_dir"| == 13 && |"shell_run"| == 9;
  }

  function Spaced(kind: string): string {
    seq(|kind|, i requires 0 <= i < |kind| => if kind[i] == '_' then ' ' else kind[i])
  }

  function Denial(i: ToolCallIntent): string {
    "User denied: " + Spaced(IntentToolName(i))
  }

  /** What an event answers the orchestrator, if anything. */
  function AnswerOf(e: Event, parse: string -> Option<Payload>): Option<StepResult> {
    match e
    case Executed(_, _, r) => Some(ToStepResult(r, parse))
    case Approval(_, i, approved) => if approved then None else Some(StepErr(Denial(i)))
  }

  function Answers(log: seq<Event>, parse: string -> Option<Payload>): seq<StepResult> {
    if log == [] then []
    else
      var last := AnswerOf(log[|log| - 1], parse);
      Answers(log[..|log| - 1], parse) + if last.Some? then [last.value] else []
  }

  /** `message` denies the intent: its kind, with spaces for underscores. */
  predicate Denies(i: ToolCallIntent, message: string) {
    var kind := IntentToolName(i);
    && |message| == |"User denied: "| + |kind| && "User denied: " <= message
    && forall k :: 0 <= k < |kind| ==>
         message[|"User denied: "| + k] == if kind[k] == '_' then ' ' else kind[k]
  }

  /**
   `fed` is what the events of the log make the orchestrator read: each executor result as `Reads`
   says, each denial as a failure that names the intent, and an approval as nothing.
   */
  predicate Feeds(log: seq<Event>, parse: string -> Option<Payload>, fed: seq<StepResult>) {
    if log == [] then fed == []
    else
      var front, e := log[..|log| - 1], log[|log| - 1];
      if e.Approval? && e.approved then Feeds(front, parse, fed)
      else
        && fed != []
        && Feeds(front, parse, fed[..|fed| - 1])
        && var s := fed[|fed| - 1];
           if e.Executed? then Reads(e.result, parse, s) else s.StepErr? && Denies(e.intent, s.message)
  }

  lemma DenialDenies(i: ToolCallIntent)
    ensures Denies(i, Denial(i))
  {
    var head, kind := "User denied: ", IntentToolName(i);
    assert Denial(i)[..|head|] == head;
    forall k | 0 <= k < |kind| ensures Denial(i)[|head| + k] == if kind[k] == '_' then ' ' else kind[k] {
      assert Denial(i)[|head| + k] == Spaced(kind)[k];
    }
  }

  lemma {:induction false} LogFeeds(log: seq<Event>, parse: string -> Option<Payload>)
    ensures Feeds(log, parse, Answers(log, parse))
  {
    if log != [] {
      var front, e := log[..|log| - 1], log[|log| - 1];
      LogFeeds(front, parse);
      match e {
        case Executed(_, _, r) => ResultsAreRead(r, parse, ToStepResult(r, parse));
        case Approval(_, i, approved) =>
          DenialDenies(i);
          assert approved ==> Answers(log, parse) == Answers(front, parse);
      }
      if AnswerOf(e, parse).Some? {
        assert Answers(log, parse)[..|Answers(log, parse)| - 1] == Answers(front, parse);
      }
    }
  }

  /** A denied or failed intent. */
  predicate Stops(e: Event) {
    (e.Approval? && !e.approved) || (e.Executed? && !e.result.ok)
  }

  /** Every destructive execution directly follows its own approval, given in the same step. */
  predicate Gated(log: seq<Event>) {
    forall i :: 0 <= i < |log| && log[i].Executed? && Destructive(log[i].intent) ==>
      i > 0 && log[i - 1] == Approval(log[i].step, log[i].intent, true)
  }

  /** Event `e`, after `earlier`, belongs to the intent that the orchestrator emitted in that step. */
  predicate Emitted(s0: SessionState, earlier: seq<Event>, e: Event, parse: string -> Option<Payload>) {
    var fed := Answers(earlier, parse);
    e.step == |fed| + 1 && IsRun(s0, fed) && After(s0, fed).status == Asks(e.intent)
  }

  predicate Faithful(s0: SessionState, log: seq<Event>, parse: string -> Option<Payload>) {
    forall i :: 0 <= i < |log| ==> Emitted(s0, log[..i], log[i], parse)
  }

  predicate StopsOnlyAtEnd(log: seq<Event>) {
    forall i :: 0 <= i < |log| - 1 ==> !Stops(log[i])
  }

  /** Only destructive intents are put to the user, and every answer is the user's or the executor's own. */
  predicate Genuine(env: Environment, e: Event) {
    match e
    case Approval(step, i, approved) => Destructive(i) && approved == env.approve(step, i)
    case Executed(step, i, r) => r == env.execute(step, i)
  }

  ghost predicate GoodLog(env: Environment, log: seq<Event>) {
    && Gated(log) && Faithful(env.Start(), log, env.parse) && StopsOnlyAtEnd(log)
    && forall i :: 0 <= i < |log| ==> Genuine(env, log[i])
  }

  predicate NoStops(log: seq<Event>) {
    forall i :: 0 <= i < |log| ==> !Stops(log[i])
  }

  /** The log so far has been answered up to the intent `i` that is now asked for. */
  ghost predicate Asking(env: Environment, log: seq<Event>, i: ToolCallIntent) {
    var fed := Answers(log, env.parse);
    GoodLog(env, log) && NoStops(log) && IsRun(env.Start(), fed) && After(env.Start(), fed).status == Asks(i)
  }

  lemma LogGrows(log: seq<Event>, e: Event, parse: string -> Option<Payload>)
    ensures Answers(log + [e], parse) ==
            Answers(log, parse) + (match AnswerOf(e, parse) case Some(r) => [r] case None => [])
  {
    assert (log + [e])[..|log|] == log;
  }

  /** Appending an event for the current intent keeps the log's invariants. */
  lemma LogKeeps(env: Environment, log: seq<Event>, e: Event)
    requires Asking(env, log, e.intent) && e.step == |Answers(log, env.parse)| + 1 && Genuine(env, e)
    requires e.Executed? && Destructive(e.intent) ==>
               log != [] && log[|log| - 1] == Approval(e.step, e.intent, true)
    ensures GoodLog(env, log + [e])
  {
    var all := log + [e];
    forall i | 0 <= i < |all| ensures Emitted(env.Start(), all[..i], all[i], env.parse) {
      if i < |log| {
        assert all[..i] == log[..i] && all[i] == log[i];
      } else {
        assert all[..i] == log && all[i] == e;
      }
    }
  }

  // ---------------------------------------------------------------- AgentRunner.run

  /** One `need_tool` turn: the approval gate, then the executor. */
  method Perform(env: Environment, step: nat, intent: FfiToolIntent, log: seq<Event>)
    returns (all: seq<Event>, r: FfiStepResult)
    requires intent.kind == IntentToolName(intent.intent)
    requires Asking(env, log, intent.intent) && step == |Answers(log, env.parse)| + 1
    ensures GoodLog(env, all) && all != [] && (Stops(all[|all| - 1]) <==> !r.ok)
    ensures Answers(all, env.parse) == Answers(log, env.parse) + [ToStepResult(r, env.parse)]
  {
    all := log;
    GatedKindsAreDestructive(intent.intent);
    if intent.kind in APPROVAL_REQUIRED_KINDS {
      var approved := env.approve(step, intent.intent);
      LogKeeps(env, log, Approval(step, intent.intent, approved));
      LogGrows(log, Approval(step, intent.intent, approved), env.parse);
      all := all + [Approval(step, intent.intent, approved)];
      if !approved {
        return all, FfiStepResult(false, None, Some(Denial(intent.intent)));
      }
      assert Answers(all, env.parse) == Answers(log, env.parse);
    }
    r := env.execute(step, intent.intent);
    LogKeeps(env, all, Executed(step, intent.intent, r));
    LogGrows(all, Executed(step, intent.intent, r), env.parse);
    all := all + [Executed(step, intent.intent, r)];
  }

  /** The runner's variables before step `step`: everything but the newest result has been fed. */
  ghost predicate Between(env: Environment, step: nat, session: Option<SessionState>, last: Option<FfiStepResult>,
                          log: seq<Event>) {
    var all := Answers(log, env.parse);
    && 1 <= step && |all| == step - 1
    && GoodLog(env, log)
    && (step == 1 ==> session.None? && last.None? && log == [])
    && (step > 1 ==>
          var fed := all[..step - 2];
          && session.Some? && last.Some? && log != []
          && IsRun(env.Start(), fed) && After(env.Start(), fed).status.Asks?
          && session.value == After(env.Start(), fed).session
          && all[step - 2] == ToStepResult(last.value, env.parse)
          && (Stops(log[|log| - 1]) <==> !last.value.ok))
  }

  /** Everything logged has been fed, and `outcome` is what the bridge said. */
  ghost predicate Fed(env: Environment, step: nat, log: seq<Event>, outcome: FfiStepOutcome) {
    var fed := Answers(log, env.parse);
    && GoodLog(env, log) && step == |fed| + 1
    && IsRun(env.Start(), fed) && outcome == ToOutcome(After(env.Start(), fed))
    && !After(env.Start(), fed).status.Waits?
    && (log != [] && Stops(log[|log| - 1]) ==> fed != [] && fed[|fed| - 1].StepErr?)
  }

  /** One call into the bridge feeds the newest result. */
  method CallBackend(env: Environment, ghost step: nat, session: Option<SessionState>, last: Option<FfiStepResult>,
                     ghost log: seq<Event>)
    returns (r: Result<FfiStepOutcome, string>)
    requires Between(env, step, session, last, log)
    ensures r.Ok? && Fed(env, step, log, r.value)
  {
    if step > 1 {
      StoppedTurn(env.Start(), Answers(log, env.parse));
    }
    r := FfiAgentStep(env, session, last);
  }

  lemma FedAsks(env: Environment, step: nat, log: seq<Event>, outcome: FfiStepOutcome)
    requires Fed(env, step, log, outcome)
    ensures outcome.status == "need_tool" || outcome.status == "complete"
    ensures outcome.status == "need_tool" ==>
              && outcome.intent.Some? && outcome.intent.value.kind == IntentToolName(outcome.intent.value.intent)
              && Asking(env, log, outcome.intent.value.intent)
  {
    assert "need_tool"[0] != "complete"[0] && "complete"[0] != "awaiting_approval"[0];
    if log != [] && Stops(log[|log| - 1]) {
      StoppedTurn(env.Start(), Answers(log, env.parse));
    }
  }

  /**
   The report on an answered run: the text is the completed session's answer; a denial or failure
   at the end of the log is the answer's "Error: ..." text; a run whose plan was exhausted used one
   step more than the final plan has.
   */
  ghost predicate GoodAnswer(env: Environment, maxSteps: nat, text: string, log: seq<Event>, s: SessionState) {
    var fed := Answers(log, env.parse);
    var t := After(env.Start(), fed);
    && |fed| < maxSteps && IsRun(env.Start(), fed) && t.status.Done? && s == t.session
    && text == (if s.accumulatedResponse.Some? then s.accumulatedResponse.value else "")
    && (log != [] && Stops(log[|log| - 1]) ==>
          fed != [] && fed[|fed| - 1].StepErr? && text == "Error: " + fed[|fed| - 1].message)
    && (s.stepIndex == |s.plan| ==> |fed| == |s.plan|)
  }

  /** The report on a run over budget: the budget was spent on answers, and the plan was not shorter. */
  ghost predicate OverBudget(env: Environment, maxSteps: nat, log: seq<Event>, s: SessionState) {
    var fed := Answers(log, env.parse);
    && 1 <= maxSteps == |fed|
    && IsRun(env.Start(), fed[..maxSteps - 1]) && After(env.Start(), fed[..maxSteps - 1]).status.Asks?
    && s == After(env.Start(), fed[..maxSteps - 1]).session
    && maxSteps <= |s.plan|
  }

  lemma FedCompletes(env: Environment, step: nat, maxSteps: nat, log: seq<Event>, outcome: FfiStepOutcome)
    requires Fed(env, step, log, outcome) && outcome.status == "complete" && step <= maxSteps
    ensures GoodAnswer(env, maxSteps, if outcome.finalAnswer.Some? then outcome.finalAnswer.value else "",
                     log, outcome.session)
  {
    assert "need_tool"[0] != "complete"[0] && "complete"[0] != "awaiting_approval"[0];
    var fed := Answers(log, env.parse);
    NothingPends(log, env.parse);
    AnswersAgainstPlan(env.Start(), fed);
    if log != [] && Stops(log[|log| - 1]) {
      StoppedTurn(env.Start(), fed);
    }
  }

  /** Without a denial or a failure every answer was Ok. */
  lemma {:induction false} NoStopsAnswers(log: seq<Event>, parse: string -> Option<Payload>)
    requires NoStops(log)
    ensures AllOk(Answers(log, parse))
  {
    if log != [] {
      NoStopsAnswers(log[..|log| - 1], parse);
    }
  }

  /** A completed run without a denial, a failure, a refusal or a guard has answered its whole plan. */
  lemma SmoothRunFits(env: Environment, maxSteps: nat, log: seq<Event>, outcome: FfiStepOutcome)
    requires GoodAnswer(env, maxSteps, if outcome.finalAnswer.Some? then outcome.finalAnswer.value else "",
                     log, outcome.session)
    ensures NoStops(log) && !Interrupted(env.Start(), Answers(log, env.parse)) ==> |outcome.session.plan| < maxSteps
  {
    if NoStops(log) {
      NoStopsAnswers(log, env.parse);
      CompletionCases(env.Start(), Answers(log, env.parse));
    }
  }

  lemma BudgetSpent(env: Environment, maxSteps: nat, session: Option<SessionState>, last: Option<FfiStepResult>,
                    log: seq<Event>)
    requires 1 <= maxSteps && Between(env, maxSteps + 1, session, last, log)
    ensures OverBudget(env, maxSteps, log, session.value)
  {
    NothingPends(log, env.parse);
    AnswersAgainstPlan(env.Start(), Answers(log, env.parse)[..maxSteps - 1]);
  }

  /** After performing the asked intent, the runner is between steps again. */
  lemma Performed(env: Environment, step: nat, log: seq<Event>, outcome: FfiStepOutcome, all: seq<Event>, r: FfiStepResult)
    requires Fed(env, step, log, outcome) && outcome.status == "need_tool" && outcome.intent.Some?
    requires GoodLog(env, all) && all != [] && (Stops(all[|all| - 1]) <==> !r.ok)
    requires Answers(all, env.parse) == Answers(log, env.parse) + [ToStepResult(r, env.parse)]
    ensures Between(env, step + 1, Some(outcome.session), Some(r), all)
  {
    assert Answers(all, env.parse)[..step - 1] == Answers(log, env.parse);
  }

  /**
   One request, start to finish, for any user and any executor. The run never misses an intent, never meets an unknown
   status or a backend error, and never waits for a Rust-side approval.
   */
  method Run(env: Environment, maxSteps: nat)
    returns (result: RunResult, log: seq<Event>, session: Option<SessionState>)
    requires 1 <= maxSteps
    ensures result.Answer? || result == StepLimitExceeded(maxSteps)
    ensures GoodLog(env, log) && session.Some? && Feeds(log, env.parse, Answers(log, env.parse))
    ensures result.Answer? ==> GoodAnswer(env, maxSteps, result.text, log, session.value)
    ensures result.StepLimitExceeded? ==> OverBudget(env, maxSteps, log, session.value)
    ensures NoStops(log) && !Interrupted(env.Start(), Answers(log, env.parse)) ==>
              (result.StepLimitExceeded? <==> |session.value.plan| >= maxSteps)
  {
    log, session := [], None;
    var last: Option<FfiStepResult> := None;
    var step := 1;
    while step <= maxSteps
      invariant 1 <= step <= maxSteps + 1
      invariant Between(env, step, session, last, log)
    {
      var backend := CallBackend(env, step, session, last, log);
      match backend {
        case Err(message) =>
          return BackendError(message), log, session;
        case Ok(outcome) =>
          FedAsks(env, step, log, outcome);
          session := Some(outcome.session);
          if outcome.status == "need_tool" {
            if outcome.intent.None? {
              return MissingIntent, log, session;
            }
            ghost var before := log;
            var r;
            log, r := Perform(env, step, outcome.intent.value, log);
            Performed(env, step, before, outcome, log, r);
            last := Some(r);
          } else if outcome.status == "complete" {
            FedCompletes(env, step, maxSteps, log, outcome);
            SmoothRunFits(env, maxSteps, log, outcome);
            LogFeeds(log, env.parse);
            return Answer(if outcome.finalAnswer.Some? then outcome.finalAnswer.value else ""), log, session;
          } else if outcome.status == "awaiting_approval" {
            assert false; // FfiStepResult cannot report a pending approval
          } else {
            return UnknownStatus(outcome.status), log, session;
          }
      }
      step := step + 1;
    }
    BudgetSpent(env, maxSteps, session, last, log);
    LogFeeds(log, env.parse);
    result := StepLimitExceeded(maxSteps);
  }

  /** A failing answer always completes the run, with its message. */
  lemma StoppedTurn(s0: SessionState, fed: seq<StepResult>)
    requires fed != []
    ensures fed[|fed| - 1].StepErr? ==>
              && After(s0, fed).status.Done?
              && After(s0, fed).session.accumulatedResponse == Some("Error: " + fed[|fed| - 1].message)
    ensures After(s0, fed).status.Waits? ==> fed[|fed| - 1].ApprovalPending?
  {
  }

  /** Every answer is one plan step: a run that exhausts its plan has answered exactly that many. */
  lemma AnswersAgainstPlan(s0: SessionState, fed: seq<StepResult>)
    requires Fresh(s0) && IsRun(s0, fed)
    requires forall i :: 0 <= i < |fed| ==> !fed[i].ApprovalPending?
    ensures var t := After(s0, fed);
            && (t.status.Done? && t.session.stepIndex == |t.session.plan| ==> |fed| == |t.session.plan|)
            && (t.status.Asks? ==> |fed| == t.session.stepIndex < |t.session.plan|)
  {
    AllAnswered(s0, fed);
    TracesAlign(s0, fed);
  }

  lemma {:induction false} NothingPends(log: seq<Event>, parse: string -> Option<Payload>)
    ensures forall i :: 0 <= i < |Answers(log, parse)| ==> !Answers(log, parse)[i].ApprovalPending?
  {
    if log != [] {
      NothingPends(log[..|log| - 1], parse);
    }
  }

  lemma {:induction false} AllAnswered(s0: SessionState, fed: seq<StepResult>)
    requires forall i :: 0 <= i < |fed| ==> !fed[i].ApprovalPending?
    ensures Answered(fed) == fed
  {
    if fed != [] {
      AllAnswered(s0, fed[..|fed| - 1]);
    }
  }
}
