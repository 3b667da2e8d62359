/** The blocking driver `agent_request` of execution.rs. */
module AgentRequest {
  import opened Wrappers
  import opened OrchestratorTypes
  import opened Orchestrator
  import opened OrchestratorRuns

  datatype ToolOutcome = OutcomeOk(payload: Payload) | OutcomePending(requestId: string) | OutcomeErr(message: string)

  function IntoStepResult(o: ToolOutcome): StepResult {
    match o
    case OutcomeOk(payload) => StepOk(payload)
    case OutcomePending(id) => ApprovalPending(id)
    case OutcomeErr(message) => StepErr(message)
  }

  /** The shape of the loop between two steps: `last` is about to be fed to a live run. */
  ghost predicate Driving(s0: SessionState, fed: seq<StepResult>, last: StepResult, executions: nat, approvals: nat) {
    && Fresh(s0) && IsRun(s0, fed) && !After(s0, fed).status.Done?
    && executions == |Answered(fed)| + 1
    && approvals == |PendingIds(fed)|
    && approvals + (if last.ApprovalPending? then 1 else 0) <= executions
  }

  /** A step that does not complete moves `Driving` on; no step lets the executions pass the plan. */
  lemma DrivingStep(s0: SessionState, fed: seq<StepResult>, last: StepResult, executions: nat, approvals: nat)
    requires Driving(s0, fed, last, executions, approvals)
    ensures var t := After(s0, fed + [last]);
            && IsRun(s0, fed + [last]) && t == Step(After(s0, fed).session, last)
            && executions <= |t.session.plan|
            && (t.status.Done? ==>
                  && !last.ApprovalPending?
                  && approvals == |PendingIds(fed + [last])| && executions == |Answered(fed + [last])|)
            && (t.status.Asks? ==>
                  && executions + 1 <= |t.session.plan| && approvals <= executions
                  && Driving(s0, fed + [last], StepErr(""), executions + 1, approvals))
            && (t.status.Waits? ==>
                  && last.ApprovalPending?
                  && Driving(s0, fed + [last], StepErr(""), executions, approvals + 1))
  {
    assert (fed + [last])[..|fed|] == fed;
    TracesAlign(s0, fed + [last]);
    LiveSession(s0, fed);
    if last.ApprovalPending? {
      assert Answered(fed + [last]) == Answered(fed);
    } else {
      AnsweredSteps(fed + [last]);
      if last.StepOk? && !Blocked(After(s0, fed).session, last.payload) {
        EmitKeeps(Expanded(Applied(After(s0, fed).session, last.payload)));
      }
    }
  }

  /** What decreases: expansion pending, steps left, approval pending. */
  ghost predicate Progress(s: SessionState, u: SessionState, last: StepResult) {
    && s.stepIndex < |s.plan| && u.stepIndex < |u.plan|
    && (last.ApprovalPending? ==>
          u.plan == s.plan && u.stepIndex == s.stepIndex && u.pendingExpansion == s.pendingExpansion)
    && (!last.ApprovalPending? ==>
          && u.stepIndex == s.stepIndex + 1
          && ((u.plan == s.plan && u.pendingExpansion == s.pendingExpansion)
              || (s.pendingExpansion.Some? && u.pendingExpansion.None?)))
  }

  lemma StepCounts(s: SessionState, last: StepResult)
    requires s.stepIndex < |s.plan| && !Step(s, last).status.Done?
    ensures var u := Step(s, last).session;
            if last.ApprovalPending?
            then u.plan == s.plan && u.stepIndex == s.stepIndex && u.pendingExpansion == s.pendingExpansion
            else u.stepIndex == s.stepIndex + 1
  {
  }

  lemma AnswerMakesProgress(s0: SessionState, fed: seq<StepResult>, last: StepResult)
    requires Fresh(s0) && IsRun(s0, fed) && !After(s0, fed).status.Done? && !After(s0, fed + [last]).status.Done?
    ensures Progress(After(s0, fed).session, After(s0, fed + [last]).session, last)
  {
    var s := After(s0, fed).session;
    AfterOneMore(s0, fed, last);
    assert (fed + [last])[..|fed|] == fed;
    LiveHasStep(s0, fed);
    LiveHasStep(s0, fed + [last]);
    StepCounts(s, last);
    StepPlan(s, last);
  }

  type Executor = (nat, ToolCallIntent) -> Result<ToolOutcome, string>
  type Resolver = (nat, string) -> Result<Payload, string>

  /** Every result fed is the executor's own answer to the intent, or the resolver's to the request. */
  predicate Genuine(s0: SessionState, fed: seq<StepResult>, execute: Executor, resolve: Resolver) {
    fed == [] ||
    var front, r := fed[..|fed| - 1], fed[|fed| - 1];
    Genuine(s0, front, execute, resolve) && Answers(s0, front, execute, resolve) == Ok(r)
  }

  /** Success is success, pending is pending, failure is failure; an executor error ends the session. */
  function FromTool(tool: Result<ToolOutcome, string>): Result<StepResult, string> {
    match tool
    case Ok(OutcomeOk(payload)) => Ok(StepOk(payload))
    case Ok(OutcomePending(id)) => Ok(ApprovalPending(id))
    case Ok(OutcomeErr(message)) => Ok(StepErr(message))
    case Err(e) => Err(e)
  }

  function FromApproval(resolved: Result<Payload, string>): Result<StepResult, string> {
    match resolved
    case Ok(payload) => Ok(StepOk(payload))
    case Err(e) => Err(e)
  }

  /** What the executor or the resolver says next, after the results `fed`. */
  function Answers(s0: SessionState, fed: seq<StepResult>, execute: Executor, resolve: Resolver)
    : Result<StepResult, string>
  {
    match After(s0, fed).status
    case Asks(intent) => FromTool(execute(|Answered(fed)|, intent))
    case Waits(id) => if PendingIds(fed) == [] then Err("") else FromApproval(resolve(|PendingIds(fed)| - 1, id))
    case Done => Err("")
  }

  lemma GenuineGrows(s0: SessionState, fed: seq<StepResult>, r: StepResult, execute: Executor, resolve: Resolver)
    requires Genuine(s0, fed, execute, resolve) && Answers(s0, fed, execute, resolve) == Ok(r)
    ensures Genuine(s0, fed + [r], execute, resolve)
  {
    assert (fed + [r])[..|fed|] == fed;
  }

  /** The loop before an agent step: nothing has happened, or `last` is about to be fed. */
  ghost predicate Before(start: SessionState, s0: SessionState, now: SessionState, fed: seq<StepResult>,
                         last: Option<StepResult>, executions: nat, approvals: nat) {
    match last
    case None => executions == approvals == 0 && fed == [] && now == start
    case Some(l) =>
      && start.state == Initial && now == After(s0, fed).session
      && Driving(s0, fed, l, executions, approvals) && executions <= |now.plan|
  }

  /** A finished session: every execution was an answer, every approval a pending result. */
  ghost predicate Served(s0: SessionState, now: SessionState, fed: seq<StepResult>, r: AgentTaskResult,
                         executions: nat, approvals: nat) {
    && IsRun(s0, fed) && After(s0, fed).status.Done? && now == After(s0, fed).session
    && r == AgentTaskResult(now.accumulatedResponse, now.toolTraces)
    && approvals == |PendingIds(fed)| && executions == |Answered(fed)|
  }

  /** The loop after an agent step, by what the agent asks for. */
  ghost predicate Stepped(start: SessionState, s0: SessionState, now: SessionState, fed: seq<StepResult>,
                          outcome: AgentStepOutcome, executions: nat, approvals: nat) {
    && start.state == Initial && approvals <= executions <= |now.plan|
    && match outcome
       case TaskComplete(result) => Served(s0, now, fed, result, executions, approvals)
       case NeedTool(intent, _) =>
         && executions + 1 <= |now.plan| && now == After(s0, fed).session
         && After(s0, fed).status == Asks(intent)
         && Driving(s0, fed, StepErr(""), executions + 1, approvals)
       case NeedApproval(id, _) =>
         && now == After(s0, fed).session
         && After(s0, fed).status == Waits(id)
         && Driving(s0, fed, StepErr(""), executions, approvals + 1)
  }

  /** One turn of the loop: feed `last`. It fails only when the session was not new. */
  method Feed(session: AgentSession, task: string, plan: seq<ToolCallIntent>, expansion: Option<ExpansionKind>,
              last: Option<StepResult>, fed: seq<StepResult>, executions: nat, approvals: nat,
              ghost start: SessionState)
    returns (outcome: Result<AgentStepOutcome, string>, all: seq<StepResult>)
    requires Before(start, StartSession(start.sessionId, task, plan, expansion), session.state, fed, last,
                    executions, approvals)
    modifies session
    ensures outcome.Err? ==> start.state != Initial && last.None? && session.state == start
    ensures outcome.Ok? ==> Stepped(start, StartSession(start.sessionId, task, plan, expansion), session.state,
                                    all, outcome.value, executions, approvals)
    ensures outcome.Ok? && last.Some? && last.value.ApprovalPending? ==> outcome.value.NeedApproval?
    ensures outcome.Ok? ==> all == if last.Some? then fed + [last.value] else fed
    ensures outcome.Ok? && !outcome.value.TaskComplete? && last.Some? ==>
              Progress(old(session.state), session.state, last.value)
  {
    all := fed;
    outcome := session.AgentStep(task, plan, expansion, last);
    if last.Some? {
      ghost var s0 := StartSession(start.sessionId, task, plan, expansion);
      DrivingStep(s0, fed, last.value, executions, approvals);
      if !outcome.value.TaskComplete? {
        AnswerMakesProgress(s0, fed, last.value);
      }
      all := fed + [last.value];
    }
  }

  /** A tool result, pending or not, is ready to be fed. */
  lemma ToolIsReady(start: SessionState, s0: SessionState, now: SessionState, fed: seq<StepResult>,
                    outcome: AgentStepOutcome, executions: nat, approvals: nat, l: StepResult,
                    execute: Executor, resolve: Resolver)
    requires Stepped(start, s0, now, fed, outcome, executions, approvals) && outcome.NeedTool?
    ensures Answers(s0, fed, execute, resolve) == FromTool(execute(executions, outcome.intent))
    ensures executions + 1 <= |now.plan| && Before(start, s0, now, fed, Some(l), executions + 1, approvals)
  {
  }

  lemma ApprovalIsReady(start: SessionState, s0: SessionState, now: SessionState, fed: seq<StepResult>,
                        outcome: AgentStepOutcome, executions: nat, approvals: nat, l: StepResult,
                        execute: Executor, resolve: Resolver)
    requires Stepped(start, s0, now, fed, outcome, executions, approvals) && outcome.NeedApproval?
    requires !l.ApprovalPending?
    ensures Answers(s0, fed, execute, resolve) == FromApproval(resolve(approvals, outcome.requestId))
    ensures approvals + 1 <= executions && Before(start, s0, now, fed, Some(l), executions, approvals + 1)
  {
  }

  /** The other half of a turn: execute the intent, or resolve the approval, that the agent asks for. */
  method Obtain(outcome: AgentStepOutcome, executions: nat, approvals: nat, execute: Executor, resolve: Resolver,
                ghost start: SessionState, ghost s0: SessionState, ghost now: SessionState,
                ghost fed: seq<StepResult>)
    returns (r: Result<StepResult, string>, executions': nat, approvals': nat)
    requires Stepped(start, s0, now, fed, outcome, executions, approvals) && !outcome.TaskComplete?
    ensures r == Answers(s0, fed, execute, resolve)
    ensures executions' == executions + if outcome.NeedTool? then 1 else 0
    ensures approvals' == approvals + if outcome.NeedApproval? then 1 else 0
    ensures approvals' <= executions' <= |now.plan|
    ensures r.Ok? ==> Before(start, s0, now, fed, Some(r.value), executions', approvals')
    ensures r.Ok? && outcome.NeedApproval? ==> !r.value.ApprovalPending?
  {
    executions', approvals' := executions, approvals;
    match outcome {
      case NeedTool(intent, _) =>
        var tool := execute(executions, intent);
        executions' := executions + 1;
        r := match tool case Ok(result) => Ok(IntoStepResult(result)) case Err(e) => Err(e);
        ToolIsReady(start, s0, now, fed, outcome, executions, approvals, if r.Ok? then r.value else StepErr(""),
                    execute, resolve);
      case NeedApproval(id, _) =>
        var resolved := resolve(approvals, id);
        approvals' := approvals + 1;
        r := match resolved case Ok(payload) => Ok(StepOk(payload)) case Err(e) => Err(e);
        ApprovalIsReady(start, s0, now, fed, outcome, executions, approvals, if r.Ok? then r.value else StepErr(""),
                        execute, resolve);
    }
  }

  /**
   Runs a session to completion. `execute` and `resolve` stand for any executor; their first
   argument counts its calls. However it answers, the loop terminates, with at most one execution
   per plan step and at most one approval per execution, although the plan grows during the run.
   */
  method Request(session: AgentSession, task: string, plan: seq<ToolCallIntent>, expansion: Option<ExpansionKind>,
                 execute: Executor, resolve: Resolver)
    returns (r: Result<AgentTaskResult, string>, executions: nat, approvals: nat, fed: seq<StepResult>)
    modifies session
    ensures approvals <= executions <= |session.state.plan|
    ensures old(session.state).state != Initial ==> r.Err? && executions == 0 && session.state == old(session.state)
    ensures r.Ok? ==> Served(StartSession(old(session.state).sessionId, task, plan, expansion), session.state, fed,
                             r.value, executions, approvals)
    ensures old(session.state).state == Initial ==>
              var s0 := StartSession(old(session.state).sessionId, task, plan, expansion);
              Genuine(s0, fed, execute, resolve) && (r.Err? ==> Answers(s0, fed, execute, resolve) == Err(r.error))
  {
    ghost var start := session.state;
    ghost var s0 := StartSession(start.sessionId, task, plan, expansion);
    executions, approvals, fed := 0, 0, [];
    var last: Option<StepResult> := None;
    while true
      invariant Before(start, s0, session.state, fed, last, executions, approvals)
      invariant last.Some? ==> Genuine(s0, fed + [last.value], execute, resolve)
      decreases last.None?,
                session.state.pendingExpansion.Some?,
                |session.state.plan| - session.state.stepIndex,
                last.Some? && last.value.ApprovalPending?
    {
      var outcome;
      outcome, fed := Feed(session, task, plan, expansion, last, fed, executions, approvals, start);
      if outcome.Err? {
        return Err(outcome.error), executions, approvals, fed;
      }
      if outcome.value.TaskComplete? {
        return Ok(outcome.value.result), executions, approvals, fed;
      }
      var answer;
      answer, executions, approvals :=
        Obtain(outcome.value, executions, approvals, execute, resolve, start, s0, session.state, fed);
      if answer.Err? {
        return Err(answer.error), executions, approvals, fed;
      }
      GenuineGrows(s0, fed, answer.value, execute, resolve);
      last := Some(answer.value);
    }
  }
}
