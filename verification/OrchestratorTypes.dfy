/** Intents, results, traces and session state: oxcer-core/src/orchestrator/types.rs. */
module OrchestratorTypes {
  import opened Wrappers

  datatype Strategy = ToolsOnly | CheapModel | ExpensiveModel

  datatype ToolCallIntent =
    | FsListDir(workspaceId: string, workspaceRoot: string, relPath: string)
    | FsReadFile(workspaceId: string, workspaceRoot: string, relPath: string)
    | FsWriteFile(workspaceId: string, workspaceRoot: string, relPath: string, contentsBase64: string)
    | FsDelete(workspaceId: string, workspaceRoot: string, relPath: string)
    | FsRename(workspaceId: string, workspaceRoot: string, relPath: string, newRelPath: string)
    | FsMove(workspaceId: string, workspaceRoot: string, relPath: string,
             destWorkspaceRoot: string, destRelPath: string)
    | FsCreateDir(workspaceId: string, workspaceRoot: string, relPath: string)
    | ShellRun(workspaceRoot: string, commandId: string, params: string)
    | LlmGenerate(strategy: Strategy, task: string, systemHint: Option<string>)

  /** What the orchestrator reads out of a tool's JSON payload, and that payload's serialisation. */
  datatype Payload = Payload(text: Option<string>, sortedByModified: Option<seq<string>>, json: string)

  datatype StepResult =
    | StepOk(payload: Payload)
    | StepErr(message: string)
    | ApprovalPending(requestId: string)

  datatype ExpansionKind =
    | ReadAndSummarize(fileFilter: Option<string>)
    | MoveToDir(destWorkspaceId: string, destWorkspaceRoot: string, destRelDir: string,
                fileFilter: Option<string>)

  datatype PolicyDecision = Allow | Deny | RequireApproval

  datatype ToolTrace = ToolTrace(
    toolName: string, input: ToolCallIntent, policyDecision: Option<PolicyDecision>,
    approved: Option<bool>, resultSummary: Option<string>)

  datatype TaskState = Initial | Executing | Complete

  datatype SessionKind = Chat | Task

  datatype SessionState = SessionState(
    sessionId: string,
    taskDescription: string,
    state: TaskState,
    kind: SessionKind,
    plan: seq<ToolCallIntent>,
    stepIndex: nat,
    accumulatedResponse: Option<string>,
    toolTraces: seq<ToolTrace>,
    approvalsRequested: seq<string>,
    observations: seq<string>,
    confirmedRoot: Option<string>,
    lastDirListingSorted: seq<string>,
    contentAccumulator: seq<string>,
    pendingExpansion: Option<ExpansionKind>)

  datatype AgentTaskResult = AgentTaskResult(finalAnswer: Option<string>, toolTraces: seq<ToolTrace>)

  datatype OrchestratorAction =
    | Completed(response: string, session: SessionState)
    | ToolCall(intent: ToolCallIntent, session: SessionState)
    | AwaitingApproval(requestId: string, session: SessionState)

  function NewSession(sessionId: string, taskDescription: string): SessionState {
    SessionState(sessionId, taskDescription, Initial, Chat, [], 0, None, [], [], [], None, [], [], None)
  }

  function IntentToolName(intent: ToolCallIntent): string {
    match intent
    case FsListDir(_, _, _) => "fs_list_dir"
    case FsReadFile(_, _, _) => "fs_read_file"
    case FsWriteFile(_, _, _, _) => "fs_write_file"
    case FsDelete(_, _, _) => "fs_delete"
    case FsRename(_, _, _, _) => "fs_rename"
    case FsMove(_, _, _, _, _) => "fs_move"
    case FsCreateDir(_, _, _) => "fs_create_dir"
    case ShellRun(_, _, _) => "shell_run"
    case LlmGenerate(_, _, _) => "llm_generate"
  }

  function BuildToolTrace(intent: ToolCallIntent, result: StepResult): ToolTrace {
    match result
    case StepOk(payload) =>
      var summary :=
        if payload.text.Some? then payload.text.value
        else if |payload.json| > 200 then payload.json[..200] + "..." else payload.json;
      ToolTrace(IntentToolName(intent), intent, Some(Allow), Some(true), Some(summary))
    case StepErr(message) =>
      ToolTrace(IntentToolName(intent), intent, None, Some(false), Some(message))
    case ApprovalPending(_) =>
      ToolTrace(IntentToolName(intent), intent, Some(RequireApproval), None, None)
  }
}
