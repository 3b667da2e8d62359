/**
 Whole runs of the orchestrator: from `start_session` through any sequence of step results up to
 the first completion. The central result, `LiveSession`, gives the session of a run in closed
 form; trace alignment, the single plan expansion, the provenance of prompts and the stuttering of
 approvals all follow from it.
 */
module OrchestratorRuns {
  import opened Wrappers
  import opened Text
  import opened Filling
  import opened OrchestratorTypes
  import opened Orchestrator

  /** A session as `start_session` leaves it. */
  ghost predicate Fresh(s: SessionState) {
    s == StartSession(s.sessionId, s.taskDescription, s.plan, s.pendingExpansion)
  }

  function After(s0: SessionState, rs: seq<StepResult>): Turn {
    if rs == [] then Begin(s0) else Step(After(s0, rs[..|rs| - 1]).session, rs[|rs| - 1])
  }

  /** `rs` is fed one by one, and no result is fed after a completion. */
  predicate IsRun(s0: SessionState, rs: seq<StepResult>) {
    rs == [] || (IsRun(s0, rs[..|rs| - 1]) && !After(s0, rs[..|rs| - 1]).status.Done?)
  }

  // ---------------------------------------------------------------- the closed form

  function Answered(rs: seq<StepResult>): seq<StepResult> {
    if rs == [] then []
    else Answered(rs[..|rs| - 1]) + if rs[|rs| - 1].ApprovalPending? then [] else [rs[|rs| - 1]]
  }

  function PendingIds(rs: seq<StepResult>): seq<string> {
    if rs == [] then []
    else PendingIds(rs[..|rs| - 1]) + if rs[|rs| - 1].ApprovalPending? then [rs[|rs| - 1].requestId] else []
  }

  predicate AllOk(a: seq<StepResult>) {
    forall i :: 0 <= i < |a| ==> a[i].StepOk?
  }

  /** One past the first `FsListDir` of a plan. */
  function ListingEnd(plan: seq<ToolCallIntent>): (k: Option<nat>)
    ensures k.Some? ==> 0 < k.value <= |plan| && plan[k.value - 1].FsListDir?
    ensures k.Some? ==> forall i :: 0 <= i < k.value - 1 ==> !plan[i].FsListDir?
    ensures k.None? ==> forall i :: 0 <= i < |plan| ==> !plan[i].FsListDir?
  {
    if plan == [] then None
    else if plan[0].FsListDir? then Some(1)
    else match ListingEnd(plan[1..]) case None => None case Some(k) => Some(k + 1)
  }

  /** The newest directory listing that the answers report. */
  function Listing(a: seq<StepResult>): seq<string>
    requires AllOk(a)
  {
    if a == [] then []
    else
      var p := a[|a| - 1].payload;
      if p.sortedByModified.Some? then p.sortedByModified.value else Listing(a[..|a| - 1])
  }

  /** The root of the first listing or read among the first `n` steps. */
  function Root(plan: seq<ToolCallIntent>, n: nat): Option<string>
    requires n <= |plan|
  {
    if n == 0 then None
    else
      var earlier := Root(plan, n - 1);
      if earlier.None? && (plan[n - 1].FsListDir? || plan[n - 1].FsReadFile?)
      then Some(plan[n - 1].workspaceRoot) else earlier
  }

  function LastReport(a: seq<StepResult>): Option<string>
    requires AllOk(a)
  {
    if a == [] then None else Some(Reported(a[|a| - 1].payload))
  }

  /** The texts that the `FsReadFile` steps returned, in order. */
  function ReadTexts(plan: seq<ToolCallIntent>, a: seq<StepResult>): seq<string>
    requires AllOk(a) && |a| <= |plan|
  {
    if a == [] then []
    else
      var i := |a| - 1;
      ReadTexts(plan, a[..i]) +
      if plan[i].FsReadFile? && a[i].payload.text.Some? then [a[i].payload.text.value] else []
  }

  function Traces(plan: seq<ToolCallIntent>, a: seq<StepResult>): seq<ToolTrace>
    requires |a| <= |plan|
  {
    seq(|a|, i requires 0 <= i < |a| => BuildToolTrace(plan[i], a[i]))
  }

  /** The expansion has been applied once the first listing has been answered. */
  predicate HasExpanded(s0: SessionState, a: seq<StepResult>) {
    s0.pendingExpansion.Some? && ListingEnd(s0.plan).Some? && ListingEnd(s0.plan).value <= |a|
  }

  /** The plan is the original one with the expansion spliced in right after the first listing. */
  function PlanAfter(s0: SessionState, a: seq<StepResult>): seq<ToolCallIntent>
    requires AllOk(a)
  {
    if HasExpanded(s0, a) then
      var k := ListingEnd(s0.plan).value;
      var e := s0.pendingExpansion.value;
      var root := Root(s0.plan, k);
      var names := Selection(e, Listing(a[..k]));
      Spliced(s0.plan, k, Preparation(e) +
              FileSteps(e, s0.plan[k - 1].workspaceId, if root.Some? then root.value else "", names))
    else s0.plan
  }

  function ClosedForm(s0: SessionState, a: seq<StepResult>, ids: seq<string>): SessionState
    requires AllOk(a) && |a| <= |PlanAfter(s0, a)|
  {
    var plan := PlanAfter(s0, a);
    s0.(plan := plan,
        stepIndex := |a|,
        accumulatedResponse := LastReport(a),
        toolTraces := Traces(plan, a),
        approvalsRequested := ids,
        confirmedRoot := Root(plan, |a|),
        lastDirListingSorted := Listing(a),
        contentAccumulator := ReadTexts(plan, a),
        pendingExpansion := if HasExpanded(s0, a) then None else s0.pendingExpansion)
  }

  // ---------------------------------------------------------------- one answer extends the closed form

  lemma {:induction false} RootOfPrefix(p: seq<ToolCallIntent>, q: seq<ToolCallIntent>, n: nat)
    requires n <= |p| && n <= |q| && p[..n] == q[..n]
    ensures Root(p, n) == Root(q, n)
  {
    if n > 0 {
      assert p[..n - 1] == p[..n][..n - 1] == q[..n][..n - 1] == q[..n - 1];
      assert p[n - 1] == p[..n][n - 1] == q[..n][n - 1] == q[n - 1];
      RootOfPrefix(p, q, n - 1);
    }
  }

  lemma {:induction false} ReadTextsOfPrefix(p: seq<ToolCallIntent>, q: seq<ToolCallIntent>, a: seq<StepResult>)
    requires AllOk(a) && |a| <= |p| && |a| <= |q| && p[..|a|] == q[..|a|]
    ensures ReadTexts(p, a) == ReadTexts(q, a)
  {
    if a != [] {
      var i := |a| - 1;
      assert p[..i] == p[..|a|][..i] == q[..|a|][..i] == q[..i];
      assert p[i] == p[..|a|][i] == q[..|a|][i] == q[i];
      ReadTextsOfPrefix(p, q, a[..i]);
    }
  }

  /** Answering one more step leaves the plan up to that step alone. */
  lemma PlanKeepsPrefix(s0: SessionState, a: seq<StepResult>, r: StepResult)
    requires AllOk(a) && r.StepOk? && |a| < |PlanAfter(s0, a)|
    ensures |a| < |PlanAfter(s0, a + [r])|
    ensures PlanAfter(s0, a + [r])[..|a| + 1] == PlanAfter(s0, a)[..|a| + 1]
  {
    if HasExpanded(s0, a) {
      var k := ListingEnd(s0.plan).value;
      assert (a + [r])[..k] == a[..k];
    }
  }

  /** Answering `plan[|a|]` is what completes the first listing exactly when it is that listing. */
  lemma ExpandsNow(s0: SessionState, a: seq<StepResult>, r: StepResult)
    requires s0.pendingExpansion.Some? && !HasExpanded(s0, a) && |a| < |s0.plan|
    ensures HasExpanded(s0, a + [r]) <==> s0.plan[|a|].FsListDir?
    ensures HasExpanded(s0, a + [r]) ==> ListingEnd(s0.plan) == Some(|a| + 1)
  {
  }

  lemma PlanStaysExpanded(s0: SessionState, a: seq<StepResult>, r: StepResult)
    requires AllOk(a) && r.StepOk? && HasExpanded(s0, a)
    ensures HasExpanded(s0, a + [r]) && PlanAfter(s0, a + [r]) == PlanAfter(s0, a)
  {
    var k := ListingEnd(s0.plan).value;
    assert (a + [r])[..k] == a[..k];
  }

  /** The root and the listing that an answer leaves are those of the closed form. */
  lemma RootAndListing(s0: SessionState, a: seq<StepResult>, ids: seq<string>, p: Payload)
    requires Fresh(s0) && AllOk(a) && |a| < |PlanAfter(s0, a)|
    ensures var u := Applied(ClosedForm(s0, a, ids), p);
            && u.stepIndex == |a| + 1 && u.plan == PlanAfter(s0, a)
            && u.pendingExpansion == (if HasExpanded(s0, a) then None else s0.pendingExpansion)
            && u.confirmedRoot == Root(PlanAfter(s0, a), |a| + 1)
            && u.lastDirListingSorted == Listing(a + [StepOk(p)])
  {
    assert (a + [StepOk(p)])[..|a|] == a;
  }

  /** `u` is where answering `plan[|a|]` leaves an unexpanded session. */
  predicate Pending(s0: SessionState, a: seq<StepResult>, r: StepResult, u: SessionState) {
    && AllOk(a) && r.StepOk? && |a| < |s0.plan|
    && s0.pendingExpansion.Some? && !HasExpanded(s0, a)
    && u.stepIndex == |a| + 1 && u.plan == s0.plan && u.pendingExpansion == s0.pendingExpansion
    && u.confirmedRoot == Root(s0.plan, |a| + 1) && u.lastDirListingSorted == Listing(a + [r])
  }

  lemma NotYetListed(s0: SessionState, a: seq<StepResult>, r: StepResult, u: SessionState)
    requires Pending(s0, a, r, u) && !s0.plan[|a|].FsListDir?
    ensures Expanded(u) == u && !HasExpanded(s0, a + [r]) && PlanAfter(s0, a + [r]) == s0.plan
  {
    ExpandsNow(s0, a, r);
    assert JustDone(u) == |a|;
  }

  lemma NowListed(s0: SessionState, a: seq<StepResult>, r: StepResult, u: SessionState)
    requires Pending(s0, a, r, u) && s0.plan[|a|].FsListDir?
    ensures HasExpanded(s0, a + [r]) && Expanded(u).pendingExpansion.None?
    ensures Expanded(u).plan == PlanAfter(s0, a + [r])
  {
    ExpandsNow(s0, a, r);
    var b, k, e := a + [r], |a| + 1, s0.pendingExpansion.value;
    assert b[..k] == b;
    assert JustDone(u) == |a| && JustListed(u);
    var root := Root(s0.plan, k);
    var steps := Preparation(e) + FileSteps(e, s0.plan[k - 1].workspaceId, if root.Some? then root.value else "",
                                            Selection(e, Listing(b)));
    assert ExpansionSteps(e, u) == steps;
    assert PlanAfter(s0, b) == Spliced(s0.plan, k, steps);
  }

  /** Applying an answer and expanding, on a session in closed form. */
  lemma PlanSteps(s0: SessionState, a: seq<StepResult>, ids: seq<string>, p: Payload)
    requires Fresh(s0) && AllOk(a) && |a| < |PlanAfter(s0, a)|
    ensures var s := Expanded(Applied(ClosedForm(s0, a, ids), p));
            var b := a + [StepOk(p)];
            && s.plan == PlanAfter(s0, b)
            && s.pendingExpansion == if HasExpanded(s0, b) then None else s0.pendingExpansion
  {
    var u := Applied(ClosedForm(s0, a, ids), p);
    RootAndListing(s0, a, ids, p);
    if HasExpanded(s0, a) {
      PlanStaysExpanded(s0, a, StepOk(p));
    } else if s0.pendingExpansion.Some? {
      if s0.plan[|a|].FsListDir? {
        NowListed(s0, a, StepOk(p), u);
      } else {
        NotYetListed(s0, a, StepOk(p), u);
      }
    }
  }

  /** The parts of the closed form that read the plan, one answer later. */
  lemma RecordSteps(s0: SessionState, a: seq<StepResult>, p: Payload)
    requires AllOk(a) && |a| < |PlanAfter(s0, a)|
    ensures var b := a + [StepOk(p)]; var before, after := PlanAfter(s0, a), PlanAfter(s0, b);
            && |b| <= |after|
            && Traces(after, b) == Traces(before, a) + [BuildToolTrace(before[|a|], StepOk(p))]
            && Root(after, |b|) == Root(before, |b|)
            && ReadTexts(after, b) == ReadTexts(before, b)
  {
    var b := a + [StepOk(p)];
    var before, after := PlanAfter(s0, a), PlanAfter(s0, b);
    PlanKeepsPrefix(s0, a, StepOk(p));
    RootOfPrefix(before, after, |b|);
    ReadTextsOfPrefix(before, after, b);
    forall i | 0 <= i < |b| ensures before[i] == after[i] {
      assert before[i] == before[..|b|][i] == after[..|b|][i];
    }
    assert Traces(after, b) == Traces(before, a) + [BuildToolTrace(before[|a|], StepOk(p))];
  }

  lemma ClosedFormStep(s0: SessionState, a: seq<StepResult>, ids: seq<string>, p: Payload)
    requires Fresh(s0) && AllOk(a) && |a| < |PlanAfter(s0, a)|
    ensures var b := a + [StepOk(p)];
            |b| <= |PlanAfter(s0, b)| && Expanded(Applied(ClosedForm(s0, a, ids), p)) == ClosedForm(s0, b, ids)
  {
    var b := a + [StepOk(p)];
    PlanSteps(s0, a, ids, p);
    RecordSteps(s0, a, p);
    AppliedFields(ClosedForm(s0, a, ids), p);
    assert b[..|a|] == a;
  }

  /** Expanding after an answer changes only the plan and the pending expansion. */
  lemma AppliedFields(s: SessionState, p: Payload)
    requires s.stepIndex < |s.plan|
    ensures var u := Expanded(Applied(s, p)); var here := s.plan[s.stepIndex];
            u == s.(plan := u.plan, pendingExpansion := u.pendingExpansion,
                    stepIndex := s.stepIndex + 1,
                    accumulatedResponse := Some(Reported(p)),
                    toolTraces := s.toolTraces + [BuildToolTrace(here, StepOk(p))],
                    confirmedRoot :=
                      if s.confirmedRoot.None? && (here.FsListDir? || here.FsReadFile?)
                      then Some(here.workspaceRoot) else s.confirmedRoot,
                    lastDirListingSorted :=
                      if p.sortedByModified.Some? then p.sortedByModified.value else s.lastDirListingSorted,
                    contentAccumulator :=
                      s.contentAccumulator + if here.FsReadFile? && p.text.Some? then [p.text.value] else [])
  {
  }

  /** What a step that does not complete leaves. */
  lemma LiveStep(s: SessionState, r: StepResult)
    requires s.stepIndex < |s.plan| && !Step(s, r).status.Done?
    ensures !r.StepErr?
    ensures r.StepOk? ==>
              var u := Expanded(Applied(s, r.payload)); Step(s, r).session == u && u.stepIndex < |u.plan|
    ensures r.ApprovalPending? ==>
              Step(s, r).session == s.(approvalsRequested := s.approvalsRequested + [r.requestId])
  {
    if r.StepOk? {
      EmitKeeps(Expanded(Applied(s, r.payload)));
    }
  }

  /**
   While a run has not completed, its session is exactly the closed form: every answer so far was
   Ok, and plan, counter, traces, listing, root, contents and approvals are the functions above of
   the answers and the approval ids.
   */
  lemma {:induction false} LiveSession(s0: SessionState, rs: seq<StepResult>)
    requires Fresh(s0) && IsRun(s0, rs) && !After(s0, rs).status.Done?
    ensures AllOk(Answered(rs)) && |Answered(rs)| < |PlanAfter(s0, Answered(rs))|
    ensures After(s0, rs).session == ClosedForm(s0, Answered(rs), PendingIds(rs))
  {
    if rs == [] {
      assert Traces(s0.plan, []) == [];
    } else {
      var before, r := rs[..|rs| - 1], rs[|rs| - 1];
      LiveSession(s0, before);
      LiveStep(After(s0, before).session, r);
      var a := Answered(before);
      if r.StepOk? {
        ClosedFormStep(s0, a, PendingIds(before), r.payload);
        assert PendingIds(rs) == PendingIds(before);
      } else {
        assert Answered(rs) == a;
      }
    }
  }

  // ---------------------------------------------------------------- how a run ends

  /** The answers without the failing one that may end a run. */
  function Oks(a: seq<StepResult>): seq<StepResult> {
    if a != [] && a[|a| - 1].StepErr? then a[..|a| - 1] else a
  }

  lemma AnsweredSteps(rs: seq<StepResult>)
    requires rs != [] && !rs[|rs| - 1].ApprovalPending?
    ensures Answered(rs) == Answered(rs[..|rs| - 1]) + [rs[|rs| - 1]]
    ensures PendingIds(rs) == PendingIds(rs[..|rs| - 1])
  {
  }

  /** Tracing an answer appends its trace. */
  lemma TracesGrow(plan: seq<ToolCallIntent>, a: seq<StepResult>, r: StepResult)
    requires |a| < |plan|
    ensures Traces(plan, a + [r]) == Traces(plan, a) + [BuildToolTrace(plan[|a|], r)]
  {
  }

  /** What a completing step leaves: one more trace, and the plan up to that step. */
  lemma DoneStep(s: SessionState, r: StepResult)
    requires s.stepIndex < |s.plan| && Step(s, r).status.Done?
    ensures var u, n := Step(s, r).session, s.stepIndex + 1;
            && !r.ApprovalPending?
            && u.toolTraces == s.toolTraces + [BuildToolTrace(s.plan[s.stepIndex], r)]
            && s.stepIndex <= u.stepIndex <= n
            && u.approvalsRequested == s.approvalsRequested && u.kind == s.kind
            && n <= |u.plan| && u.plan[..n] == s.plan[..n]
  {
    match r {
      case ApprovalPending(_) =>
      case StepErr(m) => assert Step(s, r).session == Failed(s, m).session;
      case StepOk(p) =>
        if Blocked(s, p) {
          assert Step(s, r).session == Refused(s, p).session;
        } else {
          EmitKeeps(Expanded(Applied(s, p)));
        }
    }
  }

  lemma TracesOfPrefix(p: seq<ToolCallIntent>, q: seq<ToolCallIntent>, a: seq<StepResult>)
    requires |a| <= |p| && |a| <= |q| && p[..|a|] == q[..|a|]
    ensures Traces(p, a) == Traces(q, a)
  {
    forall i | 0 <= i < |a| ensures p[i] == q[i] {
      assert p[i] == p[..|a|][i] == q[..|a|][i];
    }
  }

  /** The traces of a session record its answers against its plan, one trace per answer. */
  ghost predicate Aligned(s: SessionState, a: seq<StepResult>) {
    |a| <= |s.plan| && s.toolTraces == Traces(s.plan, a)
  }

  lemma DoneAlign(s0: SessionState, rs: seq<StepResult>)
    requires Fresh(s0) && rs != [] && IsRun(s0, rs) && After(s0, rs).status.Done?
    ensures var s := After(s0, rs).session;
            && Aligned(s, Answered(rs))
            && (|s.toolTraces| == s.stepIndex || |s.toolTraces| == s.stepIndex + 1)
            && s.approvalsRequested == PendingIds(rs) && s.kind == s0.kind
  {
    var before, r := rs[..|rs| - 1], rs[|rs| - 1];
    LiveSession(s0, before);
    var a, s, u := Answered(before), After(s0, before).session, After(s0, rs).session;
    DoneStep(s, r);
    AnsweredSteps(rs);
    TracesGrow(s.plan, a, r);
    TracesOfPrefix(s.plan, u.plan, a + [r]);
  }

  /**
   Traces stay aligned with a plan that grows during the run: trace i records answer i of plan step
   i, one trace per answer, in every state of every run.
   */
  lemma TracesAlign(s0: SessionState, rs: seq<StepResult>)
    requires Fresh(s0) && IsRun(s0, rs)
    ensures var t := After(s0, rs); var s, a := t.session, Answered(rs);
            && Aligned(s, a)
            && (forall i :: 0 <= i < |a| ==> s.toolTraces[i].toolName == IntentToolName(s.plan[i]))
            && (!t.status.Done? ==> |s.toolTraces| == s.stepIndex < |s.plan|)
            && (t.status.Done? ==> |s.toolTraces| == s.stepIndex || |s.toolTraces| == s.stepIndex + 1)
            && s.approvalsRequested == PendingIds(rs)
            && s.kind == s0.kind
  {
    if !After(s0, rs).status.Done? {
      LiveSession(s0, rs);
    } else if rs == [] {
      assert Traces(s0.plan, []) == [];
    } else {
      DoneAlign(s0, rs);
    }
  }

  /**
   The plan and the texts that a completing step leaves. A refused step is neither a listing nor a
   read, so it splices and adds nothing.
   */
  lemma DonePlan(s: SessionState, r: StepResult)
    requires s.stepIndex < |s.plan| && Step(s, r).status.Done? && !r.ApprovalPending?
    ensures Step(s, r).session.plan ==
            match r
            case StepOk(p) => Expanded(Applied(s, p)).plan
            case StepErr(_) => s.plan
            case ApprovalPending(_) => []
    ensures Step(s, r).session.contentAccumulator ==
            if r.StepOk? then Expanded(Applied(s, r.payload)).contentAccumulator else s.contentAccumulator
  {
    if r.StepOk? {
      if Blocked(s, r.payload) {
        assert !JustListed(Applied(s, r.payload));
        assert Step(s, r).session == Refused(s, r.payload).session;
      } else {
        EmitKeeps(Expanded(Applied(s, r.payload)));
      }
    } else {
      assert Step(s, r).session == Failed(s, r.message).session;
    }
  }

  lemma PlanOfLastStep(s0: SessionState, a: seq<StepResult>, ids: seq<string>, r: StepResult)
    requires Fresh(s0) && AllOk(a) && |a| < |PlanAfter(s0, a)| && !r.ApprovalPending?
    requires Step(ClosedForm(s0, a, ids), r).status.Done?
    ensures var b, u := Oks(a + [r]), Step(ClosedForm(s0, a, ids), r).session;
            && AllOk(b) && u.plan == PlanAfter(s0, b)
            && |b| <= |u.plan| && u.contentAccumulator == ReadTexts(u.plan, b)
  {
    DonePlan(ClosedForm(s0, a, ids), r);
    assert (a + [r])[..|a|] == a;
    if r.StepOk? {
      ClosedFormStep(s0, a, ids, r.payload);
    }
  }

  /**
   The plan of every run is the original one, with at most one expansion spliced in directly after
   its first directory listing.
   */
  lemma PlanExpandsOnce(s0: SessionState, rs: seq<StepResult>)
    requires Fresh(s0) && IsRun(s0, rs)
    ensures var a := Oks(Answered(rs)); AllOk(a) && After(s0, rs).session.plan == PlanAfter(s0, a)
  {
    PlanAndTexts(s0, rs);
  }

  /** In every state of every run, the collected texts are those of the successful reads, in order. */
  lemma TextsAreRead(s0: SessionState, rs: seq<StepResult>)
    requires Fresh(s0) && IsRun(s0, rs)
    ensures var a, s := Oks(Answered(rs)), After(s0, rs).session;
            AllOk(a) && |a| <= |s.plan| && s.contentAccumulator == ReadTexts(s.plan, a)
  {
    PlanAndTexts(s0, rs);
  }

  lemma PlanAndTexts(s0: SessionState, rs: seq<StepResult>)
    requires Fresh(s0) && IsRun(s0, rs)
    ensures var a, s := Oks(Answered(rs)), After(s0, rs).session;
            && AllOk(a) && s.plan == PlanAfter(s0, a)
            && |a| <= |s.plan| && s.contentAccumulator == ReadTexts(s.plan, a)
  {
    if !After(s0, rs).status.Done? {
      LiveSession(s0, rs);
    } else if rs != [] {
      var before, r := rs[..|rs| - 1], rs[|rs| - 1];
      LiveSession(s0, before);
      DoneStep(After(s0, before).session, r);
      AnsweredSteps(rs);
      PlanOfLastStep(s0, Answered(before), PendingIds(before), r);
    }
  }

  // ---------------------------------------------------------------- why a run completed

  /** A guard stands before the next step: unmet data preconditions, or no recent file to resolve. */
  predicate Guarded(s: SessionState) {
    && s.stepIndex < |s.plan|
    && ((s.kind == Task && CheckLlmGeneratePrecondition(s, s.stepIndex).Some?)
        || (WantsRecent(s.plan[s.stepIndex]) && s.lastDirListingSorted == []))
  }

  /** The last answer was a success that the sanitizer refused, or that led to a guard. */
  predicate Interrupted(s0: SessionState, rs: seq<StepResult>) {
    rs != [] &&
    var s, r := After(s0, rs[..|rs| - 1]).session, rs[|rs| - 1];
    r.StepOk? && (Blocked(s, r.payload) || Guarded(Expanded(Applied(s, r.payload))))
  }

  /** Which text a guard answers with: no file was read, no text was reported, or nothing was listed. */
  predicate ExplainsGuard(u: SessionState, text: string) {
    u.stepIndex < |u.plan| &&
    var next := u.plan[u.stepIndex];
    if next.FsReadFile? then text == NO_RECENT_FILE_ERROR
    else if next.LlmGenerate? && Contains(next.task, "{{FILE_CONTENTS}}") && u.contentAccumulator == []
    then text == NO_CONTENTS_ERROR
    else text == NO_TEXT_ERROR
  }

  /** Which text an interrupted run answers with. */
  predicate ExplainsRefusal(s: SessionState, p: Payload, text: string) {
    if Blocked(s, p) then text == NARRATION_ERROR else ExplainsGuard(Expanded(Applied(s, p)), text)
  }

  /** What an operator can read about the last step. */
  predicate Noted(s: SessionState, r: StepResult, u: SessionState) {
    u.observations == s.observations +
      if r.StepErr? then ["Step failed: " + r.message]
      else if r.StepOk? && Blocked(s, r.payload) then ["LlmGenerate sanitizer blocked narration: " + NARRATION_ERROR]
      else []
  }

  lemma EmitCases(s: SessionState)
    requires s.stepIndex <= |s.plan| && s.accumulatedResponse.Some?
    ensures var e := Emit(s);
            && (e.Completed? <==> s.stepIndex == |s.plan| || Guarded(s))
            && (e.Completed? ==>
                  && e.session.accumulatedResponse.Some?
                  && e.session.state == Complete
                  && if Guarded(s) then ExplainsGuard(s, e.session.accumulatedResponse.value)
                     else e.session.accumulatedResponse == s.accumulatedResponse)
  {
  }

  lemma AppliedIndex(s: SessionState, p: Payload)
    requires s.stepIndex < |s.plan|
    ensures var u := Expanded(Applied(s, p));
            u.stepIndex == s.stepIndex + 1 <= |u.plan| && u.accumulatedResponse == Some(Reported(p))
  {
  }

  /** The last step of a completed run. */
  lemma LastStep(s: SessionState, r: StepResult)
    requires s.stepIndex < |s.plan| && Step(s, r).status.Done?
    ensures var u := Step(s, r).session;
            && !r.ApprovalPending? && u.accumulatedResponse.Some? && u.state == Complete && Noted(s, r, u)
            && match r
               case StepErr(m) => u.stepIndex < |u.plan| && u.accumulatedResponse.value == "Error: " + m
               case ApprovalPending(_) => false
               case StepOk(p) =>
                 if Blocked(s, p) || Guarded(Expanded(Applied(s, p)))
                 then u.stepIndex < |u.plan| && ExplainsRefusal(s, p, u.accumulatedResponse.value)
                 else u.stepIndex == |u.plan| && u.accumulatedResponse.value == Reported(p)
  {
    match r {
      case ApprovalPending(_) =>
      case StepErr(m) => assert Step(s, r).session == Failed(s, m).session;
      case StepOk(p) =>
        if Blocked(s, p) {
          assert Step(s, r).session == Refused(s, p).session;
        } else {
          AppliedIndex(s, p);
          EmitCases(Expanded(Applied(s, p)));
          EmitKeeps(Expanded(Applied(s, p)));
        }
    }
  }

  /**
   A completed run has exhausted its plan exactly when its last answer neither failed, nor was
   refused, nor led to a guard. It then answers with its last report; a failure answers with its
   message, and a refusal or a guard with its own text.
   */
  lemma CompletionCases(s0: SessionState, rs: seq<StepResult>)
    requires Fresh(s0) && IsRun(s0, rs) && After(s0, rs).status.Done?
    ensures var s := After(s0, rs).session;
            && (s.stepIndex == |s.plan| <==> (rs == [] || rs[|rs| - 1].StepOk?) && !Interrupted(s0, rs))
            && (rs != [] ==>
                  && s.accumulatedResponse.Some? && s.state == Complete
                  && Noted(After(s0, rs[..|rs| - 1]).session, rs[|rs| - 1], s)
                  && match rs[|rs| - 1]
                     case StepErr(m) => s.accumulatedResponse.value == "Error: " + m
                     case ApprovalPending(_) => false
                     case StepOk(p) =>
                       if Interrupted(s0, rs)
                       then ExplainsRefusal(After(s0, rs[..|rs| - 1]).session, p, s.accumulatedResponse.value)
                       else ReportedAs(p, s.accumulatedResponse.value))
  {
    if rs != [] {
      LiveHasStep(s0, rs[..|rs| - 1]);
      LastStep(After(s0, rs[..|rs| - 1]).session, rs[|rs| - 1]);
    }
  }

  // ---------------------------------------------------------------- when the plan moves

  /** The plan moves from `s` to `u` only by splicing the pending expansion in after a listing. */
  predicate SplicedAfterListing(s: SessionState, r: StepResult, u: SessionState)
    requires s.stepIndex < |s.plan|
  {
    && r.StepOk? && s.plan[s.stepIndex].FsListDir?
    && s.pendingExpansion.Some? && u.pendingExpansion.None?
    && var steps, next := ExpansionSteps(s.pendingExpansion.value, Applied(s, r.payload)), s.stepIndex + 1;
       u.plan == s.plan[..next] + steps + s.plan[next..]
  }

  lemma LiveHasStep(s0: SessionState, rs: seq<StepResult>)
    requires Fresh(s0) && IsRun(s0, rs) && !After(s0, rs).status.Done?
    ensures After(s0, rs).session.stepIndex < |After(s0, rs).session.plan|
  {
    LiveSession(s0, rs);
  }

  lemma AfterOneMore(s0: SessionState, rs: seq<StepResult>, r: StepResult)
    ensures After(s0, rs + [r]) == Step(After(s0, rs).session, r)
    ensures IsRun(s0, rs + [r]) ==> IsRun(s0, rs) && !After(s0, rs).status.Done?
  {
    assert (rs + [r])[..|rs + [r]| - 1] == rs;
  }

  /** A step changes the plan only as the answer to a listing, and uses up the expansion. */
  lemma ExpansionFollowsListing(s0: SessionState, rs: seq<StepResult>, r: StepResult)
    requires Fresh(s0) && IsRun(s0, rs + [r])
    ensures var s, u := After(s0, rs).session, After(s0, rs + [r]).session;
            && s.stepIndex < |s.plan|
            && ((u.plan == s.plan && u.pendingExpansion == s.pendingExpansion) || SplicedAfterListing(s, r, u))
  {
    AfterOneMore(s0, rs, r);
    LiveHasStep(s0, rs);
    StepPlan(After(s0, rs).session, r);
  }

  lemma StepPlan(s: SessionState, r: StepResult)
    requires s.stepIndex < |s.plan|
    ensures var u := Step(s, r).session;
            (u.plan == s.plan && u.pendingExpansion == s.pendingExpansion) || SplicedAfterListing(s, r, u)
  {
    match r {
      case ApprovalPending(_) =>
      case StepErr(m) => assert Failed(s, m).session.plan == s.plan;
      case StepOk(p) =>
        if Blocked(s, p) {
          assert Refused(s, p).session.plan == s.plan;
        } else {
          EmitKeeps(Expanded(Applied(s, p)));
        }
    }
  }

  /** `Emit` decides what to ask; it changes nothing but the state and the response. */
  lemma EmitKeeps(s: SessionState)
    ensures var e := Emit(s);
            && !e.AwaitingApproval?
            && (e.ToolCall? ==> e.session == s && s.stepIndex < |s.plan|)
            && e.session == s.(state := e.session.state, accumulatedResponse := e.session.accumulatedResponse)
  {
  }

  /** Where a listing has names that pass, from index `k` on. */
  function Positions(e: ExpansionKind, listing: seq<string>, k: nat): (at: seq<nat>)
    requires k <= |listing|
    ensures forall i :: 0 <= i < |at| ==> k <= at[i] < |listing| && Selected(e, listing[at[i]])
    ensures forall i, j :: 0 <= i < j < |at| ==> at[i] < at[j]
    ensures forall n :: k <= n < |listing| && Selected(e, listing[n]) ==> n in at
    decreases |listing| - k
  {
    if k == |listing| then []
    else if Selected(e, listing[k]) then [k] + Positions(e, listing, k + 1)
    else Positions(e, listing, k + 1)
  }

  predicate NamesAt(listing: seq<string>, at: seq<nat>, names: seq<string>) {
    |names| == |at| && forall i :: 0 <= i < |at| ==> at[i] < |listing| && names[i] == listing[at[i]]
  }

  /** An expansion acts on exactly the listed names that pass its filter, each as often, in listing order. */
  lemma {:induction false} SelectionIsExact(e: ExpansionKind, listing: seq<string>, k: nat)
    requires k <= |listing|
    ensures NamesAt(listing, Positions(e, listing, k), Selection(e, listing[k..]))
    decreases |listing| - k
  {
    if k < |listing| {
      SelectionIsExact(e, listing, k + 1);
      assert listing[k..][0] == listing[k] && listing[k..][1..] == listing[k + 1..];
      SelectionNext(e, listing[k..]);
      if Selected(e, listing[k]) {
        NamesAtNext(listing, k, Positions(e, listing, k + 1), Selection(e, listing[k + 1..]));
      }
    }
  }

  lemma NamesAtNext(listing: seq<string>, k: nat, at: seq<nat>, names: seq<string>)
    requires k < |listing| && NamesAt(listing, at, names)
    ensures NamesAt(listing, [k] + at, [listing[k]] + names)
  {
  }

  lemma SelectionPasses(e: ExpansionKind, listing: seq<string>)
    ensures forall i :: 0 <= i < |Selection(e, listing)| ==>
              Selection(e, listing)[i] in listing && Selected(e, Selection(e, listing)[i])
  {
    var at, names := Positions(e, listing, 0), Selection(e, listing);
    SelectionIsExact(e, listing, 0);
    assert listing[0..] == listing;
    forall i | 0 <= i < |names| ensures names[i] in listing && Selected(e, names[i]) {
      assert names[i] == listing[at[i]];
    }
  }

  predicate Hidden(name: string) {
    name != "" && name[0] == '.'
  }

  /** One of the eight readable extensions, in any case. */
  predicate ReadableName(name: string) {
    && !Hidden(name)
    && exists x :: x in [".md", ".txt", ".csv", ".json", ".yaml", ".yml", ".log", ".rst"]
                   && |x| <= |name| && Lower(name)[|name| - |x|..] == x
  }

  /** The filters, on the text: a filter text occurs in the name; without one, a move spares hidden names. */
  lemma FiltersOnText(e: ExpansionKind, name: string)
    ensures Selected(e, name) <==>
            && (e.fileFilter.Some? ==> Occurs(name, e.fileFilter.value))
            && (e.ReadAndSummarize? ==> ReadableName(name))
            && (e.MoveToDir? && e.fileFilter.None? ==> !Hidden(name))
  {
    if e.fileFilter.Some? {
      ContainsIsOccurs(name, e.fileFilter.value);
    }
    assert StartsWith(name, ".") <==> Hidden(name);
    if e.ReadAndSummarize? {
      ReadableOnText(name);
    }
  }

  lemma ReadableOnText(name: string)
    ensures IsReadableFileType(name) <==> ReadableName(name)
  {
    assert READABLE == [".md", ".txt", ".csv", ".json", ".yaml", ".yml", ".log", ".rst"];
    assert StartsWith(name, ".") <==> Hidden(name);
    if IsReadableFileType(name) {
      var i :| 0 <= i < |READABLE| && EndsWith(Lower(name), READABLE[i]);
      assert READABLE[i] in READABLE;
    }
    if ReadableName(name) {
      var x :| x in READABLE && |x| <= |name| && Lower(name)[|name| - |x|..] == x;
      var i :| 0 <= i < |READABLE| && READABLE[i] == x;
      assert EndsWith(Lower(name), READABLE[i]);
    }
  }

  /**
   What an expansion inserts after a listing: reads of the selected names at the listing's workspace and
   the session's root, or first the folder and then the moves of the selected names into it.
   */
  lemma ExpansionStepsAreConfined(e: ExpansionKind, s: SessionState)
    requires 0 < s.stepIndex <= |s.plan| && s.plan[s.stepIndex - 1].FsListDir?
    ensures var steps, names := ExpansionSteps(e, s), Selection(e, s.lastDirListingSorted);
            var id := s.plan[s.stepIndex - 1].workspaceId;
            var root := if s.confirmedRoot.Some? then s.confirmedRoot.value else "";
            && (e.ReadAndSummarize? ==>
                  |steps| == |names| && forall i :: 0 <= i < |steps| ==> steps[i] == FsReadFile(id, root, names[i]))
            && (e.MoveToDir? ==>
                  && |steps| == |names| + 1
                  && steps[0] == FsCreateDir(e.destWorkspaceId, e.destWorkspaceRoot, e.destRelDir)
                  && forall i :: 0 < i < |steps| ==>
                       steps[i] == FsMove(id, root, names[i - 1], e.destWorkspaceRoot,
                                          e.destRelDir + "/" + names[i - 1]))
            && (forall i :: 0 <= i < |names| ==> names[i] in s.lastDirListingSorted && Selected(e, names[i]))
  {
    SelectionPasses(e, s.lastDirListingSorted);
  }

  // ---------------------------------------------------------------- what is recorded, and what refuses

  /** A session is a Task, with its guards and its sanitizer, exactly when its plan has a tool step. */
  lemma TaskRuns(s0: SessionState, rs: seq<StepResult>)
    requires Fresh(s0) && IsRun(s0, rs)
    ensures After(s0, rs).session.kind == Task <==> exists i :: 0 <= i < |s0.plan| && !s0.plan[i].LlmGenerate?
  {
    TracesAlign(s0, rs);
  }

  /** A result's own text, or its JSON. */
  predicate ReportedAs(p: Payload, report: string) {
    (p.text.Some? ==> report == p.text.value) && (p.text.None? ==> report == p.json)
  }

  /** The tool that an intent calls, by its name. */
  predicate NamesTool(planned: ToolCallIntent, name: string) {
    && (planned.FsListDir? <==> name == "fs_list_dir") && (planned.FsReadFile? <==> name == "fs_read_file")
    && (planned.FsWriteFile? <==> name == "fs_write_file") && (planned.FsDelete? <==> name == "fs_delete")
    && (planned.FsRename? <==> name == "fs_rename") && (planned.FsMove? <==> name == "fs_move")
    && (planned.FsCreateDir? <==> name == "fs_create_dir") && (planned.ShellRun? <==> name == "shell_run")
    && (planned.LlmGenerate? <==> name == "llm_generate")
  }

  /** Trace `t` of an answered step: who, with what, allowed or failed, and a summary of the answer. */
  predicate TraceOf(planned: ToolCallIntent, r: StepResult, t: ToolTrace) {
    && NamesTool(planned, t.toolName) && t.input == planned
    && match r
       case StepOk(p) =>
         && t.policyDecision == Some(Allow) && t.approved == Some(true) && t.resultSummary.Some?
         && (p.text.Some? ==> t.resultSummary == p.text)
         && (p.text.None? && |p.json| <= 200 ==> t.resultSummary.value == p.json)
         && (p.text.None? && |p.json| > 200 ==> t.resultSummary.value == p.json[..200] + "...")
       case StepErr(m) => t.policyDecision.None? && t.approved == Some(false) && t.resultSummary == Some(m)
       case ApprovalPending(_) => false
  }

  lemma BuiltTrace(planned: ToolCallIntent, r: StepResult)
    requires !r.ApprovalPending?
    ensures TraceOf(planned, r, BuildToolTrace(planned, r))
  {
  }

  lemma TracesOfAnswers(plan: seq<ToolCallIntent>, a: seq<StepResult>)
    requires |a| <= |plan| && forall i :: 0 <= i < |a| ==> !a[i].ApprovalPending?
    ensures forall i :: 0 <= i < |a| ==> TraceOf(plan[i], a[i], Traces(plan, a)[i])
  {
    forall i | 0 <= i < |a| ensures TraceOf(plan[i], a[i], Traces(plan, a)[i]) {
      BuiltTrace(plan[i], a[i]);
    }
  }

  /** In every state of every run each answer has its trace, and while it lives the last report is the last answer's. */
  lemma AnswersAreRecorded(s0: SessionState, rs: seq<StepResult>)
    requires Fresh(s0) && IsRun(s0, rs)
    ensures var t := After(s0, rs); var s, a := t.session, Answered(rs);
            && |s.toolTraces| == |a| <= |s.plan|
            && (forall i :: 0 <= i < |a| ==> TraceOf(s.plan[i], a[i], s.toolTraces[i]))
            && (!t.status.Done? && a != [] ==>
                  s.accumulatedResponse.Some? && a[|a| - 1].StepOk?
                  && ReportedAs(a[|a| - 1].payload, s.accumulatedResponse.value))
  {
    TracesAlign(s0, rs);
    AnsweredAreAnswers(rs);
    TracesOfAnswers(After(s0, rs).session.plan, Answered(rs));
    if !After(s0, rs).status.Done? {
      LiveContents(s0, rs);
    }
  }

  lemma {:induction false} AnsweredAreAnswers(rs: seq<StepResult>)
    ensures forall i :: 0 <= i < |Answered(rs)| ==> !Answered(rs)[i].ApprovalPending?
  {
    if rs != [] {
      AnsweredAreAnswers(rs[..|rs| - 1]);
    }
  }

  /** The text tells of tool calls: one of the nine patterns occurs in it, in any case. */
  predicate TellsOfTools(text: string) {
    exists x :: x in ["fs_list_dir", "fs_read_file", "fs_write_file", "i'll use ", "i will use ", "i will now call ",
                      "first, i'll ", "next, i'll ", "now, i'll "]
                && Occurs(Lower(text), x)
  }

  lemma NarrationIsText(text: string)
    ensures Narrates(text) <==> TellsOfTools(text)
  {
    var patterns := ["fs_list_dir", "fs_read_file", "fs_write_file", "i'll use ", "i will use ", "i will now call ",
                     "first, i'll ", "next, i'll ", "now, i'll "];
    assert NARRATION_PATTERNS == patterns;
    if Narrates(text) {
      var i :| 0 <= i < |NARRATION_PATTERNS| && Contains(Lower(text), NARRATION_PATTERNS[i]);
      ContainsIsOccurs(Lower(text), NARRATION_PATTERNS[i]);
      assert NARRATION_PATTERNS[i] in patterns;
    }
    if TellsOfTools(text) {
      var x :| x in patterns && Occurs(Lower(text), x);
      ContainsIsOccurs(Lower(text), x);
      var i :| 0 <= i < |patterns| && patterns[i] == x;
      assert Contains(Lower(text), NARRATION_PATTERNS[i]);
    }
  }

  /** The sanitizer refuses an answer exactly in a Task session, to a prompt, when its text tells of tools. */
  lemma RefusalIsText(s: SessionState, p: Payload)
    requires s.stepIndex < |s.plan|
    ensures Blocked(s, p) <==>
            && s.kind == Task && s.plan[s.stepIndex].LlmGenerate?
            && p.text.Some? && TellsOfTools(p.text.value)
  {
    if p.text.Some? {
      NarrationIsText(p.text.value);
    }
  }

  /**
   A guard stands before a step exactly when, in a Task session, it is a prompt for file contents and no
   file has been read, or a prompt for a result that is missing, empty or a JSON object; or when it
   reads the most recent file and nothing has been listed.
   */
  lemma GuardIsText(s: SessionState)
    requires s.stepIndex < |s.plan|
    ensures var next, report := s.plan[s.stepIndex], s.accumulatedResponse;
            Guarded(s) <==>
            || (s.kind == Task && next.LlmGenerate? && Occurs(next.task, "{{FILE_CONTENTS}}")
                && s.contentAccumulator == [])
            || (s.kind == Task && next.LlmGenerate? && Occurs(next.task, "{{FS_RESULT}}")
                && (report.None? || report.value == "" || report.value[0] == '{'))
            || (next.FsReadFile? && Occurs(next.relPath, "{{MOST_RECENT_FILE}}") && s.lastDirListingSorted == [])
  {
    var next := s.plan[s.stepIndex];
    if next.LlmGenerate? {
      ContainsIsOccurs(next.task, FILE_CONTENTS_PLACEHOLDER);
      ContainsIsOccurs(next.task, FS_RESULT_PLACEHOLDER);
      RealTextIs(s.accumulatedResponse);
    } else if next.FsReadFile? {
      ContainsIsOccurs(next.relPath, MOST_RECENT_FILE_PLACEHOLDER);
    }
  }

  lemma RealTextIs(report: Option<string>)
    ensures HasRealText(report) <==> report.Some? && report.value != "" && report.value[0] != '{'
  {
  }

  // ---------------------------------------------------------------- approvals stutter

  /** The intents a run hands to its runner. */
  function Emitted(s0: SessionState, rs: seq<StepResult>): seq<ToolCallIntent> {
    (if rs == [] then [] else Emitted(s0, rs[..|rs| - 1])) +
    (match After(s0, rs).status case Asks(intent) => [intent] case _ => [])
  }

  function Approving(s: SessionState, ids: seq<string>): SessionState {
    s.(approvalsRequested := ids)
  }

  lemma EmitIgnoresApprovals(s: SessionState, ids: seq<string>)
    ensures var t, u := Emit(s), Emit(Approving(s, ids));
            && u.session == Approving(t.session, ids)
            && (t.ToolCall? <==> u.ToolCall?) && (t.Completed? <==> u.Completed?)
            && (t.ToolCall? ==> u.intent == t.intent)
  {
  }

  lemma ExpandedIgnoresApprovals(s: SessionState, p: Payload, ids: seq<string>)
    ensures Expanded(Applied(Approving(s, ids), p)) == Approving(Expanded(Applied(s, p)), ids)
  {
    assert Applied(Approving(s, ids), p) == Approving(Applied(s, p), ids);
  }

  lemma StepIgnoresApprovals(s: SessionState, r: StepResult, ids: seq<string>)
    requires !r.ApprovalPending?
    ensures Step(Approving(s, ids), r) == Turn(Step(s, r).status, Approving(Step(s, r).session, ids))
  {
    match r {
      case StepErr(m) =>
        assert Failed(Approving(s, ids), m).session == Approving(Failed(s, m).session, ids);
      case StepOk(p) =>
        if Blocked(s, p) {
          assert Refused(Approving(s, ids), p).session == Approving(Refused(s, p).session, ids);
        } else {
          ExpandedIgnoresApprovals(s, p, ids);
          EmitIgnoresApprovals(Expanded(Applied(s, p)), ids);
        }
    }
  }

  lemma PendingOnlyRecords(s: SessionState, r: StepResult, ids: seq<string>)
    requires r.ApprovalPending?
    ensures Step(Approving(s, ids), r) == Turn(Waits(r.requestId), Approving(s, ids + [r.requestId]))
  {
  }

  /**
   Deleting every ApprovalPending from a run leaves a run with the same session, the same emitted
   intents and the same final turn; the deleted ids are `approvals_requested`, in order.
   */
  lemma {:induction false} ApprovalsStutter(s0: SessionState, rs: seq<StepResult>)
    requires Fresh(s0) && IsRun(s0, rs)
    ensures IsRun(s0, Answered(rs))
    ensures var t, u := After(s0, rs), After(s0, Answered(rs));
            && t.session == Approving(u.session, PendingIds(rs))
            && u.session.approvalsRequested == []
            && (if rs != [] && rs[|rs| - 1].ApprovalPending? then t.status.Waits? && !u.status.Done? else t.status == u.status)
    ensures Emitted(s0, rs) == Emitted(s0, Answered(rs))
  {
    if rs != [] {
      var before, r := rs[..|rs| - 1], rs[|rs| - 1];
      ApprovalsStutter(s0, before);
      var s := After(s0, Answered(before)).session;
      if r.ApprovalPending? {
        assert Answered(rs) == Answered(before);
        PendingOnlyRecords(s, r, PendingIds(before));
      } else {
        AnsweredSteps(rs);
        var a := Answered(rs);
        assert a[..|a| - 1] == Answered(before) && a[|a| - 1] == r;
        assert After(s0, a) == Step(s, r);
        StepIgnoresApprovals(s, r, PendingIds(before));
        StepIgnoresApprovals(s, r, []);
        assert Approving(s, []) == s;
      }
    }
  }

  // ---------------------------------------------------------------- where prompts come from

  /** The parts of a live session that prompts are made from. */
  lemma LiveContents(s0: SessionState, rs: seq<StepResult>)
    requires Fresh(s0) && IsRun(s0, rs) && !After(s0, rs).status.Done?
    ensures var s, a := After(s0, rs).session, Answered(rs);
            && AllOk(a) && |a| == s.stepIndex < |s.plan|
            && s.contentAccumulator == ReadTexts(s.plan, a)
            && s.accumulatedResponse == LastReport(a)
            && s.lastDirListingSorted == Listing(a)
            && s.kind == s0.kind
  {
    LiveSession(s0, rs);
  }

  function Contents(texts: seq<string>, report: string): string {
    if texts != [] then Join(texts, "\n\n---\n\n") else report
  }

  const CUT := "\n\n[Note: file content was truncated to fit the model's context window.]"

  /** A report of at most 4000 characters as it is; of a longer one the first 4000, and a note. */
  predicate IsCapped(report: string, shown: string) {
    (|report| <= 4000 ==> shown == report) && (|report| > 4000 ==> shown == report[..4000] + CUT)
  }

  /**
   `emitted` is the planned prompt with its holes filled: the file hole by exactly `texts` joined in
   order (by the report if there are none), and the result hole by the report, cut to the character
   budget. In a Task session a file hole is never filled from nothing, and a result hole never from an
   empty text or a JSON object.
   */
  predicate PromptFrom(planned: ToolCallIntent, texts: seq<string>, report: string, kind: SessionKind,
                       emitted: ToolCallIntent)
    requires planned.LlmGenerate?
  {
    var contents := Contents(texts, report);
    && emitted == planned.(
         task := Join(Pieces(Join(Pieces(planned.task, FILE_CONTENTS_PLACEHOLDER), contents),
                             FS_RESULT_PLACEHOLDER), Capped(report)))
    && IsCapped(report, Capped(report))
    && (kind == Task && Contains(planned.task, FILE_CONTENTS_PLACEHOLDER) ==> texts != [])
    && (kind == Task && Contains(planned.task, FS_RESULT_PLACEHOLDER) ==> report != "" && !StartsWith(report, "{"))
  }

  /** A prompt that `Emit` lets through, in terms of the session it is emitted from. */
  lemma EmittedPrompt(s: SessionState)
    requires s.stepIndex < |s.plan| && s.plan[s.stepIndex].LlmGenerate? && s.accumulatedResponse.Some?
    requires Emit(s).ToolCall?
    ensures PromptFrom(s.plan[s.stepIndex], s.contentAccumulator, s.accumulatedResponse.value, s.kind, Emit(s).intent)
  {
    var task := s.plan[s.stepIndex].task;
    ReplaceFillsHoles(task, FILE_CONTENTS_PLACEHOLDER, FileContents(s));
    ReplaceFillsHoles(Replace(task, FILE_CONTENTS_PLACEHOLDER, FileContents(s)), FS_RESULT_PLACEHOLDER, FsResult(s));
  }

  /**
   Every prompt emitted after an answer is made from exactly the texts of this run's successful reads,
   in order, and the previous step's report.
   */
  lemma PromptProvenance(s0: SessionState, rs: seq<StepResult>)
    requires Fresh(s0) && IsRun(s0, rs)
    ensures var t := After(s0, rs); var s, a := t.session, Answered(rs);
            t.status.Asks? && a != [] ==>
              && AllOk(a) && |a| == s.stepIndex < |s.plan|
              && (s.plan[s.stepIndex].LlmGenerate? ==>
                    PromptFrom(s.plan[s.stepIndex], ReadTexts(s.plan, a), LastReport(a).value, s0.kind, t.status.intent))
  {
    var s := After(s0, rs).session;
    if After(s0, rs).status.Asks? && Answered(rs) != [] {
      LiveContents(s0, rs);
      AskedByEmit(s0, rs);
      if s.plan[s.stepIndex].LlmGenerate? {
        EmittedPrompt(s);
      }
    }
  }

  /** A turn that asks for a tool after an answer comes out of `Emit` on its own session. */
  lemma AskedByEmit(s0: SessionState, rs: seq<StepResult>)
    requires Fresh(s0) && IsRun(s0, rs) && After(s0, rs).status.Asks? && Answered(rs) != []
    ensures Emit(After(s0, rs).session) == ToolCall(After(s0, rs).status.intent, After(s0, rs).session)
  {
    var before, r := rs[..|rs| - 1], rs[|rs| - 1];
    assert r.StepOk?;
    assert Next(After(s0, before).session, Some(r)).ToolCall?;
  }

  // ---------------------------------------------------------------- what every emitted intent is

  /**
   `emitted` is what becomes of the planned intent: a prompt is filled as `PromptFrom` says; a read of
   the most recent file is that read with the newest listing's first name in its path; any other intent
   is emitted as planned.
   */
  predicate EmittedFrom(planned: ToolCallIntent, texts: seq<string>, report: string, listing: seq<string>,
                        kind: SessionKind, emitted: ToolCallIntent)
  {
    if planned.LlmGenerate? then PromptFrom(planned, texts, report, kind, emitted)
    else if planned.FsReadFile? && Contains(planned.relPath, "{{MOST_RECENT_FILE}}") then
      && listing != []
      && emitted == FsReadFile(planned.workspaceId, planned.workspaceRoot,
                               Join(Pieces(planned.relPath, "{{MOST_RECENT_FILE}}"), listing[0]))
    else emitted == planned
  }

  /** Without an answer the plan's first intent is emitted as it is; with answers, the next one is. */
  lemma IntentProvenance(s0: SessionState, rs: seq<StepResult>)
    requires Fresh(s0) && IsRun(s0, rs)
    ensures var t := After(s0, rs); var s, a := t.session, Answered(rs);
            t.status.Asks? ==>
              && AllOk(a) && |a| == s.stepIndex < |s.plan|
              && (a == [] ==> t.status.intent == s.plan[0])
              && (a != [] ==>
                    EmittedFrom(s.plan[s.stepIndex], ReadTexts(s.plan, a), LastReport(a).value, Listing(a),
                                s0.kind, t.status.intent))
  {
    var s := After(s0, rs).session;
    if After(s0, rs).status.Asks? {
      LiveContents(s0, rs);
      if Answered(rs) == [] {
        AskedAfterAnswer(s0, rs);
      } else {
        PromptProvenance(s0, rs);
        AskedByEmit(s0, rs);
        if !s.plan[s.stepIndex].LlmGenerate? {
          ToolIsEmitted(s);
        }
      }
    }
  }

  /** An intent can only be asked for at the start or after an answer. */
  lemma AskedAfterAnswer(s0: SessionState, rs: seq<StepResult>)
    ensures After(s0, rs).status.Asks? && rs != [] ==> Answered(rs) != []
  {
    if rs != [] {
      var s, r := After(s0, rs[..|rs| - 1]).session, rs[|rs| - 1];
      assert r.ApprovalPending? ==> Step(s, r).status.Waits?;
    }
  }

  lemma ToolIsEmitted(s: SessionState)
    requires s.stepIndex < |s.plan| && !s.plan[s.stepIndex].LlmGenerate? && Emit(s).ToolCall?
    ensures EmittedFrom(s.plan[s.stepIndex], [], "", s.lastDirListingSorted, s.kind, Emit(s).intent)
  {
    var planned := s.plan[s.stepIndex];
    if planned.FsReadFile? && s.lastDirListingSorted != [] {
      ReplaceFillsHoles(planned.relPath, MOST_RECENT_FILE_PLACEHOLDER, s.lastDirListingSorted[0]);
    }
  }

  // ---------------------------------------------------------------- what the second filling does to file texts

  lemma ResultPlaceholderIsUnbordered()
    ensures Unbordered(FS_RESULT_PLACEHOLDER)
  {
    var p := FS_RESULT_PLACEHOLDER;
    forall k | 0 < k < |p| ensures p[k..] != p[..|p| - k] {
      assert p[k..][0] == p[k] && p[..|p| - k][0] == '{';
      if k == 1 {
        assert p[k..][1] == 'F' && p[..|p| - k][1] == '{';
      }
    }
  }

  /** The plan's own prompt with both kinds of hole filled, and the inserted file text left alone. */
  function Intended(task: string, contents: string, report: string): string {
    Join(ReplaceEach(Pieces(task, FILE_CONTENTS_PLACEHOLDER), FS_RESULT_PLACEHOLDER, report), contents)
  }

  /** With the file text in place, the prompt spells the result placeholder only where the plan does. */
  predicate SpellsNoMore(task: string, contents: string) {
    var parts := Pieces(task, FILE_CONTENTS_PLACEHOLDER);
    Occurrences(Join(parts, contents), FS_RESULT_PLACEHOLDER) == InParts(parts, FS_RESULT_PLACEHOLDER)
  }

  lemma SecondFilling(task: string, contents: string, report: string)
    ensures Replace(Replace(task, FILE_CONTENTS_PLACEHOLDER, contents), FS_RESULT_PLACEHOLDER, report)
              == Intended(task, contents, report)
            <==> report == FS_RESULT_PLACEHOLDER || SpellsNoMore(task, contents)
  {
    ResultPlaceholderIsUnbordered();
    ReplaceFillsHoles(task, FILE_CONTENTS_PLACEHOLDER, contents);
    FillingKeepsText(Pieces(task, FILE_CONTENTS_PLACEHOLDER), contents, FS_RESULT_PLACEHOLDER, report);
  }

  /**
   In every run, the file texts reach the model unchanged exactly when they make the prompt spell the
   result placeholder nowhere the plan does not (or the report is that placeholder itself).
   */
  lemma FileTextsReachModel(s0: SessionState, rs: seq<StepResult>)
    requires Fresh(s0) && IsRun(s0, rs)
    ensures var t := After(s0, rs); var s, a := t.session, Answered(rs);
            t.status.Asks? && a != [] ==>
              && AllOk(a) && |a| == s.stepIndex < |s.plan|
              && (s.plan[s.stepIndex].LlmGenerate? ==>
                    var task, report := s.plan[s.stepIndex].task, LastReport(a).value;
                    var contents := Contents(ReadTexts(s.plan, a), report);
                    && t.status.intent.LlmGenerate?
                    && (t.status.intent.task == Intended(task, contents, Capped(report)) <==>
                        Capped(report) == FS_RESULT_PLACEHOLDER || SpellsNoMore(task, contents)))
  {
    PromptProvenance(s0, rs);
    var s, a := After(s0, rs).session, Answered(rs);
    if After(s0, rs).status.Asks? && a != [] && s.plan[s.stepIndex].LlmGenerate? {
      var task, report := s.plan[s.stepIndex].task, LastReport(a).value;
      var contents := Contents(ReadTexts(s.plan, a), report);
      SecondFilling(task, contents, Capped(report));
      ReplaceFillsHoles(task, FILE_CONTENTS_PLACEHOLDER, contents);
      ReplaceFillsHoles(Replace(task, FILE_CONTENTS_PLACEHOLDER, contents), FS_RESULT_PLACEHOLDER, Capped(report));
    }
  }

  /**
   For a prompt whose file holes stand apart, such as on lines of their own, that is exactly when the
   file text does not contain the result placeholder.
   */
  lemma FileTextsOnTheirOwn(task: string, contents: string)
    requires Contains(task, FILE_CONTENTS_PLACEHOLDER)
    requires Apart(Pieces(task, FILE_CONTENTS_PLACEHOLDER), FS_RESULT_PLACEHOLDER)
    ensures SpellsNoMore(task, contents) <==> !Contains(contents, FS_RESULT_PLACEHOLDER)
  {
    var parts := Pieces(task, FILE_CONTENTS_PLACEHOLDER);
    HolesAreOccurrences(task, FILE_CONTENTS_PLACEHOLDER);
    ApartSpells(parts, contents, FS_RESULT_PLACEHOLDER);
  }

  /** The shape of the planner's summary prompt: one file hole, on a line of its own. */
  lemma FileTextOnOwnLine(head: string, tail: string, contents: string)
    requires !Contains(head + "\n", FILE_CONTENTS_PLACEHOLDER) && !Contains("\n" + tail, FILE_CONTENTS_PLACEHOLDER)
    ensures var task := (head + "\n") + (FILE_CONTENTS_PLACEHOLDER + ("\n" + tail));
            SpellsNoMore(task, contents) <==> !Contains(contents, FS_RESULT_PLACEHOLDER)
  {
    OneHole(head + "\n", FILE_CONTENTS_PLACEHOLDER, "\n" + tail);
    ApartSpells([head + "\n", "\n" + tail], contents, FS_RESULT_PLACEHOLDER);
  }

  const ALTERED := "x" + FS_RESULT_PLACEHOLDER
  const READ_AND_SUMMARIZE :=
    [FsReadFile("", "", "a.txt"), LlmGenerate(CheapModel, FILE_CONTENTS_PLACEHOLDER, None)]

  /** A read and a summary of it: a run whose one file text, `ALTERED`, does not reach the model as it is. */
  lemma FileTextsCanBeAltered(sessionId: string, task: string)
    ensures var s0 := StartSession(sessionId, task, READ_AND_SUMMARIZE, None);
            var rs := [StepOk(Payload(Some(ALTERED), None, ""))];
            && Fresh(s0) && IsRun(s0, rs)
            && After(s0, rs).session.contentAccumulator == [ALTERED]
            && After(s0, rs).status == Asks(LlmGenerate(CheapModel, "x" + ALTERED, None))
  {
    var s0 := StartSession(sessionId, task, READ_AND_SUMMARIZE, None);
    var r := StepOk(Payload(Some(ALTERED), None, ""));
    AfterOneMore(s0, [], r);
    assert [] + [r] == [r];
    AlteredSession(s0);
    AlteredTurn(Expanded(Applied(s0, r.payload)));
  }

  lemma AlteredSession(s: SessionState)
    requires Fresh(s) && s.plan == READ_AND_SUMMARIZE && s.pendingExpansion.None?
    ensures var u := Expanded(Applied(s, Payload(Some(ALTERED), None, "")));
            && u.plan == READ_AND_SUMMARIZE && u.stepIndex == 1
            && u.contentAccumulator == [ALTERED] && u.accumulatedResponse == Some(ALTERED)
  {
  }

  /** No guard stands before a prompt without a result hole once a text has been read. */
  lemma PromptIsEmitted(s: SessionState, strategy: Strategy, task: string)
    requires s.stepIndex < |s.plan| && s.plan[s.stepIndex] == LlmGenerate(strategy, task, None)
    requires s.contentAccumulator != [] && !Contains(task, FS_RESULT_PLACEHOLDER)
    ensures Emit(s) == ToolCall(LlmGenerate(strategy, Filled(s, task), None), s)
  {
  }

  lemma AlteredTurn(s: SessionState)
    requires s.plan == READ_AND_SUMMARIZE && s.stepIndex == 1
    requires s.contentAccumulator == [ALTERED] && s.accumulatedResponse == Some(ALTERED)
    ensures Emit(s) == ToolCall(LlmGenerate(CheapModel, "x" + ALTERED, None), s)
  {
    var task := s.plan[1].task;
    assert s.plan[1] == LlmGenerate(CheapModel, task, None) && task == FILE_CONTENTS_PLACEHOLDER;
    FilePlaceholderIsAnother();
    PromptIsEmitted(s, CheapModel, task);
    AlteredFills(s);
  }

  lemma FilePlaceholderIsAnother()
    ensures !Contains(FILE_CONTENTS_PLACEHOLDER, FS_RESULT_PLACEHOLDER)
  {
    var p, q := FILE_CONTENTS_PLACEHOLDER, FS_RESULT_PLACEHOLDER;
    assert p[3] == 'I' && q[3] == 'S' && q[0] == '{' && q[1] == '{';
    NotBefore(p, q, 1);
  }

  lemma {:induction false} NotBefore(p: string, q: string, i: nat)
    requires 1 <= i <= |p| && |q| > 1 && q[1] == '{'
    requires p != "" && forall k :: 2 <= k < |p| ==> p[k] != '{'
    ensures !Contains(p[i..], q)
    decreases |p| - i
  {
    if i < |p| {
      if StartsWith(p[i..], q) {
        assert p[i..][1] == q[1];
      }
      assert p[i..][1..] == p[i + 1..];
      NotBefore(p, q, i + 1);
    }
  }

  lemma AlteredFills(s: SessionState)
    requires s.contentAccumulator == [ALTERED] && s.accumulatedResponse == Some(ALTERED)
    ensures Filled(s, FILE_CONTENTS_PLACEHOLDER) == "x" + ALTERED
  {
    ReplaceWhole(FILE_CONTENTS_PLACEHOLDER, ALTERED);
    ReplaceWhole(FS_RESULT_PLACEHOLDER, ALTERED);
    assert FsResult(s) == ALTERED == FileContents(s);
    assert ALTERED[1..] == FS_RESULT_PLACEHOLDER && ALTERED[0] == 'x';
  }

  lemma ReplaceWhole(p: string, fill: string)
    requires p != ""
    ensures Replace(p, p, fill) == fill
  {
    assert p[|p|..] == "";
    assert fill + "" == fill;
  }
}
