/** Every exit of one step of src/aether_forge/runtime.py, written out: the condition under which it is taken, and
    the status, queue, session state, approvals and entry it leaves. */
module RuntimeExits {
  import opened Results
  import opened Values
  import opened Runtime
  import opened RuntimeSafety
  import Policy

  // ----- what a step is about -----

  /** The manifest declares the capability, or it is a memory operation. */
  ghost predicate Known(cfg: Config, id: Option<string>) {
    && id.Some?
    && ((exists i :: 0 <= i < |cfg.capabilities| && cfg.capabilities[i].capabilityId == id.value)
        || "memory." <= id.value)
  }

  /** `c` is the first capability declared with the identifier. */
  ghost predicate FirstDeclared(cfg: Config, id: string, c: Policy.Capability) {
    exists i :: 0 <= i < |cfg.capabilities| && cfg.capabilities[i] == c && c.capabilityId == id
      && forall j :: 0 <= j < i ==> cfg.capabilities[j].capabilityId != id
  }

  /** The capability judged and executed: the first declared one, or else a memory operation that is allowed in
      the four environments, needs no approval and has no limits. */
  ghost predicate StandsFor(cfg: Config, id: string, c: Policy.Capability) {
    || FirstDeclared(cfg, id, c)
    || ((forall j :: 0 <= j < |cfg.capabilities| ==> cfg.capabilities[j].capabilityId != id)
        && "memory." <= id
        && c.capabilityId == id && c.kind == "memory-action"
        && c.allowedEnvironments == {"sandbox", "paper", "canary-live", "production"}
        && c.credentialHandleId == None && c.maxNotionalUsd == None && c.stalenessBudgetMs == None
        && !c.requiredApproval && !c.effectSemantics && c.chain == Null)
  }

  lemma {:induction false} ResolveIff(capabilities: seq<Policy.Capability>, id: string)
    ensures Resolve(capabilities, Some(id)).None? <==> forall j :: 0 <= j < |capabilities| ==> capabilities[j].capabilityId != id
    ensures Resolve(capabilities, Some(id)).Some? ==>
      exists i :: 0 <= i < |capabilities| && capabilities[i] == Resolve(capabilities, Some(id)).value
        && capabilities[i].capabilityId == id && forall j :: 0 <= j < i ==> capabilities[j].capabilityId != id
  {
    if capabilities != [] {
      ResolveIff(capabilities[1..], id);
      assert forall j :: 1 <= j < |capabilities| ==> capabilities[j] == capabilities[1..][j - 1];
      if capabilities[0].capabilityId == id {
        assert capabilities[0] == Resolve(capabilities, Some(id)).value;
      } else if Resolve(capabilities, Some(id)).Some? {
        var i :| 0 <= i < |capabilities[1..]| && capabilities[1..][i] == Resolve(capabilities, Some(id)).value
          && capabilities[1..][i].capabilityId == id && forall j :: 0 <= j < i ==> capabilities[1..][j].capabilityId != id;
        assert capabilities[i + 1] == capabilities[1..][i];
        forall j | 0 <= j < i + 1 ensures capabilities[j].capabilityId != id {
          assert j > 0 ==> capabilities[j] == capabilities[1..][j - 1];
        }
      }
    }
  }

  lemma CapabilityIff(cfg: Config, id: Option<string>)
    ensures CapabilityFor(cfg, id).Some? <==> Known(cfg, id)
    ensures CapabilityFor(cfg, id).Some? ==> id.Some? && StandsFor(cfg, id.value, CapabilityFor(cfg, id).value)
  {
    if id.Some? {
      ResolveIff(cfg.capabilities, id.value);
    }
  }

  // ----- the verdicts -----

  /** Nothing is learnt, asked or said: the entry and the queue aside, only the status may change. */
  ghost predicate Untouched(s: Session, t: Session) {
    && t.workingSet == s.workingSet && t.observations == s.observations && t.state == s.state && t.pending == s.pending
    && t.gate == s.gate && t.counter == s.counter + 1
  }

  /** One new entry, about the head of the queue. */
  ghost predicate Wrote(s: Session, t: Session, lifecycle: Lifecycle, message: Message,
                        decision: Option<Policy.Decision>, result: Option<ExecutionResult>)
    requires s.planQueue != []
  {
    && t.ledger != [] && t.ledger == s.ledger + [LastEntry(t)]
    && var e := LastEntry(t);
    && e.proposal == s.planQueue[0] && e.stepId == s.counter + 1 && e.lifecycle == lifecycle && e.message == message
    && e.decision == decision && e.result == result
  }

  /** The kill switch: a known capability is neither judged nor executed, and the session fails. */
  lemma HaltedStepFails(cfg: Config, o: Oracles, s: Session)
    requires Ready(s) && Means(s.planQueue[0].kind, UseCapability) && Known(cfg, s.planQueue[0].capabilityId)
    requires o.halted(Popped(s))
    ensures var t := TakeStep(cfg, o, s);
      && t.status == Failed && t.planQueue == s.planQueue[1..] && Untouched(s, t)
      && Wrote(s, t, StepFailed, KillSwitch, None, None)
  {
    CapabilityIff(cfg, s.planQueue[0].capabilityId);
  }

  /** An unknown capability fails the session, halted or not. */
  lemma UndeclaredStepFails(cfg: Config, o: Oracles, s: Session)
    requires Ready(s) && Means(s.planQueue[0].kind, UseCapability) && !Known(cfg, s.planQueue[0].capabilityId)
    ensures var t := TakeStep(cfg, o, s);
      && t.status == Failed && t.planQueue == s.planQueue[1..] && Untouched(s, t)
      && Wrote(s, t, StepFailed, NotDeclared(s.planQueue[0].capabilityId), None, None)
  {
    CapabilityIff(cfg, s.planQueue[0].capabilityId);
  }

  /** Text that equals no member's value fails the session. */
  lemma UnsupportedStepFails(cfg: Config, o: Oracles, s: Session)
    requires Ready(s) && s.planQueue[0].kind.Named?
    requires s.planQueue[0].kind.name !in {"reason", "use-capability", "request-approval", "replan", "report-gap"}
    ensures var t := TakeStep(cfg, o, s);
      && t.status == Failed && t.planQueue == s.planQueue[1..] && Untouched(s, t)
      && Wrote(s, t, StepFailed, UnsupportedKind(s.planQueue[0].kind), None, None)
  {
  }

  /** The members and the text that equals their values. */
  lemma MeaningOfKinds()
    ensures Means(Reason, Reason) && Means(Named("reason"), Reason)
    ensures Means(UseCapability, UseCapability) && Means(Named("use-capability"), UseCapability)
    ensures Means(RequestApproval, RequestApproval) && Means(Named("request-approval"), RequestApproval)
    ensures Means(Replan, Replan) && Means(Named("replan"), Replan)
    ensures Means(ReportGap, ReportGap) && Means(Named("report-gap"), ReportGap)
  {
    NamesRoundTrip(Reason, Proposed, Running);
    NamesRoundTrip(UseCapability, Proposed, Running);
    NamesRoundTrip(RequestApproval, Proposed, Running);
    NamesRoundTrip(Replan, Proposed, Running);
    NamesRoundTrip(ReportGap, Proposed, Running);
  }

  /** A replan drops the rest of the queue and goes on. */
  lemma ReplanStepClears(cfg: Config, o: Oracles, s: Session)
    requires Ready(s) && Means(s.planQueue[0].kind, Replan)
    ensures var t := TakeStep(cfg, o, s);
      && t.status == Running && t.planQueue == [] && Untouched(s, t)
      && Wrote(s, t, StepComplete, Described(s.planQueue[0].description), None, None)
  {
  }

  /** A request for approval holds the session with one more request, for that step. */
  lemma AskStepHolds(cfg: Config, o: Oracles, s: Session)
    requires Ready(s) && Means(s.planQueue[0].kind, RequestApproval)
    ensures var t := TakeStep(cfg, o, s);
      && t.status == Hold && t.planQueue == s.planQueue[1..]
      && t.pending == [PendingApproval(o.freshId(s), s.planQueue[0], s.counter + 1, [Policy.ApprovalRequired])]
      && Untouched(s, t.(pending := s.pending))
      && Wrote(s, t, ApprovalPending, Described(s.planQueue[0].description), None, None)
  {
  }

  /** A reported gap holds the session with its payload, or its description when the payload is empty. */
  lemma GapStepHolds(cfg: Config, o: Oracles, s: Session)
    requires Ready(s) && Means(s.planQueue[0].kind, ReportGap)
    ensures var t := TakeStep(cfg, o, s); var p := s.planQueue[0];
      && t.status == Hold && t.planQueue == s.planQueue[1..]
      && t.state.reportedGap == Some(if p.payload == map[] then map["message" := Text(p.description)] else p.payload)
      && Untouched(s, t.(state := t.state.(reportedGap := s.state.reportedGap)))
      && Wrote(s, t, StepComplete, Described(p.description), None, None)
  {
  }

  predicate Asks(p: Payload, key: string) {
    key in p && Truthy(p[key])
  }

  /** A reason is noted; it completes the session when it is marked so, and drops the queue when it asks to. */
  lemma ReasonStepNotes(cfg: Config, o: Oracles, s: Session)
    requires Ready(s) && Means(s.planQueue[0].kind, Reason)
    ensures var t := TakeStep(cfg, o, s); var p := s.planQueue[0];
      && t.status == (if Asks(p.payload, "mark_complete") then Complete else Running)
      && t.planQueue == (if Asks(p.payload, "requires_replan") then [] else s.planQueue[1..])
      && t.state == s.state.(goalSatisfied := Asks(p.payload, "mark_complete"))
      && t.observations == s.observations + [ReasonObservation(p.description, p.payload)]
      && Untouched(s, t.(state := s.state, observations := s.observations))
      && Wrote(s, t, StepComplete, Described(p.description), None, None)
  {
  }

  /** A use step that reaches the gate: `c` stands for its capability, and `d` is the gate's verdict on it. */
  ghost predicate Reaches(cfg: Config, o: Oracles, s: Session, c: Policy.Capability, d: Policy.Decision) {
    && Ready(s) && Means(s.planQueue[0].kind, UseCapability) && !o.halted(Popped(s))
    && CapabilityFor(cfg, s.planQueue[0].capabilityId) == Some(c)
    && d == cfg.judge(s.gate, c, s.planQueue[0].payload)
  }

  /** Whenever the capability is known and nothing halts, the gate is reached, with what stands for it. */
  lemma GateIsReached(cfg: Config, o: Oracles, s: Session) returns (c: Policy.Capability, d: Policy.Decision)
    requires Ready(s) && Means(s.planQueue[0].kind, UseCapability) && Known(cfg, s.planQueue[0].capabilityId)
    requires !o.halted(Popped(s))
    ensures Reaches(cfg, o, s, c, d) && StandsFor(cfg, s.planQueue[0].capabilityId.value, c)
  {
    CapabilityIff(cfg, s.planQueue[0].capabilityId);
    c := CapabilityFor(cfg, s.planQueue[0].capabilityId).value;
    d := cfg.judge(s.gate, c, s.planQueue[0].payload);
  }

  /** A refused step holds the session with the gate's reasons, executes nothing, and leaves a request exactly
      when one of the reasons is approval-required. */
  lemma RefusedStepHolds(cfg: Config, o: Oracles, s: Session, c: Policy.Capability, d: Policy.Decision)
    requires Reaches(cfg, o, s, c, d) && d.disposition != Policy.Allow
    ensures var t := TakeStep(cfg, o, s); var p := s.planQueue[0];
      && t.status == Hold && t.planQueue == s.planQueue[1..]
      && t.state == s.state.(blockingReasonIds := d.reasonIds)
      && t.pending == (if Policy.ApprovalRequired in d.reasonIds
                       then [PendingApproval(o.freshId(Popped(s)), p, s.counter + 1, d.reasonIds)] else [])
      && Untouched(s, t.(state := s.state, pending := s.pending))
      && Wrote(s, t, Denied, Refused(d.reasonIds), Some(d), None)
  {
  }

  /** What an allowed step executes: the router, or the memory store for a memory operation. */
  ghost predicate Executes(cfg: Config, o: Oracles, s: Session, c: Policy.Capability, r: ExecutionResult)
    requires s.planQueue != [] && s.planQueue[0].capabilityId.Some?
  {
    var p := s.planQueue[0]; var id := p.capabilityId.value;
    if !("memory." <= id) then r == o.execute(Popped(s), p, c)
    else
      var (accepted, output, reason) := o.memory(Popped(s), p);
      if id == "memory.read" || id == "memory.write" then r == ExecutionResult(true, output, false, false, None)
      else if id == "memory.promote" then
        r == ExecutionResult(accepted, output, false, false, if accepted then None else Some(reason))
      else !r.success && !r.markComplete && !r.requiresReplan && r.failureReason == Some("Unknown memory operation: " + id)
  }

  /** An allowed step whose execution fails fails the session and learns nothing. */
  lemma FailedStepFails(cfg: Config, o: Oracles, s: Session, c: Policy.Capability, d: Policy.Decision)
    returns (r: ExecutionResult)
    requires Reaches(cfg, o, s, c, d) && d.disposition == Policy.Allow
    ensures s.planQueue[0].capabilityId.Some? && Executes(cfg, o, s, c, r)
    ensures var t := TakeStep(cfg, o, s);
      !r.success ==>
        && t.status == Failed && t.planQueue == s.planQueue[1..] && Untouched(s, t)
        && Wrote(s, t, StepFailed, ExecutionFailed(r.failureReason), Some(d), Some(r))
  {
    CapabilityIff(cfg, s.planQueue[0].capabilityId);
    var p := s.planQueue[0];
    r := if IsMemory(p.capabilityId) then ExecuteMemory(o, Popped(s), p) else o.execute(Popped(s), p, c);
  }

  /** An allowed step whose execution succeeds records the sanitized output under the capability and as an
      observation; it drops the queue when the result asks for a new plan, and completes the session when the
      result says so. */
  lemma SucceededStepRecords(cfg: Config, o: Oracles, s: Session, c: Policy.Capability, d: Policy.Decision, r: ExecutionResult)
    requires Reaches(cfg, o, s, c, d) && d.disposition == Policy.Allow
    requires s.planQueue[0].capabilityId.Some? && s.planQueue[0].capabilityId.value != ""
    requires Executes(cfg, o, s, c, r) && r.success
    ensures var t := TakeStep(cfg, o, s); var p := s.planQueue[0]; var output := cfg.sanitize(r.output);
      && t.status == (if r.markComplete then Complete else Running)
      && t.planQueue == (if r.requiresReplan then [] else s.planQueue[1..])
      && t.workingSet == s.workingSet[p.capabilityId.value := output]
      && t.observations == s.observations + [ResultObservation(p.capabilityId.value, output)]
      && t.state == s.state.(goalSatisfied := r.markComplete)
      && Untouched(s, t.(state := s.state, observations := s.observations, workingSet := s.workingSet))
      && Wrote(s, t, if r.markComplete then StepComplete else Executed, Described(p.description), Some(d), Some(r))
  {
  }

  // ----- the kill switch over a whole run -----

  /** A step under the kill switch executes nothing. */
  lemma HaltedStepHasNoResult(cfg: Config, o: Oracles, s: Session)
    requires Ready(s) && o.halted(Popped(s))
    ensures TakeStep(cfg, o, s).ledger != [] && LastEntry(TakeStep(cfg, o, s)).result == None
  {
    var p := s.planQueue[0];
    if Means(p.kind, UseCapability) {
      if Known(cfg, p.capabilityId) {
        HaltedStepFails(cfg, o, s);
      } else {
        UndeclaredStepFails(cfg, o, s);
      }
    }
  }

  /** While the kill switch is on, no entry that a run adds has a result, whatever the planner and the gate say;
      and the working set stays as it was. */
  lemma {:induction false} HaltedRunExecutesNothing(cfg: Config, initial: WorkingSet, o: Oracles, s: Session, maxSteps: int)
    requires Good(cfg, initial, s) && forall t :: o.halted(t)
    ensures var u := Run(cfg, o, s, maxSteps);
      && s.ledger <= u.ledger && u.workingSet == s.workingSet
      && forall k :: |s.ledger| <= k < |u.ledger| ==> u.ledger[k].result == None
    decreases maxSteps - s.counter
  {
    if s.status == Running && s.counter < maxSteps {
      PrepareGood(cfg, initial, o, s);
      var t := Prepare(o, s);
      if t.planQueue != [] {
        HaltedStepHasNoResult(cfg, o, t);
        TakeStepOwes(cfg, o, t);
        var u := TakeStep(cfg, o, t);
        StepKeepsGood(cfg, initial, t, u, LastEntry(u));
        HaltedRunExecutesNothing(cfg, initial, o, u, maxSteps);
      }
    }
  }

  // ----- approvals, gaps and the empty plan -----

  /** An approval without an identifier is for any request. */
  predicate Matches(a: PendingApproval, request: Option<nat>) {
    request == None || request == Some(a.requestId)
  }

  /** An approval that finds its request, the first one that matches, removes it, clears the blocking reasons, keeps
      the token, and puts a use step, with the token in its payload, in front of the queue. */
  lemma ApprovalDoes(s: Session, token: string, request: Option<nat>, i: nat)
    requires i < |s.pending| && Matches(s.pending[i], request)
    requires forall j :: 0 <= j < i ==> !Matches(s.pending[j], request)
    ensures var (t, selected) := Approve(s, token, request); var a := s.pending[i]; var p := a.proposal;
      && selected == Some(a) && t.status == Running
      && (forall b :: b in t.pending <==> b in s.pending && b.requestId != a.requestId)
      && t.state == s.state.(lastApprovalToken := Some(token), blockingReasonIds := [])
      && t.planQueue == (if Means(p.kind, UseCapability)
                         then [p.(payload := p.payload["approval_token" := Text(token)])] + s.planQueue else s.planQueue)
      && t.ledger == s.ledger && t.workingSet == s.workingSet && t.observations == s.observations
      && t.counter == s.counter && t.gate == s.gate
  {
    FindsFirst(s.pending, request, i);
    forall b ensures b in WithoutRequest(s.pending, s.pending[i].requestId) <==> b in s.pending && b.requestId != s.pending[i].requestId {
      KeptIff(s.pending, s.pending[i].requestId, b);
    }
  }

  lemma {:induction false} FindsFirst(pending: seq<PendingApproval>, request: Option<nat>, i: nat)
    requires i < |pending| && Matches(pending[i], request)
    requires forall j :: 0 <= j < i ==> !Matches(pending[j], request)
    ensures FindRequest(pending, request) == Some(pending[i])
  {
    if i > 0 {
      assert !Matches(pending[0], request);
      forall j | 0 <= j < i - 1 ensures !Matches(pending[1..][j], request) {
        assert pending[1..][j] == pending[j + 1];
      }
      FindsFirst(pending[1..], request, i - 1);
    }
  }

  lemma {:induction false} KeptIff(pending: seq<PendingApproval>, id: nat, b: PendingApproval)
    ensures b in WithoutRequest(pending, id) <==> b in pending && b.requestId != id
  {
    if pending != [] {
      KeptIff(pending[1..], id, b);
      assert pending == [pending[0]] + pending[1..];
    }
  }

  /** With no matching request an approval does nothing. */
  lemma ApprovalOfNothing(s: Session, token: string, request: Option<nat>)
    requires forall a :: a in s.pending ==> !Matches(a, request)
    ensures Approve(s, token, request) == (s, None)
  {
    FindsNone(s.pending, request);
  }

  lemma {:induction false} FindsNone(pending: seq<PendingApproval>, request: Option<nat>)
    requires forall a :: a in pending ==> !Matches(a, request)
    ensures FindRequest(pending, request) == None
  {
    if pending != [] {
      assert !Matches(pending[0], request);
      forall a | a in pending[1..] ensures !Matches(a, request) {
        assert a in pending;
      }
      FindsNone(pending[1..], request);
    }
  }

  /** When there is nothing to do and the planner has no plan, the run ends without asking anybody else: it fails,
      unless the goal is satisfied. */
  lemma EmptyPlanFails(cfg: Config, o: Oracles, s: Session, maxSteps: int)
    requires s.status == Running && s.planQueue == [] && s.counter < maxSteps
    requires o.plan(s.(state := s.state.(memoryContext := o.context(s)))) == []
    ensures Run(cfg, o, s, maxSteps) == s.(
      status := if s.state.goalSatisfied then Complete else Failed, state := s.state.(memoryContext := o.context(s)))
  {
  }

  // ----- snapshots, and what a run asks for -----

  /** The last entry of `t` shows the session as it was once the step was taken off the queue of `s`, and as the
      step left it; under the kill switch it is shown as it still ran. */
  ghost predicate Shows(s: Session, t: Session)
    requires s.planQueue != []
  {
    && t.ledger != []
    && var e := LastEntry(t);
    && e.before == Snapshot(Running, s.state, s.workingSet, |s.planQueue| - 1, [], |s.observations|)
    && e.after == Snapshot(if e.message == KillSwitch then Running else t.status, t.state, t.workingSet, |t.planQueue|,
                           t.pending, |t.observations|)
  }

  lemma RefuseShows(o: Oracles, s: Session, d: Policy.Decision)
    requires Ready(s)
    ensures Shows(s, RefuseStep(o, Popped(s), Opened(s).(decision := Some(d)), d))
  {
  }

  lemma FinishShows(cfg: Config, s: Session, d: Policy.Decision, r: ExecutionResult)
    requires Ready(s)
    ensures Shows(s, FinishStep(cfg, Popped(s), Opened(s).(decision := Some(d), result := Some(r)), r))
  {
  }

  lemma UseShows(cfg: Config, o: Oracles, s: Session)
    requires Ready(s)
    ensures Shows(s, UseStep(cfg, o, Popped(s), Opened(s)))
  {
    var t, p := Popped(s), s.planQueue[0];
    var c := CapabilityFor(cfg, p.capabilityId);
    if c.Some? && !o.halted(t) {
      var d := cfg.judge(s.gate, c.value, p.payload);
      if d.disposition != Policy.Allow {
        RefuseShows(o, s, d);
      } else {
        FinishShows(cfg, s, d, if IsMemory(p.capabilityId) then ExecuteMemory(o, t, p) else o.execute(t, p, c.value));
      }
    }
  }

  lemma ReasonShows(s: Session)
    requires Ready(s)
    ensures Shows(s, ReasonStep(Popped(s), Opened(s)))
  {
  }

  /** Each entry's snapshots are those of its step. */
  lemma StepSnapshots(cfg: Config, o: Oracles, s: Session)
    requires Ready(s)
    ensures Shows(s, TakeStep(cfg, o, s))
  {
    match Meant(s.planQueue[0].kind)
    case Some(UseCapability) => UseShows(cfg, o, s);
    case Some(Reason) => ReasonShows(s);
    case _ =>
  }

  /** The planner is asked only when the queue is empty; either way the next step is the head of the queue, taken with
      the memory context of the moment. */
  lemma RunTakesHead(cfg: Config, o: Oracles, s: Session, maxSteps: int)
    requires s.status == Running && s.counter < maxSteps
    ensures var asked := s.(state := s.state.(memoryContext := o.context(s)));
      var queue := if s.planQueue == [] then o.plan(asked) else s.planQueue;
      queue != [] ==> Run(cfg, o, s, maxSteps) == Run(cfg, o, TakeStep(cfg, o, asked.(planQueue := queue)), maxSteps)
  {
  }

  /** A gap is cleared exactly in a session on hold with one and without a request, and nothing else changes. */
  lemma GapIsCleared(s: Session)
    ensures ClearGap(s) ==
      if s.status == Hold && s.pending == [] && s.state.reportedGap != None
      then s.(status := Running, state := s.state.(reportedGap := None)) else s
  {
  }

  /** Outside a run's budget, and in a session that does not run, a run does nothing but pause. */
  lemma SpentRunPauses(cfg: Config, o: Oracles, s: Session, maxSteps: int)
    ensures s.status != Running ==> Run(cfg, o, s, maxSteps) == s
    ensures s.status == Running && s.counter >= maxSteps ==> Run(cfg, o, s, maxSteps) == s.(status := Paused)
  {
  }
}
