/** The session object of src/aether_forge/runtime.py, updating its fields in place, and the tick of
    src/aether_forge/runner.py that drives it; both refine the value model of Runtime.dfy. */
module RuntimeSession {
  import opened Results
  import opened Values
  import opened Runtime
  import RuntimeSafety
  import Policy

  lemma TakeStepCounts(cfg: Config, o: Oracles, s: Session)
    requires s.planQueue != []
    ensures TakeStep(cfg, o, s).counter == s.counter + 1
  {
  }

  class RuntimeSession {
    const cfg: Config
    const gate: nat
    var status: Status
    var sessionState: SessionState
    var workingSet: WorkingSet
    var observations: seq<Observation>
    var planQueue: seq<Proposal>
    var pendingApprovals: seq<PendingApproval>
    var stepLedger: seq<Entry>
    var stepCounter: nat

    function State(): Session
      reads this
    {
      Session(status, sessionState, workingSet, observations, planQueue, pendingApprovals, stepLedger, stepCounter,
              gate)
    }

    constructor (cfg: Config, gate: nat, scenarioInputs: Payload, workingSet: WorkingSet)
      ensures this.cfg == cfg && State() == Fresh(gate, scenarioInputs, workingSet)
    {
      this.cfg, this.gate := cfg, gate;
      status := Running;
      sessionState := SessionState([], false, None, None, Null, scenarioInputs);
      this.workingSet := workingSet;
      observations, planQueue, pendingApprovals, stepLedger, stepCounter := [], [], [], [], 0;
    }

    method Append(e: Entry, lifecycle: Lifecycle, message: Message)
      modifies this`stepLedger
      ensures State() == Close(old(State()), e, lifecycle, message)
    {
      stepLedger := stepLedger + [e.(lifecycle := lifecycle, message := message, after := Snap(State()))];
    }

    /** `run`. */
    method Run(o: Oracles, maxSteps: int) returns (final: Status)
      modifies this
      ensures State() == Runtime.Run(cfg, o, old(State()), maxSteps)
      ensures final == status
    {
      while status == Running && stepCounter < maxSteps
        invariant Runtime.Run(cfg, o, State(), maxSteps) == Runtime.Run(cfg, o, old(State()), maxSteps)
        decreases maxSteps - stepCounter
      {
        ghost var before := State();
        sessionState := sessionState.(memoryContext := o.context(State()));
        if planQueue == [] {
          planQueue := o.plan(State());
          if planQueue == [] {
            status := if sessionState.goalSatisfied then Complete else Failed;
            assert State() == Prepare(o, before);
            break;
          }
        }
        assert State() == Prepare(o, before);
        TakeStepCounts(cfg, o, State());
        Step(o);
      }
      if status == Running && stepCounter >= maxSteps {
        status := Paused;
      }
      return status;
    }

    /** The body of the loop once the queue holds a proposal. */
    method Step(o: Oracles)
      requires planQueue != []
      modifies this
      ensures State() == TakeStep(cfg, o, old(State()))
    {
      ghost var before := State();
      var requestId := o.freshId(State());
      var proposal := planQueue[0];
      planQueue := planQueue[1..];
      stepCounter := stepCounter + 1;
      var snapshot := Snap(State());
      var e := Entry(stepCounter, proposal, Proposed, snapshot, snapshot, None, None, Described(""));
      assert State() == Popped(before) && e == Opened(before);
      match Meant(proposal.kind)
      case Some(Replan) =>
        planQueue := [];
        Append(e, StepComplete, Described(proposal.description));
      case Some(RequestApproval) =>
        pendingApprovals := pendingApprovals + [PendingApproval(requestId, proposal, e.stepId, [Policy.ApprovalRequired])];
        status := Hold;
        Append(e, ApprovalPending, Described(proposal.description));
      case Some(ReportGap) =>
        var gap := if proposal.payload != map[] then proposal.payload else map["message" := Text(proposal.description)];
        sessionState := sessionState.(reportedGap := Some(gap));
        status := Hold;
        Append(e, StepComplete, Described(proposal.description));
      case Some(Reason) => Note(e);
      case Some(UseCapability) => Use(o, e);
      case _ =>
        status := Failed;
        Append(e, StepFailed, UnsupportedKind(proposal.kind));
    }

    method Note(e: Entry)
      modifies this
      ensures State() == ReasonStep(old(State()), e)
    {
      var p := e.proposal;
      observations := observations + [ReasonObservation(p.description, p.payload)];
      if Truthy(Get(p.payload, "mark_complete")) {
        sessionState := sessionState.(goalSatisfied := true);
        status := Complete;
      }
      if Truthy(Get(p.payload, "requires_replan")) {
        planQueue := [];
      }
      Append(e, StepComplete, Described(p.description));
    }

    method Use(o: Oracles, e: Entry)
      modifies this
      ensures State() == UseStep(cfg, o, old(State()), e)
    {
      var p := e.proposal;
      var isMemory := IsMemory(p.capabilityId);
      var capability := Resolve(cfg.capabilities, p.capabilityId);
      if capability.None? && !isMemory {
        status := Failed;
        Append(e, StepFailed, NotDeclared(p.capabilityId));
        return;
      }
      if capability.None? {
        capability := Some(Synthetic(p.capabilityId.value));
      }
      if o.halted(State()) {
        Append(e, StepFailed, KillSwitch);
        status := Failed;
        return;
      }
      var d := cfg.judge(gate, capability.value, p.payload);
      var entry := e.(decision := Some(d));
      if d.disposition != Policy.Allow {
        Refuse(o, entry, d);
        return;
      }
      var r := if isMemory then ExecuteMemory(o, State(), p) else o.execute(State(), p, capability.value);
      Finish(entry.(result := Some(r)), r);
    }

    method Refuse(o: Oracles, e: Entry, d: Policy.Decision)
      modifies this
      ensures State() == RefuseStep(o, old(State()), e, d)
    {
      var requestId := o.freshId(State());
      sessionState := sessionState.(blockingReasonIds := d.reasonIds);
      if Policy.ApprovalRequired in d.reasonIds {
        pendingApprovals := pendingApprovals + [PendingApproval(requestId, e.proposal, e.stepId, d.reasonIds)];
      }
      status := Hold;
      Append(e, Denied, Refused(d.reasonIds));
    }

    method Finish(e: Entry, r: ExecutionResult)
      modifies this
      ensures State() == FinishStep(cfg, old(State()), e, r)
    {
      var p := e.proposal;
      if !r.success {
        status := Failed;
        Append(e, StepFailed, ExecutionFailed(r.failureReason));
        return;
      }
      var output := cfg.sanitize(r.output);
      observations := observations + [ResultObservation(p.capabilityId.GetOr(""), output)];
      workingSet := workingSet[WorkingKey(p.capabilityId) := output];
      if r.requiresReplan {
        planQueue := [];
      }
      if r.markComplete {
        sessionState := sessionState.(goalSatisfied := true);
        status := Complete;
      }
      Append(e, if status == Complete then StepComplete else Executed, Described(p.description));
    }

    /** `approve_pending`. */
    method ApprovePending(token: string, request: Option<nat>) returns (selected: Option<PendingApproval>)
      modifies this
      ensures (State(), selected) == Approve(old(State()), token, request)
    {
      selected := None;
      var i := 0;
      while i < |pendingApprovals|
        invariant i <= |pendingApprovals|
        invariant FindRequest(pendingApprovals, request) == FindRequest(pendingApprovals[i..], request)
      {
        var approval := pendingApprovals[i];
        if request.None? || approval.requestId == request.value {
          selected := Some(approval);
          break;
        }
        i := i + 1;
      }
      if selected.None? {
        return;
      }
      var kept: seq<PendingApproval> := [];
      var j := |pendingApprovals|;
      while j > 0
        invariant 0 <= j <= |pendingApprovals|
        invariant kept == WithoutRequest(pendingApprovals[j..], selected.value.requestId)
      {
        j := j - 1;
        assert pendingApprovals[j..][1..] == pendingApprovals[j + 1..];
        if pendingApprovals[j].requestId != selected.value.requestId {
          kept := [pendingApprovals[j]] + kept;
        }
      }
      assert pendingApprovals[0..] == pendingApprovals;
      pendingApprovals := kept;
      sessionState := sessionState.(lastApprovalToken := Some(token), blockingReasonIds := []);
      if Means(selected.value.proposal.kind, UseCapability) {
        planQueue := [Resumed(selected.value.proposal, token)] + planQueue;
      }
      status := Running;
    }
  }

  // ----- the runner's tick -----

  const MAX_RETRIES: nat := 5
  const HISTORY: nat := 200

  /** The last `n` elements: a list slice `xs[-n:]`, and what a deque of length `n` keeps. */
  function Latest(xs: seq<Status>, n: nat): seq<Status> {
    if |xs| <= n then xs else xs[|xs| - n..]
  }

  /** `_check_circuit_breaker` on a history of reported statuses. */
  predicate BreakerTrips(history: seq<Status>, threshold: int) {
    && threshold > 0
    && |Latest(history, threshold)| >= threshold
    && forall status :: status in Latest(history, threshold) ==> status != Complete
  }

  lemma LatestStep(full: seq<Status>, status: Status)
    ensures Latest(Latest(full, HISTORY) + [status], HISTORY) == Latest(full + [status], HISTORY)
  {
  }

  /** The history after ticks that reported these statuses, one append to the deque at a time. */
  function HistoryAfter(reports: seq<Status>): seq<Status> {
    if reports == [] then [] else Latest(HistoryAfter(reports[..|reports| - 1]) + [reports[|reports| - 1]], HISTORY)
  }

  lemma {:induction false} HistoryIsLatest(reports: seq<Status>)
    ensures HistoryAfter(reports) == Latest(reports, HISTORY)
  {
    if reports != [] {
      var front, last := reports[..|reports| - 1], reports[|reports| - 1];
      HistoryIsLatest(front);
      LatestStep(front, last);
      assert front + [last] == reports;
    }
  }

  /** Over any sequence of ticks the breaker trips exactly when its threshold is from 1 to 200, that many reports
      were ever made, and none of the last that many of them all is COMPLETE. */
  lemma BreakerOverTicks(reports: seq<Status>, threshold: int)
    ensures BreakerTrips(HistoryAfter(reports), threshold) <==>
            && 0 < threshold <= 200 && threshold <= |reports|
            && forall i :: |reports| - threshold <= i < |reports| ==> reports[i] != Complete
  {
    HistoryIsLatest(reports);
    BreakerOnBoundedHistory(reports, threshold);
    TripsByIndex(reports, threshold);
  }

  lemma TripsByIndex(reports: seq<Status>, threshold: int)
    ensures BreakerTrips(reports, threshold) <==>
            && 0 < threshold <= |reports|
            && forall i :: |reports| - threshold <= i < |reports| ==> reports[i] != Complete
  {
    if 0 < threshold <= |reports| {
      var first, latest := |reports| - threshold, Latest(reports, threshold);
      forall i | first <= i < |reports| && BreakerTrips(reports, threshold) ensures reports[i] != Complete {
        assert latest[i - first] in latest;
      }
      if Complete in latest {
        var k :| 0 <= k < |latest| && latest[k] == Complete;
        assert reports[first + k] == Complete;
      }
    }
  }

  /** On the bounded history the breaker decides as on the full one exactly for thresholds up to the bound:
      with a larger threshold it never trips, however many ticks fail. */
  lemma BreakerOnBoundedHistory(full: seq<Status>, threshold: int)
    ensures BreakerTrips(Latest(full, HISTORY), threshold) <==> threshold <= HISTORY && BreakerTrips(full, threshold)
  {
    if 0 < threshold <= HISTORY {
      assert Latest(Latest(full, HISTORY), threshold) == Latest(full, threshold);
    }
  }

  /** Auto-approval is on: it is configured, and the environment is a sandbox or a paper one. */
  predicate Automatic(autoApprove: bool, environment: string) {
    autoApprove && environment in {"sandbox", "paper"}
  }

  /** What may be done next with a session: a running one is run; a held one has its pending request approved, with
      that request's own identifier for a token, or, when nothing is pending, its reported gap cleared. */
  ghost predicate Due(u: Session, op: Op, o: Oracles, maxSteps: int, tokenOf: nat -> string) {
    match op
    case DoRun(oracles, steps) => u.status == Running && oracles == o && steps == maxSteps
    case DoApprove(token, request) =>
      && u.status == Hold && u.pending != [] && request == None
      && token == tokenOf(u.pending[0].requestId)
    case DoClearGap => u.status == Hold && u.pending == [] && u.state.reportedGap.Some?
    case _ => false
  }

  ghost predicate Steered(cfg: Config, s: Session, ops: seq<Op>, o: Oracles, maxSteps: int, tokenOf: nat -> string) {
    forall k :: 0 <= k < |ops| ==> Due(ApplyAll(cfg, s, ops[..k]), ops[k], o, maxSteps, tokenOf)
  }

  ghost function Runs(ops: seq<Op>): nat {
    if ops == [] then 0 else Runs(ops[..|ops| - 1]) + if ops[|ops| - 1].DoRun? then 1 else 0
  }

  /** What a tick does to its session: each operation is the one due; there is one run, or up to six of them when
      approval is automatic; and then the session is held only when nothing can be done about it, or six were not
      enough. */
  ghost predicate Governed(cfg: Config, s: Session, ops: seq<Op>, automatic: bool, o: Oracles, maxSteps: int,
                           tokenOf: nat -> string) {
    var u := ApplyAll(cfg, s, ops);
    && Steered(cfg, s, ops, o, maxSteps, tokenOf)
    && u.status != Running
    && (if automatic then Runs(ops) <= 6 else Runs(ops) <= 1)
    && (automatic && u.status == Hold ==> (u.pending == [] && u.state.reportedGap.None?) || Runs(ops) == 6)
  }

  lemma SteeredStep(cfg: Config, s: Session, ops: seq<Op>, op: Op, o: Oracles, maxSteps: int, tokenOf: nat -> string)
    requires Steered(cfg, s, ops, o, maxSteps, tokenOf)
    requires Due(ApplyAll(cfg, s, ops), op, o, maxSteps, tokenOf)
    ensures Steered(cfg, s, ops + [op], o, maxSteps, tokenOf)
    ensures ApplyAll(cfg, s, ops + [op]) == Apply(cfg, ApplyAll(cfg, s, ops), op)
    ensures Runs(ops + [op]) == Runs(ops) + if op.DoRun? then 1 else 0
  {
    var next := ops + [op];
    assert next[..|ops|] == ops;
    forall k | 0 <= k < |next| ensures Due(ApplyAll(cfg, s, next[..k]), next[k], o, maxSteps, tokenOf) {
      if k < |ops| {
        assert next[..k] == ops[..k];
      }
    }
  }

  class AgentRunner {
    var workingSet: WorkingSet
    var tickHistory: seq<Status>

    /** The approvals of a retry: one for each request pending before. */
    method ApproveEach(session: RuntimeSession, o: Oracles, maxSteps: int, tokenOf: nat -> string,
                       ghost start: Session, ghost done: seq<Op>)
      returns (ghost ops: seq<Op>)
      requires session.status == Hold && |session.pendingApprovals| == 1
      requires session.State() == ApplyAll(session.cfg, start, done)
      requires Steered(session.cfg, start, done, o, maxSteps, tokenOf)
      modifies session
      ensures session.State() == ApplyAll(session.cfg, start, ops)
      ensures Steered(session.cfg, start, ops, o, maxSteps, tokenOf)
      ensures |ops| == |done| + 1 && Runs(ops) == Runs(done)
      ensures session.status == Running
    {
      ops := done;
      var approvals := session.pendingApprovals;
      for i := 0 to |approvals|
        invariant session.State() == ApplyAll(session.cfg, start, ops)
        invariant Steered(session.cfg, start, ops, o, maxSteps, tokenOf)
        invariant |ops| == |done| + i && Runs(ops) == Runs(done)
        invariant i == 0 ==> session.pendingApprovals == approvals && session.status == Hold
        invariant i == 1 ==> session.status == Running
      {
        // The source passes the request identifier as the token and approves the first request.
        var token := tokenOf(approvals[i].requestId);
        assert Due(session.State(), DoApprove(token, None), o, maxSteps, tokenOf);
        SteeredStep(session.cfg, start, ops, DoApprove(token, None), o, maxSteps, tokenOf);
        var _ := session.ApprovePending(token, None);
        ops := ops + [DoApprove(token, None)];
      }
    }

    /** One retry of the auto-approve loop: approve once for each pending request, or clear the reported gap,
        and run again. Nothing happens when there is neither. */
    method Retry(session: RuntimeSession, o: Oracles, maxSteps: int, tokenOf: nat -> string,
                 ghost start: Session, ghost done: seq<Op>)
      returns (resumed: bool, ghost ops: seq<Op>)
      requires session.status == Hold && |session.pendingApprovals| <= 1
      requires session.State() == ApplyAll(session.cfg, start, done)
      requires Steered(session.cfg, start, done, o, maxSteps, tokenOf)
      modifies session
      ensures session.State() == ApplyAll(session.cfg, start, ops)
      ensures Steered(session.cfg, start, ops, o, maxSteps, tokenOf)
      ensures if resumed then |ops| == |done| + 2 && Runs(ops) == Runs(done) + 1 else ops == done
      ensures resumed <==> old(session.pendingApprovals) != [] || old(session.sessionState).reportedGap.Some?
      ensures session.status != Running
    {
      if session.pendingApprovals != [] {
        ops := ApproveEach(session, o, maxSteps, tokenOf, start, done);
      } else if session.sessionState.reportedGap.Some? {
        SteeredStep(session.cfg, start, done, DoClearGap, o, maxSteps, tokenOf);
        session.sessionState := session.sessionState.(reportedGap := None);
        session.status := Running;
        ops := done + [DoClearGap];
      } else {
        return false, done;
      }
      RunNotRunning(session.cfg, o, session.State(), maxSteps);
      SteeredStep(session.cfg, start, ops, DoRun(o, maxSteps), o, maxSteps, tokenOf);
      var _ := session.Run(o, maxSteps);
      return true, ops + [DoRun(o, maxSteps)];
    }

    /** The governed part of `tick` (src/aether_forge/runner.py:362-382): run, and retry at most five times
        when auto-approval is configured in a sandbox or paper environment. */
    method Govern(session: RuntimeSession, o: Oracles, maxSteps: int, automatic: bool, tokenOf: nat -> string,
                  ghost initial: WorkingSet)
      returns (ghost ops: seq<Op>)
      requires RuntimeSafety.Good(session.cfg, initial, session.State()) && session.status == Running
      modifies session
      ensures session.State() == ApplyAll(session.cfg, old(session.State()), ops)
      ensures Governed(session.cfg, old(session.State()), ops, automatic, o, maxSteps, tokenOf)
      ensures |ops| <= 1 + 2 * MAX_RETRIES
    {
      ghost var start := session.State();
      RunNotRunning(session.cfg, o, start, maxSteps);
      SteeredStep(session.cfg, start, [], DoRun(o, maxSteps), o, maxSteps, tokenOf);
      var _ := session.Run(o, maxSteps);
      ops := [] + [DoRun(o, maxSteps)];
      var retries := 0;
      while automatic && session.status == Hold && retries < MAX_RETRIES
        invariant retries <= MAX_RETRIES && |ops| <= 1 + 2 * retries && Runs(ops) == 1 + retries
        invariant !automatic ==> retries == 0
        invariant session.State() == ApplyAll(session.cfg, start, ops)
        invariant Steered(session.cfg, start, ops, o, maxSteps, tokenOf)
        invariant session.status != Running
        decreases MAX_RETRIES - retries
      {
        OpsKeepGood(session.cfg, initial, start, ops);
        var resumed;
        assert |session.pendingApprovals| <= 1;
        resumed, ops := Retry(session, o, maxSteps, tokenOf, start, ops);
        if !resumed {
          break;
        }
        retries := retries + 1;
      }
    }

    /** `tick`: its session is a reachable one, governed as above and absorbed at the end; the status reported is
        that session's, and FAILED or COMPLETE; the replay written is that session's; the runner's working set
        becomes that session's, never losing a key; and the bounded history keeps the latest reports. The permissive
        gate stands in for the native one exactly when approval is automatic. */
    method Tick(cfg: Config, gate: nat, permissive: nat, o: Oracles, inputs: Payload, maxSteps: int, autoApprove: bool,
                environment: string, tokenOf: nat -> string)
      returns (reported: Status, replay: Option<Replay>, ghost ops: seq<Op>)
      modifies this
      ensures |ops| <= 1 + 2 * MAX_RETRIES
      ensures var automatic := Automatic(autoApprove, environment);
        var start := Fresh(if automatic then permissive else gate, inputs, old(workingSet));
        var s := Absorb(ApplyAll(cfg, start, ops));
        && Governed(cfg, start, ops, automatic, o, maxSteps, tokenOf)
        && workingSet == s.workingSet
        && old(workingSet).Keys <= workingSet.Keys
        && reported == s.status && (reported == Failed || reported == Complete)
        && replay == Export(s)
      ensures tickHistory == Latest(old(tickHistory) + [reported], HISTORY)
    {
      var automatic := Automatic(autoApprove, environment);
      var chosen := if automatic then permissive else gate;
      var session := new RuntimeSession(cfg, chosen, inputs, workingSet);
      ghost var start := session.State();
      RuntimeSafety.ReachableIsGood(cfg, chosen, inputs, workingSet, []);
      ops := Govern(session, o, maxSteps, automatic, tokenOf, workingSet);
      var status := session.status;
      if status == Paused || status == Hold {
        status := Complete;
        session.status := Complete;
      }
      TickKeepsKeys(cfg, chosen, inputs, workingSet, ops);
      workingSet := workingSet + session.workingSet;
      replay := Export(session.State());
      tickHistory := Latest(tickHistory + [status], HISTORY);
      return status, replay, ops;
    }
  }

  // ----- what a tick may do -----

  /** After an approval or a cleared gap the session runs, so a run is what comes next, and comes before the end. */
  lemma ResumedIsRunAgain(cfg: Config, s: Session, ops: seq<Op>, k: nat, o: Oracles, maxSteps: int,
                          tokenOf: nat -> string)
    requires Steered(cfg, s, ops, o, maxSteps, tokenOf) && k < |ops| && !ops[k].DoRun?
    requires ApplyAll(cfg, s, ops).status != Running
    ensures k + 1 < |ops| && ops[k + 1].DoRun?
  {
    SteeredAt(cfg, s, ops, k, o, maxSteps, tokenOf);
    ResumingRuns(cfg, ApplyAll(cfg, s, ops[..k]), ops[k], o, maxSteps, tokenOf);
    AddOp(cfg, s, ops[..k], ops[k]);
    assert ops[..k] + [ops[k]] == ops[..k + 1] && ops[..|ops|] == ops;
    if k + 1 < |ops| {
      SteeredAt(cfg, s, ops, k + 1, o, maxSteps, tokenOf);
    }
  }

  lemma ResumingRuns(cfg: Config, u: Session, op: Op, o: Oracles, maxSteps: int, tokenOf: nat -> string)
    requires Due(u, op, o, maxSteps, tokenOf) && !op.DoRun?
    ensures Apply(cfg, u, op).status == Running
  {
  }

  /** With no automatic approval a tick is one run: it approves nothing, clears nothing and leaves no token. */
  lemma NothingIsApproved(cfg: Config, gate: nat, inputs: Payload, initial: WorkingSet, ops: seq<Op>, o: Oracles,
                          maxSteps: int, tokenOf: nat -> string)
    requires Governed(cfg, Fresh(gate, inputs, initial), ops, false, o, maxSteps, tokenOf)
    ensures ops == [DoRun(o, maxSteps)]
    ensures ApplyAll(cfg, Fresh(gate, inputs, initial), ops).state.lastApprovalToken == None
  {
    var s := Fresh(gate, inputs, initial);
    OnlyRun(cfg, s, ops, o, maxSteps, tokenOf);
    OneOp(cfg, s, DoRun(o, maxSteps));
    TokenKept(cfg, o, s, maxSteps);
  }

  lemma OnlyRun(cfg: Config, s: Session, ops: seq<Op>, o: Oracles, maxSteps: int, tokenOf: nat -> string)
    requires s.status == Running && Governed(cfg, s, ops, false, o, maxSteps, tokenOf)
    ensures ops == [DoRun(o, maxSteps)]
  {
    BeginsWithRun(cfg, s, ops, o, maxSteps, tokenOf);
    if |ops| >= 2 && ops[1].DoRun? {
      TwoRuns(ops, 0, 1);
    } else if |ops| >= 2 {
      ResumedIsRunAgain(cfg, s, ops, 1, o, maxSteps, tokenOf);
      TwoRuns(ops, 0, 2);
    }
  }

  lemma BeginsWithRun(cfg: Config, s: Session, ops: seq<Op>, o: Oracles, maxSteps: int, tokenOf: nat -> string)
    requires s.status == Running && Steered(cfg, s, ops, o, maxSteps, tokenOf)
    requires ApplyAll(cfg, s, ops).status != Running
    ensures ops != [] && ops[0] == DoRun(o, maxSteps)
  {
    assert ops != [];
    assert ApplyAll(cfg, s, ops[..0]) == s;
    SteeredAt(cfg, s, ops, 0, o, maxSteps, tokenOf);
  }

  lemma {:induction false} TwoRuns(ops: seq<Op>, j: nat, k: nat)
    requires j < k < |ops| && ops[j].DoRun? && ops[k].DoRun?
    ensures Runs(ops) >= 2
  {
    var front := ops[..|ops| - 1];
    if k < |front| {
      TwoRuns(front, j, k);
    } else {
      OneRun(front, j);
    }
  }

  lemma {:induction false} OneRun(ops: seq<Op>, j: nat)
    requires j < |ops| && ops[j].DoRun?
    ensures Runs(ops) >= 1
  {
    if j < |ops| - 1 {
      OneRun(ops[..|ops| - 1], j);
    }
  }

  /** Only an approval changes the approval token. */
  lemma {:induction false} TokenKept(cfg: Config, o: Oracles, s: Session, maxSteps: int)
    ensures Runtime.Run(cfg, o, s, maxSteps).state.lastApprovalToken == s.state.lastApprovalToken
    decreases maxSteps - s.counter
  {
    if s.status == Running && s.counter < maxSteps && Prepare(o, s).planQueue != [] {
      var t := Prepare(o, s);
      TakeStepCounts(cfg, o, t);
      StepKeepsToken(cfg, o, t);
      TokenKept(cfg, o, TakeStep(cfg, o, t), maxSteps);
    }
  }

  lemma StepKeepsToken(cfg: Config, o: Oracles, s: Session)
    requires s.planQueue != []
    ensures TakeStep(cfg, o, s).state.lastApprovalToken == s.state.lastApprovalToken
  {
  }

  /** Nothing is left to choose: two ways of governing the same session the same way are the same. */
  lemma GovernedIsUnique(cfg: Config, s: Session, ops: seq<Op>, other: seq<Op>, automatic: bool, o: Oracles,
                         maxSteps: int, tokenOf: nat -> string)
    requires s.status == Running
    requires Governed(cfg, s, ops, automatic, o, maxSteps, tokenOf)
    requires Governed(cfg, s, other, automatic, o, maxSteps, tokenOf)
    ensures ops == other
  {
    if |ops| <= |other| {
      SteeredAlike(cfg, s, ops, other, |ops|, o, maxSteps, tokenOf);
      NoLonger(cfg, s, ops, other, automatic, o, maxSteps, tokenOf);
    } else {
      SteeredAlike(cfg, s, other, ops, |other|, o, maxSteps, tokenOf);
      NoLonger(cfg, s, other, ops, automatic, o, maxSteps, tokenOf);
    }
  }

  lemma {:induction false} SteeredAlike(cfg: Config, s: Session, ops: seq<Op>, other: seq<Op>, k: nat, o: Oracles,
                                        maxSteps: int, tokenOf: nat -> string)
    requires k <= |ops| && k <= |other|
    requires Steered(cfg, s, ops, o, maxSteps, tokenOf) && Steered(cfg, s, other, o, maxSteps, tokenOf)
    ensures ops[..k] == other[..k]
  {
    if k > 0 {
      SteeredAlike(cfg, s, ops, other, k - 1, o, maxSteps, tokenOf);
      SteeredAt(cfg, s, ops, k - 1, o, maxSteps, tokenOf);
      SteeredAt(cfg, s, other, k - 1, o, maxSteps, tokenOf);
      DueAlike(ApplyAll(cfg, s, ops[..k - 1]), ops[k - 1], other[k - 1], o, maxSteps, tokenOf);
      SameFront(ops, other, k);
    }
  }

  lemma SteeredAt(cfg: Config, s: Session, ops: seq<Op>, k: nat, o: Oracles, maxSteps: int, tokenOf: nat -> string)
    requires Steered(cfg, s, ops, o, maxSteps, tokenOf) && k < |ops|
    ensures Due(ApplyAll(cfg, s, ops[..k]), ops[k], o, maxSteps, tokenOf)
  {
  }

  lemma SameFront(ops: seq<Op>, other: seq<Op>, k: nat)
    requires 0 < k <= |ops| && k <= |other| && ops[..k - 1] == other[..k - 1] && ops[k - 1] == other[k - 1]
    ensures ops[..k] == other[..k]
  {
    assert ops[..k] == ops[..k - 1] + [ops[k - 1]];
    assert other[..k] == other[..k - 1] + [other[k - 1]];
  }

  lemma DueAlike(u: Session, op: Op, other: Op, o: Oracles, maxSteps: int, tokenOf: nat -> string)
    requires Due(u, op, o, maxSteps, tokenOf) && Due(u, other, o, maxSteps, tokenOf)
    ensures op == other
  {
  }

  lemma NoLonger(cfg: Config, s: Session, ops: seq<Op>, other: seq<Op>, automatic: bool, o: Oracles, maxSteps: int,
                 tokenOf: nat -> string)
    requires s.status == Running && |ops| <= |other| && other[..|ops|] == ops[..|ops|]
    requires Governed(cfg, s, ops, automatic, o, maxSteps, tokenOf)
    requires Governed(cfg, s, other, automatic, o, maxSteps, tokenOf)
    ensures ops == other
  {
    var n := |ops|;
    assert ops[..n] == ops && other[..|other|] == other;
    if n < |other| {
      SteeredAt(cfg, s, other, n, o, maxSteps, tokenOf);
      ResumedIsRunAgain(cfg, s, other, n, o, maxSteps, tokenOf);
      MoreRuns(other, n, n + 1);
      BeginsWithRun(cfg, s, ops, o, maxSteps, tokenOf);
      OneRun(ops, 0);
    }
  }

  lemma {:induction false} MoreRuns(ops: seq<Op>, n: nat, k: nat)
    requires n <= k < |ops| && ops[k].DoRun?
    ensures Runs(ops) >= Runs(ops[..n]) + 1
  {
    var front := ops[..|ops| - 1];
    if k < |front| {
      MoreRuns(front, n, k);
      assert front[..n] == ops[..n];
    } else {
      FewerRuns(front, n);
      assert front[..n] == ops[..n];
    }
  }

  lemma {:induction false} FewerRuns(ops: seq<Op>, n: nat)
    requires n <= |ops|
    ensures Runs(ops[..n]) <= Runs(ops)
  {
    if n < |ops| {
      FewerRuns(ops[..|ops| - 1], n);
      assert ops[..|ops| - 1][..n] == ops[..n];
    } else {
      assert ops[..n] == ops;
    }
  }

  lemma {:induction false} OpsKeepGood(cfg: Config, initial: WorkingSet, s: Session, ops: seq<Op>)
    requires RuntimeSafety.Good(cfg, initial, s)
    ensures RuntimeSafety.Good(cfg, initial, ApplyAll(cfg, s, ops))
  {
    if ops != [] {
      OpsKeepGood(cfg, initial, s, ops[..|ops| - 1]);
      RuntimeSafety.ApplyKeepsGood(cfg, initial, ApplyAll(cfg, s, ops[..|ops| - 1]), ops[|ops| - 1]);
    }
  }

  /** Whatever a tick does, its session keeps every key of the working set it began with. */
  lemma TickKeepsKeys(cfg: Config, gate: nat, inputs: Payload, initial: WorkingSet, ops: seq<Op>)
    ensures var s := Absorb(ApplyAll(cfg, Fresh(gate, inputs, initial), ops));
      initial.Keys <= s.workingSet.Keys && initial + s.workingSet == s.workingSet
  {
    RuntimeSafety.ReachableIsGood(cfg, gate, inputs, initial, ops);
    RuntimeSafety.WorkingKeys(cfg, initial, ApplyAll(cfg, Fresh(gate, inputs, initial), ops).ledger);
  }

  lemma {:induction false} RunNotRunning(cfg: Config, o: Oracles, s: Session, maxSteps: int)
    ensures Runtime.Run(cfg, o, s, maxSteps).status != Running
    decreases maxSteps - s.counter
  {
    if s.status == Running && s.counter < maxSteps && Prepare(o, s).planQueue != [] {
      TakeStepCounts(cfg, o, Prepare(o, s));
      RunNotRunning(cfg, o, TakeStep(cfg, o, Prepare(o, s)), maxSteps);
    }
  }

  lemma OneOp(cfg: Config, s: Session, op: Op)
    ensures ApplyAll(cfg, s, [op]) == Apply(cfg, s, op)
  {
    assert [op][..0] == [];
  }

  lemma AddOp(cfg: Config, s: Session, ops: seq<Op>, op: Op)
    ensures ApplyAll(cfg, s, ops + [op]) == Apply(cfg, ApplyAll(cfg, s, ops), op)
  {
    assert (ops + [op])[..|ops|] == ops;
  }
}
