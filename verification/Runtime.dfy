/** The session of src/aether_forge/runtime.py as a value: what one step, one run, one approval and one
    replay do to it. RuntimeSession.dfy has the object that updates its fields in place. */
module Runtime {
  import opened Results
  import opened Values
  import Policy

  // ----- data model -----

  datatype Status = Running | Hold | Paused | Failed | Complete

  /** `Named` is a kind given as plain text, which a foreign planner may propose. */
  datatype Kind = Reason | UseCapability | RequestApproval | Replan | ReportGap | Named(name: string)

  /** The member a kind is taken for: `StepKind` is an enumeration of strings, so text that equals a member's
      value is taken for that member, and other text for none. */
  function Meant(k: Kind): Option<Kind> {
    if k.Named? then ParseKind(k.name) else Some(k)
  }

  predicate Means(k: Kind, member: Kind) {
    Meant(k) == Some(member)
  }

  datatype Lifecycle =
    | Proposed | Validated | PolicyChecked | ApprovalPending | Executed | Recorded | Denied
    | StepFailed | StepComplete

  datatype Proposal = Proposal(kind: Kind, description: string, capabilityId: Option<string>, payload: Payload)

  datatype ExecutionResult = ExecutionResult(
    success: bool, output: Value, markComplete: bool, requiresReplan: bool, failureReason: Option<string>)

  datatype PendingApproval = PendingApproval(
    requestId: nat, proposal: Proposal, createdFromStep: nat, reasonIds: seq<Policy.Reason>)

  datatype Observation =
    | ReasonObservation(description: string, payload: Payload)
    | ResultObservation(capabilityId: string, output: Value)

  datatype SessionState = SessionState(
    blockingReasonIds: seq<Policy.Reason>, goalSatisfied: bool, reportedGap: Option<Payload>,
    lastApprovalToken: Option<string>, memoryContext: Value, scenarioInputs: Payload)

  datatype Message =
    | Described(text: string)
    | UnsupportedKind(kind: Kind)
    | NotDeclared(capabilityId: Option<string>)
    | KillSwitch
    | Refused(reasons: seq<Policy.Reason>)
    | ExecutionFailed(reason: Option<string>)

  type WorkingSet = map<string, Value>

  /** `_snapshot_state`. */
  datatype Snapshot = Snapshot(
    status: Status, state: SessionState, workingSet: WorkingSet, queueLength: nat,
    pending: seq<PendingApproval>, observationCount: nat)

  datatype Entry = Entry(
    stepId: nat, proposal: Proposal, lifecycle: Lifecycle, before: Snapshot, after: Snapshot,
    decision: Option<Policy.Decision>, result: Option<ExecutionResult>, message: Message)

  datatype Session = Session(
    status: Status, state: SessionState, workingSet: WorkingSet, observations: seq<Observation>,
    planQueue: seq<Proposal>, pending: seq<PendingApproval>, ledger: seq<Entry>, counter: nat, gate: nat)

  /** What stays fixed during a session's life: the manifest, the gates its hosts install, by number, and the
      output sanitizer. */
  datatype Config = Config(
    capabilities: seq<Policy.Capability>,
    judge: (nat, Policy.Capability, Payload) -> Policy.Decision,
    sanitize: Value -> Value)

  /** Everything a run asks the outside world: the planner, the execution router, the memory store, the
      kill switch and fresh identifiers. None of them changes the session. */
  datatype Oracles = Oracles(
    plan: Session -> seq<Proposal>,
    execute: (Session, Proposal, Policy.Capability) -> ExecutionResult,
    memory: (Session, Proposal) -> (bool, Value, string),
    context: Session -> Value,
    halted: Session -> bool,
    freshId: Session -> nat)

  // ----- one step -----

  function Snap(s: Session): Snapshot {
    Snapshot(s.status, s.state, s.workingSet, |s.planQueue|, s.pending, |s.observations|)
  }

  /** Completes the entry with the state it led to and appends it to the ledger. */
  function Close(s: Session, e: Entry, lifecycle: Lifecycle, message: Message): Session {
    s.(ledger := s.ledger + [e.(lifecycle := lifecycle, message := message, after := Snap(s))])
  }

  /** `_resolve_capability`. */
  function Resolve(capabilities: seq<Policy.Capability>, id: Option<string>): Option<Policy.Capability> {
    if id.None? || capabilities == [] then None
    else if capabilities[0].capabilityId == id.value then Some(capabilities[0])
    else Resolve(capabilities[1..], id)
  }

  predicate IsMemory(id: Option<string>) {
    id.Some? && "memory." <= id.value
  }

  function Synthetic(id: string): Policy.Capability {
    Policy.Capability(id, "memory-action", None, {"sandbox", "paper", "canary-live", "production"},
                      None, None, false, false, Null)
  }

  /** The capability a use step is judged and executed with. */
  function CapabilityFor(cfg: Config, id: Option<string>): Option<Policy.Capability> {
    var declared := Resolve(cfg.capabilities, id);
    if declared.None? && IsMemory(id) then Some(Synthetic(id.value)) else declared
  }

  /** `_execute_memory_operation`. */
  function ExecuteMemory(o: Oracles, s: Session, p: Proposal): ExecutionResult {
    var id := p.capabilityId.GetOr("");
    if id == "memory.read" || id == "memory.write" then
      ExecutionResult(true, o.memory(s, p).1, false, false, None)
    else if id == "memory.promote" then
      var (promoted, output, reason) := o.memory(s, p);
      ExecutionResult(promoted, output, false, false, if promoted then None else Some(reason))
    else ExecutionResult(false, Null, false, false, Some("Unknown memory operation: " + id))
  }

  function WorkingKey(id: Option<string>): string {
    if id.GetOr("") == "" then "unknown-capability" else id.value
  }

  /** Takes the first proposal off the queue and opens its ledger entry. */
  function Popped(s: Session): Session
    requires s.planQueue != []
  {
    s.(planQueue := s.planQueue[1..], counter := s.counter + 1)
  }

  function Opened(s: Session): Entry
    requires s.planQueue != []
  {
    var t := Popped(s);
    Entry(t.counter, s.planQueue[0], Proposed, Snap(t), Snap(t), None, None, Described(""))
  }

  /** Lines 238-520: one proposal from the queue to the ledger. */
  function TakeStep(cfg: Config, o: Oracles, s: Session): Session
    requires s.planQueue != []
  {
    var t, e := Popped(s), Opened(s);
    var p := e.proposal;
    match Meant(p.kind)
    case Some(Replan) => Close(t.(planQueue := []), e, StepComplete, Described(p.description))
    case Some(RequestApproval) =>
      var asked := PendingApproval(o.freshId(s), p, e.stepId, [Policy.ApprovalRequired]);
      Close(t.(pending := t.pending + [asked], status := Hold), e, ApprovalPending, Described(p.description))
    case Some(ReportGap) =>
      var gap := if p.payload != map[] then p.payload else map["message" := Text(p.description)];
      Close(t.(state := t.state.(reportedGap := Some(gap)), status := Hold), e, StepComplete, Described(p.description))
    case Some(Reason) => ReasonStep(t, e)
    case Some(UseCapability) => UseStep(cfg, o, t, e)
    case _ => Close(t.(status := Failed), e, StepFailed, UnsupportedKind(p.kind))
  }

  function ReasonStep(s: Session, e: Entry): Session {
    var p := e.proposal;
    var t := s.(observations := s.observations + [ReasonObservation(p.description, p.payload)]);
    var u := if Truthy(Get(p.payload, "mark_complete"))
             then t.(state := t.state.(goalSatisfied := true), status := Complete) else t;
    var v := if Truthy(Get(p.payload, "requires_replan")) then u.(planQueue := []) else u;
    Close(v, e, StepComplete, Described(p.description))
  }

  function UseStep(cfg: Config, o: Oracles, s: Session, e: Entry): Session {
    var p := e.proposal;
    var capability := CapabilityFor(cfg, p.capabilityId);
    if capability.None? then Close(s.(status := Failed), e, StepFailed, NotDeclared(p.capabilityId))
    else if o.halted(s) then Close(s, e, StepFailed, KillSwitch).(status := Failed)
    else
      var d := cfg.judge(s.gate, capability.value, p.payload);
      var judged := e.(decision := Some(d));
      if d.disposition != Policy.Allow then RefuseStep(o, s, judged, d)
      else
        var r := if IsMemory(p.capabilityId) then ExecuteMemory(o, s, p) else o.execute(s, p, capability.value);
        FinishStep(cfg, s, judged.(result := Some(r)), r)
  }

  /** Lines 383-413. */
  function RefuseStep(o: Oracles, s: Session, e: Entry, d: Policy.Decision): Session {
    var t := s.(state := s.state.(blockingReasonIds := d.reasonIds));
    var u := if Policy.ApprovalRequired in d.reasonIds
             then t.(pending := t.pending + [PendingApproval(o.freshId(s), e.proposal, e.stepId, d.reasonIds)])
             else t;
    Close(u.(status := Hold), e, Denied, Refused(d.reasonIds))
  }

  /** Lines 428-520. */
  function FinishStep(cfg: Config, s: Session, e: Entry, r: ExecutionResult): Session {
    var p := e.proposal;
    if !r.success then Close(s.(status := Failed), e, StepFailed, ExecutionFailed(r.failureReason))
    else
      var output := cfg.sanitize(r.output);
      var t := s.(observations := s.observations + [ResultObservation(p.capabilityId.GetOr(""), output)],
                  workingSet := s.workingSet[WorkingKey(p.capabilityId) := output]);
      var u := if r.requiresReplan then t.(planQueue := []) else t;
      var v := if r.markComplete then u.(state := u.state.(goalSatisfied := true), status := Complete) else u;
      Close(v, e, if v.status == Complete then StepComplete else Executed, Described(p.description))
  }

  // ----- runs, approvals, gaps -----

  /** Lines 224-236: memory context, then a new plan when the queue is empty; an empty plan ends the run. */
  function Prepare(o: Oracles, s: Session): Session {
    var t := s.(state := s.state.(memoryContext := o.context(s)));
    if t.planQueue != [] then t
    else
      var plan := o.plan(t);
      if plan == [] then t.(status := if t.state.goalSatisfied then Complete else Failed)
      else t.(planQueue := plan)
  }

  /** `run`. */
  function Run(cfg: Config, o: Oracles, s: Session, maxSteps: int): Session
    decreases maxSteps - s.counter
  {
    if s.status == Running && s.counter < maxSteps then
      var t := Prepare(o, s);
      if t.planQueue == [] then t else Run(cfg, o, TakeStep(cfg, o, t), maxSteps)
    else if s.status == Running then s.(status := Paused)
    else s
  }

  function FindRequest(pending: seq<PendingApproval>, request: Option<nat>): Option<PendingApproval> {
    if pending == [] then None
    else if request.None? || pending[0].requestId == request.value then Some(pending[0])
    else FindRequest(pending[1..], request)
  }

  function WithoutRequest(pending: seq<PendingApproval>, requestId: nat): seq<PendingApproval> {
    if pending == [] then []
    else
      var rest := WithoutRequest(pending[1..], requestId);
      if pending[0].requestId != requestId then [pending[0]] + rest else rest
  }

  function Resumed(p: Proposal, token: string): Proposal {
    p.(payload := p.payload["approval_token" := Text(token)])
  }

  /** `approve_pending`. */
  function Approve(s: Session, token: string, request: Option<nat>): (Session, Option<PendingApproval>) {
    match FindRequest(s.pending, request)
    case None => (s, None)
    case Some(selected) =>
      var state := s.state.(lastApprovalToken := Some(token), blockingReasonIds := []);
      var queue := if Means(selected.proposal.kind, UseCapability)
                   then [Resumed(selected.proposal, token)] + s.planQueue else s.planQueue;
      (s.(pending := WithoutRequest(s.pending, selected.requestId), state := state, planQueue := queue,
          status := Running), Some(selected))
  }

  /** The runner clears a reported gap and resumes (src/aether_forge/runner.py:375-378). */
  function ClearGap(s: Session): Session {
    if s.status == Hold && s.pending == [] && s.state.reportedGap.Some?
    then s.(state := s.state.(reportedGap := None), status := Running)
    else s
  }

  /** The runner's override at the end of a tick (src/aether_forge/runner.py:384-387): a paused or held
      session is written down as COMPLETE, with whatever is still pending. */
  function Absorb(s: Session): Session {
    if s.status == Paused || s.status == Hold then s.(status := Complete) else s
  }

  // ----- replay -----

  function StatusName(s: Status): string {
    match s
    case Running => "running"
    case Hold => "hold"
    case Paused => "paused"
    case Failed => "failed"
    case Complete => "complete"
  }

  function ParseStatus(name: string): Option<Status> {
    if name == "running" then Some(Running)
    else if name == "hold" then Some(Hold)
    else if name == "paused" then Some(Paused)
    else if name == "failed" then Some(Failed)
    else if name == "complete" then Some(Complete)
    else None
  }

  /** `.value` of a kind; plain text has none and raises, whatever it says. */
  function KindName(k: Kind): Option<string> {
    match k
    case Reason => Some("reason")
    case UseCapability => Some("use-capability")
    case RequestApproval => Some("request-approval")
    case Replan => Some("replan")
    case ReportGap => Some("report-gap")
    case Named(_) => None
  }

  function ParseKind(name: string): Option<Kind> {
    if name == "reason" then Some(Reason)
    else if name == "use-capability" then Some(UseCapability)
    else if name == "request-approval" then Some(RequestApproval)
    else if name == "replan" then Some(Replan)
    else if name == "report-gap" then Some(ReportGap)
    else None
  }

  function LifecycleName(l: Lifecycle): string {
    match l
    case Proposed => "proposed"
    case Validated => "validated"
    case PolicyChecked => "policy-checked"
    case ApprovalPending => "approval-pending"
    case Executed => "executed"
    case Recorded => "recorded"
    case Denied => "denied"
    case StepFailed => "failed"
    case StepComplete => "complete"
  }

  function ParseLifecycle(name: string): Option<Lifecycle> {
    if name == "proposed" then Some(Proposed)
    else if name == "validated" then Some(Validated)
    else if name == "policy-checked" then Some(PolicyChecked)
    else if name == "approval-pending" then Some(ApprovalPending)
    else if name == "executed" then Some(Executed)
    else if name == "recorded" then Some(Recorded)
    else if name == "denied" then Some(Denied)
    else if name == "failed" then Some(StepFailed)
    else if name == "complete" then Some(StepComplete)
    else None
  }

  datatype ReplayProposal = ReplayProposal(
    kind: string, description: string, capabilityId: Option<string>, payload: Payload)

  datatype ReplayApproval = ReplayApproval(
    requestId: nat, createdFromStep: nat, proposal: ReplayProposal, reasonIds: seq<Policy.Reason>)

  datatype ReplayEntry = ReplayEntry(
    stepId: nat, proposal: ReplayProposal, lifecycle: string, before: Snapshot, after: Snapshot,
    decision: Option<Policy.Decision>, result: Option<ExecutionResult>, message: Message)

  datatype Replay = Replay(
    sessionStatus: string, state: SessionState, workingSet: WorkingSet, observations: seq<Observation>,
    pending: seq<ReplayApproval>, ledger: seq<ReplayEntry>)

  function ExportProposal(p: Proposal): Option<ReplayProposal> {
    var kind :- KindName(p.kind);
    Some(ReplayProposal(kind, p.description, p.capabilityId, p.payload))
  }

  function HydrateProposal(p: ReplayProposal): Option<Proposal> {
    var kind :- ParseKind(p.kind);
    Some(Proposal(kind, p.description, p.capabilityId, p.payload))
  }

  function ExportPending(pending: seq<PendingApproval>): Option<seq<ReplayApproval>> {
    if pending == [] then Some([])
    else
      var a := pending[0];
      var p :- ExportProposal(a.proposal);
      var rest :- ExportPending(pending[1..]);
      Some([ReplayApproval(a.requestId, a.createdFromStep, p, a.reasonIds)] + rest)
  }

  function HydratePending(pending: seq<ReplayApproval>): Option<seq<PendingApproval>> {
    if pending == [] then Some([])
    else
      var a := pending[0];
      var p :- HydrateProposal(a.proposal);
      var rest :- HydratePending(pending[1..]);
      Some([PendingApproval(a.requestId, p, a.createdFromStep, a.reasonIds)] + rest)
  }

  function ExportLedger(ledger: seq<Entry>): Option<seq<ReplayEntry>> {
    if ledger == [] then Some([])
    else
      var e := ledger[0];
      var p :- ExportProposal(e.proposal);
      var rest :- ExportLedger(ledger[1..]);
      Some([ReplayEntry(e.stepId, p, LifecycleName(e.lifecycle), e.before, e.after, e.decision, e.result, e.message)]
           + rest)
  }

  function HydrateLedger(ledger: seq<ReplayEntry>): Option<seq<Entry>> {
    if ledger == [] then Some([])
    else
      var e := ledger[0];
      var p :- HydrateProposal(e.proposal);
      var lifecycle :- ParseLifecycle(e.lifecycle);
      var rest :- HydrateLedger(ledger[1..]);
      Some([Entry(e.stepId, p, lifecycle, e.before, e.after, e.decision, e.result, e.message)] + rest)
  }

  /** `export_session_replay`; `None` where the source raises. */
  function Export(s: Session): Option<Replay> {
    var pending :- ExportPending(s.pending);
    var ledger :- ExportLedger(s.ledger);
    Some(Replay(StatusName(s.status), s.state, s.workingSet, s.observations, pending, ledger))
  }

  /** `hydrate_session_from_replay` under the gate the host passes. */
  function Hydrate(r: Replay, gate: nat): Option<Session> {
    var status :- ParseStatus(r.sessionStatus);
    var pending :- HydratePending(r.pending);
    var ledger :- HydrateLedger(r.ledger);
    Some(Session(status, r.state, r.workingSet, r.observations, [], pending, ledger, |ledger|, gate))
  }

  // ----- everything that happens to a session -----

  datatype Op =
    | DoRun(oracles: Oracles, maxSteps: int)
    | DoApprove(token: string, request: Option<nat>)
    | DoClearGap
    | DoAbsorb
    | DoReplay(gate: nat)

  function Apply(cfg: Config, s: Session, op: Op): Session {
    match op
    case DoRun(o, maxSteps) => Run(cfg, o, s, maxSteps)
    case DoApprove(token, request) => Approve(s, token, request).0
    case DoClearGap => ClearGap(s)
    case DoAbsorb => Absorb(s)
    case DoReplay(gate) =>
      match Export(s)
      case None => s
      case Some(r) => match Hydrate(r, gate) case None => s case Some(t) => t
  }

  function ApplyAll(cfg: Config, s: Session, ops: seq<Op>): Session {
    if ops == [] then s else Apply(cfg, ApplyAll(cfg, s, ops[..|ops| - 1]), ops[|ops| - 1])
  }

  /** A new session, with the working set the runner may inject. */
  function Fresh(gate: nat, scenarioInputs: Payload, workingSet: WorkingSet): Session {
    Session(Running, SessionState([], false, None, None, Null, scenarioInputs), workingSet, [], [], [], [], 0, gate)
  }
}
