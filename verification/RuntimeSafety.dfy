/** What every reachable session keeps: the ledger is a complete and truthful account of it. */
module RuntimeSafety {
  import opened Results
  import opened Values
  import opened Runtime
  import Policy

  // ----- the ledger as an event log -----

  predicate Succeeded(e: Entry) {
    e.result.Some? && e.result.value.success
  }

  /** What one entry did to the working set. */
  function WorkingAfter(cfg: Config, before: WorkingSet, e: Entry): WorkingSet {
    if Succeeded(e) then before[WorkingKey(e.proposal.capabilityId) := cfg.sanitize(e.result.value.output)] else before
  }

  function ReplayWorking(cfg: Config, initial: WorkingSet, ledger: seq<Entry>): WorkingSet {
    if ledger == [] then initial
    else WorkingAfter(cfg, ReplayWorking(cfg, initial, ledger[..|ledger| - 1]), ledger[|ledger| - 1])
  }

  function ObservedBy(cfg: Config, e: Entry): seq<Observation> {
    if Means(e.proposal.kind, Reason) then [ReasonObservation(e.proposal.description, e.proposal.payload)]
    else if Succeeded(e) then [ResultObservation(e.proposal.capabilityId.GetOr(""), cfg.sanitize(e.result.value.output))]
    else []
  }

  function ReplayObservations(cfg: Config, ledger: seq<Entry>): seq<Observation> {
    if ledger == [] then []
    else ReplayObservations(cfg, ledger[..|ledger| - 1]) + ObservedBy(cfg, ledger[|ledger| - 1])
  }

  /** The reasons for which the entry left an approval request, if it left one. */
  function Asked(e: Entry): Option<seq<Policy.Reason>> {
    if e.lifecycle == ApprovalPending then Some([Policy.ApprovalRequired])
    else if e.lifecycle == Denied && e.decision.Some? && Policy.ApprovalRequired in e.decision.value.reasonIds
    then Some(e.decision.value.reasonIds)
    else None
  }

  // ----- the invariant -----

  /** The entry's verdict is that of one of the gates. */
  ghost predicate Judged(cfg: Config, gate: nat, e: Entry)
    requires e.decision.Some? && CapabilityFor(cfg, e.proposal.capabilityId).Some?
  {
    e.decision.value == cfg.judge(gate, CapabilityFor(cfg, e.proposal.capabilityId).value, e.proposal.payload)
  }

  /** No entry without a verdict, no execution without an allowing verdict, no verdict but the gate's. */
  ghost predicate EntryTruthful(cfg: Config, e: Entry) {
    var id := e.proposal.capabilityId;
    && (e.decision.Some? ==>
          && Means(e.proposal.kind, UseCapability) && CapabilityFor(cfg, id).Some?
          && exists gate :: Judged(cfg, gate, e))
    && (e.result.Some? ==> e.decision.Some? && e.decision.value.disposition == Policy.Allow)
    && (e.lifecycle == Denied <==> e.decision.Some? && e.decision.value.disposition != Policy.Allow)
    && (e.lifecycle == ApprovalPending <==> Means(e.proposal.kind, RequestApproval))
    && (e.lifecycle == Executed ==> Succeeded(e))
    && e.before.status == Running && e.before.pending == []
  }

  /** An open request is the one the last entry left, in a session on hold or absorbed from one; a session
      on hold has one exactly when its last entry asked. */
  ghost predicate PendingMatches(s: Session) {
    && (s.pending != [] ==>
          && (s.status == Hold || s.status == Complete) && !s.state.goalSatisfied
          && s.ledger != [] && |s.pending| == 1
          && var e := s.ledger[|s.ledger| - 1];
          && Asked(e).Some?
          && s.pending[0] == PendingApproval(s.pending[0].requestId, e.proposal, e.stepId, Asked(e).value))
    && (s.status == Hold ==> s.ledger != [] && (Asked(s.ledger[|s.ledger| - 1]).Some? ==> s.pending != []))
  }

  ghost predicate Good(cfg: Config, initial: WorkingSet, s: Session) {
    && s.counter == |s.ledger|
    && (forall k :: 0 <= k < |s.ledger| ==> s.ledger[k].stepId == k + 1 && EntryTruthful(cfg, s.ledger[k]))
    && s.workingSet == ReplayWorking(cfg, initial, s.ledger)
    && s.observations == ReplayObservations(cfg, s.ledger)
    && PendingMatches(s)
    && (s.state.goalSatisfied ==> s.status == Complete)
    && (forall k :: 0 <= k < |s.ledger| ==> Continues(s.ledger, s, k))
  }

  /** The state after entry `k` is the state before the next entry, or the present one. */
  ghost predicate Continues(ledger: seq<Entry>, s: Session, k: nat)
    requires k < |ledger|
  {
    if k + 1 < |ledger| then
      && ledger[k].after.workingSet == ledger[k + 1].before.workingSet
      && ledger[k].after.observationCount == ledger[k + 1].before.observationCount
    else ledger[k].after.workingSet == s.workingSet && ledger[k].after.observationCount == |s.observations|
  }

  // ----- one step keeps it -----

  /** What a step owes, whatever its branch: `t` is `s` with the entry `e` behind its ledger. */
  ghost predicate StepOwes(cfg: Config, s: Session, t: Session, e: Entry) {
    && t.ledger == s.ledger + [e] && t.counter == s.counter + 1 && e.stepId == t.counter
    && EntryTruthful(cfg, e)
    && e.before.workingSet == s.workingSet && e.before.observationCount == |s.observations|
    && e.after.workingSet == t.workingSet && e.after.observationCount == |t.observations|
    && t.workingSet == WorkingAfter(cfg, s.workingSet, e)
    && t.observations == s.observations + ObservedBy(cfg, e)
    && t.gate == s.gate
    && (e.decision.Some? ==> Judged(cfg, s.gate, e))
    && PendingMatches(t)
    && (t.state.goalSatisfied <==> t.status == Complete)
    && t.status != Paused
  }

  lemma StepKeepsGood(cfg: Config, initial: WorkingSet, s: Session, t: Session, e: Entry)
    requires Good(cfg, initial, s) && StepOwes(cfg, s, t, e)
    ensures Good(cfg, initial, t)
  {
    assert t.ledger[..|t.ledger| - 1] == s.ledger;
    forall k | 0 <= k < |t.ledger| ensures Continues(t.ledger, t, k) {
      if k < |s.ledger| {
        assert Continues(s.ledger, s, k);
      }
    }
  }

  function LastEntry(s: Session): Entry
    requires s.ledger != []
  {
    s.ledger[|s.ledger| - 1]
  }

  ghost predicate Ready(s: Session) {
    s.status == Running && s.planQueue != [] && s.pending == [] && !s.state.goalSatisfied
  }

  lemma ReasonOwes(cfg: Config, s: Session)
    requires Ready(s) && Means(s.planQueue[0].kind, Reason)
    ensures var t := ReasonStep(Popped(s), Opened(s));
      t.ledger != [] && StepOwes(cfg, s, t, LastEntry(t))
  {
  }

  lemma FinishOwes(cfg: Config, s: Session, e: Entry, r: ExecutionResult)
    requires Ready(s) && Means(s.planQueue[0].kind, UseCapability)
    requires CapabilityFor(cfg, s.planQueue[0].capabilityId).Some?
    requires var d := cfg.judge(s.gate, CapabilityFor(cfg, s.planQueue[0].capabilityId).value, s.planQueue[0].payload);
      d.disposition == Policy.Allow && e == Opened(s).(decision := Some(d), result := Some(r))
    ensures var t := FinishStep(cfg, Popped(s), e, r);
      t.ledger != [] && StepOwes(cfg, s, t, LastEntry(t))
  {
    assert Judged(cfg, s.gate, LastEntry(FinishStep(cfg, Popped(s), e, r)));
  }

  lemma RefuseOwes(cfg: Config, o: Oracles, s: Session, e: Entry, d: Policy.Decision)
    requires Ready(s) && Means(s.planQueue[0].kind, UseCapability)
    requires CapabilityFor(cfg, s.planQueue[0].capabilityId).Some?
    requires d == cfg.judge(s.gate, CapabilityFor(cfg, s.planQueue[0].capabilityId).value, s.planQueue[0].payload)
    requires d.disposition != Policy.Allow && e == Opened(s).(decision := Some(d))
    ensures var t := RefuseStep(o, Popped(s), e, d);
      t.ledger != [] && StepOwes(cfg, s, t, LastEntry(t))
  {
    assert Judged(cfg, s.gate, LastEntry(RefuseStep(o, Popped(s), e, d)));
  }

  lemma UseOwes(cfg: Config, o: Oracles, s: Session)
    requires Ready(s) && Means(s.planQueue[0].kind, UseCapability)
    ensures var t := UseStep(cfg, o, Popped(s), Opened(s));
      t.ledger != [] && StepOwes(cfg, s, t, LastEntry(t))
  {
    var t, e := Popped(s), Opened(s);
    var p := e.proposal;
    var capability := CapabilityFor(cfg, p.capabilityId);
    if capability.Some? && !o.halted(t) {
      var d := cfg.judge(s.gate, capability.value, p.payload);
      if d.disposition != Policy.Allow {
        RefuseOwes(cfg, o, s, e.(decision := Some(d)), d);
      } else {
        var r := if IsMemory(p.capabilityId) then ExecuteMemory(o, t, p) else o.execute(t, p, capability.value);
        FinishOwes(cfg, s, e.(decision := Some(d), result := Some(r)), r);
      }
    }
  }

  lemma TakeStepOwes(cfg: Config, o: Oracles, s: Session)
    requires Ready(s)
    ensures var t := TakeStep(cfg, o, s);
      t.ledger != [] && StepOwes(cfg, s, t, LastEntry(t))
  {
    match Meant(s.planQueue[0].kind)
    case Some(Reason) => ReasonOwes(cfg, s);
    case Some(UseCapability) => UseOwes(cfg, o, s);
    case _ =>
  }

  lemma PrepareGood(cfg: Config, initial: WorkingSet, o: Oracles, s: Session)
    requires Good(cfg, initial, s) && s.status == Running
    ensures Good(cfg, initial, Prepare(o, s))
    ensures Prepare(o, s).planQueue != [] ==> Ready(Prepare(o, s))
    ensures Prepare(o, s).ledger == s.ledger
    ensures Prepare(o, s).planQueue == [] ==> Prepare(o, s).status == Failed
  {
    StatusOnly(cfg, initial, s, Prepare(o, s));
  }

  // ----- runs, approvals and replays keep it -----

  /** A run terminates (by the measure `maxSteps - counter`), never returns RUNNING, keeps the invariant
      and only appends to the ledger; it pauses only when the step budget is spent. */
  lemma {:induction false} RunKeepsGood(cfg: Config, initial: WorkingSet, o: Oracles, s: Session, maxSteps: int)
    requires Good(cfg, initial, s)
    ensures var t := Run(cfg, o, s, maxSteps);
      && Good(cfg, initial, t)
      && t.status != Running
      && s.ledger <= t.ledger
      && (s.counter <= maxSteps ==> t.counter <= maxSteps)
      && (s.status == Running && t.status == Paused ==> t.counter >= maxSteps)
      && (s.status == Running && t.status == Complete ==> t.state.goalSatisfied)
    decreases maxSteps - s.counter
  {
    if s.status == Running && s.counter < maxSteps {
      PrepareGood(cfg, initial, o, s);
      var t := Prepare(o, s);
      if t.planQueue != [] {
        TakeStepOwes(cfg, o, t);
        var u := TakeStep(cfg, o, t);
        StepKeepsGood(cfg, initial, t, u, LastEntry(u));
        RunKeepsGood(cfg, initial, o, u, maxSteps);
      }
    } else if s.status == Running {
      StatusOnly(cfg, initial, s, s.(status := Paused));
    }
  }

  /** A step that leaves the session running recorded the state it left. */
  lemma RunningStepSnapshot(cfg: Config, o: Oracles, s: Session)
    requires Ready(s) && TakeStep(cfg, o, s).status == Running
    ensures TakeStep(cfg, o, s).ledger != [] && LastEntry(TakeStep(cfg, o, s)).after == Snap(TakeStep(cfg, o, s))
  {
  }

  /** Entry `k` left the session running with nothing pending, and the next entry found it so. */
  predicate Unbroken(ledger: seq<Entry>, k: nat)
    requires k + 1 < |ledger|
  {
    && ledger[k].after.status == ledger[k + 1].before.status == Running
    && ledger[k].after.pending == ledger[k + 1].before.pending == []
  }

  /** Within one run the approvals and the status carry over from each entry to the next (working set and
      observations do so over the whole life of the session, by `Continues`). */
  lemma {:induction false} RunIsUnbroken(cfg: Config, initial: WorkingSet, o: Oracles, s: Session, maxSteps: int, k: nat)
    requires Good(cfg, initial, s) && |s.ledger| <= k && k + 1 < |Run(cfg, o, s, maxSteps).ledger|
    ensures Unbroken(Run(cfg, o, s, maxSteps).ledger, k)
    decreases maxSteps - s.counter
  {
    RunKeepsGood(cfg, initial, o, s, maxSteps);
    PrepareGood(cfg, initial, o, s);
    var t := Prepare(o, s);
    TakeStepOwes(cfg, o, t);
    var u := TakeStep(cfg, o, t);
    StepKeepsGood(cfg, initial, t, u, LastEntry(u));
    RunKeepsGood(cfg, initial, o, u, maxSteps);
    if k == |s.ledger| {
      assert u.status == Running;
      RunningStepSnapshot(cfg, o, t);
      assert EntryTruthful(cfg, Run(cfg, o, s, maxSteps).ledger[k + 1]);
    } else {
      RunIsUnbroken(cfg, initial, o, u, maxSteps, k);
    }
  }

  lemma StatusOnly(cfg: Config, initial: WorkingSet, s: Session, t: Session)
    requires Good(cfg, initial, s) && PendingMatches(t)
    requires t.ledger == s.ledger && t.counter == s.counter && t.workingSet == s.workingSet
    requires t.observations == s.observations
    requires t.state.goalSatisfied ==> t.status == Complete
    ensures Good(cfg, initial, t)
  {
    forall k | 0 <= k < |t.ledger| ensures Continues(t.ledger, t, k) {
      assert Continues(s.ledger, s, k);
    }
  }

  lemma ApproveKeepsGood(cfg: Config, initial: WorkingSet, s: Session, token: string, request: Option<nat>)
    requires Good(cfg, initial, s)
    ensures Good(cfg, initial, Approve(s, token, request).0)
    ensures Approve(s, token, request).1.Some? ==>
      (s.status == Hold || s.status == Complete) && Approve(s, token, request).0.status == Running
    ensures Approve(s, token, request).1.None? ==> Approve(s, token, request).0 == s
  {
    var (t, selected) := Approve(s, token, request);
    if selected.Some? {
      assert |s.pending| == 1;
      assert FindRequest(s.pending[1..], request) == None;
      assert WithoutRequest(s.pending[1..], selected.value.requestId) == [];
      StatusOnly(cfg, initial, s, t);
    }
  }

  lemma ClearGapKeepsGood(cfg: Config, initial: WorkingSet, s: Session)
    requires Good(cfg, initial, s)
    ensures Good(cfg, initial, ClearGap(s))
  {
    if ClearGap(s) != s {
      StatusOnly(cfg, initial, s, ClearGap(s));
    }
  }

  lemma AbsorbKeepsGood(cfg: Config, initial: WorkingSet, s: Session)
    requires Good(cfg, initial, s)
    ensures Good(cfg, initial, Absorb(s))
  {
    if Absorb(s) != s {
      StatusOnly(cfg, initial, s, Absorb(s));
    }
  }

  // ----- replay round trip -----

  ghost predicate Exportable(s: Session) {
    && (forall k :: 0 <= k < |s.ledger| ==> !s.ledger[k].proposal.kind.Named?)
    && (forall k :: 0 <= k < |s.pending| ==> !s.pending[k].proposal.kind.Named?)
  }

  lemma NamesRoundTrip(k: Kind, l: Lifecycle, st: Status)
    ensures KindName(k).Some? ==> ParseKind(KindName(k).value) == Some(k)
    ensures ParseLifecycle(LifecycleName(l)) == Some(l)
    ensures ParseStatus(StatusName(st)) == Some(st)
  {
  }

  lemma ProposalRoundTrip(p: Proposal)
    ensures ExportProposal(p).Some? <==> !p.kind.Named?
    ensures ExportProposal(p).Some? ==> HydrateProposal(ExportProposal(p).value) == Some(p)
  {
    NamesRoundTrip(p.kind, Proposed, Running);
  }

  lemma {:induction false} PendingRoundTrip(pending: seq<PendingApproval>)
    ensures ExportPending(pending).Some? <==>
      forall k :: 0 <= k < |pending| ==> !pending[k].proposal.kind.Named?
    ensures ExportPending(pending).Some? ==> HydratePending(ExportPending(pending).value) == Some(pending)
  {
    if pending != [] {
      ProposalRoundTrip(pending[0].proposal);
      PendingRoundTrip(pending[1..]);
      assert [pending[0]] + pending[1..] == pending;
      assert forall k :: 1 <= k < |pending| ==> pending[k] == pending[1..][k - 1];
      if ExportPending(pending).Some? {
        assert ExportPending(pending).value[1..] == ExportPending(pending[1..]).value;
      }
    }
  }

  lemma {:induction false} LedgerRoundTrip(ledger: seq<Entry>)
    ensures ExportLedger(ledger).Some? <==>
      forall k :: 0 <= k < |ledger| ==> !ledger[k].proposal.kind.Named?
    ensures ExportLedger(ledger).Some? ==> HydrateLedger(ExportLedger(ledger).value) == Some(ledger)
  {
    if ledger != [] {
      ProposalRoundTrip(ledger[0].proposal);
      NamesRoundTrip(Reason, ledger[0].lifecycle, Running);
      LedgerRoundTrip(ledger[1..]);
      assert [ledger[0]] + ledger[1..] == ledger;
      assert forall k :: 1 <= k < |ledger| ==> ledger[k] == ledger[1..][k - 1];
      if ExportLedger(ledger).Some? {
        assert ExportLedger(ledger).value[1..] == ExportLedger(ledger[1..]).value;
      }
    }
  }

  /** Replay round trip: export succeeds exactly when every kind on record is a member and not plain text; then
      hydrating gives the session back under the new gate and without its plan queue, and exporting again
      gives the same replay. The step counter is restored because it equals the length of the ledger. */
  lemma ReplayRoundTrip(s: Session, gate: nat)
    requires s.counter == |s.ledger|
    ensures Export(s).Some? <==> Exportable(s)
    ensures Export(s).Some? ==> Hydrate(Export(s).value, gate) == Some(s.(planQueue := [], gate := gate))
    ensures Export(s).Some? ==> Export(s.(planQueue := [], gate := gate)) == Export(s)
  {
    NamesRoundTrip(Reason, Proposed, s.status);
    PendingRoundTrip(s.pending);
    LedgerRoundTrip(s.ledger);
  }

  lemma ReplayIs(cfg: Config, s: Session, gate: nat)
    requires s.counter == |s.ledger|
    ensures Apply(cfg, s, DoReplay(gate)) == if Exportable(s) then s.(planQueue := [], gate := gate) else s
  {
    ReplayRoundTrip(s, gate);
  }

  lemma ReplayKeepsGood(cfg: Config, initial: WorkingSet, s: Session, gate: nat)
    requires Good(cfg, initial, s)
    ensures Good(cfg, initial, Apply(cfg, s, DoReplay(gate)))
    ensures Exportable(s) ==> Apply(cfg, s, DoReplay(gate)) == s.(planQueue := [], gate := gate)
  {
    ReplayIs(cfg, s, gate);
    StatusOnly(cfg, initial, s, s.(planQueue := [], gate := gate));
  }

  // ----- every reachable session -----

  lemma ApplyKeepsGood(cfg: Config, initial: WorkingSet, s: Session, op: Op)
    requires Good(cfg, initial, s)
    ensures Good(cfg, initial, Apply(cfg, s, op))
  {
    match op
    case DoRun(o, maxSteps) => RunKeepsGood(cfg, initial, o, s, maxSteps);
    case DoApprove(token, request) => ApproveKeepsGood(cfg, initial, s, token, request);
    case DoClearGap => ClearGapKeepsGood(cfg, initial, s);
    case DoAbsorb => AbsorbKeepsGood(cfg, initial, s);
    case DoReplay(gate) => ReplayKeepsGood(cfg, initial, s, gate);
  }

  /** Safety over every run: for any planner, router, memory and kill switch, and for any sequence of
      runs, approvals, cleared gaps, absorbed ticks and replays, the ledger accounts for the session. */
  lemma {:induction false} ReachableIsGood(cfg: Config, gate: nat, inputs: Payload, initial: WorkingSet, ops: seq<Op>)
    ensures Good(cfg, initial, ApplyAll(cfg, Fresh(gate, inputs, initial), ops))
  {
    if ops != [] {
      ReachableIsGood(cfg, gate, inputs, initial, ops[..|ops| - 1]);
      ApplyKeepsGood(cfg, initial, ApplyAll(cfg, Fresh(gate, inputs, initial), ops[..|ops| - 1]), ops[|ops| - 1]);
    }
  }

  /** The keys under which the successful entries of a ledger leave their results. */
  ghost function SuccessKeys(ledger: seq<Entry>): set<string> {
    set k | 0 <= k < |ledger| && Succeeded(ledger[k]) :: WorkingKey(ledger[k].proposal.capabilityId)
  }

  lemma SuccessKeysStep(front: seq<Entry>, last: Entry)
    ensures SuccessKeys(front + [last]) ==
      SuccessKeys(front) + if Succeeded(last) then {WorkingKey(last.proposal.capabilityId)} else {}
  {
    var longer := front + [last];
    forall key | key in SuccessKeys(front) ensures key in SuccessKeys(longer) {
      var k :| 0 <= k < |front| && Succeeded(front[k]) && key == WorkingKey(front[k].proposal.capabilityId);
      assert longer[k] == front[k];
    }
    assert longer[|front|] == last;
  }

  /** The keys of the working set are the initial ones and those of the successful entries. */
  lemma {:induction false} WorkingKeys(cfg: Config, initial: WorkingSet, ledger: seq<Entry>)
    ensures ReplayWorking(cfg, initial, ledger).Keys == initial.Keys + SuccessKeys(ledger)
  {
    if ledger != [] {
      var n := |ledger| - 1;
      assert ledger == ledger[..n] + [ledger[n]];
      WorkingKeys(cfg, initial, ledger[..n]);
      SuccessKeysStep(ledger[..n], ledger[n]);
    }
  }

  // ----- when a finished session comes back -----

  predicate Finished(s: Session) {
    s.status == Failed || s.status == Paused || s.status == Complete
  }

  /** COMPLETE means that the goal is satisfied. */
  ghost predicate Honest(s: Session) {
    s.status == Complete ==> s.state.goalSatisfied
  }

  /** What one operation makes of a finished session: only an approval that finds a request resumes it, only an
      absorbed tick renames it, and nothing else changes but for the gate and the queue at a replay. */
  lemma FinishedStep(cfg: Config, initial: WorkingSet, s: Session, op: Op)
    requires Good(cfg, initial, s) && Finished(s)
    ensures Apply(cfg, s, op).status == Running <==> op.DoApprove? && FindRequest(s.pending, op.request).Some?
    ensures Apply(cfg, s, op).status != Running ==>
      Apply(cfg, s, op).(planQueue := s.planQueue, gate := s.gate) ==
        s.(status := if op.DoAbsorb? && s.status == Paused then Complete else s.status)
  {
    match op
    case DoReplay(gate) => ReplayIs(cfg, s, gate);
    case _ =>
  }

  /** Exactly which operation makes an honest session lie: absorbing a held or paused one. A tick that ended
      FAILED or COMPLETE is absorbed without harm. */
  lemma HonestStep(cfg: Config, initial: WorkingSet, s: Session, op: Op)
    requires Good(cfg, initial, s) && Honest(s)
    ensures Honest(Apply(cfg, s, op)) <==> !(op.DoAbsorb? && (s.status == Hold || s.status == Paused))
  {
    match op
    case DoRun(o, maxSteps) =>
      if s.status == Running {
        RunKeepsGood(cfg, initial, o, s, maxSteps);
      }
    case DoApprove(token, request) => assert Honest(Approve(s, token, request).0);
    case DoReplay(gate) => ReplayIs(cfg, s, gate);
    case _ =>
  }

  /** Operation `j` of the sequence is an approval that finds a request. */
  ghost predicate ApprovesAt(cfg: Config, start: Session, ops: seq<Op>, j: nat)
    requires j < |ops|
  {
    ops[j].DoApprove? && FindRequest(ApplyAll(cfg, start, ops[..j]).pending, ops[j].request).Some?
  }

  /** Operation `k` absorbs a held or paused session, and no later approval resumes it. */
  ghost predicate LiesFrom(cfg: Config, start: Session, ops: seq<Op>, k: nat)
    requires k < |ops|
  {
    && ops[k].DoAbsorb?
    && (var s := ApplyAll(cfg, start, ops[..k]); s.status == Hold || s.status == Paused)
    && forall j :: k < j < |ops| ==> !ApprovesAt(cfg, start, ops, j)
  }

  ghost predicate Lies(cfg: Config, start: Session, ops: seq<Op>) {
    exists k :: 0 <= k < |ops| && LiesFrom(cfg, start, ops, k)
  }

  lemma LiesOneMore(cfg: Config, start: Session, front: seq<Op>, op: Op)
    ensures var s := ApplyAll(cfg, start, front);
      Lies(cfg, start, front + [op]) <==>
        || (op.DoAbsorb? && (s.status == Hold || s.status == Paused))
        || (Lies(cfg, start, front) && !(op.DoApprove? && FindRequest(s.pending, op.request).Some?))
  {
    var ops, n := front + [op], |front|;
    assert ops[..n] == front;
    forall j | 0 <= j < n ensures ApprovesAt(cfg, start, ops, j) == ApprovesAt(cfg, start, front, j) {
      assert ops[..j] == front[..j];
    }
    forall k | 0 <= k < n
      ensures LiesFrom(cfg, start, ops, k) <==> LiesFrom(cfg, start, front, k) && !ApprovesAt(cfg, start, ops, n)
    {
      assert ops[..k] == front[..k];
    }
    if op.DoAbsorb? && (ApplyAll(cfg, start, front).status == Hold || ApplyAll(cfg, start, front).status == Paused) {
      assert LiesFrom(cfg, start, ops, n);
    }
    if Lies(cfg, start, front) && !ApprovesAt(cfg, start, ops, n) {
      var k :| 0 <= k < n && LiesFrom(cfg, start, front, k);
      assert LiesFrom(cfg, start, ops, k);
    }
  }

  /** Exactly when COMPLETE means satisfied, over every run: unless a held or paused tick was absorbed and
      nothing has resumed the session since. */
  lemma {:induction false} CompleteMeansSatisfied(cfg: Config, gate: nat, inputs: Payload, initial: WorkingSet, ops: seq<Op>)
    ensures var s := ApplyAll(cfg, Fresh(gate, inputs, initial), ops);
      && (s.state.goalSatisfied ==> s.status == Complete)
      && ((s.status == Complete ==> s.state.goalSatisfied) <==> !Lies(cfg, Fresh(gate, inputs, initial), ops))
    decreases |ops|
  {
    var start := Fresh(gate, inputs, initial);
    ReachableIsGood(cfg, gate, inputs, initial, ops);
    if ops != [] {
      var front, op := ops[..|ops| - 1], ops[|ops| - 1];
      assert ops == front + [op];
      CompleteMeansSatisfied(cfg, gate, inputs, initial, front);
      ReachableIsGood(cfg, gate, inputs, initial, front);
      LiesOneMore(cfg, start, front, op);
      var s := ApplyAll(cfg, start, front);
      if Honest(s) {
        HonestStep(cfg, initial, s, op);
      } else {
        FinishedStep(cfg, initial, s, op);
      }
    }
  }

  // ----- exactly which finished sessions come back -----

  lemma {:induction false} NothingPendingStaysFinished(cfg: Config, initial: WorkingSet, s: Session, ops: seq<Op>)
    requires Good(cfg, initial, s) && Finished(s) && s.pending == []
    ensures var t := ApplyAll(cfg, s, ops);
      && Good(cfg, initial, t) && Finished(t) && t.pending == []
      && t.ledger == s.ledger && t.workingSet == s.workingSet && (s.status != Paused ==> t.status == s.status)
  {
    if ops != [] {
      var front, op := ops[..|ops| - 1], ops[|ops| - 1];
      NothingPendingStaysFinished(cfg, initial, s, front);
      var t := ApplyAll(cfg, s, front);
      FinishedStep(cfg, initial, t, op);
      ApplyKeepsGood(cfg, initial, t, op);
    }
  }

  /** The operations make the session run. */
  ghost predicate Resumes(cfg: Config, s: Session, ops: seq<Op>) {
    ApplyAll(cfg, s, ops).status == Running
  }

  lemma OneOperation(cfg: Config, s: Session, op: Op)
    ensures ApplyAll(cfg, s, [op]) == Apply(cfg, s, op)
  {
    assert [op][..0] == [];
  }

  lemma ApprovalResumes(cfg: Config, s: Session, token: string)
    requires s.pending != []
    ensures Resumes(cfg, s, [DoApprove(token, None)])
  {
    OneOperation(cfg, s, DoApprove(token, None));
    assert FindRequest(s.pending, None) == Some(s.pending[0]);
  }

  /** Exactly when a FAILED, PAUSED or COMPLETE session can ever run again, whatever is done to it: when an
      approval request is still open, and then the session is COMPLETE, not satisfied, and its last entry
      asked. In particular no larger step budget continues a paused session. */
  lemma FinishedResumesIff(cfg: Config, initial: WorkingSet, s: Session)
    requires Good(cfg, initial, s) && Finished(s)
    ensures (exists ops :: Resumes(cfg, s, ops)) <==> s.pending != []
    ensures s.pending != [] ==> s.status == Complete && !s.state.goalSatisfied && Asked(LastEntry(s)).Some?
  {
    if s.pending != [] {
      ApprovalResumes(cfg, s, "");
    } else {
      forall ops ensures !Resumes(cfg, s, ops) {
        NothingPendingStaysFinished(cfg, initial, s, ops);
      }
    }
  }

  lemma ApprovalResumesIff(s: Session, token: string)
    requires s.status != Running
    ensures Approve(s, token, None).0.status == Running <==> s.pending != []
  {
    if s.pending != [] {
      assert FindRequest(s.pending, None) == Some(s.pending[0]);
    }
  }

  /** What a tick absorbs from HOLD can be resumed exactly when the last entry asked for an approval. */
  lemma AbsorbedResumesIffAsked(cfg: Config, initial: WorkingSet, s: Session, token: string)
    requires Good(cfg, initial, s) && s.status == Hold
    ensures Absorb(s).status == Complete
    ensures Approve(Absorb(s), token, None).0.status == Running <==> s.ledger != [] && Asked(LastEntry(s)).Some?
  {
    ApprovalResumesIff(Absorb(s), token);
  }

  /** Any session on HOLD with a request, absorbed and hydrated from its replay, says COMPLETE and runs on when
      approved. */
  lemma AbsorbedHoldResumes(cfg: Config, initial: WorkingSet, s: Session, token: string, gate: nat)
    requires Good(cfg, initial, s) && s.status == Hold && s.pending != [] && Exportable(s)
    ensures var t := Apply(cfg, Absorb(s), DoReplay(gate));
      && t.status == Complete && !t.state.goalSatisfied && t.pending == s.pending
      && Approve(t, token, None).0.status == Running
  {
    AbsorbKeepsGood(cfg, initial, s);
    ReplayKeepsGood(cfg, initial, Absorb(s), gate);
    ApprovalResumesIff(Apply(cfg, Absorb(s), DoReplay(gate)), token);
  }

  // ----- both endings are reached -----

  /** An outside world whose planner always has the same plan. */
  function Steady(plan: seq<Proposal>): Oracles {
    Oracles(_ => plan, (_, _, _) => ExecutionResult(true, Null, false, false, None),
            (_, _) => (true, Null, ""), _ => Null, _ => false, _ => 0)
  }

  const ASK := Proposal(RequestApproval, "May I?", None, map[])
  const NOTE := Proposal(Reason, "Still thinking.", None, map[])

  lemma AskingRunHolds(cfg: Config, gate: nat, inputs: Payload, initial: WorkingSet, maxSteps: int)
    requires maxSteps >= 1
    ensures var s := Run(cfg, Steady([ASK]), Fresh(gate, inputs, initial), maxSteps);
      s.status == Hold && |s.pending| == 1 && s.pending[0].proposal == ASK && |s.ledger| == 1 && s.ledger[0].proposal == ASK
  {
    var o, begun := Steady([ASK]), Fresh(gate, inputs, initial);
    var t := Prepare(o, begun);
    assert t.planQueue == [ASK];
    var u := TakeStep(cfg, o, t);
    assert u.status == Hold;
    assert Run(cfg, o, u, maxSteps) == u;
  }

  /** A fresh session whose planner asks for an approval ends its tick on HOLD, is written down as COMPLETE with
      its goal not satisfied, and runs on when the session hydrated from that replay is approved. */
  lemma AbsorbedHoldIsReached(cfg: Config, gate: nat, inputs: Payload, initial: WorkingSet, maxSteps: int,
                              token: string, gate': nat)
    requires maxSteps >= 1
    ensures var s := Run(cfg, Steady([ASK]), Fresh(gate, inputs, initial), maxSteps);
      var t := Apply(cfg, Absorb(s), DoReplay(gate'));
      && t.status == Complete && !t.state.goalSatisfied && t.pending != []
      && Approve(t, token, None).0.status == Running
  {
    var begun := Fresh(gate, inputs, initial);
    ReachableIsGood(cfg, gate, inputs, initial, []);
    RunKeepsGood(cfg, initial, Steady([ASK]), begun, maxSteps);
    AskingRunHolds(cfg, gate, inputs, initial, maxSteps);
    AbsorbedHoldResumes(cfg, initial, Run(cfg, Steady([ASK]), begun, maxSteps), token, gate');
  }

  lemma NotingStep(cfg: Config, s: Session)
    requires s.status == Running && s.planQueue == [] && !s.state.goalSatisfied
    ensures var t := Prepare(Steady([NOTE]), s);
      && t.planQueue != []
      && var u := TakeStep(cfg, Steady([NOTE]), t);
      u.status == Running && u.planQueue == [] && !u.state.goalSatisfied && u.counter == s.counter + 1
  {
    assert Prepare(Steady([NOTE]), s).planQueue == [NOTE];
    assert !Truthy(Get(NOTE.payload, "mark_complete"));
  }

  lemma {:induction false} NotingRunPauses(cfg: Config, s: Session, maxSteps: int)
    requires s.status == Running && s.planQueue == [] && !s.state.goalSatisfied
    ensures var t := Run(cfg, Steady([NOTE]), s, maxSteps); t.status == Paused && !t.state.goalSatisfied
    decreases maxSteps - s.counter
  {
    if s.counter < maxSteps {
      NotingStep(cfg, s);
      NotingRunPauses(cfg, TakeStep(cfg, Steady([NOTE]), Prepare(Steady([NOTE]), s)), maxSteps);
    }
  }

  /** A fresh session whose planner never finishes exhausts any step budget, is written down as COMPLETE with
      its goal not satisfied, and never runs again. */
  lemma AbsorbedPauseIsReached(cfg: Config, gate: nat, inputs: Payload, initial: WorkingSet, maxSteps: int)
    ensures var s := Run(cfg, Steady([NOTE]), Fresh(gate, inputs, initial), maxSteps);
      && s.status == Paused && Absorb(s).status == Complete && !Absorb(s).state.goalSatisfied
      && forall ops :: !Resumes(cfg, Absorb(s), ops)
  {
    var begun := Fresh(gate, inputs, initial);
    ReachableIsGood(cfg, gate, inputs, initial, []);
    RunKeepsGood(cfg, initial, Steady([NOTE]), begun, maxSteps);
    NotingRunPauses(cfg, begun, maxSteps);
    var s := Run(cfg, Steady([NOTE]), begun, maxSteps);
    AbsorbKeepsGood(cfg, initial, s);
    FinishedResumesIff(cfg, initial, Absorb(s));
  }

  // ----- the shipped gates -----

  /** Gate number `gate` is the native one, or the runner's, with these settings. */
  ghost predicate NativeGate(cfg: Config, gate: nat, g: Policy.Settings, handles: seq<Policy.Handle>, environment: string) {
    forall c, p :: cfg.judge(gate, c, p) == Policy.Evaluate(g, Policy.Action(c, handles, environment, p))
  }

  ghost predicate AutoApproveGate(cfg: Config, gate: nat, g: Policy.Settings, handles: seq<Policy.Handle>, environment: string) {
    forall c, p :: cfg.judge(gate, c, p) == Policy.EvaluateAutoApproved(g, Policy.Action(c, handles, environment, p))
  }

  /** Every gate a host may install is a shipped one; hydration may change between them. */
  ghost predicate ShippedGates(cfg: Config, g: Policy.Settings, handles: seq<Policy.Handle>, environment: string) {
    forall gate :: NativeGate(cfg, gate, g, handles, environment) || AutoApproveGate(cfg, gate, g, handles, environment)
  }

  lemma {:induction false} ResolvedId(capabilities: seq<Policy.Capability>, id: Option<string>)
    requires Resolve(capabilities, id).Some?
    ensures id.Some? && Resolve(capabilities, id).value.capabilityId == id.value
    ensures Resolve(capabilities, id).value in capabilities
  {
    if capabilities[0].capabilityId != id.value {
      ResolvedId(capabilities[1..], id);
    }
  }

  /** No session, approved, auto-approved or resumed, ever executes a memory promotion. */
  lemma NoPromotionExecuted(cfg: Config, g: Policy.Settings, handles: seq<Policy.Handle>, environment: string,
                            gate: nat, inputs: Payload, initial: WorkingSet, ops: seq<Op>, k: nat)
    requires ShippedGates(cfg, g, handles, environment)
    requires k < |ApplyAll(cfg, Fresh(gate, inputs, initial), ops).ledger|
    requires ApplyAll(cfg, Fresh(gate, inputs, initial), ops).ledger[k].proposal.capabilityId == Some("memory.promote")
    ensures ApplyAll(cfg, Fresh(gate, inputs, initial), ops).ledger[k].result == None
  {
    ReachableIsGood(cfg, gate, inputs, initial, ops);
    var e := ApplyAll(cfg, Fresh(gate, inputs, initial), ops).ledger[k];
    assert EntryTruthful(cfg, e);
    if e.decision.Some? {
      var c := CapabilityFor(cfg, e.proposal.capabilityId).value;
      var by_ :| Judged(cfg, by_, e);
      assert NativeGate(cfg, by_, g, handles, environment) || AutoApproveGate(cfg, by_, g, handles, environment);
      if Resolve(cfg.capabilities, e.proposal.capabilityId).Some? {
        ResolvedId(cfg.capabilities, e.proposal.capabilityId);
      }
      Policy.PromotionNeverAllowed(g, Policy.Action(c, handles, environment, e.proposal.payload));
    }
  }

  // ----- approval unblocks -----

  /** After an approval the queue is not empty, so the next step takes the resumed proposal. */
  lemma NextStepIsResumed(cfg: Config, initial: WorkingSet, s: Session, token: string,
                          request: Option<nat>, o: Oracles, maxSteps: int)
    requires Good(cfg, initial, s) && FindRequest(s.pending, request).Some? && s.counter < maxSteps
    requires Means(FindRequest(s.pending, request).value.proposal.kind, UseCapability)
    ensures var t := Prepare(o, Approve(s, token, request).0);
      && Ready(t) && t.ledger == s.ledger && t.counter == s.counter
      && t.planQueue[0] == Resumed(FindRequest(s.pending, request).value.proposal, token)
      && TakeStep(cfg, o, t).ledger <= Run(cfg, o, Approve(s, token, request).0, maxSteps).ledger
  {
    var a := Approve(s, token, request).0;
    ApproveKeepsGood(cfg, initial, s, token, request);
    PrepareGood(cfg, initial, o, a);
    var t := Prepare(o, a);
    TakeStepOwes(cfg, o, t);
    var u := TakeStep(cfg, o, t);
    StepKeepsGood(cfg, initial, t, u, LastEntry(u));
    RunKeepsGood(cfg, initial, o, u, maxSteps);
  }

  /** Approval unblocks, with or without naming the request. With a token, step budget and no kill switch, the next ledger entry is the
      pending proposal with the token in its payload. Its reasons are exactly those of the request that
      are not token reasons, so it is allowed and executed exactly when there are no others. */
  lemma ApprovalUnblocks(cfg: Config, g: Policy.Settings, handles: seq<Policy.Handle>, environment: string,
                         initial: WorkingSet, s: Session, token: string, request: Option<nat>, o: Oracles, maxSteps: int)
    requires ShippedGates(cfg, g, handles, environment) && Good(cfg, initial, s)
    requires FindRequest(s.pending, request).Some?
    requires Means(FindRequest(s.pending, request).value.proposal.kind, UseCapability)
    requires token != "" && s.counter < maxSteps
    requires !o.halted(Popped(Prepare(o, Approve(s, token, request).0)))
    ensures var asked := FindRequest(s.pending, request).value;
      var u := Run(cfg, o, Approve(s, token, request).0, maxSteps);
      && |s.ledger| < |u.ledger|
      && var e := u.ledger[|s.ledger|];
      && e.proposal == Resumed(asked.proposal, token)
      && e.decision.Some?
      && e.decision.value.reasonIds == Policy.WithoutTokenReasons(asked.reasonIds)
      && (e.result.Some? <==> forall r :: r in asked.reasonIds ==> Policy.IsTokenReason(r))
      && (e.decision.value.disposition == Policy.Allow <==> e.result.Some?)
  {
    var asked := FindRequest(s.pending, request).value;
    assert asked == s.pending[0];
    var p := asked.proposal;
    var last := LastEntry(s);
    assert EntryTruthful(cfg, last) && last.proposal == p;
    NextStepIsResumed(cfg, initial, s, token, request, o, maxSteps);
    var t := Prepare(o, Approve(s, token, request).0);
    var u := TakeStep(cfg, o, t);
    TakeStepOwes(cfg, o, t);
    assert u.ledger[|s.ledger|] == LastEntry(u);
    var c := CapabilityFor(cfg, p.capabilityId).value;
    var a := Policy.Action(c, handles, environment, p.payload);
    AskedByNative(cfg, g, handles, environment, last, c);
    JudgedWithToken(cfg, g, handles, environment, t.gate, a, token);
    Policy.AllFiltered(asked.reasonIds);
    UseEntry(cfg, o, t);
  }

  /** Only the native gate asks: the runner's never reports the reason approval-required. */
  lemma AskedByNative(cfg: Config, g: Policy.Settings, handles: seq<Policy.Handle>, environment: string, e: Entry,
                      c: Policy.Capability)
    requires ShippedGates(cfg, g, handles, environment) && EntryTruthful(cfg, e)
    requires e.decision.Some? && Policy.ApprovalRequired in e.decision.value.reasonIds
    requires CapabilityFor(cfg, e.proposal.capabilityId) == Some(c)
    ensures e.decision.value == Policy.Evaluate(g, Policy.Action(c, handles, environment, e.proposal.payload))
  {
    var by_ :| Judged(cfg, by_, e);
    var a := Policy.Action(c, handles, environment, e.proposal.payload);
    if AutoApproveGate(cfg, by_, g, handles, environment) {
      Policy.AutoApproveFilters(g, a);
      Policy.FilteredHasNoToken(Policy.Evaluate(g, a).reasonIds);
      assert false;
    }
    assert NativeGate(cfg, by_, g, handles, environment);
  }

  /** With a token in the payload either gate finds the reasons without the token reasons. */
  lemma JudgedWithToken(cfg: Config, g: Policy.Settings, handles: seq<Policy.Handle>, environment: string, gate: nat,
                        a: Policy.Action, token: string)
    requires ShippedGates(cfg, g, handles, environment) && token != ""
    requires a.handles == handles && a.environment == environment
    ensures var d := cfg.judge(gate, a.capability, a.payload["approval_token" := Text(token)]);
      && d.reasonIds == Policy.WithoutTokenReasons(Policy.Evaluate(g, a).reasonIds)
      && (d.disposition == Policy.Allow <==> d.reasonIds == [])
  {
    var b := a.(payload := a.payload["approval_token" := Text(token)]);
    assert NativeGate(cfg, gate, g, handles, environment) || AutoApproveGate(cfg, gate, g, handles, environment);
    if NativeGate(cfg, gate, g, handles, environment) {
      Policy.TokenFiltersReasons(g, a, Text(token));
      Policy.DecisionAlgebra(g, b);
    } else {
      var auto := "auto-approve-sandbox";
      assert b.payload["approval_token" := Text(auto)] == a.payload["approval_token" := Text(auto)];
      Policy.TokenFiltersReasons(g, a, Text(auto));
      Policy.DecisionAlgebra(g, a.(payload := a.payload["approval_token" := Text(auto)]));
    }
  }

  /** What the entry of a use step that meets neither a missing capability nor the kill switch says. */
  lemma UseEntry(cfg: Config, o: Oracles, s: Session)
    requires Ready(s) && Means(s.planQueue[0].kind, UseCapability)
    requires CapabilityFor(cfg, s.planQueue[0].capabilityId).Some? && !o.halted(Popped(s))
    ensures TakeStep(cfg, o, s).ledger != []
    ensures var e := LastEntry(TakeStep(cfg, o, s));
      var d := cfg.judge(s.gate, CapabilityFor(cfg, s.planQueue[0].capabilityId).value, s.planQueue[0].payload);
      && e.proposal == s.planQueue[0] && e.decision == Some(d)
      && (e.result.Some? <==> d.disposition == Policy.Allow)
  {
  }
}
