/** `HeuristicPlanner` of src/aether_forge/planner.py and its progress under an always-allowing gate. */
module Heuristic {
  import opened Results
  import opened Values
  import opened Runtime
  import opened RuntimeSafety
  import Policy

  const CONTEXT: string := "cap-context-read"
  const ORDER: string := "cap-exchange-order"
  const PRICE: string := "cap-market-btc-price"
  const BASIS: string := "cap-market-basis"
  const MEMORY_READ: string := "memory.read"

  // ----- the planner -----

  function Use(id: string, payload: Payload): Proposal {
    Proposal(UseCapability, "", Some(id), payload)
  }

  function Finish(): Proposal {
    Proposal(Reason, "", None, map["mark_complete" := Bool(true)])
  }

  function Gap(): Proposal {
    Proposal(ReportGap, "No declared capability path can progress the current session.", None,
             map["availableCapabilities" := Opaque(0, true)])
  }

  function GetOr(p: Payload, key: string, default: Value): Value {
    if key in p then p[key] else default
  }

  predicate AlreadyRead(ledger: seq<Entry>) {
    exists i :: 0 <= i < |ledger| && ledger[i].proposal.capabilityId == Some(MEMORY_READ)
  }

  /** Declared, and no result in the working set yet. */
  predicate Open(declared: set<string>, s: Session, id: string) {
    id in declared && id !in s.workingSet
  }

  /** `propose_plan`: the decision cascade. `hasMemory` says that the memory store holds a record. */
  function ProposePlan(declared: set<string>, hasMemory: bool, environment: string, s: Session): seq<Proposal> {
    var inputs := s.state.scenarioInputs;
    if s.state.goalSatisfied then []
    else if s.counter < 3 && !AlreadyRead(s.ledger) && hasMemory then
      [Use(MEMORY_READ, map["scope" := Text("session"), "environment" := Text(environment)])]
    else if Open(declared, s, CONTEXT) then [Use(CONTEXT, map[]), Finish()]
    else if "requestedNotionalUsd" in inputs && Open(declared, s, ORDER) then
      [Use(ORDER, map["requested_notional_usd" := inputs["requestedNotionalUsd"]])]
    else if "marketDataAgeMs" in inputs && Open(declared, s, PRICE) then
      [Use(PRICE, map["market_data_age_ms" := inputs["marketDataAgeMs"]])]
    else if "basisBps" in inputs && Open(declared, s, BASIS) then
      [Use(BASIS, map["basis_bps" := inputs["basisBps"],
                      "volatility_regime" := GetOr(inputs, "volatilityRegime", Text("normal"))])]
    else if Open(declared, s, PRICE) then
      [Use(PRICE, map["market_data_age_ms" := GetOr(inputs, "marketDataAgeMs", Number(0.0))])]
    else if Open(declared, s, BASIS) then
      [Use(BASIS, map["basis_bps" := GetOr(inputs, "basisBps", Number(0.0)),
                      "volatility_regime" := GetOr(inputs, "volatilityRegime", Text("normal"))])]
    else if Get(inputs, "volatilityRegime") == Text("spike") then [Finish()]
    else if ORDER in s.workingSet then [Finish()]
    else if BASIS in s.workingSet || CONTEXT in s.workingSet then [Finish()]
    else [Gap()]
  }

  function DeclaredIds(capabilities: seq<Policy.Capability>): set<string> {
    set c | c in capabilities :: c.capabilityId
  }

  // ----- the setting -----

  /** Every capability is allowed, every execution is a plain success, and nothing halts. */
  ghost predicate Easy(cfg: Config, o: Oracles) {
    && (forall gate, c, p :: cfg.judge(gate, c, p).disposition == Policy.Allow)
    && (forall s, p, c :: o.execute(s, p, c).success && !o.execute(s, p, c).markComplete && !o.execute(s, p, c).requiresReplan)
    && (forall s :: !o.halted(s))
  }

  /** The planner is the heuristic one. */
  ghost predicate Heuristically(cfg: Config, o: Oracles, hasMemory: bool, environment: string) {
    forall s :: o.plan(s) == ProposePlan(DeclaredIds(cfg.capabilities), hasMemory, environment, s)
  }

  /** Between two plans of a session that has not finished. */
  ghost predicate Between(s: Session) {
    s.status == Running && s.planQueue == [] && !s.state.goalSatisfied
  }

  predicate MemoryDue(hasMemory: bool, s: Session) {
    s.counter < 3 && !AlreadyRead(s.ledger) && hasMemory
  }

  predicate OrderDue(declared: set<string>, s: Session) {
    "requestedNotionalUsd" in s.state.scenarioInputs && Open(declared, s, ORDER)
  }

  function One(b: bool): nat {
    if b then 1 else 0
  }

  /** Steps still needed: the unread memory, then either context and summary, or the relevant
      capabilities without a result and the closing step. */
  function Needed(declared: set<string>, hasMemory: bool, s: Session): nat {
    One(MemoryDue(hasMemory, s)) +
    if Open(declared, s, CONTEXT) then 2
    else One(OrderDue(declared, s)) + One(Open(declared, s, PRICE)) + One(Open(declared, s, BASIS)) + 1
  }

  /** Finished well: complete, or held by a reported gap. */
  predicate Settled(s: Session) {
    s.status == Complete || (s.status == Hold && s.state.reportedGap.Some? && s.pending == [])
  }

  /** What decides how the session ends: a capability that counts as progress is declared or has a result
      already, or the market is in a spike. */
  predicate Completable(declared: set<string>, working: set<string>, inputs: Payload) {
    || CONTEXT in declared || CONTEXT in working
    || BASIS in declared || BASIS in working
    || ORDER in working || (ORDER in declared && "requestedNotionalUsd" in inputs)
    || Get(inputs, "volatilityRegime") == Text("spike")
  }

  predicate CanComplete(declared: set<string>, s: Session) {
    Completable(declared, s.workingSet.Keys, s.state.scenarioInputs)
  }

  lemma {:induction false} DeclaredResolves(capabilities: seq<Policy.Capability>, id: string)
    requires id in DeclaredIds(capabilities)
    ensures Resolve(capabilities, Some(id)).Some?
  {
    var c :| c in capabilities && c.capabilityId == id;
    if capabilities[0].capabilityId != id {
      assert c in capabilities[1..];
      DeclaredResolves(capabilities[1..], id);
    }
  }

  // ----- what a heuristic plan can look like -----

  /** A single use step that brings the session closer. */
  predicate Useful(declared: set<string>, hasMemory: bool, s: Session, id: string) {
    || (id == MEMORY_READ && MemoryDue(hasMemory, s))
    || (!Open(declared, s, CONTEXT)
        && ((id == ORDER && OrderDue(declared, s)) || (id == PRICE && Open(declared, s, PRICE))
            || (id == BASIS && Open(declared, s, BASIS))))
  }

  predicate IsUse(p: Proposal, id: string) {
    p.kind == UseCapability && p.capabilityId == Some(id)
  }

  ghost predicate WellPlanned(declared: set<string>, hasMemory: bool, s: Session, plan: seq<Proposal>) {
    || (exists id :: Useful(declared, hasMemory, s, id) && |plan| == 1 && IsUse(plan[0], id))
    || (Open(declared, s, CONTEXT) && |plan| == 2 && IsUse(plan[0], CONTEXT) && Closes(plan[1]))
    || (|plan| == 1 && Closes(plan[0]) && CanComplete(declared, s))
    || (|plan| == 1 && plan[0].kind == ReportGap && !CanComplete(declared, s))
  }

  predicate Closes(p: Proposal) {
    p.kind == Reason && Truthy(Get(p.payload, "mark_complete"))
  }

  lemma PlanIsWell(declared: set<string>, hasMemory: bool, environment: string, s: Session)
    requires !s.state.goalSatisfied
    ensures WellPlanned(declared, hasMemory, s, ProposePlan(declared, hasMemory, environment, s))
  {
    var plan := ProposePlan(declared, hasMemory, environment, s);
    assert Closes(Finish());
    if plan[0].kind == UseCapability && |plan| == 1 {
      var id := plan[0].capabilityId.value;
      assert Useful(declared, hasMemory, s, id) && IsUse(plan[0], id);
    }
  }

  // ----- progress -----

  /** A use step in an easy setting succeeds and changes nothing but its own record. */
  lemma UseSucceeds(cfg: Config, o: Oracles, s: Session, id: string)
    requires Easy(cfg, o) && s.status == Running && s.planQueue != [] && IsUse(s.planQueue[0], id)
    requires id == MEMORY_READ || (id in DeclaredIds(cfg.capabilities) && !IsMemory(Some(id)) && id != "")
    ensures var t := TakeStep(cfg, o, s);
      && t.status == Running && t.planQueue == s.planQueue[1..] && t.counter == s.counter + 1
      && t.state == s.state && t.pending == s.pending
      && t.ledger != [] && t.ledger == s.ledger + [LastEntry(t)] && LastEntry(t).proposal == s.planQueue[0]
      && t.workingSet.Keys == s.workingSet.Keys + {id}
  {
    if id != MEMORY_READ {
      DeclaredResolves(cfg.capabilities, id);
    }
    assert !o.halted(Popped(s));
  }

  lemma NotMemory(id: string)
    requires id == CONTEXT || id == ORDER || id == PRICE || id == BASIS
    ensures !IsMemory(Some(id)) && id != "" && id != MEMORY_READ
  {
    assert id[0] == 'c' && MEMORY_READ[0] == 'm';
  }

  lemma ReadStays(s: Session, t: Session)
    requires t.ledger != [] && t.ledger == s.ledger + [LastEntry(t)]
    ensures AlreadyRead(s.ledger) ==> AlreadyRead(t.ledger)
    ensures LastEntry(t).proposal.capabilityId == Some(MEMORY_READ) ==> AlreadyRead(t.ledger)
  {
    if i :| 0 <= i < |s.ledger| && s.ledger[i].proposal.capabilityId == Some(MEMORY_READ) {
      assert t.ledger[i] == s.ledger[i];
    }
    assert t.ledger[|s.ledger|] == LastEntry(t);
  }

  lemma DistinctIds()
    ensures CONTEXT != ORDER && CONTEXT != PRICE && CONTEXT != BASIS && ORDER != PRICE && ORDER != BASIS && PRICE != BASIS
  {
    assert CONTEXT[4] == 'c' && ORDER[4] == 'e' && PRICE[4] == 'm' && BASIS[4] == 'm';
    assert |PRICE| != |BASIS|;
  }

  /** What a use step did to the session, as far as the planner looks at it. */
  ghost predicate Used(s: Session, t: Session, id: string) {
    && t.workingSet.Keys == s.workingSet.Keys + {id} && t.state == s.state && t.counter == s.counter + 1
    && t.ledger != [] && t.ledger == s.ledger + [LastEntry(t)] && LastEntry(t).proposal.capabilityId == Some(id)
  }

  lemma NeededDrops(declared: set<string>, hasMemory: bool, s: Session, t: Session, id: string)
    requires Used(s, t, id) && Useful(declared, hasMemory, s, id)
    ensures Needed(declared, hasMemory, t) < Needed(declared, hasMemory, s)
  {
    ReadStays(s, t);
    DistinctIds();
    NotMemory(CONTEXT);
    if id == MEMORY_READ {
      assert !MemoryDue(hasMemory, t);
    } else {
      NotMemory(id);
      assert !Open(declared, t, id);
      assert Open(declared, t, CONTEXT) == Open(declared, s, CONTEXT);
    }
  }

  lemma CompletableKept(declared: set<string>, hasMemory: bool, s: Session, t: Session, id: string)
    requires Used(s, t, id) && Useful(declared, hasMemory, s, id)
    ensures CanComplete(declared, t) == CanComplete(declared, s)
  {
    DistinctIds();
    NotMemory(CONTEXT);
    NotMemory(ORDER);
    NotMemory(BASIS);
  }

  /** A useful step lowers the number of steps needed, and does not change how the session will end. */
  lemma UsefulStep(cfg: Config, o: Oracles, hasMemory: bool, s: Session, id: string)
    requires Easy(cfg, o) && s.status == Running && |s.planQueue| == 1 && IsUse(s.planQueue[0], id)
    requires Useful(DeclaredIds(cfg.capabilities), hasMemory, s, id)
    ensures var t := TakeStep(cfg, o, s); var declared := DeclaredIds(cfg.capabilities);
      && t.status == Running && t.planQueue == [] && t.counter == s.counter + 1
      && t.state == s.state && t.pending == s.pending
      && Needed(declared, hasMemory, t) < Needed(declared, hasMemory, s)
      && CanComplete(declared, t) == CanComplete(declared, s)
  {
    if id != MEMORY_READ {
      NotMemory(id);
    }
    UseSucceeds(cfg, o, s, id);
    NeededDrops(DeclaredIds(cfg.capabilities), hasMemory, s, TakeStep(cfg, o, s), id);
    CompletableKept(DeclaredIds(cfg.capabilities), hasMemory, s, TakeStep(cfg, o, s), id);
  }

  /** The session once the planner has been asked. */
  ghost predicate Planned(o: Oracles, s: Session, t: Session) {
    && s.status == Running && Prepare(o, s) == t && t.planQueue != []
    && t == s.(state := s.state.(memoryContext := o.context(s)), planQueue := t.planQueue)
  }

  lemma UseCase(cfg: Config, o: Oracles, hasMemory: bool, s: Session, t: Session, id: string, maxSteps: int)
    returns (u: Session)
    requires Easy(cfg, o) && Between(s) && s.pending == [] && s.counter < maxSteps && Planned(o, s, t)
    requires |t.planQueue| == 1 && IsUse(t.planQueue[0], id)
    requires Useful(DeclaredIds(cfg.capabilities), hasMemory, t, id)
    ensures Run(cfg, o, s, maxSteps) == Run(cfg, o, u, maxSteps)
    ensures Between(u) && u.pending == [] && u.counter == s.counter + 1
    ensures Needed(DeclaredIds(cfg.capabilities), hasMemory, u) < Needed(DeclaredIds(cfg.capabilities), hasMemory, s)
    ensures CanComplete(DeclaredIds(cfg.capabilities), u) == CanComplete(DeclaredIds(cfg.capabilities), s)
  {
    u := TakeStep(cfg, o, t);
    UsefulStep(cfg, o, hasMemory, t, id);
  }

  lemma ContextCase(cfg: Config, o: Oracles, s: Session, t: Session, maxSteps: int)
    requires Easy(cfg, o) && s.counter + 1 < maxSteps && Planned(o, s, t)
    requires |t.planQueue| == 2 && IsUse(t.planQueue[0], CONTEXT) && Closes(t.planQueue[1])
    requires CONTEXT in DeclaredIds(cfg.capabilities)
    ensures Run(cfg, o, s, maxSteps).status == Complete && Run(cfg, o, s, maxSteps).counter == s.counter + 2
  {
    NotMemory(CONTEXT);
    UseSucceeds(cfg, o, t, CONTEXT);
    ClosingStep(cfg, o, TakeStep(cfg, o, t), maxSteps);
  }

  /** A closing step at the head of the queue completes the run. */
  lemma ClosingStep(cfg: Config, o: Oracles, s: Session, maxSteps: int)
    requires s.status == Running && s.counter < maxSteps
    requires Prepare(o, s).planQueue != [] && Closes(Prepare(o, s).planQueue[0])
    ensures Run(cfg, o, s, maxSteps).status == Complete && Run(cfg, o, s, maxSteps).counter == s.counter + 1
  {
    var u := TakeStep(cfg, o, Prepare(o, s));
    assert u.status == Complete && u.counter == s.counter + 1;
    assert Run(cfg, o, u, maxSteps) == u;
  }

  lemma GapCase(cfg: Config, o: Oracles, s: Session, t: Session, maxSteps: int)
    requires s.pending == [] && s.counter < maxSteps && Planned(o, s, t)
    requires t.planQueue[0].kind == ReportGap
    ensures Settled(Run(cfg, o, s, maxSteps)) && Run(cfg, o, s, maxSteps).counter == s.counter + 1
    ensures Run(cfg, o, s, maxSteps).status == Hold
  {
    var u := TakeStep(cfg, o, t);
    assert u.status == Hold && u.state.reportedGap.Some? && u.pending == [] && u.counter == s.counter + 1;
    assert Run(cfg, o, u, maxSteps) == u;
  }

  lemma PlanAgain(cfg: Config, o: Oracles, hasMemory: bool, s: Session) returns (t: Session)
    requires Between(s)
    requires forall t: Session :: !t.state.goalSatisfied ==> WellPlanned(DeclaredIds(cfg.capabilities), hasMemory, t, o.plan(t))
    ensures Planned(o, s, t) && WellPlanned(DeclaredIds(cfg.capabilities), hasMemory, t, t.planQueue)
  {
    var prepared := s.(state := s.state.(memoryContext := o.context(s)));
    var declared := DeclaredIds(cfg.capabilities);
    var plan := o.plan(prepared);
    t := prepared.(planQueue := plan);
    assert WellPlanned(declared, hasMemory, prepared, plan);
    if id :| Useful(declared, hasMemory, prepared, id) && |plan| == 1 && IsUse(plan[0], id) {
      assert Useful(declared, hasMemory, t, id);
    }
  }

  /** Progress: with as many steps of budget as are needed, the run settles, and uses no more of them. */
  lemma {:induction false} HeuristicSettles(cfg: Config, o: Oracles, hasMemory: bool, s: Session, maxSteps: int)
    requires Easy(cfg, o) && Between(s) && s.pending == []
    requires forall t: Session :: !t.state.goalSatisfied ==> WellPlanned(DeclaredIds(cfg.capabilities), hasMemory, t, o.plan(t))
    requires s.counter + Needed(DeclaredIds(cfg.capabilities), hasMemory, s) <= maxSteps
    ensures var t := Run(cfg, o, s, maxSteps);
      && Settled(t)
      && (t.status == Complete <==> CanComplete(DeclaredIds(cfg.capabilities), s))
      && t.counter <= s.counter + Needed(DeclaredIds(cfg.capabilities), hasMemory, s)
    decreases Needed(DeclaredIds(cfg.capabilities), hasMemory, s)
  {
    var declared := DeclaredIds(cfg.capabilities);
    var t := PlanAgain(cfg, o, hasMemory, s);
    if id :| Useful(declared, hasMemory, t, id) && |t.planQueue| == 1 && IsUse(t.planQueue[0], id) {
      var u := UseCase(cfg, o, hasMemory, s, t, id, maxSteps);
      HeuristicSettles(cfg, o, hasMemory, u, maxSteps);
    } else if |t.planQueue| == 2 {
      assert Open(declared, s, CONTEXT);
      ContextCase(cfg, o, s, t, maxSteps);
    } else if Closes(t.planQueue[0]) {
      ClosingStep(cfg, o, s, maxSteps);
    } else {
      GapCase(cfg, o, s, t, maxSteps);
    }
  }

  /** Heuristic progress: a fresh session with at least five steps ends COMPLETE or in a reported-gap
      HOLD within five steps, never FAILED and never PAUSED, whatever its inputs, manifest and injected
      working set; and it ends COMPLETE exactly when these make it completable. */
  lemma FreshHeuristicSession(cfg: Config, gate: nat, o: Oracles, hasMemory: bool, environment: string, inputs: Payload,
                              initial: WorkingSet, maxSteps: int)
    requires Easy(cfg, o) && Heuristically(cfg, o, hasMemory, environment) && maxSteps >= 5
    ensures var t := Run(cfg, o, Fresh(gate, inputs, initial), maxSteps);
      && Settled(t) && t.counter <= 5
      && (t.status == Complete <==> Completable(DeclaredIds(cfg.capabilities), initial.Keys, inputs))
  {
    var declared := DeclaredIds(cfg.capabilities);
    forall s: Session | !s.state.goalSatisfied ensures WellPlanned(declared, hasMemory, s, o.plan(s)) {
      PlanIsWell(declared, hasMemory, environment, s);
    }
    HeuristicSettles(cfg, o, hasMemory, Fresh(gate, inputs, initial), maxSteps);
  }

  // ----- what the planner asks of a capability -----

  /** A planned use carries the scenario's input for its capability. */
  lemma UsesCarryInputs(declared: set<string>, hasMemory: bool, environment: string, s: Session)
    requires ProposePlan(declared, hasMemory, environment, s) != []
    ensures var p := ProposePlan(declared, hasMemory, environment, s)[0]; var inputs := s.state.scenarioInputs;
      && (IsUse(p, ORDER) ==>
            "requestedNotionalUsd" in inputs && p.payload == map["requested_notional_usd" := inputs["requestedNotionalUsd"]])
      && (IsUse(p, PRICE) ==>
            p.payload == map["market_data_age_ms" := if "marketDataAgeMs" in inputs then inputs["marketDataAgeMs"] else Number(0.0)])
      && (IsUse(p, BASIS) ==>
            p.payload == map[
              "basis_bps" := if "basisBps" in inputs then inputs["basisBps"] else Number(0.0),
              "volatility_regime" := if "volatilityRegime" in inputs then inputs["volatilityRegime"] else Text("normal")])
  {
    DistinctIds();
    NotMemory(ORDER);
    NotMemory(PRICE);
    NotMemory(BASIS);
  }

  lemma ReadsCarryScope(declared: set<string>, hasMemory: bool, environment: string, s: Session)
    requires ProposePlan(declared, hasMemory, environment, s) != []
    ensures var p := ProposePlan(declared, hasMemory, environment, s)[0];
      && (IsUse(p, CONTEXT) ==> p.payload == map[])
      && (IsUse(p, MEMORY_READ) ==> p.payload == map["scope" := Text("session"), "environment" := Text(environment)])
  {
    DistinctIds();
    NotMemory(CONTEXT);
    NotMemory(ORDER);
    NotMemory(PRICE);
    NotMemory(BASIS);
  }

  /** The order in which the planner decides: memory, context, then the scenario's order, price and basis, then price
      and basis without a scenario. */
  lemma DecidesInOrder(declared: set<string>, hasMemory: bool, environment: string, s: Session)
    requires !s.state.goalSatisfied && ProposePlan(declared, hasMemory, environment, s) != []
    ensures var p := ProposePlan(declared, hasMemory, environment, s)[0]; var inputs := s.state.scenarioInputs;
      var memory := MemoryDue(hasMemory, s);
      var context := "cap-context-read" in declared && "cap-context-read" !in s.workingSet;
      var order := "requestedNotionalUsd" in inputs && "cap-exchange-order" in declared && "cap-exchange-order" !in s.workingSet;
      var price := "cap-market-btc-price" in declared && "cap-market-btc-price" !in s.workingSet;
      var basis := "cap-market-basis" in declared && "cap-market-basis" !in s.workingSet;
      && (memory ==> IsUse(p, "memory.read"))
      && (!memory && context ==> IsUse(p, "cap-context-read"))
      && (!memory && !context && order ==> IsUse(p, "cap-exchange-order"))
      && (!memory && !context && !order && price && ("marketDataAgeMs" in inputs || "basisBps" !in inputs || !basis) ==>
            IsUse(p, "cap-market-btc-price"))
      && (!memory && !context && !order && basis && (!price || ("basisBps" in inputs && "marketDataAgeMs" !in inputs)) ==>
            IsUse(p, "cap-market-basis"))
      && (!memory && !context && !order && !price && !basis ==> Closes(p) || p.kind == ReportGap)
  {
    assert Closes(Finish());
  }
}
