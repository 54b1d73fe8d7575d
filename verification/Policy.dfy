/** `NativePolicyGate.evaluate_action` of src/aether_forge/policy.py and `_AutoApproveGate` of
    src/aether_forge/runner.py. */
module Policy {
  import opened Results
  import opened Values

  datatype Disposition = Allow | Hold | Deny

  datatype Severity = Info | Warning | Error

  /** The reason identifiers, in the order in which the source looks for them. */
  datatype Reason =
    | EnvironmentNotAllowed | CredentialHandleMissing | CredentialHandleScope | ExposureLimit
    | StaleMarketData | ApprovalRequired | ApprovalRequiredByPolicyBundle | WalletChainNotAllowed
    | WalletTransferLimit | ApprovalRequiredByWalletPolicy | EffectSemanticsMissing
    | MemorySensitivityExceedsEnvironment | MemoryPromotionRequiresApproval

  /** The rule identifiers written next to the reasons. */
  datatype RuleId =
    | CapabilityEnvironment | CredentialHandleExistence | CredentialHandleEnvironment | RiskMaxNotional
    | DataStalenessBudget | ApprovalRequiredRule | ApprovalEnvironmentPolicy | WalletAllowedChains
    | WalletMaxTransferAmount | WalletApprovalEnvironmentPolicy | CapabilityEffectSemantics
    | MemoryWriteSensitivity | MemoryPromoteApproval

  datatype Decision = Decision(
    ruleMatches: seq<RuleId>, severity: Severity, approvalPath: seq<string>,
    disposition: Disposition, reasonIds: seq<Reason>)

  datatype Capability = Capability(
    capabilityId: string, kind: string, credentialHandleId: Option<string>,
    allowedEnvironments: set<string>, maxNotionalUsd: Option<real>, stalenessBudgetMs: Option<real>,
    requiredApproval: bool, effectSemantics: bool, chain: Value)

  datatype Handle = Handle(handleId: string, allowedEnvironments: set<string>)

  /** The settings `from_policy_bundle` reads, and Python's rendering of numbers and containers. */
  datatype Settings = Settings(
    maxNotionalUsd: real, requireApprovalEnvironments: set<string>, walletAllowedChains: set<string>,
    maxWalletTransferAmount: Option<real>, requireWalletApprovalEnvironments: set<string>,
    enforceStalenessChecks: bool, sensitivityDenied: map<string, set<string>>, repr: Value -> string)

  /** One question to the gate. */
  datatype Action = Action(
    capability: Capability, handles: seq<Handle>, environment: string, payload: Payload)

  // ----- when each rule fires, and what it writes -----

  predicate SideEffecting(kind: string) {
    kind == "wallet-action" || kind == "exchange-action" || kind == "onchain-action"
  }

  function FindHandle(handles: seq<Handle>, id: string): Option<Handle> {
    if handles == [] then None
    else if handles[0].handleId == id then Some(handles[0])
    else FindHandle(handles[1..], id)
  }

  predicate HasToken(p: Payload) {
    Truthy(Get(p, "approval_token"))
  }

  predicate HandleMissing(a: Action) {
    a.capability.credentialHandleId.Some? && FindHandle(a.handles, a.capability.credentialHandleId.value).None?
  }

  predicate HandleOutOfScope(a: Action) {
    a.capability.credentialHandleId.Some? &&
    var h := FindHandle(a.handles, a.capability.credentialHandleId.value);
    h.Some? && a.environment !in h.value.allowedEnvironments
  }

  function WalletChain(a: Action): Value {
    var asked := Get(a.payload, "chain");
    if Truthy(asked) then asked else a.capability.chain
  }

  predicate ChainRefused(g: Settings, a: Action) {
    && a.capability.kind == "wallet-action" && g.walletAllowedChains != {}
    && WalletChain(a).Text? && WalletChain(a).s !in g.walletAllowedChains
  }

  predicate Signs(p: Payload) {
    Get(p, "wallet_action") == Text("send-transaction") || Get(p, "wallet_action") == Text("sign-transaction")
  }

  function DefaultDenied(environment: string): set<string> {
    if environment == "paper" || environment == "canary-live" then {"restricted"}
    else if environment == "production" then {"confidential", "restricted"}
    else {}
  }

  /** The bundle's deny list replaces the defaults as soon as it is not empty. */
  function DeniedSensitivity(g: Settings, environment: string): set<string> {
    if g.sensitivityDenied == map[] then DefaultDenied(environment)
    else if environment in g.sensitivityDenied then g.sensitivityDenied[environment]
    else {}
  }

  /** `str(action_payload.get("sensitivity", "")).lower()`. */
  function Sensitivity(g: Settings, a: Action): string {
    if "sensitivity" in a.payload then Lower(Str(a.payload["sensitivity"], g.repr)) else ""
  }

  predicate SensitivityRefused(g: Settings, a: Action) {
    var sensitivity := Sensitivity(g, a);
    sensitivity != "" && sensitivity in DeniedSensitivity(g, a.environment)
  }

  function NotionalLimit(g: Settings, c: Capability): real {
    c.maxNotionalUsd.GetOr(g.maxNotionalUsd)
  }

  predicate Fires(g: Settings, a: Action, r: Reason) {
    var c, p, env := a.capability, a.payload, a.environment;
    match r
    case EnvironmentNotAllowed => env !in c.allowedEnvironments
    case CredentialHandleMissing => HandleMissing(a)
    case CredentialHandleScope => HandleOutOfScope(a)
    case ExposureLimit => Exceeds(Get(p, "requested_notional_usd"), Some(NotionalLimit(g, c)))
    case StaleMarketData => g.enforceStalenessChecks && Exceeds(Get(p, "market_data_age_ms"), c.stalenessBudgetMs)
    case ApprovalRequired => c.requiredApproval && !HasToken(p)
    case ApprovalRequiredByPolicyBundle =>
      SideEffecting(c.kind) && env in g.requireApprovalEnvironments && !HasToken(p)
    case WalletChainNotAllowed => ChainRefused(g, a)
    case WalletTransferLimit => c.kind == "wallet-action" && Exceeds(Get(p, "amount"), g.maxWalletTransferAmount)
    case ApprovalRequiredByWalletPolicy =>
      c.kind == "wallet-action" && env in g.requireWalletApprovalEnvironments && Signs(p) && !HasToken(p)
    case EffectSemanticsMissing => SideEffecting(c.kind) && !c.effectSemantics
    case MemorySensitivityExceedsEnvironment => c.capabilityId == "memory.write" && SensitivityRefused(g, a)
    case MemoryPromotionRequiresApproval => c.capabilityId == "memory.promote"
  }

  function RuleOf(r: Reason): RuleId {
    match r
    case EnvironmentNotAllowed => CapabilityEnvironment
    case CredentialHandleMissing => CredentialHandleExistence
    case CredentialHandleScope => CredentialHandleEnvironment
    case ExposureLimit => RiskMaxNotional
    case StaleMarketData => DataStalenessBudget
    case ApprovalRequired => ApprovalRequiredRule
    case ApprovalRequiredByPolicyBundle => ApprovalEnvironmentPolicy
    case WalletChainNotAllowed => WalletAllowedChains
    case WalletTransferLimit => WalletMaxTransferAmount
    case ApprovalRequiredByWalletPolicy => WalletApprovalEnvironmentPolicy
    case EffectSemanticsMissing => CapabilityEffectSemantics
    case MemorySensitivityExceedsEnvironment => MemoryWriteSensitivity
    case MemoryPromotionRequiresApproval => MemoryPromoteApproval
  }

  function DispositionOf(r: Reason): Disposition {
    match r
    case EnvironmentNotAllowed | CredentialHandleMissing | CredentialHandleScope => Deny
    case WalletChainNotAllowed | EffectSemanticsMissing | MemorySensitivityExceedsEnvironment => Deny
    case _ => Hold
  }

  function SeverityOf(r: Reason): Severity {
    if AsksApproval(r) then Warning else Error
  }

  /** Reasons beginning with `approval-required`, and the promotion reason. */
  predicate AsksApproval(r: Reason) {
    r.ApprovalRequired? || r.ApprovalRequiredByPolicyBundle? || r.ApprovalRequiredByWalletPolicy?
    || r.MemoryPromotionRequiresApproval?
  }

  const ORDER: seq<Reason> := [
    EnvironmentNotAllowed, CredentialHandleMissing, CredentialHandleScope, ExposureLimit,
    StaleMarketData, ApprovalRequired, ApprovalRequiredByPolicyBundle, WalletChainNotAllowed,
    WalletTransferLimit, ApprovalRequiredByWalletPolicy, EffectSemanticsMissing,
    MemorySensitivityExceedsEnvironment, MemoryPromotionRequiresApproval]

  /** What the gate has written so far. */
  datatype Notes = Notes(reasons: seq<Reason>, matches: seq<RuleId>, disposition: Disposition, severity: Severity)

  const NOTHING := Notes([], [], Allow, Info)

  function Write(n: Notes, r: Reason): Notes {
    Notes(n.reasons + [r], n.matches + [RuleOf(r)], DispositionOf(r), SeverityOf(r))
  }

  function Consider(g: Settings, a: Action, n: Notes, r: Reason): Notes {
    if Fires(g, a, r) then Write(n, r) else n
  }

  /** The notes after looking for `reasons` in turn. */
  function Notice(g: Settings, a: Action, reasons: seq<Reason>): Notes {
    if reasons == [] then NOTHING
    else Consider(g, a, Notice(g, a, reasons[..|reasons| - 1]), reasons[|reasons| - 1])
  }

  function Conclude(n: Notes): Decision {
    Decision(n.matches, n.severity,
             if n.disposition == Hold && exists i :: 0 <= i < |n.reasons| && AsksApproval(n.reasons[i])
             then ["manual"] else [],
             n.disposition, n.reasons)
  }

  /** The specification of the gate: every rule in order, the last firing one deciding. */
  function Evaluate(g: Settings, a: Action): Decision {
    Conclude(Notice(g, a, ORDER))
  }

  /** `_AutoApproveGate.evaluate_action`. */
  function EvaluateAutoApproved(g: Settings, a: Action): Decision {
    Evaluate(g, a.(payload := a.payload["approval_token" := Text("auto-approve-sandbox")]))
  }

  // ----- the gate -----

  lemma NoticeStep(g: Settings, a: Action, k: nat)
    requires k < |ORDER|
    ensures Notice(g, a, ORDER[..k + 1]) == Consider(g, a, Notice(g, a, ORDER[..k]), ORDER[k])
  {
    assert ORDER[..k + 1][..k] == ORDER[..k];
  }

  class NativePolicyGate {
    const settings: Settings

    constructor (settings: Settings)
      ensures this.settings == settings
    {
      this.settings := settings;
    }

    /** `evaluate_action`, statement by statement. */
    method EvaluateAction(a: Action) returns (d: Decision)
      ensures d == Evaluate(settings, a)
    {
      var n := CheckScope(a);
      n := CheckLimits(a, n);
      n := CheckWallet(a, n);
      n := CheckSemantics(a, n);
      assert ORDER[..13] == ORDER;
      d := Conclude(n);
    }

    /** Lines 84-110: environment and credential handle. */
    method CheckScope(a: Action) returns (n: Notes)
      ensures n == Notice(settings, a, ORDER[..3])
    {
      n := NOTHING;
      NoticeStep(settings, a, 0);
      NoticeStep(settings, a, 1);
      NoticeStep(settings, a, 2);
      if a.environment !in a.capability.allowedEnvironments {
        n := Write(n, EnvironmentNotAllowed);
      }
      if a.capability.credentialHandleId.Some? {
        var handle := FindHandle(a.handles, a.capability.credentialHandleId.value);
        if handle.None? {
          n := Write(n, CredentialHandleMissing);
        } else if a.environment !in handle.value.allowedEnvironments {
          n := Write(n, CredentialHandleScope);
        }
      }
    }

    /** Lines 112-144: exposure, staleness and the two general approval rules. */
    method CheckLimits(a: Action, before: Notes) returns (n: Notes)
      requires before == Notice(settings, a, ORDER[..3])
      ensures n == Notice(settings, a, ORDER[..7])
    {
      n := before;
      NoticeStep(settings, a, 3);
      NoticeStep(settings, a, 4);
      NoticeStep(settings, a, 5);
      NoticeStep(settings, a, 6);
      var c := a.capability;
      var maxNotional := c.maxNotionalUsd.GetOr(settings.maxNotionalUsd);
      var requested := NumberOf(Get(a.payload, "requested_notional_usd"));
      if requested.Some? && requested.value > maxNotional {
        n := Write(n, ExposureLimit);
      }
      var age := NumberOf(Get(a.payload, "market_data_age_ms"));
      if settings.enforceStalenessChecks && c.stalenessBudgetMs.Some? && age.Some?
         && age.value > c.stalenessBudgetMs.value {
        n := Write(n, StaleMarketData);
      }
      if c.requiredApproval && !Truthy(Get(a.payload, "approval_token")) {
        n := Write(n, ApprovalRequired);
      }
      if SideEffecting(c.kind) && a.environment in settings.requireApprovalEnvironments
         && !Truthy(Get(a.payload, "approval_token")) {
        n := Write(n, ApprovalRequiredByPolicyBundle);
      }
    }

    /** Lines 146-176: wallet chain, amount and approval. */
    method CheckWallet(a: Action, before: Notes) returns (n: Notes)
      requires before == Notice(settings, a, ORDER[..7])
      ensures n == Notice(settings, a, ORDER[..10])
    {
      n := before;
      NoticeStep(settings, a, 7);
      NoticeStep(settings, a, 8);
      NoticeStep(settings, a, 9);
      var walletChain := Get(a.payload, "chain");
      if !Truthy(walletChain) {
        walletChain := a.capability.chain;
      }
      if a.capability.kind == "wallet-action" && settings.walletAllowedChains != {} && walletChain.Text? {
        if walletChain.s !in settings.walletAllowedChains {
          n := Write(n, WalletChainNotAllowed);
        }
      }
      var amount := NumberOf(Get(a.payload, "amount"));
      if a.capability.kind == "wallet-action" && amount.Some? && settings.maxWalletTransferAmount.Some?
         && amount.value > settings.maxWalletTransferAmount.value {
        n := Write(n, WalletTransferLimit);
      }
      if a.capability.kind == "wallet-action" && a.environment in settings.requireWalletApprovalEnvironments
         && Signs(a.payload) && !Truthy(Get(a.payload, "approval_token")) {
        n := Write(n, ApprovalRequiredByWalletPolicy);
      }
    }

    /** Lines 178-208: effect semantics and the memory rules. */
    method CheckSemantics(a: Action, before: Notes) returns (n: Notes)
      requires before == Notice(settings, a, ORDER[..10])
      ensures n == Notice(settings, a, ORDER[..13])
    {
      n := before;
      NoticeStep(settings, a, 10);
      NoticeStep(settings, a, 11);
      NoticeStep(settings, a, 12);
      if SideEffecting(a.capability.kind) && !a.capability.effectSemantics {
        n := Write(n, EffectSemanticsMissing);
      }
      if a.capability.capabilityId == "memory.write" {
        var sensitivity := if "sensitivity" in a.payload then Lower(Str(a.payload["sensitivity"], settings.repr)) else "";
        if sensitivity != "" && sensitivity in DeniedSensitivity(settings, a.environment) {
          n := Write(n, MemorySensitivityExceedsEnvironment);
        }
      } else if a.capability.capabilityId == "memory.promote" {
        n := Write(n, MemoryPromotionRequiresApproval);
      }
    }
  }

  // ----- gate algebra -----

  lemma {:induction false} NoticeAlgebra(g: Settings, a: Action, rs: seq<Reason>)
    ensures var n := Notice(g, a, rs);
      && |n.reasons| == |n.matches|
      && (n.disposition == Allow <==> n.reasons == [])
      && (n.reasons == [] ==> n.severity == Info)
      && (forall r :: r in n.reasons <==> r in rs && Fires(g, a, r))
  {
    if rs != [] {
      var front, last := rs[..|rs| - 1], rs[|rs| - 1];
      NoticeAlgebra(g, a, front);
      assert rs == front + [last];
    }
  }

  /** A decision allows exactly when no reason was found, and is then informative and asks nobody; every reason comes with a rule match; and
      the reasons are exactly the rules that fire, whatever their order. */
  lemma DecisionAlgebra(g: Settings, a: Action)
    ensures var d := Evaluate(g, a);
      && (d.disposition == Allow <==> d.reasonIds == [])
      && (d.reasonIds == [] ==> d.severity == Info && d.approvalPath == [])
      && |d.reasonIds| == |d.ruleMatches|
      && (forall r :: r in d.reasonIds <==> Fires(g, a, r))
  {
    NoticeAlgebra(g, a, ORDER);
    forall r: Reason ensures r in ORDER {
      EveryReasonOrdered(r);
    }
  }

  lemma EveryReasonOrdered(r: Reason)
    ensures r in ORDER
  {
    var k := match r
      case EnvironmentNotAllowed => 0
      case CredentialHandleMissing => 1
      case CredentialHandleScope => 2
      case ExposureLimit => 3
      case StaleMarketData => 4
      case ApprovalRequired => 5
      case ApprovalRequiredByPolicyBundle => 6
      case WalletChainNotAllowed => 7
      case WalletTransferLimit => 8
      case ApprovalRequiredByWalletPolicy => 9
      case EffectSemanticsMissing => 10
      case MemorySensitivityExceedsEnvironment => 11
      case MemoryPromotionRequiresApproval => 12;
    assert ORDER[k] == r;
  }

  /** The disposition is that of the last firing rule: a later hold replaces an earlier deny. */
  lemma LastRuleDecides(g: Settings, a: Action, k: nat)
    requires k < |ORDER| && Fires(g, a, ORDER[k])
    requires forall i :: k < i < |ORDER| ==> !Fires(g, a, ORDER[i])
    ensures Evaluate(g, a).disposition == DispositionOf(ORDER[k])
  {
    SilentTail(g, a, ORDER, k);
    NoticeStep(g, a, k);
  }

  /** An action is denied exactly when the last rule that fires denies. */
  lemma DeniedIff(g: Settings, a: Action)
    ensures Evaluate(g, a).disposition == Deny <==> exists k :: 0 <= k < |ORDER| && DeniesLast(g, a, k)
  {
    DecisionAlgebra(g, a);
    if Evaluate(g, a).disposition == Deny {
      var r := Evaluate(g, a).reasonIds[0];
      EveryReasonOrdered(r);
      var k := LastFiring(g, a, |ORDER|);
      LastRuleDecides(g, a, k);
      assert DeniesLast(g, a, k);
    }
    if k :| 0 <= k < |ORDER| && DeniesLast(g, a, k) {
      LastRuleDecides(g, a, k);
    }
  }

  ghost predicate DeniesLast(g: Settings, a: Action, k: nat)
    requires k < |ORDER|
  {
    Fires(g, a, ORDER[k]) && DispositionOf(ORDER[k]) == Deny && forall i :: k < i < |ORDER| ==> !Fires(g, a, ORDER[i])
  }

  lemma {:induction false} LastFiring(g: Settings, a: Action, n: nat) returns (k: nat)
    requires n <= |ORDER| && exists i :: 0 <= i < n && Fires(g, a, ORDER[i])
    ensures k < n && Fires(g, a, ORDER[k]) && forall i :: k < i < n ==> !Fires(g, a, ORDER[i])
  {
    if Fires(g, a, ORDER[n - 1]) {
      k := n - 1;
    } else {
      k := LastFiring(g, a, n - 1);
    }
  }

  lemma {:induction false} SilentTail(g: Settings, a: Action, rs: seq<Reason>, k: nat)
    requires k < |rs|
    requires forall i :: k < i < |rs| ==> !Fires(g, a, rs[i])
    ensures Notice(g, a, rs) == Notice(g, a, rs[..k + 1])
  {
    var n := |rs| - 1;
    if k < n {
      SilentTail(g, a, rs[..n], k);
      assert rs[..n][..k + 1] == rs[..k + 1];
    } else {
      assert rs[..k + 1] == rs;
    }
  }

  /** A hold does replace a deny: an undeclared environment and an exceeded notional only hold. */
  lemma DenyDoesNotDominate(g: Settings, a: Action)
    requires Fires(g, a, EnvironmentNotAllowed) && Fires(g, a, ExposureLimit)
    requires forall r :: Fires(g, a, r) ==> r == EnvironmentNotAllowed || r == ExposureLimit
    ensures Evaluate(g, a).disposition == Hold && EnvironmentNotAllowed in Evaluate(g, a).reasonIds
  {
    assert ORDER[3] == ExposureLimit;
    LastRuleDecides(g, a, 3);
    DecisionAlgebra(g, a);
  }

  /** Such an action exists: a bare capability allowed nowhere, asked for one dollar against a limit of
      nothing, is held. */
  lemma HeldOutsideItsEnvironment(repr: Value -> string)
    ensures var g := Settings(0.0, {}, {}, None, {}, true, map[], repr);
      var c := Capability("cap-order", "market-data", None, {}, None, None, false, true, Null);
      var a := Action(c, [], "production", map["requested_notional_usd" := Number(1.0)]);
      Evaluate(g, a).disposition == Hold && EnvironmentNotAllowed in Evaluate(g, a).reasonIds
  {
    var g := Settings(0.0, {}, {}, None, {}, true, map[], repr);
    var c := Capability("cap-order", "market-data", None, {}, None, None, false, true, Null);
    var a := Action(c, [], "production", map["requested_notional_usd" := Number(1.0)]);
    assert Get(a.payload, "requested_notional_usd") == Number(1.0);
    assert c.kind[0] == 'm';
    assert !SideEffecting(c.kind) && c.kind != "wallet-action";
    assert c.capabilityId[0] == 'c' && c.capabilityId != "memory.write" && c.capabilityId != "memory.promote";
    DenyDoesNotDominate(g, a);
  }

  /** Promotion of memory is never allowed, whatever the settings, the payload and the gate. */
  lemma PromotionNeverAllowed(g: Settings, a: Action)
    requires a.capability.capabilityId == "memory.promote"
    ensures Evaluate(g, a).disposition != Allow && EvaluateAutoApproved(g, a).disposition != Allow
  {
    var b := a.(payload := a.payload["approval_token" := Text("auto-approve-sandbox")]);
    DecisionAlgebra(g, a);
    DecisionAlgebra(g, b);
    assert Fires(g, a, MemoryPromotionRequiresApproval) && Fires(g, b, MemoryPromotionRequiresApproval);
  }

  // ----- approval tokens -----

  /** The three reasons a token answers. */
  predicate IsTokenReason(r: Reason) {
    r.ApprovalRequired? || r.ApprovalRequiredByPolicyBundle? || r.ApprovalRequiredByWalletPolicy?
  }

  function WithoutTokenReasons(reasons: seq<Reason>): seq<Reason> {
    if reasons == [] then []
    else
      WithoutTokenReasons(reasons[..|reasons| - 1]) +
      if IsTokenReason(reasons[|reasons| - 1]) then [] else [reasons[|reasons| - 1]]
  }

  lemma {:induction false} NoticeFiltered(g: Settings, a: Action, b: Action, rs: seq<Reason>)
    requires forall r :: Fires(g, b, r) <==> Fires(g, a, r) && !IsTokenReason(r)
    ensures Notice(g, b, rs).reasons == WithoutTokenReasons(Notice(g, a, rs).reasons)
  {
    if rs != [] {
      var n := |rs| - 1;
      NoticeFiltered(g, a, b, rs[..n]);
      var before := Notice(g, a, rs[..n]).reasons;
      assert (before + [rs[n]])[..|before|] == before;
    }
  }

  lemma GetOther(p: Payload, token: Value, key: string)
    requires key != "approval_token"
    ensures Get(p["approval_token" := token], key) == Get(p, key)
  {
  }

  lemma FiresWithToken(g: Settings, a: Action, token: Value, r: Reason)
    requires Truthy(token)
    ensures Fires(g, a.(payload := a.payload["approval_token" := token]), r) <==> Fires(g, a, r) && !IsTokenReason(r)
  {
    var b := a.(payload := a.payload["approval_token" := token]);
    assert HasToken(b.payload);
    match r
    case ExposureLimit => GetOther(a.payload, token, "requested_notional_usd");
    case StaleMarketData => GetOther(a.payload, token, "market_data_age_ms");
    case WalletChainNotAllowed => GetOther(a.payload, token, "chain");
    case WalletTransferLimit => GetOther(a.payload, token, "amount");
    case ApprovalRequiredByWalletPolicy => GetOther(a.payload, token, "wallet_action");
    case MemorySensitivityExceedsEnvironment => GetOther(a.payload, token, "sensitivity");
    case _ =>
  }

  /** A token answers exactly the three token-approval reasons and touches nothing else. */
  lemma TokenFiltersReasons(g: Settings, a: Action, token: Value)
    requires Truthy(token)
    ensures Evaluate(g, a.(payload := a.payload["approval_token" := token])).reasonIds
      == WithoutTokenReasons(Evaluate(g, a).reasonIds)
  {
    var b := a.(payload := a.payload["approval_token" := token]);
    forall r ensures Fires(g, b, r) <==> Fires(g, a, r) && !IsTokenReason(r) {
      FiresWithToken(g, a, token, r);
    }
    NoticeFiltered(g, a, b, ORDER);
  }

  /** The auto-approving gate finds the reasons of the base gate without the three token reasons, so
      it allows exactly when nothing else was wrong. */
  lemma AutoApproveFilters(g: Settings, a: Action)
    ensures EvaluateAutoApproved(g, a).reasonIds == WithoutTokenReasons(Evaluate(g, a).reasonIds)
    ensures EvaluateAutoApproved(g, a).disposition == Allow
      <==> forall r :: r in Evaluate(g, a).reasonIds ==> IsTokenReason(r)
  {
    var token := Text("auto-approve-sandbox");
    TokenFiltersReasons(g, a, token);
    DecisionAlgebra(g, a.(payload := a.payload["approval_token" := token]));
    AllFiltered(Evaluate(g, a).reasonIds);
  }

  lemma {:induction false} FilteredHasNoToken(reasons: seq<Reason>)
    ensures forall r :: r in WithoutTokenReasons(reasons) ==> !IsTokenReason(r)
  {
    if reasons != [] {
      FilteredHasNoToken(reasons[..|reasons| - 1]);
    }
  }

  lemma {:induction false} AllFiltered(reasons: seq<Reason>)
    ensures WithoutTokenReasons(reasons) == [] <==> forall r :: r in reasons ==> IsTokenReason(r)
  {
    if reasons != [] {
      var front, last := reasons[..|reasons| - 1], reasons[|reasons| - 1];
      AllFiltered(front);
      assert reasons == front + [last];
    }
  }

  // ----- what each rule looks at, written out on the action -----

  /** The payload entry is the number `n`; a Python bool is one. */
  ghost predicate Holds(p: Payload, key: string, n: real) {
    key in p && (p[key] == Number(n) || (p[key] == Bool(true) && n == 1.0) || (p[key] == Bool(false) && n == 0.0))
  }

  ghost predicate HoldsMoreThan(p: Payload, key: string, limit: real) {
    exists n :: Holds(p, key, n) && n > limit
  }

  /** The payload has an approval token that is not empty. */
  ghost predicate Tokened(p: Payload) {
    && "approval_token" in p
    && var v := p["approval_token"];
    v != Null && v != Bool(false) && v != Number(0.0) && v != Text("") && !(v.Opaque? && !v.nonEmpty)
  }

  lemma ExceedsIff(p: Payload, key: string, limit: real)
    ensures Exceeds(Get(p, key), Some(limit)) <==> HoldsMoreThan(p, key, limit)
  {
    if Exceeds(Get(p, key), Some(limit)) {
      assert Holds(p, key, NumberOf(Get(p, key)).value);
    }
  }

  lemma TokenIff(p: Payload)
    ensures HasToken(p) <==> Tokened(p)
  {
  }

  /** The first handle with the identifier is number `i`. */
  ghost predicate FirstWith(handles: seq<Handle>, id: string, i: int) {
    0 <= i < |handles| && handles[i].handleId == id && forall j :: 0 <= j < i ==> handles[j].handleId != id
  }

  lemma {:induction false} FoundHandle(handles: seq<Handle>, id: string)
    ensures FindHandle(handles, id).None? <==> forall i :: 0 <= i < |handles| ==> handles[i].handleId != id
    ensures forall i :: FirstWith(handles, id, i) ==> FindHandle(handles, id) == Some(handles[i])
    ensures FindHandle(handles, id).Some? ==> exists i :: FirstWith(handles, id, i)
  {
    if handles != [] {
      FoundHandle(handles[1..], id);
      assert forall i :: 1 <= i < |handles| ==> handles[i] == handles[1..][i - 1];
      if handles[0].handleId == id {
        assert FirstWith(handles, id, 0);
      } else {
        forall i | FirstWith(handles, id, i) ensures FindHandle(handles, id) == Some(handles[i]) {
          assert FirstWith(handles[1..], id, i - 1);
        }
        if FindHandle(handles, id).Some? {
          var i :| FirstWith(handles[1..], id, i);
          assert FirstWith(handles, id, i + 1);
        }
      }
    }
  }

  /** Credentials: missing is reported exactly when the capability names a handle and none has that identifier;
      out of scope exactly when the first handle with it does not allow the environment. */
  lemma CredentialReasons(g: Settings, a: Action)
    ensures var reasons := Evaluate(g, a).reasonIds; var id := a.capability.credentialHandleId;
      && (CredentialHandleMissing in reasons <==>
            id.Some? && forall i :: 0 <= i < |a.handles| ==> a.handles[i].handleId != id.value)
      && (CredentialHandleScope in reasons <==>
            id.Some? && exists i :: FirstWith(a.handles, id.value, i) && a.environment !in a.handles[i].allowedEnvironments)
  {
    DecisionAlgebra(g, a);
    if a.capability.credentialHandleId.Some? {
      FoundHandle(a.handles, a.capability.credentialHandleId.value);
    }
  }

  /** With distinct identifiers: some handle with the identifier lacks the environment. */
  lemma CredentialScopeOfDistinct(g: Settings, a: Action)
    requires forall i, j :: 0 <= i < j < |a.handles| ==> a.handles[i].handleId != a.handles[j].handleId
    ensures CredentialHandleScope in Evaluate(g, a).reasonIds <==>
      && a.capability.credentialHandleId.Some?
      && exists h :: h in a.handles && h.handleId == a.capability.credentialHandleId.value && a.environment !in h.allowedEnvironments
  {
    CredentialReasons(g, a);
    var id := a.capability.credentialHandleId;
    if id.Some? {
      if h :| h in a.handles && h.handleId == id.value && a.environment !in h.allowedEnvironments {
        var i :| 0 <= i < |a.handles| && a.handles[i] == h;
        assert FirstWith(a.handles, id.value, i);
      }
      if i :| FirstWith(a.handles, id.value, i) && a.environment !in a.handles[i].allowedEnvironments {
        assert a.handles[i] in a.handles;
      }
    }
  }

  /** Environment, exposure and staleness. */
  lemma LimitReasons(g: Settings, a: Action)
    ensures var reasons := Evaluate(g, a).reasonIds; var c := a.capability;
      && (EnvironmentNotAllowed in reasons <==> a.environment !in c.allowedEnvironments)
      && (ExposureLimit in reasons <==>
            HoldsMoreThan(a.payload, "requested_notional_usd",
                          if c.maxNotionalUsd.Some? then c.maxNotionalUsd.value else g.maxNotionalUsd))
      && (StaleMarketData in reasons <==>
            g.enforceStalenessChecks && c.stalenessBudgetMs.Some?
            && HoldsMoreThan(a.payload, "market_data_age_ms", c.stalenessBudgetMs.value))
  {
    DecisionAlgebra(g, a);
    ExceedsIff(a.payload, "requested_notional_usd", NotionalLimit(g, a.capability));
    if a.capability.stalenessBudgetMs.Some? {
      ExceedsIff(a.payload, "market_data_age_ms", a.capability.stalenessBudgetMs.value);
    }
  }

  /** The kinds whose execution has an effect outside. */
  ghost predicate ActsOutside(kind: string) {
    kind in {"wallet-action", "exchange-action", "onchain-action"}
  }

  /** The two general approval rules, and effect semantics. */
  lemma ApprovalReasons(g: Settings, a: Action)
    ensures var reasons := Evaluate(g, a).reasonIds; var c := a.capability;
      && (ApprovalRequired in reasons <==> c.requiredApproval && !Tokened(a.payload))
      && (ApprovalRequiredByPolicyBundle in reasons <==>
            ActsOutside(c.kind) && a.environment in g.requireApprovalEnvironments && !Tokened(a.payload))
      && (EffectSemanticsMissing in reasons <==> ActsOutside(c.kind) && !c.effectSemantics)
  {
    DecisionAlgebra(g, a);
    TokenIff(a.payload);
  }

  /** The chain asked for: the payload's when it is not empty, else the capability's. */
  ghost predicate AsksChain(a: Action, chain: string) {
    if "chain" in a.payload && Truthy(a.payload["chain"]) then a.payload["chain"] == Text(chain)
    else a.capability.chain == Text(chain)
  }

  /** The three wallet rules. */
  lemma WalletReasons(g: Settings, a: Action)
    ensures var reasons := Evaluate(g, a).reasonIds; var wallet := a.capability.kind == "wallet-action";
      && (WalletChainNotAllowed in reasons <==>
            wallet && g.walletAllowedChains != {} && exists chain :: AsksChain(a, chain) && chain !in g.walletAllowedChains)
      && (WalletTransferLimit in reasons <==>
            wallet && g.maxWalletTransferAmount.Some? && HoldsMoreThan(a.payload, "amount", g.maxWalletTransferAmount.value))
      && (ApprovalRequiredByWalletPolicy in reasons <==>
            && wallet && a.environment in g.requireWalletApprovalEnvironments
            && "wallet_action" in a.payload
            && a.payload["wallet_action"] in {Text("send-transaction"), Text("sign-transaction")}
            && !Tokened(a.payload))
  {
    DecisionAlgebra(g, a);
    TokenIff(a.payload);
    if WalletChain(a).Text? {
      assert AsksChain(a, WalletChain(a).s);
    }
    if g.maxWalletTransferAmount.Some? {
      ExceedsIff(a.payload, "amount", g.maxWalletTransferAmount.value);
    }
  }

  /** What the environment denies: the bundle's list for it as soon as the bundle lists anything, and else
      restricted records in paper and canary-live, restricted and confidential ones in production. */
  ghost predicate Denies(g: Settings, environment: string, sensitivity: string) {
    if g.sensitivityDenied != map[] then
      environment in g.sensitivityDenied && sensitivity in g.sensitivityDenied[environment]
    else
      || (sensitivity == "restricted" && environment in {"paper", "canary-live", "production"})
      || (sensitivity == "confidential" && environment == "production")
  }

  /** The two memory rules. */
  lemma MemoryReasons(g: Settings, a: Action)
    ensures var reasons := Evaluate(g, a).reasonIds; var id := a.capability.capabilityId;
      && (MemorySensitivityExceedsEnvironment in reasons <==>
            && id == "memory.write" && "sensitivity" in a.payload
            && Lower(Str(a.payload["sensitivity"], g.repr)) != ""
            && Denies(g, a.environment, Lower(Str(a.payload["sensitivity"], g.repr))))
      && (MemoryPromotionRequiresApproval in reasons <==> id == "memory.promote")
  {
    DecisionAlgebra(g, a);
    DeniesIff(g, a.environment, Sensitivity(g, a));
  }

  lemma DeniesIff(g: Settings, environment: string, sensitivity: string)
    ensures sensitivity in DeniedSensitivity(g, environment) <==> Denies(g, environment, sensitivity)
  {
    assert |"paper"| == 5 && |"canary-live"| == 11 && |"production"| == 10;
  }

  /** What a decision says when one rule fires alone. */
  ghost predicate Alone(d: Decision, r: Reason, rule: RuleId, disposition: Disposition, severity: Severity, manual: bool) {
    d.reasonIds == [r] ==>
      d.ruleMatches == [rule] && d.disposition == disposition && d.severity == severity
      && d.approvalPath == (if manual then ["manual"] else [])
  }

  /** Each rule's own verdict. */
  ghost predicate AllAlone(d: Decision) {
    && Alone(d, EnvironmentNotAllowed, CapabilityEnvironment, Deny, Error, false)
    && Alone(d, CredentialHandleMissing, CredentialHandleExistence, Deny, Error, false)
    && Alone(d, CredentialHandleScope, CredentialHandleEnvironment, Deny, Error, false)
    && Alone(d, ExposureLimit, RiskMaxNotional, Hold, Error, false)
    && Alone(d, StaleMarketData, DataStalenessBudget, Hold, Error, false)
    && Alone(d, ApprovalRequired, ApprovalRequiredRule, Hold, Warning, true)
    && Alone(d, ApprovalRequiredByPolicyBundle, ApprovalEnvironmentPolicy, Hold, Warning, true)
    && Alone(d, WalletChainNotAllowed, WalletAllowedChains, Deny, Error, false)
    && Alone(d, WalletTransferLimit, WalletMaxTransferAmount, Hold, Error, false)
    && Alone(d, ApprovalRequiredByWalletPolicy, WalletApprovalEnvironmentPolicy, Hold, Warning, true)
    && Alone(d, EffectSemanticsMissing, CapabilityEffectSemantics, Deny, Error, false)
    && Alone(d, MemorySensitivityExceedsEnvironment, MemoryWriteSensitivity, Deny, Error, false)
    && Alone(d, MemoryPromotionRequiresApproval, MemoryPromoteApproval, Hold, Warning, true)
  }

  lemma VerdictAlone(g: Settings, a: Action)
    ensures AllAlone(Evaluate(g, a))
  {
    var d := Evaluate(g, a);
    if |d.reasonIds| == 1 {
      var r := d.reasonIds[0];
      OneReason(g, a, ORDER, r);
      WrittenAlone(r);
    }
  }

  lemma WrittenPath(r: Reason)
    ensures var d := Conclude(Write(NOTHING, r));
      && d.reasonIds == [r] && d.ruleMatches == [RuleOf(r)] && d.disposition == DispositionOf(r) && d.severity == SeverityOf(r)
      && d.approvalPath == (if DispositionOf(r) == Hold && AsksApproval(r) then ["manual"] else [])
  {
    var n := Write(NOTHING, r);
    assert n.reasons == [r] && n.reasons[0] == r && |n.reasons| == 1;
  }

  lemma WrittenAlone(r: Reason)
    ensures AllAlone(Conclude(Write(NOTHING, r)))
  {
    var d := Conclude(Write(NOTHING, r));
    WrittenPath(r);
    TableHolds(d, r);
  }

  lemma TableHolds(d: Decision, r: Reason)
    requires d.reasonIds == [r] && d.ruleMatches == [RuleOf(r)] && d.disposition == DispositionOf(r) && d.severity == SeverityOf(r)
    requires d.approvalPath == (if DispositionOf(r) == Hold && AsksApproval(r) then ["manual"] else [])
    ensures AllAlone(d)
  {
    assert d.reasonIds[0] == r;
  }

  /** With one reason the notes are those of writing it into nothing. */
  lemma {:induction false} OneReason(g: Settings, a: Action, rs: seq<Reason>, r: Reason)
    requires Notice(g, a, rs).reasons == [r]
    ensures Notice(g, a, rs) == Write(NOTHING, r)
  {
    var front, last := rs[..|rs| - 1], rs[|rs| - 1];
    var before := Notice(g, a, front);
    if Fires(g, a, last) {
      assert Notice(g, a, rs) == Write(before, last);
      assert before.reasons == [] && Notice(g, a, rs).reasons[0] == last;
      NoticeNothing(g, a, front);
    } else {
      OneReason(g, a, front, r);
    }
  }

  lemma {:induction false} NoticeNothing(g: Settings, a: Action, rs: seq<Reason>)
    requires Notice(g, a, rs).reasons == []
    ensures Notice(g, a, rs) == NOTHING
  {
    if rs != [] {
      var front := rs[..|rs| - 1];
      assert |Notice(g, a, rs).reasons| >= |Notice(g, a, front).reasons|;
      NoticeNothing(g, a, front);
    }
  }

  /** The approval path is manual exactly for a held action with a reason that approval, or a promotion, needs. */
  lemma PathIsManual(g: Settings, a: Action)
    ensures var d := Evaluate(g, a);
      d.approvalPath == if d.disposition == Hold && exists r :: r in d.reasonIds && r in {
          ApprovalRequired, ApprovalRequiredByPolicyBundle, ApprovalRequiredByWalletPolicy, MemoryPromotionRequiresApproval}
        then ["manual"] else []
  {
    var reasons := Evaluate(g, a).reasonIds;
    if r :| r in reasons && AsksApproval(r) {
      var i :| 0 <= i < |reasons| && reasons[i] == r;
      assert AsksApproval(reasons[i]);
    }
  }
}
