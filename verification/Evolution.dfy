/** src/aether_forge/evolution.py: strategy mutation under governance, and the drawdown loop. */
module Evolution {
  import opened Results

  /** Values of parameters and mutations. JSON as Python reads it may hold a NaN, which is a number to
      `isinstance` but compares false with everything. */
  datatype Value = Num(n: real) | NaN | Other(tag: int)

  type Mutations = map<string, Value>

  datatype Change = Change(version: int, proposalId: string, mutations: Mutations)

  datatype Strategy = Strategy(
    version: int, parameters: map<string, Value>, entryRules: Value,
    successMetrics: map<string, real>, history: seq<Change>)

  datatype Verdict = Proposed | Accepted | Rejected

  datatype Proposal = Proposal(id: string, mutations: Mutations, verdict: Verdict, feedback: string)

  datatype Research = Research(strategy: Strategy, proposals: seq<Proposal>)

  const ENTRY_RULES: string := "entry_rules"

  const SAFETY_BOUNDS: map<string, (real, real)> := map[
    "position_size_pct" := (0.1, 25.0),
    "max_open_orders" := (1.0, 10.0),
    "stop_loss_pct" := (0.5, 20.0),
    "spread_pct" := (0.01, 10.0),
    "momentum_threshold" := (0.01, 5.0),
    "volatility_multiplier" := (0.1, 5.0)]

  // ----- the operations -----

  predicate WeakensMetric(metrics: map<string, real>, key: string, v: Value) {
    && key in metrics && v.Num?
    && (("min_" <= key && v.n < metrics[key]) || ("max_" <= key && v.n > metrics[key]))
  }

  predicate OutOfBounds(key: string, v: Value) {
    key in SAFETY_BOUNDS && v.Num? && (v.n < SAFETY_BOUNDS[key].0 || v.n > SAFETY_BOUNDS[key].1)
  }

  /** `_weakens_criteria`. */
  predicate Weakens(metrics: map<string, real>, m: Mutations) {
    exists key :: key in m && (WeakensMetric(metrics, key, m[key]) || OutOfBounds(key, m[key]))
  }

  function Mutated(parameters: map<string, Value>, m: Mutations): map<string, Value> {
    map key | key in parameters :: if key in m then m[key] else parameters[key]
  }

  /** Entry rules change only when they are not shadowed by a parameter of that name. */
  function MutatedRules(parameters: map<string, Value>, rules: Value, m: Mutations): Value {
    if ENTRY_RULES in m && ENTRY_RULES !in parameters then m[ENTRY_RULES] else rules
  }

  /** The first open proposal with the identifier. */
  function FindOpen(proposals: seq<Proposal>, id: string): Option<nat> {
    if proposals == [] then None
    else if proposals[0].id == id && proposals[0].verdict == Proposed then Some(0)
    else
      var k :- FindOpen(proposals[1..], id);
      Some(k + 1)
  }

  lemma {:induction false} FindOpenFinds(proposals: seq<Proposal>, id: string)
    ensures var k := FindOpen(proposals, id);
      k.Some? ==> k.value < |proposals| && proposals[k.value].id == id && proposals[k.value].verdict == Proposed
    ensures FindOpen(proposals, id).None? <==>
      forall i :: 0 <= i < |proposals| ==> proposals[i].id != id || proposals[i].verdict != Proposed
  {
    if proposals != [] {
      FindOpenFinds(proposals[1..], id);
      assert forall i :: 1 <= i < |proposals| ==> proposals[i] == proposals[1..][i - 1];
    }
  }

  function Judge(r: Research, k: nat, verdict: Verdict, feedback: string): Research
    requires k < |r.proposals|
  {
    r.(proposals := r.proposals[k := r.proposals[k].(verdict := verdict, feedback := feedback)])
  }

  function Adopt(s: Strategy, p: Proposal): Strategy {
    s.(version := s.version + 1,
       parameters := Mutated(s.parameters, p.mutations),
       entryRules := MutatedRules(s.parameters, s.entryRules, p.mutations),
       history := s.history + [Change(s.version + 1, p.id, p.mutations)])
  }

  const WEAKENING: string := "Rejected: would weaken success criteria"

  /** `accept_proposal`. */
  function Accept(r: Research, id: string): (Research, bool) {
    FindOpenFinds(r.proposals, id);
    match FindOpen(r.proposals, id)
    case None => (r, false)
    case Some(k) =>
      var p := r.proposals[k];
      if Weakens(r.strategy.successMetrics, p.mutations) then (Judge(r, k, Rejected, WEAKENING), false)
      else (Judge(r, k, Accepted, p.feedback).(strategy := Adopt(r.strategy, p)), true)
  }

  /** `reject_proposal`. */
  function Reject(r: Research, id: string, feedback: string): (Research, bool) {
    FindOpenFinds(r.proposals, id);
    match FindOpen(r.proposals, id)
    case None => (r, false)
    case Some(k) => (Judge(r, k, Rejected, feedback), true)
  }

  datatype Op =
    | Propose(id: string, mutations: Mutations)
    | DoAccept(id: string)
    | DoReject(id: string, feedback: string)

  function Apply(r: Research, op: Op): Research {
    match op
    case Propose(id, m) => r.(proposals := r.proposals + [Proposal(id, m, Proposed, "")])
    case DoAccept(id) => Accept(r, id).0
    case DoReject(id, feedback) => Reject(r, id, feedback).0
  }

  function ApplyAll(r: Research, ops: seq<Op>): Research {
    if ops == [] then r else Apply(ApplyAll(r, ops[..|ops| - 1]), ops[|ops| - 1])
  }

  // ----- event sourcing -----

  function FoldParameters(loaded: map<string, Value>, changes: seq<Change>): map<string, Value> {
    if changes == [] then loaded
    else Mutated(FoldParameters(loaded, changes[..|changes| - 1]), changes[|changes| - 1].mutations)
  }

  function FoldRules(parameters: map<string, Value>, rules: Value, changes: seq<Change>): Value {
    if changes == [] then rules
    else MutatedRules(parameters, FoldRules(parameters, rules, changes[..|changes| - 1]), changes[|changes| - 1].mutations)
  }

  function AcceptedCount(proposals: seq<Proposal>): nat {
    if proposals == [] then 0
    else AcceptedCount(proposals[..|proposals| - 1]) + if proposals[|proposals| - 1].verdict == Accepted then 1 else 0
  }

  /** The strategy is the fold of the changes appended since it was loaded, none of which weakened it,
      and there is one change for each accepted proposal. */
  ghost predicate Sourced(loaded: Strategy, r: Research) {
    var s := r.strategy;
    && s.successMetrics == loaded.successMetrics
    && loaded.history <= s.history
    && var changes := s.history[|loaded.history|..];
    && s.parameters == FoldParameters(loaded.parameters, changes)
    && s.parameters.Keys == loaded.parameters.Keys
    && s.entryRules == FoldRules(loaded.parameters, loaded.entryRules, changes)
    && s.version == loaded.version + |changes|
    && (forall i :: 0 <= i < |changes| ==>
          changes[i].version == loaded.version + i + 1 && !Weakens(loaded.successMetrics, changes[i].mutations))
    && AcceptedCount(r.proposals) == |changes|
  }

  lemma {:induction false} CountUpdate(proposals: seq<Proposal>, k: nat, p: Proposal)
    requires k < |proposals| && proposals[k].verdict != Accepted
    ensures AcceptedCount(proposals[k := p]) == AcceptedCount(proposals) + if p.verdict == Accepted then 1 else 0
  {
    var n := |proposals| - 1;
    if k < n {
      CountUpdate(proposals[..n], k, p);
      assert proposals[k := p][..n] == proposals[..n][k := p];
    } else {
      assert proposals[k := p][..n] == proposals[..n];
    }
  }

  lemma {:induction false} RulesIgnoreValues(p: map<string, Value>, q: map<string, Value>, rules: Value, changes: seq<Change>)
    requires p.Keys == q.Keys
    ensures FoldRules(p, rules, changes) == FoldRules(q, rules, changes)
  {
    if changes != [] {
      RulesIgnoreValues(p, q, rules, changes[..|changes| - 1]);
    }
  }

  lemma AdoptKeepsSourced(loaded: Strategy, r: Research, k: nat)
    requires Sourced(loaded, r) && k < |r.proposals| && r.proposals[k].verdict == Proposed
    requires !Weakens(r.strategy.successMetrics, r.proposals[k].mutations)
    ensures Sourced(loaded, Judge(r, k, Accepted, r.proposals[k].feedback).(strategy := Adopt(r.strategy, r.proposals[k])))
  {
    var p := r.proposals[k];
    var t := Adopt(r.strategy, p);
    var old_ := r.strategy.history[|loaded.history|..];
    var changes := t.history[|loaded.history|..];
    assert changes == old_ + [Change(t.version, p.id, p.mutations)];
    assert changes[..|old_|] == old_;
    CountUpdate(r.proposals, k, p.(verdict := Accepted));
  }

  lemma ApplyKeepsSourced(loaded: Strategy, r: Research, op: Op)
    requires Sourced(loaded, r)
    ensures Sourced(loaded, Apply(r, op))
  {
    match op
    case Propose(id, m) =>
      var grown := r.proposals + [Proposal(id, m, Proposed, "")];
      assert grown[..|r.proposals|] == r.proposals;
    case DoAccept(id) =>
      FindOpenFinds(r.proposals, id);
      var k := FindOpen(r.proposals, id);
      if k.Some? {
        var p := r.proposals[k.value];
        if Weakens(r.strategy.successMetrics, p.mutations) {
          CountUpdate(r.proposals, k.value, p.(verdict := Rejected, feedback := WEAKENING));
        } else {
          AdoptKeepsSourced(loaded, r, k.value);
        }
      }
    case DoReject(id, feedback) =>
      FindOpenFinds(r.proposals, id);
      var k := FindOpen(r.proposals, id);
      if k.Some? {
        CountUpdate(r.proposals, k.value, r.proposals[k.value].(verdict := Rejected, feedback := feedback));
      }
  }

  /** Over any interleaving of proposals, acceptances and rejections the strategy is event-sourced. */
  lemma {:induction false} StrategyIsSourced(loaded: Strategy, ops: seq<Op>)
    ensures Sourced(loaded, ApplyAll(Research(loaded, []), ops))
  {
    if ops == [] {
      assert loaded.history[|loaded.history|..] == [];
    } else {
      StrategyIsSourced(loaded, ops[..|ops| - 1]);
      ApplyKeepsSourced(loaded, ApplyAll(Research(loaded, []), ops[..|ops| - 1]), ops[|ops| - 1]);
    }
  }

  /** Proposals are never dropped or rewritten, and a verdict once given stays. */
  ghost predicate Settles(before: seq<Proposal>, after: seq<Proposal>) {
    && |before| <= |after|
    && (forall i :: 0 <= i < |before| ==>
          && after[i].id == before[i].id && after[i].mutations == before[i].mutations
          && (before[i].verdict != Proposed ==> after[i] == before[i]))
  }

  lemma {:induction false} VerdictsAreFinal(r: Research, ops: seq<Op>)
    ensures Settles(r.proposals, ApplyAll(r, ops).proposals)
  {
    if ops != [] {
      VerdictsAreFinal(r, ops[..|ops| - 1]);
      var t := ApplyAll(r, ops[..|ops| - 1]);
      var op := ops[|ops| - 1];
      if !op.Propose? {
        FindOpenFinds(t.proposals, op.id);
      }
    }
  }

  // ----- safety bounds -----

  ghost predicate InBounds(key: string, v: Value) {
    key in SAFETY_BOUNDS && v.Num? && SAFETY_BOUNDS[key].0 <= v.n <= SAFETY_BOUNDS[key].1
  }

  /** Every bounded parameter that is a number is within its bounds. */
  ghost predicate NumbersInBounds(parameters: map<string, Value>) {
    forall key :: key in parameters && key in SAFETY_BOUNDS && parameters[key].Num? ==> InBounds(key, parameters[key])
  }

  /** Numeric parameters that start within the safety bounds stay there over every run. */
  lemma {:induction false} NumbersStayInBounds(r: Research, ops: seq<Op>)
    requires NumbersInBounds(r.strategy.parameters)
    ensures NumbersInBounds(ApplyAll(r, ops).strategy.parameters)
  {
    if ops != [] {
      NumbersStayInBounds(r, ops[..|ops| - 1]);
      var t := ApplyAll(r, ops[..|ops| - 1]);
      var op := ops[|ops| - 1];
      if op.DoAccept? && Accept(t, op.id).1 {
        FindOpenFinds(t.proposals, op.id);
        var m := t.proposals[FindOpen(t.proposals, op.id).value].mutations;
        forall key | key in m ensures !OutOfBounds(key, m[key]) {
        }
      }
    }
  }

  /** Exactly when an accepted proposal leaves a bounded parameter within its bounds: the check looks
      only at numbers, so a mutation to anything else (a NaN, a string, a null) is let through. */
  lemma AcceptedWithinBounds(r: Research, id: string, key: string)
    requires Accept(r, id).1 && key in r.strategy.parameters && key in SAFETY_BOUNDS
    ensures FindOpen(r.proposals, id).Some? && FindOpen(r.proposals, id).value < |r.proposals|
    ensures var m := r.proposals[FindOpen(r.proposals, id).value].mutations;
      InBounds(key, Accept(r, id).0.strategy.parameters[key]) <==>
      (if key in m then m[key].Num? else InBounds(key, r.strategy.parameters[key]))
  {
    FindOpenFinds(r.proposals, id);
    var m := r.proposals[FindOpen(r.proposals, id).value].mutations;
    assert key in m ==> !OutOfBounds(key, m[key]);
  }

  /** A concrete case: a NaN position size is accepted. */
  lemma NaNIsAccepted()
    ensures var s := Strategy(1, map["position_size_pct" := Num(1.0)], Other(0), map[], []);
      var r := Research(s, [Proposal("prop_1", map["position_size_pct" := NaN], Proposed, "")]);
      && NumbersInBounds(s.parameters)
      && Accept(r, "prop_1").1
      && Accept(r, "prop_1").0.strategy.parameters["position_size_pct"] == NaN
  {
    var m: Mutations := map["position_size_pct" := NaN];
    var s := Strategy(1, map["position_size_pct" := Num(1.0)], Other(0), map[], []);
    assert !Weakens(s.successMetrics, m);
    assert FindOpen([Proposal("prop_1", m, Proposed, "")], "prop_1") == Some(0);
  }

  // ----- what acceptance looks at, written out -----

  /** The mutation of `key` to a number makes a success metric easier, or leaves a safety bound. */
  ghost predicate Loosens(metrics: map<string, real>, key: string, n: real) {
    || (key in metrics && "min_" <= key && n < metrics[key])
    || (key in metrics && "max_" <= key && n > metrics[key])
    || (key == "position_size_pct" && (n < 0.1 || n > 25.0))
    || (key == "max_open_orders" && (n < 1.0 || n > 10.0))
    || (key == "stop_loss_pct" && (n < 0.5 || n > 20.0))
    || (key == "spread_pct" && (n < 0.01 || n > 10.0))
    || (key == "momentum_threshold" && (n < 0.01 || n > 5.0))
    || (key == "volatility_multiplier" && (n < 0.1 || n > 5.0))
  }

  lemma LoosensIff(metrics: map<string, real>, key: string, v: Value)
    ensures WeakensMetric(metrics, key, v) || OutOfBounds(key, v) <==> v.Num? && Loosens(metrics, key, v.n)
  {
    BoundsDiffer();
  }

  lemma BoundsDiffer()
    ensures var names := ["position_size_pct", "max_open_orders", "stop_loss_pct", "spread_pct", "momentum_threshold",
                          "volatility_multiplier"];
      forall i, j :: 0 <= i < j < 6 ==> names[i] != names[j]
  {
    assert |"position_size_pct"| == 17 && |"max_open_orders"| == 15 && |"stop_loss_pct"| == 13 && |"spread_pct"| == 10;
    assert |"momentum_threshold"| == 18 && |"volatility_multiplier"| == 21;
  }

  /** Number `k` is the first open proposal with the identifier. */
  ghost predicate FirstOpen(proposals: seq<Proposal>, id: string, k: nat) {
    && k < |proposals| && proposals[k].id == id && proposals[k].verdict == Proposed
    && forall j :: 0 <= j < k ==> proposals[j].id != id || proposals[j].verdict != Proposed
  }

  lemma {:induction false} FirstOpenIsFound(proposals: seq<Proposal>, id: string, k: nat)
    requires FirstOpen(proposals, id, k)
    ensures FindOpen(proposals, id) == Some(k)
  {
    if k > 0 {
      assert FirstOpen(proposals[1..], id, k - 1);
      FirstOpenIsFound(proposals[1..], id, k - 1);
    }
  }

  /** The first open proposal with the identifier is accepted exactly when no mutation to a number loosens anything;
      else it is rejected, and the strategy stays. An accepted one changes exactly the known parameters it
      mentions, and entry rules that are not a parameter, and adds itself to the history. */
  lemma AcceptedIff(r: Research, id: string, k: nat)
    requires FirstOpen(r.proposals, id, k)
    ensures var (t, ok) := Accept(r, id); var m := r.proposals[k].mutations; var s := r.strategy;
      && (ok <==> forall key :: key in m && m[key].Num? ==> !Loosens(s.successMetrics, key, m[key].n))
      && |t.proposals| == |r.proposals|
      && t.proposals[k] == r.proposals[k].(
           verdict := if ok then Accepted else Rejected,
           feedback := if ok then r.proposals[k].feedback else "Rejected: would weaken success criteria")
      && (forall j :: 0 <= j < |r.proposals| && j != k ==> t.proposals[j] == r.proposals[j])
      && (!ok ==> t.strategy == s)
      && (ok ==>
            && t.strategy.parameters.Keys == s.parameters.Keys
            && (forall key :: key in s.parameters ==>
                  t.strategy.parameters[key] == if key in m then m[key] else s.parameters[key])
            && t.strategy.entryRules ==
                 (if "entry_rules" in m && "entry_rules" !in s.parameters then m["entry_rules"] else s.entryRules)
            && t.strategy.version == s.version + 1
            && t.strategy.history == s.history + [Change(s.version + 1, id, m)])
  {
    FirstOpenIsFound(r.proposals, id, k);
    var m := r.proposals[k].mutations;
    forall key | key in m
      ensures WeakensMetric(r.strategy.successMetrics, key, m[key]) || OutOfBounds(key, m[key])
        <==> m[key].Num? && Loosens(r.strategy.successMetrics, key, m[key].n)
    {
      LoosensIff(r.strategy.successMetrics, key, m[key]);
    }
  }

  /** Without an open proposal of the identifier neither verdict does anything. */
  lemma NothingOpenNothingDone(r: Research, id: string, feedback: string)
    requires forall j :: 0 <= j < |r.proposals| ==> r.proposals[j].id != id || r.proposals[j].verdict != Proposed
    ensures Accept(r, id) == (r, false) && Reject(r, id, feedback) == (r, false)
  {
    FindOpenFinds(r.proposals, id);
  }

  /** A rejection closes the first open proposal with its feedback, and leaves the strategy and the others alone. */
  lemma RejectedEffect(r: Research, id: string, feedback: string, k: nat)
    requires FirstOpen(r.proposals, id, k)
    ensures var (t, ok) := Reject(r, id, feedback);
      && ok && t.strategy == r.strategy && |t.proposals| == |r.proposals|
      && t.proposals[k] == r.proposals[k].(verdict := Rejected, feedback := feedback)
      && forall j :: 0 <= j < |r.proposals| && j != k ==> t.proposals[j] == r.proposals[j]
  {
    FirstOpenIsFound(r.proposals, id, k);
  }

  /** What is proposed is added as an open proposal, and nothing else changes; it can then be judged, unless an earlier
      open one has its identifier. */
  lemma ProposedIsOpen(r: Research, id: string, m: Mutations)
    ensures var t := Apply(r, Propose(id, m));
      && t.strategy == r.strategy && |t.proposals| == |r.proposals| + 1 && t.proposals[..|r.proposals|] == r.proposals
      && t.proposals[|r.proposals|] == Proposal(id, m, Proposed, "")
      && ((forall j :: 0 <= j < |r.proposals| ==> r.proposals[j].id != id || r.proposals[j].verdict != Proposed) ==>
            FirstOpen(t.proposals, id, |r.proposals|))
  {
  }

  // ----- the research object -----

  class RuntimeAutoresearch {
    const successMetrics: map<string, real>
    var version: int
    var parameters: map<string, Value>
    var entryRules: Value
    var history: seq<Change>
    var proposals: seq<Proposal>

    function State(): Research
      reads this
    {
      Research(Strategy(version, parameters, entryRules, successMetrics, history), proposals)
    }

    constructor (loaded: Strategy)
      ensures State() == Research(loaded, [])
    {
      successMetrics := loaded.successMetrics;
      version, parameters, entryRules := loaded.version, loaded.parameters, loaded.entryRules;
      history, proposals := loaded.history, [];
    }

    /** The loop over the mutations, in whatever order the dictionary yields them. */
    method ApplyMutations(m: Mutations)
      modifies this`parameters, this`entryRules
      ensures parameters == Mutated(old(parameters), m)
      ensures entryRules == MutatedRules(old(parameters), old(entryRules), m)
    {
      var left := m.Keys;
      while left != {}
        invariant left <= m.Keys && parameters.Keys == old(parameters).Keys
        invariant forall key :: key in parameters ==>
          parameters[key] == if key in m && key !in left then m[key] else old(parameters)[key]
        invariant entryRules ==
          if ENTRY_RULES in m && ENTRY_RULES !in left && ENTRY_RULES !in parameters then m[ENTRY_RULES]
          else old(entryRules)
        decreases |left|
      {
        var key :| key in left;
        if key in parameters {
          parameters := parameters[key := m[key]];
        } else if key == ENTRY_RULES {
          entryRules := m[key];
        }
        left := left - {key};
      }
    }

    /** `accept_proposal`. */
    method AcceptProposal(id: string) returns (ok: bool)
      modifies this
      ensures (State(), ok) == Accept(old(State()), id)
    {
      var k := 0;
      while k < |proposals|
        invariant k <= |proposals|
        invariant FindOpen(proposals, id) == Shifted(FindOpen(proposals[k..], id), k)
      {
        var p := proposals[k];
        if p.id == id && p.verdict == Proposed {
          if Weakens(successMetrics, p.mutations) {
            proposals := proposals[k := p.(verdict := Rejected, feedback := WEAKENING)];
            return false;
          }
          ApplyMutations(p.mutations);
          version := version + 1;
          history := history + [Change(version, id, p.mutations)];
          proposals := proposals[k := p.(verdict := Accepted)];
          return true;
        }
        k := k + 1;
      }
      return false;
    }

    /** `reject_proposal`. */
    method RejectProposal(id: string, feedback: string) returns (ok: bool)
      modifies this
      ensures (State(), ok) == Reject(old(State()), id, feedback)
    {
      var k := 0;
      while k < |proposals|
        invariant k <= |proposals|
        invariant FindOpen(proposals, id) == Shifted(FindOpen(proposals[k..], id), k)
      {
        if proposals[k].id == id && proposals[k].verdict == Proposed {
          proposals := proposals[k := proposals[k].(verdict := Rejected, feedback := feedback)];
          return true;
        }
        k := k + 1;
      }
      return false;
    }
  }

  function Shifted(k: Option<nat>, offset: nat): Option<nat> {
    if k.None? then None else Some(k.value + offset)
  }

  // ----- drawdown -----

  /** The loss from balance `i` to the later balance `j`, as a percentage of the former. */
  function Loss(balances: seq<real>, i: nat, j: nat): real
    requires i <= j < |balances| && balances[i] > 0.0
  {
    (balances[i] - balances[j]) / balances[i] * 100.0
  }

  /** The reference: the largest loss over all pairs, at least 0. */
  ghost predicate IsMaxDrawdown(balances: seq<real>, d: real) {
    && d >= 0.0
    && (forall i, j :: 0 <= i <= j < |balances| && balances[i] > 0.0 ==> Loss(balances, i, j) <= d)
    && (d > 0.0 ==> exists i, j :: 0 <= i <= j < |balances| && balances[i] > 0.0 && Loss(balances, i, j) == d)
  }

  lemma QuotientOrder(b: real, low: real, high: real)
    requires 0.0 < low <= high && 0.0 <= b
    ensures (low - b) / low * 100.0 <= (high - b) / high * 100.0
  {
    Complement(b, low);
    Complement(b, high);
    assert b / low >= b / high by {
      ShrinkingQuotient(b, low, high);
    }
  }

  lemma Complement(b: real, x: real)
    requires x > 0.0
    ensures (x - b) / x == 1.0 - b / x
  {
    var q := b / x;
    var z := (x - b) / x;
    assert q * x == b;
    assert z * x == x - b;
    assert (z - (1.0 - q)) * x == 0.0;
    ZeroFactor(z - (1.0 - q), x);
  }

  lemma ZeroFactor(y: real, x: real)
    requires x > 0.0
    ensures y > 0.0 ==> y * x > 0.0
    ensures y < 0.0 ==> y * x < 0.0
  {
  }

  lemma ShrinkingQuotient(b: real, low: real, high: real)
    requires 0.0 < low <= high && 0.0 <= b
    ensures b / low >= b / high
  {
    var q := b / high;
    assert q >= 0.0;
    assert q * high == b;
    assert q * low <= q * high;
    assert b / low >= (q * low) / low;
  }

  /** The highest of the first `n` balances. */
  function Peak(balances: seq<real>, n: nat): real
    requires 0 < n <= |balances|
  {
    if n == 1 then balances[0]
    else
      var before := Peak(balances, n - 1);
      if balances[n - 1] > before then balances[n - 1] else before
  }

  function FallFrom(peak: real, balance: real): real {
    if peak > 0.0 then (peak - balance) / peak * 100.0 else 0.0
  }

  /** What one pass with a running peak computes. */
  function RunningDrawdown(balances: seq<real>, n: nat): real
    requires n <= |balances|
  {
    if n == 0 then 0.0
    else
      var before, dd := RunningDrawdown(balances, n - 1), FallFrom(Peak(balances, n), balances[n - 1]);
      if dd > before then dd else before
  }

  /** The drawdown loop of `evaluate`, before rounding. */
  method MaxDrawdown(balances: seq<real>) returns (maxDrawdown: real)
    ensures maxDrawdown == if |balances| >= 2 then RunningDrawdown(balances, |balances|) else 0.0
  {
    maxDrawdown := 0.0;
    if |balances| >= 2 {
      var peak := balances[0];
      for j := 0 to |balances|
        invariant peak == if j == 0 then balances[0] else Peak(balances, j)
        invariant maxDrawdown == RunningDrawdown(balances, j)
      {
        var balance := balances[j];
        peak := if balance > peak then balance else peak;
        var dd := if peak > 0.0 then (peak - balance) / peak * 100.0 else 0.0;
        maxDrawdown := if dd > maxDrawdown then dd else maxDrawdown;
      }
    }
  }

  lemma {:induction false} PeakFacts(balances: seq<real>, n: nat) returns (top: nat)
    requires 0 < n <= |balances|
    ensures top < n && balances[top] == Peak(balances, n)
    ensures forall i :: 0 <= i < n ==> balances[i] <= Peak(balances, n)
  {
    top := 0;
    if n > 1 {
      top := PeakFacts(balances, n - 1);
      if balances[n - 1] > Peak(balances, n - 1) {
        top := n - 1;
      }
    }
  }

  /** One pass is exact: when no balance is negative, the running-peak loop finds the largest loss over
      all pairs of an earlier and a later balance. */
  lemma {:induction false} OnePassIsExact(balances: seq<real>, n: nat)
    requires n <= |balances|
    requires forall i :: 0 <= i < |balances| ==> balances[i] >= 0.0
    ensures IsMaxDrawdown(balances[..n], RunningDrawdown(balances, n))
  {
    if n > 0 {
      OnePassIsExact(balances, n - 1);
      var top := PeakFacts(balances, n);
      DrawdownStep(balances, n - 1, top, RunningDrawdown(balances, n - 1), FallFrom(Peak(balances, n), balances[n - 1]));
    }
  }

  lemma DrawdownStep(balances: seq<real>, j: nat, top: nat, before: real, dd: real)
    requires top <= j < |balances|
    requires forall i :: 0 <= i < |balances| ==> balances[i] >= 0.0
    requires forall i :: 0 <= i <= j ==> balances[i] <= balances[top]
    requires IsMaxDrawdown(balances[..j], before)
    requires dd == FallFrom(balances[top], balances[j])
    ensures IsMaxDrawdown(balances[..j + 1], if dd > before then dd else before)
  {
    var after := if dd > before then dd else before;
    var now := balances[..j + 1];
    forall a, b | 0 <= a <= b < |now| && now[a] > 0.0 ensures Loss(now, a, b) <= after {
      if b < j {
        assert Loss(balances[..j], a, b) <= before;
      } else {
        QuotientOrder(balances[j], balances[a], balances[top]);
      }
    }
    if after > 0.0 {
      if dd > before {
        assert Loss(now, top, j) == after;
      } else {
        var a, b :| 0 <= a <= b < j && balances[..j][a] > 0.0 && Loss(balances[..j], a, b) == before;
        assert Loss(now, a, b) == after;
      }
    }
  }

  /** On any balances the loop never overstates: what it reports is the loss of some pair. */
  lemma {:induction false} OnePassNeverOverstates(balances: seq<real>, n: nat)
    requires n <= |balances|
    ensures RunningDrawdown(balances, n) > 0.0 ==>
      exists i, j :: 0 <= i <= j < n && balances[i] > 0.0 && Loss(balances, i, j) == RunningDrawdown(balances, n)
  {
    if n > 0 {
      OnePassNeverOverstates(balances, n - 1);
      var top := PeakFacts(balances, n);
      if RunningDrawdown(balances, n) > RunningDrawdown(balances, n - 1) && RunningDrawdown(balances, n) > 0.0 {
        assert Loss(balances, top, n - 1) == RunningDrawdown(balances, n);
      }
    }
  }

  // ----- exactly when one pass is exact -----

  lemma LossByRatio(b: real, x: real)
    requires x > 0.0
    ensures (x - b) / x * 100.0 == 100.0 - 100.0 * (b / x)
  {
    Complement(b, x);
  }

  lemma RatioSign(b: real, x: real)
    requires x > 0.0
    ensures b / x < 0.0 <==> b < 0.0
  {
    var q := b / x;
    assert q * x == b;
  }

  /** Against a lower balance a negative one is the larger loss. */
  lemma NegativeRatio(b: real, low: real, high: real)
    requires b < 0.0 < low < high
    ensures b / low < b / high
  {
    var p, q := b / low, b / high;
    assert p * low == b && q * high == b;
    RatioSign(b, high);
    if p >= q {
      assert p * low >= q * low;
      assert q * low > q * high;
    }
  }

  /** What the fall at `j` compares: the balance against the running peak. */
  lemma FallByRatio(balances: seq<real>, j: nat)
    requires j < |balances| && Peak(balances, j + 1) > 0.0
    ensures FallFrom(Peak(balances, j + 1), balances[j]) == 100.0 - 100.0 * (balances[j] / Peak(balances, j + 1))
  {
    LossByRatio(balances[j], Peak(balances, j + 1));
  }

  /** Step by step: the fall at `j` is the largest loss that ends there exactly when the balance is not
      negative or every positive balance so far equals the peak. */
  lemma FallIsLargest(balances: seq<real>, j: nat)
    requires j < |balances| && Peak(balances, j + 1) > 0.0
    ensures (forall i :: 0 <= i <= j && balances[i] > 0.0 ==>
               Loss(balances, i, j) <= FallFrom(Peak(balances, j + 1), balances[j]))
      <==> balances[j] >= 0.0 || forall i :: 0 <= i <= j && balances[i] > 0.0 ==> balances[i] == Peak(balances, j + 1)
  {
    var top := PeakFacts(balances, j + 1);
    var peak := Peak(balances, j + 1);
    forall i | 0 <= i <= j && balances[i] > 0.0
      ensures Loss(balances, i, j) <= FallFrom(peak, balances[j]) <==> balances[j] >= 0.0 || balances[i] == peak
    {
      if balances[j] >= 0.0 {
        QuotientOrder(balances[j], balances[i], peak);
      } else if balances[i] < peak {
        NegativeRatio(balances[j], balances[i], peak);
        LossByRatio(balances[j], balances[i]);
        LossByRatio(balances[j], peak);
      }
    }
  }

  /** The loss from `i` to `j` is matched by a fall the loop sees: some negative balance is at least as far
      below its running peak. */
  ghost predicate Matched(balances: seq<real>, i: nat, j: nat)
    requires i <= j < |balances| && balances[i] > 0.0
  {
    exists l :: 0 <= l < |balances| && Matches(balances, i, j, l)
  }

  ghost predicate Matches(balances: seq<real>, i: nat, j: nat, l: nat)
    requires i <= j < |balances| && l < |balances| && balances[i] > 0.0
  {
    balances[l] < 0.0 < Peak(balances, l + 1) && balances[j] / balances[i] >= balances[l] / Peak(balances, l + 1)
  }

  lemma {:induction false} RunningCovers(balances: seq<real>, n: nat, l: nat)
    requires l < n <= |balances|
    ensures FallFrom(Peak(balances, l + 1), balances[l]) <= RunningDrawdown(balances, n)
  {
    if l < n - 1 {
      RunningCovers(balances, n - 1, l);
    }
  }

  lemma {:induction false} RunningReached(balances: seq<real>, n: nat) returns (l: nat)
    requires n <= |balances| && RunningDrawdown(balances, n) > 0.0
    ensures l < n && Peak(balances, l + 1) > 0.0
    ensures RunningDrawdown(balances, n) == FallFrom(Peak(balances, l + 1), balances[l])
  {
    if RunningDrawdown(balances, n) == RunningDrawdown(balances, n - 1) {
      l := RunningReached(balances, n - 1);
    } else {
      l := n - 1;
    }
  }

  lemma {:induction false} RunningIsNonnegative(balances: seq<real>, n: nat)
    requires n <= |balances|
    ensures RunningDrawdown(balances, n) >= 0.0
  {
    if n > 0 {
      RunningIsNonnegative(balances, n - 1);
    }
  }

  /** A loss to a balance that is not negative is never more than the loop reports. */
  lemma LossToNonnegative(balances: seq<real>, i: nat, j: nat)
    requires i <= j < |balances| && balances[i] > 0.0 && balances[j] >= 0.0
    ensures Loss(balances, i, j) <= RunningDrawdown(balances, |balances|)
  {
    var top := PeakFacts(balances, j + 1);
    QuotientOrder(balances[j], balances[i], Peak(balances, j + 1));
    RunningCovers(balances, |balances|, j);
  }

  /** A loss to a negative balance is no more than the loop reports exactly when it is matched. */
  lemma LossToNegative(balances: seq<real>, i: nat, j: nat)
    requires i <= j < |balances| && balances[j] < 0.0 < balances[i]
    ensures Loss(balances, i, j) <= RunningDrawdown(balances, |balances|) <==> Matched(balances, i, j)
  {
    var n := |balances|;
    LossByRatio(balances[j], balances[i]);
    RatioSign(balances[j], balances[i]);
    if Loss(balances, i, j) <= RunningDrawdown(balances, n) {
      var l := RunningReached(balances, n);
      FallByRatio(balances, l);
      RatioSign(balances[l], Peak(balances, l + 1));
      assert Matches(balances, i, j, l);
    }
    if Matched(balances, i, j) {
      var l :| 0 <= l < n && Matches(balances, i, j, l);
      RunningCovers(balances, n, l);
      FallByRatio(balances, l);
    }
  }

  /** One pass is exact on exactly these balances: every loss to a negative balance is matched. With no
      negative balance there is nothing to match. */
  lemma OnePassIsExactIff(balances: seq<real>)
    ensures IsMaxDrawdown(balances, RunningDrawdown(balances, |balances|)) <==>
      forall i, j :: 0 <= i <= j < |balances| && balances[j] < 0.0 < balances[i] ==> Matched(balances, i, j)
  {
    var d := RunningDrawdown(balances, |balances|);
    RunningIsNonnegative(balances, |balances|);
    OnePassNeverOverstates(balances, |balances|);
    forall i, j | 0 <= i <= j < |balances| && balances[i] > 0.0
      ensures Loss(balances, i, j) <= d <==> balances[j] >= 0.0 || Matched(balances, i, j)
    {
      if balances[j] >= 0.0 {
        LossToNonnegative(balances, i, j);
      } else {
        LossToNegative(balances, i, j);
      }
    }
  }

  /** With a negative balance it can understate: from 2 to -1 is a loss of 150 percent, but from 1 to -1
      is one of 200. */
  lemma NegativeBalanceUnderstates()
    ensures RunningDrawdown([1.0, 2.0, -1.0], 3) == 150.0
    ensures Loss([1.0, 2.0, -1.0], 0, 2) == 200.0
  {
    var b := [1.0, 2.0, -1.0];
    assert Peak(b, 1) == 1.0 && Peak(b, 2) == 2.0 && Peak(b, 3) == 2.0;
    assert RunningDrawdown(b, 1) == 0.0 && RunningDrawdown(b, 2) == 0.0;
    assert FallFrom(2.0, -1.0) == 150.0;
  }

  /** The reference value is unique, so the loop computes it and nothing else. */
  lemma MaxDrawdownIsUnique(balances: seq<real>, c: real, d: real)
    requires IsMaxDrawdown(balances, c) && IsMaxDrawdown(balances, d)
    ensures c == d
  {
    if c > 0.0 {
      var i, j :| 0 <= i <= j < |balances| && balances[i] > 0.0 && Loss(balances, i, j) == c;
      assert Loss(balances, i, j) <= d;
    }
    if d > 0.0 {
      var i, j :| 0 <= i <= j < |balances| && balances[i] > 0.0 && Loss(balances, i, j) == d;
      assert Loss(balances, i, j) <= c;
    }
  }
}
