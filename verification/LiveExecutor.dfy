/** src/aether_forge/live_execution.py: the order circuit breaker, its caps and its audit log. */
module LiveExecutor {
  datatype Config = Config(
    maxOrderSizeUsd: real, maxDailyLossUsd: real, maxTotalSpentUsd: real, maxOpenOrders: int,
    maxConsecutiveFailures: int, circuitBreakerActive: bool)

  datatype State = State(
    totalSpentUsd: real, dailyLossesUsd: map<string, real>, consecutiveFailures: nat, openOrderCount: nat,
    circuitTripped: bool, transactionCount: nat)

  /** Audit lines, with the notional of the order they are about. */
  datatype Audit =
    | OrderAttempted(notional: real)
    | OrderPlaced(notional: real)
    | OrderFailed(notional: real)
    | CircuitBreakerTripped(failures: nat)
    | CircuitBreakerReset

  /** The executor's state and its append-only log. */
  datatype Desk = Desk(state: State, log: seq<Audit>)

  datatype Outcome = Placed | SendFailed | CircuitOpen | OverOrderCap | OverSessionCap | OverDailyLoss | TooManyOpen

  const OPENED := Desk(State(0.0, map[], 0, 0, false, 0), [])

  // ----- the operations -----

  function DailyLoss(s: State, day: string): real {
    if day in s.dailyLossesUsd then s.dailyLossesUsd[day] else 0.0
  }

  /** `_check_circuit` and `_check_budget`: the exception an order meets, or `Placed` when it meets none. */
  function Check(cfg: Config, s: State, notional: real, day: string): Outcome {
    if s.circuitTripped || cfg.circuitBreakerActive then CircuitOpen
    else if notional > cfg.maxOrderSizeUsd then OverOrderCap
    else if s.totalSpentUsd + notional > cfg.maxTotalSpentUsd then OverSessionCap
    else if DailyLoss(s, day) >= cfg.maxDailyLossUsd then OverDailyLoss
    else if s.openOrderCount >= cfg.maxOpenOrders then TooManyOpen
    else Placed
  }

  /** What an admitted order does; `sent` is whether signing and broadcast succeeded. */
  function Settle(cfg: Config, d: Desk, notional: real, sent: bool): Desk {
    var s, log := d.state, d.log + [OrderAttempted(notional)];
    if sent then
      Desk(s.(consecutiveFailures := 0, totalSpentUsd := s.totalSpentUsd + notional,
              openOrderCount := s.openOrderCount + 1, transactionCount := s.transactionCount + 1),
           log + [OrderPlaced(notional)])
    else
      var failures := s.consecutiveFailures + 1;
      var t := s.(consecutiveFailures := failures);
      if failures >= cfg.maxConsecutiveFailures then
        Desk(t.(circuitTripped := true), log + [OrderFailed(notional), CircuitBreakerTripped(failures)])
      else Desk(t, log + [OrderFailed(notional)])
  }

  /** `place_order`. */
  function Place(cfg: Config, d: Desk, notional: real, day: string, sent: bool): (Desk, Outcome) {
    var verdict := Check(cfg, d.state, notional, day);
    if verdict != Placed then (d, verdict)
    else (Settle(cfg, d, notional, sent), if sent then Placed else SendFailed)
  }

  /** `reset_circuit`. */
  function ResetCircuit(d: Desk): Desk {
    Desk(d.state.(circuitTripped := false, consecutiveFailures := 0), d.log + [CircuitBreakerReset])
  }

  /** `record_loss`. */
  function RecordLoss(d: Desk, amount: real, day: string): Desk {
    if amount <= 0.0 then d
    else Desk(d.state.(dailyLossesUsd := d.state.dailyLossesUsd[day := DailyLoss(d.state, day) + amount]), d.log)
  }

  datatype Op =
    | Order(notional: real, day: string, sent: bool)
    | Reset
    | Lose(amount: real, day: string)

  function Apply(cfg: Config, d: Desk, op: Op): Desk {
    match op
    case Order(notional, day, sent) => Place(cfg, d, notional, day, sent).0
    case Reset => ResetCircuit(d)
    case Lose(amount, day) => RecordLoss(d, amount, day)
  }

  function ApplyAll(cfg: Config, d: Desk, ops: seq<Op>): Desk {
    if ops == [] then d else Apply(cfg, ApplyAll(cfg, d, ops[..|ops| - 1]), ops[|ops| - 1])
  }

  // ----- the audit log as the whole truth -----

  function Total(log: seq<Audit>): real {
    if log == [] then 0.0
    else
      var last := log[|log| - 1];
      Total(log[..|log| - 1]) + if last.OrderPlaced? then last.notional else 0.0
  }

  function Orders(log: seq<Audit>): nat {
    if log == [] then 0 else Orders(log[..|log| - 1]) + if log[|log| - 1].OrderPlaced? then 1 else 0
  }

  /** Failures since the last placed order or reset. */
  function Failures(log: seq<Audit>): nat {
    if log == [] then 0
    else
      match log[|log| - 1]
      case OrderFailed(_) => Failures(log[..|log| - 1]) + 1
      case OrderPlaced(_) | CircuitBreakerReset => 0
      case _ => Failures(log[..|log| - 1])
  }

  predicate Tripped(log: seq<Audit>) {
    log != [] &&
    match log[|log| - 1]
    case CircuitBreakerTripped(_) => true
    case CircuitBreakerReset => false
    case _ => Tripped(log[..|log| - 1])
  }

  /** Every attempt is answered at once by exactly one placement or failure of the same order, nothing is
      placed or failed without an attempt, and the breaker trips only on a failure. */
  ghost predicate Answered(log: seq<Audit>) {
    && (forall i :: 0 <= i < |log| && log[i].OrderAttempted? ==>
          i + 1 < |log| && (log[i + 1] == OrderPlaced(log[i].notional) || log[i + 1] == OrderFailed(log[i].notional)))
    && (forall i :: 0 <= i < |log| && (log[i].OrderPlaced? || log[i].OrderFailed?) ==>
          i > 0 && log[i - 1] == OrderAttempted(log[i].notional))
    && (forall i :: 0 <= i < |log| && log[i].CircuitBreakerTripped? ==> i > 0 && log[i - 1].OrderFailed?)
  }

  /** The state is what the log says, and the caps hold. */
  ghost predicate Sound(cfg: Config, d: Desk) {
    var s := d.state;
    && s.totalSpentUsd == Total(d.log)
    && s.openOrderCount == s.transactionCount == Orders(d.log)
    && s.consecutiveFailures == Failures(d.log)
    && (s.circuitTripped <==> Tripped(d.log))
    && Answered(d.log)
    && (s.openOrderCount > 0 ==> s.totalSpentUsd <= cfg.maxTotalSpentUsd && s.openOrderCount <= cfg.maxOpenOrders)
    && (cfg.maxConsecutiveFailures >= 1 && !s.circuitTripped ==> s.consecutiveFailures < cfg.maxConsecutiveFailures)
  }

  lemma LogStep(log: seq<Audit>, a: Audit)
    ensures Total(log + [a]) == Total(log) + if a.OrderPlaced? then a.notional else 0.0
    ensures Orders(log + [a]) == Orders(log) + if a.OrderPlaced? then 1 else 0
    ensures Failures(log + [a]) ==
      if a.OrderFailed? then Failures(log) + 1
      else if a.OrderPlaced? || a.CircuitBreakerReset? then 0
      else Failures(log)
    ensures Tripped(log + [a]) <==> a.CircuitBreakerTripped? || (!a.CircuitBreakerReset? && Tripped(log))
  {
    assert (log + [a])[..|log|] == log && (log + [a])[|log|] == a;
  }

  lemma AnsweredPair(log: seq<Audit>, notional: real, answer: Audit)
    requires Answered(log) && (answer == OrderPlaced(notional) || answer == OrderFailed(notional))
    ensures Answered(log + [OrderAttempted(notional)] + [answer])
  {
  }

  lemma AnsweredOther(log: seq<Audit>, a: Audit)
    requires Answered(log)
    requires a.CircuitBreakerReset? || (a.CircuitBreakerTripped? && log != [] && log[|log| - 1].OrderFailed?)
    ensures Answered(log + [a])
  {
  }

  lemma PlacedKeepsSound(cfg: Config, d: Desk, notional: real)
    requires Sound(cfg, d) && !d.state.circuitTripped
    requires d.state.totalSpentUsd + notional <= cfg.maxTotalSpentUsd
    requires d.state.openOrderCount < cfg.maxOpenOrders
    ensures Sound(cfg, Settle(cfg, d, notional, true))
  {
    LogStep(d.log, OrderAttempted(notional));
    LogStep(d.log + [OrderAttempted(notional)], OrderPlaced(notional));
    AnsweredPair(d.log, notional, OrderPlaced(notional));
  }

  /** What a failed order makes of the log. */
  lemma FailedLog(log: seq<Audit>, notional: real)
    requires Answered(log) && !Tripped(log)
    ensures var after := log + [OrderAttempted(notional)] + [OrderFailed(notional)];
      && Total(after) == Total(log) && Orders(after) == Orders(log) && Failures(after) == Failures(log) + 1
      && Answered(after) && !Tripped(after)
  {
    LogStep(log, OrderAttempted(notional));
    LogStep(log + [OrderAttempted(notional)], OrderFailed(notional));
    AnsweredPair(log, notional, OrderFailed(notional));
  }

  lemma FailedKeepsSound(cfg: Config, d: Desk, notional: real)
    requires Sound(cfg, d) && !d.state.circuitTripped
    ensures Sound(cfg, Settle(cfg, d, notional, false))
  {
    var after := d.log + [OrderAttempted(notional)] + [OrderFailed(notional)];
    FailedLog(d.log, notional);
    var trip := CircuitBreakerTripped(d.state.consecutiveFailures + 1);
    if trip.failures >= cfg.maxConsecutiveFailures {
      LogStep(after, trip);
      AnsweredOther(after, trip);
      assert Settle(cfg, d, notional, false).log == after + [trip];
    }
  }

  lemma ApplyKeepsSound(cfg: Config, d: Desk, op: Op)
    requires Sound(cfg, d)
    ensures Sound(cfg, Apply(cfg, d, op))
  {
    match op
    case Order(notional, day, sent) =>
      if Check(cfg, d.state, notional, day) == Placed {
        if sent {
          PlacedKeepsSound(cfg, d, notional);
        } else {
          FailedKeepsSound(cfg, d, notional);
        }
      }
    case Reset =>
      LogStep(d.log, CircuitBreakerReset);
      AnsweredOther(d.log, CircuitBreakerReset);
    case Lose(amount, day) =>
  }

  /** Over any sequence of orders, resets and losses: the counters are a fold of the audit log, spending
      stays within the session cap, orders stay within the open-order cap, and a circuit that is not
      tripped has fewer failures than the limit. */
  lemma {:induction false} ExecutorIsSound(cfg: Config, ops: seq<Op>)
    ensures Sound(cfg, ApplyAll(cfg, OPENED, ops))
  {
    if ops != [] {
      ExecutorIsSound(cfg, ops[..|ops| - 1]);
      ApplyKeepsSound(cfg, ApplyAll(cfg, OPENED, ops[..|ops| - 1]), ops[|ops| - 1]);
    }
  }

  /** A tripped circuit admits nothing until it is reset. */
  lemma {:induction false} TrippedAdmitsNothing(cfg: Config, d: Desk, ops: seq<Op>)
    requires d.state.circuitTripped && forall i :: 0 <= i < |ops| ==> !ops[i].Reset?
    ensures var e := ApplyAll(cfg, d, ops);
      e.log == d.log && e.state.totalSpentUsd == d.state.totalSpentUsd && e.state.circuitTripped
  {
    if ops != [] {
      TrippedAdmitsNothing(cfg, d, ops[..|ops| - 1]);
    }
  }

  /** The open-order count is never lowered, so the cap on concurrent orders is a cap on the executor's
      whole life: once it is reached, no order is placed again, whatever is reset. */
  lemma {:induction false} OpenOrderCapIsForLife(cfg: Config, d: Desk, ops: seq<Op>)
    requires d.state.openOrderCount >= cfg.maxOpenOrders
    ensures var e := ApplyAll(cfg, d, ops);
      e.state.openOrderCount == d.state.openOrderCount && e.state.totalSpentUsd == d.state.totalSpentUsd
  {
    if ops != [] {
      OpenOrderCapIsForLife(cfg, d, ops[..|ops| - 1]);
    }
  }

  /** After the operations, an order is placed when it is sent. */
  ghost predicate PlacedAfter(cfg: Config, d: Desk, ops: seq<Op>, notional: real, day: string) {
    Place(cfg, ApplyAll(cfg, d, ops), notional, day, true).1 == Placed
  }

  ghost predicate DayHasRoom(cfg: Config, d: Desk, day: string) {
    DailyLoss(d.state, day) < cfg.maxDailyLossUsd
  }

  /** Nothing lowers the open-order count or a day's loss. */
  lemma {:induction false} NothingIsLowered(cfg: Config, d: Desk, ops: seq<Op>, day: string)
    ensures var e := ApplyAll(cfg, d, ops);
      e.state.openOrderCount >= d.state.openOrderCount && DailyLoss(e.state, day) >= DailyLoss(d.state, day)
  {
    if ops != [] {
      NothingIsLowered(cfg, d, ops[..|ops| - 1], day);
    }
  }

  /** Exactly when the executor can ever place an order again, whatever is reset in between: when the open-order
      cap is not reached, the breaker is not held open by configuration, and some day has room for losses. */
  lemma PlacesAgainIff(cfg: Config, d: Desk)
    ensures (exists ops, notional, day :: PlacedAfter(cfg, d, ops, notional, day)) <==>
      && d.state.openOrderCount < cfg.maxOpenOrders && !cfg.circuitBreakerActive
      && exists day :: DayHasRoom(cfg, d, day)
  {
    if ops, notional, day :| PlacedAfter(cfg, d, ops, notional, day) {
      NothingIsLowered(cfg, d, ops, day);
      assert DayHasRoom(cfg, d, day);
    }
    if day :| d.state.openOrderCount < cfg.maxOpenOrders && !cfg.circuitBreakerActive && DayHasRoom(cfg, d, day) {
      PlacesAfterReset(cfg, d, day);
    }
  }

  /** After a reset, the largest order that fits is placed. */
  lemma PlacesAfterReset(cfg: Config, d: Desk, day: string)
    requires d.state.openOrderCount < cfg.maxOpenOrders && !cfg.circuitBreakerActive && DayHasRoom(cfg, d, day)
    ensures var room := cfg.maxTotalSpentUsd - d.state.totalSpentUsd;
      PlacedAfter(cfg, d, [Reset], if room < cfg.maxOrderSizeUsd then room else cfg.maxOrderSizeUsd, day)
  {
    assert [Reset][..0] == [];
    assert ApplyAll(cfg, d, [Reset]) == ResetCircuit(d);
  }

  /** `n` orders of one dollar that are all sent. */
  function Dollars(n: nat): seq<Op> {
    seq(n, _ => Order(1.0, "2026-01-01", true))
  }

  lemma {:induction false} DollarsArePlaced(cfg: Config, n: nat)
    requires n <= cfg.maxOpenOrders && n as real <= cfg.maxTotalSpentUsd && 1.0 <= cfg.maxOrderSizeUsd
    requires cfg.maxDailyLossUsd > 0.0 && !cfg.circuitBreakerActive
    ensures var d := ApplyAll(cfg, OPENED, Dollars(n));
      && d.state == State(n as real, map[], 0, n, false, n) && Orders(d.log) == n
  {
    ExecutorIsSound(cfg, Dollars(n));
    if n > 0 {
      DollarsArePlaced(cfg, n - 1);
      assert Dollars(n)[..n - 1] == Dollars(n - 1);
    }
  }

  /** Under the defaults of `LiveExecutionConfig` two placed orders end the executor's life: no order is placed after
      them, whatever is reset in between, although eighteen of twenty dollars are left. */
  lemma DefaultCapIsReached(later: seq<Op>, notional: real, day: string, sent: bool)
    ensures var cfg := Config(1.0, 10.0, 20.0, 2, 3, false);
      var d := ApplyAll(cfg, OPENED, Dollars(2));
      && d.state.totalSpentUsd == 2.0 && d.state.openOrderCount == 2
      && Place(cfg, ApplyAll(cfg, d, later), notional, day, sent).1 != Placed
  {
    var cfg := Config(1.0, 10.0, 20.0, 2, 3, false);
    DollarsArePlaced(cfg, 2);
    OpenOrderCapIsForLife(cfg, ApplyAll(cfg, OPENED, Dollars(2)), later);
  }

  // ----- each outcome, written out -----

  /** No rail stops the order. */
  ghost predicate WithinRails(cfg: Config, s: State, notional: real, day: string) {
    && !s.circuitTripped && !cfg.circuitBreakerActive
    && notional <= cfg.maxOrderSizeUsd && s.totalSpentUsd + notional <= cfg.maxTotalSpentUsd
    && (if day in s.dailyLossesUsd then s.dailyLossesUsd[day] else 0.0) < cfg.maxDailyLossUsd
    && s.openOrderCount < cfg.maxOpenOrders
  }

  /** An order is attempted exactly within the rails; a stopped one changes nothing, and says which rail stopped it
      first. */
  lemma OrderOutcome(cfg: Config, d: Desk, notional: real, day: string, sent: bool)
    ensures var (e, outcome) := Place(cfg, d, notional, day, sent); var s := d.state;
      var stopped := s.circuitTripped || cfg.circuitBreakerActive;
      var large := notional > cfg.maxOrderSizeUsd;
      var over := s.totalSpentUsd + notional > cfg.maxTotalSpentUsd;
      var lossy := (if day in s.dailyLossesUsd then s.dailyLossesUsd[day] else 0.0) >= cfg.maxDailyLossUsd;
      && (outcome == Placed <==> sent && WithinRails(cfg, s, notional, day))
      && (outcome == SendFailed <==> !sent && WithinRails(cfg, s, notional, day))
      && (outcome == CircuitOpen <==> stopped)
      && (outcome == OverOrderCap <==> !stopped && large)
      && (outcome == OverSessionCap <==> !stopped && !large && over)
      && (outcome == OverDailyLoss <==> !stopped && !large && !over && lossy)
      && (!WithinRails(cfg, s, notional, day) ==> e == d)
  {
  }

  /** What a placed order, and a failed one, leave behind. */
  lemma OrderEffect(cfg: Config, d: Desk, notional: real, day: string, sent: bool)
    requires WithinRails(cfg, d.state, notional, day)
    ensures var e := Place(cfg, d, notional, day, sent).0; var s, t := d.state, e.state;
      && t.dailyLossesUsd == s.dailyLossesUsd
      && (sent ==>
            && e.log == d.log + [OrderAttempted(notional), OrderPlaced(notional)]
            && t.totalSpentUsd == s.totalSpentUsd + notional && t.openOrderCount == s.openOrderCount + 1
            && t.transactionCount == s.transactionCount + 1 && t.consecutiveFailures == 0 && !t.circuitTripped)
      && (!sent ==>
            && t.totalSpentUsd == s.totalSpentUsd && t.openOrderCount == s.openOrderCount
            && t.consecutiveFailures == s.consecutiveFailures + 1
            && (t.circuitTripped <==> s.consecutiveFailures + 1 >= cfg.maxConsecutiveFailures))
  {
  }

  /** The losses of a day are the positive ones reported for it. */
  function LossOn(ops: seq<Op>, day: string): real {
    if ops == [] then 0.0
    else
      var last := ops[|ops| - 1];
      LossOn(ops[..|ops| - 1], day) + if last.Lose? && last.day == day && last.amount > 0.0 then last.amount else 0.0
  }

  lemma {:induction false} DailyLossIsReported(cfg: Config, ops: seq<Op>, day: string)
    ensures DailyLoss(ApplyAll(cfg, OPENED, ops).state, day) == LossOn(ops, day)
  {
    if ops != [] {
      DailyLossIsReported(cfg, ops[..|ops| - 1], day);
    }
  }

  /** A loss that is not positive is not recorded. */
  lemma OnlyLossesAreRecorded(d: Desk, amount: real, day: string)
    ensures amount <= 0.0 ==> RecordLoss(d, amount, day) == d
    ensures amount > 0.0 ==>
      var e := RecordLoss(d, amount, day);
      && e.log == d.log && e.state.(dailyLossesUsd := d.state.dailyLossesUsd) == d.state
      && DailyLoss(e.state, day) == DailyLoss(d.state, day) + amount
      && forall other :: other != day ==> DailyLoss(e.state, other) == DailyLoss(d.state, other)
  {
  }

  /** A reset clears the trip and the failures, and nothing else. */
  lemma ResetEffect(d: Desk)
    ensures ResetCircuit(d).log == d.log + [CircuitBreakerReset]
    ensures !ResetCircuit(d).state.circuitTripped && ResetCircuit(d).state.consecutiveFailures == 0
    ensures ResetCircuit(d).state.(circuitTripped := d.state.circuitTripped,
                                   consecutiveFailures := d.state.consecutiveFailures) == d.state
  {
  }

  // ----- the executor object -----

  class LiveExecutor {
    const cfg: Config
    var state: State
    var log: seq<Audit>

    function Value(): Desk
      reads this
    {
      Desk(state, log)
    }

    constructor (cfg: Config)
      ensures this.cfg == cfg && Value() == OPENED
    {
      this.cfg := cfg;
      state := OPENED.state;
      log := [];
    }

    method CheckBudget(notional: real, day: string) returns (verdict: Outcome)
      requires !state.circuitTripped && !cfg.circuitBreakerActive
      ensures verdict == Check(cfg, state, notional, day)
    {
      if notional > cfg.maxOrderSizeUsd {
        return OverOrderCap;
      }
      if state.totalSpentUsd + notional > cfg.maxTotalSpentUsd {
        return OverSessionCap;
      }
      if DailyLoss(state, day) >= cfg.maxDailyLossUsd {
        return OverDailyLoss;
      }
      if state.openOrderCount >= cfg.maxOpenOrders {
        return TooManyOpen;
      }
      return Placed;
    }

    /** `place_order`; `sent` is what signing and broadcasting come to. */
    method PlaceOrder(amount: real, limitPrice: real, day: string, sent: bool) returns (outcome: Outcome)
      modifies this
      ensures (Value(), outcome) == Place(cfg, old(Value()), amount * limitPrice, day, sent)
    {
      var notional := amount * limitPrice;
      if state.circuitTripped || cfg.circuitBreakerActive {
        return CircuitOpen;
      }
      var verdict := CheckBudget(notional, day);
      if verdict != Placed {
        return verdict;
      }
      log := log + [OrderAttempted(notional)];
      if sent {
        log := log + [OrderPlaced(notional)];
        state := state.(consecutiveFailures := 0);
        state := state.(totalSpentUsd := state.totalSpentUsd + notional);
        state := state.(openOrderCount := state.openOrderCount + 1);
        state := state.(transactionCount := state.transactionCount + 1);
        return Placed;
      }
      state := state.(consecutiveFailures := state.consecutiveFailures + 1);
      ghost var attempted := old(log) + [OrderAttempted(notional)];
      log := log + [OrderFailed(notional)];
      if state.consecutiveFailures >= cfg.maxConsecutiveFailures {
        state := state.(circuitTripped := true);
        log := log + [CircuitBreakerTripped(state.consecutiveFailures)];
        assert log == attempted + [OrderFailed(notional), CircuitBreakerTripped(state.consecutiveFailures)];
      }
      return SendFailed;
    }

    /** `record_loss` of the executor's state. */
    method RecordDailyLoss(amount: real, day: string)
      modifies this
      ensures Value() == RecordLoss(old(Value()), amount, day)
    {
      if amount <= 0.0 {
        return;
      }
      var before := if day in state.dailyLossesUsd then state.dailyLossesUsd[day] else 0.0;
      state := state.(dailyLossesUsd := state.dailyLossesUsd[day := before + amount]);
    }

    method ResetCircuitBreaker()
      modifies this
      ensures Value() == ResetCircuit(old(Value()))
    {
      state := state.(circuitTripped := false, consecutiveFailures := 0);
      log := log + [CircuitBreakerReset];
    }
  }
}
