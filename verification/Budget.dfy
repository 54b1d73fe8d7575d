/** `BudgetControl` of src/aether_forge/security.py: a spend cap with a velocity circuit breaker that keeps
    only the recent spends. */
module Budget {
  const TAIL: nat := 3
  const GRACE: nat := 5

  datatype Spend = Spend(at: int, amount: real)

  datatype Limits = Limits(budgetLimitUsd: real, windowSeconds: int, velocityThreshold: real)

  /** The counters and the recent spends. */
  datatype Books = Books(spent: real, count: nat, recent: seq<Spend>)

  datatype Control = Control(books: Books, tripped: bool)

  const OPENED := Control(Books(0.0, 0, []), false)

  function Since(spends: seq<Spend>, cutoff: int): seq<Spend> {
    if spends == [] then []
    else (if spends[0].at >= cutoff then [spends[0]] else []) + Since(spends[1..], cutoff)
  }

  function Sum(spends: seq<Spend>): real {
    if spends == [] then 0.0 else Sum(spends[..|spends| - 1]) + spends[|spends| - 1].amount
  }

  /** `can_spend`. */
  predicate CanSpend(l: Limits, c: Control, amount: real) {
    !c.tripped && amount >= 0.0 && c.books.spent + amount <= l.budgetLimitUsd
  }

  /** The velocity test of `_check_velocity`. */
  predicate TooFast(l: Limits, b: Books) {
    && |b.recent| >= TAIL && b.count > GRACE
    && var tailAverage := Sum(b.recent[|b.recent| - TAIL..]) / TAIL as real;
    var overallAverage := b.spent / b.count as real;
    overallAverage > 0.0 && tailAverage > overallAverage * l.velocityThreshold
  }

  /** The books after a spend; the clock is read once for the stamp and once for the cutoff. */
  function Enter(b: Books, amount: real, now: int, cutoff: int): Books {
    Books(b.spent + amount, b.count + 1, Since(b.recent + [Spend(now, amount)], cutoff))
  }

  /** `record_spend`. */
  function Record(l: Limits, c: Control, amount: real, now: int, later: int): Control {
    var books := Enter(c.books, amount, now, later - l.windowSeconds);
    Control(books, c.tripped || TooFast(l, books))
  }

  function Reset(c: Control): Control {
    c.(tripped := false)
  }

  datatype Op =
    | Spending(amount: real, now: int, later: int)
    | ResetBreaker

  function Apply(l: Limits, c: Control, op: Op): Control {
    match op
    case Spending(amount, now, later) => Record(l, c, amount, now, later)
    case ResetBreaker => Reset(c)
  }

  function ApplyAll(l: Limits, ops: seq<Op>): Control {
    if ops == [] then OPENED else Apply(l, ApplyAll(l, ops[..|ops| - 1]), ops[|ops| - 1])
  }

  // ----- the full log -----

  function FullLog(ops: seq<Op>): seq<Spend> {
    if ops == [] then []
    else
      FullLog(ops[..|ops| - 1]) +
      match ops[|ops| - 1]
      case Spending(amount, now, _) => [Spend(now, amount)]
      case ResetBreaker => []
  }

  /** The reading of the clock that decides the last cutoff. */
  function LastReading(ops: seq<Op>): int {
    if ops == [] then 0
    else match ops[|ops| - 1]
      case Spending(_, _, later) => later
      case ResetBreaker => LastReading(ops[..|ops| - 1])
  }

  /** Cutoff readings do not go back. */
  ghost predicate Clocked(ops: seq<Op>) {
    forall i, j :: 0 <= i < j < |ops| && ops[i].Spending? && ops[j].Spending? ==> ops[i].later <= ops[j].later
  }

  lemma SinceFirst(s: Spend, rest: seq<Spend>, cutoff: int)
    ensures Since([s] + rest, cutoff) == (if s.at >= cutoff then [s] else []) + Since(rest, cutoff)
  {
    assert ([s] + rest)[1..] == rest;
  }

  lemma {:induction false} SinceConcat(a: seq<Spend>, b: seq<Spend>, cutoff: int)
    ensures Since(a + b, cutoff) == Since(a, cutoff) + Since(b, cutoff)
  {
    if a == [] {
      assert a + b == b;
    } else {
      SinceConcat(a[1..], b, cutoff);
      SinceFirst(a[0], a[1..] + b, cutoff);
      SinceFirst(a[0], a[1..], cutoff);
      assert a == [a[0]] + a[1..] && a + b == [a[0]] + (a[1..] + b);
    }
  }

  lemma {:induction false} SinceTwice(a: seq<Spend>, early: int, late: int)
    requires early <= late
    ensures Since(Since(a, early), late) == Since(a, late)
  {
    if a != [] {
      SinceTwice(a[1..], early, late);
      var rest := Since(a[1..], early);
      if a[0].at >= early {
        assert Since(a, early) == [a[0]] + rest;
        assert ([a[0]] + rest)[1..] == rest;
      } else {
        assert Since(a, early) == rest;
        assert Since(a, late) == Since(a[1..], late);
      }
    }
  }

  lemma {:induction false} ReadingBound(ops: seq<Op>, later: int)
    requires forall i :: 0 <= i < |ops| && ops[i].Spending? ==> ops[i].later <= later
    ensures LastReading(ops) <= later || FullLog(ops) == []
  {
    if ops != [] {
      ReadingBound(ops[..|ops| - 1], later);
    }
  }

  lemma SumStep(log: seq<Spend>, s: Spend)
    ensures Sum(log + [s]) == Sum(log) + s.amount
  {
    assert (log + [s])[..|log|] == log;
  }

  /** Pruning twice, with a spend in between, is pruning the whole log once. */
  lemma PruneStep(log: seq<Spend>, s: Spend, early: int, late: int)
    requires early <= late || log == []
    ensures Since(Since(log, early) + [s], late) == Since(log + [s], late)
  {
    if log != [] {
      SinceTwice(log, early, late);
    }
    SinceConcat(Since(log, early), [s], late);
    SinceConcat(log, [s], late);
  }

  /** The books of a control that never forgot: the whole log, seen through the window. */
  function FullBooks(log: seq<Spend>, cutoff: int): Books {
    Books(Sum(log), |log|, Since(log, cutoff))
  }

  lemma EnterKeepsWindow(log: seq<Spend>, early: int, amount: real, now: int, late: int)
    requires early <= late || log == []
    ensures Enter(FullBooks(log, early), amount, now, late) == FullBooks(log + [Spend(now, amount)], late)
  {
    PruneStep(log, Spend(now, amount), early, late);
    SumStep(log, Spend(now, amount));
  }

  lemma RecordBooks(l: Limits, c: Control, amount: real, now: int, later: int)
    ensures Apply(l, c, Spending(amount, now, later)).books == Enter(c.books, amount, now, later - l.windowSeconds)
    ensures Apply(l, c, ResetBreaker).books == c.books
  {
  }

  lemma LastApplied(l: Limits, ops: seq<Op>, op: Op)
    ensures ApplyAll(l, ops + [op]) == Apply(l, ApplyAll(l, ops), op)
  {
    assert (ops + [op])[..|ops|] == ops;
  }

  /** The books alone: what they become does not depend on the breaker. */
  function BooksAfter(window: int, ops: seq<Op>): Books {
    if ops == [] then OPENED.books
    else
      var before := BooksAfter(window, ops[..|ops| - 1]);
      match ops[|ops| - 1]
      case Spending(amount, now, later) => Enter(before, amount, now, later - window)
      case ResetBreaker => before
  }

  lemma {:induction false} BooksOfControl(l: Limits, ops: seq<Op>)
    ensures ApplyAll(l, ops).books == BooksAfter(l.windowSeconds, ops)
  {
    if ops != [] {
      var front, op := ops[..|ops| - 1], ops[|ops| - 1];
      BooksOfControl(l, front);
      match op
      case Spending(amount, now, later) => RecordBooks(l, ApplyAll(l, front), amount, now, later);
      case ResetBreaker => RecordBooks(l, ApplyAll(l, front), 0.0, 0, 0);
    }
  }

  lemma LogGrows(ops: seq<Op>, op: Op)
    ensures LastReading(ops + [op]) == if op.Spending? then op.later else LastReading(ops)
    ensures FullLog(ops + [op]) == FullLog(ops) + if op.Spending? then [Spend(op.now, op.amount)] else []
  {
    assert (ops + [op])[..|ops|] == ops;
  }

  lemma BooksGrow(window: int, ops: seq<Op>, op: Op)
    ensures BooksAfter(window, ops + [op]) ==
      if op.Spending? then Enter(BooksAfter(window, ops), op.amount, op.now, op.later - window) else BooksAfter(window, ops)
  {
    assert (ops + [op])[..|ops|] == ops;
  }

  /** One operation on books that are the window of their log; primed names are what it leads to. */
  lemma WindowStep(window: int, op: Op, books: Books, log: seq<Spend>, reading: int,
                   books': Books, log': seq<Spend>, reading': int)
    requires books == FullBooks(log, reading - window)
    requires op.Spending? ==>
      && (reading <= op.later || log == [])
      && books' == Enter(books, op.amount, op.now, op.later - window)
      && log' == log + [Spend(op.now, op.amount)] && reading' == op.later
    requires op.ResetBreaker? ==> books' == books && log' == log && reading' == reading
    ensures books' == FullBooks(log', reading' - window)
  {
    if op.Spending? {
      EnterKeepsWindow(log, reading - window, op.amount, op.now, op.later - window);
    }
  }

  lemma {:induction false} BooksAreWindow(window: int, ops: seq<Op>)
    requires Clocked(ops)
    ensures BooksAfter(window, ops) == FullBooks(FullLog(ops), LastReading(ops) - window)
  {
    if ops != [] {
      var front, op := ops[..|ops| - 1], ops[|ops| - 1];
      assert ops == front + [op];
      BooksAreWindow(window, front);
      if op.Spending? {
        ReadingBound(front, op.later);
      }
      BooksGrow(window, front, op);
      LogGrows(front, op);
      assert FullLog(front) + [] == FullLog(front);
      WindowStep(window, op, BooksAfter(window, front), FullLog(front), LastReading(front),
                 BooksAfter(window, ops), FullLog(ops), LastReading(ops));
    }
  }

  /** The pruned list is exactly the window of the full log, and the counters are those of the whole log. */
  lemma RecentIsWindow(l: Limits, ops: seq<Op>)
    requires Clocked(ops)
    ensures ApplyAll(l, ops).books == FullBooks(FullLog(ops), LastReading(ops) - l.windowSeconds)
  {
    BooksOfControl(l, ops);
    BooksAreWindow(l.windowSeconds, ops);
  }

  lemma RecordTrips(l: Limits, c: Control, amount: real, now: int, later: int)
    requires !c.tripped
    ensures var d := Apply(l, c, Spending(amount, now, later)); d.tripped <==> TooFast(l, d.books)
  {
  }

  /** Exactness: a recorded spend trips the breaker exactly when the velocity test on the whole spend log
      does, although the control has forgotten everything outside its window. */
  lemma TripsAsFullLog(l: Limits, ops: seq<Op>, amount: real, now: int, later: int)
    requires Clocked(ops + [Spending(amount, now, later)]) && !ApplyAll(l, ops).tripped
    ensures var longer := ops + [Spending(amount, now, later)];
      ApplyAll(l, longer).tripped <==> TooFast(l, FullBooks(FullLog(longer), later - l.windowSeconds))
  {
    LastApplied(l, ops, Spending(amount, now, later));
    LogGrows(ops, Spending(amount, now, later));
    RecentIsWindow(l, ops + [Spending(amount, now, later)]);
    RecordTrips(l, ApplyAll(l, ops), amount, now, later);
  }

  /** Every spend was allowed by `can_spend` just before it was recorded. */
  ghost predicate Disciplined(l: Limits, ops: seq<Op>) {
    forall i :: 0 <= i < |ops| && ops[i].Spending? ==> CanSpend(l, ApplyAll(l, ops[..i]), ops[i].amount)
  }

  /** A caller that always asks first never exceeds the budget, whatever the breaker does. */
  lemma {:induction false} BudgetNeverExceeded(l: Limits, ops: seq<Op>)
    requires Disciplined(l, ops)
    ensures 0.0 <= ApplyAll(l, ops).books.spent
    ensures ApplyAll(l, ops).books.count > 0 ==> ApplyAll(l, ops).books.spent <= l.budgetLimitUsd
  {
    if ops != [] {
      var n := |ops| - 1;
      assert forall i :: 0 <= i < n ==> ops[..n][..i] == ops[..i];
      BudgetNeverExceeded(l, ops[..n]);
      assert ops[..n] + [ops[n]] == ops;
      LastApplied(l, ops[..n], ops[n]);
      if ops[n].Spending? {
        RecordBooks(l, ApplyAll(l, ops[..n]), ops[n].amount, ops[n].now, ops[n].later);
      }
    }
  }

  // ----- the velocity test and the breaker, written out -----

  /** The last three spends of the window average more than the threshold times the average of all spends, of which
      there are more than five and whose average is positive. */
  ghost predicate Velocity(l: Limits, log: seq<Spend>, cutoff: int) {
    var recent := Since(log, cutoff);
    var n := |recent|;
    && n >= 3 && |log| > 5
    && var average := Sum(log) / |log| as real;
    average > 0.0 && (recent[n - 3].amount + recent[n - 2].amount + recent[n - 1].amount) / 3.0 > average * l.velocityThreshold
  }

  lemma SumOfThree(a: Spend, b: Spend, c: Spend)
    ensures Sum([a, b, c]) == a.amount + b.amount + c.amount
  {
    SumStep([], a);
    SumStep([a], b);
    SumStep([a, b], c);
    assert [] + [a] == [a] && [a] + [b] == [a, b] && [a, b] + [c] == [a, b, c];
  }

  lemma TooFastIff(l: Limits, log: seq<Spend>, cutoff: int)
    ensures TooFast(l, FullBooks(log, cutoff)) <==> Velocity(l, log, cutoff)
  {
    var recent := Since(log, cutoff);
    var n := |recent|;
    if n >= 3 {
      assert recent[n - TAIL..] == [recent[n - 3], recent[n - 2], recent[n - 1]];
      SumOfThree(recent[n - 3], recent[n - 2], recent[n - 1]);
    }
  }

  /** Which operations are spends that are too fast. */
  ghost function Fasts(l: Limits, ops: seq<Op>): (r: seq<bool>)
    ensures |r| == |ops|
  {
    seq(|ops|, k requires 0 <= k < |ops| =>
      ops[k].Spending? && Velocity(l, FullLog(ops[..k + 1]), ops[k].later - l.windowSeconds))
  }

  /** Operation `k` is too fast, and the breaker is not reset after it. */
  ghost predicate TripsFrom(fasts: seq<bool>, ops: seq<Op>, k: nat)
    requires k < |ops| == |fasts|
  {
    fasts[k] && forall j :: k < j < |ops| ==> !ops[j].ResetBreaker?
  }

  ghost predicate Trips(fasts: seq<bool>, ops: seq<Op>)
    requires |ops| == |fasts|
  {
    exists k :: 0 <= k < |ops| && TripsFrom(fasts, ops, k)
  }

  ghost predicate StillTripped(l: Limits, ops: seq<Op>) {
    Trips(Fasts(l, ops), ops)
  }

  lemma FastsGrow(l: Limits, front: seq<Op>, op: Op)
    ensures Fasts(l, front + [op]) == Fasts(l, front) +
      [op.Spending? && Velocity(l, FullLog(front + [op]), op.later - l.windowSeconds)]
  {
    var ops, n := front + [op], |front|;
    assert ops[..n + 1] == ops && ops[n] == op;
    forall k | 0 <= k < n ensures Fasts(l, ops)[k] == Fasts(l, front)[k] {
      assert ops[..k + 1] == front[..k + 1] && ops[k] == front[k];
    }
  }

  lemma TripsGrow(fasts: seq<bool>, front: seq<Op>, op: Op, fast: bool)
    requires |fasts| == |front| && (fast ==> op.Spending?)
    ensures Trips(fasts + [fast], front + [op]) <==> op.Spending? && (Trips(fasts, front) || fast)
  {
    var all_, ops, n := fasts + [fast], front + [op], |front|;
    assert ops[n] == op && all_[n] == fast;
    forall k | 0 <= k < n ensures TripsFrom(all_, ops, k) <==> TripsFrom(fasts, front, k) && op.Spending? {
      assert forall j :: 0 <= j < n ==> ops[j] == front[j] && all_[j] == fasts[j];
    }
    if Trips(fasts, front) && op.Spending? {
      var k :| 0 <= k < n && TripsFrom(fasts, front, k);
      assert TripsFrom(all_, ops, k);
    }
    if fast {
      assert TripsFrom(all_, ops, n);
    }
  }

  lemma TripStep(l: Limits, front: seq<Op>, op: Op)
    requires Clocked(front + [op])
    ensures ApplyAll(l, front + [op]).tripped <==>
      op.Spending? && (ApplyAll(l, front).tripped || Velocity(l, FullLog(front + [op]), op.later - l.windowSeconds))
  {
    LastApplied(l, front, op);
    if op.Spending? && !ApplyAll(l, front).tripped {
      TripsAsFullLog(l, front, op.amount, op.now, op.later);
      TooFastIff(l, FullLog(front + [op]), op.later - l.windowSeconds);
    }
  }

  lemma StillTrippedStep(l: Limits, front: seq<Op>, op: Op)
    ensures StillTripped(l, front + [op]) <==>
      op.Spending? && (StillTripped(l, front) || Velocity(l, FullLog(front + [op]), op.later - l.windowSeconds))
  {
    FastsGrow(l, front, op);
    TripsGrow(Fasts(l, front), front, op, op.Spending? && Velocity(l, FullLog(front + [op]), op.later - l.windowSeconds));
  }

  /** Over every run the breaker is tripped exactly when some recorded spend was too fast and none of the later
      operations reset it. */
  lemma {:induction false} TrippedIff(l: Limits, ops: seq<Op>)
    requires Clocked(ops)
    ensures ApplyAll(l, ops).tripped <==> StillTripped(l, ops)
  {
    if ops != [] {
      var front, op := ops[..|ops| - 1], ops[|ops| - 1];
      assert ops == front + [op];
      TrippedIff(l, front);
      TripStep(l, front, op);
      StillTrippedStep(l, front, op);
    }
  }

  /** A spend is allowed, after any run, exactly when it is not negative, fits the limit together with everything
      spent, and the breaker has not been tripped since its last reset. */
  lemma SpendAllowedIff(l: Limits, ops: seq<Op>, amount: real)
    requires Clocked(ops)
    ensures CanSpend(l, ApplyAll(l, ops), amount) <==>
      0.0 <= amount && Sum(FullLog(ops)) + amount <= l.budgetLimitUsd && !StillTripped(l, ops)
  {
    TrippedIff(l, ops);
    RecentIsWindow(l, ops);
  }

  // ----- the control object -----

  class BudgetControl {
    const limits: Limits
    var spentUsd: real
    var transactionCount: nat
    var circuitBreakerTriggered: bool
    var recentSpends: seq<Spend>

    function State(): Control
      reads this
    {
      Control(Books(spentUsd, transactionCount, recentSpends), circuitBreakerTriggered)
    }

    constructor (limits: Limits)
      ensures this.limits == limits && State() == OPENED
    {
      this.limits := limits;
      spentUsd, transactionCount, circuitBreakerTriggered, recentSpends := 0.0, 0, false, [];
    }

    method RecordSpend(amount: real, now: int, later: int)
      modifies this
      ensures State() == Record(limits, old(State()), amount, now, later)
    {
      spentUsd := spentUsd + amount;
      transactionCount := transactionCount + 1;
      recentSpends := recentSpends + [Spend(now, amount)];
      CheckVelocity(later);
    }

    method CheckVelocity(later: int)
      requires transactionCount > 0
      modifies this`recentSpends, this`circuitBreakerTriggered
      ensures recentSpends == Since(old(recentSpends), later - limits.windowSeconds)
      ensures circuitBreakerTriggered ==
        (old(circuitBreakerTriggered) || TooFast(limits, State().books))
    {
      var cutoff := later - limits.windowSeconds;
      recentSpends := Since(recentSpends, cutoff);
      if |recentSpends| < TAIL {
        return;
      }
      if transactionCount <= GRACE {
        return;
      }
      var tail := recentSpends[|recentSpends| - TAIL..];
      var tailAverage := Sum(tail) / TAIL as real;
      var overallAverage := spentUsd / transactionCount as real;
      if overallAverage > 0.0 && tailAverage > overallAverage * limits.velocityThreshold {
        circuitBreakerTriggered := true;
      }
    }
  }
}
