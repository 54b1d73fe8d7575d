/** The transfer channel of src/aether_forge/agent_payments.py under concurrency: any number of callers,
    one lock, and a shared state file and audit log. */
module Payments {
  import opened Results
  import opened Values

  datatype Payment = Payment(amountUsd: real, payTo: string, chain: string)

  /** The `agentPayments` block of the policy bundle. */
  datatype TransferPolicy = TransferPolicy(
    enabled: bool, maxPerTransferUsd: real, allowedChains: set<string>, allowedRecipients: set<string>)

  /** `x402_state.json`: absent, unreadable, or with its three counters. */
  datatype StateFile = Absent | Unreadable | Saved(sessionSpent: real, daily: map<string, real>, totalPayments: int)

  datatype AuditLine =
    | Settled(amount: real, payTo: string, day: string)
    | Denied(amount: real, payTo: string)
    | Failed(amount: real, payTo: string)

  datatype Result = OverBudget | NoRecipient | PolicyDenied | SendFailed | Paid

  const MAX_PER_CALL_USD: real := 0.10
  const MAX_SESSION_USD: real := 1.0

  // ----- one payment, alone -----

  function Spent(f: StateFile): real {
    if f.Saved? then f.sessionSpent else 0.0
  }

  function SpentOn(f: StateFile, day: string): real {
    if f.Saved? && day in f.daily then f.daily[day] else 0.0
  }

  function PaymentCount(f: StateFile): int {
    if f.Saved? then f.totalPayments else 0
  }

  /** `check_budget` with its default caps. */
  predicate WithinBudget(f: StateFile, amount: real) {
    amount <= MAX_PER_CALL_USD && Spent(f) + amount <= MAX_SESSION_USD
  }

  /** `_check_transfer_policy`; a missing bundle denies. */
  predicate Permits(policy: Option<TransferPolicy>, p: Payment) {
    && policy.Some? && policy.value.enabled
    && policy.value.maxPerTransferUsd > 0.0 && p.amountUsd <= policy.value.maxPerTransferUsd
    && (policy.value.allowedChains != {} ==> p.chain in policy.value.allowedChains)
    && (policy.value.allowedRecipients != {} ==>
          exists r :: r in policy.value.allowedRecipients && Lower(r) == Lower(p.payTo))
  }

  /** `_record_spend`. */
  function RecordSpend(f: StateFile, amount: real, day: string): StateFile {
    Saved(Spent(f) + amount,
          (if f.Saved? then f.daily else map[])[day := SpentOn(f, day) + amount],
          PaymentCount(f) + 1)
  }

  /** What all callers share besides the lock. */
  datatype Books = Books(file: StateFile, audit: seq<AuditLine>)

  /** `_execute_payment_locked` as one atomic act; `sent` is whether signing and broadcast succeeded. */
  function Pay(policy: Option<TransferPolicy>, b: Books, p: Payment, sent: bool, day: string): (Books, Result) {
    if !WithinBudget(b.file, p.amountUsd) then (b, OverBudget)
    else if p.payTo == "" then (b, NoRecipient)
    else if !Permits(policy, p) then (b.(audit := b.audit + [Denied(p.amountUsd, p.payTo)]), PolicyDenied)
    else if !sent then (b.(audit := b.audit + [Failed(p.amountUsd, p.payTo)]), SendFailed)
    else (Books(RecordSpend(b.file, p.amountUsd, day), b.audit + [Settled(p.amountUsd, p.payTo, day)]), Paid)
  }

  // ----- the protocol, one shared access at a time -----

  /** Where a caller stands in `execute_payment`. */
  datatype Stage =
    | Waiting
    | Locked
    | Checked
    | Permitted
    | Sent
    | Recorded(day: string)
    | Releasing(result: Result, sent: bool, day: string)
    | Done(result: Result)

  datatype Caller = Caller(payment: Payment, stage: Stage)

  datatype World = World(books: Books, holder: Option<nat>, callers: seq<Caller>)

  /** Caller `i` makes its next move, if it can; `sent` and `day` are what the outside world answers. */
  datatype Move = Move(i: nat, sent: bool, day: string)

  function Goto(w: World, i: nat, stage: Stage): World
    requires i < |w.callers|
  {
    w.(callers := w.callers[i := w.callers[i].(stage := stage)])
  }

  function Step(policy: Option<TransferPolicy>, w: World, m: Move): World {
    if m.i >= |w.callers| then w
    else
      var p := w.callers[m.i].payment;
      match w.callers[m.i].stage
      case Waiting => if w.holder.None? then Goto(w, m.i, Locked).(holder := Some(m.i)) else w
      case Locked =>
        if WithinBudget(w.books.file, p.amountUsd) then Goto(w, m.i, Checked)
        else Goto(w, m.i, Releasing(OverBudget, false, ""))
      case Checked =>
        if p.payTo == "" then Goto(w, m.i, Releasing(NoRecipient, false, ""))
        else if Permits(policy, p) then Goto(w, m.i, Permitted)
        else Goto(Write(w, Denied(p.amountUsd, p.payTo)), m.i, Releasing(PolicyDenied, false, ""))
      case Permitted =>
        if m.sent then Goto(w, m.i, Sent)
        else Goto(Write(w, Failed(p.amountUsd, p.payTo)), m.i, Releasing(SendFailed, false, ""))
      case Sent =>
        Goto(w.(books := w.books.(file := RecordSpend(w.books.file, p.amountUsd, m.day))), m.i, Recorded(m.day))
      case Recorded(day) => Goto(Write(w, Settled(p.amountUsd, p.payTo, day)), m.i, Releasing(Paid, true, day))
      case Releasing(result, _, _) => Goto(w, m.i, Done(result)).(holder := None)
      case Done(_) => w
  }

  function Write(w: World, line: AuditLine): World {
    w.(books := w.books.(audit := w.books.audit + [line]))
  }

  function Run(policy: Option<TransferPolicy>, w: World, moves: seq<Move>): World {
    if moves == [] then w else Step(policy, Run(policy, w, moves[..|moves| - 1]), moves[|moves| - 1])
  }

  /** Everybody waits and nobody holds the lock. */
  function Start(books: Books, payments: seq<Payment>): World {
    World(books, None, seq(|payments|, i requires 0 <= i < |payments| => Caller(payments[i], Waiting)))
  }

  // ----- serializability -----

  /** One finished payment, with the answers it got. */
  datatype Turn = Turn(payment: Payment, sent: bool, day: string)

  /** The books after the payments in turn, each one alone. */
  function Serial(policy: Option<TransferPolicy>, b: Books, turns: seq<Turn>): Books {
    if turns == [] then b
    else
      var t := turns[|turns| - 1];
      Pay(policy, Serial(policy, b, turns[..|turns| - 1]), t.payment, t.sent, t.day).0
  }

  /** The payments in the order in which they release the lock. */
  function Turns(policy: Option<TransferPolicy>, w: World, moves: seq<Move>): seq<Turn> {
    if moves == [] then []
    else
      var m := moves[|moves| - 1];
      var before := Run(policy, w, moves[..|moves| - 1]);
      var turns := Turns(policy, w, moves[..|moves| - 1]);
      if m.i < |before.callers| && before.callers[m.i].stage.Releasing? then
        var c := before.callers[m.i];
        turns + [Turn(c.payment, c.stage.sent, c.stage.day)]
      else turns
  }

  /** What the lock holder has done to the books `base` it found. */
  ghost predicate Midway(policy: Option<TransferPolicy>, base: Books, now: Books, c: Caller) {
    var p := c.payment;
    match c.stage
    case Locked => now == base
    case Checked => now == base && WithinBudget(base.file, p.amountUsd)
    case Permitted => now == base && WithinBudget(base.file, p.amountUsd) && p.payTo != "" && Permits(policy, p)
    case Sent => now == base && WithinBudget(base.file, p.amountUsd) && p.payTo != "" && Permits(policy, p)
    case Recorded(day) =>
      && WithinBudget(base.file, p.amountUsd) && p.payTo != "" && Permits(policy, p)
      && now == base.(file := RecordSpend(base.file, p.amountUsd, day))
    case Releasing(result, sent, day) => Pay(policy, base, p, sent, day) == (now, result)
    case _ => false
  }

  /** Only the lock holder is in the middle of a payment, and it is midway from the serial books. */
  ghost predicate Serialized(policy: Option<TransferPolicy>, base: Books, w: World) {
    && (forall i :: 0 <= i < |w.callers| && !w.callers[i].stage.Waiting? && !w.callers[i].stage.Done? ==> w.holder == Some(i))
    && match w.holder
       case None => w.books == base
       case Some(i) => i < |w.callers| && Midway(policy, base, w.books, w.callers[i])
  }

  lemma AcquireSerialized(policy: Option<TransferPolicy>, base: Books, w: World, m: Move)
    requires Serialized(policy, base, w) && m.i < |w.callers| && w.callers[m.i].stage.Waiting?
    ensures Serialized(policy, base, Step(policy, w, m))
  {
  }

  /** A move of the lock holder between acquiring and releasing. */
  lemma WorkSerialized(policy: Option<TransferPolicy>, base: Books, w: World, m: Move)
    requires Serialized(policy, base, w) && w.holder == Some(m.i)
    requires !w.callers[m.i].stage.Releasing?
    ensures Serialized(policy, base, Step(policy, w, m))
  {
    HolderAdvances(policy, base, w.books, w, m);
    HolderMoved(policy, base, w, Step(policy, w, m), m.i);
  }

  lemma HolderAdvances(policy: Option<TransferPolicy>, base: Books, now: Books, w: World, m: Move)
    requires m.i < |w.callers| && now == w.books && Midway(policy, base, now, w.callers[m.i])
    requires !w.callers[m.i].stage.Releasing?
    ensures var u := Step(policy, w, m);
      && u.holder == w.holder && |u.callers| == |w.callers| && u.callers == w.callers[m.i := u.callers[m.i]]
      && Midway(policy, base, u.books, u.callers[m.i])
  {
  }

  lemma HolderMoved(policy: Option<TransferPolicy>, base: Books, w: World, u: World, i: nat)
    requires Serialized(policy, base, w) && w.holder == Some(i) == u.holder && |u.callers| == |w.callers|
    requires u.callers == w.callers[i := u.callers[i]] && Midway(policy, base, u.books, u.callers[i])
    ensures Serialized(policy, base, u)
  {
  }

  lemma ReleaseSerialized(policy: Option<TransferPolicy>, base: Books, w: World, m: Move)
    requires Serialized(policy, base, w) && m.i < |w.callers| && w.callers[m.i].stage.Releasing?
    ensures var c := w.callers[m.i];
      Serialized(policy, Pay(policy, base, c.payment, c.stage.sent, c.stage.day).0, Step(policy, w, m))
  {
  }

  /** One shared access keeps the protocol serialized; a release moves the serial books on by one payment. */
  lemma StepSerialized(policy: Option<TransferPolicy>, base: Books, w: World, m: Move)
    requires Serialized(policy, base, w)
    ensures var u := Step(policy, w, m);
      if m.i < |w.callers| && w.callers[m.i].stage.Releasing? then
        var c := w.callers[m.i];
        Serialized(policy, Pay(policy, base, c.payment, c.stage.sent, c.stage.day).0, u)
      else Serialized(policy, base, u)
  {
    if m.i < |w.callers| {
      match w.callers[m.i].stage
      case Waiting => AcquireSerialized(policy, base, w, m);
      case Releasing(_, _, _) => ReleaseSerialized(policy, base, w, m);
      case Done(_) =>
      case _ => WorkSerialized(policy, base, w, m);
    }
  }

  /** Serializability: every interleaving leaves the books as some one-at-a-time execution of the finished
      payments does, namely in the order in which they released the lock. */
  lemma {:induction false} EveryInterleavingIsSerial(policy: Option<TransferPolicy>, b: Books, payments: seq<Payment>, moves: seq<Move>)
    ensures var w := Start(b, payments);
      Serialized(policy, Serial(policy, b, Turns(policy, w, moves)), Run(policy, w, moves))
  {
    if moves != [] {
      var w := Start(b, payments);
      var front, m := moves[..|moves| - 1], moves[|moves| - 1];
      EveryInterleavingIsSerial(policy, b, payments, front);
      StepSerialized(policy, Serial(policy, b, Turns(policy, w, front)), Run(policy, w, front), m);
      var turns := Turns(policy, w, front);
      assert Turns(policy, w, moves) != turns ==> Turns(policy, w, moves)[..|turns|] == turns;
    }
  }

  // ----- every payment made was permitted -----

  /** A caller that has sent, or is past having sent, a payment had it permitted: its amount by the
      per-call cap, its recipient and its chain by the policy. */
  ghost predicate Sanctioned(policy: Option<TransferPolicy>, c: Caller) {
    c.stage.Permitted? || c.stage.Sent? || c.stage.Recorded? || c.stage == Done(Paid)
      || (c.stage.Releasing? && c.stage.result == Paid) ==>
    c.payment.amountUsd <= MAX_PER_CALL_USD && c.payment.payTo != "" && Permits(policy, c.payment)
  }

  ghost predicate HasPassedBudget(c: Caller) {
    c.stage.Checked? ==> c.payment.amountUsd <= MAX_PER_CALL_USD
  }

  lemma StepSanctioned(policy: Option<TransferPolicy>, w: World, m: Move)
    requires forall i :: 0 <= i < |w.callers| ==> Sanctioned(policy, w.callers[i]) && HasPassedBudget(w.callers[i])
    ensures var u := Step(policy, w, m);
      && |u.callers| == |w.callers|
      && (forall i :: 0 <= i < |w.callers| ==>
            Sanctioned(policy, u.callers[i]) && HasPassedBudget(u.callers[i]) && u.callers[i].payment == w.callers[i].payment)
  {
  }

  /** In every interleaving, whoever has paid was permitted to, on the chain it paid on. */
  lemma {:induction false} PaidIsPermitted(policy: Option<TransferPolicy>, b: Books, payments: seq<Payment>, moves: seq<Move>)
    ensures var w := Run(policy, Start(b, payments), moves);
      && |w.callers| == |payments|
      && (forall i :: 0 <= i < |payments| ==>
            && w.callers[i].payment == payments[i]
            && Sanctioned(policy, w.callers[i]) && HasPassedBudget(w.callers[i]))
  {
    if moves != [] {
      PaidIsPermitted(policy, b, payments, moves[..|moves| - 1]);
      StepSanctioned(policy, Run(policy, Start(b, payments), moves[..|moves| - 1]), moves[|moves| - 1]);
    }
  }

  // ----- the policy, written out -----

  ghost predicate RecipientListed(policy: TransferPolicy, payTo: string) {
    exists r :: r in policy.allowedRecipients && Lower(r) == Lower(payTo)
  }

  /** All that the bundle asks of a transfer. */
  ghost predicate MeetsPolicy(policy: Option<TransferPolicy>, p: Payment) {
    match policy
    case None => false
    case Some(cfg) =>
      && cfg.enabled && 0.0 < cfg.maxPerTransferUsd && p.amountUsd <= cfg.maxPerTransferUsd
      && (cfg.allowedChains == {} || p.chain in cfg.allowedChains)
      && (cfg.allowedRecipients == {} || RecipientListed(cfg, p.payTo))
  }

  /** In every interleaving, a caller that is past the check, and so everybody who has paid, has a policy that is
      enabled with a positive limit no less than the amount, a chain among the allowed ones when there are
      any, and a recipient in the list, up to case, when there is one. */
  lemma PaidMeetsPolicy(policy: Option<TransferPolicy>, b: Books, payments: seq<Payment>, moves: seq<Move>, i: nat)
    requires i < |payments|
    ensures var w := Run(policy, Start(b, payments), moves);
      && i < |w.callers|
      && var stage := w.callers[i].stage;
      (stage.Permitted? || stage.Sent? || stage.Recorded? || stage == Done(Paid)
       || (stage.Releasing? && stage.result == Paid)) ==>
        && payments[i].amountUsd <= 0.10 && payments[i].payTo != ""
        && policy.Some? && policy.value.enabled
        && 0.0 < policy.value.maxPerTransferUsd && payments[i].amountUsd <= policy.value.maxPerTransferUsd
        && (policy.value.allowedChains == {} || payments[i].chain in policy.value.allowedChains)
        && (policy.value.allowedRecipients == {} || RecipientListed(policy.value, payments[i].payTo))
  {
    PaidIsPermitted(policy, b, payments, moves);
    var w := Run(policy, Start(b, payments), moves);
    assert Sanctioned(policy, w.callers[i]);
  }

  /** A refusal is written down, sends nothing and spends nothing. */
  lemma RefusedSpendsNothing(policy: Option<TransferPolicy>, b: Books, p: Payment, sent: bool, day: string)
    requires !MeetsPolicy(policy, p) || p.amountUsd > 0.10 || Spent(b.file) + p.amountUsd > 1.0 || p.payTo == ""
    ensures Pay(policy, b, p, sent, day).1 !in {Paid, SendFailed}
    ensures Pay(policy, b, p, sent, day).0.file == b.file
    ensures Pay(policy, b, p, sent, day).0.audit == b.audit || Pay(policy, b, p, sent, day).0.audit == b.audit + [Denied(p.amountUsd, p.payTo)]
  {
  }

  /** The outcome of a payment, in the order of its tests, and what it leaves in the books. */
  lemma OutcomeIff(policy: Option<TransferPolicy>, b: Books, p: Payment, sent: bool, day: string)
    ensures var fits := p.amountUsd <= 0.10 && Spent(b.file) + p.amountUsd <= 1.0;
      var (c, result) := Pay(policy, b, p, sent, day);
      && (result == OverBudget <==> !fits)
      && (result == NoRecipient <==> fits && p.payTo == "")
      && (result == PolicyDenied <==> fits && p.payTo != "" && !MeetsPolicy(policy, p))
      && (result == SendFailed <==> fits && p.payTo != "" && MeetsPolicy(policy, p) && !sent)
      && (result == Paid <==> fits && p.payTo != "" && MeetsPolicy(policy, p) && sent)
      && (result != Paid ==> c.file == b.file)
      && c.audit == b.audit + (match result
                               case OverBudget => []
                               case NoRecipient => []
                               case PolicyDenied => [Denied(p.amountUsd, p.payTo)]
                               case SendFailed => [AuditLine.Failed(p.amountUsd, p.payTo)]
                               case Paid => [Settled(p.amountUsd, p.payTo, day)])
  {
    assert Permits(policy, p) <==> MeetsPolicy(policy, p);
  }

  /** With no state file, or none that can be read, nothing is spent: the first payment is measured against the caps
      alone, and its amount is all the new file holds. */
  lemma FirstPayment(policy: Option<TransferPolicy>, f: StateFile, p: Payment, day: string)
    requires !f.Saved? && MeetsPolicy(policy, p) && p.payTo != "" && p.amountUsd <= 0.10
    ensures Pay(policy, Books(f, []), p, true, day) ==
            (Books(Saved(p.amountUsd, map[day := p.amountUsd], 1), [Settled(p.amountUsd, p.payTo, day)]), Paid)
  {
    var (b, result) := Pay(policy, Books(f, []), p, true, day);
    assert Permits(policy, p) && result == Paid;
    assert b.audit == [Settled(p.amountUsd, p.payTo, day)];
    assert RecordSpend(f, p.amountUsd, day) == Saved(p.amountUsd, map[day := p.amountUsd], 1);
  }

  /** The six moves of a caller that meets no refusal. */
  function Six(i: nat, day: string): seq<Move> {
    seq(6, _ => Move(i, true, day))
  }

  lemma RunMore(policy: Option<TransferPolicy>, w: World, m: Move, n: nat)
    ensures Run(policy, w, seq(n + 1, _ => m)) == Step(policy, Run(policy, w, seq(n, _ => m)), m)
  {
    assert seq(n + 1, _ => m)[..n] == seq(n, _ => m);
  }

  /** Caller `i` holds the lock at `stage` with its payment. */
  ghost predicate HolderAt(u: World, callers: nat, i: nat, p: Payment, stage: Stage, books: Books) {
    && |u.callers| == callers && i < callers && u.holder == Some(i)
    && u.callers[i] == Caller(p, stage) && u.books == books
  }

  lemma HolderIsPermitted(policy: Option<TransferPolicy>, w: World, n: nat, i: nat, p: Payment, books: Books, m: Move)
    requires HolderAt(w, n, i, p, Locked, books) && m.i == i && m.sent
    requires MeetsPolicy(policy, p) && p.payTo != "" && p.amountUsd <= 0.10 && Spent(books.file) + p.amountUsd <= 1.0
    ensures HolderAt(Step(policy, w, m), n, i, p, Checked, books)
    ensures HolderAt(Step(policy, Step(policy, w, m), m), n, i, p, Permitted, books)
  {
    assert Permits(policy, p);
  }

  lemma HolderSends(policy: Option<TransferPolicy>, w: World, n: nat, i: nat, p: Payment, books: Books, m: Move)
    requires HolderAt(w, n, i, p, Permitted, books) && m.i == i && m.sent
    ensures HolderAt(Step(policy, w, m), n, i, p, Sent, books)
    ensures HolderAt(Step(policy, Step(policy, w, m), m), n, i, p, Recorded(m.day),
                     books.(file := RecordSpend(books.file, p.amountUsd, m.day)))
  {
  }

  lemma HolderFinishes(policy: Option<TransferPolicy>, w: World, n: nat, i: nat, p: Payment, books: Books, day: string, m: Move)
    requires HolderAt(w, n, i, p, Recorded(day), books) && m.i == i
    ensures var u := Step(policy, Step(policy, w, m), m);
      && |u.callers| == n && u.callers[i] == Caller(p, Done(Paid)) && u.holder == None
      && u.books == books.(audit := books.audit + [Settled(p.amountUsd, p.payTo, day)])
  {
    assert HolderAt(Step(policy, w, m), n, i, p, Releasing(Paid, true, day),
                    books.(audit := books.audit + [Settled(p.amountUsd, p.payTo, day)]));
  }

  lemma RunSix(policy: Option<TransferPolicy>, w: World, i: nat, day: string)
    ensures var m := Move(i, true, day);
      var w2 := Step(policy, Step(policy, w, m), m);
      var w4 := Step(policy, Step(policy, w2, m), m);
      Run(policy, w, Six(i, day)) == Step(policy, Step(policy, w4, m), m)
  {
    var m := Move(i, true, day);
    assert seq(0, _ => m) == [];
    RunMore(policy, w, m, 0);
    RunMore(policy, w, m, 1);
    RunMore(policy, w, m, 2);
    RunMore(policy, w, m, 3);
    RunMore(policy, w, m, 4);
    RunMore(policy, w, m, 5);
    assert Six(i, day) == seq(6, _ => m);
  }

  /** Nobody is refused who should not be: a lock holder whose payment meets the policy and the budget, and whose
      send succeeds, ends paid after six moves, with its amount recorded for the day and its line written. */
  lemma PermittedIsPaid(policy: Option<TransferPolicy>, w: World, i: nat, day: string)
    requires i < |w.callers| && w.holder == Some(i) && w.callers[i].stage == Locked
    requires MeetsPolicy(policy, w.callers[i].payment) && w.callers[i].payment.payTo != ""
    requires w.callers[i].payment.amountUsd <= 0.10
    requires Spent(w.books.file) + w.callers[i].payment.amountUsd <= 1.0
    ensures var p := w.callers[i].payment;
      var u := Run(policy, w, Six(i, day));
      && |u.callers| == |w.callers| && u.callers[i] == Caller(p, Done(Paid)) && u.holder == None
      && u.books.audit == w.books.audit + [Settled(p.amountUsd, p.payTo, day)]
      && Spent(u.books.file) == Spent(w.books.file) + p.amountUsd
      && SpentOn(u.books.file, day) == SpentOn(w.books.file, day) + p.amountUsd
      && PaymentCount(u.books.file) == PaymentCount(w.books.file) + 1
  {
    var m, p, n := Move(i, true, day), w.callers[i].payment, |w.callers|;
    var w2 := Step(policy, Step(policy, w, m), m);
    var w4 := Step(policy, Step(policy, w2, m), m);
    RunSix(policy, w, i, day);
    HolderIsPermitted(policy, w, n, i, p, w.books, m);
    HolderSends(policy, w2, n, i, p, w.books, m);
    HolderFinishes(policy, w4, n, i, p, w4.books, day, m);
  }

  // ----- budget and conservation -----

  function SettledTotal(audit: seq<AuditLine>): real {
    if audit == [] then 0.0
    else
      var last := audit[|audit| - 1];
      SettledTotal(audit[..|audit| - 1]) + if last.Settled? then last.amount else 0.0
  }

  function SettledOn(audit: seq<AuditLine>, day: string): real {
    if audit == [] then 0.0
    else
      var last := audit[|audit| - 1];
      SettledOn(audit[..|audit| - 1], day) + if last.Settled? && last.day == day then last.amount else 0.0
  }

  function SettledCount(audit: seq<AuditLine>): nat {
    if audit == [] then 0 else SettledCount(audit[..|audit| - 1]) + if audit[|audit| - 1].Settled? then 1 else 0
  }

  /** Relative to the opening books: every counter has grown by what the settled lines say. */
  ghost predicate Balanced(opening: Books, b: Books) {
    && Spent(b.file) - Spent(opening.file) == SettledTotal(b.audit) - SettledTotal(opening.audit)
    && PaymentCount(b.file) - PaymentCount(opening.file) == SettledCount(b.audit) - SettledCount(opening.audit)
    && (forall day :: SpentOn(b.file, day) - SpentOn(opening.file, day) == SettledOn(b.audit, day) - SettledOn(opening.audit, day))
    && (Spent(opening.file) <= MAX_SESSION_USD ==> Spent(b.file) <= MAX_SESSION_USD)
  }

  /** Every settled line is for a payment the caps and the policy permit. */
  ghost predicate LinePermitted(policy: Option<TransferPolicy>, line: AuditLine) {
    line.Settled? ==>
      && line.amount <= MAX_PER_CALL_USD && line.payTo != ""
      && policy.Some? && policy.value.enabled && line.amount <= policy.value.maxPerTransferUsd
      && (policy.value.allowedRecipients != {} ==>
            exists r :: r in policy.value.allowedRecipients && Lower(r) == Lower(line.payTo))
  }

  lemma PayBalanced(policy: Option<TransferPolicy>, opening: Books, b: Books, p: Payment, sent: bool, day: string)
    requires Balanced(opening, b)
    requires opening.audit <= b.audit
    requires forall i :: |opening.audit| <= i < |b.audit| ==> LinePermitted(policy, b.audit[i])
    ensures var c := Pay(policy, b, p, sent, day).0;
      && Balanced(opening, c) && opening.audit <= c.audit
      && forall i :: |opening.audit| <= i < |c.audit| ==> LinePermitted(policy, c.audit[i])
  {
    var c := Pay(policy, b, p, sent, day).0;
    if c.audit != b.audit {
      assert c.audit[..|b.audit|] == b.audit;
      LineIsPermitted(policy, b, p, sent, day);
    }
    if c.file != b.file {
      forall d ensures SpentOn(c.file, d) == SpentOn(b.file, d) + if d == day then p.amountUsd else 0.0 {
      }
    }
  }

  lemma LineIsPermitted(policy: Option<TransferPolicy>, b: Books, p: Payment, sent: bool, day: string)
    requires Pay(policy, b, p, sent, day).0.audit != b.audit
    ensures var audit := Pay(policy, b, p, sent, day).0.audit;
      |audit| == |b.audit| + 1 && LinePermitted(policy, audit[|b.audit|])
  {
  }

  lemma {:induction false} SerialBalanced(policy: Option<TransferPolicy>, b: Books, turns: seq<Turn>)
    ensures var c := Serial(policy, b, turns);
      && Balanced(b, c) && b.audit <= c.audit
      && forall i :: |b.audit| <= i < |c.audit| ==> LinePermitted(policy, c.audit[i])
  {
    if turns != [] {
      SerialBalanced(policy, b, turns[..|turns| - 1]);
      var t := turns[|turns| - 1];
      PayBalanced(policy, b, Serial(policy, b, turns[..|turns| - 1]), t.payment, t.sent, t.day);
    }
  }

  /** Locked budget: in every interleaving, at every moment, the session total is within its cap if it
      started there. Whenever the lock is free, the session total, the total of each day and the number
      of payments have grown by exactly what the settled audit lines say. */
  lemma BudgetUnderConcurrency(policy: Option<TransferPolicy>, b: Books, payments: seq<Payment>, moves: seq<Move>)
    ensures var w := Run(policy, Start(b, payments), moves);
      && (Spent(b.file) <= MAX_SESSION_USD ==> Spent(w.books.file) <= MAX_SESSION_USD)
      && (w.holder.None? ==> Balanced(b, w.books))
  {
    var w := Start(b, payments);
    var turns := Turns(policy, w, moves);
    EveryInterleavingIsSerial(policy, b, payments, moves);
    SerialBalanced(policy, b, turns);
    var base := Serial(policy, b, turns);
    var now := Run(policy, w, moves);
    if now.holder.Some? && now.callers[now.holder.value].stage.Releasing? {
      var c := now.callers[now.holder.value];
      PayBalanced(policy, b, base, c.payment, c.stage.sent, c.stage.day);
    }
  }

  /** From an absent file and an empty log, whenever the lock is free the file holds just what the log settled. */
  lemma FileIsLog(policy: Option<TransferPolicy>, payments: seq<Payment>, moves: seq<Move>, day: string)
    requires Run(policy, Start(Books(Absent, []), payments), moves).holder.None?
    ensures var b := Run(policy, Start(Books(Absent, []), payments), moves).books;
      && Spent(b.file) == SettledTotal(b.audit) <= 1.0
      && SpentOn(b.file, day) == SettledOn(b.audit, day)
      && PaymentCount(b.file) == SettledCount(b.audit)
  {
    BudgetUnderConcurrency(policy, Books(Absent, []), payments, moves);
  }

  /** No deadlock: as long as somebody is not done, some caller can move. */
  lemma SomebodyCanMove(policy: Option<TransferPolicy>, b: Books, payments: seq<Payment>, moves: seq<Move>)
    requires var w := Run(policy, Start(b, payments), moves);
      exists i :: 0 <= i < |w.callers| && !w.callers[i].stage.Done?
    ensures var w := Run(policy, Start(b, payments), moves);
      exists m: Move :: Step(policy, w, m) != w
  {
    EveryInterleavingIsSerial(policy, b, payments, moves);
    var w := Run(policy, Start(b, payments), moves);
    var i: nat :| i < |w.callers| && !w.callers[i].stage.Done?;
    var m := Move(if w.holder.Some? then w.holder.value else i, true, "");
    assert Step(policy, w, m).callers[m.i].stage != w.callers[m.i].stage;
  }
}
