/** Captures, negative balances, refund statuses and redelivered webhooks, over every run. */
module PaymentRuns {
  import opened Wrappers
  import opened Payments
  import opened PaymentBooks

  // ---------------------------------------------------------------- captures

  /** Committed successful captures of a payment in a run. */
  function CaptureCount(ops: seq<Op>, p: nat): nat {
    if ops == [] then 0
    else
      CaptureCount(ops[..|ops| - 1], p)
      + if Apply(Run(ops[..|ops| - 1]), ops[|ops| - 1]).captured == Some(p) then 1 else 0
  }

  /** How often the gateway has reported a payment failed. */
  function FailCount(ops: seq<Op>, p: nat): nat {
    if ops == [] then 0
    else
      FailCount(ops[..|ops| - 1], p)
      + if FailsPayment(Run(ops[..|ops| - 1]), ops[|ops| - 1]) == Some(p) then 1 else 0
  }

  /** A payment's captures against its row and its ledger entries. */
  predicate CapturesFit(db: Db, p: nat, captures: nat, fails: nat) {
    if p < |db.payments| then
      && captures <= fails + (if Settled(db.payments[p].status) then 1 else 0)
      && (HasPair(db.ledger, p) <==> captures > 0)
    else captures == 0
  }

  lemma CapturesFitStep(db: Db, c: Change, p: nat, captures: nat, fails: nat)
    requires Allowed(db, c) && BooksBalance(db) && CapturesFit(db, p, captures, fails)
    ensures CapturesFit(Do(db, c), p,
                        captures + (if c == CaptureMade(p) then 1 else 0),
                        fails + (if c == MarkedFailed(p) then 1 else 0))
  {
    hide RefundedTotal, GatewayIdUsed;
    HasPairCounts(db.ledger, p);
    match c
    case NewPayment(_) => NothingYet(db, |db.payments|);
    case CaptureMade(q) =>
      HasPairCounts(RecordCapture(db, q).ledger, p);
      var pair := PaymentPair(q, db.payments[q].amount);
      Appended(db.ledger, pair[0], pair[1], p, CustomerFunds);
    case NewRefund(r) =>
      HasPairCounts(RecordRefund(db, r).ledger, p);
      var pair := RefundPair(r.payment, |db.refunds|, r.amount);
      Appended(db.ledger, pair[0], pair[1], p, CustomerFunds);
    case _ =>
  }

  lemma {:induction false} CapturesAlwaysFit(ops: seq<Op>, p: nat)
    ensures CapturesFit(Run(ops), p, CaptureCount(ops, p), FailCount(ops, p))
  {
    hide Apply, Do, Allowed, BooksBalance, FailsPayment, HasPair;
    if ops == [] {
    } else {
      var db := Run(ops[..|ops| - 1]);
      CapturesAlwaysFit(ops[..|ops| - 1], p);
      MoneyConserved(ops[..|ops| - 1]);
      var c := Shape(db, ops[|ops| - 1]);
      CapturesFitStep(db, c, p, CaptureCount(ops[..|ops| - 1], p), FailCount(ops[..|ops| - 1], p));
    }
  }

  /** However often payment events are delivered, and wherever a delivery dies or fails to publish after the capture
      was committed, a payment is captured at most once, and once more for each time the gateway has since reported
      it failed. */
  lemma CapturedAtMostOnce(ops: seq<Op>, p: nat)
    ensures CaptureCount(ops, p) <= 1 + FailCount(ops, p)
    ensures PaymentEntries(Run(ops).ledger, p) == if CaptureCount(ops, p) > 0 then 2 else 0
  {
    hide Apply, BooksBalance, HasPair;
    CapturesAlwaysFit(ops, p);
    MoneyConserved(ops);
    BooksOf(Run(ops), p);
  }

  lemma BooksOf(db: Db, p: nat)
    requires BooksBalance(db)
    ensures p < |db.payments| ==> InBalance(db, p)
    ensures p >= |db.payments| ==> PaymentEntries(db.ledger, p) == 0
    ensures HasPair(db.ledger, p) <==> PaymentEntries(db.ledger, p) > 0
  {
    HasPairCounts(db.ledger, p);
    if p >= |db.payments| {
      NothingYet(db, p);
    }
  }

  // ---------------------------------------------------------------- when an account goes negative

  /** An account of a payment is negative exactly when the payment has been refunded and never captured. */
  lemma NegativeExactlyWhen(ops: seq<Op>, p: nat)
    requires p < |Run(ops).payments|
    ensures Balance(Run(ops).ledger, p, GatewayClearing) < 0 <==>
              RefundedTotal(Run(ops).refunds, p) > 0 && CaptureCount(ops, p) == 0
  {
    hide Apply, BooksBalance, HasPair, RefundedTotal, Balance;
    CapturesAlwaysFit(ops, p);
    MoneyConserved(ops);
    BooksOf(Run(ops), p);
  }

  /** A payment that counts as paid, or has been refunded, has been entered into the ledger. */
  predicate PaidIsEntered(db: Db, p: nat)
    requires p < |db.payments|
  {
    Settled(db.payments[p].status) || RefundedTotal(db.refunds, p) > 0 ==> PaymentEntries(db.ledger, p) > 0
  }

  lemma PaidIsEnteredStep(db: Db, c: Change, p: nat)
    requires Allowed(db, c) && BooksBalance(db) && (p < |db.payments| ==> PaidIsEntered(db, p))
    requires c.NewPayment? ==> !Settled(c.payment.status)
    ensures p < |Do(db, c).payments| ==> PaidIsEntered(Do(db, c), p)
  {
    hide GatewayIdUsed, HasPair, RefundedTotal, PaymentEntries;
    match c
    case NewPayment(_) => NothingYet(db, |db.payments|);
    case CaptureMade(q) =>
      HasPairCounts(db.ledger, q);
      var pair := PaymentPair(q, db.payments[q].amount);
      Appended(db.ledger, pair[0], pair[1], p, CustomerFunds);
    case NewRefund(r) =>
      RefundAppended(db.refunds, r, p);
      var pair := RefundPair(r.payment, |db.refunds|, r.amount);
      Appended(db.ledger, pair[0], pair[1], p, CustomerFunds);
    case _ =>
  }

  /** As long as no gateway answers the creation of an intent with success at once, no account is ever negative. */
  lemma {:induction false} NeverNegative(ops: seq<Op>, p: nat)
    requires forall i :: 0 <= i < |ops| ==> !BornConfirmed(ops[i])
    ensures p < |Run(ops).payments| ==> PaidIsEntered(Run(ops), p) && Balance(Run(ops).ledger, p, GatewayClearing) >= 0
  {
    hide Apply, Do, Allowed, BooksBalance, RefundedTotal, PaymentEntries, Balance, HasPair;
    MoneyConserved(ops);
    if ops != [] {
      var db := Run(ops[..|ops| - 1]);
      NeverNegative(ops[..|ops| - 1], p);
      MoneyConserved(ops[..|ops| - 1]);
      var c := Shape(db, ops[|ops| - 1]);
      PaidIsEnteredStep(db, c, p);
      BooksOf(Run(ops), p);
    }
  }

  /** An intent that is answered with success is confirmed without a ledger entry, so refunding it turns the account
      negative. */
  lemma RefundOfUnenteredPayment(amount: nat)
    requires amount > 0
    ensures var ops := [CreateOp(1, amount, "k", Intent("g", "succeeded"), NoFault),
                        RefundOp(0, amount, "", "r", GatewayRefund(true, None), NoFault)];
            |Run(ops).payments| == 1 && Balance(Run(ops).ledger, 0, GatewayClearing) == 0 - amount
  {
    var create := CreateOp(1, amount, "k", Intent("g", "succeeded"), NoFault);
    var refund := RefundOp(0, amount, "", "r", GatewayRefund(true, None), NoFault);
    hide Run, CreateIntent, CreateRefund, Balance, RefundPair;
    TwoOperations(create, refund);
    var db := CreateIntent(EMPTY, 1, amount, "k", Intent("g", "succeeded"), NoFault).db;
    UnenteredIntent(1, amount, "k", "g");
    WholeRefund(db, amount, "", "r");
    NegativeEntry(amount);
  }

  lemma NegativeEntry(amount: nat)
    ensures Balance([] + RefundPair(0, 0, amount), 0, GatewayClearing) == 0 - amount
  {
    Appended([], RefundPair(0, 0, amount)[0], RefundPair(0, 0, amount)[1], 0, GatewayClearing);
  }

  lemma TwoOperations(a: Op, b: Op)
    ensures Run([a, b]) == Apply(Apply(EMPTY, a).db, b).db
  {
    var none, one, two := [], [a], [a, b];
    assert two[..|two| - 1] == one && one[..|one| - 1] == none;
    assert Run(none) == EMPTY;
    assert Run(one) == Apply(EMPTY, a).db;
  }

  lemma UnenteredIntent(booking: int, amount: nat, key: string, gatewayId: string)
    ensures var db := CreateIntent(EMPTY, booking, amount, key, Intent(gatewayId, "succeeded"), NoFault).db;
            && db.payments == [Payment(amount, gatewayId, Confirmed, key)] && db.refunds == [] && db.ledger == []
            && db.keys.Keys == {(CreatingIntent, key)}
  {}

  lemma WholeRefund(db: Db, amount: nat, reason: string, key: string)
    requires |db.payments| == 1 && db.payments[0].status == Confirmed && db.payments[0].amount == amount
    requires db.refunds == [] && db.ledger == [] && (Refunding(0), key) !in db.keys
    ensures var after := CreateRefund(db, 0, amount, reason, key, GatewayRefund(true, None), NoFault).db;
            |after.payments| == 1 && after.ledger == [] + RefundPair(0, 0, amount)
  {}

  // ---------------------------------------------------------------- refund status

  /** The status is the one its refunds call for. */
  predicate StatusFits(db: Db, p: nat)
    requires p < |db.payments|
  {
    var total, amount, status := RefundedTotal(db.refunds, p), db.payments[p].amount, db.payments[p].status;
    && (status == Refunded <==> total == amount)
    && (status == PartiallyRefunded <==> 0 < total < amount)
  }

  ghost predicate StatusesFit(db: Db) {
    forall p: nat :: p < |db.payments| ==> db.payments[p].amount >= 1 && StatusFits(db, p)
  }

  predicate PositiveAmounts(op: Op) {
    (op.CreateOp? ==> op.amount >= 1) && (op.RefundOp? ==> op.amount >= 1)
  }

  /** The gateway reports a payment failed that has already been refunded in part or whole. */
  predicate FailsRefunded(db: Db, op: Op) {
    FailsPayment(db, op).Some? && RefundedTotal(db.refunds, FailsPayment(db, op).value) > 0
  }

  lemma StatusFitsChange(db: Db, c: Change, p: nat)
    requires Allowed(db, c) && BooksBalance(db) && StatusesFit(db) && p < |Do(db, c).payments|
    requires c.NewPayment? ==> c.payment.amount >= 1 && c.payment.status !in {PartiallyRefunded, Refunded}
    requires c.NewRefund? ==> c.refund.amount >= 1
    ensures Do(db, c).payments[p].amount >= 1
    ensures StatusFits(Do(db, c), p) <==> !(c == MarkedFailed(p) && RefundedTotal(db.refunds, p) > 0)
  {
    hide GatewayIdUsed, HasPair, RefundedTotal, HasRefundEntry, Balance, PaymentEntries, BooksBalance, StatusesFit,
        RecordRefund;
    if c.NewPayment? {
      UnusedNumber(db);
      if p < |db.payments| { FittingPayment(db, p); }
    } else if c.NewRefund? {
      SameNumber(db, c.refund);
      FittingPayment(db, p);
      RefundKeepsStatus(db, c.refund, p);
    } else {
      FittingPayment(db, p);
      BooksOf(db, p);
    }
  }

  lemma SameNumber(db: Db, r: Refund)
    requires r.payment < |db.payments|
    ensures |RecordRefund(db, r).payments| == |db.payments|
  {
    hide RefundedTotal, HasRefundEntry;
  }

  lemma FittingPayment(db: Db, p: nat)
    requires StatusesFit(db) && p < |db.payments|
    ensures db.payments[p].amount >= 1 && StatusFits(db, p)
  {}

  lemma UnusedNumber(db: Db)
    requires BooksBalance(db)
    ensures RefundedTotal(db.refunds, |db.payments|) == 0
  {
    NothingYet(db, |db.payments|);
  }

  lemma RefundKeepsStatus(db: Db, r: Refund, p: nat)
    requires Allowed(db, NewRefund(r)) && r.amount >= 1 && p < |db.payments| && StatusFits(db, p)
    ensures db.payments[p].amount == RecordRefund(db, r).payments[p].amount && StatusFits(RecordRefund(db, r), p)
  {
    hide RefundedTotal, HasRefundEntry;
    RefundAppended(db.refunds, r, p);
  }

  /** From statuses that fit, an operation leaves statuses that fit exactly when it is not a failure report on a payment
      already refunded. */
  lemma StatusesFitExactlyWhen(db: Db, op: Op)
    requires BooksBalance(db) && StatusesFit(db) && PositiveAmounts(op)
    ensures StatusesFit(Apply(db, op).db) <==> !FailsRefunded(db, op)
  {
    hide Apply, Do, Allowed, BooksBalance, RefundedTotal, FailsPayment, StatusFits;
    var c := Shape(db, op);
    forall p: nat | p < |Apply(db, op).db.payments|
      ensures Apply(db, op).db.payments[p].amount >= 1
      ensures StatusFits(Apply(db, op).db, p) <==> !(c == MarkedFailed(p) && RefundedTotal(db.refunds, p) > 0)
    {
      StatusFitsChange(db, c, p);
      SameStatus(Do(db, c), Apply(db, op).db, p);
    }
    if FailsRefunded(db, op) {
      FailedIsStored(db, c);
      assert !StatusFits(Apply(db, op).db, c.p);
    }
  }

  lemma SameStatus(a: Db, b: Db, p: nat)
    requires SameBooks(a, b) && p < |a.payments|
    ensures StatusFits(a, p) == StatusFits(b, p)
  {}

  lemma FailedIsStored(db: Db, c: Change)
    requires c.MarkedFailed? && Allowed(db, c)
    ensures c.p < |Do(db, c).payments|
  {}

  /** The run never reports a refunded payment failed. */
  predicate NoRefundedFailure(ops: seq<Op>) {
    ops == [] || (NoRefundedFailure(ops[..|ops| - 1]) && !FailsRefunded(Run(ops[..|ops| - 1]), ops[|ops| - 1]))
  }

  /** The status kept up as refunds happen is the status a recomputation would give, so recomputing changes nothing. */
  lemma {:induction false} IncrementalEqualsRecomputed(ops: seq<Op>, p: nat)
    requires forall i :: 0 <= i < |ops| ==> PositiveAmounts(ops[i])
    requires NoRefundedFailure(ops)
    ensures StatusesFit(Run(ops))
    ensures RefreshStatus(Run(ops), p).db == Run(ops)
  {
    hide Apply, BooksBalance, RefundedTotal, FailsRefunded, StatusesFit;
    if ops == [] {
      NoStatuses();
    } else {
      IncrementalEqualsRecomputed(ops[..|ops| - 1], p);
      MoneyConserved(ops[..|ops| - 1]);
      StatusesFitExactlyWhen(Run(ops[..|ops| - 1]), ops[|ops| - 1]);
    }
    MoneyConserved(ops);
    BooksOf(Run(ops), p);
    RefreshOfFitting(Run(ops), p);
  }

  lemma NoStatuses()
    ensures StatusesFit(EMPTY)
  {}

  lemma RefreshOfFitting(db: Db, p: nat)
    requires StatusesFit(db)
    requires p < |db.payments| ==> RefundedTotal(db.refunds, p) <= db.payments[p].amount
    ensures RefreshStatus(db, p).db == db
  {
    if p < |db.payments| {
      assert StatusFits(db, p);
    }
  }
}
