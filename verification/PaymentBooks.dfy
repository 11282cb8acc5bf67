/** Money in the payment database: the ledger against the payments and refunds, over every run. */
module PaymentBooks {
  import opened Wrappers
  import opened Payments

  // ---------------------------------------------------------------- what an operation does to the books

  /** The ways payments, refunds and ledger change; keys and webhook rows are aside. */
  datatype Change =
    | Nothing
    | NewPayment(payment: Payment)
    | MarkedFailed(p: nat)      // the gateway reported a failure
    | CaptureFailed(p: nat)
    | CaptureMade(p: nat)
    | Recomputed(p: nat)
    | NewRefund(refund: Refund)

  predicate Allowed(db: Db, c: Change) {
    match c
    case Nothing => true
    case NewPayment(payment) => !GatewayIdUsed(db.payments, payment.gatewayId)
    case MarkedFailed(p) => p < |db.payments|
    case CaptureFailed(p) => p < |db.payments| && !Settled(db.payments[p].status)
    case CaptureMade(p) => p < |db.payments| && !Settled(db.payments[p].status)
    case Recomputed(p) => p < |db.payments| && RefundedTotal(db.refunds, p) > 0
    case NewRefund(r) =>
      && r.payment < |db.payments|
      && db.payments[r.payment].status in {Confirmed, PartiallyRefunded}
      && RefundedTotal(db.refunds, r.payment) + r.amount <= db.payments[r.payment].amount
  }

  function Do(db: Db, c: Change): Db
    requires Allowed(db, c)
  {
    match c
    case Nothing => db
    case NewPayment(payment) => db.(payments := db.payments + [payment])
    case MarkedFailed(p) => SetStatus(db, p, Failed)
    case CaptureFailed(p) => SetStatus(db, p, Failed)
    case CaptureMade(p) => RecordCapture(db, p)
    case Recomputed(p) => SetStatus(db, p, RefundedStatus(RefundedTotal(db.refunds, p), db.payments[p].amount))
    case NewRefund(r) => RecordRefund(db, r)
  }

  predicate SameBooks(a: Db, b: Db) { a.payments == b.payments && a.refunds == b.refunds && a.ledger == b.ledger }

  /** The payment an operation marks failed on the gateway's word. */
  function FailsPayment(db: Db, op: Op): Option<nat> {
    match op
    case FailOp(gatewayId) => FindPayment(db.payments, gatewayId)
    case WebhookOp(w, _, _, _) =>
      if w.kind == PaymentFailed && Dispatches(db, w) then FindPayment(db.payments, w.gatewayId.value) else None
    case _ => None
  }

  /** The gateway answers the creation of an intent with success at once. */
  predicate BornConfirmed(op: Op) { op.CreateOp? && op.answer.Intent? && op.answer.status == "succeeded" }

  lemma ConfirmShape(db: Db, p: nat, gatewayId: Option<string>, key: string, capture: Capture,
                     fault: Fault) returns (c: Change)
    ensures Allowed(db, c) && SameBooks(ConfirmIntent(db, p, gatewayId, key, capture, fault).db, Do(db, c))
    ensures c in {Nothing, CaptureFailed(p), CaptureMade(p)}
    ensures ConfirmIntent(db, p, gatewayId, key, capture, fault).captured ==
            (if c == CaptureMade(p) then Some(p) else None)
  {
    var e := ConfirmIntent(db, p, gatewayId, key, capture, fault);
    if e.captured.Some? {
      c := CaptureMade(p);
    } else if p < |db.payments| && !Settled(db.payments[p].status) && e.db.payments != db.payments {
      c := CaptureFailed(p);
    } else {
      c := Nothing;
    }
  }

  lemma CreateShape(db: Db, booking: int, amount: nat, key: string, answer: IntentAnswer,
                    fault: Fault) returns (c: Change)
    ensures Allowed(db, c) && SameBooks(CreateIntent(db, booking, amount, key, answer, fault).db, Do(db, c))
    ensures c.Nothing? || c.NewPayment?
    ensures CreateIntent(db, booking, amount, key, answer, fault).captured == None
    ensures c.NewPayment? ==>
              && answer.Intent?
              && c.payment == Payment(amount, answer.gatewayId, MapGatewayIntentStatus(answer.status), key)
  {
    var e := CreateIntent(db, booking, amount, key, answer, fault);
    c := if |e.db.payments| > |db.payments| then NewPayment(e.db.payments[|db.payments|]) else Nothing;
  }

  lemma RefundShape(db: Db, p: nat, amount: nat, reason: string, key: string, answer: RefundAnswer,
                    fault: Fault) returns (c: Change)
    ensures Allowed(db, c) && SameBooks(CreateRefund(db, p, amount, reason, key, answer, fault).db, Do(db, c))
    ensures c.Nothing? || (c.NewRefund? && c.refund.payment == p && c.refund.amount == amount && c.refund.key == key)
    ensures c.NewRefund? ==> answer.GatewayRefund? && c.refund.succeeded == answer.success
    ensures CreateRefund(db, p, amount, reason, key, answer, fault).captured == None
  {
    hide RefundedTotal, HasRefundEntry, RefundIdUsed;
    var e := CreateRefund(db, p, amount, reason, key, answer, fault);
    c := if |e.db.refunds| > |db.refunds| then NewRefund(e.db.refunds[|db.refunds|]) else Nothing;
  }

  /** A delivery that reaches the dispatch. */
  predicate Dispatches(db: Db, w: Webhook) {
    w.gatewayId.Some? && !((w.gateway, w.eventId) in db.webhooks && db.webhooks[(w.gateway, w.eventId)])
  }

  lemma ProcessShape(db: Db, w: Webhook, capture: Capture, fault: Fault) returns (c: Change)
    requires w.gatewayId.Some?
    ensures Allowed(db, c) && SameBooks(ProcessWebhook(db, w, capture, fault).db, Do(db, c))
    ensures c.MarkedFailed? <==> w.kind == PaymentFailed && FindPayment(db.payments, w.gatewayId.value).Some?
    ensures c.MarkedFailed? ==> FindPayment(db.payments, w.gatewayId.value) == Some(c.p)
    ensures ProcessWebhook(db, w, capture, fault).captured == (if c.CaptureMade? then Some(c.p) else None)
    ensures !c.NewPayment? && !c.NewRefund?
  {
    hide FindPayment, RefundedTotal, GatewayIdUsed, HasPair, ConfirmIntent, WebhookKey;
    c := Nothing;
    var found := FindPayment(db.payments, w.gatewayId.value);
    if found.Some? {
      FoundInRange(db.payments, w.gatewayId.value);
      if w.kind == PaymentSucceeded {
        c := ConfirmShape(db, found.value, w.gatewayId, WebhookKey(w), capture, fault);
      } else if w.kind == PaymentFailed {
        c := MarkedFailed(found.value);
      } else if w.kind == PaymentRefunded && RefundedTotal(db.refunds, found.value) > 0 {
        c := Recomputed(found.value);
      }
    }
  }

  lemma SameBooksDo(a: Db, b: Db, c: Change)
    requires SameBooks(a, b) && Allowed(a, c)
    ensures Allowed(b, c) && SameBooks(Do(a, c), Do(b, c))
  {
    hide RefundedTotal, GatewayIdUsed, HasPair, HasRefundEntry;
  }

  lemma WebhookShape(db: Db, w: Webhook, capture: Capture, fault: Fault, marks: bool) returns (c: Change)
    ensures Allowed(db, c) && SameBooks(HandleWebhook(db, w, capture, fault, marks).db, Do(db, c))
    ensures c.MarkedFailed? <==>
              w.kind == PaymentFailed && Dispatches(db, w) && FindPayment(db.payments, w.gatewayId.value).Some?
    ensures c.MarkedFailed? ==> FindPayment(db.payments, w.gatewayId.value) == Some(c.p)
    ensures HandleWebhook(db, w, capture, fault, marks).captured == (if c.CaptureMade? then Some(c.p) else None)
    ensures !c.NewPayment? && !c.NewRefund?
  {
    hide FindPayment, Do, Allowed;
    var id := (w.gateway, w.eventId);
    var known := if id in db.webhooks then db else db.(webhooks := db.webhooks[id := false]);
    if Dispatches(db, w) {
      c := ProcessShape(known, w, capture, fault);
      SameBooksDo(known, db, c);
    } else {
      c := Nothing;
      NothingAllowed(db);
    }
  }

  lemma NothingAllowed(db: Db)
    ensures Allowed(db, Nothing) && Do(db, Nothing) == db
  {}

  lemma FoundInRange(payments: seq<Payment>, gatewayId: string)
    requires FindPayment(payments, gatewayId).Some?
    ensures FindPayment(payments, gatewayId).value < |payments|
  {}

  /** Every operation changes the books in one of these ways, under its guard. */
  lemma Shape(db: Db, op: Op) returns (c: Change)
    ensures Allowed(db, c) && SameBooks(Apply(db, op).db, Do(db, c))
    ensures c.MarkedFailed? <==> FailsPayment(db, op).Some?
    ensures c.MarkedFailed? ==> FailsPayment(db, op) == Some(c.p)
    ensures Apply(db, op).captured == (if c.CaptureMade? then Some(c.p) else None)
    ensures c.NewPayment? ==>
              && op.CreateOp? && c.payment.amount == op.amount && c.payment.key == op.key
              && (c.payment.status == Confirmed <==> BornConfirmed(op))
              && c.payment.status !in {PartiallyRefunded, Refunded, Failed}
    ensures c.NewRefund? ==>
              && op.RefundOp? && c.refund.payment == op.payment
              && c.refund.amount == op.amount && c.refund.key == op.key
              && op.refundAnswer.GatewayRefund? && c.refund.succeeded == op.refundAnswer.success
  {
    hide FindPayment, RefundedTotal, GatewayIdUsed, HasPair, ConfirmIntent, CreateIntent, CreateRefund, HandleWebhook;
    match op
    case CreateOp(booking, amount, key, answer, fault) => c := CreateShape(db, booking, amount, key, answer, fault);
    case ConfirmOp(p, gatewayId, key, capture, fault) => c := ConfirmShape(db, p, gatewayId, key, capture, fault);
    case RefundOp(p, amount, reason, key, answer, fault) => c := RefundShape(db, p, amount, reason, key, answer, fault);
    case WebhookOp(w, capture, fault, marks) => c := WebhookShape(db, w, capture, fault, marks);
    case FailOp(gatewayId) =>
      var found := FindPayment(db.payments, gatewayId);
      c := if found.Some? then MarkedFailed(found.value) else Nothing;
      if found.Some? { FoundInRange(db.payments, gatewayId); }
    case RefreshOp(p) =>
      c := if p < |db.payments| && RefundedTotal(db.refunds, p) > 0 then Recomputed(p) else Nothing;
  }

  // ---------------------------------------------------------------- balances

  function SignedAmount(e: Entry): int { if e.direction == Debit then e.amount else 0 - e.amount }

  /** Debits minus credits of an account for one payment. */
  function Balance(ledger: seq<Entry>, p: nat, account: Account): int {
    if ledger == [] then 0
    else
      var e := ledger[|ledger| - 1];
      Balance(ledger[..|ledger| - 1], p, account)
      + if e.payment == p && e.account == account then SignedAmount(e) else 0
  }

  /** Debits minus credits over the whole ledger. */
  function TrialBalance(ledger: seq<Entry>): int {
    if ledger == [] then 0 else TrialBalance(ledger[..|ledger| - 1]) + SignedAmount(ledger[|ledger| - 1])
  }

  function PaymentEntries(ledger: seq<Entry>, p: nat): nat {
    if ledger == [] then 0
    else
      var e := ledger[|ledger| - 1];
      PaymentEntries(ledger[..|ledger| - 1], p) + if e.payment == p && e.kind == PaymentEntry then 1 else 0
  }

  lemma {:induction false} HasPairCounts(ledger: seq<Entry>, p: nat)
    ensures HasPair(ledger, p) <==> PaymentEntries(ledger, p) > 0
  {
    if ledger != [] {
      var n := |ledger| - 1;
      HasPairCounts(ledger[..n], p);
      var last := ledger[n].payment == p && ledger[n].kind == PaymentEntry;
      assert HasPair(ledger, p) <==> HasPair(ledger[..n], p) || last by {
        if HasPair(ledger[..n], p) {
          var i :| 0 <= i < n && ledger[..n][i].payment == p && ledger[..n][i].kind == PaymentEntry;
          assert ledger[i].payment == p;
        }
        if HasPair(ledger, p) && !last {
          var i :| 0 <= i < |ledger| && ledger[i].payment == p && ledger[i].kind == PaymentEntry;
          assert ledger[..n][i].payment == p;
        }
      }
    }
  }

  lemma {:induction false} Appended(ledger: seq<Entry>, a: Entry, b: Entry, p: nat, account: Account)
    ensures Balance(ledger + [a, b], p, account) ==
            Balance(ledger, p, account)
            + (if a.payment == p && a.account == account then SignedAmount(a) else 0)
            + (if b.payment == p && b.account == account then SignedAmount(b) else 0)
    ensures TrialBalance(ledger + [a, b]) == TrialBalance(ledger) + SignedAmount(a) + SignedAmount(b)
    ensures PaymentEntries(ledger + [a, b], p) ==
            PaymentEntries(ledger, p)
            + (if a.payment == p && a.kind == PaymentEntry then 1 else 0)
            + (if b.payment == p && b.kind == PaymentEntry then 1 else 0)
  {
    var longer, one := ledger + [a, b], ledger + [a];
    assert longer[..|longer| - 1] == one && one[..|ledger|] == ledger;
  }

  function CapturedAmount(db: Db, p: nat): nat
    requires p < |db.payments|
  {
    if HasPair(db.ledger, p) then db.payments[p].amount else 0
  }

  /** The books of one payment: refunds within its amount, at most one payment pair, both accounts at what was captured
      less what was refunded. */
  predicate InBalance(db: Db, p: nat)
    requires p < |db.payments|
  {
    && RefundedTotal(db.refunds, p) <= db.payments[p].amount
    && PaymentEntries(db.ledger, p) in {0, 2}
    && Balance(db.ledger, p, GatewayClearing) == CapturedAmount(db, p) - RefundedTotal(db.refunds, p)
    && Balance(db.ledger, p, CustomerFunds) == RefundedTotal(db.refunds, p) - CapturedAmount(db, p)
  }

  ghost predicate References(db: Db) {
    && (forall i :: 0 <= i < |db.ledger| ==> db.ledger[i].payment < |db.payments|)
    && (forall i :: 0 <= i < |db.ledger| && db.ledger[i].kind.RefundEntry? ==> db.ledger[i].kind.refund < |db.refunds|)
    && (forall i :: 0 <= i < |db.refunds| ==> db.refunds[i].payment < |db.payments|)
  }

  ghost predicate BooksBalance(db: Db) {
    && References(db)
    && TrialBalance(db.ledger) == 0
    && forall p: nat :: p < |db.payments| ==> InBalance(db, p)
  }

  lemma {:induction false} NothingYet(db: Db, p: nat)
    requires References(db) && p >= |db.payments|
    ensures RefundedTotal(db.refunds, p) == 0 && PaymentEntries(db.ledger, p) == 0 && !HasPair(db.ledger, p)
    ensures forall account :: Balance(db.ledger, p, account) == 0
    decreases |db.refunds| + |db.ledger|
  {
    HasPairCounts(db.ledger, p);
    if db.refunds != [] {
      var fewer := db.(refunds := db.refunds[..|db.refunds| - 1], ledger := []);
      NothingYet(fewer, p);
    }
    if db.ledger != [] {
      var shorter := db.(ledger := db.ledger[..|db.ledger| - 1]);
      NothingYet(shorter, p);
    }
  }

  lemma RefundAppended(refunds: seq<Refund>, r: Refund, p: nat)
    ensures RefundedTotal(refunds + [r], p) ==
            RefundedTotal(refunds, p) + if r.payment == p && r.succeeded then r.amount else 0
  {
    assert (refunds + [r])[..|refunds|] == refunds;
  }

  /** A status change alone moves no money. */
  lemma StatusMovesNothing(db: Db, p: nat, status: PaymentStatus)
    requires p < |db.payments| && BooksBalance(db)
    ensures BooksBalance(SetStatus(db, p, status))
  {
    hide RefundedTotal, Balance, TrialBalance, PaymentEntries, HasPair;
    forall q: nat | q < |db.payments| ensures InBalance(SetStatus(db, p, status), q) {
      assert InBalance(db, q);
    }
  }

  lemma CaptureBalances(db: Db, p: nat)
    requires p < |db.payments| && BooksBalance(db)
    ensures BooksBalance(RecordCapture(db, p)) && HasPair(RecordCapture(db, p).ledger, p)
  {
    hide RefundedTotal, Balance, TrialBalance, PaymentEntries;
    StatusMovesNothing(db, p, Confirmed);
    if !HasPair(db.ledger, p) {
      var db', pair := RecordCapture(db, p), PaymentPair(p, db.payments[p].amount);
      Appended(db.ledger, pair[0], pair[1], p, GatewayClearing);
      assert db'.ledger[|db.ledger|] == pair[0];
      forall q: nat | q < |db.payments| ensures InBalance(db', q) {
        assert InBalance(db, q);
        HasPairCounts(db.ledger, q);
        HasPairCounts(db'.ledger, q);
        Appended(db.ledger, pair[0], pair[1], q, GatewayClearing);
        Appended(db.ledger, pair[0], pair[1], q, CustomerFunds);
      }
    }
  }

  lemma RefundBalances(db: Db, r: Refund)
    requires Allowed(db, NewRefund(r)) && BooksBalance(db)
    ensures BooksBalance(RecordRefund(db, r))
  {
    hide RefundedTotal, Balance, TrialBalance, PaymentEntries;
    var db', pair := RecordRefund(db, r), RefundPair(r.payment, |db.refunds|, r.amount);
    assert !HasRefundEntry(db.ledger, |db.refunds|);
    if r.succeeded {
      Appended(db.ledger, pair[0], pair[1], r.payment, GatewayClearing);
    }
    forall q: nat | q < |db.payments| ensures InBalance(db', q) {
      assert InBalance(db, q);
      RefundAppended(db.refunds, r, q);
      HasPairCounts(db.ledger, q);
      HasPairCounts(db'.ledger, q);
      Appended(db.ledger, pair[0], pair[1], q, GatewayClearing);
      Appended(db.ledger, pair[0], pair[1], q, CustomerFunds);
    }
  }

  lemma NewPaymentBalances(db: Db, payment: Payment)
    requires BooksBalance(db)
    ensures BooksBalance(db.(payments := db.payments + [payment]))
  {
    hide RefundedTotal, Balance, TrialBalance, PaymentEntries, HasPair;
    var db' := db.(payments := db.payments + [payment]);
    NothingYet(db, |db.payments|);
    forall q: nat | q < |db'.payments| ensures InBalance(db', q) {
      assert q < |db.payments| ==> InBalance(db, q);
    }
  }

  lemma ChangeKeepsBooks(db: Db, c: Change)
    requires Allowed(db, c) && BooksBalance(db)
    ensures BooksBalance(Do(db, c))
  {
    hide RefundedTotal, Balance, TrialBalance, PaymentEntries, BooksBalance;
    match c
    case Nothing =>
    case NewPayment(payment) => NewPaymentBalances(db, payment);
    case MarkedFailed(p) => StatusMovesNothing(db, p, Failed);
    case CaptureFailed(p) => StatusMovesNothing(db, p, Failed);
    case CaptureMade(p) => CaptureBalances(db, p);
    case Recomputed(p) =>
      StatusMovesNothing(db, p, RefundedStatus(RefundedTotal(db.refunds, p), db.payments[p].amount));
    case NewRefund(r) => RefundBalances(db, r);
  }

  /** Money is conserved in every run: succeeded refunds stay within the payment, no payment is entered twice, every
      account stands at captured less refunded, and debits equal credits. */
  lemma {:induction false} MoneyConserved(ops: seq<Op>)
    ensures BooksBalance(Run(ops))
  {
    hide Apply, Do, Allowed, BooksBalance;
    if ops == [] {
      EmptyBooks();
    } else {
      MoneyConserved(ops[..|ops| - 1]);
      var db := Run(ops[..|ops| - 1]);
      var c := Shape(db, ops[|ops| - 1]);
      ChangeKeepsBooks(db, c);
      SameBooksBalance(Do(db, c), Run(ops));
    }
  }

  lemma EmptyBooks()
    ensures BooksBalance(EMPTY)
  {}

  lemma SameBooksBalance(a: Db, b: Db)
    requires SameBooks(a, b) && BooksBalance(a)
    ensures BooksBalance(b)
  {
    hide RefundedTotal, Balance, TrialBalance, PaymentEntries, HasPair;
    forall p: nat | p < |b.payments| ensures InBalance(b, p) {
      assert InBalance(a, p);
    }
  }
}
