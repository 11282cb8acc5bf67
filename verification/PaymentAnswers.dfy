/** What an operation stores and answers for what the gateway has answered, over one call and over every run. */
module PaymentAnswers {
  import opened Wrappers
  import opened Payments
  import opened PaymentBooks
  import PaymentRuns
  import Idempotency

  /** The key is free for this request: no record, or one left by a failed call with the same request. */
  predicate KeyFree(keys: Keys, s: Scope, k: string, request: Payload) {
    (s, k) in keys ==> keys[(s, k)].payload == request && keys[(s, k)].status == FailedKey
  }

  predicate Commits(fault: Fault) { !fault.Aborts? && !fault.Dies? }

  // ---------------------------------------------------------------- intents

  /** A payment row is created exactly when the call commits, its key is free, and the gateway answers with an id of
      its own; it is for the requested amount, and stands at what the gateway's answer says. */
  lemma IntentCreatedExactlyWhen(db: Db, booking: int, amount: nat, key: string, answer: IntentAnswer, fault: Fault)
    requires Idempotency.KeysSound(db.keys)
    ensures var after := CreateIntent(db, booking, amount, key, answer, fault).db;
            if Commits(fault) && KeyFree(db.keys, CreatingIntent, key, IntentRequest(booking, amount))
               && answer.Intent? && !GatewayIdUsed(db.payments, answer.gatewayId)
            then
              && |after.payments| == |db.payments| + 1 && after.payments[..|db.payments|] == db.payments
              && var payment := after.payments[|db.payments|];
                 && payment.amount == amount && payment.gatewayId == answer.gatewayId && payment.key == key
                 && payment.status in {Pending, RequiresAction, Processing, Confirmed}
                 && (payment.status == Confirmed <==> answer.status == "succeeded")
                 && (payment.status == Processing <==> answer.status == "processing")
                 && (payment.status == RequiresAction <==> "requires_" <= answer.status)
            else
              after.payments == db.payments
  {
    hide GatewayIdUsed;
    assert !("requires_" <= "succeeded") && !("requires_" <= "processing") by {
      assert "requires_"[0] != "succeeded"[0] && "requires_"[0] != "processing"[0];
    }
  }

  // ---------------------------------------------------------------- captures

  /** A confirmation that commits under a free key, for a payment not settled, takes the gateway's word: confirmed if
      the capture succeeded, failed if it was declined; the answer is the payment as stored. */
  lemma CaptureDecides(db: Db, p: nat, gatewayId: Option<string>, key: string, success: bool, fault: Fault)
    requires p < |db.payments| && !Settled(db.payments[p].status) && Commits(fault)
    requires KeyFree(db.keys, Confirming(p), key, ConfirmRequest(p, gatewayId))
    ensures var e := ConfirmIntent(db, p, gatewayId, key, Captured(success), fault);
            && e.db.payments == db.payments[p := db.payments[p].(status := if success then Confirmed else Failed)]
            && e.db.refunds == db.refunds
            && (!success ==> e.db.ledger == db.ledger)
            && (fault.NoFault? ==> e.response == Answer(PaymentBody(p, e.db.payments[p])))
  {
    hide HasPair;
  }

  // ---------------------------------------------------------------- answers under a key

  predicate Keyed(op: Op) { op.CreateOp? || op.ConfirmOp? || op.RefundOp? }

  /** Whatever a call is answered is what its key holds: the caller of a repeated call gets what the first caller
      got. */
  lemma AnswerIsStored(db: Db, op: Op)
    requires Keyed(op) && Apply(db, op).response.Answer?
    ensures var e, call := Apply(db, op), Idempotency.CallOf(db, op);
            && (call.scope, call.key) in e.db.keys
            && e.db.keys[(call.scope, call.key)] == KeyRecord(call.request, Completed, Some(e.response.body))
  {
    hide RefundedTotal, GatewayIdUsed, HasPair, HasRefundEntry, RefundIdUsed;
  }

  /** A call whose key is in use, for another request or by a call still in progress, is refused and moves nothing. */
  lemma KeyInUseRefuses(db: Db, op: Op)
    requires Keyed(op)
    requires var call := Idempotency.CallOf(db, op);
             && (call.scope, call.key) in db.keys
             && var record := db.keys[(call.scope, call.key)];
                record.payload != call.request || record.status == InProgress
    ensures Apply(db, op).response == Raised && Apply(db, op).captured == None
    ensures SameBooks(Apply(db, op).db, db) && Apply(db, op).db.webhooks == db.webhooks
  {
    hide RefundedTotal, GatewayIdUsed, HasPair, HasRefundEntry, RefundIdUsed;
  }

  // ---------------------------------------------------------------- refunds

  /** A refund row is stored exactly when the call commits, its key is free, the payment is confirmed or refunded in
      part, the refunds so far leave room for it, and the gateway answers with a refund id not used before. It
      succeeded exactly if the gateway said so; a declined one leaves payments and ledger as they were. */
  lemma RefundStoredExactlyWhen(db: Db, p: nat, amount: nat, reason: string, key: string, answer: RefundAnswer,
                                fault: Fault)
    requires Idempotency.KeysSound(db.keys)
    ensures var after := CreateRefund(db, p, amount, reason, key, answer, fault).db;
            if && Commits(fault) && KeyFree(db.keys, Refunding(p), key, RefundRequest(p, amount, reason))
               && p < |db.payments| && db.payments[p].status in {Confirmed, PartiallyRefunded}
               && RefundedTotal(db.refunds, p) + amount <= db.payments[p].amount
               && answer.GatewayRefund? && !RefundIdUsed(db.refunds, answer.refundId)
            then
              && after.refunds == db.refunds + [Refund(p, amount, answer.success, answer.refundId, key)]
              && (!answer.success ==> after.payments == db.payments && after.ledger == db.ledger)
            else
              SameBooks(after, db)
  {
    hide RefundedTotal, HasRefundEntry, RefundIdUsed;
  }

  /** A refund the gateway declines, or does not answer, moves no money, whatever the state, the key and the fault. */
  lemma NotPaidBackMovesNothing(db: Db, p: nat, amount: nat, reason: string, key: string, answer: RefundAnswer,
                                fault: Fault,
                                q: nat)
    requires answer.RefundRaises? || !answer.success
    ensures var after := CreateRefund(db, p, amount, reason, key, answer, fault).db;
            && after.payments == db.payments && after.ledger == db.ledger
            && RefundedTotal(after.refunds, q) == RefundedTotal(db.refunds, q)
  {
    hide RefundedTotal, HasRefundEntry, RefundIdUsed;
    if answer.GatewayRefund? {
      RefundAppended(db.refunds, Refund(p, amount, false, answer.refundId, key), q);
    }
  }

  /** The operation stored a refund of the payment. */
  predicate StoresRefund(db: Db, op: Op, p: nat) {
    op.RefundOp? && op.payment == p && |Apply(db, op).db.refunds| > |db.refunds|
  }

  predicate AnsweredWithSuccess(op: Op) { op.RefundOp? && op.refundAnswer.GatewayRefund? && op.refundAnswer.success }

  /** The amounts the gateway has said it paid back, over the operations of a run that stored a refund of the
      payment. */
  function PaidBack(ops: seq<Op>, p: nat): nat {
    if ops == [] then 0
    else
      var op := ops[|ops| - 1];
      PaidBack(ops[..|ops| - 1], p)
      + if StoresRefund(Run(ops[..|ops| - 1]), op, p) && AnsweredWithSuccess(op)
        then op.amount else 0
  }

  /** Over every run, what counts as refunded is what the gateway has said it paid back. */
  lemma {:induction false} RefundedIsPaidBack(ops: seq<Op>, p: nat)
    ensures RefundedTotal(Run(ops).refunds, p) == PaidBack(ops, p)
  {
    hide Apply, RefundedTotal, Allowed;
    if ops == [] {
      NothingRefunded(p);
    } else {
      var db, op := Run(ops[..|ops| - 1]), ops[|ops| - 1];
      RefundedIsPaidBack(ops[..|ops| - 1], p);
      var c := Shape(db, op);
      ChangeRefunds(db, c, p);
    }
  }

  lemma NothingRefunded(p: nat)
    ensures RefundedTotal([], p) == 0
  {}

  lemma ChangeRefunds(db: Db, c: Change, p: nat)
    requires Allowed(db, c)
    ensures if c.NewRefund? then
              && |Do(db, c).refunds| == |db.refunds| + 1
              && RefundedTotal(Do(db, c).refunds, p) ==
                   RefundedTotal(db.refunds, p)
                   + if c.refund.payment == p && c.refund.succeeded then c.refund.amount else 0
            else Do(db, c).refunds == db.refunds
  {
    hide RefundedTotal, HasPair, HasRefundEntry, GatewayIdUsed;
    if c.NewRefund? {
      RefundAppended(db.refunds, c.refund, p);
    }
  }

  // ---------------------------------------------------------------- recomputed statuses

  /** Recomputing the status of a payment, whatever it was, brings it in line with the refunds if there are any, and
      changes nothing else; without refunds, or without the payment, it changes nothing at all. */
  lemma RefreshRecomputes(db: Db, p: nat)
    requires BooksBalance(db) && (p < |db.payments| ==> db.payments[p].amount >= 1)
    ensures var after := RefreshStatus(db, p).db;
            if p < |db.payments| && RefundedTotal(db.refunds, p) > 0 then
              && |after.payments| == |db.payments| && PaymentRuns.StatusFits(after, p)
              && after.payments[p].status in {Refunded, PartiallyRefunded}
              && after == db.(payments := db.payments[p := after.payments[p]])
              && after.payments[p].amount == db.payments[p].amount
            else after == db
  {
    hide RefundedTotal, HasPair, Balance, TrialBalance, PaymentEntries;
    if p < |db.payments| {
      assert InBalance(db, p);
    }
  }

  /** The same through a delivered event that reports a refund. */
  lemma RefundReportRecomputes(db: Db, w: Webhook, capture: Capture, fault: Fault, marks: bool)
    requires BooksBalance(db) && w.kind == PaymentRefunded && Dispatches(db, w)
    requires FindPayment(db.payments, w.gatewayId.value).Some?
    requires var p := FindPayment(db.payments, w.gatewayId.value).value;
             db.payments[p].amount >= 1 && RefundedTotal(db.refunds, p) > 0
    ensures var p := FindPayment(db.payments, w.gatewayId.value).value;
            var after := HandleWebhook(db, w, capture, fault, marks).db;
            && |after.payments| == |db.payments| && PaymentRuns.StatusFits(after, p)
            && after.refunds == db.refunds && after.ledger == db.ledger
  {
    hide FindPayment, RefundedTotal, RefreshStatus, BooksBalance, InBalance;
    var p, id := FindPayment(db.payments, w.gatewayId.value).value, (w.gateway, w.eventId);
    var known := if id in db.webhooks then db else db.(webhooks := db.webhooks[id := false]);
    SameBooksBalance(db, known);
    RefreshRecomputes(known, p);
  }

  /** So after any run, a payment with refunds stands at the status they call for once it has been recomputed, a failure
      report in between or not. */
  lemma RecomputedAfterAnyRun(ops: seq<Op>, p: nat)
    requires p < |Run(ops).payments| && Run(ops).payments[p].amount >= 1 && RefundedTotal(Run(ops).refunds, p) > 0
    ensures var after := Run(ops + [RefreshOp(p)]);
            p < |after.payments| && PaymentRuns.StatusFits(after, p) && after.refunds == Run(ops).refunds
  {
    hide RefundedTotal, RefreshStatus, BooksBalance;
    MoneyConserved(ops);
    RefreshRecomputes(Run(ops), p);
    assert (ops + [RefreshOp(p)])[..|ops|] == ops;
  }
}
