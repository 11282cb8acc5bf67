/**
 The payment, refund and webhook services as classes over one database. A transaction that does not commit puts the
 database back as it was; the error handler then marks the key, outside the transaction.
 */
module PaymentServices {
  import opened Wrappers
  import opened Payments
  import PaymentAnswers

  class PaymentDatabase {
    var payments: seq<Payment>
    var refunds: seq<Refund>
    var ledger: seq<Entry>
    var keys: Keys
    var webhooks: map<(string, string), bool>

    function View(): Db
      reads this
    {
      Db(payments, refunds, ledger, keys, webhooks)
    }

    constructor ()
      ensures View() == EMPTY
    {
      payments, refunds, ledger, keys, webhooks := [], [], [], map[], map[];
    }

    method Rollback(snapshot: Db)
      modifies this
      ensures View() == snapshot
    {
      payments, refunds, ledger := snapshot.payments, snapshot.refunds, snapshot.ledger;
      keys, webhooks := snapshot.keys, snapshot.webhooks;
    }
  }

  /** The keys when a claim was granted: a new record is in progress, a failed one is taken over as it is. */
  function Claimed(keys: Keys, scope: Scope, key: string, payload: Payload): Keys {
    if (scope, key) in keys then keys else keys[(scope, key) := KeyRecord(payload, InProgress, None)]
  }

  lemma CompletedClaim(keys: Keys, scope: Scope, key: string, payload: Payload, body: Body)
    requires ClaimKey(keys, scope, key, payload).Fresh?
    ensures var claimed := Claimed(keys, scope, key, payload);
            && (scope, key) in claimed && claimed[(scope, key)].payload == payload
            && claimed[(scope, key) := KeyRecord(payload, Completed, Some(body))] ==
               CompleteKey(keys, scope, key, payload, body)
  {}

  class IdempotencyService {
    const db: PaymentDatabase

    constructor (db: PaymentDatabase)
      ensures this.db == db
    {
      this.db := db;
    }

    method Claim(scope: Scope, key: string, payload: Payload) returns (claim: Claim)
      modifies db
      ensures claim == ClaimKey(old(db.keys), scope, key, payload)
      ensures db.View() == old(db.View()).(keys :=
                if claim.Fresh? then Claimed(old(db.keys), scope, key, payload) else old(db.keys))
    {
      var id := (scope, key);
      if id in db.keys {
        var existing := db.keys[id];
        if existing.payload != payload {
          return Refused;
        }
        if existing.status == Completed && existing.body.Some? {
          return Replay(existing.body.value);
        }
        if existing.status == InProgress {
          return Refused;
        }
      } else {
        db.keys := db.keys[id := KeyRecord(payload, InProgress, None)];
      }
      return Fresh;
    }

    method Complete(scope: Scope, key: string, body: Body)
      requires (scope, key) in db.keys
      modifies db
      ensures db.View() == old(db.View()).(keys :=
                old(db.keys)[(scope, key) := KeyRecord(old(db.keys)[(scope, key)].payload, Completed, Some(body))])
    {
      var record := db.keys[(scope, key)];
      db.keys := db.keys[(scope, key) := record.(status := Completed, body := Some(body))];
    }

    method MarkAsFailed(scope: Scope, key: string)
      modifies db
      ensures db.View() == old(db.View()).(keys := MarkFailed(old(db.keys), scope, key))
    {
      if (scope, key) in db.keys {
        db.keys := db.keys[(scope, key) := db.keys[(scope, key)].(status := FailedKey)];
      }
    }

    /** The end of a transaction begun at `snapshot`: it commits, or everything is put back and the error handler
        runs. */
    method Finish(snapshot: Db, scope: Scope, key: string, inside: Response, fault: Fault) returns (response: Response)
      modifies db
      ensures if fault.Dies? then db.View() == snapshot && response == Raised
              else if fault.Aborts? || inside.Raised? then
                db.View() == snapshot.(keys := MarkFailed(snapshot.keys, scope, key)) && response == Raised
              else db.View() == old(db.View()) && response == inside
    {
      response := inside;
      if fault.Aborts? || fault.Dies? || inside.Raised? {
        db.Rollback(snapshot);
        response := Raised;
        if !fault.Dies? {
          MarkAsFailed(scope, key);
        }
      }
    }
  }

  class PaymentService {
    const db: PaymentDatabase
    const idempotency: IdempotencyService

    predicate Valid() { idempotency.db == db }

    constructor (db: PaymentDatabase)
      ensures Valid() && this.db == db && fresh(idempotency)
    {
      this.db := db;
      idempotency := new IdempotencyService(db);
    }

    method CreateIntentInside(booking: int, amount: nat, key: string, answer: IntentAnswer) returns (response: Response)
      requires Valid()
      modifies db
      ensures var tx := IntentTransaction(old(db.View()), booking, amount, key, answer);
              if tx.Err? then response == Raised
              else !response.Raised? && db.View() == tx.value.db && response == tx.value.response
    {
      var request := IntentRequest(booking, amount);
      ghost var before := db.keys;
      var claim := idempotency.Claim(CreatingIntent, key, request);
      if claim.Replay? {
        return Answer(claim.body);
      }
      if claim.Refused? || answer.IntentRaises? || GatewayIdUsed(db.payments, answer.gatewayId) {
        return Raised;
      }
      var payment := Payment(amount, answer.gatewayId, MapGatewayIntentStatus(answer.status), key);
      var body := PaymentBody(|db.payments|, payment);
      db.payments := db.payments + [payment];
      CompletedClaim(before, CreatingIntent, key, request, body);
      idempotency.Complete(CreatingIntent, key, body);
      return Answer(body);
    }

    method CreatePaymentIntent(booking: int, amount: nat, key: string, answer: IntentAnswer, fault: Fault)
      returns (response: Response)
      requires Valid()
      modifies db
      ensures var e := CreateIntent(old(db.View()), booking, amount, key, answer, fault);
              db.View() == e.db && response == e.response
    {
      hide IntentTransaction;
      var snapshot := db.View();
      response := CreateIntentInside(booking, amount, key, answer);
      response := idempotency.Finish(snapshot, CreatingIntent, key, response, fault);
    }

    method CreatePaymentLedgerEntries(p: nat)
      requires p < |db.payments|
      modifies db
      ensures db.View() == if HasPair(old(db.ledger), p) then old(db.View())
                           else old(db.View()).(ledger := old(db.ledger) + PaymentPair(p, old(db.payments)[p].amount))
    {
      if !HasPair(db.ledger, p) {
        var amount := db.payments[p].amount;
        db.ledger := db.ledger + [Entry(p, PaymentEntry, GatewayClearing, Debit, amount),
                                  Entry(p, PaymentEntry, CustomerFunds, Credit, amount)];
      }
    }

    method ConfirmInside(p: nat, gatewayId: Option<string>, key: string, capture: Capture)
      returns (response: Response, captured: bool)
      requires Valid()
      modifies db
      ensures var tx := ConfirmTransaction(old(db.View()), p, gatewayId, key, capture);
              if tx.Err? then response == Raised
              else
                && !response.Raised? && db.View() == tx.value.db && response == tx.value.response
                && captured == tx.value.captured.Some?
    {
      var request := ConfirmRequest(p, gatewayId);
      ghost var before := db.keys;
      captured := false;
      var claim := idempotency.Claim(Confirming(p), key, request);
      if claim.Replay? {
        return Answer(claim.body), false;
      }
      if claim.Refused? || p >= |db.payments| {
        return Raised, false;
      }
      var payment := db.payments[p];
      if !Settled(payment.status) {
        if capture.CaptureRaises? {
          return Raised, false;
        }
        payment := payment.(status := if capture.success then Confirmed else Failed);
        db.payments := db.payments[p := payment];
        if capture.success {
          CreatePaymentLedgerEntries(p);
          captured := true;
        }
      }
      CompletedClaim(before, Confirming(p), key, request, PaymentBody(p, payment));
      idempotency.Complete(Confirming(p), key, PaymentBody(p, payment));
      return Answer(PaymentBody(p, payment)), captured;
    }

    method ConfirmPaymentIntent(p: nat, gatewayId: Option<string>, key: string, capture: Capture, fault: Fault)
      returns (response: Response)
      requires Valid()
      modifies db
      ensures var e := ConfirmIntent(old(db.View()), p, gatewayId, key, capture, fault);
              db.View() == e.db && response == e.response
    {
      hide ConfirmTransaction;
      var snapshot := db.View();
      var captured;
      response, captured := ConfirmInside(p, gatewayId, key, capture);
      response := idempotency.Finish(snapshot, Confirming(p), key, response, fault);
      if !response.Raised? {
        if captured && fault.PublishFails? {
          idempotency.MarkAsFailed(Confirming(p), key);
          response := Raised;
        } else if fault.DiesAfterCommit? {
          response := Raised;
        }
      }
    }

    method MarkPaymentFailedByGatewayId(gatewayId: string) returns (response: Response)
      modifies db
      ensures var e := FailPayment(old(db.View()), gatewayId);
              db.View() == e.db && response == e.response
    {
      var found := FindPayment(db.payments, gatewayId);
      if found.None? {
        return Raised;
      }
      db.payments := db.payments[found.value := db.payments[found.value].(status := Failed)];
      return Done;
    }

    method RefreshRefundedStatus(p: nat) returns (response: Response)
      modifies db
      ensures var e := RefreshStatus(old(db.View()), p);
              db.View() == e.db && response == e.response
      ensures p < |old(db.payments)| && RefundedTotal(old(db.refunds), p) > 0 ==>
                var total, amount := RefundedTotal(old(db.refunds), p), old(db.payments)[p].amount;
                && |db.payments| == |old(db.payments)|
                && (total < amount ==> db.payments[p].status == PartiallyRefunded)
                && (total >= amount ==> db.payments[p].status == Refunded)
    {
      if p >= |db.payments| {
        return Raised;
      }
      var refunded := RefundedTotal(db.refunds, p);
      if refunded > 0 {
        var payment := db.payments[p];
        var status := if refunded >= payment.amount then Refunded else PartiallyRefunded;
        db.payments := db.payments[p := payment.(status := status)];
      }
      return Done;
    }
  }

  class RefundService {
    const db: PaymentDatabase
    const idempotency: IdempotencyService

    predicate Valid() { idempotency.db == db }

    constructor (db: PaymentDatabase)
      ensures Valid() && this.db == db && fresh(idempotency)
    {
      this.db := db;
      idempotency := new IdempotencyService(db);
    }

    method CreateRefundLedgerEntries(p: nat, refund: nat, amount: nat)
      modifies db
      ensures db.View() == if HasRefundEntry(old(db.ledger), refund) then old(db.View())
                           else old(db.View()).(ledger := old(db.ledger) + RefundPair(p, refund, amount))
    {
      if !HasRefundEntry(db.ledger, refund) {
        db.ledger := db.ledger + [Entry(p, RefundEntry(refund), CustomerFunds, Debit, amount),
                                  Entry(p, RefundEntry(refund), GatewayClearing, Credit, amount)];
      }
    }

    method StoreRefund(refund: Refund)
      requires refund.payment < |db.payments|
      modifies db
      ensures db.View() == RecordRefund(old(db.View()), refund)
    {
      var p := refund.payment;
      var alreadyRefunded, id := RefundedTotal(db.refunds, p), |db.refunds|;
      db.refunds := db.refunds + [refund];
      if refund.succeeded {
        var payment := db.payments[p];
        var total := alreadyRefunded + refund.amount;
        var status := if total >= payment.amount then Refunded else PartiallyRefunded;
        db.payments := db.payments[p := payment.(status := status)];
        CreateRefundLedgerEntries(p, id, refund.amount);
      }
    }

    method RefundInside(p: nat, amount: nat, reason: string, key: string,
                        answer: RefundAnswer) returns (response: Response)
      requires Valid()
      modifies db
      ensures var tx := RefundTransaction(old(db.View()), p, amount, reason, key, answer);
              if tx.Err? then response == Raised
              else !response.Raised? && db.View() == tx.value.db && response == tx.value.response
    {
      hide RecordRefund, RefundedTotal;
      var request := RefundRequest(p, amount, reason);
      ghost var before := db.View();
      var claim := idempotency.Claim(Refunding(p), key, request);
      if claim.Replay? {
        return Answer(claim.body);
      }
      if claim.Refused? || p >= |db.payments| || db.payments[p].status !in {Confirmed, PartiallyRefunded} {
        return Raised;
      }
      var refundable := db.payments[p].amount - RefundedTotal(db.refunds, p);
      if amount > refundable || answer.RefundRaises? || RefundIdUsed(db.refunds, answer.refundId) {
        return Raised;
      }
      var refund := Refund(p, amount, answer.success, answer.refundId, key);
      var body := RefundBody(|db.refunds|, refund);
      RecordLeavesKeys(before, refund, db.keys);
      StoreRefund(refund);
      CompletedClaim(before.keys, Refunding(p), key, request, body);
      idempotency.Complete(Refunding(p), key, body);
      return Answer(body);
    }

    method CreateRefund(p: nat, amount: nat, reason: string, key: string, answer: RefundAnswer, fault: Fault)
      returns (response: Response)
      requires Valid()
      modifies db
      ensures var e := Payments.CreateRefund(old(db.View()), p, amount, reason, key, answer, fault);
              db.View() == e.db && response == e.response
      ensures answer.RefundRaises? || !answer.success ==>
                db.payments == old(db.payments) && db.ledger == old(db.ledger)
                && RefundedTotal(db.refunds, p) == RefundedTotal(old(db.refunds), p)
    {
      hide RefundTransaction, RefundedTotal;
      if answer.RefundRaises? || !answer.success {
        PaymentAnswers.NotPaidBackMovesNothing(db.View(), p, amount, reason, key, answer, fault, p);
      }
      var snapshot := db.View();
      response := RefundInside(p, amount, reason, key, answer);
      response := idempotency.Finish(snapshot, Refunding(p), key, response, fault);
    }
  }

  /** Storing a refund neither reads nor writes the keys. */
  lemma RecordLeavesKeys(db: Db, r: Refund, keys: Keys)
    requires r.payment < |db.payments|
    ensures RecordRefund(db.(keys := keys), r) == RecordRefund(db, r).(keys := keys)
    ensures RecordRefund(db, r).keys == db.keys
  {
    hide RefundedTotal, HasRefundEntry;
  }

  class WebhookService {
    const db: PaymentDatabase
    const paymentService: PaymentService

    predicate Valid() { paymentService.db == db && paymentService.Valid() }

    constructor (paymentService: PaymentService)
      requires paymentService.Valid()
      ensures Valid() && this.paymentService == paymentService
    {
      db := paymentService.db;
      this.paymentService := paymentService;
    }

    method ProcessWebhookEvent(w: Webhook, capture: Capture, fault: Fault) returns (response: Response)
      requires Valid()
      modifies db
      ensures var e := ProcessWebhook(old(db.View()), w, capture, fault);
              db.View() == e.db && response == e.response
    {
      hide FindPayment, ConfirmIntent, FailPayment, RefreshStatus, WebhookKey;
      if w.gatewayId.None? {
        return Done;
      }
      var found := FindPayment(db.payments, w.gatewayId.value);
      if w.kind == PaymentSucceeded {
        if found.None? {
          return Raised;
        }
        response := paymentService.ConfirmPaymentIntent(found.value, w.gatewayId, WebhookKey(w), capture, fault);
      } else if w.kind == PaymentFailed {
        response := paymentService.MarkPaymentFailedByGatewayId(w.gatewayId.value);
      } else if w.kind == PaymentRefunded {
        if found.None? {
          return Raised;
        }
        response := paymentService.RefreshRefundedStatus(found.value);
      } else {
        response := Done;
      }
    }

    method HandleWebhook(w: Webhook, capture: Capture, fault: Fault, marks: bool) returns (response: Response)
      requires Valid()
      modifies db
      ensures var e := Payments.HandleWebhook(old(db.View()), w, capture, fault, marks);
              db.View() == e.db && response == e.response
    {
      hide ProcessWebhook;
      var id := (w.gateway, w.eventId);
      if id !in db.webhooks {
        db.webhooks := db.webhooks[id := false];
      }
      if db.webhooks[id] {
        return Done;
      }
      response := ProcessWebhookEvent(w, capture, fault);
      if response.Raised? || !marks {
        return Raised;
      }
      db.webhooks := db.webhooks[id := true];
      return Done;
    }
  }
}
