/** What an idempotency key promises about rows and answers, over every run of the payment operations. */
module Idempotency {
  import opened Wrappers
  import opened Payments
  import opened PaymentBooks

  // ---------------------------------------------------------------- keys and the calls made under them

  /** The key a call goes by, the request it makes and where it fails. */
  datatype Call = NoKey | Call(scope: Scope, key: string, request: Payload, fault: Fault)

  function CallOf(db: Db, op: Op): Call {
    match op
    case CreateOp(booking, amount, key, _, fault) => Call(CreatingIntent, key, IntentRequest(booking, amount), fault)
    case ConfirmOp(p, gatewayId, key, _, fault) => Call(Confirming(p), key, ConfirmRequest(p, gatewayId), fault)
    case RefundOp(p, amount, reason, key, _, fault) => Call(Refunding(p), key, RefundRequest(p, amount, reason), fault)
    case WebhookOp(w, _, fault, _) =>
      if w.kind == PaymentSucceeded && Dispatches(db, w) && FindPayment(db.payments, w.gatewayId.value).Some? then
        var p := FindPayment(db.payments, w.gatewayId.value).value;
        Call(Confirming(p), WebhookKey(w), ConfirmRequest(p, w.gatewayId), fault)
      else NoKey
    case _ => NoKey
  }

  predicate Goes(call: Call, s: Scope, k: string) { call.Call? && call.scope == s && call.key == k }

  predicate IsDone(keys: Keys, s: Scope, k: string) { (s, k) in keys && keys[(s, k)].status == Completed }

  /** Rows committed under a key: payments for the creation of an intent, refunds of its payment for a refund. */
  function RowsUnder(db: Db, s: Scope, k: string): nat {
    match s
    case CreatingIntent => PaymentRows(db.payments, k)
    case Refunding(p) => RefundRows(db.refunds, p, k)
    case Confirming(_) => 0
  }

  function PaymentRows(payments: seq<Payment>, k: string): nat {
    if payments == [] then 0
    else PaymentRows(payments[..|payments| - 1], k) + if payments[|payments| - 1].key == k then 1 else 0
  }

  function RefundRows(refunds: seq<Refund>, p: nat, k: string): nat {
    if refunds == [] then 0
    else
      var r := refunds[|refunds| - 1];
      RefundRows(refunds[..|refunds| - 1], p, k) + if r.payment == p && r.key == k then 1 else 0
  }

  lemma {:induction false} StatusKeepsRows(payments: seq<Payment>, p: nat, status: PaymentStatus, k: string)
    requires p < |payments|
    ensures PaymentRows(payments[p := payments[p].(status := status)], k) == PaymentRows(payments, k)
  {
    var n, moved := |payments| - 1, payments[p := payments[p].(status := status)];
    if p < n {
      StatusKeepsRows(payments[..n], p, status, k);
      assert moved[..n] == payments[..n][p := payments[p].(status := status)];
    } else {
      assert moved[..n] == payments[..n];
    }
  }

  lemma OnePaymentMore(payments: seq<Payment>, payment: Payment, k: string)
    ensures PaymentRows(payments + [payment], k) == PaymentRows(payments, k) + if payment.key == k then 1 else 0
  {
    assert (payments + [payment])[..|payments|] == payments;
  }

  lemma OneRefundMore(refunds: seq<Refund>, r: Refund, p: nat, k: string)
    ensures RefundRows(refunds + [r], p, k) == RefundRows(refunds, p, k) + if r.payment == p && r.key == k then 1 else 0
  {
    assert (refunds + [r])[..|refunds|] == refunds;
  }

  // ---------------------------------------------------------------- one call

  /** No committed record is in progress, and every one holds an answer. */
  ghost predicate KeysSound(keys: Keys) {
    forall id :: id in keys ==> keys[id].status != InProgress && keys[id].body.Some?
  }

  lemma CreateKeepsKeys(db: Db, booking: int, amount: nat, key: string, answer: IntentAnswer, fault: Fault, s: Scope,
                        k: string)
    requires KeysSound(db.keys)
    ensures var after := CreateIntent(db, booking, amount, key, answer, fault).db;
            && KeysSound(after.keys)
            && ((s, k) != (CreatingIntent, key) ==> SameRecord(db.keys, after.keys, s, k))
  {}

  predicate SameRecord(a: Keys, b: Keys, s: Scope, k: string) {
    ((s, k) in a <==> (s, k) in b) && ((s, k) in a ==> a[(s, k)] == b[(s, k)])
  }

  lemma OneRecordChanges(keys: Keys, scope: Scope, key: string, payload: Payload, body: Body, s: Scope, k: string)
    requires KeysSound(keys)
    ensures KeysSound(MarkFailed(keys, scope, key)) && KeysSound(CompleteKey(keys, scope, key, payload, body))
    ensures (s, k) != (scope, key) ==>
              SameRecord(keys, MarkFailed(keys, scope, key), s, k) &&
                SameRecord(keys, CompleteKey(keys, scope, key, payload, body), s, k)
  {}

  lemma ConfirmKeepsKeys(db: Db, p: nat, gatewayId: Option<string>, key: string, capture: Capture, fault: Fault,
                         s: Scope, k: string)
    requires KeysSound(db.keys)
    ensures var after := ConfirmIntent(db, p, gatewayId, key, capture, fault).db;
            && KeysSound(after.keys)
            && ((s, k) != (Confirming(p), key) ==> SameRecord(db.keys, after.keys, s, k))
  {
    hide HasPair, KeysSound, MarkFailed, CompleteKey, SameRecord;
    SelfSame(db.keys, s, k);
    var scope, request, tx := Confirming(p), ConfirmRequest(p, gatewayId),
        ConfirmTransaction(db, p, gatewayId, key, capture);
    if tx.Ok? && tx.value.response.Answer? {
      OneRecordChanges(db.keys, scope, key, request, tx.value.response.body, s, k);
      OneRecordChanges(tx.value.db.keys, scope, key, request, tx.value.response.body, s, k);
      SameTwice(db.keys, tx.value.db.keys, MarkFailed(tx.value.db.keys, scope, key), s, k);
    } else {
      OneRecordChanges(db.keys, scope, key, request, PaymentBody(p, Payment(0, "", Pending, "")), s, k);
    }
  }

  lemma SelfSame(keys: Keys, s: Scope, k: string)
    ensures SameRecord(keys, keys, s, k)
  {}

  lemma SameTwice(a: Keys, b: Keys, c: Keys, s: Scope, k: string)
    ensures SameRecord(a, b, s, k) && SameRecord(b, c, s, k) ==> SameRecord(a, c, s, k)
  {}

  lemma RefundKeepsKeys(db: Db, p: nat, amount: nat, reason: string, key: string, answer: RefundAnswer, fault: Fault,
                        s: Scope, k: string)
    requires KeysSound(db.keys)
    ensures var after := CreateRefund(db, p, amount, reason, key, answer, fault).db;
            && KeysSound(after.keys)
            && ((s, k) != (Refunding(p), key) ==> SameRecord(db.keys, after.keys, s, k))
  {
    hide RefundedTotal, HasRefundEntry;
  }

  /** A call leaves every key but its own alone, and no key in progress. */
  lemma CallKeepsKeys(db: Db, op: Op, s: Scope, k: string)
    requires KeysSound(db.keys)
    ensures KeysSound(Apply(db, op).db.keys)
    ensures Goes(CallOf(db, op), s, k) || SameRecord(db.keys, Apply(db, op).db.keys, s, k)
  {
    hide FindPayment, RefundedTotal, GatewayIdUsed, HasPair, ConfirmIntent, CreateIntent, CreateRefund, WebhookKey;
    match op
    case CreateOp(booking, amount, key, answer, fault) =>
      CreateKeepsKeys(db, booking, amount, key, answer, fault, s, k);
    case ConfirmOp(p, gatewayId, key, capture, fault) => ConfirmKeepsKeys(db, p, gatewayId, key, capture, fault, s, k);
    case RefundOp(p, amount, reason, key, answer, fault) =>
      RefundKeepsKeys(db, p, amount, reason, key, answer, fault, s, k);
    case FailOp(gatewayId) =>
      if FindPayment(db.payments, gatewayId).Some? { FoundInRange(db.payments, gatewayId); }
    case RefreshOp(p) =>
    case WebhookOp(w, capture, fault, marks) => DeliveryKeepsKeys(db, w, capture, fault, marks, s, k);
  }

  lemma DeliveryKeepsKeys(db: Db, w: Webhook, capture: Capture, fault: Fault, marks: bool, s: Scope, k: string)
    requires KeysSound(db.keys)
    ensures KeysSound(HandleWebhook(db, w, capture, fault, marks).db.keys)
    ensures Goes(CallOf(db, WebhookOp(w, capture, fault, marks)), s, k)
            || SameRecord(db.keys, HandleWebhook(db, w, capture, fault, marks).db.keys, s, k)
  {
    hide FindPayment, ProcessWebhook, WebhookKey, KeysSound, SameRecord;
    SelfSame(db.keys, s, k);
    var id := (w.gateway, w.eventId);
    var known := if id in db.webhooks then db else db.(webhooks := db.webhooks[id := false]);
    ProcessingKeepsKeys(known, w, capture, fault, s, k);
  }

  lemma ProcessingKeepsKeys(db: Db, w: Webhook, capture: Capture, fault: Fault, s: Scope, k: string)
    requires KeysSound(db.keys)
    ensures KeysSound(ProcessWebhook(db, w, capture, fault).db.keys)
    ensures (&& k == WebhookKey(w) && w.kind == PaymentSucceeded && w.gatewayId.Some?
             && FindPayment(db.payments, w.gatewayId.value).Some?
             && s == Confirming(FindPayment(db.payments, w.gatewayId.value).value))
            || SameRecord(db.keys, ProcessWebhook(db, w, capture, fault).db.keys, s, k)
  {
    hide FindPayment, ConfirmIntent, FailPayment, RefreshStatus, WebhookKey, KeysSound, SameRecord;
    SelfSame(db.keys, s, k);
    if w.gatewayId.Some? {
      StatusesKeepKeys(db, w.gatewayId.value);
      var found := FindPayment(db.payments, w.gatewayId.value);
      if found.Some? && w.kind == PaymentSucceeded {
        ConfirmKeepsKeys(db, found.value, w.gatewayId, WebhookKey(w), capture, fault, s, k);
      }
    }
  }

  lemma StatusesKeepKeys(db: Db, gatewayId: string)
    ensures FailPayment(db, gatewayId).db.keys == db.keys
    ensures FindPayment(db.payments, gatewayId).Some? ==>
            RefreshStatus(db, FindPayment(db.payments, gatewayId).value).db.keys == db.keys
  {
    hide RefundedTotal;
  }

  /** A call that finds its key's work done and undoes the record: the transaction aborts, or the request is another
      one. */
  predicate Forgets(db: Db, op: Op, s: Scope, k: string) {
    var call := CallOf(db, op);
    && IsDone(db.keys, s, k) && Goes(call, s, k) && !call.fault.Dies?
    && (call.fault.Aborts? || call.request != db.keys[(s, k)].payload)
  }

  function Counts(b: bool): nat { if b then 1 else 0 }

  /** What one call does to its own key and the rows under it: it adds a row exactly when it completes a key that was
      not done, and a key that was done stays as it is unless the call forgets it. */
  predicate KeptOrDone(db: Db, after: Db, forgets: bool, s: Scope, k: string) {
    && RowsUnder(after, s, k) == RowsUnder(db, s, k) + Counts(!IsDone(db.keys, s, k) && IsDone(after.keys, s, k))
    && (IsDone(db.keys, s, k) ==> if forgets then !IsDone(after.keys, s, k) else SameRecord(db.keys, after.keys, s, k))
  }

  lemma CreateCall(db: Db, booking: int, amount: nat, key: string, answer: IntentAnswer, fault: Fault)
    requires KeysSound(db.keys)
    ensures KeptOrDone(db, CreateIntent(db, booking, amount, key, answer, fault).db,
                       Forgets(db, CreateOp(booking, amount, key, answer, fault), CreatingIntent, key),
                       CreatingIntent, key)
  {
    hide PaymentRows;
    if answer.Intent? {
      OnePaymentMore(db.payments, Payment(amount, answer.gatewayId, MapGatewayIntentStatus(answer.status), key), key);
    }
  }

  lemma RefundCall(db: Db, p: nat, amount: nat, reason: string, key: string, answer: RefundAnswer, fault: Fault)
    requires KeysSound(db.keys)
    ensures KeptOrDone(db, CreateRefund(db, p, amount, reason, key, answer, fault).db,
                       Forgets(db, RefundOp(p, amount, reason, key, answer, fault), Refunding(p), key),
                       Refunding(p), key)
  {
    hide RefundedTotal, HasRefundEntry, RefundRows;
    if answer.GatewayRefund? {
      OneRefundMore(db.refunds, Refund(p, amount, answer.success, answer.refundId, key), p, key);
    }
  }

  /** Rows under keys other than the call's own stay as many as they were. */
  lemma RowsElsewhere(db: Db, op: Op, s: Scope, k: string)
    requires !s.Confirming? && !Goes(CallOf(db, op), s, k)
    ensures RowsUnder(Apply(db, op).db, s, k) == RowsUnder(db, s, k)
  {
    hide Apply, Allowed, PaymentRows, RefundRows, RefundedTotal, HasRefundEntry, HasPair, CallOf;
    var c := Shape(db, op);
    RowsMove(db, op, c, s, k);
  }

  lemma CallScope(db: Db, op: Op)
    ensures op.CreateOp? ==> Goes(CallOf(db, op), CreatingIntent, op.key)
    ensures op.RefundOp? ==> Goes(CallOf(db, op), Refunding(op.payment), op.key)
  {}

  lemma RowsMove(db: Db, op: Op, c: Change, s: Scope, k: string)
    requires Allowed(db, c)
    requires c.NewPayment? ==> op.CreateOp? && c.payment.key == op.key
    requires c.NewRefund? ==> op.RefundOp? && c.refund.payment == op.payment && c.refund.key == op.key
    requires !s.Confirming? && !Goes(CallOf(db, op), s, k)
    ensures RowsUnder(Do(db, c), s, k) == RowsUnder(db, s, k)
  {
    hide Apply, PaymentRows, RefundRows, RefundedTotal, HasRefundEntry, HasPair, CallOf, GatewayIdUsed;
    CallScope(db, op);
    match c
    case Nothing =>
    case NewPayment(payment) => OnePaymentMore(db.payments, payment, k);
    case MarkedFailed(p) => StatusKeepsRows(db.payments, p, Failed, k);
    case CaptureFailed(p) => StatusKeepsRows(db.payments, p, Failed, k);
    case CaptureMade(p) => StatusKeepsRows(db.payments, p, Confirmed, k);
    case Recomputed(p) =>
      StatusKeepsRows(db.payments, p, RefundedStatus(RefundedTotal(db.refunds, p), db.payments[p].amount), k);
    case NewRefund(r) =>
      var total := RefundedTotal(db.refunds, r.payment) + r.amount;
      StatusKeepsRows(db.payments, r.payment, RefundedStatus(total, db.payments[r.payment].amount), k);
      if s.Refunding? { OneRefundMore(db.refunds, r, s.payment, k); }
  }

  /** Every call, under any key: the rows and the record move together. */
  lemma EveryCall(db: Db, op: Op, s: Scope, k: string)
    requires !s.Confirming? && KeysSound(db.keys)
    ensures KeptOrDone(db, Apply(db, op).db, Forgets(db, op, s, k), s, k)
  {
    hide KeysSound, RowsUnder, CreateIntent, CreateRefund, ConfirmIntent, HandleWebhook, FailPayment, RefreshStatus;
    if !Goes(CallOf(db, op), s, k) {
      RowsElsewhere(db, op, s, k);
      CallKeepsKeys(db, op, s, k);
    } else if op.CreateOp? {
      CreateCall(db, op.booking, op.amount, op.key, op.answer, op.fault);
    } else {
      RefundCall(db, op.payment, op.amount, op.reason, op.key, op.refundAnswer, op.fault);
    }
  }

  // ---------------------------------------------------------------- every run

  /** How many calls of a run forgot that a key's work was done. */
  function ForgetCount(ops: seq<Op>, s: Scope, k: string): nat {
    if ops == [] then 0
    else
      var n := |ops| - 1;
      ForgetCount(ops[..n], s, k) + Counts(Forgets(Run(ops[..n]), ops[n], s, k))
  }

  /** In every run the rows committed under a key are one for each time its record was forgotten, and one more if it now
      stands completed; no committed record is ever in progress. */
  lemma {:induction false} RowsPerKey(ops: seq<Op>, s: Scope, k: string)
    requires !s.Confirming?
    ensures KeysSound(Run(ops).keys)
    ensures RowsUnder(Run(ops), s, k) == ForgetCount(ops, s, k) + Counts(IsDone(Run(ops).keys, s, k))
  {
    hide Apply, Forgets, RowsUnder, KeysSound;
    if ops == [] {
      NothingUnder(s, k);
    } else {
      var n := |ops| - 1;
      RowsPerKey(ops[..n], s, k);
      EveryCall(Run(ops[..n]), ops[n], s, k);
      CallKeepsKeys(Run(ops[..n]), ops[n], s, k);
      ForgetsOnlyDone(Run(ops[..n]), ops[n], s, k);
    }
  }

  lemma NothingUnder(s: Scope, k: string)
    ensures KeysSound(EMPTY.keys) && RowsUnder(EMPTY, s, k) == 0
  {}

  lemma ForgetsOnlyDone(db: Db, op: Op, s: Scope, k: string)
    ensures Forgets(db, op, s, k) ==> IsDone(db.keys, s, k)
  {}

  /** As long as no call forgets a key, at most one row is ever committed under it, and once its record is completed
      it, and with it the stored answer, stays as it is. */
  lemma {:induction false} AtMostOneRow(ops: seq<Op>, n: nat, s: Scope, k: string)
    requires !s.Confirming? && n <= |ops| && ForgetCount(ops, s, k) == 0
    ensures RowsUnder(Run(ops), s, k) <= 1
    ensures IsDone(Run(ops[..n]).keys, s, k) ==> SameRecord(Run(ops[..n]).keys, Run(ops).keys, s, k)
  {
    hide Apply, Forgets, RowsUnder, KeysSound;
    RowsPerKey(ops, s, k);
    if n == |ops| {
      assert ops[..n] == ops;
    } else {
      var m := |ops| - 1;
      AtMostOneRow(ops[..m], n, s, k);
      assert ops[..m][..n] == ops[..n];
      RowsPerKey(ops[..m], s, k);
      EveryCall(Run(ops[..m]), ops[m], s, k);
    }
  }

  /** A call repeated under a completed key, with the same request and not aborted, gives the stored answer and changes
      nothing. */
  lemma ReplayAnswers(ops: seq<Op>, op: Op, s: Scope, k: string)
    requires (op.CreateOp? || op.RefundOp? || op.ConfirmOp?) && Goes(CallOf(Run(ops), op), s, k) &&
            IsDone(Run(ops).keys, s, k)
    requires Run(ops).keys[(s, k)].payload == CallOf(Run(ops), op).request && op.fault.NoFault?
    ensures Run(ops).keys[(s, k)].body.Some?
    ensures Apply(Run(ops), op) == Effect(Run(ops), Answer(Run(ops).keys[(s, k)].body.value), None)
  {
    hide Run, RefundedTotal, GatewayIdUsed, HasPair, RefundRows, PaymentRows;
    RowsPerKey(ops, CreatingIntent, k);
  }

  /** A forgotten key lets the same request in again: the next call that goes through commits a second row. */
  lemma ForgottenKeyRepeats(db: Db, booking: int, amount: nat, k: string, gatewayId: string, status: string)
    requires KeysSound(db.keys) && IsDone(db.keys, CreatingIntent, k)
    requires db.keys[(CreatingIntent, k)].payload == IntentRequest(booking, amount) &&
            !GatewayIdUsed(db.payments, gatewayId)
    ensures var aborted := CreateIntent(db, booking, amount, k, Intent(gatewayId, status), Aborts).db;
            var repeated := CreateIntent(aborted, booking, amount, k, Intent(gatewayId, status), NoFault).db;
            && aborted.payments == db.payments
            && RowsUnder(repeated, CreatingIntent, k) == RowsUnder(db, CreatingIntent, k) + 1
  {
    hide PaymentRows, GatewayIdUsed;
    OnePaymentMore(db.payments, Payment(amount, gatewayId, MapGatewayIntentStatus(status), k), k);
  }
}
