/** Redelivered gateway webhooks, over every run of the payment operations. */
module Webhooks {
  import opened Wrappers
  import opened Payments
  import opened PaymentBooks
  import Idempotency

  predicate Processed(db: Db, w: Webhook) {
    (w.gateway, w.eventId) in db.webhooks && db.webhooks[(w.gateway, w.eventId)]
  }

  /** A stored event stays stored, and a processed one stays processed, whatever is called. */
  predicate WebhooksKept(a: Db, b: Db) {
    forall id :: id in a.webhooks ==> id in b.webhooks && (a.webhooks[id] ==> b.webhooks[id])
  }

  lemma ConfirmKeepsWebhooks(db: Db, p: nat, gatewayId: Option<string>, key: string, capture: Capture, fault: Fault)
    ensures ConfirmIntent(db, p, gatewayId, key, capture, fault).db.webhooks == db.webhooks
  {
    hide HasPair;
  }

  lemma RefundKeepsWebhooks(db: Db, p: nat, amount: nat, reason: string, key: string, answer: RefundAnswer,
                            fault: Fault)
    ensures CreateRefund(db, p, amount, reason, key, answer, fault).db.webhooks == db.webhooks
  {
    hide RefundedTotal, HasRefundEntry;
  }

  lemma ProcessingKeepsWebhooks(db: Db, w: Webhook, capture: Capture, fault: Fault)
    ensures ProcessWebhook(db, w, capture, fault).db.webhooks == db.webhooks
  {
    hide FindPayment, RefundedTotal, ConfirmIntent, WebhookKey;
    if w.gatewayId.Some? {
      var found := FindPayment(db.payments, w.gatewayId.value);
      if found.Some? {
        FoundInRange(db.payments, w.gatewayId.value);
        ConfirmKeepsWebhooks(db, found.value, w.gatewayId, WebhookKey(w), capture, fault);
      }
    }
  }

  lemma OperationKeepsWebhooks(db: Db, op: Op)
    ensures WebhooksKept(db, Apply(db, op).db)
  {
    hide FindPayment, RefundedTotal, CreateRefund, ConfirmIntent, ProcessWebhook, GatewayIdUsed;
    match op
    case CreateOp(_, _, _, _, _) =>
    case ConfirmOp(p, gatewayId, key, capture, fault) => ConfirmKeepsWebhooks(db, p, gatewayId, key, capture, fault);
    case RefundOp(p, amount, reason, key, answer, fault) =>
      RefundKeepsWebhooks(db, p, amount, reason, key, answer, fault);
    case FailOp(gatewayId) =>
      if FindPayment(db.payments, gatewayId).Some? { FoundInRange(db.payments, gatewayId); }
    case RefreshOp(_) =>
    case WebhookOp(w, capture, fault, _) =>
      var id := (w.gateway, w.eventId);
      var known := if id in db.webhooks then db else db.(webhooks := db.webhooks[id := false]);
      ProcessingKeepsWebhooks(known, w, capture, fault);
  }

  /** Once an event is processed it stays so in every longer run, and delivering it again, to whatever end, changes
      nothing and is answered as done. */
  lemma {:induction false} ProcessedForGood(ops: seq<Op>, n: nat, w: Webhook, capture: Capture, fault: Fault,
                                            marks: bool)
    requires n <= |ops| && Processed(Run(ops[..n]), w)
    ensures Processed(Run(ops), w)
    ensures HandleWebhook(Run(ops), w, capture, fault, marks) == Effect(Run(ops), Done, None)
  {
    hide Apply, ProcessWebhook;
    if n == |ops| {
      assert ops[..n] == ops;
    } else {
      var m := |ops| - 1;
      assert ops[..m][..n] == ops[..n];
      ProcessedForGood(ops[..m], n, w, capture, fault, marks);
      OperationKeepsWebhooks(Run(ops[..m]), ops[m]);
    }
  }

  /** The record of a confirmation is free to be used for this request: absent, or made for it and not in progress. */
  predicate Usable(keys: Keys, p: nat, gatewayId: Option<string>, key: string) {
    (Confirming(p), key) in keys ==>
      && keys[(Confirming(p), key)].payload == ConfirmRequest(p, gatewayId)
      && keys[(Confirming(p), key)].status != InProgress
  }

  /** The gateway is asked: the payment is not settled, and the key does not hold an answer. */
  predicate AsksGateway(db: Db, p: nat, key: string)
    requires p < |db.payments|
  {
    && !Settled(db.payments[p].status)
    && !((Confirming(p), key) in db.keys && db.keys[(Confirming(p), key)].status == Completed)
  }

  /** When a confirmation is answered, told from where the call fails, the key record, the payment and the gateway:
      the call neither aborts nor dies, its key is free, and if the gateway is asked it answers, and with a capture
      the event is published. */
  lemma ConfirmAnswersExactlyWhen(db: Db, p: nat, gatewayId: Option<string>, key: string, capture: Capture,
                                  fault: Fault)
    requires p < |db.payments| && Idempotency.KeysSound(db.keys)
    ensures !ConfirmIntent(db, p, gatewayId, key, capture, fault).response.Raised? <==>
              && fault in {NoFault, PublishFails}
              && Usable(db.keys, p, gatewayId, key)
              && (AsksGateway(db, p, key) ==> capture.Captured? && (capture.success ==> fault != PublishFails))
  {
    hide HasPair;
  }

  /** When the work of an event can be done: there is none, or its payment is known. */
  predicate Known(db: Db, w: Webhook) {
    w.gatewayId.None? || w.kind == OtherEvent || FindPayment(db.payments, w.gatewayId.value).Some?
  }

  /** A delivery marks its event processed exactly when its payment is known, the worker lives to mark it, and a
      confirmation, if that is the work, neither aborts nor dies, finds its key free, and gets an answer where it
      needs one. */
  lemma MarkedExactlyWhenAnswered(db: Db, w: Webhook, capture: Capture, fault: Fault, marks: bool)
    requires !Processed(db, w) && Idempotency.KeysSound(db.keys)
    ensures Processed(HandleWebhook(db, w, capture, fault, marks).db, w) <==>
              && marks && Known(db, w)
              && (w.gatewayId.Some? && w.kind == PaymentSucceeded ==>
                    var p := FindPayment(db.payments, w.gatewayId.value).value;
                    && fault in {NoFault, PublishFails}
                    && Usable(db.keys, p, w.gatewayId, WebhookKey(w))
                    && (AsksGateway(db, p, WebhookKey(w)) ==>
                        capture.Captured? && (capture.success ==> fault != PublishFails)))
  {
    hide FindPayment, ConfirmIntent, WebhookKey, RefundedTotal, Idempotency.KeysSound, Usable, AsksGateway;
    var id := (w.gateway, w.eventId);
    var known := if id in db.webhooks then db else db.(webhooks := db.webhooks[id := false]);
    ProcessingKeepsWebhooks(known, w, capture, fault);
    if w.gatewayId.Some? && FindPayment(db.payments, w.gatewayId.value).Some? {
      var p := FindPayment(db.payments, w.gatewayId.value).value;
      FoundInRange(db.payments, w.gatewayId.value);
      AnswerIgnoresWebhooks(db, known.webhooks, p, w.gatewayId, WebhookKey(w), capture, fault);
      ConfirmAnswersExactlyWhen(db, p, w.gatewayId, WebhookKey(w), capture, fault);
    }
  }

  lemma AnswerIgnoresWebhooks(db: Db, webhooks: map<(string, string), bool>, p: nat, gatewayId: Option<string>,
                              key: string,
                              capture: Capture, fault: Fault)
    ensures ConfirmIntent(db.(webhooks := webhooks), p, gatewayId, key, capture, fault).response ==
            ConfirmIntent(db, p, gatewayId, key, capture, fault).response
  {
    hide HasPair;
  }

  /** A delivery that committed a capture and then failed, wherever it failed, is finished by the next delivery, which
      captures nothing and moves no money. */
  lemma RedeliveryFinishes(db: Db, w: Webhook, capture: Capture, fault: Fault, marks: bool, capture': Capture)
    requires HandleWebhook(db, w, capture, fault, marks).captured.Some?
    ensures var after := HandleWebhook(db, w, capture, fault, marks).db;
            var again := HandleWebhook(after, w, capture', NoFault, true);
            again.response == Done && again.captured == None && SameBooks(after, again.db) && Processed(again.db, w)
  {
    hide FindPayment, ConfirmIntent, WebhookKey, FailPayment, RefreshStatus;
    var id := (w.gateway, w.eventId);
    var known := if id in db.webhooks then db else db.(webhooks := db.webhooks[id := false]);
    StatusReportsCaptureNothing(known, w.gatewayId);
    var p := FindPayment(known.payments, w.gatewayId.value).value;
    var once := ConfirmIntent(known, p, w.gatewayId, WebhookKey(w), capture, fault);
    ConfirmKeepsWebhooks(known, p, w.gatewayId, WebhookKey(w), capture, fault);
    CaptureThenConfirm(known, p, w.gatewayId, WebhookKey(w), capture, fault, capture', w.gatewayId.value);
    ConfirmKeepsWebhooks(once.db, p, w.gatewayId, WebhookKey(w), capture', NoFault);
    var after := HandleWebhook(db, w, capture, fault, marks).db;
    if after.webhooks != once.db.webhooks {
      assert Processed(after, w);
    } else {
      assert after == once.db;
    }
  }

  lemma StatusReportsCaptureNothing(db: Db, gatewayId: Option<string>)
    ensures gatewayId.Some? ==> FailPayment(db, gatewayId.value).captured == None
    ensures forall p :: RefreshStatus(db, p).captured == None
  {}

  /** Confirming again after a capture answers without the gateway. */
  lemma CaptureThenConfirm(db: Db, p: nat, gatewayId: Option<string>, key: string, capture: Capture, fault: Fault,
                           capture': Capture, gid: string)
    requires ConfirmIntent(db, p, gatewayId, key, capture, fault).captured.Some?
    ensures var once := ConfirmIntent(db, p, gatewayId, key, capture, fault).db;
            var twice := ConfirmIntent(once, p, gatewayId, key, capture', NoFault);
            && FindPayment(once.payments, gid) == FindPayment(db.payments, gid)
            && !twice.response.Raised? && twice.captured == None && SameBooks(once, twice.db)
  {
    hide FindPayment, ConfirmIntent;
    AfterCapture(db, p, gatewayId, key, capture, fault);
    StatusKeepsIds(db.payments, p, Confirmed, gid);
    SettledConfirm(ConfirmIntent(db, p, gatewayId, key, capture, fault).db, p, gatewayId, key, capture');
  }

  /** A key whose work is done or has been re-marked, under the request it was used with. */
  predicate Reusable(db: Db, p: nat, gatewayId: Option<string>, key: string) {
    && (Confirming(p), key) in db.keys
    && var r := db.keys[(Confirming(p), key)];
       r.payload == ConfirmRequest(p, gatewayId) && r.status != InProgress && r.body.Some?
  }

  lemma AfterCapture(db: Db, p: nat, gatewayId: Option<string>, key: string, capture: Capture, fault: Fault)
    requires ConfirmIntent(db, p, gatewayId, key, capture, fault).captured.Some?
    ensures var once := ConfirmIntent(db, p, gatewayId, key, capture, fault).db;
            && p < |db.payments| && once.payments == db.payments[p := db.payments[p].(status := Confirmed)]
            && Reusable(once, p, gatewayId, key)
  {
    hide HasPair;
  }

  lemma SettledConfirm(db: Db, p: nat, gatewayId: Option<string>, key: string, capture: Capture)
    requires p < |db.payments| && Settled(db.payments[p].status) && Reusable(db, p, gatewayId, key)
    ensures var e := ConfirmIntent(db, p, gatewayId, key, capture, NoFault);
            !e.response.Raised? && e.captured == None && SameBooks(db, e.db)
  {}

  lemma {:induction false} StatusKeepsIds(payments: seq<Payment>, p: nat, status: PaymentStatus, gatewayId: string)
    requires p < |payments|
    ensures FindPayment(payments[p := payments[p].(status := status)], gatewayId) == FindPayment(payments, gatewayId)
  {
    var n, moved := |payments| - 1, payments[p := payments[p].(status := status)];
    if p < n {
      StatusKeepsIds(payments[..n], p, status, gatewayId);
      assert moved[..n] == payments[..n][p := payments[p].(status := status)];
    } else {
      assert moved[..n] == payments[..n];
    }
  }

  /** Events of different gateways, or with different ids, are confirmed under different keys; no gateway is named
      with a colon. */
  lemma EventsHaveKeysOfTheirOwn(w: Webhook, v: Webhook)
    requires ':' !in w.gateway && ':' !in v.gateway && WebhookKey(w) == WebhookKey(v)
    ensures w.gateway == v.gateway && w.eventId == v.eventId
  {
    var a, b := w.gateway + ":" + w.eventId, v.gateway + ":" + v.eventId;
    assert WebhookKey(w) == "webhook:" + a && WebhookKey(v) == "webhook:" + b;
    assert a == WebhookKey(w)[8..] && b == WebhookKey(v)[8..];
    assert a[|w.gateway|] == ':' && b[|v.gateway|] == ':';
    assert |w.gateway| == |v.gateway|;
    assert w.gateway == a[..|w.gateway|] && v.gateway == b[..|v.gateway|];
    assert w.eventId == a[|w.gateway| + 1..] && v.eventId == b[|v.gateway| + 1..];
  }

  // ---------------------------------------------------------------- no failure loses an event

  /** No payment is forgotten, and its gateway id never changes. */
  predicate PaymentsKept(a: seq<Payment>, b: seq<Payment>) {
    |a| <= |b| && forall p :: 0 <= p < |a| ==> b[p].gatewayId == a[p].gatewayId
  }

  lemma OperationKeepsPayments(db: Db, op: Op)
    ensures PaymentsKept(db.payments, Apply(db, op).db.payments)
  {
    hide Apply, RefundedTotal, GatewayIdUsed, HasPair, HasRefundEntry;
    var c := Shape(db, op);
  }

  lemma {:induction false} FoundForGood(a: seq<Payment>, b: seq<Payment>, gatewayId: string)
    requires PaymentsKept(a, b) && FindPayment(a, gatewayId).Some?
    ensures FindPayment(b, gatewayId) == FindPayment(a, gatewayId)
    decreases |a| + |b|
  {
    if |b| > |a| {
      FoundForGood(a, b[..|b| - 1], gatewayId);
    } else {
      var n := |a| - 1;
      if FindPayment(a[..n], gatewayId).Some? {
        FoundForGood(a[..n], b[..n], gatewayId);
      } else {
        NotFoundAlike(a[..n], b[..n], gatewayId);
      }
    }
  }

  lemma {:induction false} NotFoundAlike(a: seq<Payment>, b: seq<Payment>, gatewayId: string)
    requires PaymentsKept(a, b) && |a| == |b| && FindPayment(a, gatewayId).None?
    ensures FindPayment(b, gatewayId).None?
  {
    if a != [] {
      NotFoundAlike(a[..|a| - 1], b[..|a| - 1], gatewayId);
    }
  }

  /** No client confirms a payment under the key of this event with a request of its own. */
  predicate LeavesKeyAlone(op: Op,
                           w: Webhook) { op.ConfirmOp? && op.key == WebhookKey(w) ==> op.gatewayId == w.gatewayId }

  /** The records under an event's key were made for its own request, or for the gateway id of the payment they name. */
  ghost predicate KeyFits(db: Db, w: Webhook) {
    forall p: nat :: (Confirming(p), WebhookKey(w)) in db.keys ==>
      && p < |db.payments|
      && db.keys[(Confirming(p), WebhookKey(w))].payload in
           {ConfirmRequest(p, w.gatewayId), ConfirmRequest(p, Some(db.payments[p].gatewayId))}
  }

  /** A record left by a confirmation carries its request, or the payload it had. */
  lemma ConfirmRecord(db: Db, p: nat, gatewayId: Option<string>, key: string, capture: Capture, fault: Fault)
    ensures var keys := ConfirmIntent(db, p, gatewayId, key, capture, fault).db.keys;
            (Confirming(p), key) in keys ==>
              || ((Confirming(p), key) in db.keys
                  && keys[(Confirming(p), key)].payload == db.keys[(Confirming(p), key)].payload)
              || (p < |db.payments| && keys[(Confirming(p), key)].payload == ConfirmRequest(p, gatewayId))
  {
    hide HasPair;
  }

  /** The payload of the call an operation makes under an event's key. */
  lemma CallRecord(db: Db, op: Op, p: nat, key: string)
    requires Idempotency.Goes(Idempotency.CallOf(db, op), Confirming(p), key)
    ensures var keys := Apply(db, op).db.keys; var request := Idempotency.CallOf(db, op).request;
            (Confirming(p), key) in keys ==>
              || ((Confirming(p), key) in db.keys
                  && keys[(Confirming(p), key)].payload == db.keys[(Confirming(p), key)].payload)
              || (p < |db.payments| && keys[(Confirming(p), key)].payload == request)
    ensures op.ConfirmOp? ==> op.key == key && Idempotency.CallOf(db, op).request == ConfirmRequest(p, op.gatewayId)
    ensures op.WebhookOp? ==>
              && p < |db.payments|
              && Idempotency.CallOf(db, op).request == ConfirmRequest(p, Some(db.payments[p].gatewayId))
    ensures op.ConfirmOp? || op.WebhookOp?
  {
    hide FindPayment, ConfirmIntent, WebhookKey, CreateIntent, CreateRefund, FailPayment, RefreshStatus;
    if op.ConfirmOp? {
      ConfirmRecord(db, p, op.gatewayId, key, op.capture, op.fault);
    } else if op.WebhookOp? {
      var w := op.webhook;
      var id := (w.gateway, w.eventId);
      var known := if id in db.webhooks then db else db.(webhooks := db.webhooks[id := false]);
      FoundAt(db.payments, w.gatewayId.value);
      ConfirmRecord(known, p, w.gatewayId, key, op.capture, op.fault);
    }
  }

  lemma FoundAt(payments: seq<Payment>, gatewayId: string)
    requires FindPayment(payments, gatewayId).Some?
    ensures FindPayment(payments, gatewayId).value < |payments|
    ensures payments[FindPayment(payments, gatewayId).value].gatewayId == gatewayId
  {}

  lemma OperationKeepsKeyFit(db: Db, op: Op, w: Webhook)
    requires KeyFits(db, w) && LeavesKeyAlone(op, w) && Idempotency.KeysSound(db.keys)
    ensures KeyFits(Apply(db, op).db, w)
  {
    hide Apply, WebhookKey, Idempotency.KeysSound, Idempotency.CallOf;
    OperationKeepsPayments(db, op);
    var key, after := WebhookKey(w), Apply(db, op).db;
    forall p: nat | (Confirming(p), key) in after.keys
      ensures p < |after.payments|
      ensures after.keys[(Confirming(p), key)].payload in
                {ConfirmRequest(p, w.gatewayId), ConfirmRequest(p, Some(after.payments[p].gatewayId))}
    {
      Idempotency.CallKeepsKeys(db, op, Confirming(p), key);
      if Idempotency.Goes(Idempotency.CallOf(db, op), Confirming(p), key) {
        CallRecord(db, op, p, key);
      }
    }
  }

  lemma {:induction false} KeyAlwaysFits(ops: seq<Op>, n: nat, w: Webhook)
    requires n <= |ops| && forall i :: 0 <= i < |ops| ==> LeavesKeyAlone(ops[i], w)
    ensures KeyFits(Run(ops), w) && Idempotency.KeysSound(Run(ops).keys)
    ensures PaymentsKept(Run(ops[..n]).payments, Run(ops).payments)
  {
    hide Apply, KeyFits, LeavesKeyAlone, Idempotency.KeysSound;
    Idempotency.RowsPerKey(ops, CreatingIntent, "");
    if ops == [] {
      NoKeyYet(w);
    } else {
      var m := |ops| - 1;
      KeyAlwaysFits(ops[..m], if n < m then n else m, w);
      OperationKeepsKeyFit(Run(ops[..m]), ops[m], w);
      OperationKeepsPayments(Run(ops[..m]), ops[m]);
      assert n <= m ==> ops[..m][..n] == ops[..n];
      assert n == |ops| ==> ops[..n] == ops;
    }
  }

  lemma NoKeyYet(w: Webhook)
    ensures KeyFits(EMPTY, w)
  {}

  /** No failure loses an event, over every run: whatever aborted, died, went unpublished or unmarked before, an
      event whose work was once within reach is marked by any later delivery that meets no fault and is given an
      answer, as long as no client has used the event's own key for a request of its own. */
  lemma NoEventIsLost(ops: seq<Op>, n: nat, w: Webhook, capture: Capture)
    requires n <= |ops| && forall i :: 0 <= i < |ops| ==> LeavesKeyAlone(ops[i], w)
    requires Known(Run(ops[..n]), w) && capture.Captured?
    ensures Processed(HandleWebhook(Run(ops), w, capture, NoFault, true).db, w)
  {
    hide Run, FindPayment, WebhookKey, HandleWebhook, Idempotency.KeysSound, LeavesKeyAlone, AsksGateway;
    var db := Run(ops);
    KeyAlwaysFits(ops, n, w);
    KnownForGood(ops, n, w);
    if Processed(db, w) {
      assert ops[..|ops|] == ops;
      ProcessedForGood(ops, |ops|, w, capture, NoFault, true);
    } else {
      if w.gatewayId.Some? && w.kind == PaymentSucceeded {
        var p := FindPayment(db.payments, w.gatewayId.value).value;
        FoundAt(db.payments, w.gatewayId.value);
        SoundIsNotInProgress(db.keys, p, WebhookKey(w));
      }
      MarkedExactlyWhenAnswered(db, w, capture, NoFault, true);
    }
  }

  lemma SoundIsNotInProgress(keys: Keys, p: nat, key: string)
    requires Idempotency.KeysSound(keys)
    ensures (Confirming(p), key) in keys ==> keys[(Confirming(p), key)].status != InProgress
  {}

  lemma KnownForGood(ops: seq<Op>, n: nat, w: Webhook)
    requires n <= |ops| && Known(Run(ops[..n]), w)
    requires PaymentsKept(Run(ops[..n]).payments, Run(ops).payments)
    ensures Known(Run(ops), w)
  {
    hide Run, FindPayment;
    if w.gatewayId.Some? && w.kind != OtherEvent {
      FoundForGood(Run(ops[..n]).payments, Run(ops).payments, w.gatewayId.value);
    }
  }
}
