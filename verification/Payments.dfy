/**
 Payments, refunds, the double-entry ledger, idempotency keys and gateway webhooks, over one database whose
 transactions run one after the other. What a gateway answers, and where a call fails, is arbitrary.
 Amounts are in the smallest currency unit; rows are numbered as they are stored.
 */
module Payments {
  import opened Wrappers

  datatype PaymentStatus = Pending | RequiresAction | Processing | Confirmed | Failed | PartiallyRefunded | Refunded

  datatype Payment = Payment(amount: nat, gatewayId: string, status: PaymentStatus, key: string)

  datatype Refund = Refund(payment: nat, amount: nat, succeeded: bool, gatewayRefundId: Option<string>, key: string)

  datatype Account = GatewayClearing | CustomerFunds

  datatype Direction = Debit | Credit

  datatype EntryKind = PaymentEntry | RefundEntry(refund: nat)

  datatype Entry = Entry(payment: nat, kind: EntryKind, account: Account, direction: Direction, amount: nat)

  /** The request an idempotency key was first used with; the source compares hashes of it. */
  datatype Payload =
    | IntentRequest(booking: int, amount: nat)
    | ConfirmRequest(payment: nat, gatewayId: Option<string>)
    | RefundRequest(payment: nat, amount: nat, reason: string)

  datatype Scope = CreatingIntent | Confirming(payment: nat) | Refunding(payment: nat)

  datatype KeyStatus = InProgress | Completed | FailedKey

  datatype Body = PaymentBody(id: nat, payment: Payment) | RefundBody(id: nat, refund: Refund)

  datatype KeyRecord = KeyRecord(payload: Payload, status: KeyStatus, body: Option<Body>)

  type Keys = map<(Scope, string), KeyRecord>

  /** A webhook row is keyed by gateway and event id; its value tells whether it has been processed. */
  datatype Db = Db(
    payments: seq<Payment>, refunds: seq<Refund>, ledger: seq<Entry>, keys: Keys, webhooks: map<(string, string), bool>)

  const EMPTY := Db([], [], [], map[], map[])

  /** Where a call fails: its transaction aborts and the key is marked; it dies with its transaction, or before it
      can mark the key; after the commit, its event cannot be published; or it dies after the commit. */
  datatype Fault = NoFault | Aborts | Dies | PublishFails | DiesAfterCommit

  datatype Response = Answer(body: Body) | Done | Raised

  /** The database after a call, what the caller got, and the payment for which a successful capture was committed. */
  datatype Effect = Effect(db: Db, response: Response, captured: Option<nat>)

  // ---------------------------------------------------------------- idempotency keys

  datatype Claim = Replay(body: Body) | Refused | Fresh

  function ClaimKey(keys: Keys, scope: Scope, key: string, payload: Payload): Claim {
    if (scope, key) !in keys then Fresh
    else
      var r := keys[(scope, key)];
      if r.payload != payload then Refused
      else if r.status == Completed && r.body.Some? then Replay(r.body.value)
      else if r.status == InProgress then Refused
      else Fresh
  }

  function CompleteKey(keys: Keys, scope: Scope, key: string, payload: Payload, body: Body): Keys {
    keys[(scope, key) := KeyRecord(payload, Completed, Some(body))]
  }

  /** An error on a key marks its record, whatever the record said before. */
  function MarkFailed(keys: Keys, scope: Scope, key: string): Keys {
    if (scope, key) in keys then keys[(scope, key) := keys[(scope, key)].(status := FailedKey)] else keys
  }

  /** A transaction under a key: it commits, or it leaves the database alone and marks the key. */
  function Guarded(db: Db, scope: Scope, key: string, tx: Result<Effect, ()>, fault: Fault): Effect {
    if fault.Dies? then Effect(db, Raised, None)
    else if fault.Aborts? || tx.Err? then Effect(db.(keys := MarkFailed(db.keys, scope, key)), Raised, None)
    else tx.value
  }

  // ---------------------------------------------------------------- payments

  function MapGatewayIntentStatus(status: string): PaymentStatus {
    if status == "succeeded" then Confirmed
    else if "requires_" <= status then RequiresAction
    else if status == "processing" then Processing
    else Pending
  }

  datatype IntentAnswer = IntentRaises | Intent(gatewayId: string, status: string)

  predicate GatewayIdUsed(payments: seq<Payment>, gatewayId: string) {
    exists p :: 0 <= p < |payments| && payments[p].gatewayId == gatewayId
  }

  /** Creates the payment row; the gateway id column is unique. */
  function IntentTransaction(db: Db, booking: int, amount: nat, key: string, answer: IntentAnswer): Result<Effect, ()> {
    var request := IntentRequest(booking, amount);
    match ClaimKey(db.keys, CreatingIntent, key, request)
    case Refused => Err(())
    case Replay(body) => Ok(Effect(db, Answer(body), None))
    case Fresh =>
      if answer.IntentRaises? || GatewayIdUsed(db.payments, answer.gatewayId) then Err(())
      else
        var payment := Payment(amount, answer.gatewayId, MapGatewayIntentStatus(answer.status), key);
        var body := PaymentBody(|db.payments|, payment);
        Ok(Effect(db.(payments := db.payments + [payment],
                      keys := CompleteKey(db.keys, CreatingIntent, key, request, body)), Answer(body), None))
  }

  function CreateIntent(db: Db, booking: int, amount: nat, key: string, answer: IntentAnswer, fault: Fault): Effect {
    Guarded(db, CreatingIntent, key, IntentTransaction(db, booking, amount, key, answer), fault)
  }

  datatype Capture = CaptureRaises | Captured(success: bool)

  predicate Settled(status: PaymentStatus) { status in {Confirmed, PartiallyRefunded, Refunded} }

  predicate HasPair(ledger: seq<Entry>, p: nat) {
    exists i :: 0 <= i < |ledger| && ledger[i].payment == p && ledger[i].kind == PaymentEntry
  }

  function PaymentPair(p: nat, amount: nat): seq<Entry> {
    [Entry(p, PaymentEntry, GatewayClearing, Debit, amount), Entry(p, PaymentEntry, CustomerFunds, Credit, amount)]
  }

  function SetStatus(db: Db, p: nat, status: PaymentStatus): Db
    requires p < |db.payments|
  {
    db.(payments := db.payments[p := db.payments[p].(status := status)])
  }

  /** A capture that succeeded: the payment is confirmed and, the first time only, entered into the ledger. */
  function RecordCapture(db: Db, p: nat): Db
    requires p < |db.payments|
  {
    var confirmed := SetStatus(db, p, Confirmed);
    if HasPair(db.ledger, p) then confirmed
    else confirmed.(ledger := db.ledger + PaymentPair(p, db.payments[p].amount))
  }

  function WithKey(db: Db, scope: Scope, key: string, request: Payload, body: Body): Db {
    db.(keys := CompleteKey(db.keys, scope, key, request, body))
  }

  function ConfirmTransaction(db: Db, p: nat, gatewayId: Option<string>, key: string, capture: Capture): Result<Effect,
                              ()> {
    var request := ConfirmRequest(p, gatewayId);
    match ClaimKey(db.keys, Confirming(p), key, request)
    case Refused => Err(())
    case Replay(body) => Ok(Effect(db, Answer(body), None))
    case Fresh =>
      if p >= |db.payments| then Err(())
      else if Settled(db.payments[p].status) then
        var body := PaymentBody(p, db.payments[p]);
        Ok(Effect(WithKey(db, Confirming(p), key, request, body), Answer(body), None))
      else if capture.CaptureRaises? then Err(())
      else
        var after := if capture.success then RecordCapture(db, p) else SetStatus(db, p, Failed);
        var body := PaymentBody(p, after.payments[p]);
        Ok(Effect(WithKey(after, Confirming(p), key, request, body), Answer(body),
                  if capture.success then Some(p) else None))
  }

  /** After the commit a successful capture is published; if that fails the key is marked although the payment
      stands. */
  function ConfirmIntent(db: Db, p: nat, gatewayId: Option<string>, key: string, capture: Capture,
                         fault: Fault): Effect {
    var e := Guarded(db, Confirming(p), key, ConfirmTransaction(db, p, gatewayId, key, capture), fault);
    if e.captured.Some? && fault.PublishFails? then
      e.(db := e.db.(keys := MarkFailed(e.db.keys, Confirming(p), key)), response := Raised)
    else if !e.response.Raised? && fault.DiesAfterCommit? then e.(response := Raised)
    else e
  }

  function FindPayment(payments: seq<Payment>, gatewayId: string): (found: Option<nat>)
    ensures found.Some? ==> found.value < |payments| && payments[found.value].gatewayId == gatewayId
    ensures found.None? ==> !GatewayIdUsed(payments, gatewayId)
  {
    if payments == [] then None
    else
      var n := |payments| - 1;
      var earlier := FindPayment(payments[..n], gatewayId);
      if earlier.Some? then earlier
      else if payments[n].gatewayId == gatewayId then Some(n)
      else None
  }

  function FailPayment(db: Db, gatewayId: string): Effect {
    match FindPayment(db.payments, gatewayId)
    case None => Effect(db, Raised, None)
    case Some(p) => Effect(SetStatus(db, p, Failed), Done, None)
  }

  // ---------------------------------------------------------------- refunds

  /** Sum of the succeeded refunds of a payment. */
  function RefundedTotal(refunds: seq<Refund>, p: nat): nat {
    if refunds == [] then 0
    else
      var r := refunds[|refunds| - 1];
      RefundedTotal(refunds[..|refunds| - 1], p) + if r.payment == p && r.succeeded then r.amount else 0
  }

  function RefundedStatus(total: nat, amount: nat): PaymentStatus {
    if total >= amount then Refunded else PartiallyRefunded
  }

  /** Recomputes the status of a payment from its refunds. */
  function RefreshStatus(db: Db, p: nat): Effect {
    if p >= |db.payments| then Effect(db, Raised, None)
    else
      var total := RefundedTotal(db.refunds, p);
      Effect(if total == 0 then db else SetStatus(db, p, RefundedStatus(total, db.payments[p].amount)), Done, None)
  }

  datatype RefundAnswer = RefundRaises | GatewayRefund(success: bool, refundId: Option<string>)

  predicate RefundIdUsed(refunds: seq<Refund>, id: Option<string>) {
    id.Some? && exists r :: 0 <= r < |refunds| && refunds[r].gatewayRefundId == id
  }

  function RefundPair(p: nat, refund: nat, amount: nat): seq<Entry> {
    [Entry(p, RefundEntry(refund), CustomerFunds, Debit, amount),
     Entry(p, RefundEntry(refund), GatewayClearing, Credit, amount)]
  }

  predicate HasRefundEntry(ledger: seq<Entry>, refund: nat) {
    exists i :: 0 <= i < |ledger| && ledger[i].kind == RefundEntry(refund)
  }

  /** The refund row, and for a refund that succeeded the payment's new status and the ledger pair. */
  function RecordRefund(db: Db, r: Refund): Db
    requires r.payment < |db.payments|
  {
    var stored := db.(refunds := db.refunds + [r]);
    if !r.succeeded then stored
    else
      var total := RefundedTotal(db.refunds, r.payment) + r.amount;
      var moved := SetStatus(stored, r.payment, RefundedStatus(total, db.payments[r.payment].amount));
      if HasRefundEntry(db.ledger, |db.refunds|) then moved
      else moved.(ledger := db.ledger + RefundPair(r.payment, |db.refunds|, r.amount))
  }

  function RefundTransaction(db: Db, p: nat, amount: nat, reason: string, key: string,
                             answer: RefundAnswer): Result<Effect, ()> {
    var request := RefundRequest(p, amount, reason);
    match ClaimKey(db.keys, Refunding(p), key, request)
    case Refused => Err(())
    case Replay(body) => Ok(Effect(db, Answer(body), None))
    case Fresh =>
      if p >= |db.payments| || db.payments[p].status !in {Confirmed, PartiallyRefunded} then Err(())
      else if amount > db.payments[p].amount - RefundedTotal(db.refunds, p) then Err(())
      else if answer.RefundRaises? || RefundIdUsed(db.refunds, answer.refundId) then Err(())
      else
        var refund := Refund(p, amount, answer.success, answer.refundId, key);
        var body := RefundBody(|db.refunds|, refund);
        Ok(Effect(WithKey(RecordRefund(db, refund), Refunding(p), key, request, body), Answer(body), None))
  }

  function CreateRefund(db: Db, p: nat, amount: nat, reason: string, key: string, answer: RefundAnswer,
                        fault: Fault): Effect {
    Guarded(db, Refunding(p), key, RefundTransaction(db, p, amount, reason, key, answer), fault)
  }

  // ---------------------------------------------------------------- webhooks

  datatype WebhookKind = PaymentSucceeded | PaymentFailed | PaymentRefunded | OtherEvent

  datatype Webhook = Webhook(gateway: string, eventId: string, kind: WebhookKind, gatewayId: Option<string>)

  function WebhookKey(w: Webhook): string { "webhook:" + w.gateway + ":" + w.eventId }

  function ProcessWebhook(db: Db, w: Webhook, capture: Capture, fault: Fault): Effect {
    if w.gatewayId.None? then Effect(db, Done, None)
    else
      match w.kind
      case PaymentSucceeded =>
        (match FindPayment(db.payments, w.gatewayId.value)
         case None => Effect(db, Raised, None)
         case Some(p) => ConfirmIntent(db, p, w.gatewayId, WebhookKey(w), capture, fault))
      case PaymentFailed => FailPayment(db, w.gatewayId.value)
      case PaymentRefunded =>
        (match FindPayment(db.payments, w.gatewayId.value)
         case None => Effect(db, Raised, None)
         case Some(p) => RefreshStatus(db, p))
      case OtherEvent => Effect(db, Done, None)
  }

  /** One delivery. `marks` is false when the worker dies before it stores that the event is processed. */
  function HandleWebhook(db: Db, w: Webhook, capture: Capture, fault: Fault, marks: bool): Effect {
    var id := (w.gateway, w.eventId);
    var known := if id in db.webhooks then db else db.(webhooks := db.webhooks[id := false]);
    if known.webhooks[id] then Effect(known, Done, None)
    else
      var e := ProcessWebhook(known, w, capture, fault);
      if e.response.Raised? || !marks then e.(response := Raised)
      else Effect(e.db.(webhooks := e.db.webhooks[id := true]), Done, e.captured)
  }

  // ---------------------------------------------------------------- runs

  datatype Op =
    | CreateOp(booking: int, amount: nat, key: string, answer: IntentAnswer, fault: Fault)
    | ConfirmOp(payment: nat, gatewayId: Option<string>, key: string, capture: Capture, fault: Fault)
    | FailOp(failedGatewayId: string)
    | RefreshOp(payment: nat)
    | RefundOp(payment: nat, amount: nat, reason: string, key: string, refundAnswer: RefundAnswer, fault: Fault)
    | WebhookOp(webhook: Webhook, capture: Capture, fault: Fault, marks: bool)

  function Apply(db: Db, op: Op): Effect {
    match op
    case CreateOp(booking, amount, key, answer, fault) => CreateIntent(db, booking, amount, key, answer, fault)
    case ConfirmOp(p, gatewayId, key, capture, fault) => ConfirmIntent(db, p, gatewayId, key, capture, fault)
    case FailOp(gatewayId) => FailPayment(db, gatewayId)
    case RefreshOp(p) => RefreshStatus(db, p)
    case RefundOp(p, amount, reason, key, answer, fault) => CreateRefund(db, p, amount, reason, key, answer, fault)
    case WebhookOp(w, capture, fault, marks) => HandleWebhook(db, w, capture, fault, marks)
  }

  function Run(ops: seq<Op>): Db {
    if ops == [] then EMPTY else Apply(Run(ops[..|ops| - 1]), ops[|ops| - 1]).db
  }
}
