/**
 * The payment gateway's webhook (app/api/webhooks/stripe/route.ts): a completed checkout
 * marks its case paid and, once per case, sends the internal alert and the customer's
 * confirmation; a failed payment marks an unpaid case failed; signature problems are
 * answered before any handler runs.
 *
 * The effect of each event on the case table and on the sent mail is given by pure
 * functions (`CompletedEffect`, `FailedEffect`, `EventEffect`, `ApplyEvents`) about which
 * the safety properties are proved; the handlers are methods proved to have exactly that
 * effect. `webhooks.constructEvent` is the `constructEvent` parameter (`None` where the
 * signature check throws). Sending an email is appending it to an `Outbox`.
 */
module Webhook {
  import opened Wrappers
  import opened JsonValue
  import opened Http
  import opened Cases
  import opened EmailPayload

  const Paid := "PAID"
  const Failed := "FAILED"
  const SecretMissing := "Webhook secret missing"
  const MissingSignature := "Missing Stripe signature"
  const InvalidSignature := "Invalid signature"
  const Received := "received"

  datatype MailKind = InternalAlert | CaseReceived

  /** A sent email: its kind, the case it is about, and its data. */
  datatype Mail = Mail(kind: MailKind, caseId: string, payload: CaseEmailPayload)

  /** A verified event, by type, with the metadata of the object it carries where that is read. */
  datatype Event =
    | CheckoutCompleted(metadata: Option<map<string, string>>)
    | PaymentFailed(metadata: Option<map<string, string>>)
    | PaymentSucceeded
    | Unhandled(eventType: string)

  /** The case table after an event, and the mail it sent. */
  datatype Effect = Effect(cases: map<string, Case>, mails: seq<Mail>)

  /** `object.metadata?.caseId` */
  function CaseIdOf(metadata: Option<map<string, string>>): Option<string> {
    if metadata.Some? && "caseId" in metadata.value then Some(metadata.value["caseId"]) else None
  }

  function UserOf(users: map<string, UserContact>, c: Case): Option<UserContact> {
    if c.userId in users then Some(users[c.userId]) else None
  }

  /** The mails of one dispatch round: the internal alert, then the customer's mail if there is an address. */
  function Dispatch(caseId: string, payload: CaseEmailPayload): (r: seq<Mail>)
    ensures 1 <= |r| <= 2 && r[0] == Mail(InternalAlert, caseId, payload)
    ensures |r| == 2 <==> payload.email != ""
    ensures |r| == 2 ==> r[1] == Mail(CaseReceived, caseId, payload)
  {
    [Mail(InternalAlert, caseId, payload)] + (if payload.email != "" then [Mail(CaseReceived, caseId, payload)] else [])
  }

  /** Does the event concern a case of the table whose payment is still open? */
  predicate Unpaid(cases: map<string, Case>, caseId: Option<string>) {
    IsSet(caseId) && caseId.value in cases && cases[caseId.value].paymentStatus != Paid
  }

  /**
   * `handleCheckoutSessionCompleted`: an unpaid case named by the session becomes paid
   * (its status kept) and, unless its emails went out already, gets one dispatch round and
   * is marked as emailed. Nothing else changes, and nothing at all for a missing caseId,
   * an unknown case or a case already paid.
   */
  function CompletedEffect(cases: map<string, Case>, users: map<string, UserContact>,
                           metadata: Option<map<string, string>>, json: JsonCodec): (r: Effect)
    ensures !Unpaid(cases, CaseIdOf(metadata)) ==> r == Effect(cases, [])
    ensures Unpaid(cases, CaseIdOf(metadata)) ==>
              var id := CaseIdOf(metadata).value;
              var c := cases[id];
              && r.cases == cases[id := c.(paymentStatus := Paid, emailSent := true)]
              && r.mails == (if c.emailSent then [] else Dispatch(id, BuildCaseEmailPayload(c, UserOf(users, c), json)))
  {
    var caseId := CaseIdOf(metadata);
    if !IsSet(caseId) || caseId.value !in cases then Effect(cases, [])
    else
      var c := cases[caseId.value];
      if c.paymentStatus == Paid then Effect(cases, [])
      else
        var paid := c.(paymentStatus := Paid, status := c.status);
        if !c.emailSent then
          var payload := BuildCaseEmailPayload(c, UserOf(users, c), json);
          Effect(cases[caseId.value := paid.(emailSent := true)], Dispatch(caseId.value, payload))
        else Effect(cases[caseId.value := paid], [])
  }

  /** `handlePaymentFailed`: the named case becomes FAILED unless it is paid; nothing else changes. */
  function FailedEffect(cases: map<string, Case>, metadata: Option<map<string, string>>): (r: map<string, Case>)
    ensures Unpaid(cases, CaseIdOf(metadata)) ==>
              r == cases[CaseIdOf(metadata).value := cases[CaseIdOf(metadata).value].(paymentStatus := Failed)]
    ensures !Unpaid(cases, CaseIdOf(metadata)) ==> r == cases
  {
    var caseId := CaseIdOf(metadata);
    if !IsSet(caseId) then cases
    else if caseId.value in cases && cases[caseId.value].paymentStatus != Paid then
      cases[caseId.value := cases[caseId.value].(paymentStatus := Failed)]
    else cases
  }

  /** The effect of one verified event; the other event types change nothing. */
  function EventEffect(cases: map<string, Case>, users: map<string, UserContact>, event: Event, json: JsonCodec): (r: Effect)
    ensures event.PaymentSucceeded? || event.Unhandled? ==> r == Effect(cases, [])
    ensures event.PaymentFailed? ==> r == Effect(FailedEffect(cases, event.metadata), [])
    ensures event.CheckoutCompleted? ==> r == CompletedEffect(cases, users, event.metadata, json)
  {
    match event
    case CheckoutCompleted(metadata) => CompletedEffect(cases, users, metadata, json)
    case PaymentFailed(metadata) => Effect(FailedEffect(cases, metadata), [])
    case _ => Effect(cases, [])
  }

  /** A sequence of events delivered one after another. */
  function ApplyEvents(cases: map<string, Case>, users: map<string, UserContact>, events: seq<Event>, json: JsonCodec): Effect
    decreases |events|
  {
    if events == [] then Effect(cases, [])
    else
      var first := EventEffect(cases, users, events[0], json);
      var rest := ApplyEvents(first.cases, users, events[1..], json);
      Effect(rest.cases, first.mails + rest.mails)
  }

  /** Delivering the same completed checkout twice has the effect of delivering it once. */
  lemma CompletedIdempotent(cases: map<string, Case>, users: map<string, UserContact>,
                            metadata: Option<map<string, string>>, json: JsonCodec)
    ensures var once := CompletedEffect(cases, users, metadata, json);
            CompletedEffect(once.cases, users, metadata, json) == Effect(once.cases, [])
  {
    var once := CompletedEffect(cases, users, metadata, json);
    if Unpaid(cases, CaseIdOf(metadata)) {
      assert once.cases[CaseIdOf(metadata).value].paymentStatus == Paid;
    }
  }

  /** One event never changes a paid case's payment status. */
  lemma EventKeepsPaid(cases: map<string, Case>, users: map<string, UserContact>, event: Event, json: JsonCodec, id: string)
    requires id in cases && cases[id].paymentStatus == Paid
    ensures var after := EventEffect(cases, users, event, json).cases;
            id in after && after[id].paymentStatus == Paid
  {
  }

  /** A paid case stays paid whatever events follow: payment is never downgraded. */
  lemma {:induction false} NeverDowngraded(cases: map<string, Case>, users: map<string, UserContact>, events: seq<Event>,
                                           json: JsonCodec, id: string)
    requires id in cases && cases[id].paymentStatus == Paid
    ensures var after := ApplyEvents(cases, users, events, json).cases;
            id in after && after[id].paymentStatus == Paid
  {
    if events != [] {
      EventKeepsPaid(cases, users, events[0], json, id);
      NeverDowngraded(EventEffect(cases, users, events[0], json).cases, users, events[1..], json, id);
    }
  }

  /** Number of internal alerts about case `id`: one per dispatch round. */
  function Alerts(mails: seq<Mail>, id: string): nat {
    if mails == [] then 0
    else (if mails[0].kind == InternalAlert && mails[0].caseId == id then 1 else 0) + Alerts(mails[1..], id)
  }

  lemma {:induction false} AlertsAppend(a: seq<Mail>, b: seq<Mail>, id: string)
    ensures Alerts(a + b, id) == Alerts(a, id) + Alerts(b, id)
  {
    if a != [] {
      assert (a + b)[1..] == a[1..] + b;
      AlertsAppend(a[1..], b, id);
    } else {
      assert a + b == b;
    }
  }

  /** A case that will get no more emails: it is paid, or its emails went out already. */
  predicate Settled(cases: map<string, Case>, id: string) {
    id !in cases || cases[id].paymentStatus == Paid || cases[id].emailSent
  }

  /** One event alerts about a case at most once, only while it is unsettled, and leaves it settled if it does. */
  lemma EventAlerts(cases: map<string, Case>, users: map<string, UserContact>, event: Event, json: JsonCodec, id: string)
    ensures var e := EventEffect(cases, users, event, json);
            && Alerts(e.mails, id) <= 1
            && (Settled(cases, id) ==> Alerts(e.mails, id) == 0 && Settled(e.cases, id))
            && (Alerts(e.mails, id) == 1 ==> Settled(e.cases, id))
  {
    var e := EventEffect(cases, users, event, json);
    if e.mails != [] {
      var caseId := CaseIdOf(event.metadata).value;
      var c := cases[caseId];
      var payload := BuildCaseEmailPayload(c, UserOf(users, c), json);
      assert e.mails == Dispatch(caseId, payload);
      assert e.mails[1..] == [] || e.mails[1..] == [Mail(CaseReceived, caseId, payload)];
      assert Alerts(e.mails[1..], id) == 0;
    }
  }

  /**
   * However many events arrive, in whatever order, at most one dispatch round is sent for
   * a case, and none for a case that was settled to begin with.
   */
  lemma {:induction false} AtMostOneDispatchRound(cases: map<string, Case>, users: map<string, UserContact>,
                                                  events: seq<Event>, json: JsonCodec, id: string)
    ensures var e := ApplyEvents(cases, users, events, json);
            && Alerts(e.mails, id) <= 1
            && (Settled(cases, id) ==> Alerts(e.mails, id) == 0 && Settled(e.cases, id))
            && (Alerts(e.mails, id) == 1 ==> Settled(e.cases, id))
  {
    if events != [] {
      var first := EventEffect(cases, users, events[0], json);
      var rest := ApplyEvents(first.cases, users, events[1..], json);
      EventAlerts(cases, users, events[0], json, id);
      AtMostOneDispatchRound(first.cases, users, events[1..], json, id);
      AlertsAppend(first.mails, rest.mails, id);
    }
  }

  /** The mail the application has sent, in order. */
  class Outbox {
    var sent: seq<Mail>

    constructor ()
      ensures sent == []
    {
      sent := [];
    }

    method Send(mail: Mail)
      modifies this
      ensures sent == old(sent) + [mail]
    {
      sent := sent + [mail];
    }
  }

  /** `handleCheckoutSessionCompleted`, with its two writes and its sends in the source's order. */
  method HandleCheckoutSessionCompleted(store: CaseStore, users: map<string, UserContact>, outbox: Outbox,
                                        metadata: Option<map<string, string>>, json: JsonCodec)
    requires store.Valid()
    modifies store, outbox
    ensures store.Valid()
    ensures var e := CompletedEffect(old(store.cases), users, metadata, json);
            store.cases == e.cases && outbox.sent == old(outbox.sent) + e.mails
  {
    ghost var e := CompletedEffect(store.cases, users, metadata, json);
    var caseId := CaseIdOf(metadata);
    if !IsSet(caseId) || caseId.value !in store.cases {
      return;
    }
    var id := caseId.value;
    var caseRecord := store.cases[id];
    if caseRecord.paymentStatus == Paid {
      return;
    }
    ghost var done := caseRecord.(paymentStatus := Paid, emailSent := true);
    assert e.cases == old(store.cases)[id := done];
    var paid := caseRecord.(paymentStatus := Paid, status := caseRecord.status);
    store.cases := store.cases[id := paid];
    if !caseRecord.emailSent {
      var payload := BuildCaseEmailPayload(caseRecord, UserOf(users, caseRecord), json);
      assert e.mails == Dispatch(id, payload);
      outbox.Send(Mail(InternalAlert, id, payload));
      if payload.email != "" {
        outbox.Send(Mail(CaseReceived, id, payload));
      }
      assert outbox.sent == old(outbox.sent) + e.mails;
      store.cases := store.cases[id := paid.(emailSent := true)];
      assert paid.(emailSent := true) == done;
    } else {
      assert paid == done;
    }
  }

  /** `handlePaymentFailed`: the conditional `updateMany` on an unpaid case. */
  method HandlePaymentFailed(store: CaseStore, metadata: Option<map<string, string>>)
    requires store.Valid()
    modifies store
    ensures store.Valid()
    ensures store.cases == FailedEffect(old(store.cases), metadata)
  {
    var caseId := CaseIdOf(metadata);
    if !IsSet(caseId) {
      return;
    }
    var id := caseId.value;
    if id in store.cases && store.cases[id].paymentStatus != Paid {
      store.cases := store.cases[id := store.cases[id].(paymentStatus := Failed)];
    }
  }

  /**
   * `POST /api/webhooks/stripe`: 500 without a webhook secret, 400 without a signature or
   * when the signature does not verify, in all three cases before any handler runs;
   * otherwise the event's handler runs and the answer is 200.
   */
  method Post(store: CaseStore, users: map<string, UserContact>, outbox: Outbox,
              webhookSecret: Option<string>, signature: Option<string>, body: string,
              constructEvent: (string, string, string) -> Option<Event>, json: JsonCodec)
      returns (r: Response)
    requires store.Valid()
    modifies store, outbox
    ensures store.Valid()
    ensures !IsSet(webhookSecret) ==> r == Reply(500, SecretMissing)
    ensures IsSet(webhookSecret) && !IsSet(signature) ==> r == Reply(400, MissingSignature)
    ensures IsSet(webhookSecret) && IsSet(signature) && constructEvent(body, signature.value, webhookSecret.value).None? ==>
              r == Reply(400, InvalidSignature)
    ensures r.Reply? && (r.status == 400 || r.status == 500) ==> store.cases == old(store.cases) && outbox.sent == old(outbox.sent)
    ensures IsSet(webhookSecret) && IsSet(signature) && constructEvent(body, signature.value, webhookSecret.value).Some? ==>
              var e := EventEffect(old(store.cases), users, constructEvent(body, signature.value, webhookSecret.value).value, json);
              r == Reply(200, Received) && store.cases == e.cases && outbox.sent == old(outbox.sent) + e.mails
  {
    if !IsSet(webhookSecret) {
      return Reply(500, SecretMissing);
    }
    if !IsSet(signature) {
      return Reply(400, MissingSignature);
    }
    var event := constructEvent(body, signature.value, webhookSecret.value);
    if event.None? {
      return Reply(400, InvalidSignature);
    }
    match event.value {
      case CheckoutCompleted(metadata) =>
        HandleCheckoutSessionCompleted(store, users, outbox, metadata, json);
      case PaymentFailed(metadata) =>
        HandlePaymentFailed(store, metadata);
      case PaymentSucceeded =>
      case Unhandled(_) =>
    }
    r := Reply(200, Received);
  }
}
