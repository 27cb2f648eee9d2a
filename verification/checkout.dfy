/**
 * Starting checkout (app/api/create-checkout-session/route.ts): a signed-in user with a
 * valid intake cookie gets exactly one new case, and a hosted checkout session whose
 * metadata names that case is opened for the configured price.
 *
 * The payment gateway's `checkout.sessions.create` is the `gateway` parameter: it yields
 * `Err` where the call throws and otherwise the session's optional URL.
 */
module Checkout {
  import opened Wrappers
  import opened JsonValue
  import opened Http
  import opened Cases
  import opened IntakeSession

  const LocalOrigin := "http://localhost:3000"
  const CheckoutUnavailable := "Checkout is temporarily unavailable. Contact support."
  const FormExpired := "Your form data expired. Please submit again."
  const CreateFailed := "Unable to create checkout session."
  const StartFailed := "Unable to start checkout. Please try again."
  const UseGet := "Use GET /api/create-checkout-session after submitting the intake form."

  /** `POST /api/create-checkout-session` always answers 405 with this message. */
  const PostReply: Response := Reply(405, UseGet)

  /** The environment the route reads: the price and the gateway's secret key. */
  datatype CheckoutConfig = CheckoutConfig(priceId: Option<string>, stripeSecretKey: Option<string>)

  datatype LineItemRequest = LineItemRequest(price: string, quantity: nat)

  /** The parameters of `checkout.sessions.create`. */
  datatype CheckoutRequest = CheckoutRequest(
    mode: string,
    lineItems: seq<LineItemRequest>,
    metadata: map<string, string>,
    paymentIntentMetadata: map<string, string>,
    clientReferenceId: string,
    customerEmail: Option<string>,
    successUrl: string,
    cancelUrl: string)

  /** `buildOrigin`: the Origin header, else the request URL's origin, else the local default. */
  function BuildOrigin(originHeader: Option<string>, requestOrigin: Option<string>): (r: string)
    ensures IsSet(originHeader) ==> r == originHeader.value
    ensures !IsSet(originHeader) && requestOrigin.Some? ==> r == requestOrigin.value
    ensures !IsSet(originHeader) && requestOrigin.None? ==> r == LocalOrigin
  {
    if IsSet(originHeader) then originHeader.value
    else if requestOrigin.Some? then requestOrigin.value
    else LocalOrigin
  }

  /** The checkout metadata: the created case and the user it was created for. */
  function Metadata(c: Case, userId: string): (r: map<string, string>)
    ensures r.Keys == {"caseId", "caseNumber", "userId"}
    ensures r["caseId"] == c.id && r["caseNumber"] == c.caseNumber && r["userId"] == userId
  {
    map["caseId" := c.id, "caseNumber" := c.caseNumber, "userId" := userId]
  }

  /** The checkout the route asks the gateway for, for case `c` of the signed-in user. */
  function CheckoutRequestFor(c: Case, user: SessionUser, userId: string, priceId: string, origin: string): (r: CheckoutRequest)
    ensures r.mode == "payment"
    ensures r.lineItems == [LineItemRequest(priceId, 1)]
    ensures r.metadata == r.paymentIntentMetadata == Metadata(c, userId)
    ensures r.clientReferenceId == userId
    ensures r.customerEmail == user.email
    ensures r.successUrl == origin + "/intake/success?session_id={CHECKOUT_SESSION_ID}"
    ensures r.cancelUrl == origin + "/intake"
  {
    var metadata := Metadata(c, userId);
    CheckoutRequest(
      mode := "payment",
      lineItems := [LineItemRequest(priceId, 1)],
      metadata := metadata,
      paymentIntentMetadata := metadata,
      clientReferenceId := userId,
      customerEmail := user.email,
      successUrl := origin + "/intake/success?session_id={CHECKOUT_SESSION_ID}",
      cancelUrl := origin + "/intake")
  }

  /** What the route answers once the case exists: the gateway's page, or an error redirect. */
  function GatewayResponse(config: CheckoutConfig, request: CheckoutRequest, gateway: CheckoutRequest -> Result<Option<string>>): (r: Response)
    ensures r.Redirect? && r.status == 303 <==>
              IsSet(config.stripeSecretKey) && gateway(request).Ok? && IsSet(gateway(request).value)
    ensures r.Redirect? && r.status == 303 ==>
              r.location == External(gateway(request).value.value) && r.cookies == map[CookieName := DeleteCookie]
    ensures !IsSet(config.stripeSecretKey) || gateway(request).Err? ==> r == IntakeError(CreateFailed)
    ensures IsSet(config.stripeSecretKey) && gateway(request).Ok? && !IsSet(gateway(request).value) ==> r == IntakeError(StartFailed)
  {
    if !IsSet(config.stripeSecretKey) then IntakeError(CreateFailed)
    else
      match gateway(request)
      case Err(_) => IntakeError(CreateFailed)
      case Ok(url) =>
        if !IsSet(url) then IntakeError(StartFailed)
        else Redirect(303, External(url.value), map[CookieName := DeleteCookie])
  }

  /**
   * `GET /api/create-checkout-session`. Signed out, without a configured price, or without
   * a valid intake cookie for this user, nothing is written. Otherwise the stored payload
   * becomes exactly one new case (id `newId`, case-number UUID `uuid`) before the gateway
   * is called; the case stays when the gateway fails. A payload the store refuses is
   * answered with the generic error and writes nothing.
   */
  method CreateCheckoutSession(store: CaseStore, session: Option<SessionUser>, requestCookies: map<string, string>,
                               originHeader: Option<string>, requestOrigin: Option<string>, config: CheckoutConfig,
                               now: int, newId: string, uuid: string, env: SessionEnv, json: JsonCodec,
                               urlPath: string -> Option<string>, gateway: CheckoutRequest -> Result<Option<string>>)
      returns (r: Response)
    requires store.Valid()
    modifies store
    ensures store.Valid()
    ensures SignedInId(session).None? ==> r == SignInToIntake && store.cases == old(store.cases)
    ensures SignedInId(session).Some? && !IsSet(config.priceId) ==>
              r == IntakeError(CheckoutUnavailable) && store.cases == old(store.cases)
    ensures SignedInId(session).Some? && IsSet(config.priceId) &&
            ReadIntakeSession(requestCookies, SignedInId(session).value, now, env).None? ==>
              r == IntakeError(FormExpired) && store.cases == old(store.cases)
    ensures SignedInId(session).Some? && IsSet(config.priceId) &&
            ReadIntakeSession(requestCookies, SignedInId(session).value, now, env).Some? ==>
              var userId := SignedInId(session).value;
              var payload := ReadIntakeSession(requestCookies, userId, now, env).value;
              var created := NewCaseRecord(newId, userId, payload, uuid, now, store.defaultPaymentStatus, store.defaultEmailSent, json, urlPath);
              if IsStatusKey(payload.status.GetOr(DefaultStatus)) && newId !in old(store.cases) then
                && store.cases == old(store.cases)[newId := created]
                && r == GatewayResponse(config, CheckoutRequestFor(created, session.value, userId, config.priceId.value,
                                                                   BuildOrigin(originHeader, requestOrigin)), gateway)
              else
                r == IntakeError(CreateFailed) && store.cases == old(store.cases)
  {
    var userId := SignedInId(session);
    if userId.None? {
      return SignInToIntake;
    }
    if !IsSet(config.priceId) {
      return IntakeError(CheckoutUnavailable);
    }
    var storedPayload := ReadIntakeSession(requestCookies, userId.value, now, env);
    if storedPayload.None? {
      return IntakeError(FormExpired);
    }
    var caseRecord := store.CreateCaseForUser(userId.value, storedPayload.value, newId, uuid, now, json, urlPath);
    if caseRecord.Err? {
      return IntakeError(CreateFailed);
    }
    var origin := BuildOrigin(originHeader, requestOrigin);
    var request := CheckoutRequestFor(caseRecord.value, session.value, userId.value, config.priceId.value, origin);
    r := GatewayResponse(config, request, gateway);
  }
}
