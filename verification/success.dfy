/**
 * The return from the hosted checkout (app/intake/success/route.ts): the checkout session
 * named in the URL is fetched from the gateway and checked, defensively, against the
 * configured product, the signed-in user and the case it names, before the user is sent
 * to the dashboard. The route reads the case table and never writes it.
 *
 * `checkout.sessions.retrieve` is the `retrieve` parameter: `None` where the call throws.
 */
module Success {
  import opened Wrappers
  import opened Http
  import opened Cases
  import opened IntakeSession
  import opened Checkout

  const VerificationUnavailable := "Checkout verification unavailable. Contact support with your receipt."
  const MissingSession := "Missing Stripe session reference."
  const NotConfirmed := "Stripe payment not confirmed. Please try again."
  const UnexpectedLineItems := "Unexpected Stripe line item details. Contact support with your receipt."
  const LineItemMismatch := "Line item mismatch detected. Contact support with your receipt."
  const AmountMismatch := "Charged amount did not match this product. Contact support."
  const CurrencyMismatch := "Currency mismatch detected for this checkout. Contact support."
  const NotYourPayment := "This payment does not belong to your account."
  const NoCaseReference := "We could not match your payment to a case. Contact support with your receipt."
  const NotYourCase := "This case does not belong to your account."
  const CouldNotFinish := "We could not finish creating your case. Contact support with your receipt."

  datatype Price = Price(id: string, unitAmount: Option<int>, currency: string)

  datatype LineItem = LineItem(price: Option<Price>, quantity: Option<int>)

  /** The fields of a retrieved checkout session (with line item prices expanded) the route reads. */
  datatype CheckoutSession = CheckoutSession(
    paymentStatus: string,
    status: Option<string>,
    lineItems: Option<seq<LineItem>>,
    amountTotal: Option<int>,
    currency: Option<string>,
    metadata: Option<map<string, string>>,
    clientReferenceId: Option<string>)

  /** `checkoutSession.metadata?.userId ?? checkoutSession.client_reference_id` */
  function PaymentUserId(cs: CheckoutSession): (r: Option<string>)
    ensures cs.metadata.Some? && "userId" in cs.metadata.value ==> r == Some(cs.metadata.value["userId"])
    ensures !(cs.metadata.Some? && "userId" in cs.metadata.value) ==> r == cs.clientReferenceId
  {
    if cs.metadata.Some? && "userId" in cs.metadata.value then Some(cs.metadata.value["userId"]) else cs.clientReferenceId
  }

  /** `checkoutSession.metadata?.caseId` */
  function MetadataCaseId(cs: CheckoutSession): Option<string> {
    if cs.metadata.Some? && "caseId" in cs.metadata.value then Some(cs.metadata.value["caseId"]) else None
  }

  function Items(cs: CheckoutSession): seq<LineItem> {
    cs.lineItems.GetOr([])
  }

  /**
   * The purchase checks, in the route's order: paid and complete; exactly one line item,
   * with a price; that price is the configured one, bought once; a non-zero unit amount
   * that is the amount charged; a currency that is the price's; paid by this user.
   */
  predicate ValidPurchase(cs: CheckoutSession, priceId: string, userId: string) {
    && cs.paymentStatus == "paid" && cs.status == Some("complete")
    && |Items(cs)| == 1 && Items(cs)[0].price.Some?
    && Items(cs)[0].price.value.id == priceId && Items(cs)[0].quantity == Some(1)
    && Items(cs)[0].price.value.unitAmount.GetOr(0) != 0
    && Items(cs)[0].price.value.unitAmount.GetOr(0) == cs.amountTotal.GetOr(0)
    && IsSet(cs.currency) && cs.currency.value == Items(cs)[0].price.value.currency
    && IsSet(PaymentUserId(cs)) && PaymentUserId(cs).value == userId
  }

  /** The first failed purchase check's message, in the route's order; `None` when all pass. */
  function PurchaseError(cs: CheckoutSession, priceId: string, userId: string): (r: Option<string>)
    ensures r.None? <==> ValidPurchase(cs, priceId, userId)
    ensures !(cs.paymentStatus == "paid" && cs.status == Some("complete")) ==> r == Some(NotConfirmed)
  {
    var items := Items(cs);
    if cs.paymentStatus != "paid" || cs.status != Some("complete") then Some(NotConfirmed)
    else if items == [] || items[0].price.None? || |items| != 1 then Some(UnexpectedLineItems)
    else
      var price := items[0].price.value;
      var quantity := items[0].quantity.GetOr(0);
      var expected := price.unitAmount.GetOr(0);
      if price.id != priceId || quantity != 1 then Some(LineItemMismatch)
      else if expected == 0 || expected != cs.amountTotal.GetOr(0) then Some(AmountMismatch)
      else if !IsSet(cs.currency) || cs.currency.value != price.currency then Some(CurrencyMismatch)
      else if !IsSet(PaymentUserId(cs)) || PaymentUserId(cs).value != userId then Some(NotYourPayment)
      else None
  }

  /** `/dashboard?caseCreated=1&caseId=…[&caseNumber=…]`, with the intake cookie cleared. */
  function DashboardRedirect(caseId: string, caseNumber: string): (r: Response)
    ensures r.Redirect? && r.status == 303 && r.cookies == map[CookieName := DeleteCookie]
    ensures r.location.Local? && r.location.path == "/dashboard"
    ensures |r.location.query| >= 2 && r.location.query[..2] == [("caseCreated", "1"), ("caseId", caseId)]
    ensures caseNumber != "" <==> r.location.query == [("caseCreated", "1"), ("caseId", caseId), ("caseNumber", caseNumber)]
    ensures caseNumber == "" <==> |r.location.query| == 2
  {
    var query := [("caseCreated", "1"), ("caseId", caseId)] + (if caseNumber != "" then [("caseNumber", caseNumber)] else []);
    Redirect(303, Local("/dashboard", query), map[CookieName := DeleteCookie])
  }

  /** Does the table hold case `caseId`, owned by `userId`? */
  predicate OwnsCase(cases: map<string, Case>, caseId: string, userId: string) {
    caseId in cases && cases[caseId].userId == userId
  }

  /**
   * `GET /intake/success?session_id=…`. The dashboard redirect is reached exactly when the
   * user is signed in, the route is configured, the retrieved session passes every purchase
   * check, and the case it names exists and belongs to the user.
   */
  function SuccessReturn(session: Option<SessionUser>, config: CheckoutConfig, sessionIdParam: Option<string>,
                         retrieve: string -> Option<CheckoutSession>, cases: map<string, Case>): (r: Response)
    ensures SignedInId(session).None? ==> r == SignInToIntake
    ensures r.Redirect? && r.status == 303 <==>
              && SignedInId(session).Some? && IsSet(config.priceId) && IsSet(config.stripeSecretKey)
              && IsSet(sessionIdParam) && retrieve(sessionIdParam.value).Some?
              && ValidPurchase(retrieve(sessionIdParam.value).value, config.priceId.value, SignedInId(session).value)
              && IsSet(MetadataCaseId(retrieve(sessionIdParam.value).value))
              && OwnsCase(cases, MetadataCaseId(retrieve(sessionIdParam.value).value).value, SignedInId(session).value)
    ensures r.Redirect? && r.status == 303 ==>
              var caseId := MetadataCaseId(retrieve(sessionIdParam.value).value).value;
              r == DashboardRedirect(caseId, cases[caseId].caseNumber)
  {
    var userId := SignedInId(session);
    if userId.None? then SignInToIntake
    else if !IsSet(config.priceId) then IntakeError(VerificationUnavailable)
    else if !IsSet(config.stripeSecretKey) then IntakeError(CouldNotFinish)
    else if !IsSet(sessionIdParam) then IntakeError(MissingSession)
    else
      match retrieve(sessionIdParam.value)
      case None => IntakeError(CouldNotFinish)
      case Some(cs) =>
        match PurchaseError(cs, config.priceId.value, userId.value)
        case Some(message) => IntakeError(message)
        case None =>
          var caseId := MetadataCaseId(cs);
          if !IsSet(caseId) then IntakeError(NoCaseReference)
          else if !OwnsCase(cases, caseId.value, userId.value) then IntakeError(NotYourCase)
          else DashboardRedirect(caseId.value, cases[caseId.value].caseNumber)
  }

  /**
   * A forged return is turned back: a session charged a different amount than the
   * configured price's, or paid for another account, never reaches the dashboard.
   */
  lemma ForgedReturnRejected(session: Option<SessionUser>, config: CheckoutConfig, sessionIdParam: Option<string>,
                             retrieve: string -> Option<CheckoutSession>, cases: map<string, Case>)
    requires IsSet(sessionIdParam) && retrieve(sessionIdParam.value).Some?
    requires var cs := retrieve(sessionIdParam.value).value;
             |Items(cs)| == 1 && Items(cs)[0].price.Some? &&
             (Items(cs)[0].price.value.unitAmount.GetOr(0) != cs.amountTotal.GetOr(0) ||
              PaymentUserId(cs) != SignedInId(session))
    ensures !(SuccessReturn(session, config, sessionIdParam, retrieve, cases).Redirect? &&
              SuccessReturn(session, config, sessionIdParam, retrieve, cases).status == 303)
  {
  }
}
