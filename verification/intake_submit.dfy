/**
 * The intake form submission (app/intake/submit/route.ts): the posted form is normalised
 * into a case payload (trimmed fields, blanks as null, fixed fallbacks), stored in the
 * intake session cookie, and the browser is sent on to checkout.
 */
module IntakeSubmit {
  import opened Wrappers
  import opened Strings
  import opened JsonValue
  import opened Http
  import opened Screenshots
  import opened Cases
  import opened IntakeSession

  /** A `FormDataEntryValue`: a text field or an uploaded file. */
  datatype FormEntry = Text(text: string) | File

  type Form = map<string, FormEntry>

  const FallbackDescription := "DMCA takedown request submitted via StopTheTea"
  const DefaultCountry := "United States"
  const CheckoutPath := "/api/create-checkout-session"

  /** `formData.get(name)`: the entry, or null when the field is absent. */
  function Get(form: Form, name: string): Option<FormEntry> {
    if name in form then Some(form[name]) else None
  }

  /** `optionalString`: a text field, trimmed, or null when it is not text or is blank. */
  function OptionalString(value: Option<FormEntry>): (r: Option<string>)
    ensures r.Some? ==> r.value != "" && IsTrimmed(r.value)
    ensures r.Some? <==> value.Some? && value.value.Text? && !AllWhite(value.value.text)
    ensures r.Some? ==> r.value == Trim(value.value.text)
  {
    if value.None? || !value.value.Text? then None
    else
      var trimmed := Trim(value.value.text);
      if |trimmed| > 0 then Some(trimmed) else None
  }

  /** `parseDateField`: a trimmed, non-blank text field read as midnight UTC of that day. */
  function ParseDateField(value: Option<FormEntry>, parseDate: string -> Option<Date>): (r: Option<Date>)
    ensures value.None? || value.value.File? || AllWhite(value.value.text) ==> r.None?
    ensures value.Some? && value.value.Text? && !AllWhite(value.value.text) ==>
              r == parseDate(Trim(value.value.text) + "T00:00:00Z")
  {
    if value.None? || !value.value.Text? then None
    else
      var raw := Trim(value.value.text);
      if raw == "" then None
      else parseDate(raw + "T00:00:00Z")
  }

  /** `parsed.filter(item => typeof item === "string" && item.length > 0)`, in order. */
  function StringItems(items: seq<Json>): (r: seq<string>)
    ensures |r| <= |items|
    ensures forall i :: 0 <= i < |r| ==> r[i] != ""
    ensures forall s :: s in r <==> s != "" && JString(s) in items
  {
    if items == [] then []
    else
      var rest := StringItems(items[1..]);
      assert items == [items[0]] + items[1..];
      if items[0].JString? && items[0].str != "" then [items[0].str] + rest else rest
  }

  /** One item is kept exactly when it is a non-empty string. */
  lemma StringItemsSingle(item: Json)
    ensures StringItems([item]) == (if item.JString? && item.str != "" then [item.str] else [])
  {
    assert [item][1..] == [];
  }

  /** Filtering a concatenation filters each part and keeps their order: every string stays where, and as often as, it occurs. */
  lemma {:induction false} StringItemsAppend(a: seq<Json>, b: seq<Json>)
    ensures StringItems(a + b) == StringItems(a) + StringItems(b)
  {
    if a == [] {
      assert a + b == b;
    } else {
      assert (a + b)[0] == a[0];
      assert (a + b)[1..] == a[1..] + b;
      StringItemsAppend(a[1..], b);
    }
  }

  /** An array of non-empty strings keeps all of its strings, in order. */
  lemma {:induction false} StringItemsOfArray(keys: seq<string>)
    requires forall i :: 0 <= i < |keys| ==> keys[i] != ""
    ensures StringItems(StringArray(keys).items) == keys
  {
    if keys != [] {
      assert StringArray(keys).items[1..] == StringArray(keys[1..]).items;
      StringItemsOfArray(keys[1..]);
      assert [keys[0]] + keys[1..] == keys;
    }
  }

  /** `parseScreenshotValue`: the non-empty strings of a JSON array; anything else gives none. */
  function ParseScreenshotValue(value: Option<FormEntry>, json: JsonCodec): (r: seq<string>)
    ensures forall i :: 0 <= i < |r| ==> r[i] != ""
    ensures value.None? || value.value.File? || value.value.text == "" ==> r == []
    ensures (value.Some? && value.value.Text? && value.value.text != "" && json.parse(value.value.text).Some?
             && json.parse(value.value.text).value.JArray?) ==> r == StringItems(json.parse(value.value.text).value.items)
    ensures (value.Some? && value.value.Text? && value.value.text != "" &&
             (json.parse(value.value.text).None? || !json.parse(value.value.text).value.JArray?)) ==> r == []
  {
    if value.None? || !value.value.Text? || |value.value.text| == 0 then []
    else
      match json.parse(value.value.text)
      case None => []
      case Some(parsed) => if parsed.JArray? then StringItems(parsed.items) else []
  }

  /** The keys the uploader writes as a JSON array are the keys the submission reads. */
  lemma UploadedKeysParse(keys: seq<string>, json: JsonCodec)
    requires Sound(json)
    requires forall i :: 0 <= i < |keys| ==> keys[i] != ""
    ensures ParseScreenshotValue(Some(Text(json.stringify(StringArray(keys)))), json) == keys
  {
    assert json.parse(json.stringify(StringArray(keys))) == Some(StringArray(keys));
    StringItemsOfArray(keys);
  }

  /** `normalizeOwnership`: the trimmed field when it names an ownership type, otherwise the first type. */
  function NormalizeOwnership(value: Option<FormEntry>): (r: string)
    ensures r in OwnershipTypes
    ensures value.Some? && value.value.Text? && Trim(value.value.text) in OwnershipTypes ==> r == Trim(value.value.text)
    ensures !(value.Some? && value.value.Text? && Trim(value.value.text) in OwnershipTypes) ==> r == OwnershipTypes[0]
  {
    var raw := if value.Some? && value.value.Text? then Trim(value.value.text) else "";
    if raw in OwnershipTypes then raw else OwnershipTypes[0]
  }

  /** One `{ storageKey }` screenshot per key, in order. */
  function KeyScreenshots(keys: seq<string>): (r: seq<ScreenshotPayload>)
    ensures |r| == |keys|
    ensures forall i :: 0 <= i < |keys| ==> r[i] == ScreenshotPayload(None, None, None, None, Some(keys[i]))
  {
    seq(|keys|, i requires 0 <= i < |keys| => ScreenshotPayload(None, None, None, None, Some(keys[i])))
  }

  /** The free-text notice fields are each the form's field of the same name, trimmed, and absent when blank. */
  predicate OptionalFieldsCopied(d: DmcaDetails<Date>, form: Form) {
    && d.originalPublicationLocation == OptionalString(Get(form, "originalPublicationLocation"))
    && d.teaUsername == OptionalString(Get(form, "teaUsername"))
    && d.whereContentAppears == OptionalString(Get(form, "whereContentAppears"))
    && d.commentsOrCaptions == OptionalString(Get(form, "commentsOrCaptions"))
    && d.fullLegalName == OptionalString(Get(form, "fullLegalName"))
    && d.addressLine1 == OptionalString(Get(form, "addressLine1"))
    && d.addressLine2 == OptionalString(Get(form, "addressLine2"))
    && d.city == OptionalString(Get(form, "city"))
    && d.state == OptionalString(Get(form, "state"))
    && d.zip == OptionalString(Get(form, "zip"))
    && d.phone == OptionalString(Get(form, "phone"))
    && d.electronicSignature == OptionalString(Get(form, "electronicSignature"))
  }

  /** `buildCasePayload`: the case payload a posted intake form describes. */
  function BuildCasePayload(form: Form, json: JsonCodec, parseDate: string -> Option<Date>): (r: CaseInput)
    ensures r.targetPlatform == Some(DefaultPlatform) && r.status.None?
    ensures r.description != ""
    ensures r.description == OptionalString(Get(form, "copyrightedWorkDescription")).GetOr(FallbackDescription)
    ensures r.profileLink == OptionalString(Get(form, "teaProfileUrl"))
    ensures r.contactEmail == OptionalString(Get(form, "email"))
    ensures r.screenshots == Some(KeyScreenshots(ParseScreenshotValue(Get(form, "screenshotFileKeys"), json)))
    ensures r.dmcaDetails.Some?
    ensures r.dmcaDetails.value.ownershipType in OwnershipTypes
    ensures r.dmcaDetails.value.ownershipType == NormalizeOwnership(Get(form, "ownershipType"))
    ensures OptionalFieldsCopied(r.dmcaDetails.value, form)
    ensures r.dmcaDetails.value.copyrightedWorkDescription == OptionalString(Get(form, "copyrightedWorkDescription"))
    ensures r.dmcaDetails.value.teaProfileUrl == r.profileLink && r.dmcaDetails.value.email == r.contactEmail
    ensures r.dmcaDetails.value.country.Some? && r.dmcaDetails.value.country.value != ""
    ensures r.dmcaDetails.value.country == Some(OptionalString(Get(form, "country")).GetOr(DefaultCountry))
    ensures r.dmcaDetails.value.dateCreated == ParseDateField(Get(form, "dateCreated"), parseDate)
    ensures r.dmcaDetails.value.signatureDate == ParseDateField(Get(form, "signatureDate"), parseDate)
  {
    var description := OptionalString(Get(form, "copyrightedWorkDescription"));
    var teaProfileUrl := OptionalString(Get(form, "teaProfileUrl"));
    var email := OptionalString(Get(form, "email"));
    var countryRaw := OptionalString(Get(form, "country")).GetOr(DefaultCountry);
    var country := if |countryRaw| > 0 then countryRaw else DefaultCountry;
    var keys := ParseScreenshotValue(Get(form, "screenshotFileKeys"), json);
    CreateCaseInput(
      targetPlatform := Some(DefaultPlatform),
      description := description.GetOr(FallbackDescription),
      status := None,
      profileLink := teaProfileUrl,
      contactEmail := email,
      screenshots := Some(KeyScreenshots(keys)),
      dmcaDetails := Some(DmcaDetails(
        ownershipType := NormalizeOwnership(Get(form, "ownershipType")),
        copyrightedWorkDescription := description,
        dateCreated := ParseDateField(Get(form, "dateCreated"), parseDate),
        originalPublicationLocation := OptionalString(Get(form, "originalPublicationLocation")),
        teaUsername := OptionalString(Get(form, "teaUsername")),
        teaProfileUrl := teaProfileUrl,
        whereContentAppears := OptionalString(Get(form, "whereContentAppears")),
        commentsOrCaptions := OptionalString(Get(form, "commentsOrCaptions")),
        fullLegalName := OptionalString(Get(form, "fullLegalName")),
        addressLine1 := OptionalString(Get(form, "addressLine1")),
        addressLine2 := OptionalString(Get(form, "addressLine2")),
        city := OptionalString(Get(form, "city")),
        state := OptionalString(Get(form, "state")),
        zip := OptionalString(Get(form, "zip")),
        country := Some(country),
        email := email,
        phone := OptionalString(Get(form, "phone")),
        electronicSignature := OptionalString(Get(form, "electronicSignature")),
        signatureDate := ParseDateField(Get(form, "signatureDate"), parseDate))))
  }

  /**
   * The case created from a submitted form stores exactly the submitted storage keys, in
   * order, as long as each is trimmed and does not begin with "http".
   */
  lemma SubmittedKeysStored(form: Form, json: JsonCodec, parseDate: string -> Option<Date>, urlPath: string -> Option<string>)
    requires var keys := ParseScreenshotValue(Get(form, "screenshotFileKeys"), json);
             forall i :: 0 <= i < |keys| ==> IsTrimmed(keys[i]) && !IsUrlLike(keys[i])
    ensures ScreenshotKeys(BuildCasePayload(form, json, parseDate).screenshots, urlPath)
            == ParseScreenshotValue(Get(form, "screenshotFileKeys"), json)
  {
    var keys := ParseScreenshotValue(Get(form, "screenshotFileKeys"), json);
    assert StoredValues(KeyScreenshots(keys)) == Present(keys);
    NormalizePlainKeys(keys, urlPath);
  }

  /**
   * `POST /intake/submit`: a signed-out visitor is sent to sign in with nothing stored;
   * otherwise the payload is stored in the intake cookie for the signed-in user and the
   * browser is sent on to checkout with a 303, or back to the form with the error message
   * when the cookie cannot be encoded.
   */
  method Post(session: Option<SessionUser>, form: Form, now: int, iv: Bytes, json: JsonCodec, env: SessionEnv)
      returns (r: Response)
    requires |iv| == IvLength
    ensures SignedInId(session).None? ==> r == SignInToIntake
    ensures SignedInId(session).Some? && GetSecretKey(env).Err? ==> r == IntakeError(SecretError)
    ensures SignedInId(session).Some? && GetSecretKey(env).Ok? ==>
              var payload := BuildCasePayload(form, json, env.parseDate);
              var token := SessionToken(SignedInId(session).value, payload, now, iv, env).value;
              r == Redirect(303, Local(CheckoutPath, []), map[CookieName := SetCookie(token, IntakeCookieOptions(env.production))])
  {
    var userId := SignedInId(session);
    if userId.None? {
      return SignInToIntake;
    }
    var payload := BuildCasePayload(form, json, env.parseDate);
    var cookies := new ResponseCookies();
    var stored := StoreIntakeSession(cookies, userId.value, payload, now, iv, env);
    if stored.Fail? {
      return IntakeError(stored.message);
    }
    r := Redirect(303, Local(CheckoutPath, []), cookies.jar);
  }

  /**
   * What a submission stores is what the same user reads back at checkout within a day,
   * and what nobody else can read.
   */
  lemma SubmitThenRead(userId: string, form: Form, storedAt: int, iv: Bytes, json: JsonCodec, env: SessionEnv,
                       reader: string, now: int)
    requires SoundEnv(env) && |iv| == IvLength && GetSecretKey(env).Ok?
    ensures var payload := BuildCasePayload(form, json, env.parseDate);
            var cookies := map[CookieName := SessionToken(userId, payload, storedAt, iv, env).value];
            && (reader == userId && now - storedAt <= 86400000 ==> ReadIntakeSession(cookies, reader, now, env) == Some(payload))
            && (reader != userId ==> ReadIntakeSession(cookies, reader, now, env).None?)
  {
    var payload := BuildCasePayload(form, json, env.parseDate);
    var cookies := map[CookieName := SessionToken(userId, payload, storedAt, iv, env).value];
    ReadAfterStore(userId, payload, storedAt, iv, env, reader, now, cookies);
  }
}
