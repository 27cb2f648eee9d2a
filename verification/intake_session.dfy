/**
 * The intake session cookie (lib/intakeSession.ts): the submitted form, with its dates
 * written as ISO strings, stored with the user id and the time of storing in an encrypted,
 * base64-framed cookie that is read back at most 24 hours later, by the same user only.
 *
 * The cryptographic, encoding and date primitives stay abstract; they come in a
 * `SessionEnv` whose `SoundEnv` predicate states what the model relies on: AES-GCM opens what
 * it sealed under the same key and IV and authenticates nothing else, base64 decodes what it encoded, the record's JSON
 * form parses back, and an ISO string parses back to its date.
 */
module IntakeSession {
  import opened Wrappers
  import opened Cases
  import opened Http

  const CookieName := "stt_intake_payload"
  const CookieMaxAgeSeconds: nat := 60 * 60 * 24
  const IvLength := 12
  const TagLength := 16
  const MinSecretLength := 16
  const SecretError := "INTAKE_SESSION_SECRET must be set to at least 16 characters"

  newtype uint8 = x: int | 0 <= x < 256
  type Bytes = seq<uint8>

  /** The form as it travels in the cookie: dates as ISO strings, or null. */
  type SerializedCaseInput = CreateCaseInput<string>

  datatype IntakeSessionRecord = IntakeSessionRecord(userId: string, createdAt: int, data: SerializedCaseInput)

  /** What AES-256-GCM encryption yields: the 16-byte authentication tag and the ciphertext. */
  datatype Sealed = Sealed(tag: Bytes, ciphertext: Bytes)

  /**
   * The primitives the cookie codec is built from. `open` returns `None` where decryption
   * or authentication throws; `recordFromBytes` returns `None` where UTF-8 decoding or
   * `JSON.parse` throws or yields no record; `parseDate` is `new Date(text)`, `None` where it is an invalid date.
   */
  datatype SessionEnv = SessionEnv(
    secret: Option<string>,          // INTAKE_SESSION_SECRET
    production: bool,                // NODE_ENV === "production"
    sha256: string -> Bytes,
    seal: (Bytes, Bytes, Bytes) -> Sealed,
    open: (Bytes, Bytes, Bytes, Bytes) -> Option<Bytes>,
    toBase64: Bytes -> string,
    fromBase64: string -> Bytes,
    recordToBytes: IntakeSessionRecord -> Bytes,
    recordFromBytes: Bytes -> Option<IntakeSessionRecord>,
    toIso: Date -> string,
    parseDate: string -> Option<Date>)

  ghost predicate SoundEnv(env: SessionEnv) {
    && (forall key, iv, plain :: |env.seal(key, iv, plain).tag| == TagLength)
    && (forall key, iv, plain :: env.open(key, iv, env.seal(key, iv, plain).tag, env.seal(key, iv, plain).ciphertext) == Some(plain))
    && (forall key, iv, tag, ciphertext :: env.open(key, iv, tag, ciphertext).Some? ==>
          env.seal(key, iv, env.open(key, iv, tag, ciphertext).value) == Sealed(tag, ciphertext))
    && (forall b :: env.fromBase64(env.toBase64(b)) == b)
    && (forall b :: b != [] ==> env.toBase64(b) != "")
    && (forall r :: env.recordFromBytes(env.recordToBytes(r)) == Some(r))
    && (forall d: Date :: env.toIso(d) != "")
    && (forall d: Date :: env.parseDate(env.toIso(d)) == Some(d))
  }

  /** The options the cookie is set with: a day long, HTTP only, lax, secure in production. */
  function IntakeCookieOptions(production: bool): (r: CookieOptions)
    ensures r.httpOnly && r.sameSite == "lax" && r.path == "/"
    ensures r.secure <==> production
    ensures r.maxAge == 86400
  {
    CookieOptions(httpOnly := true, sameSite := "lax", secure := production, path := "/", maxAge := CookieMaxAgeSeconds)
  }

  /** `getSecretKey`: the SHA-256 of the secret, which must have at least 16 characters. */
  function GetSecretKey(env: SessionEnv): (r: Result<Bytes>)
    ensures r.Err? <==> env.secret.None? || |env.secret.value| < MinSecretLength
    ensures r.Err? ==> r.message == SecretError
    ensures r.Ok? ==> r.value == env.sha256(env.secret.value)
  {
    if env.secret.None? || env.secret.value == "" || |env.secret.value| < MinSecretLength then Err(SecretError)
    else Ok(env.sha256(env.secret.value))
  }

  /** The token layout: IV, then authentication tag, then ciphertext. */
  function Frame(iv: Bytes, tag: Bytes, ciphertext: Bytes): Bytes {
    iv + tag + ciphertext
  }

  function Min(a: int, b: int): int {
    if a < b then a else b
  }

  /** `subarray(0, 12)`, `subarray(12, 28)` and `subarray(28)`, which clamp to the buffer. */
  function Unframe(raw: Bytes): (r: (Bytes, Bytes, Bytes))
    ensures r.0 + r.1 + r.2 == raw
    ensures |r.0| <= IvLength && |r.1| <= TagLength
  {
    var a := Min(IvLength, |raw|);
    var b := Min(IvLength + TagLength, |raw|);
    assert raw[..a] + raw[a..b] + raw[b..] == raw;
    (raw[..a], raw[a..b], raw[b..])
  }

  /** Slicing at the fixed offsets recovers the three parts of a framed token. */
  lemma UnframeFrame(iv: Bytes, tag: Bytes, ciphertext: Bytes)
    requires |iv| == IvLength && |tag| == TagLength
    ensures Unframe(Frame(iv, tag, ciphertext)) == (iv, tag, ciphertext)
  {
    var raw := Frame(iv, tag, ciphertext);
    assert raw[..IvLength] == iv;
    assert raw[IvLength..IvLength + TagLength] == tag;
    assert raw[IvLength + TagLength..] == ciphertext;
  }

  /** `encodeRecord` with the random IV `iv`: fails, like `getSecretKey`, without a usable secret. */
  function EncodeRecord(record: IntakeSessionRecord, iv: Bytes, env: SessionEnv): (r: Result<string>)
    requires |iv| == IvLength
    ensures r.Err? <==> GetSecretKey(env).Err?
    ensures r.Ok? ==> var sealed := env.seal(GetSecretKey(env).value, iv, env.recordToBytes(record));
                      r.value == env.toBase64(Frame(iv, sealed.tag, sealed.ciphertext))
  {
    match GetSecretKey(env)
    case Err(m) => Err(m)
    case Ok(key) =>
      var sealed := env.seal(key, iv, env.recordToBytes(record));
      Ok(env.toBase64(Frame(iv, sealed.tag, sealed.ciphertext)))
  }

  /** `decodeRecord`: any failure along the way, a missing secret included, gives no record. */
  function DecodeRecord(value: string, env: SessionEnv): (r: Option<IntakeSessionRecord>)
    ensures GetSecretKey(env).Err? ==> r.None?
  {
    var (iv, tag, ciphertext) := Unframe(env.fromBase64(value));
    match GetSecretKey(env)
    case Err(_) => None
    case Ok(key) =>
      match env.open(key, iv, tag, ciphertext)
      case None => None
      case Some(plain) => env.recordFromBytes(plain)
  }

  /**
   * Only a sealed token decodes: a value that yields a record frames a full IV and tag, and
   * its tag and ciphertext are what sealing some plaintext under the server key and that IV
   * gives, a plaintext that reads as the very record.
   */
  lemma DecodeAuthenticated(value: string, env: SessionEnv)
    requires SoundEnv(env)
    requires DecodeRecord(value, env).Some?
    ensures GetSecretKey(env).Ok?
    ensures |env.fromBase64(value)| >= IvLength + TagLength
    ensures var (iv, tag, ciphertext) := Unframe(env.fromBase64(value));
            exists plain :: env.seal(GetSecretKey(env).value, iv, plain) == Sealed(tag, ciphertext)
                            && env.recordFromBytes(plain) == DecodeRecord(value, env)
  {
    var raw := env.fromBase64(value);
    var (iv, tag, ciphertext) := Unframe(raw);
    var key := GetSecretKey(env).value;
    var plain := env.open(key, iv, tag, ciphertext).value;
    assert env.seal(key, iv, plain) == Sealed(tag, ciphertext);
    assert |tag| == TagLength;
  }

  /** A token decodes to the record it was encoded from. */
  lemma DecodeEncode(record: IntakeSessionRecord, iv: Bytes, env: SessionEnv)
    requires SoundEnv(env) && |iv| == IvLength
    requires GetSecretKey(env).Ok?
    ensures DecodeRecord(EncodeRecord(record, iv, env).value, env) == Some(record)
  {
    var key := GetSecretKey(env).value;
    var plain := env.recordToBytes(record);
    var sealed := env.seal(key, iv, plain);
    var raw := Frame(iv, sealed.tag, sealed.ciphertext);
    assert env.fromBase64(env.toBase64(raw)) == raw;
    UnframeFrame(iv, sealed.tag, sealed.ciphertext);
    assert env.open(key, iv, sealed.tag, sealed.ciphertext) == Some(plain);
  }

  function SerializeDate(d: Option<Date>, env: SessionEnv): Option<string> {
    if d.Some? then Some(env.toIso(d.value)) else None
  }

  /** `value ? new Date(value) : null`: an empty or null string gives no date. */
  function DeserializeDate(s: Option<string>, env: SessionEnv): Option<Date> {
    if s.Some? && s.value != "" then env.parseDate(s.value) else None
  }

  /** The non-date legal-notice fields of two records agree. */
  predicate SameText<A, B>(a: DmcaDetails<A>, b: DmcaDetails<B>) {
    && a.ownershipType == b.ownershipType
    && a.copyrightedWorkDescription == b.copyrightedWorkDescription
    && a.originalPublicationLocation == b.originalPublicationLocation
    && a.teaUsername == b.teaUsername
    && a.teaProfileUrl == b.teaProfileUrl
    && a.whereContentAppears == b.whereContentAppears
    && a.commentsOrCaptions == b.commentsOrCaptions
    && a.fullLegalName == b.fullLegalName
    && a.addressLine1 == b.addressLine1
    && a.addressLine2 == b.addressLine2
    && a.city == b.city
    && a.state == b.state
    && a.zip == b.zip
    && a.country == b.country
    && a.email == b.email
    && a.phone == b.phone
    && a.electronicSignature == b.electronicSignature
  }

  /** The non-legal-notice fields of two inputs agree. */
  predicate SameForm<A, B>(a: CreateCaseInput<A>, b: CreateCaseInput<B>) {
    && a.targetPlatform == b.targetPlatform
    && a.description == b.description
    && a.status == b.status
    && a.profileLink == b.profileLink
    && a.contactEmail == b.contactEmail
    && a.screenshots == b.screenshots
  }

  /** `serializeCaseInput`: every date becomes its ISO string; nothing else changes. */
  function Serialize(input: CaseInput, env: SessionEnv): (r: SerializedCaseInput)
    ensures SameForm(input, r)
    ensures r.dmcaDetails.Some? <==> input.dmcaDetails.Some?
    ensures r.dmcaDetails.Some? ==>
              && SameText(input.dmcaDetails.value, r.dmcaDetails.value)
              && r.dmcaDetails.value.dateCreated == SerializeDate(input.dmcaDetails.value.dateCreated, env)
              && r.dmcaDetails.value.signatureDate == SerializeDate(input.dmcaDetails.value.signatureDate, env)
  {
    var details := match input.dmcaDetails
      case None => None
      case Some(d) => Some(DmcaDetails(d.ownershipType, d.copyrightedWorkDescription, SerializeDate(d.dateCreated, env),
        d.originalPublicationLocation, d.teaUsername, d.teaProfileUrl, d.whereContentAppears,
        d.commentsOrCaptions, d.fullLegalName, d.addressLine1, d.addressLine2, d.city, d.state, d.zip,
        d.country, d.email, d.phone, d.electronicSignature, SerializeDate(d.signatureDate, env)));
    CreateCaseInput(input.targetPlatform, input.description, input.status, input.profileLink,
      input.contactEmail, input.screenshots, details)
  }

  /** `deserializeCaseInput`: every non-empty date string is parsed back; nothing else changes. */
  function Deserialize(input: SerializedCaseInput, env: SessionEnv): (r: CaseInput)
    ensures SameForm(input, r)
    ensures r.dmcaDetails.Some? <==> input.dmcaDetails.Some?
    ensures r.dmcaDetails.Some? ==>
              && SameText(input.dmcaDetails.value, r.dmcaDetails.value)
              && r.dmcaDetails.value.dateCreated == DeserializeDate(input.dmcaDetails.value.dateCreated, env)
              && r.dmcaDetails.value.signatureDate == DeserializeDate(input.dmcaDetails.value.signatureDate, env)
  {
    var details := match input.dmcaDetails
      case None => None
      case Some(d) => Some(DmcaDetails(d.ownershipType, d.copyrightedWorkDescription, DeserializeDate(d.dateCreated, env),
        d.originalPublicationLocation, d.teaUsername, d.teaProfileUrl, d.whereContentAppears,
        d.commentsOrCaptions, d.fullLegalName, d.addressLine1, d.addressLine2, d.city, d.state, d.zip,
        d.country, d.email, d.phone, d.electronicSignature, DeserializeDate(d.signatureDate, env)));
    CreateCaseInput(input.targetPlatform, input.description, input.status, input.profileLink,
      input.contactEmail, input.screenshots, details)
  }

  /** A date, or its absence, survives the trip through its ISO string. */
  lemma DateRoundTrip(d: Option<Date>, env: SessionEnv)
    requires SoundEnv(env)
    ensures DeserializeDate(SerializeDate(d, env), env) == d
  {
    if d.Some? {
      IsoRoundTrip(d.value, env);
    }
  }

  lemma IsoRoundTrip(x: Date, env: SessionEnv)
    requires SoundEnv(env)
    ensures env.toIso(x) != "" && env.parseDate(env.toIso(x)) == Some(x)
  {
  }

  /** Deserialising a serialised form gives the form back, dates and absent dates included. */
  lemma DeserializeSerialize(input: CaseInput, env: SessionEnv)
    requires SoundEnv(env)
    ensures Deserialize(Serialize(input, env), env) == input
  {
    if input.dmcaDetails.Some? {
      DateRoundTrip(input.dmcaDetails.value.dateCreated, env);
      DateRoundTrip(input.dmcaDetails.value.signatureDate, env);
    }
  }

  /** A record of `createdAt` is still valid at `now`: at most 24 hours (in milliseconds) old. */
  predicate IsFresh(createdAt: int, now: int) {
    !(now - createdAt > CookieMaxAgeSeconds * 1000)
  }

  /** A record read back exactly 24 hours after it was stored is still accepted. */
  lemma ExactlyOneDayIsFresh(createdAt: int)
    ensures IsFresh(createdAt, createdAt + 86400000)
    ensures !IsFresh(createdAt, createdAt + 86400001)
  {
  }

  /** The request's intake cookie, when it is set and non-empty. */
  function CookieValue(requestCookies: map<string, string>): Option<string> {
    if CookieName in requestCookies && requestCookies[CookieName] != "" then Some(requestCookies[CookieName]) else None
  }

  /**
   * `readIntakeSession(userId)` at time `now`: the stored form, when the cookie decodes to
   * a record that is at most a day old and was stored for the same user.
   */
  function ReadIntakeSession(requestCookies: map<string, string>, userId: string, now: int, env: SessionEnv): (r: Option<CaseInput>)
    ensures r.Some? <==>
              && CookieValue(requestCookies).Some?
              && DecodeRecord(CookieValue(requestCookies).value, env).Some?
              && IsFresh(DecodeRecord(CookieValue(requestCookies).value, env).value.createdAt, now)
              && DecodeRecord(CookieValue(requestCookies).value, env).value.userId == userId
    ensures r.Some? ==> r.value == Deserialize(DecodeRecord(CookieValue(requestCookies).value, env).value.data, env)
  {
    match CookieValue(requestCookies)
    case None => None
    case Some(value) =>
      match DecodeRecord(value, env)
      case None => None
      case Some(decoded) =>
        var expired := now - decoded.createdAt > CookieMaxAgeSeconds * 1000;
        if expired || decoded.userId != userId then None
        else Some(Deserialize(decoded.data, env))
  }

  /** A form is read back only from a cookie sealed under the server key, for this user, within the day. */
  lemma ReadIntakeSessionAuthenticated(requestCookies: map<string, string>, userId: string, now: int, env: SessionEnv)
    requires SoundEnv(env)
    requires ReadIntakeSession(requestCookies, userId, now, env).Some?
    ensures CookieName in requestCookies
    ensures var value := requestCookies[CookieName];
            var (iv, tag, ciphertext) := Unframe(env.fromBase64(value));
            && GetSecretKey(env).Ok?
            && exists plain :: && env.seal(GetSecretKey(env).value, iv, plain) == Sealed(tag, ciphertext)
                               && env.recordFromBytes(plain) == DecodeRecord(value, env)
                               && DecodeRecord(value, env).value.userId == userId
                               && IsFresh(DecodeRecord(value, env).value.createdAt, now)
  {
    DecodeAuthenticated(requestCookies[CookieName], env);
  }

  /** The cookie value `storeIntakeSession` writes for `userId` at time `now`, with IV `iv`. */
  function SessionToken(userId: string, payload: CaseInput, now: int, iv: Bytes, env: SessionEnv): (r: Result<string>)
    requires |iv| == IvLength
    ensures r.Err? <==> GetSecretKey(env).Err?
  {
    EncodeRecord(IntakeSessionRecord(userId, now, Serialize(payload, env)), iv, env)
  }

  /** A stored token is a non-empty cookie value that decodes to the user, the time and the serialised form. */
  lemma SessionTokenDecodes(userId: string, payload: CaseInput, now: int, iv: Bytes, env: SessionEnv)
    requires SoundEnv(env) && |iv| == IvLength && GetSecretKey(env).Ok?
    ensures SessionToken(userId, payload, now, iv, env).value != ""
    ensures DecodeRecord(SessionToken(userId, payload, now, iv, env).value, env) == Some(IntakeSessionRecord(userId, now, Serialize(payload, env)))
  {
    var record := IntakeSessionRecord(userId, now, Serialize(payload, env));
    DecodeEncode(record, iv, env);
    var key := GetSecretKey(env).value;
    var sealed := env.seal(key, iv, env.recordToBytes(record));
    assert Frame(iv, sealed.tag, sealed.ciphertext) != [];
  }

  /** `storeIntakeSession`: sets the intake cookie (and no other) to the encoded record. */
  method StoreIntakeSession(cookies: ResponseCookies, userId: string, payload: CaseInput, now: int, iv: Bytes, env: SessionEnv)
      returns (r: Outcome)
    requires |iv| == IvLength
    modifies cookies
    ensures r.Fail? <==> GetSecretKey(env).Err?
    ensures r.Fail? ==> r.message == SecretError && cookies.jar == old(cookies.jar)
    ensures r.Pass? ==> cookies.jar == old(cookies.jar)[CookieName := SetCookie(SessionToken(userId, payload, now, iv, env).value, IntakeCookieOptions(env.production))]
  {
    var token := SessionToken(userId, payload, now, iv, env);
    if token.Err? {
      return Fail(token.message);
    }
    cookies.Set(CookieName, token.value, IntakeCookieOptions(env.production));
    r := Pass;
  }

  /** `clearIntakeSession`: deletes the intake cookie and no other. */
  method ClearIntakeSession(cookies: ResponseCookies)
    modifies cookies
    ensures cookies.jar == old(cookies.jar)[CookieName := DeleteCookie]
    ensures forall name :: name in old(cookies.jar) && name != CookieName ==> name in cookies.jar && cookies.jar[name] == old(cookies.jar)[name]
  {
    cookies.Delete(CookieName);
  }

  /**
   * What a later request reads back from the stored cookie: the same form for the same
   * user within a day; nothing for another user or once the day is over.
   */
  lemma ReadAfterStore(userId: string, payload: CaseInput, storedAt: int, iv: Bytes, env: SessionEnv,
                       reader: string, now: int, requestCookies: map<string, string>)
    requires SoundEnv(env) && |iv| == IvLength && GetSecretKey(env).Ok?
    requires CookieName in requestCookies
    requires requestCookies[CookieName] == SessionToken(userId, payload, storedAt, iv, env).value
    ensures reader == userId && now - storedAt <= 86400000 ==>
              ReadIntakeSession(requestCookies, reader, now, env) == Some(payload)
    ensures reader != userId || now - storedAt > 86400000 ==>
              ReadIntakeSession(requestCookies, reader, now, env).None?
  {
    SessionTokenDecodes(userId, payload, storedAt, iv, env);
    DeserializeSerialize(payload, env);
  }
}
