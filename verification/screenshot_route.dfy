/**
 * The screenshot download route (app/api/cases/screenshots/route.ts): a signed-in user
 * asks for one stored key of one of their own cases and is redirected to a signed link
 * for it. The route reads the case table and never writes it.
 *
 * The storage provider's `generateSignedURL(key)` is the `sign` parameter: `None` where
 * the call throws, otherwise the `ufsUrl` of its answer (`None` when it has none).
 */
module ScreenshotRoute {
  import opened Wrappers
  import opened Strings
  import opened JsonValue
  import opened Http
  import opened Screenshots
  import opened Cases

  const MissingReference := "Missing case or file reference."
  const Unauthorized := "Unauthorized"
  const NotFound := "Screenshot not found"
  const LoadFailed := "Unable to load screenshot"

  /**
   * `normalizeKey`, the route's own copy of key extraction: absent or blank gives none, a
   * value starting with "http" gives the last segment of its URL path, anything else is
   * its own key, trimmed.
   */
  function NormalizeKey(value: Option<string>, urlPath: string -> Option<string>): (r: Option<string>)
    ensures r == ExtractUploadthingKey(value, urlPath)
  {
    if value.None? || value.value == "" then None
    else
      var trimmed := Trim(value.value);
      if trimmed == "" then None
      else if StartsWith(trimmed, "http") then
        match urlPath(trimmed)
        case None => None
        case Some(path) => LastSegment(path)
      else Some(trimmed)
  }

  /** `.map(normalizeKey or null).filter(non-empty string)` over the candidate values. */
  function NormalizeKeys(values: seq<Option<string>>, urlPath: string -> Option<string>): (r: seq<string>)
    ensures r == NormalizeAll(values, urlPath)
  {
    if values == [] then []
    else
      var rest := NormalizeKeys(values[1..], urlPath);
      match NormalizeKey(values[0], urlPath)
      case Some(k) => [k] + rest
      case None => rest
  }

  /**
   * `parseStoredKeys`: the keys of a `screenshotUrls` column, read as a JSON array or
   * string. Unlike the shared parser, text that is not JSON holds no key at all.
   */
  function ParseStoredKeys(raw: Option<string>, json: JsonCodec, urlPath: string -> Option<string>): (r: seq<string>)
    ensures raw.None? || raw.value == "" ==> r == []
    ensures raw.Some? && raw.value != "" && json.parse(raw.value).None? ==> r == []
    ensures forall i :: 0 <= i < |r| ==> r[i] != ""
  {
    if raw.None? || raw.value == "" then []
    else
      match json.parse(raw.value)
      case None => []
      case Some(parsed) => NormalizeKeys(JsonCandidates(parsed), urlPath)
  }

  /** On JSON text the route and the shared parser find the same keys; they differ only on text that is not JSON. */
  lemma StoredKeysAgreeOnJson(raw: Option<string>, json: JsonCodec, urlPath: string -> Option<string>)
    requires raw.None? || raw.value == "" || json.parse(raw.value).Some?
    ensures ParseStoredKeys(raw, json, urlPath) == ParseScreenshotKeys(raw, json, urlPath)
  {
  }

  /** Every key a case was created with (plain keys) is one the route will serve. */
  lemma CreatedKeysServed(id: string, userId: string, data: CaseInput, uuid: string, now: Date,
                          paymentStatus: string, emailSent: bool, json: JsonCodec, urlPath: string -> Option<string>)
    requires Sound(json)
    requires forall i :: 0 <= i < |ScreenshotKeys(data.screenshots, urlPath)| ==> IsPlainKey(ScreenshotKeys(data.screenshots, urlPath)[i])
    ensures var c := NewCaseRecord(id, userId, data, uuid, now, paymentStatus, emailSent, json, urlPath);
            ParseStoredKeys(c.screenshotUrls, json, urlPath) == ScreenshotKeys(data.screenshots, urlPath)
  {
    var keys := ScreenshotKeys(data.screenshots, urlPath);
    var c := NewCaseRecord(id, userId, data, uuid, now, paymentStatus, emailSent, json, urlPath);
    NewCaseScreenshotsReadBack(id, userId, data, uuid, now, paymentStatus, emailSent, json, urlPath);
    if c.screenshotUrls.Some? && c.screenshotUrls.value != "" {
      assert c.screenshotUrls.value == json.stringify(StringArray(keys));
      assert json.parse(json.stringify(StringArray(keys))) == Some(StringArray(keys));
    }
    StoredKeysAgreeOnJson(c.screenshotUrls, json, urlPath);
  }

  /** Is `key` one of the stored keys of case `caseId`, owned by `userId`? */
  predicate ServesKey(cases: map<string, Case>, caseId: string, userId: string, key: string,
                      json: JsonCodec, urlPath: string -> Option<string>) {
    caseId in cases && cases[caseId].userId == userId && key in ParseStoredKeys(cases[caseId].screenshotUrls, json, urlPath)
  }

  /**
   * `GET /api/cases/screenshots?caseId=…&fileKey=…`. The checks run in order: both
   * references present (400, before any session check), signed in (401), the case exists
   * and is the caller's (404), the key is stored on it (404), and a signed link (500 when
   * none). Only a stored key of the caller's own case is ever signed.
   */
  function GetScreenshot(caseIdParam: Option<string>, fileKeyParam: Option<string>, session: Option<SessionUser>,
                         cases: map<string, Case>, json: JsonCodec, urlPath: string -> Option<string>,
                         sign: string -> Option<string>): (r: Response)
    ensures !IsSet(caseIdParam) || NormalizeKey(fileKeyParam, urlPath).None? ==> r == Reply(400, MissingReference)
    ensures IsSet(caseIdParam) && NormalizeKey(fileKeyParam, urlPath).Some? && SignedInId(session).None? ==>
              r == Reply(401, Unauthorized)
    ensures r.Reply? && r.status == 404 <==>
              && IsSet(caseIdParam) && NormalizeKey(fileKeyParam, urlPath).Some? && SignedInId(session).Some?
              && !ServesKey(cases, caseIdParam.value, SignedInId(session).value, NormalizeKey(fileKeyParam, urlPath).value, json, urlPath)
    ensures r.Redirect? <==>
              && IsSet(caseIdParam) && NormalizeKey(fileKeyParam, urlPath).Some? && SignedInId(session).Some?
              && ServesKey(cases, caseIdParam.value, SignedInId(session).value, NormalizeKey(fileKeyParam, urlPath).value, json, urlPath)
              && IsSet(sign(NormalizeKey(fileKeyParam, urlPath).value))
    ensures r.Redirect? ==> r == Redirect(302, External(sign(NormalizeKey(fileKeyParam, urlPath).value).value), map[])
  {
    var requestedKey := NormalizeKey(fileKeyParam, urlPath);
    if !IsSet(caseIdParam) || requestedKey.None? then Reply(400, MissingReference)
    else
      var userId := SignedInId(session);
      if userId.None? then Reply(401, Unauthorized)
      else
        var caseId := caseIdParam.value;
        if caseId !in cases || cases[caseId].userId != userId.value then Reply(404, NotFound)
        else if requestedKey.value !in ParseStoredKeys(cases[caseId].screenshotUrls, json, urlPath) then Reply(404, NotFound)
        else
          var signed := sign(requestedKey.value);
          if !IsSet(signed) then Reply(500, LoadFailed)
          else Redirect(302, External(signed.value), map[])
  }

  /**
   * The owner asking, by its plain key, for a screenshot stored on their case is sent to
   * its signed link whenever the storage provider gives one.
   */
  lemma OwnerGetsStoredScreenshot(c: Case, key: string, session: Option<SessionUser>, cases: map<string, Case>,
                                  json: JsonCodec, urlPath: string -> Option<string>, sign: string -> Option<string>)
    requires c.id != "" && c.id in cases && cases[c.id] == c
    requires SignedInId(session) == Some(c.userId)
    requires IsPlainKey(key) && key in ParseStoredKeys(c.screenshotUrls, json, urlPath)
    requires IsSet(sign(key))
    ensures GetScreenshot(Some(c.id), Some(key), session, cases, json, urlPath, sign) == Redirect(302, External(sign(key).value), map[])
  {
    ExtractPlainKey(key, urlPath);
  }
}
