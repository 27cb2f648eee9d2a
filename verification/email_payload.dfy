/**
 * The data of the confirmation and alert emails for a case (lib/caseEmailPayload.ts):
 * `??` fallback chains over the case, its legal-notice columns and its user, and the
 * screenshot list read from the case's JSON column. The submission time, formatted for a
 * time zone, is not part of this model.
 */
module EmailPayload {
  import opened Wrappers
  import opened Strings
  import opened JsonValue
  import opened Screenshots
  import opened Cases

  const FallbackName := "StopTheTea customer"

  /** The name and email the user record of a case holds. */
  datatype UserContact = UserContact(name: Option<string>, email: Option<string>)

  datatype CaseEmailPayload = CaseEmailPayload(
    fullName: string,
    email: string,
    caseNumber: string,
    targetPlatform: string,
    profileLink: Option<string>,
    description: Option<string>,
    screenshotUrls: Option<seq<string>>)

  /** `value => typeof value === "string" ? value.trim() : ""` followed by the non-empty filter. */
  function TrimmedStrings(items: seq<Json>): (r: seq<string>)
    ensures |r| <= |items|
    ensures forall i :: 0 <= i < |r| ==> r[i] != "" && IsTrimmed(r[i])
  {
    if items == [] then []
    else
      var rest := TrimmedStrings(items[1..]);
      if items[0].JString? && Trim(items[0].str) != "" then
        TrimmedCons(Trim(items[0].str), rest);
        [Trim(items[0].str)] + rest
      else rest
  }

  /** Is `s` the trimmed text of the string item at position `j`? */
  predicate TrimsTo(items: seq<Json>, j: int, s: string) {
    0 <= j < |items| && items[j].JString? && Trim(items[j].str) == s
  }

  /** A string is kept exactly when it is non-empty and the trimmed text of one of the string items. */
  lemma {:induction false} TrimmedStringsFromItems(items: seq<Json>)
    ensures forall s :: s in TrimmedStrings(items) <==> s != "" && exists j :: TrimsTo(items, j, s)
  {
    if items != [] {
      var tail := items[1..];
      TrimmedStringsFromItems(tail);
      forall s ensures s in TrimmedStrings(items) <==> s != "" && exists j :: TrimsTo(items, j, s) {
        if items[0].JString? && Trim(items[0].str) == s {
          assert TrimsTo(items, 0, s);
        } else {
          TrimsToShift(items, s);
        }
      }
    }
  }

  /** A string the first item does not trim to is trimmed to by some item exactly when it is by some later one. */
  lemma TrimsToShift(items: seq<Json>, s: string)
    requires items != [] && !(items[0].JString? && Trim(items[0].str) == s)
    ensures (exists j :: TrimsTo(items, j, s)) <==> exists j :: TrimsTo(items[1..], j, s)
  {
    if exists j :: TrimsTo(items, j, s) {
      var j :| TrimsTo(items, j, s);
      TrimsToDrop(items, j, s);
    }
    if exists j :: TrimsTo(items[1..], j, s) {
      var j :| TrimsTo(items[1..], j, s);
      TrimsToLift(items, j, s);
    }
  }

  lemma TrimsToDrop(items: seq<Json>, j: int, s: string)
    requires TrimsTo(items, j, s) && j > 0
    ensures TrimsTo(items[1..], j - 1, s)
  {
    assert items[1..][j - 1] == items[j];
  }

  lemma TrimsToLift(items: seq<Json>, j: int, s: string)
    requires items != [] && TrimsTo(items[1..], j, s)
    ensures TrimsTo(items, j + 1, s)
  {
    assert items[j + 1] == items[1..][j];
  }

  /** The strings of two arrays in a row are the first array's strings followed by the second's: order is kept. */
  lemma {:induction false} TrimmedStringsAppend(a: seq<Json>, b: seq<Json>)
    ensures TrimmedStrings(a + b) == TrimmedStrings(a) + TrimmedStrings(b)
  {
    if a == [] {
      assert a + b == b;
    } else {
      assert (a + b)[1..] == a[1..] + b;
      TrimmedStringsAppend(a[1..], b);
    }
  }

  /** A single item gives its trimmed text when it is a string with some, and nothing otherwise. */
  lemma TrimmedStringsSingle(item: Json)
    ensures item.JString? && Trim(item.str) != "" ==> TrimmedStrings([item]) == [Trim(item.str)]
    ensures !(item.JString? && Trim(item.str) != "") ==> TrimmedStrings([item]) == []
  {
    assert [item][1..] == [];
  }

  /** Trimmed, non-empty strings come through unchanged and in order. */
  lemma {:induction false} TrimmedStringsOfArray(keys: seq<string>)
    requires forall i :: 0 <= i < |keys| ==> keys[i] != "" && IsTrimmed(keys[i])
    ensures TrimmedStrings(StringArray(keys).items) == keys
  {
    if keys != [] {
      TrimOfTrimmed(keys[0]);
      assert StringArray(keys).items[1..] == StringArray(keys[1..]).items;
      TrimmedStringsOfArray(keys[1..]);
      assert [keys[0]] + keys[1..] == keys;
    }
  }

  /** `parseScreenshotUrls`: the trimmed, non-empty strings of a JSON array column; nothing otherwise. */
  function ParseScreenshotUrls(raw: Option<string>, json: JsonCodec): (r: seq<string>)
    ensures raw.None? || raw.value == "" ==> r == []
    ensures raw.Some? && raw.value != "" && (json.parse(raw.value).None? || !json.parse(raw.value).value.JArray?) ==> r == []
    ensures raw.Some? && raw.value != "" && json.parse(raw.value).Some? && json.parse(raw.value).value.JArray? ==>
              r == TrimmedStrings(json.parse(raw.value).value.items)
    ensures forall i :: 0 <= i < |r| ==> r[i] != "" && IsTrimmed(r[i])
  {
    if raw.None? || raw.value == "" then []
    else
      match json.parse(raw.value)
      case Some(JArray(items)) => TrimmedStrings(items)
      case _ => []
  }

  /** A column written as the JSON array of trimmed keys reads back as those keys. */
  lemma ParseStoredUrls(keys: seq<string>, json: JsonCodec)
    requires Sound(json)
    requires forall i :: 0 <= i < |keys| ==> keys[i] != "" && IsTrimmed(keys[i])
    ensures ParseScreenshotUrls(Some(json.stringify(StringArray(keys))), json) == keys
  {
    assert json.parse(json.stringify(StringArray(keys))) == Some(StringArray(keys));
    TrimmedStringsOfArray(keys);
  }

  function UserName(user: Option<UserContact>): Option<string> {
    if user.Some? then user.value.name else None
  }

  function UserEmail(user: Option<UserContact>): Option<string> {
    if user.Some? then user.value.email else None
  }

  /** `buildCaseEmailPayload` for case `c` and its user record. */
  function BuildCaseEmailPayload(c: Case, user: Option<UserContact>, json: JsonCodec): (r: CaseEmailPayload)
    ensures c.dmca.fullLegalName.Some? ==> r.fullName == c.dmca.fullLegalName.value
    ensures c.dmca.fullLegalName.None? && UserName(user).Some? ==> r.fullName == UserName(user).value
    ensures c.dmca.fullLegalName.None? && UserName(user).None? ==> r.fullName == FallbackName
    ensures c.contactEmail.Some? ==> r.email == c.contactEmail.value
    ensures c.contactEmail.None? && c.dmca.email.Some? ==> r.email == c.dmca.email.value
    ensures c.contactEmail.None? && c.dmca.email.None? ==> r.email == UserEmail(user).GetOr("")
    ensures r.caseNumber == c.caseNumber && r.targetPlatform == c.targetPlatform
    ensures r.profileLink == (if c.profileLink.Some? then c.profileLink else c.dmca.teaProfileUrl)
    ensures r.description == Some(c.description)
    ensures r.screenshotUrls.None? <==> ParseScreenshotUrls(c.screenshotUrls, json) == []
    ensures r.screenshotUrls.Some? ==> r.screenshotUrls.value == ParseScreenshotUrls(c.screenshotUrls, json)
  {
    var urls := ParseScreenshotUrls(c.screenshotUrls, json);
    CaseEmailPayload(
      fullName := c.dmca.fullLegalName.OrElse(UserName(user)).GetOr(FallbackName),
      email := c.contactEmail.OrElse(c.dmca.email).OrElse(UserEmail(user)).GetOr(""),
      caseNumber := c.caseNumber,
      targetPlatform := c.targetPlatform,
      profileLink := c.profileLink.OrElse(c.dmca.teaProfileUrl),
      description := Some(c.description),
      screenshotUrls := if |urls| > 0 then Some(urls) else None)
  }

  /**
   * The emails about a new case list exactly the storage keys it was created with, in
   * order (given plain keys), and no list at all when it has none.
   */
  lemma NewCaseMailListsKeys(id: string, userId: string, data: CaseInput, uuid: string, now: Date,
                             paymentStatus: string, emailSent: bool, json: JsonCodec,
                             urlPath: string -> Option<string>, user: Option<UserContact>)
    requires Sound(json)
    requires forall i :: 0 <= i < |ScreenshotKeys(data.screenshots, urlPath)| ==>
               IsTrimmed(ScreenshotKeys(data.screenshots, urlPath)[i])
    ensures var c := NewCaseRecord(id, userId, data, uuid, now, paymentStatus, emailSent, json, urlPath);
            var keys := ScreenshotKeys(data.screenshots, urlPath);
            BuildCaseEmailPayload(c, user, json).screenshotUrls == (if keys == [] then None else Some(keys))
  {
    var keys := ScreenshotKeys(data.screenshots, urlPath);
    if keys != [] {
      ParseStoredUrls(keys, json);
    }
  }
}
