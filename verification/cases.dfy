/**
 * The case table and its operations (lib/cases.ts): creating a case for a user with
 * status validation, a generated case number and normalised screenshot keys; listing a
 * user's cases or all cases newest first; and updating a case's status.
 *
 * The table is the `CaseStore` class over a map from case id to record. The database
 * assigns the id of a new row, `randomUUID()` supplies the case-number suffix and the
 * clock supplies `createdAt`: all three are parameters of `CreateCaseForUser`.
 */
module Cases {
  import opened Wrappers
  import opened Strings
  import opened JsonValue
  import opened Screenshots

  /** A point in time, in milliseconds since the epoch. */
  type Date = int

  /** `STATUS_KEYS`: the keys of the label table, in declaration order. */
  const StatusKeys: seq<string> := ["RECEIVED", "REQUEST_PREPARED", "SUBMITTED", "ESCALATED", "REMOVED", "REFUNDED"]

  const StatusLabels: map<string, string> := map[
    "RECEIVED" := "Case received",
    "REQUEST_PREPARED" := "Request being prepared",
    "SUBMITTED" := "Submitted to platform",
    "ESCALATED" := "Escalated",
    "REMOVED" := "Content removed",
    "REFUNDED" := "Refunded"]

  const StatusAccents: map<string, string> := map[
    "RECEIVED" := "bg-[#E5E7EB] text-[#1F2530]",
    "REQUEST_PREPARED" := "bg-[#DBEAFE] text-[#1F2530]",
    "SUBMITTED" := "bg-[#E0F2FE] text-[#0B1F3A]",
    "ESCALATED" := "bg-[#FEF3C7] text-[#7C5A11]",
    "REMOVED" := "bg-[#D1FAE5] text-[#065F46]",
    "REFUNDED" := "bg-[#F3F4F6] text-[#1F2530]"]

  const DefaultAccent := "bg-[#E5E7EB] text-[#1F2530]"

  const OwnershipTypes: seq<string> := ["Owner/Photographer", "Subject with rights", "Business owner", "Authorized agent"]

  const DefaultStatus := "RECEIVED"
  const DefaultPlatform := "Tea"
  const CaseNumberPrefix := "STT-"
  const InvalidStatus := "Invalid status provided."
  const DuplicateId := "Unique constraint failed on the fields: (`id`)"
  const RecordNotFound := "Record to update not found."

  predicate IsStatusKey(status: string) {
    status in StatusKeys
  }

  datatype ScreenshotPayload = ScreenshotPayload(
    fileName: Option<string>, mimeType: Option<string>, data: Option<string>,
    url: Option<string>, storageKey: Option<string>)

  /** The legal-notice fields of an intake; `D` is `Date` in memory and an ISO string once serialised. */
  datatype DmcaDetails<D> = DmcaDetails(
    ownershipType: string,
    copyrightedWorkDescription: Option<string>,
    dateCreated: Option<D>,
    originalPublicationLocation: Option<string>,
    teaUsername: Option<string>,
    teaProfileUrl: Option<string>,
    whereContentAppears: Option<string>,
    commentsOrCaptions: Option<string>,
    fullLegalName: Option<string>,
    addressLine1: Option<string>,
    addressLine2: Option<string>,
    city: Option<string>,
    state: Option<string>,
    zip: Option<string>,
    country: Option<string>,
    email: Option<string>,
    phone: Option<string>,
    electronicSignature: Option<string>,
    signatureDate: Option<D>)

  /** `CreateCaseInput` (with `D` = `Date`) and its serialised form (with `D` = string). */
  datatype CreateCaseInput<D> = CreateCaseInput(
    targetPlatform: Option<string>,
    description: string,
    status: Option<string>,
    profileLink: Option<string>,
    contactEmail: Option<string>,
    screenshots: Option<seq<ScreenshotPayload>>,
    dmcaDetails: Option<DmcaDetails<D>>)

  type CaseInput = CreateCaseInput<Date>

  /** The nullable legal-notice columns of a case row. */
  datatype DmcaColumns = DmcaColumns(
    ownershipType: Option<string>,
    copyrightedWorkDescription: Option<string>,
    dateCreated: Option<Date>,
    originalPublicationLocation: Option<string>,
    teaUsername: Option<string>,
    teaProfileUrl: Option<string>,
    whereContentAppears: Option<string>,
    commentsOrCaptions: Option<string>,
    fullLegalName: Option<string>,
    addressLine1: Option<string>,
    addressLine2: Option<string>,
    city: Option<string>,
    state: Option<string>,
    zip: Option<string>,
    country: Option<string>,
    email: Option<string>,
    phone: Option<string>,
    electronicSignature: Option<string>,
    signatureDate: Option<Date>)

  /** A case row. `screenshotData` keeps the submitted payloads themselves rather than their JSON text. */
  datatype Case = Case(
    id: string,
    userId: string,
    createdAt: Date,
    status: string,
    paymentStatus: string,
    emailSent: bool,
    targetPlatform: string,
    description: string,
    caseNumber: string,
    profileLink: Option<string>,
    contactEmail: Option<string>,
    screenshotUrl: Option<string>,
    screenshotData: Option<seq<ScreenshotPayload>>,
    screenshotUrls: Option<string>,
    dmca: DmcaColumns)

  /** `CASE_STATUS_LABELS[status] ?? status` */
  function MapStatusLabel(status: string): (r: string)
    ensures IsStatusKey(status) ==> r == StatusLabels[status]
    ensures !IsStatusKey(status) ==> r == status
  {
    if status in StatusLabels then StatusLabels[status] else status
  }

  /** `CASE_STATUS_ACCENTS[status] ?? <grey>` */
  function MapStatusAccent(status: string): (r: string)
    ensures IsStatusKey(status) ==> r == StatusAccents[status]
    ensures !IsStatusKey(status) ==> r == DefaultAccent
  {
    if status in StatusAccents then StatusAccents[status] else DefaultAccent
  }

  /** Different known statuses are shown with different labels. */
  lemma StatusLabelsDistinct(a: string, b: string)
    requires IsStatusKey(a) && IsStatusKey(b) && a != b
    ensures MapStatusLabel(a) != MapStatusLabel(b)
  {
  }

  /** `STT-` followed by the first eight characters of the UUID, upper-cased. */
  function CaseNumber(uuid: string): (r: string)
    ensures |r| == 4 + (if |uuid| < 8 then |uuid| else 8)
    ensures StartsWith(r, CaseNumberPrefix)
    ensures forall i :: 4 <= i < |r| ==> !('a' <= r[i] <= 'z')
    ensures forall i :: 4 <= i < |r| ==> LowerChar(r[i]) == LowerChar(uuid[i - 4])
  {
    var prefix := if |uuid| < 8 then uuid else uuid[..8];
    CaseNumberPrefix + Upper(prefix)
  }

  /** `item.storageKey ?? item.url ?? null` for each submitted screenshot. */
  function StoredValues(shots: seq<ScreenshotPayload>): (r: seq<Option<string>>)
    ensures |r| == |shots|
    ensures forall i :: 0 <= i < |shots| ==> r[i] == shots[i].storageKey.OrElse(shots[i].url)
  {
    seq(|shots|, i requires 0 <= i < |shots| => shots[i].storageKey.OrElse(shots[i].url))
  }

  /** The storage keys of the submitted screenshots, one per screenshot that designates a key, in order. */
  function ScreenshotKeys(shots: Option<seq<ScreenshotPayload>>, urlPath: string -> Option<string>): (r: seq<string>)
    ensures shots.None? ==> r == []
    ensures shots.Some? ==> |r| <= |shots.value|
    ensures shots.Some? ==> r == NormalizeAll(StoredValues(shots.value), urlPath)
    ensures forall i :: 0 <= i < |r| ==> r[i] != ""
  {
    if shots.None? then [] else NormalizeAll(StoredValues(shots.value), urlPath)
  }

  /** The notice details a row's columns hold: none when the row has no ownership type. */
  function DetailsOf(c: DmcaColumns): Option<DmcaDetails<Date>> {
    if c.ownershipType.None? then None
    else Some(DmcaDetails(c.ownershipType.value, c.copyrightedWorkDescription, c.dateCreated,
      c.originalPublicationLocation, c.teaUsername, c.teaProfileUrl, c.whereContentAppears,
      c.commentsOrCaptions, c.fullLegalName, c.addressLine1, c.addressLine2, c.city, c.state, c.zip,
      c.country, c.email, c.phone, c.electronicSignature, c.signatureDate))
  }

  /** The legal-notice columns of a new row: `dmca?.field ?? null` for every field. */
  function Columns(d: Option<DmcaDetails<Date>>): (r: DmcaColumns)
    ensures d.None? ==> r == DmcaColumns(None, None, None, None, None, None, None, None, None, None, None, None, None, None, None, None, None, None, None)
    ensures d.Some? ==> r.ownershipType == Some(d.value.ownershipType) && r.teaProfileUrl == d.value.teaProfileUrl
                        && r.email == d.value.email && r.fullLegalName == d.value.fullLegalName
    ensures DetailsOf(r) == d
  {
    match d
    case None => DmcaColumns(None, None, None, None, None, None, None, None, None, None, None, None, None, None, None, None, None, None, None)
    case Some(x) => DmcaColumns(Some(x.ownershipType), x.copyrightedWorkDescription, x.dateCreated,
      x.originalPublicationLocation, x.teaUsername, x.teaProfileUrl, x.whereContentAppears,
      x.commentsOrCaptions, x.fullLegalName, x.addressLine1, x.addressLine2, x.city, x.state, x.zip,
      x.country, x.email, x.phone, x.electronicSignature, x.signatureDate)
  }

  function TeaProfileUrl(d: Option<DmcaDetails<Date>>): Option<string> {
    if d.Some? then d.value.teaProfileUrl else None
  }

  function DmcaEmail(d: Option<DmcaDetails<Date>>): Option<string> {
    if d.Some? then d.value.email else None
  }

  /** The `record` `createCaseForUser` inserts, for a status already validated. */
  function NewCaseRecord(id: string, userId: string, data: CaseInput, uuid: string, now: Date,
                         paymentStatus: string, emailSent: bool,
                         json: JsonCodec, urlPath: string -> Option<string>): (r: Case)
    ensures r.id == id && r.userId == userId && r.createdAt == now
    ensures r.status == data.status.GetOr(DefaultStatus)
    ensures r.caseNumber == CaseNumber(uuid)
    ensures r.paymentStatus == paymentStatus && r.emailSent == emailSent
    ensures r.targetPlatform == (if data.targetPlatform.Some? then data.targetPlatform.value else DefaultPlatform)
    ensures r.description == data.description
    ensures data.profileLink.Some? ==> r.profileLink == data.profileLink
    ensures data.profileLink.None? ==> r.profileLink == TeaProfileUrl(data.dmcaDetails)
    ensures data.contactEmail.Some? ==> r.contactEmail == data.contactEmail
    ensures data.contactEmail.None? ==> r.contactEmail == DmcaEmail(data.dmcaDetails)
    ensures r.screenshotUrl.None?
    ensures r.screenshotData.Some? <==> data.screenshots.Some? && |data.screenshots.value| > 0
    ensures r.screenshotUrls.None? <==> ScreenshotKeys(data.screenshots, urlPath) == []
    ensures Sound(json) && r.screenshotUrls.Some? ==>
              json.parse(r.screenshotUrls.value) == Some(StringArray(ScreenshotKeys(data.screenshots, urlPath)))
    ensures r.dmca == Columns(data.dmcaDetails)
  {
    var keys := ScreenshotKeys(data.screenshots, urlPath);
    var dmca := data.dmcaDetails;
    Case(
      id := id,
      userId := userId,
      createdAt := now,
      status := data.status.GetOr(DefaultStatus),
      paymentStatus := paymentStatus,
      emailSent := emailSent,
      targetPlatform := data.targetPlatform.GetOr(DefaultPlatform),
      description := data.description,
      caseNumber := CaseNumber(uuid),
      profileLink := data.profileLink.OrElse(TeaProfileUrl(dmca)),
      contactEmail := data.contactEmail.OrElse(DmcaEmail(dmca)),
      screenshotUrl := None,
      screenshotData := if data.screenshots.Some? && |data.screenshots.value| > 0 then data.screenshots else None,
      screenshotUrls := if |keys| > 0 then Some(json.stringify(StringArray(keys))) else None,
      dmca := Columns(dmca))
  }

  /**
   * The keys a new case stores are the keys every reader of `screenshotUrls` finds,
   * provided none of them begins with "http".
   */
  lemma NewCaseScreenshotsReadBack(id: string, userId: string, data: CaseInput, uuid: string, now: Date,
                                   paymentStatus: string, emailSent: bool,
                                   json: JsonCodec, urlPath: string -> Option<string>)
    requires Sound(json)
    requires forall i :: 0 <= i < |ScreenshotKeys(data.screenshots, urlPath)| ==>
               !IsUrlLike(ScreenshotKeys(data.screenshots, urlPath)[i]) && IsTrimmed(ScreenshotKeys(data.screenshots, urlPath)[i])
    ensures var r := NewCaseRecord(id, userId, data, uuid, now, paymentStatus, emailSent, json, urlPath);
            ParseScreenshotKeys(r.screenshotUrls, json, urlPath) == ScreenshotKeys(data.screenshots, urlPath)
  {
    var keys := ScreenshotKeys(data.screenshots, urlPath);
    if |keys| > 0 {
      StoredKeysReadBack(keys, json, urlPath);
    }
  }

  /** Does the case belong to the listing: every case for the admin view, one user's cases otherwise. */
  predicate Listed(owner: Option<string>, c: Case) {
    owner.None? || c.userId == owner.value
  }

  /** `orderBy: { createdAt: "desc" }` */
  predicate NewestFirst(s: seq<Case>) {
    forall i, j :: 0 <= i < j < |s| ==> s[i].createdAt >= s[j].createdAt
  }

  /** Places `c` into a newest-first list, before the first case no newer than it. */
  function InsertNewestFirst(s: seq<Case>, c: Case): (r: seq<Case>)
    ensures multiset(r) == multiset(s) + multiset{c}
  {
    if s == [] || s[0].createdAt <= c.createdAt then [c] + s
    else
      assert s == [s[0]] + s[1..];
      [s[0]] + InsertNewestFirst(s[1..], c)
  }

  lemma {:induction false} InsertKeepsNewestFirst(s: seq<Case>, c: Case)
    requires NewestFirst(s)
    ensures NewestFirst(InsertNewestFirst(s, c))
  {
    if s != [] && s[0].createdAt > c.createdAt {
      var rest := InsertNewestFirst(s[1..], c);
      InsertKeepsNewestFirst(s[1..], c);
      forall x | x in rest ensures x.createdAt <= s[0].createdAt {
        assert x in multiset(rest);
        if x != c {
          var k :| 0 <= k < |s[1..]| && s[1..][k] == x;
          assert s[k + 1] == x;
        }
      }
      NewestFirstCons(s[0], rest);
    }
  }

  /** A case no older than any case of a newest-first list may head it. */
  lemma NewestFirstCons(head: Case, rest: seq<Case>)
    requires NewestFirst(rest)
    requires forall x :: x in rest ==> x.createdAt <= head.createdAt
    ensures NewestFirst([head] + rest)
  {
    var s := [head] + rest;
    forall i, j | 0 <= i < j < |s| ensures s[i].createdAt >= s[j].createdAt {
      assert s[j] == rest[j - 1];
      if i > 0 {
        assert s[i] == rest[i - 1];
      } else {
        assert s[j] in rest;
      }
    }
  }

  /** Each case of the list occurs in it once. */
  predicate OnceEach(s: seq<Case>) {
    forall x :: x in multiset(s) ==> multiset(s)[x] == 1
  }

  /** Inserting a case not yet listed keeps every case once and adds exactly that case. */
  lemma InsertFresh(s: seq<Case>, c: Case)
    requires OnceEach(s) && c !in s
    ensures OnceEach(InsertNewestFirst(s, c))
    ensures forall x :: x in InsertNewestFirst(s, c) <==> x in s || x == c
  {
    var r := InsertNewestFirst(s, c);
    forall x ensures x in r <==> x in s || x == c {
      assert x in r <==> x in multiset(r);
      assert x in s <==> x in multiset(s);
    }
  }

  /** Two positions holding the same case make it occur twice. */
  lemma TwiceInMultiset(s: seq<Case>, i: nat, j: nat)
    requires i < j < |s| && s[i] == s[j]
    ensures multiset(s)[s[i]] >= 2
  {
    assert s == s[..j] + s[j..];
    assert s[i] in s[..j];
    assert s[j] in s[j..];
  }

  class CaseStore {
    var cases: map<string, Case>
    const defaultPaymentStatus: string
    const defaultEmailSent: bool

    /** Every row is stored under its own id. */
    ghost predicate Valid()
      reads this
    {
      forall id :: id in cases ==> cases[id].id == id
    }

    /** An empty table; `paymentStatus` and `emailSent` of new rows take the schema defaults given. */
    constructor (defaultPaymentStatus: string, defaultEmailSent: bool)
      ensures Valid() && cases == map[]
      ensures this.defaultPaymentStatus == defaultPaymentStatus && this.defaultEmailSent == defaultEmailSent
    {
      cases := map[];
      this.defaultPaymentStatus := defaultPaymentStatus;
      this.defaultEmailSent := defaultEmailSent;
    }

    /**
     * `createCaseForUser`: rejects an unknown status before writing anything; otherwise
     * inserts the new row under the id the database assigns (`id`), which fails like the
     * primary-key constraint when the id is taken.
     */
    method CreateCaseForUser(userId: string, data: CaseInput, id: string, uuid: string, now: Date,
                             json: JsonCodec, urlPath: string -> Option<string>) returns (r: Result<Case>)
      requires Valid()
      modifies this
      ensures Valid()
      ensures !IsStatusKey(data.status.GetOr(DefaultStatus)) ==> r == Err(InvalidStatus)
      ensures r.Ok? <==> IsStatusKey(data.status.GetOr(DefaultStatus)) && id !in old(cases)
      ensures r.Ok? ==> r.value == NewCaseRecord(id, userId, data, uuid, now, defaultPaymentStatus, defaultEmailSent, json, urlPath)
      ensures r.Ok? ==> cases == old(cases)[id := r.value]
      ensures r.Err? ==> cases == old(cases)
    {
      var status := data.status.GetOr(DefaultStatus);
      if !IsStatusKey(status) {
        return Err(InvalidStatus);
      }
      if id in cases {
        return Err(DuplicateId);
      }
      var record := NewCaseRecord(id, userId, data, uuid, now, defaultPaymentStatus, defaultEmailSent, json, urlPath);
      cases := cases[id := record];
      r := Ok(record);
    }

    /** The cases of the listing, each once, newest first (`findMany` with `orderBy createdAt desc`). */
    method Query(owner: Option<string>) returns (r: seq<Case>)
      requires Valid()
      ensures forall c :: c in r <==> c in cases.Values && Listed(owner, c)
      ensures NewestFirst(r)
      ensures forall i, j :: 0 <= i < j < |r| ==> r[i].id != r[j].id
    {
      var remaining := cases.Keys;
      r := [];
      while remaining != {}
        invariant remaining <= cases.Keys
        invariant NewestFirst(r) && OnceEach(r)
        invariant forall x :: x in r ==> x.id in cases && cases[x.id] == x && x.id !in remaining && Listed(owner, x)
        invariant forall id :: id in cases && id !in remaining && Listed(owner, cases[id]) ==> cases[id] in r
        decreases remaining
      {
        var id :| id in remaining;
        var c := cases[id];
        if Listed(owner, c) {
          InsertKeepsNewestFirst(r, c);
          InsertFresh(r, c);
          r := InsertNewestFirst(r, c);
        }
        remaining := remaining - {id};
      }
      forall i, j | 0 <= i < j < |r| ensures r[i].id != r[j].id {
        assert r[i] in r && r[j] in r;
        if r[i] == r[j] { TwiceInMultiset(r, i, j); }
      }
    }

    /** `getCasesForUser`: exactly that user's cases, each once, newest first. */
    method CasesForUser(userId: string) returns (r: seq<Case>)
      requires Valid()
      ensures forall c :: c in r <==> c in cases.Values && c.userId == userId
      ensures NewestFirst(r)
      ensures forall i, j :: 0 <= i < j < |r| ==> r[i].id != r[j].id
    {
      r := Query(Some(userId));
    }

    /** `getAllCasesForAdmin`: every case, each once, newest first. */
    method AllCasesForAdmin() returns (r: seq<Case>)
      requires Valid()
      ensures forall c :: c in r <==> c in cases.Values
      ensures NewestFirst(r)
      ensures forall i, j :: 0 <= i < j < |r| ==> r[i].id != r[j].id
    {
      r := Query(None);
    }

    /**
     * `updateCaseStatusById`: rejects an unknown status without writing; otherwise sets the
     * status of the named case and of nothing else (`update` throws on a missing row).
     */
    method UpdateCaseStatusById(caseId: string, status: string) returns (r: Outcome)
      requires Valid()
      modifies this
      ensures Valid()
      ensures !IsStatusKey(status) ==> r == Fail(InvalidStatus)
      ensures r.Pass? <==> IsStatusKey(status) && caseId in old(cases)
      ensures r.Pass? ==> cases == old(cases)[caseId := old(cases)[caseId].(status := status)]
      ensures r.Fail? ==> cases == old(cases)
    {
      if !IsStatusKey(status) {
        return Fail(InvalidStatus);
      }
      if caseId !in cases {
        return Fail(RecordNotFound);
      }
      cases := cases[caseId := cases[caseId].(status := status)];
      r := Pass;
    }
  }

  /** The table after a status write: only the named case's status differs. */
  function WithStatus(cases: map<string, Case>, caseId: string, status: string): (r: map<string, Case>)
    requires caseId in cases
    ensures r.Keys == cases.Keys
    ensures r[caseId].status == status
    ensures r[caseId] == cases[caseId].(status := status)
    ensures forall id :: id in cases && id != caseId ==> r[id] == cases[id]
  {
    cases[caseId := cases[caseId].(status := status)]
  }

  /** Writing the same status twice leaves the table as writing it once. */
  lemma WithStatusIdempotent(cases: map<string, Case>, caseId: string, status: string)
    requires caseId in cases
    ensures WithStatus(WithStatus(cases, caseId, status), caseId, status) == WithStatus(cases, caseId, status)
  {
  }
}
