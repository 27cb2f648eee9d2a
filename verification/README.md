# StopTheTea intake, checkout and payment pipeline in Dafny

This project models the core of StopTheTea, a web application that files DMCA takedown requests for a fee. The pipeline works like this:

- A signed-in user submits the intake form.
- The submission is kept in an encrypted, 24-hour intake cookie.
- Checkout reads the cookie back, creates the case and opens a Stripe payment session.
- The user comes back through the success return, which checks the purchase.
- Stripe's webhook marks the case paid and sends the notification emails once.

The model also covers the helpers around the pipeline:

- the case store and its status labels;
- screenshot-key normalisation and the signed screenshot download route;
- the administrator list, the status-change action and the CSV export;
- the dashboard's timeline and mailing-address rendering;
- the maintenance-mode middleware;
- the sign-in page's callback guard.

The model is organised one module per source file:

- **Wrappers, Strings, JsonValue, Http** model the language and framework pieces the code relies on:
  - `Option`/`Result` and JavaScript truthiness;
  - `trim`, `split`, `join`, `toLowerCase`, `toUpperCase`;
  - a JSON value together with an abstract codec;
  - responses, redirects and cookies.
- **Cases** is `lib/cases.ts`. `CaseStore` is a class over a map from id to case record. Its methods are proved against pure functions.
- **Screenshots** is `lib/screenshots.ts`.
- **IntakeSession** is `lib/intakeSession.ts`.
- **IntakeSubmit** is `app/intake/submit/route.ts`.
- **Checkout** is `app/api/create-checkout-session/route.ts`.
- **Success** is `app/intake/success/route.ts`.
- **EmailPayload** is `lib/caseEmailPayload.ts`.
- **Webhook** is `app/api/webhooks/stripe/route.ts`. The handlers are methods. Their effects are pure functions (`CompletedEffect`, `FailedEffect`, `EventEffect`, `ApplyEvents`), and the idempotence and no-downgrade properties are proved about those functions.
- **Admin** is `lib/admin.ts`.
- **AdminActions** is `app/admin/cases/actions.ts`.
- **CsvExport** is `app/admin/cases/export/route.ts`. It adds a CSV reader so that the export can be proved to read back.
- **ScreenshotRoute** is `app/api/cases/screenshots/route.ts`.
- **Dashboard** is `app/dashboard/page.tsx`: the timeline and the address lines.
- **Middleware** is `middleware.ts`.
- **SignIn** is `app/signin/page.tsx`.

Library primitives are passed in as parameters:

- `JSON.parse` and `JSON.stringify` form a `JsonCodec`. The predicate `Sound` states that parsing what was stringified gives it back.
- `new URL(..).pathname` is `urlPath`.
- `URLSearchParams` encoding is `encode`. `EscapesDelimiters` states what the model relies on from it.
- SHA-256, AES-GCM, base64, the clock and the IV are gathered in a `SessionEnv`. `SoundEnv` states that opening what was sealed gives it back.
- Date parsing and ISO formatting are parameters too.
- So are Stripe's `checkout.sessions.create`, `checkout.sessions.retrieve` and `webhooks.constructEvent`, and UploadThing's `generateSignedURL`.

Environment variables are parameters: `Option<string>`, with `None` when unset.

## Model

| member | source | states |
|---|---|---|
| Cases.MapStatusLabel | lib/cases.ts:198-201 | a known status maps to its label (lines 103-110); any other string is returned unchanged |
| Cases.MapStatusAccent | lib/cases.ts:203-206 | a known status maps to its accent classes (lines 112-119); any other string gets the default accent |
| Cases.StatusLabelsDistinct | lib/cases.ts:103-110 | two different status keys never share a label |
| Cases.CaseNumber | lib/cases.ts:129 | the case number is "STT-" followed by the first eight characters of the UUID, upper-cased: no lower-case letter after the prefix, each character the UUID's up to case |
| Cases.ScreenshotKeys | lib/cases.ts:130-153 | no screenshots give no keys; otherwise the normalised key of each stored value, in order, with values that give no key dropped; at most one non-empty key per screenshot |
| Cases.StoredValues | lib/cases.ts:152 | each screenshot contributes its storage key, else its URL |
| Cases.Columns | lib/cases.ts:169-187 | without DMCA details every DMCA column is null; with them each of the 19 columns holds its detail, so reading the columns back gives the details again |
| Cases.NewCaseRecord | lib/cases.ts:154-188 | the new row: defaults for status and platform; profile link and contact email fall back to the DMCA fields; screenshotData present iff screenshots were given; screenshotUrls null iff there are no keys, else the JSON of the keys |
| Cases.NewCaseScreenshotsReadBack | lib/cases.ts:168 | the stored screenshotUrls column parses back to exactly the normalised keys |
| Cases.InsertNewestFirst | lib/cases.ts:211 | inserting a case into a listing adds exactly that case (multiset) |
| Cases.InsertKeepsNewestFirst | lib/cases.ts:211 | insertion keeps a listing ordered newest first |
| Cases.InsertFresh | lib/cases.ts:208-214 | inserting a case not yet listed keeps every case listed once, with membership exactly the old cases plus the new one |
| Cases.TwiceInMultiset | lib/cases.ts:208-214 | a case at two positions of a listing occurs at least twice in its multiset |
| Cases.CaseStore.constructor | lib/cases.ts:190-193 | an empty, valid store with the given column defaults |
| Cases.CaseStore.CreateCaseForUser | lib/cases.ts:123-196 | an unknown status fails with "Invalid status provided." and writes nothing; otherwise exactly the new record is added under a fresh id |
| Cases.CaseStore.Query | lib/cases.ts:208-214 | the listing holds exactly the matching stored cases, once each, newest first |
| Cases.CaseStore.CasesForUser | lib/cases.ts:208-214 | exactly the user's cases, once each, newest first |
| Cases.CaseStore.AllCasesForAdmin | lib/cases.ts:232-237 | every stored case, once each, newest first |
| Cases.CaseStore.UpdateCaseStatusById | lib/cases.ts:239-247 | succeeds iff the status is known and the case exists; then only that case's status changes, otherwise nothing changes |
| Cases.WithStatus | lib/cases.ts:243-246 | the same case ids; the named case is the old case with only its status replaced; every other case is unchanged |
| Cases.WithStatusIdempotent | lib/cases.ts:243-246 | writing the same status twice is writing it once |
| Screenshots.LastSegment | lib/screenshots.ts:12-13 | the last non-empty "/"-segment of a path, containing no "/"; none iff the path is only slashes |
| Screenshots.ExtractUploadthingKey | lib/screenshots.ts:1-19 | a missing or blank value gives no key; a value not starting with "http" gives itself trimmed; a URL gives exactly the last non-empty segment of its path, and no key when it has no path |
| Screenshots.ExtractPlainKey | lib/screenshots.ts:1-19 | a trimmed non-empty key that does not start with "http" is its own key |
| Screenshots.NormalizeAll | lib/screenshots.ts:28-30 | at most one key per value, each non-empty |
| Screenshots.NormalizeAllKeys | lib/screenshots.ts:28-30 | a key is kept iff some value normalises to it |
| Screenshots.NormalizeAllAppend | lib/screenshots.ts:28-30 | normalising a concatenation concatenates the normalised parts |
| Screenshots.Present | lib/screenshots.ts:28-29 | each key is wrapped as a present value, in order |
| Screenshots.NormalizePlainKeys | lib/screenshots.ts:28-30 | normalising a list of plain keys gives the list back |
| Screenshots.JsonCandidates | lib/screenshots.ts:27 | an array gives one candidate per item, in order: the item's text when it is a string and null otherwise; a string gives itself; anything else gives none |
| Screenshots.ParseScreenshotKeys | lib/screenshots.ts:21-35 | empty gives none; JSON gives the normalised key of each candidate, in order, with candidates that give no key dropped, and none for other JSON; non-JSON text gives the key extracted from the raw text |
| Screenshots.ColumnKeys | lib/screenshots.ts:25-34 | parsed JSON gives the normalised keys of its candidates in order, at most one non-empty key per candidate, and none for other JSON; text JSON.parse rejects gives the key extracted from it, if any |
| Screenshots.ArrayKeys | lib/screenshots.ts:26-30 | a JSON array gives a key iff one of its string items extracts to that key |
| Screenshots.StoredKeysReadBack | lib/screenshots.ts:21-35 | the JSON of a list of plain keys parses back to that list |
| Screenshots.BuildScreenshotDownloadUrl | lib/screenshots.ts:37-40 | the link is "/api/cases/screenshots?" followed by the parameters |
| Screenshots.DownloadUrlParameters | lib/screenshots.ts:37-40 | the query holds exactly caseId and then fileKey, each encoded |
| IntakeSession.IntakeCookieOptions | lib/intakeSession.ts:24-30 | httpOnly, same-site lax, path "/", a 24-hour max age, secure exactly in production |
| IntakeSession.GetSecretKey | lib/intakeSession.ts:32-38 | fails iff the secret is unset or shorter than 16 characters; otherwise gives its SHA-256 |
| IntakeSession.Unframe | lib/intakeSession.ts:52-55 | splits the raw bytes into IV, tag and ciphertext, which concatenate back to the input |
| IntakeSession.UnframeFrame | lib/intakeSession.ts:47-55 | unframing an IV‖tag‖ciphertext frame gives the three parts back |
| IntakeSession.EncodeRecord | lib/intakeSession.ts:40-48 | fails iff the key does; otherwise gives the base64 of IV, tag and the sealed JSON of the record |
| IntakeSession.DecodeRecord | lib/intakeSession.ts:50-65 | no key gives no record |
| IntakeSession.DecodeAuthenticated | lib/intakeSession.ts:50-65 | a value that decodes holds a full IV and tag, and its tag and ciphertext are what sealing a plaintext of that record under the server key gives |
| IntakeSession.ReadIntakeSessionAuthenticated | lib/intakeSession.ts:111-129 | a form is read back only from a cookie sealed under the server key, stored for the same user, at most a day old |
| IntakeSession.DecodeEncode | lib/intakeSession.ts:40-65 | decoding an encoded record gives the record back |
| IntakeSession.Serialize | lib/intakeSession.ts:67-82 | every field is kept; DMCA details stay present or absent; their dates become ISO text or null |
| IntakeSession.Deserialize | lib/intakeSession.ts:84-99 | every field is kept; non-empty date text becomes a parsed date |
| IntakeSession.DateRoundTrip | lib/intakeSession.ts:78-79 | a date, or its absence, survives serialisation and deserialisation |
| IntakeSession.IsoRoundTrip | lib/intakeSession.ts:95-96 | ISO text is never empty and parses back to its date |
| IntakeSession.DeserializeSerialize | lib/intakeSession.ts:67-99 | deserialising a serialised case input gives it back |
| IntakeSession.ExactlyOneDayIsFresh | lib/intakeSession.ts:123 | a cookie exactly 24 hours old is still accepted, and one a millisecond older is not |
| IntakeSession.ReadIntakeSession | lib/intakeSession.ts:111-129 | a payload iff the cookie is present, decodes, is at most a day old and belongs to the reader; then it is the deserialised data |
| IntakeSession.SessionToken | lib/intakeSession.ts:101-109 | fails iff the secret key does |
| IntakeSession.SessionTokenDecodes | lib/intakeSession.ts:101-109 | the token is non-empty and decodes to the user, the time and the serialised payload |
| IntakeSession.StoreIntakeSession | lib/intakeSession.ts:101-109 | sets exactly the intake cookie with the token and the cookie options; with no key it fails and leaves the jar unchanged |
| IntakeSession.ClearIntakeSession | lib/intakeSession.ts:131-133 | marks the intake cookie deleted and leaves every other cookie unchanged |
| IntakeSession.ReadAfterStore | lib/intakeSession.ts:101-129 | the stored payload is read back by the same user within a day, and by nobody else or later |
| IntakeSubmit.OptionalString | app/intake/submit/route.ts:6-12 | a trimmed non-empty value iff the field is non-blank text |
| IntakeSubmit.ParseDateField | app/intake/submit/route.ts:14-27 | a missing, non-text or blank field gives no date; otherwise the date parsed from "<trimmed>T00:00:00Z" |
| IntakeSubmit.StringItems | app/intake/submit/route.ts:38 | exactly the non-empty strings of the array, never more items than it has; StringItemsSingle and StringItemsAppend pin order and multiplicity |
| IntakeSubmit.StringItemsSingle | app/intake/submit/route.ts:38 | one item is kept, as its text, exactly when it is a non-empty string |
| IntakeSubmit.StringItemsAppend | app/intake/submit/route.ts:38 | the strings of a concatenation are the strings of each part, in order, each as often as it occurs |
| IntakeSubmit.StringItemsOfArray | app/intake/submit/route.ts:38 | the non-empty strings of an array of non-empty strings are the strings themselves |
| IntakeSubmit.ParseScreenshotValue | app/intake/submit/route.ts:29-43 | non-text or empty gives none; JSON arrays give their non-empty strings; other JSON or non-JSON gives none |
| IntakeSubmit.UploadedKeysParse | app/intake/submit/route.ts:29-43 | the JSON of a list of non-empty keys parses back to the list |
| IntakeSubmit.NormalizeOwnership | app/intake/submit/route.ts:45-51 | always one of the four ownership types (lib/cases.ts:64-69); the trimmed value when it is one, else the first |
| IntakeSubmit.KeyScreenshots | app/intake/submit/route.ts:83 | one screenshot per key, carrying it as its storage key |
| IntakeSubmit.BuildCasePayload | app/intake/submit/route.ts:53-106 | platform "Tea"; a non-empty description with its fallback; the ownership type normalised from the form; each free-text notice field the trimmed form field, absent when blank; the profile link and email fields agree with the DMCA details; country defaults to "United States"; dates parsed; keys as screenshots |
| IntakeSubmit.SubmittedKeysStored | app/intake/submit/route.ts:74-83 | the plain keys submitted are exactly the keys the created case stores |
| IntakeSubmit.Post | app/intake/submit/route.ts:113-131 | signed out goes to sign in; with no key it goes back to the form with the error; otherwise a 303 to checkout carrying exactly the intake cookie |
| IntakeSubmit.SubmitThenRead | app/intake/submit/route.ts:113-131 | what a user submits is read back at checkout by that user within a day, and by nobody else |
| Checkout.BuildOrigin | app/api/create-checkout-session/route.ts:18-28 | the origin header when set, else the request's origin, else "http://localhost:3000" |
| Checkout.Metadata | app/api/create-checkout-session/route.ts:56-60 | exactly caseId, caseNumber and userId |
| Checkout.CheckoutRequestFor | app/api/create-checkout-session/route.ts:62-78 | a one-item payment for the configured price; metadata on the session and on the payment intent; the success and cancel URLs under the origin |
| Checkout.GatewayResponse | app/api/create-checkout-session/route.ts:55-90 | a 303 to the gateway URL, clearing the intake cookie, iff the key is set and a URL comes back; otherwise the matching error redirect |
| Checkout.CreateCheckoutSession | app/api/create-checkout-session/route.ts:35-91 | signed out, no price or no valid cookie writes nothing; otherwise exactly one new case is stored before the gateway is called; a payload the store refuses writes nothing |
| Success.PaymentUserId | app/intake/success/route.ts:76 | the metadata userId, else the client reference id |
| Success.PurchaseError | app/intake/success/route.ts:48-79 | no error iff every purchase check passes; an unpaid or incomplete session is "not confirmed" |
| Success.DashboardRedirect | app/intake/success/route.ts:96-104 | a 303 to /dashboard with caseCreated and caseId, plus caseNumber iff it is non-empty, clearing the intake cookie |
| Success.SuccessReturn | app/intake/success/route.ts:25-109 | the dashboard redirect iff signed in, configured, the session passes every check and names a case the user owns |
| Success.ForgedReturnRejected | app/intake/success/route.ts:59-79 | a session charging another amount than the price, or paid by another account, never reaches the dashboard |
| EmailPayload.TrimmedStrings | lib/caseEmailPayload.ts:29-31 | at most one string per item, each trimmed and non-empty |
| EmailPayload.TrimmedStringsAppend | lib/caseEmailPayload.ts:29-31 | the strings of a concatenation are the strings of each part, in order |
| EmailPayload.TrimmedStringsSingle | lib/caseEmailPayload.ts:29-31 | one item gives its trimmed text when it is a non-blank string, and nothing otherwise |
| EmailPayload.TrimmedStringsFromItems | lib/caseEmailPayload.ts:29-31 | a string is kept iff it is non-empty and the trimmed text of one of the string items |
| EmailPayload.TrimmedStringsOfArray | lib/caseEmailPayload.ts:29-31 | an array of trimmed non-empty strings gives itself |
| EmailPayload.ParseScreenshotUrls | lib/caseEmailPayload.ts:21-38 | empty, non-JSON or non-array text gives none; an array gives its trimmed non-blank strings in order |
| EmailPayload.ParseStoredUrls | lib/caseEmailPayload.ts:21-38 | the JSON of trimmed keys parses back to them |
| EmailPayload.BuildCaseEmailPayload | lib/caseEmailPayload.ts:46-61 | the name and email fallback chains; the profile link falls back to the Tea profile URL; screenshot links absent iff there are none |
| EmailPayload.NewCaseMailListsKeys | lib/caseEmailPayload.ts:46-61 | the email for a newly created case lists exactly its stored keys |
| Webhook.Dispatch | app/api/webhooks/stripe/route.ts:54-58 | the internal alert first, and the receipt as second mail iff there is a contact email |
| Webhook.CompletedEffect | app/api/webhooks/stripe/route.ts:23-64 | nothing happens unless the case exists and is unpaid; then it becomes paid, and mails are dispatched and emailSent set iff no email was sent yet |
| Webhook.FailedEffect | app/api/webhooks/stripe/route.ts:66-83 | an unpaid case becomes FAILED; otherwise nothing changes |
| Webhook.EventEffect | app/api/webhooks/stripe/route.ts:106-127 | each event type has its handler's effect; payment_intent.succeeded and other events do nothing |
| Webhook.CompletedIdempotent | app/api/webhooks/stripe/route.ts:40-43 | a second delivery of the same completed checkout changes nothing and sends nothing |
| Webhook.EventKeepsPaid | app/api/webhooks/stripe/route.ts:40-76 | no single event downgrades a paid case |
| Webhook.NeverDowngraded | app/api/webhooks/stripe/route.ts:87-134 | a paid case stays paid under any sequence of events |
| Webhook.AlertsAppend | app/api/webhooks/stripe/route.ts:55 | alerts about a case add up over concatenated mail logs |
| Webhook.EventAlerts | app/api/webhooks/stripe/route.ts:53-63 | one event alerts about a case at most once, never about a settled case, and leaves an alerted case settled |
| Webhook.AtMostOneDispatchRound | app/api/webhooks/stripe/route.ts:23-64 | however many events arrive, in any order, a case is alerted about at most once |
| Webhook.Outbox.constructor | app/api/webhooks/stripe/route.ts:55-57 | the outbox starts empty |
| Webhook.Outbox.Send | app/api/webhooks/stripe/route.ts:55-57 | a send appends exactly that mail |
| Webhook.HandleCheckoutSessionCompleted | app/api/webhooks/stripe/route.ts:23-64 | the store and the outbox end as `CompletedEffect` says |
| Webhook.HandlePaymentFailed | app/api/webhooks/stripe/route.ts:66-83 | the store ends as `FailedEffect` says |
| Webhook.Post | app/api/webhooks/stripe/route.ts:87-134 | 500 without a secret, 400 without or with a bad signature, and in those cases nothing changes; otherwise 200 after exactly the event's effect |
| Admin.CanonicalIsCanonical | lib/admin.ts:8-20 | a canonical address is trimmed, lower case and its own canonical form |
| Admin.CanonicalAll | lib/admin.ts:8 | every configured piece is canonicalised, in order |
| Admin.EntriesCanonical | lib/admin.ts:5-10 | every administrator entry is non-empty and canonical |
| Admin.AdminEmailSet | lib/admin.ts:5-10 | the set holds exactly the entries |
| Admin.Distinct | lib/admin.ts:13 | the same members, each once |
| Admin.FirstIndex | lib/admin.ts:13 | the position of the first occurrence of an entry |
| Admin.DistinctKeepsFirstOrder | lib/admin.ts:13 | the members come out in the order of their first occurrences |
| Admin.GetAdminEmails | lib/admin.ts:12-14 | exactly the set's members, each once, each non-empty and canonical |
| Admin.IsAdminEmail | lib/admin.ts:16-21 | true iff the email is set and its canonical form is listed |
| Admin.ListedIsAdmin | lib/admin.ts:12-21 | every listed address is an administrator |
| Admin.AdminIgnoresCase | lib/admin.ts:20 | upper-casing an email does not change whether it is an administrator's |
| Admin.AdminIgnoresWhitespace | lib/admin.ts:20 | trimming an email does not change whether it is an administrator's |
| Admin.BlankPieces | lib/admin.ts:6-7 | the comma-separated pieces of blank text are blank |
| Admin.BlankCanonical | lib/admin.ts:8 | blank pieces canonicalise to empty strings |
| Admin.BlankConfigNoEntries | lib/admin.ts:3-10 | an unset or blank ADMIN_EMAILS gives no entries |
| Admin.BlankConfigNoAdmin | lib/admin.ts:3-21 | an unset or blank ADMIN_EMAILS makes nobody an administrator |
| Admin.RequireAdminSession | lib/admin.ts:23-29 | passes iff there is a session whose email is an administrator's; else "Unauthorized admin access" |
| AdminActions.UpdateCaseStatusAction | app/admin/cases/actions.ts:7-23 | the error of the first failing check (administrator, case id, status) with nothing written; a write only of the named case's status when all checks pass |
| CsvExport.DoubleQuotes | app/admin/cases/export/route.ts:8 | one extra character per double quote |
| CsvExport.EscapeCsvValue | app/admin/cases/export/route.ts:7-10 | the value quoted, with its quotes doubled |
| CsvExport.ReadQuotedEscaped | app/admin/cases/export/route.ts:8 | reading a doubled-quote body up to its closing quote gives the value back |
| CsvExport.ReadFieldEscaped | app/admin/cases/export/route.ts:7-10 | reading an escaped field gives the value and the rest of the text |
| CsvExport.EscapeAll | app/admin/cases/export/route.ts:48 | every value escaped, in order |
| CsvExport.ReadRecordLine | app/admin/cases/export/route.ts:48 | a comma-joined line of escaped values reads back to the values |
| CsvExport.LinesOf | app/admin/cases/export/route.ts:47-48 | one line per row, in order |
| CsvExport.ReadCsvText | app/admin/cases/export/route.ts:47-49 | the CRLF-joined lines read back to the rows |
| CsvExport.PlatformLink | app/admin/cases/export/route.ts:31 | the profile link, else the Tea profile URL, else "" |
| CsvExport.DownloadLinks | app/admin/cases/export/route.ts:32-34 | one origin-prefixed download link per stored key |
| CsvExport.CaseRow | app/admin/cases/export/route.ts:30-45 | the six columns in header order: case number, owner's email or "", platform link, ISO creation time, the links joined by " \| " ("" without keys), status |
| CsvExport.CaseRows | app/admin/cases/export/route.ts:30 | one row per case, in order |
| CsvExport.ExportCsv | app/admin/cases/export/route.ts:12-60 | 403 "Forbidden" iff the caller is not an administrator; otherwise 200 with the header line followed by one line per case |
| CsvExport.ExportReadsBack | app/admin/cases/export/route.ts:21-49 | the exported text reads back to the header and one six-field row per case |
| ScreenshotRoute.NormalizeKey | app/api/cases/screenshots/route.ts:8-26 | the route's key normalisation agrees with the shared one (lib/screenshots.ts:1-19) |
| ScreenshotRoute.NormalizeKeys | app/api/cases/screenshots/route.ts:35-37 | agrees with the shared normalisation of all candidates |
| ScreenshotRoute.ParseStoredKeys | app/api/cases/screenshots/route.ts:28-41 | empty or non-JSON text holds no key; each key is non-empty |
| ScreenshotRoute.StoredKeysAgreeOnJson | app/api/cases/screenshots/route.ts:28-41 | on JSON text the route finds the same keys as the shared parser |
| ScreenshotRoute.CreatedKeysServed | app/api/cases/screenshots/route.ts:66 | every plain key a case was created with is a key the route serves |
| ScreenshotRoute.GetScreenshot | app/api/cases/screenshots/route.ts:43-81 | 400 without references; 401 signed out; 404 unless the case is the caller's and stores the key; a redirect only then, to the signed URL |
| ScreenshotRoute.OwnerGetsStoredScreenshot | app/api/cases/screenshots/route.ts:43-81 | an owner asking for a stored plain key is redirected to its signed URL |
| Dashboard.IndexOf | app/dashboard/page.tsx:49-50 | -1 iff absent, else the first position of the value |
| Dashboard.TimelineDistinct | app/dashboard/page.tsx:30-37 | the timeline statuses are distinct |
| Dashboard.IndexOfTimeline | app/dashboard/page.tsx:30-50 | each timeline status is found at its own position |
| Dashboard.NormalizeStatus | app/dashboard/page.tsx:44-46 | always a timeline status; the status itself when on the timeline, else "RECEIVED" |
| Dashboard.GetStepState | app/dashboard/page.tsx:48-65 | upcoming when either status is off the timeline; otherwise completed, current or upcoming as the step comes before, at or after the current status |
| Dashboard.ExactlyOneCurrent | app/dashboard/page.tsx:48-65 | for a timeline status exactly one step is current |
| Dashboard.StatesInOrder | app/dashboard/page.tsx:48-65 | steps before a completed one are completed; steps after an upcoming one are upcoming |
| Dashboard.StepsPartitionTimeline | app/dashboard/page.tsx:39-40 | four progression steps and the two resolution steps split the timeline |
| Dashboard.ActiveCount | app/dashboard/page.tsx:88-90 | at most the number of cases; all iff every case is active; none iff no case is |
| Dashboard.ActiveCountSingle | app/dashboard/page.tsx:88-90 | one case counts one exactly when it is neither removed nor refunded |
| Dashboard.ActiveCountAppend | app/dashboard/page.tsx:88-90 | the count over a concatenation is the sum of the counts of its parts |
| Dashboard.LatestCase | app/dashboard/page.tsx:87 | none iff no cases; in a newest-first listing, the newest case |
| Dashboard.FirstCase | app/dashboard/page.tsx:86 | none iff no cases; in a newest-first listing, the oldest case |
| Dashboard.EvidenceKeys | app/dashboard/page.tsx:143-153 | the stored keys, or the legacy screenshot URL's key when there are none; each non-empty |
| Dashboard.TrimmedPart | app/dashboard/page.tsx:160 | a trimmed text, empty iff the part is blank |
| Dashboard.Compact | app/dashboard/page.tsx:159-170 | the trimmed non-blank parts, none iff all are blank |
| Dashboard.JoinEnds | app/dashboard/page.tsx:159-170 | a join of non-empty parts starts with the first part and ends with the last |
| Dashboard.JoinCompact | app/dashboard/page.tsx:159-170 | a trimmed text, empty iff every part is blank |
| Dashboard.MailingAddress | app/dashboard/page.tsx:167-170 | trimmed, and empty iff every address part is blank |
| Dashboard.TrimKeepsCharacters | app/dashboard/page.tsx:160 | trimming adds no character |
| Dashboard.CompactAvoids | app/dashboard/page.tsx:159-170 | compacting adds no character |
| Dashboard.JoinCompactAvoids | app/dashboard/page.tsx:159-170 | joining parts with a separator that avoids a character keeps it out |
| Dashboard.LinesOfJoinCompact | app/dashboard/page.tsx:167-170 | splitting the joined text at the separator gives the parts back |
| Dashboard.AddressPartsSingleLine | app/dashboard/page.tsx:159-167 | with single-line fields no address part holds a line break |
| Dashboard.LocalitySingleLine | app/dashboard/page.tsx:159-166 | the locality line holds no line break |
| Dashboard.AddressLines | app/dashboard/page.tsx:159-170 | the address's lines are exactly its non-blank parts, none empty |
| Middleware.AllowPath | middleware.ts:6-20 | true iff the path starts with one of the seven allowed prefixes |
| Middleware.Route | middleware.ts:22-44 | pass through when maintenance is off or the path is allowed; otherwise 503 for API paths and the maintenance page for the rest |
| Middleware.WebhooksPass | middleware.ts:15 | the payment webhooks are never blocked |
| Middleware.NoRewriteLoop | middleware.ts:13-43 | the maintenance page passes, so a rewrite never loops |
| SignIn.CallbackUrlAsWritten | app/signin/page.tsx:15-17 | as written: a string callback starting with "/" is used, else "/dashboard" |
| SignIn.ProtocolRelativeCallbackEscapes | app/signin/page.tsx:17 | the guard as written accepts "//evil.example", which is not a path on the site |
| SignIn.CallbackUrl | app/signin/page.tsx:15-17 | the corrected guard: always a path on the site; the callback when it is one, else "/dashboard" |
| SignIn.CallbackUrlAgrees | app/signin/page.tsx:17 | the corrected guard differs from the written one only where the written one leaves the site |
| SignIn.CallbackUrlIdempotent | app/signin/page.tsx:15-17 | feeding the chosen URL back in chooses it again |
| SignIn.SignInPage | app/signin/page.tsx:12-21 | a signed-in user is redirected to the callback URL, a path on the site; otherwise the sign-in button carries it |

## Left out

- The model does not cover cryptography, base64, hashing, JSON text and the URL parser. They are parameters. The proofs assume only `SoundEnv` (opening what was sealed gives it back, and ISO dates parse back) and `Sound` (JSON round-trips).
- Stripe, UploadThing and the authentication provider are not modelled. They are parameters, so the model does not cover their network errors. A Stripe call that throws is an `Err` or a `None`.
- Database failures are not modelled. Neither are the handler-level `catch` blocks that turn them into 500s or into the generic error redirect, apart from the gateway failure in checkout.
- The webhook module's load-time throw when `STRIPE_SECRET_KEY` is unset is not modelled: the route exists only when the key is set.
- `updatedAt`, the dashboard's "Last activity" date and all date formatting are not part of this model. This includes `formatSubmittedAt`, `toLocaleString`, and the date in the CSV file name, which needs a clock.
- `revalidatePath`, logging and the middleware's `matcher` configuration are not modelled.
- `Date` is abstract. An invalid date (`NaN`) is `None` from `parseDate`.
- Strings are sequences of characters. The model has no Unicode case mapping beyond ASCII and no UTF-16 length rules.
- Requests run one at a time. Concurrent webhook deliveries and the race between the success return and the webhook are not modelled.
- Cases.NewCaseRecord: `screenshotData` stores the screenshot payloads themselves rather than their JSON text.
- Screenshots.StoredKeysReadBack: proved only for keys that do not begin with "http". Such a key is re-read as a URL and cut down to its last path segment, so it does not round-trip.
- ScreenshotRoute.ParseStoredKeys: unlike `parseScreenshotKeys`, the route's parser finds no key in text that is not JSON. The model keeps both parsers and proves that they agree on JSON text.
- IntakeSubmit.ParseScreenshotValue: the intake page's uploader posts its keys as `screenshotUrls`, but the submit route reads `screenshotFileKeys`. The submit route is modelled as written, reading `screenshotFileKeys`.
- Webhook.CompletedEffect: the status column is never null in the model, so `status ?? "RECEIVED"` keeps the status as it is.
- The success return only confirms the case; the webhook alone marks it paid and sends the mail.
- Checkout: `POST /api/create-checkout-session` always answers 405. It is the constant `Checkout.PostReply` and has no row.
- SignIn.SignInPage: uses the corrected guard `CallbackUrl`. The guard as written is kept as `CallbackUrlAsWritten`. See Findings.

## Findings

| source | as written | input that shows it | evidently intended | confidence | as-written member | corrected member |
|---|---|---|---|---|---|---|
| app/signin/page.tsx:17 | any string callback starting with "/" is used as the redirect target | callback `//evil.example`: a signed-in user is redirected to the host evil.example | only paths on this site: one "/" not followed by "/" or "\\" | not executed; medium | SignIn.ProtocolRelativeCallbackEscapes | SignIn.CallbackUrl |
