/**
 * The computations behind the user's dashboard (app/dashboard/page.tsx): the status
 * timeline and the state of each step, the account summary over the user's cases, the
 * screenshot keys shown for a case, and the mailing address assembled from its parts.
 */
module Dashboard {
  import opened Wrappers
  import opened Strings
  import opened JsonValue
  import opened Screenshots
  import opened Cases

  /** `TIMELINE_FLOW` */
  const TimelineFlow: seq<string> := ["RECEIVED", "REQUEST_PREPARED", "SUBMITTED", "ESCALATED", "REMOVED", "REFUNDED"]

  /** `TIMELINE_FLOW.slice(0, 4)`: the steps of a case in progress. */
  const ProgressionSteps: seq<string> := TimelineFlow[..4]

  /** `TIMELINE_FLOW.slice(4)`: the ways a case ends. */
  const ResolutionSteps: seq<string> := TimelineFlow[4..]

  datatype StepState = Completed | Current | Upcoming

  /** `list.indexOf(x)`: the first position of `x`, or -1. */
  function IndexOf(list: seq<string>, x: string): (r: int)
    ensures -1 <= r < |list|
    ensures r == -1 <==> x !in list
    ensures r >= 0 ==> list[r] == x && forall j :: 0 <= j < r ==> list[j] != x
  {
    if list == [] then -1
    else if list[0] == x then 0
    else
      var rest := IndexOf(list[1..], x);
      if rest == -1 then -1 else rest + 1
  }

  /** The timeline lists each status once. */
  lemma TimelineDistinct()
    ensures forall i, j :: 0 <= i < j < |TimelineFlow| ==> TimelineFlow[i] != TimelineFlow[j]
  {
  }

  /** The position of a step of the timeline is where it stands. */
  lemma IndexOfTimeline(i: int)
    requires 0 <= i < |TimelineFlow|
    ensures IndexOf(TimelineFlow, TimelineFlow[i]) == i
  {
    TimelineDistinct();
  }

  /** `normalizeStatus`: a timeline status as it is; anything else is shown as RECEIVED. */
  function NormalizeStatus(status: string): (r: string)
    ensures r in TimelineFlow
    ensures status in TimelineFlow ==> r == status
    ensures status !in TimelineFlow ==> r == "RECEIVED"
  {
    if status in TimelineFlow then status else "RECEIVED"
  }

  /** `getStepState`: steps before the current one are completed, the current one is current, later ones upcoming. */
  function GetStepState(current: string, step: string): (r: StepState)
    ensures current !in TimelineFlow || step !in TimelineFlow ==> r == Upcoming
    ensures current in TimelineFlow && step in TimelineFlow ==>
              && (r == Completed <==> IndexOf(TimelineFlow, step) < IndexOf(TimelineFlow, current))
              && (r == Current <==> step == current)
              && (r == Upcoming <==> IndexOf(TimelineFlow, step) > IndexOf(TimelineFlow, current))
  {
    var currentIndex := IndexOf(TimelineFlow, current);
    var stepIndex := IndexOf(TimelineFlow, step);
    if currentIndex == -1 || stepIndex == -1 then Upcoming
    else if stepIndex < currentIndex then Completed
    else if stepIndex == currentIndex then Current
    else Upcoming
  }

  /** For a status on the timeline, exactly one step of the timeline is current: that status. */
  lemma ExactlyOneCurrent(current: string)
    requires current in TimelineFlow
    ensures exists i :: 0 <= i < |TimelineFlow| && GetStepState(current, TimelineFlow[i]) == Current
    ensures forall i, j :: 0 <= i < |TimelineFlow| && 0 <= j < |TimelineFlow| &&
              GetStepState(current, TimelineFlow[i]) == Current && GetStepState(current, TimelineFlow[j]) == Current
              ==> i == j
  {
    TimelineDistinct();
    var k := IndexOf(TimelineFlow, current);
    assert GetStepState(current, TimelineFlow[k]) == Current;
  }

  /** Along the timeline the states run completed, then current, then upcoming. */
  lemma StatesInOrder(current: string, i: int, j: int)
    requires current in TimelineFlow && 0 <= i < j < |TimelineFlow|
    ensures GetStepState(current, TimelineFlow[j]) == Completed ==> GetStepState(current, TimelineFlow[i]) == Completed
    ensures GetStepState(current, TimelineFlow[i]) == Upcoming ==> GetStepState(current, TimelineFlow[j]) == Upcoming
  {
    IndexOfTimeline(i);
    IndexOfTimeline(j);
  }

  /** The progression steps and the resolution steps divide the timeline between them. */
  lemma StepsPartitionTimeline()
    ensures ProgressionSteps + ResolutionSteps == TimelineFlow
    ensures |ProgressionSteps| == 4 && |ResolutionSteps| == 2
    ensures forall s :: s in ProgressionSteps ==> s !in ResolutionSteps
    ensures ResolutionSteps == ["REMOVED", "REFUNDED"]
  {
  }

  /** A case still being worked on: not removed and not refunded. */
  predicate IsActive(c: Case) {
    c.status != "REMOVED" && c.status != "REFUNDED"
  }

  /** `cases.filter(active).length` */
  function ActiveCount(cases: seq<Case>): (r: nat)
    ensures r <= |cases|
    ensures r == |cases| <==> forall i :: 0 <= i < |cases| ==> IsActive(cases[i])
    ensures r == 0 <==> forall i :: 0 <= i < |cases| ==> !IsActive(cases[i])
  {
    if cases == [] then 0
    else
      var rest := ActiveCount(cases[1..]);
      assert forall i :: 1 <= i < |cases| ==> cases[i] == cases[1..][i - 1];
      (if IsActive(cases[0]) then 1 else 0) + rest
  }

  /** One case counts exactly when it is active. */
  lemma ActiveCountSingle(c: Case)
    ensures ActiveCount([c]) == if IsActive(c) then 1 else 0
  {
    assert [c][1..] == [];
  }

  /** The count over a concatenation is the sum of the counts: each case counts once, where it stands. */
  lemma {:induction false} ActiveCountAppend(a: seq<Case>, b: seq<Case>)
    ensures ActiveCount(a + b) == ActiveCount(a) + ActiveCount(b)
  {
    if a != [] {
      assert (a + b)[0] == a[0];
      assert (a + b)[1..] == a[1..] + b;
      ActiveCountAppend(a[1..], b);
    } else {
      assert a + b == b;
    }
  }

  /** `cases[0]`: with the list newest first, the most recent case. */
  function LatestCase(cases: seq<Case>): (r: Option<Case>)
    ensures r.None? <==> cases == []
    ensures r.Some? && NewestFirst(cases) ==> r.value in cases && forall i :: 0 <= i < |cases| ==> cases[i].createdAt <= r.value.createdAt
  {
    if cases == [] then None else Some(cases[0])
  }

  /** `cases[cases.length - 1]`: with the list newest first, the oldest case. */
  function FirstCase(cases: seq<Case>): (r: Option<Case>)
    ensures r.None? <==> cases == []
    ensures r.Some? && NewestFirst(cases) ==> r.value in cases && forall i :: 0 <= i < |cases| ==> cases[i].createdAt >= r.value.createdAt
  {
    if cases == [] then None else Some(cases[|cases| - 1])
  }

  /**
   * The screenshot keys shown for a case: those of its JSON column, or, when there are
   * none, the key of its legacy single screenshot reference.
   */
  function EvidenceKeys(c: Case, json: JsonCodec, urlPath: string -> Option<string>): (r: seq<string>)
    ensures ParseScreenshotKeys(c.screenshotUrls, json, urlPath) != [] ==> r == ParseScreenshotKeys(c.screenshotUrls, json, urlPath)
    ensures ParseScreenshotKeys(c.screenshotUrls, json, urlPath) == [] ==>
              |r| <= 1 &&
              (r != [] <==> c.screenshotUrl.Some? && !AllWhite(c.screenshotUrl.value) && ExtractUploadthingKey(c.screenshotUrl, urlPath).Some?) &&
              (r != [] ==> r == [ExtractUploadthingKey(c.screenshotUrl, urlPath).value])
    ensures forall i :: 0 <= i < |r| ==> r[i] != ""
  {
    var keys := ParseScreenshotKeys(c.screenshotUrls, json, urlPath);
    if |keys| == 0 && c.screenshotUrl.Some? && |Trim(c.screenshotUrl.value)| > 0 then
      match ExtractUploadthingKey(c.screenshotUrl, urlPath)
      case Some(legacy) => keys + [legacy]
      case None => keys
    else keys
  }

  /** An address part that is missing or only whitespace. */
  predicate Blank(part: Option<string>) {
    part.None? || AllWhite(part.value)
  }

  /** `typeof value === "string" ? value.trim() : ""` */
  function TrimmedPart(part: Option<string>): (r: string)
    ensures IsTrimmed(r)
    ensures r == "" <==> Blank(part)
  {
    if part.Some? then Trim(part.value) else ""
  }

  /** The address parts, trimmed, with the empty ones dropped. */
  function Compact(parts: seq<Option<string>>): (r: seq<string>)
    ensures |r| <= |parts|
    ensures forall i :: 0 <= i < |r| ==> r[i] != "" && IsTrimmed(r[i])
    ensures r == [] <==> forall i :: 0 <= i < |parts| ==> Blank(parts[i])
  {
    if parts == [] then []
    else
      var rest := Compact(parts[1..]);
      var first := TrimmedPart(parts[0]);
      assert rest == [] <==> forall i :: 1 <= i < |parts| ==> Blank(parts[i]) by {
        assert forall i :: 1 <= i < |parts| ==> parts[i] == parts[1..][i - 1];
      }
      if first == "" then rest
      else
        TrimmedCons(first, rest);
        [first] + rest
  }


  /** A join of trimmed, non-empty pieces begins with the first piece's first character and ends with the last piece's last. */
  lemma {:induction false} JoinEnds(parts: seq<string>, sep: string)
    requires |parts| >= 1 && forall i :: 0 <= i < |parts| ==> parts[i] != ""
    ensures |Join(parts, sep)| > 0
    ensures Join(parts, sep)[0] == parts[0][0]
    ensures Join(parts, sep)[|Join(parts, sep)| - 1] == parts[|parts| - 1][|parts[|parts| - 1]| - 1]
  {
    if |parts| > 1 {
      var rest := Join(parts[1..], sep);
      JoinEnds(parts[1..], sep);
      var joined := Join(parts, sep);
      assert joined == parts[0] + sep + rest;
      assert joined[0] == parts[0][0];
      assert joined[|joined| - 1] == rest[|rest| - 1];
      assert parts[1..][|parts[1..]| - 1] == parts[|parts| - 1];
    }
  }

  /** Compacted parts joined: empty exactly when every part is blank, and never with whitespace at either end. */
  function JoinCompact(parts: seq<Option<string>>, sep: string): (r: string)
    ensures r == "" <==> forall i :: 0 <= i < |parts| ==> Blank(parts[i])
    ensures IsTrimmed(r)
  {
    var pieces := Compact(parts);
    if pieces == [] then ""
    else
      JoinEnds(pieces, sep);
      Join(pieces, sep)
  }

  /** The mailing address shown for a case: street lines, "city, state zip", country, one per line. */
  function MailingAddress(c: Case): (r: string)
    ensures IsTrimmed(r)
    ensures r == "" <==> forall i :: 0 <= i < |AddressParts(c)| ==> Blank(AddressParts(c)[i])
  {
    JoinCompact(AddressParts(c), "\n")
  }

  /** `cityState`: city and state, separated by ", " when both are given. */
  function CityState(c: Case): string {
    JoinCompact([c.dmca.city, c.dmca.state], ", ")
  }

  /** `localityLine`: "city, state" and the zip code, separated by a space. */
  function LocalityLine(c: Case): string {
    JoinCompact([Some(CityState(c)), c.dmca.zip], " ")
  }

  /** `[addressLine1, addressLine2, localityLine, country]` */
  function AddressParts(c: Case): seq<Option<string>> {
    [c.dmca.addressLine1, c.dmca.addressLine2, Some(LocalityLine(c)), c.dmca.country]
  }

  /** Trimming keeps only characters of the original. */
  lemma TrimKeepsCharacters(s: string, ch: char)
    requires ch !in s
    ensures ch !in Trim(s)
  {
    var t := TrimStart(s);
    var u := TrimEnd(t);
    assert Trim(s) == u;
    assert u == s[|s| - |t|..][..|u|];
  }

  /** A part that, when present, does not hold `ch`. */
  predicate Avoids(part: Option<string>, ch: char) {
    part.Some? ==> ch !in part.value
  }

  /** A character no part holds is in no compacted piece. */
  lemma {:induction false} CompactAvoids(parts: seq<Option<string>>, ch: char)
    requires forall i :: 0 <= i < |parts| ==> Avoids(parts[i], ch)
    ensures forall k :: 0 <= k < |Compact(parts)| ==> ch !in Compact(parts)[k]
  {
    if parts != [] {
      var first := TrimmedPart(parts[0]);
      if parts[0].Some? {
        TrimKeepsCharacters(parts[0].value, ch);
      }
      assert ch !in first;
      var tail := parts[1..];
      assert forall i :: 0 <= i < |tail| ==> Avoids(tail[i], ch) by {
        assert forall i :: 0 <= i < |tail| ==> tail[i] == parts[i + 1];
      }
      CompactAvoids(tail, ch);
      var rest := Compact(tail);
      CompactCons(parts);
      ConsAvoids(first, rest, ch);
    }
  }

  /** A character in neither a piece nor any later piece is in no piece of the list they make. */
  lemma ConsAvoids(first: string, rest: seq<string>, ch: char)
    requires ch !in first
    requires forall k :: 0 <= k < |rest| ==> ch !in rest[k]
    ensures forall k :: 0 <= k < |[first] + rest| ==> ch !in ([first] + rest)[k]
  {
  }

  /** Compacting keeps the first part, trimmed, unless it is blank, in front of the compacted rest. */
  lemma CompactCons(parts: seq<Option<string>>)
    requires parts != []
    ensures TrimmedPart(parts[0]) == "" ==> Compact(parts) == Compact(parts[1..])
    ensures TrimmedPart(parts[0]) != "" ==> Compact(parts) == [TrimmedPart(parts[0])] + Compact(parts[1..])
  {
  }

  /** A character neither the parts nor the separator hold is not in their compact join. */
  lemma JoinCompactAvoids(parts: seq<Option<string>>, sep: string, ch: char)
    requires ch !in sep
    requires forall i :: 0 <= i < |parts| ==> Avoids(parts[i], ch)
    ensures ch !in JoinCompact(parts, sep)
  {
    CompactAvoids(parts, ch);
    JoinAvoids(Compact(parts), sep, ch);
  }

  /** No field of the mailing address holds a line break. */
  predicate SingleLineFields(c: Case) {
    && Avoids(c.dmca.addressLine1, '\n') && Avoids(c.dmca.addressLine2, '\n')
    && Avoids(c.dmca.city, '\n') && Avoids(c.dmca.state, '\n')
    && Avoids(c.dmca.zip, '\n') && Avoids(c.dmca.country, '\n')
  }

  /** Split at a character none of the parts holds, their compact join gives back the compacted parts. */
  lemma LinesOfJoinCompact(parts: seq<Option<string>>, ch: char)
    requires forall i :: 0 <= i < |parts| ==> Avoids(parts[i], ch)
    requires JoinCompact(parts, [ch]) != ""
    ensures Split(JoinCompact(parts, [ch]), ch) == Compact(parts)
  {
    CompactAvoids(parts, ch);
    SplitOfJoin(Compact(parts), ch);
  }

  /** With single-line fields, no part of the address (the assembled locality line included) holds a line break. */
  lemma AddressPartsSingleLine(c: Case)
    requires SingleLineFields(c)
    ensures forall i :: 0 <= i < |AddressParts(c)| ==> Avoids(AddressParts(c)[i], '\n')
  {
    var parts := AddressParts(c);
    forall i | 0 <= i < |parts| ensures Avoids(parts[i], '\n') {
      if i == 2 {
        LocalitySingleLine(c);
      }
    }
  }

  lemma LocalitySingleLine(c: Case)
    requires SingleLineFields(c)
    ensures '\n' !in LocalityLine(c)
  {
    JoinCompactAvoids([c.dmca.city, c.dmca.state], ", ", '\n');
    JoinCompactAvoids([Some(CityState(c)), c.dmca.zip], " ", '\n');
  }

  /**
   * When no address field holds a line break, the lines of the mailing address are
   * exactly its non-blank parts, trimmed and in order: no empty line appears.
   */
  lemma AddressLines(c: Case)
    requires SingleLineFields(c)
    requires MailingAddress(c) != ""
    ensures Split(MailingAddress(c), '\n') == Compact(AddressParts(c))
    ensures forall i :: 0 <= i < |Split(MailingAddress(c), '\n')| ==> Split(MailingAddress(c), '\n')[i] != ""
  {
    AddressPartsSingleLine(c);
    LinesOfJoinCompact(AddressParts(c), '\n');
  }
}
