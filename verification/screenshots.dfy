/**
 * Screenshot references: UploadThing storage keys, the JSON list a case stores them in,
 * and the same-origin download link for one of them (lib/screenshots.ts).
 *
 * `new URL(s).pathname` is passed in as `urlPath`, which returns `None` where the URL
 * constructor throws; `URLSearchParams` percent-encoding is passed in as `encode`.
 */
module Screenshots {
  import opened Wrappers
  import opened Strings
  import opened JsonValue

  /** `pathname.split("/").filter(Boolean).pop() ?? null`: the last non-empty path segment. */
  function LastSegment(path: string): (r: Option<string>)
    ensures r.Some? ==> r.value != "" && '/' !in r.value
    ensures r.Some? ==> exists i :: 0 <= i < |Split(path, '/')| && Split(path, '/')[i] == r.value
                          && forall j :: i < j < |Split(path, '/')| ==> Split(path, '/')[j] == ""
    ensures r.None? <==> forall k :: 0 <= k < |path| ==> path[k] == '/'
  {
    var pieces := Split(path, '/');
    var segments := NonEmpty(pieces);
    if segments == [] then
      assert forall i :: 0 <= i < |pieces| ==> pieces[i] == "" by {
        forall i | 0 <= i < |pieces| ensures pieces[i] == "" { assert pieces[i] in pieces; }
      }
      JoinOfEmpties(pieces, '/');
      None
    else
      var last := segments[|segments| - 1];
      LastOfNonEmpty(pieces);
      assert last in pieces;
      var i :| 0 <= i < |pieces| && pieces[i] == last;
      assert last[0] in path && last[0] != '/' by { JoinContains(pieces, "/", i, 0); }
      Some(last)
  }

  /** Does `s` take the URL branch of key extraction? */
  predicate IsUrlLike(s: string) {
    StartsWith(s, "http")
  }

  /**
   * `extractUploadthingKey`: the storage key a stored value designates. Absent or blank
   * values have none; a value starting with "http" designates the last segment of its URL
   * path; anything else is its own key, trimmed.
   */
  function ExtractUploadthingKey(value: Option<string>, urlPath: string -> Option<string>): (r: Option<string>)
    ensures value.None? || AllWhite(value.value) ==> r.None?
    ensures r.Some? ==> r.value != ""
    ensures value.Some? && !AllWhite(value.value) && !IsUrlLike(Trim(value.value)) ==> r == Some(Trim(value.value))
    ensures value.Some? && IsUrlLike(Trim(value.value)) && r.Some? ==>
              '/' !in r.value && urlPath(Trim(value.value)).Some? && r == LastSegment(urlPath(Trim(value.value)).value)
    ensures value.Some? && !AllWhite(value.value) && IsUrlLike(Trim(value.value)) ==>
              r == (match urlPath(Trim(value.value)) case None => None case Some(path) => LastSegment(path))
  {
    if value.None? || value.value == "" then None
    else
      var trimmed := Trim(value.value);
      if trimmed == "" then None
      else if IsUrlLike(trimmed) then
        match urlPath(trimmed)
        case None => None
        case Some(path) => LastSegment(path)
      else Some(trimmed)
  }

  /** A key that extraction returns unchanged: non-empty, trimmed and not URL-like. */
  predicate IsPlainKey(key: string) {
    key != "" && IsTrimmed(key) && !IsUrlLike(key)
  }

  lemma ExtractPlainKey(key: string, urlPath: string -> Option<string>)
    requires IsPlainKey(key)
    ensures ExtractUploadthingKey(Some(key), urlPath) == Some(key)
  {
    TrimOfTrimmed(key);
  }

  /**
   * `values.map(extract).filter(non-empty)`: the keys of a list of stored values, one per
   * value that designates a key, in order.
   */
  function NormalizeAll(values: seq<Option<string>>, urlPath: string -> Option<string>): (r: seq<string>)
    ensures |r| <= |values|
    ensures forall i :: 0 <= i < |r| ==> r[i] != ""
  {
    if values == [] then []
    else
      var rest := NormalizeAll(values[1..], urlPath);
      match ExtractUploadthingKey(values[0], urlPath)
      case Some(k) => [k] + rest
      case None => rest
  }

  /** Does the value at position `i` designate the key `k`? */
  predicate KeyAt(values: seq<Option<string>>, i: int, k: string, urlPath: string -> Option<string>) {
    0 <= i < |values| && ExtractUploadthingKey(values[i], urlPath) == Some(k)
  }

  /** The keys kept are exactly those some value designates. */
  lemma {:induction false} NormalizeAllKeys(values: seq<Option<string>>, urlPath: string -> Option<string>)
    ensures forall k :: k in NormalizeAll(values, urlPath) <==> exists i :: KeyAt(values, i, k, urlPath)
  {
    if values != [] {
      var tail := values[1..];
      var rest := NormalizeAll(tail, urlPath);
      NormalizeAllKeys(tail, urlPath);
      forall k ensures k in NormalizeAll(values, urlPath) <==> exists i :: KeyAt(values, i, k, urlPath) {
        if ExtractUploadthingKey(values[0], urlPath) == Some(k) {
          assert KeyAt(values, 0, k, urlPath);
        } else {
          assert k in NormalizeAll(values, urlPath) <==> k in rest;
          KeyAtShift(values, k, urlPath);
        }
      }
    }
  }

  /** A key the first value does not designate is designated in the values exactly when it is in their tail. */
  lemma KeyAtShift(values: seq<Option<string>>, k: string, urlPath: string -> Option<string>)
    requires values != [] && ExtractUploadthingKey(values[0], urlPath) != Some(k)
    ensures (exists i :: KeyAt(values, i, k, urlPath)) <==> exists i :: KeyAt(values[1..], i, k, urlPath)
  {
    if exists i :: KeyAt(values, i, k, urlPath) {
      var i :| KeyAt(values, i, k, urlPath);
      assert values[1..][i - 1] == values[i];
      assert KeyAt(values[1..], i - 1, k, urlPath);
    }
    if exists i :: KeyAt(values[1..], i, k, urlPath) {
      var i :| KeyAt(values[1..], i, k, urlPath);
      assert values[i + 1] == values[1..][i];
      assert KeyAt(values, i + 1, k, urlPath);
    }
  }

  /** Normalising a concatenation normalises each part in turn: the order of keys is kept. */
  lemma {:induction false} NormalizeAllAppend(a: seq<Option<string>>, b: seq<Option<string>>, urlPath: string -> Option<string>)
    ensures NormalizeAll(a + b, urlPath) == NormalizeAll(a, urlPath) + NormalizeAll(b, urlPath)
  {
    if a != [] {
      assert (a + b)[1..] == a[1..] + b;
      NormalizeAllAppend(a[1..], b, urlPath);
    } else {
      assert a + b == b;
    }
  }

  /** Each key as a present stored value. */
  function Present(keys: seq<string>): (r: seq<Option<string>>)
    ensures |r| == |keys| && forall i :: 0 <= i < |keys| ==> r[i] == Some(keys[i])
  {
    seq(|keys|, i requires 0 <= i < |keys| => Some(keys[i]))
  }

  /** A list of plain keys normalises to itself. */
  lemma {:induction false} NormalizePlainKeys(keys: seq<string>, urlPath: string -> Option<string>)
    requires forall i :: 0 <= i < |keys| ==> IsPlainKey(keys[i])
    ensures NormalizeAll(Present(keys), urlPath) == keys
  {
    if keys != [] {
      var values := Present(keys);
      ExtractPlainKey(keys[0], urlPath);
      assert values[1..] == Present(keys[1..]);
      NormalizePlainKeys(keys[1..], urlPath);
      assert NormalizeAll(values, urlPath) == [keys[0]] + NormalizeAll(values[1..], urlPath);
      assert [keys[0]] + keys[1..] == keys;
    }
  }

  /** The candidate values of a parsed column: an array's elements, a lone string, or nothing. */
  function JsonCandidates(parsed: Json): (r: seq<Option<string>>)
    ensures parsed.JArray? ==> |r| == |parsed.items|
    ensures parsed.JArray? ==> forall i :: 0 <= i < |r| ==> r[i] == StringOrNull(parsed.items[i])
    ensures parsed.JString? ==> r == [Some(parsed.str)]
    ensures parsed.JOther? ==> r == []
  {
    match parsed
    case JArray(items) => seq(|items|, i requires 0 <= i < |items| => StringOrNull(items[i]))
    case JString(s) => [Some(s)]
    case JOther => []
  }

  /**
   * `parseScreenshotKeys`: the storage keys held by a `screenshotUrls` column. The column is
   * a JSON array or string of stored values; text that is not JSON is read as one stored value.
   */
  function ParseScreenshotKeys(raw: Option<string>, json: JsonCodec, urlPath: string -> Option<string>): (r: seq<string>)
    ensures raw.None? || raw.value == "" ==> r == []
    ensures forall i :: 0 <= i < |r| ==> r[i] != ""
    ensures raw.Some? && raw.value != "" && json.parse(raw.value).Some? ==>
              |r| <= |JsonCandidates(json.parse(raw.value).value)|
    ensures raw.Some? && raw.value != "" && json.parse(raw.value) == Some(JOther) ==> r == []
    ensures raw.Some? && raw.value != "" && json.parse(raw.value).Some? ==>
              r == NormalizeAll(JsonCandidates(json.parse(raw.value).value), urlPath)
    ensures raw.Some? && raw.value != "" && json.parse(raw.value).None? ==>
              r == (match ExtractUploadthingKey(raw, urlPath) case Some(k) => [k] case None => [])
  {
    if raw.None? || raw.value == "" then [] else ColumnKeys(raw.value, json.parse(raw.value), urlPath)
  }

  /** The keys of non-empty column text, given what `JSON.parse` made of it (`None` where it threw). */
  function ColumnKeys(text: string, parsed: Option<Json>, urlPath: string -> Option<string>): (r: seq<string>)
    ensures forall i :: 0 <= i < |r| ==> r[i] != ""
    ensures parsed.Some? ==> |r| <= |JsonCandidates(parsed.value)|
    ensures parsed == Some(JOther) ==> r == []
    ensures parsed.Some? ==> r == NormalizeAll(JsonCandidates(parsed.value), urlPath)
    ensures parsed.None? ==> r == (match ExtractUploadthingKey(Some(text), urlPath) case Some(k) => [k] case None => [])
  {
    match parsed
    case Some(p) => NormalizeAll(JsonCandidates(p), urlPath)
    case None =>
      var extracted := ExtractUploadthingKey(Some(text), urlPath);
      if extracted.Some? then [extracted.value] else []
  }

  /** Does the string item at position `i` designate the key `k`? */
  predicate StringItemKey(items: seq<Json>, i: int, k: string, urlPath: string -> Option<string>) {
    0 <= i < |items| && items[i].JString? && ExtractUploadthingKey(Some(items[i].str), urlPath) == Some(k)
  }

  /** The keys of a JSON array column are exactly those its string items designate; other items count for nothing. */
  lemma ArrayKeys(items: seq<Json>, urlPath: string -> Option<string>)
    ensures forall k :: k in ColumnKeys("[]", Some(JArray(items)), urlPath) <==> exists i :: StringItemKey(items, i, k, urlPath)
  {
    var candidates := JsonCandidates(JArray(items));
    NormalizeAllKeys(candidates, urlPath);
    forall k, i ensures KeyAt(candidates, i, k, urlPath) <==> StringItemKey(items, i, k, urlPath) {
    }
  }

  /**
   * A list of plain keys written with `JSON.stringify` reads back as the same list.
   * (A key that itself begins with "http" would not: it is taken for a URL and dropped.)
   */
  lemma StoredKeysReadBack(keys: seq<string>, json: JsonCodec, urlPath: string -> Option<string>)
    requires Sound(json)
    requires forall i :: 0 <= i < |keys| ==> IsPlainKey(keys[i])
    ensures ParseScreenshotKeys(Some(json.stringify(StringArray(keys))), json, urlPath) == keys
  {
    var j := StringArray(keys);
    assert json.parse(json.stringify(j)) == Some(j);
    assert JsonCandidates(j) == Present(keys);
    NormalizePlainKeys(keys, urlPath);
  }

  const DownloadPath := "/api/cases/screenshots"

  /**
   * `buildScreenshotDownloadUrl`: `/api/cases/screenshots?` followed by the query string
   * `URLSearchParams({ caseId, fileKey })` writes.
   */
  function BuildScreenshotDownloadUrl(caseId: string, fileKey: string, encode: string -> string): (r: string)
    ensures StartsWith(r, DownloadPath + "?")
  {
    DownloadPath + "?" + "caseId=" + encode(caseId) + "&fileKey=" + encode(fileKey)
  }

  /** Form encoding never leaves a raw `&` or `=` in an encoded name or value. */
  ghost predicate EscapesDelimiters(encode: string -> string) {
    forall s :: '&' !in encode(s) && '=' !in encode(s)
  }

  /** `name=value` splits at its one "=" into the name and the value. */
  lemma ParameterSplits(name: string, value: string)
    requires '=' !in name && '=' !in value
    ensures Split(name + "=" + value, '=') == [name, value]
  {
    assert name + "=" + value == name + ['='] + value;
    SplitPair(name, value, '=');
  }

  /** `name=value` holds no `&` when neither the name nor the value does. */
  lemma ParameterAvoids(name: string, value: string)
    requires '&' !in name && '&' !in value
    ensures '&' !in name + "=" + value
  {
    ConcatAvoids(name, "=", '&');
    ConcatAvoids(name + "=", value, '&');
  }

  /** A query of two `name=value` pairs splits back into its pairs, and each pair into its name and value. */
  lemma TwoParameters(n0: string, v0: string, n1: string, v1: string)
    requires '&' !in n0 && '=' !in n0 && '&' !in v0 && '=' !in v0
    requires '&' !in n1 && '=' !in n1 && '&' !in v1 && '=' !in v1
    ensures var q := Split((n0 + "=" + v0) + "&" + (n1 + "=" + v1), '&');
            && q == [n0 + "=" + v0, n1 + "=" + v1]
            && Split(q[0], '=') == [n0, v0]
            && Split(q[1], '=') == [n1, v1]
  {
    var p0, p1 := n0 + "=" + v0, n1 + "=" + v1;
    ParameterAvoids(n0, v0);
    ParameterAvoids(n1, v1);
    assert p0 + "&" + p1 == p0 + ['&'] + p1;
    SplitPair(p0, p1, '&');
    ParameterSplits(n0, v0);
    ParameterSplits(n1, v1);
  }

  /** The download link carries exactly two parameters, caseId then fileKey, each with its encoded value. */
  lemma DownloadUrlParameters(caseId: string, fileKey: string, encode: string -> string)
    requires EscapesDelimiters(encode)
    ensures var r := BuildScreenshotDownloadUrl(caseId, fileKey, encode);
            var query := Split(r[|DownloadPath| + 1..], '&');
            && query == ["caseId=" + encode(caseId), "fileKey=" + encode(fileKey)]
            && Split(query[0], '=') == ["caseId", encode(caseId)]
            && Split(query[1], '=') == ["fileKey", encode(fileKey)]
  {
    var r := BuildScreenshotDownloadUrl(caseId, fileKey, encode);
    var e0, e1 := encode(caseId), encode(fileKey);
    assert '&' !in e0 && '=' !in e0 && '&' !in e1 && '=' !in e1;
    assert "caseId=" + e0 == "caseId" + "=" + e0 && "fileKey=" + e1 == "fileKey" + "=" + e1;
    assert r[|DownloadPath| + 1..] == ("caseId" + "=" + e0) + "&" + ("fileKey" + "=" + e1);
    TwoParameters("caseId", e0, "fileKey", e1);
  }
}
