/**
 * The administrator allow-list (lib/admin.ts). The `ADMIN_EMAILS` setting, read once, is a
 * comma-separated list; each entry is trimmed and lower-cased and blank entries are
 * dropped. An email is an administrator's when, trimmed and lower-cased, it is listed.
 * The setting is the `config` parameter (`None` when unset).
 */
module Admin {
  import opened Wrappers
  import opened Strings
  import opened Http

  const Unauthorized := "Unauthorized admin access"

  /** `value.trim().toLowerCase()`: the form an email is compared in. */
  function Canonical(email: string): string {
    Lower(Trim(email))
  }

  /** A canonical email is trimmed and has no upper-case letter. */
  lemma CanonicalIsCanonical(email: string)
    ensures IsTrimmed(Canonical(email))
    ensures Lower(Canonical(email)) == Canonical(email)
    ensures Canonical(Canonical(email)) == Canonical(email)
  {
    var t := Trim(email);
    if t != [] {
      CaseKeepsWhite(t[0]);
      CaseKeepsWhite(t[|t| - 1]);
    }
    LowerOfLower(t);
    TrimOfTrimmed(Canonical(email));
  }

  /** `.map((value) => value.trim().toLowerCase())` */
  function CanonicalAll(pieces: seq<string>): (r: seq<string>)
    ensures |r| == |pieces| && forall i :: 0 <= i < |pieces| ==> r[i] == Canonical(pieces[i])
  {
    seq(|pieces|, i requires 0 <= i < |pieces| => Canonical(pieces[i]))
  }

  /** The entries of the `ADMIN_EMAILS` setting, in order, duplicates included. */
  function AdminEntries(config: Option<string>): seq<string> {
    NonEmpty(CanonicalAll(Split(config.GetOr(""), ',')))
  }

  /** Every entry is non-empty and already canonical. */
  lemma EntriesCanonical(config: Option<string>)
    ensures forall x :: x in AdminEntries(config) ==> x != "" && Canonical(x) == x
  {
    var pieces := Split(config.GetOr(""), ',');
    forall x | x in AdminEntries(config) ensures x != "" && Canonical(x) == x {
      var i :| 0 <= i < |pieces| && CanonicalAll(pieces)[i] == x;
      CanonicalIsCanonical(pieces[i]);
    }
  }

  /** `adminEmailSet` */
  function AdminEmailSet(config: Option<string>): (r: set<string>)
    ensures forall x :: x in r <==> x in AdminEntries(config)
  {
    set x | x in AdminEntries(config)
  }

  /** `Array.from(set)`: first occurrences, in order. */
  function Distinct(s: seq<string>): (r: seq<string>)
    ensures forall x :: x in r <==> x in s
    ensures forall i, j :: 0 <= i < j < |r| ==> r[i] != r[j]
  {
    if s == [] then []
    else
      var rest := Distinct(s[..|s| - 1]);
      assert forall x :: x in s <==> x in s[..|s| - 1] || x == s[|s| - 1] by {
        assert s == s[..|s| - 1] + [s[|s| - 1]];
      }
      if s[|s| - 1] in rest then rest else rest + [s[|s| - 1]]
  }

  /** The position of the first occurrence of `x` in `s`. */
  function FirstIndex(s: seq<string>, x: string): (k: nat)
    requires x in s
    ensures k < |s| && s[k] == x
    ensures forall i :: 0 <= i < k ==> s[i] != x
  {
    if s[0] == x then 0
    else
      assert x in s[1..];
      1 + FirstIndex(s[1..], x)
  }

  /** Dropping the last entry moves no first occurrence of the entries before it. */
  lemma FirstIndexPrefix(s: seq<string>, y: string)
    requires s != [] && y in s[..|s| - 1]
    ensures FirstIndex(s, y) == FirstIndex(s[..|s| - 1], y)
  {
    var p := s[..|s| - 1];
    var k, k' := FirstIndex(s, y), FirstIndex(p, y);
    assert s[k'] == y;
    assert k <= k';
    assert p[k] == y;
  }

  /** `new Set(list)` keeps each entry where it first occurs: the entries come out in first-occurrence order. */
  lemma {:induction false} DistinctKeepsFirstOrder(s: seq<string>)
    ensures forall i :: 0 <= i < |Distinct(s)| ==> Distinct(s)[i] in s
    ensures forall i, j :: 0 <= i < j < |Distinct(s)| ==> FirstIndex(s, Distinct(s)[i]) < FirstIndex(s, Distinct(s)[j])
  {
    var r := Distinct(s);
    forall i | 0 <= i < |r| ensures r[i] in s { assert r[i] in r; }
    if s != [] {
      var p := s[..|s| - 1];
      var x := s[|s| - 1];
      var rest := Distinct(p);
      DistinctKeepsFirstOrder(p);
      forall i | 0 <= i < |rest| ensures FirstIndex(s, rest[i]) == FirstIndex(p, rest[i]) && FirstIndex(p, rest[i]) < |p| {
        FirstIndexPrefix(s, rest[i]);
      }
      if x !in rest {
        assert x !in p;
        assert FirstIndex(s, x) == |s| - 1;
        assert r == rest + [x];
      }
    }
  }

  /** `getAdminEmails`: every listed administrator once, each non-empty and canonical. */
  function GetAdminEmails(config: Option<string>): (r: seq<string>)
    ensures forall x :: x in r <==> x in AdminEmailSet(config)
    ensures forall i, j :: 0 <= i < j < |r| ==> r[i] != r[j]
    ensures forall i :: 0 <= i < |r| ==> r[i] != "" && Canonical(r[i]) == r[i]
  {
    EntriesCanonical(config);
    var r := Distinct(AdminEntries(config));
    assert forall i :: 0 <= i < |r| ==> r[i] in AdminEntries(config) by {
      forall i | 0 <= i < |r| ensures r[i] in AdminEntries(config) { assert r[i] in r; }
    }
    r
  }

  /** `isAdminEmail`: a truthy email whose canonical form is listed. */
  function IsAdminEmail(config: Option<string>, email: Option<string>): (r: bool)
    ensures r <==> IsSet(email) && Canonical(email.value) in GetAdminEmails(config)
    ensures r ==> Canonical(email.value) != ""
  {
    IsSet(email) && Canonical(email.value) in AdminEmailSet(config)
  }

  /** Every address `getAdminEmails` lists is recognised as an administrator's. */
  lemma ListedIsAdmin(config: Option<string>, email: string)
    requires email in GetAdminEmails(config)
    ensures IsAdminEmail(config, Some(email))
  {
    CanonicalIsCanonical(email);
  }

  /** Letter case does not matter: an email and its upper-case form are recognised alike. */
  lemma AdminIgnoresCase(config: Option<string>, email: string)
    ensures IsAdminEmail(config, Some(Upper(email))) == IsAdminEmail(config, Some(email))
  {
    var upper := Upper(email);
    assert IsSet(Some(upper)) <==> IsSet(Some(email));
    TrimUpper(email);
    LowerUpper(Trim(email));
    assert Canonical(upper) == Lower(Upper(Trim(email)));
    assert Canonical(upper) == Canonical(email);
  }

  /** Surrounding whitespace does not matter. */
  lemma AdminIgnoresWhitespace(config: Option<string>, email: string)
    ensures IsAdminEmail(config, Some(Trim(email))) == IsAdminEmail(config, Some(email))
  {
    var t := Trim(email);
    TrimIdempotent(email);
    assert Canonical(t) == Canonical(email);
    assert IsAdminEmail(config, Some(t)) == (IsSet(Some(t)) && Canonical(t) in AdminEmailSet(config));
    assert IsAdminEmail(config, Some(email)) == (IsSet(Some(email)) && Canonical(email) in AdminEmailSet(config));
    if t == "" {
      EntriesCanonical(config);
      assert Canonical(email) !in AdminEmailSet(config);
    } else {
      assert email != "";
    }
  }

  /** Only commas and whitespace. */
  predicate BlankList(text: string) {
    forall k :: 0 <= k < |text| ==> text[k] == ',' || IsWhite(text[k])
  }

  /** Each comma-separated piece of a blank list is whitespace. */
  lemma BlankPieces(text: string)
    requires BlankList(text)
    ensures forall i :: 0 <= i < |Split(text, ',')| ==> AllWhite(Split(text, ',')[i])
  {
    var pieces := Split(text, ',');
    forall i, k | 0 <= i < |pieces| && 0 <= k < |pieces[i]| ensures IsWhite(pieces[i][k]) {
      JoinContains(pieces, [','], i, k);
      assert pieces[i][k] in pieces[i];
    }
  }

  /** A setting made only of commas and whitespace (an unset one included) names no administrator. */
  lemma BlankConfigNoAdmin(config: Option<string>, email: Option<string>)
    requires config.Some? ==> BlankList(config.value)
    ensures AdminEntries(config) == []
    ensures !IsAdminEmail(config, email)
  {
    BlankConfigNoEntries(config);
    assert AdminEmailSet(config) == {};
  }

  lemma BlankConfigNoEntries(config: Option<string>)
    requires config.Some? ==> BlankList(config.value)
    ensures AdminEntries(config) == []
  {
    var pieces := Split(config.GetOr(""), ',');
    BlankPieces(config.GetOr(""));
    BlankCanonical(pieces);
    NonEmptyOfEmpties(CanonicalAll(pieces));
  }

  lemma BlankCanonical(pieces: seq<string>)
    requires forall i :: 0 <= i < |pieces| ==> AllWhite(pieces[i])
    ensures forall i :: 0 <= i < |pieces| ==> CanonicalAll(pieces)[i] == ""
  {
    forall i | 0 <= i < |pieces| ensures CanonicalAll(pieces)[i] == "" {
      assert Trim(pieces[i]) == "";
    }
  }

  /**
   * `requireAdminSession`: passes for a session whose user has a truthy email that is an
   * administrator's, and fails with "Unauthorized admin access" otherwise.
   */
  function RequireAdminSession(config: Option<string>, session: Option<SessionUser>): (r: Outcome)
    ensures r.Pass? <==> session.Some? && IsAdminEmail(config, session.value.email)
    ensures r.Fail? ==> r == Fail(Unauthorized)
  {
    if session.None? || !IsSet(session.value.email) || !IsAdminEmail(config, session.value.email) then Fail(Unauthorized)
    else Pass
  }
}
