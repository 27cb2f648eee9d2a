/**
 * The JavaScript string primitives the application relies on: `trim`, `startsWith`,
 * `split`, `join`, `filter(Boolean)`, `toLowerCase` and `toUpperCase`.
 */
module Strings {

  /** The characters `String.prototype.trim` removes: WhiteSpace and LineTerminator of ECMA-262. */
  predicate IsWhite(c: char) {
    || c == '\t' || c == '\n' || c == '\U{000B}' || c == '\U{000C}' || c == '\r' || c == ' '
    || c == '\U{00A0}' || c == '\U{1680}' || ('\U{2000}' <= c <= '\U{200A}')
    || c == '\U{2028}' || c == '\U{2029}' || c == '\U{202F}' || c == '\U{205F}' || c == '\U{3000}'
    || c == '\U{FEFF}'
  }

  predicate AllWhite(s: string) {
    forall i :: 0 <= i < |s| ==> IsWhite(s[i])
  }

  /** Neither end of `s` is a whitespace character. */
  predicate IsTrimmed(s: string) {
    s == [] || (!IsWhite(s[0]) && !IsWhite(s[|s| - 1]))
  }

  function TrimStart(s: string): (r: string)
    ensures |r| <= |s| && r == s[|s| - |r|..]
    ensures r == [] || !IsWhite(r[0])
    ensures AllWhite(s[..|s| - |r|])
  {
    if s != [] && IsWhite(s[0]) then TrimStart(s[1..]) else s
  }

  function TrimEnd(s: string): (r: string)
    ensures |r| <= |s| && r == s[..|r|]
    ensures r == [] || !IsWhite(r[|r| - 1])
    ensures AllWhite(s[|r|..])
  {
    if s != [] && IsWhite(s[|s| - 1]) then TrimEnd(s[..|s| - 1]) else s
  }

  /** `s.trim()`: what is left once whitespace is removed from both ends. */
  function Trim(s: string): (r: string)
    ensures IsTrimmed(r)
    ensures |r| <= |s|
    ensures r == [] <==> AllWhite(s)
  {
    var r := TrimEnd(TrimStart(s));
    TrimEmptyIff(s);
    r
  }

  lemma TrimEmptyIff(s: string)
    ensures TrimEnd(TrimStart(s)) == [] <==> AllWhite(s)
  {
    var t := TrimStart(s);
    assert t != [] ==> s[|s| - |t|] == t[0] && !IsWhite(t[0]) && t[0..] == t;
    assert t == [] ==> s[..|s|] == s;
  }

  /** A string that is already trimmed is its own trim. */
  lemma TrimOfTrimmed(s: string)
    requires IsTrimmed(s)
    ensures Trim(s) == s
  {
    assert TrimStart(s) == s;
    assert TrimEnd(s) == s;
  }

  /** Trimming twice is trimming once. */
  lemma TrimIdempotent(s: string)
    ensures Trim(Trim(s)) == Trim(s)
  {
    TrimOfTrimmed(Trim(s));
  }

  /** A trimmed, non-empty piece in front of trimmed, non-empty pieces keeps them all so. */
  lemma TrimmedCons(first: string, rest: seq<string>)
    requires first != "" && IsTrimmed(first)
    requires forall i :: 0 <= i < |rest| ==> rest[i] != "" && IsTrimmed(rest[i])
    ensures forall i :: 0 <= i < |[first] + rest| ==> ([first] + rest)[i] != "" && IsTrimmed(([first] + rest)[i])
  {
  }

  /** `s.startsWith(prefix)` */
  predicate StartsWith(s: string, prefix: string) {
    |prefix| <= |s| && s[..|prefix|] == prefix
  }

  /** `parts.join(sep)` */
  function Join(parts: seq<string>, sep: string): string {
    if |parts| == 0 then ""
    else if |parts| == 1 then parts[0]
    else parts[0] + sep + Join(parts[1..], sep)
  }

  /** `s.split(sep)` for a one-character separator: never empty, `"".split(sep)` is `[""]`. */
  function Split(s: string, sep: char): (r: seq<string>)
    ensures |r| >= 1
    ensures forall i :: 0 <= i < |r| ==> sep !in r[i]
    ensures Join(r, [sep]) == s
  {
    if s == [] then [""]
    else
      var rest := Split(s[1..], sep);
      if s[0] == sep then
        assert ([""] + rest)[1..] == rest;
        [""] + rest
      else
        var r := [[s[0]] + rest[0]] + rest[1..];
        assert r[1..] == rest[1..];
        r
  }

  /** A separator-free string is split into itself alone. */
  lemma {:induction false} SplitWithoutSep(a: string, sep: char)
    requires sep !in a
    ensures Split(a, sep) == [a]
  {
    if a != [] {
      SplitWithoutSep(a[1..], sep);
      assert [a[0]] + a[1..] == a;
    }
  }

  /** Splitting `a + sep + b` yields `a` followed by the split of `b`. */
  lemma {:induction false} SplitAtFirstSep(a: string, b: string, sep: char)
    requires sep !in a
    ensures Split(a + [sep] + b, sep) == [a] + Split(b, sep)
  {
    var s := a + [sep] + b;
    if a == [] {
      assert s[0] == sep && s[1..] == b;
    } else {
      assert s[1..] == a[1..] + [sep] + b;
      SplitAtFirstSep(a[1..], b, sep);
      assert [a[0]] + a[1..] == a;
    }
  }

  /** Two separator-free strings joined by the separator split back into the two. */
  lemma SplitPair(a: string, b: string, sep: char)
    requires sep !in a && sep !in b
    ensures Split(a + [sep] + b, sep) == [a, b]
  {
    SplitAtFirstSep(a, b, sep);
    SplitWithoutSep(b, sep);
  }

  /** `split` inverts `join` when no part holds the separator. */
  lemma {:induction false} SplitOfJoin(parts: seq<string>, sep: char)
    requires |parts| >= 1
    requires forall i :: 0 <= i < |parts| ==> sep !in parts[i]
    ensures Split(Join(parts, [sep]), sep) == parts
  {
    if |parts| == 1 {
      SplitWithoutSep(parts[0], sep);
    } else {
      SplitOfJoin(parts[1..], sep);
      SplitAtFirstSep(parts[0], Join(parts[1..], [sep]), sep);
      assert [parts[0]] + parts[1..] == parts;
    }
  }

  /** Every character of every part appears in the joined string. */
  lemma {:induction false} JoinContains(parts: seq<string>, sep: string, i: nat, j: nat)
    requires i < |parts| && j < |parts[i]|
    ensures parts[i][j] in Join(parts, sep)
  {
    if |parts| > 1 {
      if i == 0 {
        assert Join(parts, sep)[j] == parts[0][j];
      } else {
        JoinContains(parts[1..], sep, i - 1, j);
        var rest := Join(parts[1..], sep);
        var k :| 0 <= k < |rest| && rest[k] == parts[i][j];
        assert Join(parts, sep)[|parts[0]| + |sep| + k] == parts[i][j];
      }
    }
  }

  /** A character in neither string is not in their concatenation. */
  lemma ConcatAvoids(a: string, b: string, c: char)
    requires c !in a && c !in b
    ensures c !in a + b
  {
  }

  /** A character found in no part and not in the separator is not in the join. */
  lemma {:induction false} JoinAvoids(parts: seq<string>, sep: string, c: char)
    requires c !in sep
    requires forall i :: 0 <= i < |parts| ==> c !in parts[i]
    ensures c !in Join(parts, sep)
  {
    if |parts| > 1 {
      JoinAvoids(parts[1..], sep, c);
    }
  }

  /** Joining only empty parts leaves only separator characters. */
  lemma {:induction false} JoinOfEmpties(parts: seq<string>, sep: char)
    requires forall i :: 0 <= i < |parts| ==> parts[i] == ""
    ensures forall k :: 0 <= k < |Join(parts, [sep])| ==> Join(parts, [sep])[k] == sep
  {
    if |parts| > 1 {
      JoinOfEmpties(parts[1..], sep);
      assert Join(parts, [sep]) == [sep] + Join(parts[1..], [sep]);
    }
  }

  /** A join of non-empty parts is empty exactly when there are no parts. */
  lemma {:induction false} JoinEmptyIff(parts: seq<string>, sep: string)
    requires forall i :: 0 <= i < |parts| ==> parts[i] != ""
    ensures Join(parts, sep) == "" <==> parts == []
  {
    if |parts| > 0 {
      JoinContains(parts, sep, 0, 0);
    }
  }

  /** `parts.filter(Boolean)` on strings: the non-empty parts, in order. */
  function NonEmpty(parts: seq<string>): (r: seq<string>)
    ensures |r| <= |parts|
    ensures forall i :: 0 <= i < |r| ==> r[i] != ""
    ensures forall x :: x in r <==> x in parts && x != ""
  {
    if parts == [] then []
    else if parts[0] == "" then NonEmpty(parts[1..])
    else [parts[0]] + NonEmpty(parts[1..])
  }

  /** Nothing survives `filter(Boolean)` when every part is empty. */
  lemma {:induction false} NonEmptyOfEmpties(parts: seq<string>)
    requires forall i :: 0 <= i < |parts| ==> parts[i] == ""
    ensures NonEmpty(parts) == []
  {
    if parts != [] {
      NonEmptyOfEmpties(parts[1..]);
    }
  }

  /** The last element that survives `filter(Boolean)` is the last non-empty part. */
  lemma {:induction false} LastOfNonEmpty(parts: seq<string>)
    requires NonEmpty(parts) != []
    ensures exists i :: 0 <= i < |parts| && parts[i] == NonEmpty(parts)[|NonEmpty(parts)| - 1]
              && forall j :: i < j < |parts| ==> parts[j] == ""
  {
    var tail := NonEmpty(parts[1..]);
    if tail == [] {
      NoneSurvives(parts[1..]);
      assert NonEmpty(parts) == [parts[0]];
      EmptiesAfter(parts, 0);
    } else {
      LastOfNonEmpty(parts[1..]);
      var i :| 0 <= i < |parts[1..]| && parts[1..][i] == tail[|tail| - 1]
              && forall j :: i < j < |parts[1..]| ==> parts[1..][j] == "";
      LastKept(parts);
      EmptiesAfter(parts, i + 1);
      assert parts[i + 1] == NonEmpty(parts)[|NonEmpty(parts)| - 1];
    }
  }

  /** Nothing surviving `filter(Boolean)` means every part is empty. */
  lemma NoneSurvives(parts: seq<string>)
    requires NonEmpty(parts) == []
    ensures forall j :: 0 <= j < |parts| ==> parts[j] == ""
  {
    forall j | 0 <= j < |parts| ensures parts[j] == "" {
      assert parts[j] in parts;
    }
  }

  /** A non-empty tail survivor list ends the whole list's survivors. */
  lemma LastKept(parts: seq<string>)
    requires parts != [] && NonEmpty(parts[1..]) != []
    ensures NonEmpty(parts)[|NonEmpty(parts)| - 1] == NonEmpty(parts[1..])[|NonEmpty(parts[1..])| - 1]
  {
    var t := NonEmpty(parts[1..]);
    var all := NonEmpty(parts);
    if parts[0] == "" {
      assert all == t;
    } else {
      assert all == [parts[0]] + t;
      assert all[1..] == t;
      var k := |t| - 1;
      assert all[1..][k] == all[k + 1];
    }
  }

  /** Empty parts after position `i` of the tail are empty parts after `i` of the whole. */
  lemma EmptiesAfter(parts: seq<string>, i: nat)
    requires i < |parts|
    requires forall j :: i <= j < |parts[1..]| ==> parts[1..][j] == ""
    ensures forall j :: i < j < |parts| ==> parts[j] == ""
  {
    forall j | i < j < |parts| ensures parts[j] == "" {
      assert parts[j] == parts[1..][j - 1];
    }
  }

  function LowerChar(c: char): char {
    if 'A' <= c <= 'Z' then (c as int + 32) as char else c
  }

  function UpperChar(c: char): char {
    if 'a' <= c <= 'z' then (c as int - 32) as char else c
  }

  /** Case mapping never turns a whitespace character into another or into a non-whitespace one. */
  lemma CaseKeepsWhite(c: char)
    ensures IsWhite(UpperChar(c)) <==> IsWhite(c)
    ensures IsWhite(LowerChar(c)) <==> IsWhite(c)
    ensures IsWhite(c) ==> UpperChar(c) == c && LowerChar(c) == c
  {
  }

  /** `s.toLowerCase()`, on the ASCII letters only. */
  function Lower(s: string): (r: string)
    ensures |r| == |s|
    ensures forall i :: 0 <= i < |s| ==> r[i] == LowerChar(s[i])
  {
    seq(|s|, i requires 0 <= i < |s| => LowerChar(s[i]))
  }

  /** `s.toUpperCase()`, on the ASCII letters only. */
  function Upper(s: string): (r: string)
    ensures |r| == |s|
    ensures forall i :: 0 <= i < |s| ==> r[i] == UpperChar(s[i])
  {
    seq(|s|, i requires 0 <= i < |s| => UpperChar(s[i]))
  }

  /** Number of occurrences of `c` in `s`. */
  function Count(s: string, c: char): nat {
    if s == [] then 0 else (if s[0] == c then 1 else 0) + Count(s[1..], c)
  }

  /** Trimming commutes with `toUpperCase`. */
  lemma {:induction false} TrimStartUpper(s: string)
    ensures TrimStart(Upper(s)) == Upper(TrimStart(s))
  {
    if s != [] {
      CaseKeepsWhite(s[0]);
      if IsWhite(s[0]) {
        assert Upper(s)[1..] == Upper(s[1..]);
        TrimStartUpper(s[1..]);
      }
    }
  }

  lemma {:induction false} TrimEndUpper(s: string)
    ensures TrimEnd(Upper(s)) == Upper(TrimEnd(s))
  {
    if s != [] {
      CaseKeepsWhite(s[|s| - 1]);
      if IsWhite(s[|s| - 1]) {
        assert Upper(s)[..|s| - 1] == Upper(s[..|s| - 1]);
        TrimEndUpper(s[..|s| - 1]);
      }
    }
  }

  lemma TrimUpper(s: string)
    ensures Trim(Upper(s)) == Upper(Trim(s))
  {
    TrimStartUpper(s);
    TrimEndUpper(TrimStart(s));
  }

  /** Lower-casing an upper-cased string gives the lower-cased original. */
  lemma LowerUpper(s: string)
    ensures Lower(Upper(s)) == Lower(s)
  {
  }

  /** A string with no upper-case ASCII letter is its own lower-case form. */
  lemma LowerOfLower(s: string)
    ensures Lower(Lower(s)) == Lower(s)
  {
  }
}
