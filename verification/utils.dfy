/**
 * The string helpers of the bill service: `trim` and `isValidUUID`
 * (services/bill-service/src/utils.cpp), together with the character
 * classes and the layout templates the request validators share.
 */
module Utils {
  import opened Wrappers

  // ---------------------------------------------------------------------------
  // Character classes
  // ---------------------------------------------------------------------------

  /** The set " \t\n\r\f\v" that `trim` strips. */
  predicate IsSpace(c: char) {
    c == ' ' || c == '\t' || c == '\n' || c == '\r' || c == '\U{000C}' || c == '\U{000B}'
  }

  predicate AllSpace(s: string) {
    forall i :: 0 <= i < |s| ==> IsSpace(s[i])
  }

  /** `\d` of an ECMAScript regular expression. */
  predicate IsDigit(c: char) {
    '0' <= c <= '9'
  }

  /** `[0-9a-fA-F]`. */
  predicate IsHexDigit(c: char) {
    IsDigit(c) || 'a' <= c <= 'f' || 'A' <= c <= 'F'
  }

  /** ASCII upper-casing of one character; everything else is left alone. */
  function UpperChar(c: char): char {
    if 'a' <= c <= 'z' then (c as int - 32) as char else c
  }

  /** ASCII lower-casing of one character; everything else is left alone. */
  function LowerChar(c: char): char {
    if 'A' <= c <= 'Z' then (c as int + 32) as char else c
  }

  function ToUpper(s: string): (r: string)
    ensures |r| == |s|
    ensures forall i :: 0 <= i < |s| ==> r[i] == UpperChar(s[i])
  {
    seq(|s|, i requires 0 <= i < |s| => UpperChar(s[i]))
  }

  function ToLower(s: string): (r: string)
    ensures |r| == |s|
    ensures forall i :: 0 <= i < |s| ==> r[i] == LowerChar(s[i])
  {
    seq(|s|, i requires 0 <= i < |s| => LowerChar(s[i]))
  }

  /** The number of occurrences of `c` in `s`. */
  function CountChar(s: string, c: char): nat {
    if |s| == 0 then 0 else (if s[0] == c then 1 else 0) + CountChar(s[1..], c)
  }

  lemma {:induction false} CountConcat(x: string, y: string, c: char)
    ensures CountChar(x + y, c) == CountChar(x, c) + CountChar(y, c)
    decreases |x|
  {
    if |x| > 0 {
      assert (x + y)[1..] == x[1..] + y;
      CountConcat(x[1..], y, c);
    } else {
      assert x + y == y;
    }
  }

  // ---------------------------------------------------------------------------
  // trim
  // ---------------------------------------------------------------------------

  lemma AllSpaceConcat(a: string, b: string)
    ensures AllSpace(a + b) <==> AllSpace(a) && AllSpace(b)
  {
    if AllSpace(a + b) {
      forall i | 0 <= i < |b|
        ensures IsSpace(b[i])
      {
        assert (a + b)[|a| + i] == b[i];
      }
      forall i | 0 <= i < |a|
        ensures IsSpace(a[i])
      {
        assert (a + b)[i] == a[i];
      }
    }
  }

  /** `find_first_not_of(" \t\n\r\f\v")`; `None` plays the part of `npos`. */
  function FindFirstNotSpace(s: string): (r: Option<nat>)
    ensures r.None? <==> AllSpace(s)
    ensures r.Some? ==> r.value < |s| && !IsSpace(s[r.value]) && AllSpace(s[..r.value])
  {
    if |s| == 0 then None
    else if !IsSpace(s[0]) then Some(0)
    else
      assert s == [s[0]] + s[1..];
      AllSpaceConcat([s[0]], s[1..]);
      match FindFirstNotSpace(s[1..])
      case None => None
      case Some(k) =>
        assert s[..k + 1] == [s[0]] + s[1..][..k];
        AllSpaceConcat([s[0]], s[1..][..k]);
        assert s[k + 1] == s[1..][k];
        Some(k + 1)
  }

  /** `find_last_not_of(" \t\n\r\f\v")`; `None` plays the part of `npos`. */
  function FindLastNotSpace(s: string): (r: Option<nat>)
    ensures r.None? <==> AllSpace(s)
    ensures r.Some? ==> r.value < |s| && !IsSpace(s[r.value]) && AllSpace(s[r.value + 1..])
  {
    if |s| == 0 then None
    else if !IsSpace(s[|s| - 1]) then Some(|s| - 1)
    else
      var front := s[..|s| - 1];
      assert s == front + [s[|s| - 1]];
      AllSpaceConcat(front, [s[|s| - 1]]);
      match FindLastNotSpace(front)
      case None => None
      case Some(k) =>
        assert s[k + 1..] == front[k + 1..] + [s[|s| - 1]];
        AllSpaceConcat(front[k + 1..], [s[|s| - 1]]);
        assert s[k] == front[k];
        Some(k)
  }

  /** The slice between the first and the last non-space character, with only spaces around it. */
  lemma SliceBetween(s: string, start: nat, end: nat)
    requires start < |s| && !IsSpace(s[start]) && AllSpace(s[..start])
    requires end < |s| && !IsSpace(s[end]) && AllSpace(s[end + 1..])
    ensures start <= end
    ensures var r := s[start..end + 1];
      && r != "" && !IsSpace(r[0]) && !IsSpace(r[|r| - 1])
      && r == s[start..start + |r|] && AllSpace(s[..start]) && AllSpace(s[start + |r|..])
  {
    assert forall j :: end < j < |s| ==> s[j] == s[end + 1..][j - end - 1];
  }

  /**
   * `trim`: the slice of `s` from its first to its last character outside
   * " \t\n\r\f\v", or "" when there is none.
   */
  function Trim(s: string): (r: string)
    ensures r == "" <==> AllSpace(s)
    ensures r != "" ==> !IsSpace(r[0]) && !IsSpace(r[|r| - 1])
    ensures exists a :: 0 <= a <= |s| - |r| && r == s[a..a + |r|] && AllSpace(s[..a]) && AllSpace(s[a + |r|..])
  {
    match FindFirstNotSpace(s)
    case None =>
      assert "" == s[0..0] && AllSpace(s[..0]) && s[0..] == s;
      ""
    case Some(start) =>
      var end := FindLastNotSpace(s).value;
      SliceBetween(s, start, end);
      s[start..end + 1]
  }

  /** A string that neither starts nor ends with whitespace is its own trim. */
  lemma TrimOfClean(s: string)
    requires s == "" || (!IsSpace(s[0]) && !IsSpace(s[|s| - 1]))
    ensures Trim(s) == s
  {
    if s != "" {
      assert s[0..|s|] == s;
    }
  }

  /** `trim` is idempotent. */
  lemma TrimIdempotent(s: string)
    ensures Trim(Trim(s)) == Trim(s)
  {
    TrimOfClean(Trim(s));
  }

  // ---------------------------------------------------------------------------
  // Layout templates: 'D' stands for a decimal digit, 'H' for a hex digit of
  // either case; any other template character must appear literally.
  // ---------------------------------------------------------------------------

  predicate CharFits(c: char, t: char) {
    if t == 'D' then IsDigit(c)
    else if t == 'H' then IsHexDigit(c)
    else c == t
  }

  predicate FitsTemplate(s: string, t: string) {
    |s| == |t| && forall i :: 0 <= i < |s| ==> CharFits(s[i], t[i])
  }

  // ---------------------------------------------------------------------------
  // isValidUUID
  // ---------------------------------------------------------------------------

  predicate HexRun(s: string) {
    forall i :: 0 <= i < |s| ==> IsHexDigit(s[i])
  }

  /**
   * `isValidUUID`: the anchored pattern
   * `[0-9a-fA-F]{8}-[0-9a-fA-F]{4}-[0-9a-fA-F]{4}-[0-9a-fA-F]{4}-[0-9a-fA-F]{12}`,
   * the 8-4-4-4-12 layout of section 3 of RFC 4122 without a version or
   * variant check.
   */
  predicate IsValidUUID(s: string) {
    && |s| == 36
    && HexRun(s[0..8]) && s[8] == '-'
    && HexRun(s[9..13]) && s[13] == '-'
    && HexRun(s[14..18]) && s[18] == '-'
    && HexRun(s[19..23]) && s[23] == '-'
    && HexRun(s[24..36])
  }

  predicate IsUuidDash(i: int) {
    i == 8 || i == 13 || i == 18 || i == 23
  }

  /** The UUID layout, position by position. */
  lemma UuidByPosition(s: string)
    ensures IsValidUUID(s) <==>
      |s| == 36 && forall i :: 0 <= i < 36 ==> if IsUuidDash(i) then s[i] == '-' else IsHexDigit(s[i])
  {
    if |s| == 36 && forall i :: 0 <= i < 36 ==> if IsUuidDash(i) then s[i] == '-' else IsHexDigit(s[i]) {
      forall k | 0 <= k < 8 ensures IsHexDigit(s[0..8][k]) { assert s[0..8][k] == s[0 + k]; }
      assert HexRun(s[0..8]);
      forall k | 0 <= k < 4 ensures IsHexDigit(s[9..13][k]) { assert s[9..13][k] == s[9 + k]; }
      assert HexRun(s[9..13]);
      forall k | 0 <= k < 4 ensures IsHexDigit(s[14..18][k]) { assert s[14..18][k] == s[14 + k]; }
      assert HexRun(s[14..18]);
      forall k | 0 <= k < 4 ensures IsHexDigit(s[19..23][k]) { assert s[19..23][k] == s[19 + k]; }
      assert HexRun(s[19..23]);
      forall k | 0 <= k < 12 ensures IsHexDigit(s[24..36][k]) { assert s[24..36][k] == s[24 + k]; }
      assert HexRun(s[24..36]);
    }
    if IsValidUUID(s) {
      forall i | 0 <= i < 36
        ensures if IsUuidDash(i) then s[i] == '-' else IsHexDigit(s[i])
      {
        if i < 8 { assert s[0..8][i] == s[i]; }
        else if 8 < i < 13 { assert s[9..13][i - 9] == s[i]; }
        else if 13 < i < 18 { assert s[14..18][i - 14] == s[i]; }
        else if 18 < i < 23 { assert s[19..23][i - 19] == s[i]; }
        else if 23 < i { assert s[24..36][i - 24] == s[i]; }
      }
    }
  }

  const UuidTemplate: string := "HHHHHHHH-HHHH-HHHH-HHHH-HHHHHHHHHHHH"

  /** The UUID layout as a template. */
  lemma UuidByTemplate(s: string)
    ensures IsValidUUID(s) <==> FitsTemplate(s, UuidTemplate)
  {
    UuidByPosition(s);
    if |s| == 36 {
      forall i | 0 <= i < 36
        ensures CharFits(s[i], UuidTemplate[i]) <==> if IsUuidDash(i) then s[i] == '-' else IsHexDigit(s[i])
      {
        assert UuidTemplate[i] == if IsUuidDash(i) then '-' else 'H';
      }
    }
  }

  /** Upper-casing a character does not change whether it is a hex digit or a dash. */
  lemma CaseKeepsClass(c: char)
    ensures IsHexDigit(UpperChar(c)) <==> IsHexDigit(c)
    ensures IsHexDigit(LowerChar(c)) <==> IsHexDigit(c)
    ensures UpperChar(c) == '-' <==> c == '-'
    ensures LowerChar(c) == '-' <==> c == '-'
  {
  }

  /** `isValidUUID` accepts both hex cases: a string is valid iff its upper-cased or lower-cased form is. */
  lemma UuidCaseInsensitive(s: string)
    ensures IsValidUUID(s) <==> IsValidUUID(ToUpper(s))
    ensures IsValidUUID(s) <==> IsValidUUID(ToLower(s))
  {
    UuidByPosition(s);
    UuidByPosition(ToUpper(s));
    UuidByPosition(ToLower(s));
    forall i | 0 <= i < |s|
      ensures IsHexDigit(ToUpper(s)[i]) <==> IsHexDigit(s[i])
      ensures IsHexDigit(ToLower(s)[i]) <==> IsHexDigit(s[i])
      ensures ToUpper(s)[i] == '-' <==> s[i] == '-'
      ensures ToLower(s)[i] == '-' <==> s[i] == '-'
    {
      CaseKeepsClass(s[i]);
    }
  }
}
