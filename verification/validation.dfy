/**
 * What the request validators of the three controllers share: the parsed
 * JSON body, seen as a map from member name to a typed value, and the ISO
 * 8601 date-time check that `isValidDateFormat` performs in both
 * services/bill-service/src/expenses_controller.cpp and
 * services/bill-service/src/events_controller.cpp (the two copies are
 * identical).
 */
module Validation {
  import opened Wrappers
  import opened Utils

  /** A JSON member value, reduced to what the validators ask of it. */
  datatype JVal = JStr(str: string) | JNum(num: real) | JOther

  /** A request body: `contains(key)` is `key in body`. */
  type Body = map<string, JVal>

  /** `contains(key) && body[key].is_string()`. */
  predicate HasString(body: Body, key: string) {
    key in body && body[key].JStr?
  }

  /** `contains(key) && body[key].is_number()`. */
  predicate HasNumber(body: Body, key: string) {
    key in body && body[key].JNum?
  }

  /**
   * The optional string member step the validators repeat: an absent member
   * gives `absent`; a member that is not a string is rejected with
   * `typeError`; otherwise the string is trimmed, and a non-empty trimmed
   * value that `valid` refuses is rejected with `invalidError`. An empty
   * trimmed value always passes.
   */
  function OptionalString(body: Body, key: string, absent: string, typeError: string,
                          valid: string -> bool, invalidError: string): Result<string>
  {
    if key !in body then Ok(absent)
    else if !body[key].JStr? then Err(typeError)
    else
      var t := Trim(body[key].str);
      if t != "" && !valid(t) then Err(invalidError) else Ok(t)
  }

  /**
   * The optional number member step: an absent member gives `None`; a member
   * that is not a number is rejected with `typeError`; a number that `valid`
   * refuses is rejected with `invalidError`.
   */
  function OptionalNumber(body: Body, key: string, typeError: string,
                          valid: real -> bool, invalidError: string): Result<Option<real>>
  {
    if key !in body then Ok(None)
    else if !body[key].JNum? then Err(typeError)
    else if !valid(body[key].num) then Err(invalidError)
    else Ok(Some(body[key].num))
  }

  /** What `OptionalString` accepts: absent, or a string whose trim is empty or `valid`. */
  predicate OptionalStringOk(body: Body, key: string, valid: string -> bool) {
    key !in body || (HasString(body, key) && (Trim(body[key].str) == "" || valid(Trim(body[key].str))))
  }

  /** The type error of the optional string step: the member is present but not a string. */
  predicate NotString(body: Body, key: string) {
    key in body && !body[key].JStr?
  }

  /** The value error of the optional string step: a non-empty trimmed string that `valid` refuses. */
  predicate RefusedText(body: Body, key: string, valid: string -> bool) {
    HasString(body, key) && Trim(body[key].str) != "" && !valid(Trim(body[key].str))
  }

  /** The trimmed string member `key`, or "" when the body has none. */
  function MemberText(body: Body, key: string): string {
    if HasString(body, key) then Trim(body[key].str) else ""
  }

  /** The type error of the optional number step: the member is present but not a number. */
  predicate NotNumber(body: Body, key: string) {
    key in body && !body[key].JNum?
  }

  /** The value error of the optional number step: a number that `valid` refuses. */
  predicate RefusedNumber(body: Body, key: string, valid: real -> bool) {
    HasNumber(body, key) && !valid(body[key].num)
  }

  /** What `OptionalNumber` accepts: absent, or a number that is `valid`. */
  predicate OptionalNumberOk(body: Body, key: string, valid: real -> bool) {
    key !in body || (HasNumber(body, key) && valid(body[key].num))
  }

  // ---------------------------------------------------------------------------
  // isValidDateFormat: ^\d{4}-\d{2}-\d{2}T\d{2}:\d{2}:\d{2}(\.\d{3})?Z?$
  // ---------------------------------------------------------------------------

  predicate DigitRun(s: string) {
    forall i :: 0 <= i < |s| ==> IsDigit(s[i])
  }

  /** `\d{4}-\d{2}-\d{2}T\d{2}:\d{2}:\d{2}`. */
  predicate IsDateTimeCore(s: string) {
    && |s| == 19
    && DigitRun(s[0..4]) && s[4] == '-'
    && DigitRun(s[5..7]) && s[7] == '-'
    && DigitRun(s[8..10]) && s[10] == 'T'
    && DigitRun(s[11..13]) && s[13] == ':'
    && DigitRun(s[14..16]) && s[16] == ':'
    && DigitRun(s[17..19])
  }

  /** `(\.\d{3})?Z?`. */
  predicate IsFractionAndZone(t: string) {
    || t == ""
    || t == "Z"
    || (|t| >= 4 && t[0] == '.' && DigitRun(t[1..4]) && (|t| == 4 || t[4..] == "Z"))
  }

  /** `isValidDateFormat`: the anchored pattern above; no range check on any field. */
  predicate IsValidDateFormat(s: string) {
    |s| >= 19 && IsDateTimeCore(s[..19]) && IsFractionAndZone(s[19..])
  }

  const DateTemplate: string := "DDDD-DD-DDTDD:DD:DD"

  /** The four shapes the pattern admits. */
  predicate IsDateShape(s: string) {
    || FitsTemplate(s, DateTemplate)
    || FitsTemplate(s, DateTemplate + "Z")
    || FitsTemplate(s, DateTemplate + ".DDD")
    || FitsTemplate(s, DateTemplate + ".DDDZ")
  }

  lemma {:induction false} FitsConcat(a: string, b: string, ta: string, tb: string)
    requires |a| == |ta|
    ensures FitsTemplate(a + b, ta + tb) <==> FitsTemplate(a, ta) && FitsTemplate(b, tb)
  {
    if FitsTemplate(a, ta) && FitsTemplate(b, tb) {
      forall i | 0 <= i < |a + b|
        ensures CharFits((a + b)[i], (ta + tb)[i])
      {
        if i >= |a| {
          assert (a + b)[i] == b[i - |a|] && (ta + tb)[i] == tb[i - |a|];
        }
      }
    }
    if FitsTemplate(a + b, ta + tb) {
      forall i | 0 <= i < |b|
        ensures CharFits(b[i], tb[i])
      {
        assert (a + b)[|a| + i] == b[i] && (ta + tb)[|a| + i] == tb[i];
      }
      forall i | 0 <= i < |a|
        ensures CharFits(a[i], ta[i])
      {
        assert (a + b)[i] == a[i] && (ta + tb)[i] == ta[i];
      }
    }
  }

  lemma CoreByTemplate(c: string)
    ensures IsDateTimeCore(c) <==> FitsTemplate(c, DateTemplate)
  {
    if |c| == 19 {
      if FitsTemplate(c, DateTemplate) {
        assert forall i :: 0 <= i < 19 ==> CharFits(c[i], DateTemplate[i]);
        assert DigitRun(c[0..4]) by {
          forall k | 0 <= k < 4 ensures IsDigit(c[0..4][k]) { assert CharFits(c[k], DateTemplate[k]); }
        }
        assert DigitRun(c[5..7]) by {
          forall k | 0 <= k < 2 ensures IsDigit(c[5..7][k]) { assert CharFits(c[5 + k], DateTemplate[5 + k]); }
        }
        assert DigitRun(c[8..10]) by {
          forall k | 0 <= k < 2 ensures IsDigit(c[8..10][k]) { assert CharFits(c[8 + k], DateTemplate[8 + k]); }
        }
        assert DigitRun(c[11..13]) by {
          forall k | 0 <= k < 2 ensures IsDigit(c[11..13][k]) { assert CharFits(c[11 + k], DateTemplate[11 + k]); }
        }
        assert DigitRun(c[14..16]) by {
          forall k | 0 <= k < 2 ensures IsDigit(c[14..16][k]) { assert CharFits(c[14 + k], DateTemplate[14 + k]); }
        }
        assert DigitRun(c[17..19]) by {
          forall k | 0 <= k < 2 ensures IsDigit(c[17..19][k]) { assert CharFits(c[17 + k], DateTemplate[17 + k]); }
        }
        assert CharFits(c[4], DateTemplate[4]) && CharFits(c[7], DateTemplate[7]);
        assert CharFits(c[10], DateTemplate[10]) && CharFits(c[13], DateTemplate[13]);
        assert CharFits(c[16], DateTemplate[16]);
      }
      if IsDateTimeCore(c) {
        forall i | 0 <= i < 19
          ensures CharFits(c[i], DateTemplate[i])
        {
          if i < 4 { assert c[0..4][i] == c[i]; }
          else if 4 < i < 7 { assert c[5..7][i - 5] == c[i]; }
          else if 7 < i < 10 { assert c[8..10][i - 8] == c[i]; }
          else if 10 < i < 13 { assert c[11..13][i - 11] == c[i]; }
          else if 13 < i < 16 { assert c[14..16][i - 14] == c[i]; }
          else if 16 < i { assert c[17..19][i - 17] == c[i]; }
        }
      }
    }
  }

  lemma FractionByTemplate(t: string)
    ensures IsFractionAndZone(t) <==>
      (FitsTemplate(t, "") || FitsTemplate(t, "Z") || FitsTemplate(t, ".DDD") || FitsTemplate(t, ".DDDZ"))
  {
    if |t| == 1 {
      assert FitsTemplate(t, "Z") <==> CharFits(t[0], 'Z');
    }
    if |t| >= 4 {
      if t[0] == '.' && DigitRun(t[1..4]) {
        assert t[1..4][0] == t[1] && t[1..4][1] == t[2] && t[1..4][2] == t[3];
      }
      if FitsTemplate(t, ".DDD") || FitsTemplate(t, ".DDDZ") {
        assert CharFits(t[0], '.') && CharFits(t[1], 'D') && CharFits(t[2], 'D') && CharFits(t[3], 'D');
        assert DigitRun(t[1..4]);
      }
      if |t| == 5 {
        assert t[4..] == [t[4]];
        assert FitsTemplate(t, ".DDDZ") ==> CharFits(t[4], 'Z');
      }
    }
  }

  /**
   * The date pattern accepts exactly the four shapes "DDDD-DD-DDTDD:DD:DD",
   * with an optional ".DDD" and then an optional "Z", D being a decimal digit.
   */
  lemma DateFormatByShape(s: string)
    ensures IsValidDateFormat(s) <==> IsDateShape(s)
    ensures IsValidDateFormat(s) ==> |s| == 19 || |s| == 20 || |s| == 23 || |s| == 24
  {
    if |s| >= 19 {
      var c, t := s[..19], s[19..];
      assert s == c + t;
      CoreByTemplate(c);
      FractionByTemplate(t);
      FitsConcat(c, t, DateTemplate, "");
      FitsConcat(c, t, DateTemplate, "Z");
      FitsConcat(c, t, DateTemplate, ".DDD");
      FitsConcat(c, t, DateTemplate, ".DDDZ");
      assert DateTemplate + "" == DateTemplate;
    }
  }
}
