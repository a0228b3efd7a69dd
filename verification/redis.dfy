/**
 * `escapeString` of services/bill-service/src/redis_client.cpp: the quoting
 * applied to a value before it is placed inside a Redis command. Every
 * double quote becomes a backslash followed by the quote; nothing else is
 * touched (in particular a backslash already in the input is kept as is).
 */
module RedisClient {
  import opened Wrappers
  import opened Utils

  /** What one input character becomes. */
  function EscapeChar(c: char): string {
    if c == '"' then "\\\"" else [c]
  }

  /** The escaping, character by character. Its length grows by one per quote. */
  function Escape(s: string): (r: string)
    ensures |r| == |s| + CountChar(s, '"')
    decreases |s|
  {
    if |s| == 0 then "" else EscapeChar(s[0]) + Escape(s[1..])
  }

  /** Every quote of an escaped string directly follows a backslash. */
  lemma {:induction false} EscapedQuotesFollowBackslash(s: string)
    ensures forall i :: 0 < i < |Escape(s)| && Escape(s)[i] == '"' ==> Escape(s)[i - 1] == '\\'
    ensures |Escape(s)| > 0 ==> Escape(s)[0] != '"'
    decreases |s|
  {
    if |s| > 0 {
      EscapedQuotesFollowBackslash(s[1..]);
      var head, rest := EscapeChar(s[0]), Escape(s[1..]);
      var r := Escape(s);
      assert r == head + rest;
      forall i | 0 < i < |r| && r[i] == '"'
        ensures r[i - 1] == '\\'
      {
        if i >= |head| + 1 {
          assert r[i] == rest[i - |head|] && r[i - 1] == rest[i - 1 - |head|];
        }
      }
    }
  }

  /**
   * The inverse reading: a backslash directly before a quote is dropped,
   * every other character is kept.
   */
  function Unescape(t: string): (s: string)
    ensures |s| <= |t|
    decreases |t|
  {
    if |t| == 0 then ""
    else if |t| >= 2 && t[0] == '\\' && t[1] == '"' then "\"" + Unescape(t[2..])
    else [t[0]] + Unescape(t[1..])
  }

  lemma {:induction false} EscapeConcat(a: string, b: string)
    ensures Escape(a + b) == Escape(a) + Escape(b)
    decreases |a|
  {
    if |a| == 0 {
      assert a + b == b;
    } else {
      assert (a + b)[1..] == a[1..] + b;
      EscapeConcat(a[1..], b);
    }
  }

  /** A string without a double quote is returned unchanged. */
  lemma {:induction false} EscapeWithoutQuotes(s: string)
    requires forall i :: 0 <= i < |s| ==> s[i] != '"'
    ensures Escape(s) == s
    decreases |s|
  {
    if |s| > 0 {
      EscapeWithoutQuotes(s[1..]);
    }
  }

  /** Unescaping the escaped string gives the input back. */
  lemma {:induction false} UnescapeEscape(s: string)
    ensures Unescape(Escape(s)) == s
    decreases |s|
  {
    if |s| > 0 {
      var rest := Escape(s[1..]);
      UnescapeEscape(s[1..]);
      if s[0] == '"' {
        assert Escape(s) == "\\\"" + rest;
        assert Escape(s)[2..] == rest;
      } else {
        assert Escape(s) == [s[0]] + rest;
        assert Escape(s)[1..] == rest;
      }
    }
  }

  /** Two different inputs never escape to the same string. */
  lemma EscapeInjective(s: string, s': string)
    requires Escape(s) == Escape(s')
    ensures s == s'
  {
    UnescapeEscape(s);
    UnescapeEscape(s');
  }

  /**
   * `std::string::find(c, from)` for `from <= |s|`: the first index at or
   * after `from` holding `c`; `None` plays the part of `npos`.
   */
  function FindFrom(s: string, c: char, from: nat): (r: Option<nat>)
    requires from <= |s|
    ensures r.Some? ==> from <= r.value < |s| && s[r.value] == c
    ensures r.Some? ==> forall i :: from <= i < r.value ==> s[i] != c
    ensures r.None? ==> forall i :: from <= i < |s| ==> s[i] != c
    decreases |s| - from
  {
    if from == |s| then None
    else if s[from] == c then Some(from)
    else FindFrom(s, c, from + 1)
  }

  /** Escaping a prefix one quote further: the quote-free run, then the escaped quote. */
  lemma EscapePrefixStep(str: string, k: nat, j: nat)
    requires k + j < |str| && str[k..][j] == '"'
    requires forall i :: 0 <= i < j ==> str[k..][i] != '"'
    ensures Escape(str[..k + j + 1]) == Escape(str[..k]) + str[k..k + j] + "\\\""
  {
    assert str[k..k + j] == str[k..][..j];
    EscapeWithoutQuotes(str[k..k + j]);
    assert str[..k + j + 1] == str[..k] + str[k..k + j] + ['"'];
    EscapeConcat(str[..k] + str[k..k + j], ['"']);
    EscapeConcat(str[..k], str[k..k + j]);
    assert Escape(['"']) == "\\\"";
  }

  /** Once no quote is left after position `k`, the rest is copied unchanged. */
  lemma EscapeRestWithoutQuotes(str: string, k: nat)
    requires k <= |str|
    requires forall i :: 0 <= i < |str| - k ==> str[k..][i] != '"'
    ensures Escape(str) == Escape(str[..k]) + str[k..]
  {
    var front, back := str[..k], str[k..];
    assert str == front + back;
    EscapeFollowedByPlain(front, back);
  }

  /** Escaping `front` followed by a quote-free `back` escapes `front` only. */
  lemma EscapeFollowedByPlain(front: string, back: string)
    requires forall i :: 0 <= i < |back| ==> back[i] != '"'
    ensures Escape(front + back) == Escape(front) + back
  {
    EscapeWithoutQuotes(back);
    EscapeConcat(front, back);
  }

  /** Searching `done + rest` from the end of `done` searches `rest`. */
  lemma QuoteInSuffix(done: string, rest: string)
    ensures FindFrom(done + rest, '"', |done|).None? ==> forall i :: 0 <= i < |rest| ==> rest[i] != '"'
    ensures FindFrom(done + rest, '"', |done|).Some? ==>
      var j := FindFrom(done + rest, '"', |done|).value - |done|;
      && 0 <= j < |rest| && rest[j] == '"'
      && forall i :: 0 <= i < j ==> rest[i] != '"'
  {
    var s := done + rest;
    forall i | 0 <= i < |rest|
      ensures s[|done| + i] == rest[i]
    {
    }
  }

  /** Replacing quote `j` after `k` by backslash-quote, with `done` in front. */
  lemma ReplaceQuote(done: string, str: string, k: nat, j: nat)
    requires k + j < |str|
    ensures var s := done + str[k..];
      s[..|done| + j] + "\\\"" + s[|done| + j + 1..] == (done + str[k..k + j] + "\\\"") + str[k + j + 1..]
  {
    var s := done + str[k..];
    assert s[..|done| + j] == done + str[k..k + j];
    assert s[|done| + j + 1..] == str[k + j + 1..];
  }

  /**
   * One turn of the `escapeString` loop: when the search from the end of the
   * escaped prefix finds a quote at `p`, replacing it and moving past the
   * inserted pair leaves a longer escaped prefix followed by the untouched rest.
   */
  lemma EscapeLoopStep(str: string, k: nat, p: nat)
    requires k <= |str|
    requires FindFrom(Escape(str[..k]) + str[k..], '"', |Escape(str[..k])|) == Some(p)
    ensures var k' := k + (p - |Escape(str[..k])|) + 1;
      var s := Escape(str[..k]) + str[k..];
      && k < k' <= |str|
      && s[..p] + "\\\"" + s[p + 1..] == Escape(str[..k']) + str[k'..]
      && p + 2 == |Escape(str[..k'])|
  {
    var done, rest := Escape(str[..k]), str[k..];
    QuoteInSuffix(done, rest);
    var j := p - |done|;
    EscapePrefixStep(str, k, j);
    ReplaceQuote(done, str, k, j);
  }

  /** When the search from the end of the escaped prefix finds no quote, the whole string is escaped. */
  lemma EscapeLoopDone(str: string, k: nat)
    requires k <= |str|
    requires FindFrom(Escape(str[..k]) + str[k..], '"', |Escape(str[..k])|).None?
    ensures Escape(str[..k]) + str[k..] == Escape(str)
  {
    QuoteInSuffix(Escape(str[..k]), str[k..]);
    EscapeRestWithoutQuotes(str, k);
  }

  /**
   * One turn of the `escapeString` loop: the quote found at `p` becomes
   * backslash-quote and the search resumes two characters later, so an
   * inserted quote is never escaped again.
   */
  method EscapeTurn(ghost str: string, ghost k: nat, escaped: string, p: nat)
    returns (escaped': string, pos': nat, ghost k': nat, next': Option<nat>)
    requires k <= |str| && escaped == Escape(str[..k]) + str[k..]
    requires FindFrom(escaped, '"', |Escape(str[..k])|) == Some(p)
    ensures k < k' <= |str| && escaped' == Escape(str[..k']) + str[k'..]
    ensures pos' == |Escape(str[..k'])| && next' == FindFrom(escaped', '"', pos')
  {
    EscapeLoopStep(str, k, p);
    k' := k + (p - |Escape(str[..k])|) + 1;
    escaped' := escaped[..p] + "\\\"" + escaped[p + 1..];
    pos' := p + 2;
    next' := FindFrom(escaped', '"', pos');
  }

  /** `escapeString`: every double quote of `str` preceded by a backslash. */
  method EscapeString(str: string) returns (escaped: string)
    ensures escaped == Escape(str)
    ensures |escaped| == |str| + CountChar(str, '"')
  {
    escaped := str;
    var pos := 0;
    ghost var k := 0;
    assert str[..0] == "" && str[0..] == str;
    var next := FindFrom(escaped, '"', pos);
    while next.Some?
      invariant 0 <= k <= |str|
      invariant escaped == Escape(str[..k]) + str[k..]
      invariant pos == |Escape(str[..k])|
      invariant next == FindFrom(escaped, '"', pos)
      decreases |str| - k
    {
      escaped, pos, k, next := EscapeTurn(str, k, escaped, next.value);
    }
    EscapeLoopDone(str, k);
  }
}
