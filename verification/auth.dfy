/**
 * The pure string helpers of the authentication middleware
 * (services/bill-service/src/auth_middleware.cpp): `extractToken`,
 * `isValidJWTStructure` and `base64Decode`.
 */
module AuthMiddleware {
  import opened Wrappers
  import opened Utils

  // ---------------------------------------------------------------------------
  // extractToken: the Bearer scheme of section 2.1 of RFC 6750
  // ---------------------------------------------------------------------------

  const BearerPrefix: string := "Bearer "

  /**
   * `extractToken`: the text after a case-sensitive "Bearer " prefix, or ""
   * when the header is no longer than the prefix or does not start with it.
   */
  function ExtractToken(header: string): (r: string)
    ensures |header| <= 7 ==> r == ""
    ensures |header| > 7 && header[..7] != "Bearer " ==> r == ""
    ensures r != "" <==> |header| > 7 && header[..7] == "Bearer "
    ensures r != "" ==> "Bearer " + r == header
  {
    if |header| <= |BearerPrefix| then ""
    else if header[..|BearerPrefix|] != BearerPrefix then ""
    else
      var r := header[|BearerPrefix|..];
      assert BearerPrefix + r == header;
      r
  }

  /** A non-empty token survives being wrapped in a Bearer header and extracted again. */
  lemma ExtractTokenRoundTrip(token: string)
    requires token != ""
    ensures ExtractToken(BearerPrefix + token) == token
  {
    assert (BearerPrefix + token)[..|BearerPrefix|] == BearerPrefix;
  }

  // ---------------------------------------------------------------------------
  // isValidJWTStructure: the JWS compact shape of section 7.1 of RFC 7515
  // over the base64url alphabet of section 5 of RFC 4648
  // ---------------------------------------------------------------------------

  /** `[A-Za-z0-9_-]`. */
  predicate IsUrlSafeChar(c: char) {
    'A' <= c <= 'Z' || 'a' <= c <= 'z' || '0' <= c <= '9' || c == '_' || c == '-'
  }

  /** `[A-Za-z0-9_-]+`. */
  predicate IsSegment(s: string) {
    |s| > 0 && forall i :: 0 <= i < |s| ==> IsUrlSafeChar(s[i])
  }

  /** The first index of `c` in `s`. */
  function IndexOf(s: string, c: char): (r: Option<nat>)
    ensures r.None? ==> forall i :: 0 <= i < |s| ==> s[i] != c
    ensures r.Some? ==> r.value < |s| && s[r.value] == c && forall i :: 0 <= i < r.value ==> s[i] != c
  {
    if |s| == 0 then None
    else if s[0] == c then Some(0)
    else
      match IndexOf(s[1..], c)
      case None => None
      case Some(k) => Some(k + 1)
  }

  /**
   * `isValidJWTStructure`: the anchored pattern
   * `[A-Za-z0-9_-]+\.[A-Za-z0-9_-]+\.[A-Za-z0-9_-]+`. No segment character is
   * a '.', so a match must split at the first and then the next '.'.
   */
  predicate IsValidJWTStructure(token: string) {
    match IndexOf(token, '.')
    case None => false
    case Some(i) =>
      IsSegment(token[..i]) &&
      var rest := token[i + 1..];
      match IndexOf(rest, '.')
      case None => false
      case Some(j) => IsSegment(rest[..j]) && IsSegment(rest[j + 1..])
  }

  lemma SegmentHasNoDot(s: string)
    requires IsSegment(s)
    ensures IndexOf(s, '.').None?
  {
  }

  lemma IndexAfterSegment(a: string, b: string)
    requires IsSegment(a)
    ensures IndexOf(a + "." + b, '.') == Some(|a|)
    decreases |a|
  {
    var t := a + "." + b;
    SegmentHasNoDot(a);
    var r := IndexOf(t, '.');
    assert t[|a|] == '.';
    assert forall i :: 0 <= i < |a| ==> t[i] == a[i];
  }

  /** A token has the JWT structure iff it is three segments joined by two dots. */
  lemma JwtStructureBySegments(token: string)
    ensures IsValidJWTStructure(token) <==>
      exists a, b, c | IsSegment(a) && IsSegment(b) && IsSegment(c) :: token == a + "." + b + "." + c
  {
    if IsValidJWTStructure(token) {
      var a, b, c := JwtSplit(token);
    }
    if exists a, b, c | IsSegment(a) && IsSegment(b) && IsSegment(c) :: token == a + "." + b + "." + c {
      var a, b, c :| IsSegment(a) && IsSegment(b) && IsSegment(c) && token == a + "." + b + "." + c;
      JwtJoin(a, b, c);
    }
  }

  lemma JwtSplit(token: string) returns (a: string, b: string, c: string)
    requires IsValidJWTStructure(token)
    ensures IsSegment(a) && IsSegment(b) && IsSegment(c) && token == a + "." + b + "." + c
  {
    var i := IndexOf(token, '.').value;
    var rest := token[i + 1..];
    var j := IndexOf(rest, '.').value;
    a, b, c := token[..i], rest[..j], rest[j + 1..];
    assert rest == b + "." + c;
    assert token == a + "." + rest;
  }

  lemma JwtJoin(a: string, b: string, c: string)
    requires IsSegment(a) && IsSegment(b) && IsSegment(c)
    ensures IsValidJWTStructure(a + "." + b + "." + c)
  {
    var rest := b + "." + c;
    var token := a + "." + rest;
    assert token == a + "." + b + "." + c;
    IndexAfterSegment(a, rest);
    assert token[..|a|] == a;
    assert token[|a| + 1..] == rest;
    IndexAfterSegment(b, c);
    assert rest[..|b|] == b && rest[|b| + 1..] == c;
  }

  lemma {:induction false} CountInSegment(s: string, c: char)
    requires forall i :: 0 <= i < |s| ==> IsUrlSafeChar(s[i])
    requires !IsUrlSafeChar(c)
    ensures CountChar(s, c) == 0
    decreases |s|
  {
    if |s| > 0 {
      assert s[0] != c;
      CountInSegment(s[1..], c);
    }
  }

  /**
   * A structurally valid token has exactly two dots and otherwise only
   * base64url characters, so in particular no '=', '+' or '/'.
   */
  lemma JwtAlphabet(token: string)
    requires IsValidJWTStructure(token)
    ensures CountChar(token, '.') == 2
    ensures forall i :: 0 <= i < |token| ==> IsUrlSafeChar(token[i]) || token[i] == '.'
    ensures forall i :: 0 <= i < |token| ==> token[i] != '=' && token[i] != '+' && token[i] != '/'
  {
    JwtStructureBySegments(token);
    var a, b, c :| IsSegment(a) && IsSegment(b) && IsSegment(c) && token == a + "." + b + "." + c;
    CountInSegment(a, '.');
    CountInSegment(b, '.');
    CountInSegment(c, '.');
    CountConcat(a, ".", '.');
    CountConcat(a + ".", b, '.');
    CountConcat(a + "." + b, ".", '.');
    CountConcat(a + "." + b + ".", c, '.');
    forall i | 0 <= i < |token|
      ensures IsUrlSafeChar(token[i]) || token[i] == '.'
    {
      if i < |a| {
        assert token[i] == a[i];
      } else if i == |a| {
      } else if i < |a| + 1 + |b| {
        assert token[i] == b[i - |a| - 1];
      } else if i == |a| + 1 + |b| {
      } else {
        assert token[i] == c[i - |a| - |b| - 2];
      }
    }
  }

  // ---------------------------------------------------------------------------
  // base64Decode: the alphabet of section 4 of RFC 4648, no padding handling
  // ---------------------------------------------------------------------------

  type Byte = b: int | 0 <= b < 256

  predicate IsAscii(s: string) {
    forall i :: 0 <= i < |s| ==> s[i] as int < 128
  }

  /** Character `i` of "ABCDEFGHIJKLMNOPQRSTUVWXYZabcdefghijklmnopqrstuvwxyz0123456789+/". */
  function AlphabetChar(i: int): char
    requires 0 <= i < 64
  {
    if i < 26 then ('A' as int + i) as char
    else if i < 52 then ('a' as int + i - 26) as char
    else if i < 62 then ('0' as int + i - 52) as char
    else if i == 62 then '+'
    else '/'
  }

  /**
   * The lookup table `T`: the index of `c` in the alphabet, or -1 for a
   * character outside it.
   */
  function Sextet(c: char): (v: int)
    ensures -1 <= v < 64
    ensures v >= 0 ==> AlphabetChar(v) == c
    ensures v == -1 ==> forall i :: 0 <= i < 64 ==> AlphabetChar(i) != c
  {
    if 'A' <= c <= 'Z' then c as int - 'A' as int
    else if 'a' <= c <= 'z' then c as int - 'a' as int + 26
    else if '0' <= c <= '9' then c as int - '0' as int + 52
    else if c == '+' then 62
    else if c == '/' then 63
    else -1
  }

  /** The 6-bit values of the longest prefix of `s` inside the alphabet. */
  function Sextets(s: string): (vs: seq<int>)
    ensures |vs| <= |s|
    ensures forall i :: 0 <= i < |vs| ==> 0 <= vs[i] < 64 && vs[i] == Sextet(s[i])
    ensures |vs| < |s| ==> Sextet(s[|vs|]) == -1
  {
    if |s| == 0 || Sextet(s[0]) == -1 then []
    else [Sextet(s[0])] + Sextets(s[1..])
  }

  function Pow2(n: nat): (p: nat)
    ensures p > 0
  {
    if n == 0 then 1 else 2 * Pow2(n - 1)
  }

  /** The big-endian value of a bit string. */
  function BitsValue(bs: seq<bool>): nat {
    if |bs| == 0 then 0 else 2 * BitsValue(bs[..|bs| - 1]) + (if bs[|bs| - 1] then 1 else 0)
  }

  /** The low `w` bits of `n`, most significant first. */
  function ToBits(n: nat, w: nat): (bs: seq<bool>)
    ensures |bs| == w
  {
    if w == 0 then [] else ToBits(n / 2, w - 1) + [n % 2 == 1]
  }

  /** The big-endian concatenation of six bits per value. */
  function SextetBits(vs: seq<int>): (bs: seq<bool>)
    requires forall i :: 0 <= i < |vs| ==> 0 <= vs[i] < 64
    ensures |bs| == 6 * |vs|
  {
    if |vs| == 0 then [] else SextetBits(vs[..|vs| - 1]) + ToBits(vs[|vs| - 1], 6)
  }

  lemma {:induction false} BitsValueBound(bs: seq<bool>)
    ensures BitsValue(bs) < Pow2(|bs|)
    decreases |bs|
  {
    if |bs| > 0 {
      BitsValueBound(bs[..|bs| - 1]);
    }
  }

  /** One octet: the value of eight bits. */
  function OctetOf(bs: seq<bool>): Byte
    requires |bs| == 8
  {
    BitsValueBound(bs);
    assert Pow2(8) == 256;
    BitsValue(bs)
  }

  /** Successive groups of eight bits; a final group of fewer bits is dropped. */
  function Octets(bs: seq<bool>): (os: seq<Byte>)
    ensures |os| == |bs| / 8
    decreases |bs|
  {
    if |bs| < 8 then [] else [OctetOf(bs[..8])] + Octets(bs[8..])
  }

  /** What `base64Decode` is meant to compute: the octets of the consumed sextets. */
  function DecodeSpec(s: string): seq<Byte> {
    var vs := Sextets(s);
    Octets(SextetBits(vs))
  }

  lemma {:induction false} BitsValueConcat(a: seq<bool>, b: seq<bool>)
    ensures BitsValue(a + b) == BitsValue(a) * Pow2(|b|) + BitsValue(b)
    decreases |b|
  {
    if |b| == 0 {
      assert a + b == a;
    } else {
      var b' := b[..|b| - 1];
      assert (a + b)[..|a + b| - 1] == a + b';
      BitsValueConcat(a, b');
      var va, vb', p', bit := BitsValue(a), BitsValue(b'), Pow2(|b'|), if b[|b| - 1] then 1 else 0;
      assert BitsValue(a + b) == 2 * BitsValue(a + b') + bit;
      assert BitsValue(b) == 2 * vb' + bit;
      assert Pow2(|b|) == 2 * p';
      ShiftLeftOne(va, p', vb', bit);
    }
  }

  /** Shifting `va * p' + vb'` left by one bit and adding `bit`, regrouped. */
  lemma ShiftLeftOne(va: int, p': int, vb': int, bit: int)
    ensures 2 * (va * p' + vb') + bit == va * (2 * p') + (2 * vb' + bit)
  {
  }

  lemma {:induction false} ToBitsValue(n: nat, w: nat)
    requires n < Pow2(w)
    ensures BitsValue(ToBits(n, w)) == n
    decreases w
  {
    if w > 0 {
      ToBitsValue(n / 2, w - 1);
      var bs := ToBits(n, w);
      assert bs[..|bs| - 1] == ToBits(n / 2, w - 1);
    }
  }

  lemma DivModUnique(q: int, d: int, r: int)
    requires d > 0 && 0 <= r < d && q >= 0
    ensures (q * d + r) / d == q
    ensures (q * d + r) % d == r
  {
    var x := q * d + r;
    var z := x / d - q;
    assert d * z == r - x % d;
  }

  /**
   * The source's byte extraction: with `v` bits pending after `m` whole
   * octets, `(val >> v) & 0xFF` is octet `m` of the bit string.
   */
  lemma OctetExtract(bs: seq<bool>, m: nat, v: nat)
    requires |bs| == 8 * m + 8 + v
    ensures (BitsValue(bs) / Pow2(v)) % 256 == BitsValue(bs[8 * m..8 * m + 8])
  {
    var front, back := bs[..8 * m + 8], bs[8 * m + 8..];
    assert bs == front + back && |back| == v;
    var f, b, p := BitsValue(front), BitsValue(back), Pow2(v);
    BitsValueConcat(front, back);
    BitsValueBound(back);
    DivModUnique(f, p, b);
    assert BitsValue(bs) / p == f;
    var lead, octet := front[..8 * m], front[8 * m..];
    assert front == lead + octet && |octet| == 8;
    var l, o := BitsValue(lead), BitsValue(octet);
    BitsValueConcat(lead, octet);
    BitsValueBound(octet);
    assert Pow2(8) == 256;
    DivModUnique(l, 256, o);
    assert f % 256 == o;
    assert octet == bs[8 * m..8 * m + 8];
  }

  lemma {:induction false} OctetsIndex(bs: seq<bool>, m: nat)
    requires 8 * m + 8 <= |bs|
    ensures m < |Octets(bs)|
    ensures Octets(bs)[m] == BitsValue(bs[8 * m..8 * m + 8])
    decreases m
  {
    if m > 0 {
      OctetsIndex(bs[8..], m - 1);
      assert bs[8..][8 * (m - 1)..8 * (m - 1) + 8] == bs[8 * m..8 * m + 8];
    }
  }

  /** Appending bits never changes the octets already complete. */
  lemma OctetsExtend(bs: seq<bool>, more: seq<bool>)
    ensures |Octets(bs + more)| >= |Octets(bs)|
    ensures Octets(bs + more)[..|Octets(bs)|] == Octets(bs)
  {
    var a, b := Octets(bs + more), Octets(bs);
    forall m | 0 <= m < |b|
      ensures a[m] == b[m]
    {
      OctetsIndex(bs, m);
      OctetsIndex(bs + more, m);
      assert (bs + more)[8 * m..8 * m + 8] == bs[8 * m..8 * m + 8];
    }
  }

  /**
   * One turn of the decoding loop: shifting a sextet into `val` appends its
   * six bits, and an octet becomes due exactly when eight bits are pending.
   */
  lemma DecodeStep(before: seq<bool>, t: int, done: seq<Byte>, val: int, valb: int)
    requires 0 <= t < 64
    requires val == BitsValue(before) && done == Octets(before)
    requires |before| == 8 * |done| + 8 + valb && -8 <= valb < 0
    ensures val * 64 + t == BitsValue(before + ToBits(t, 6))
    ensures valb + 6 >= 0 ==> Octets(before + ToBits(t, 6)) == done + [((val * 64 + t) / Pow2(valb + 6)) % 256]
    ensures valb + 6 < 0 ==> Octets(before + ToBits(t, 6)) == done
  {
    var bits := ToBits(t, 6);
    var after := before + bits;
    BitsValueConcat(before, bits);
    assert Pow2(6) == 64;
    ToBitsValue(t, 6);
    OctetsExtend(before, bits);
    var os := Octets(after);
    assert os[..|done|] == done;
    if valb + 6 >= 0 {
      assert |os| == |done| + 1;
      OctetExtract(after, |done|, valb + 6);
      OctetsIndex(after, |done|);
      assert os == os[..|done|] + [os[|done|]];
    }
  }

  /** The state of the decoding loop after the bits `bits`: `valb` counts the pending bits minus eight. */
  predicate DecodeState(bits: seq<bool>, decoded: seq<Byte>, val: int, valb: int) {
    val == BitsValue(bits) && decoded == Octets(bits) && |bits| == 8 * |decoded| + 8 + valb && -8 <= valb < 0
  }

  /**
   * One turn of the decoding loop on sextet `t`: `val = (val << 6) + t`,
   * `valb += 6`, and when `valb` is non-negative the byte `(val >> valb) & 0xFF`
   * is emitted and `valb -= 8`.
   */
  method DecodeTurn(ghost bits: seq<bool>, decoded: seq<Byte>, val: int, valb: int, t: int)
    returns (ghost bits': seq<bool>, decoded': seq<Byte>, val': int, valb': int)
    requires 0 <= t < 64 && DecodeState(bits, decoded, val, valb)
    ensures bits' == bits + ToBits(t, 6) && DecodeState(bits', decoded', val', valb')
  {
    DecodeStep(bits, t, decoded, val, valb);
    bits' := bits + ToBits(t, 6);
    val' := val * 64 + t;
    valb' := valb + 6;
    decoded' := decoded;
    if valb' >= 0 {
      decoded' := decoded + [(val' / Pow2(valb')) % 256];
      valb' := valb' - 8;
    }
  }

  /**
   * `base64Decode`: reads characters while they are in the standard
   * alphabet, shifting six bits at a time into `val`, and emits a byte each
   * time eight bits are pending. `val` is an unbounded integer here.
   */
  method Base64Decode(input: string) returns (decoded: seq<Byte>)
    requires IsAscii(input)
    ensures decoded == DecodeSpec(input)
    ensures |decoded| == 6 * |Sextets(input)| / 8
  {
    ghost var vs := Sextets(input);
    ghost var bits: seq<bool> := [];
    decoded := [];
    var val: int := 0;
    var valb: int := -8;
    var k := 0;
    while k < |input|
      invariant 0 <= k <= |vs|
      invariant bits == SextetBits(vs[..k])
      invariant DecodeState(bits, decoded, val, valb)
    {
      var t := Sextet(input[k]);
      if t == -1 {
        break;
      }
      assert vs[k] == t;
      assert vs[..k + 1] == vs[..k] + [t];
      bits, decoded, val, valb := DecodeTurn(bits, decoded, val, valb, t);
      k := k + 1;
    }
    assert vs[..k] == vs;
  }

  /** Decoding stops at the first character outside the alphabet and ignores the rest. */
  lemma {:induction false} DecodeStopsAtForeignChar(p: string, c: char, q: string)
    requires Sextet(c) == -1
    ensures DecodeSpec(p + [c] + q) == DecodeSpec(p)
  {
    SextetsStop(p, c, q);
  }

  lemma {:induction false} SextetsStop(p: string, c: char, q: string)
    requires Sextet(c) == -1
    ensures Sextets(p + [c] + q) == Sextets(p)
    decreases |p|
  {
    if |p| > 0 && Sextet(p[0]) != -1 {
      assert (p + [c] + q)[1..] == p[1..] + [c] + q;
      SextetsStop(p[1..], c, q);
    }
  }
}
