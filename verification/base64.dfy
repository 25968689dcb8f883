/**
 * Base64 as PHP's base64_encode/base64_decode compute it (section 4 of
 * RFC 4648), and the JWT helpers base64UrlEncode/base64UrlDecode built on it:
 * the URL-safe alphabet of section 5 of RFC 4648 with the padding removed,
 * as JWS compact serialisation uses it (section 7.1 of RFC 7515).
 */
module Base64 {
  import opened Wrappers

  type Byte = b: int | 0 <= b < 256
  type Sextet = v: int | 0 <= v < 64

  // ---------------------------------------------------------------- alphabets

  /** The standard alphabet: A-Z, a-z, 0-9, '+', '/'. */
  function StdChar(v: Sextet): char {
    if v < 26 then ('A' as int + v) as char
    else if v < 52 then ('a' as int + (v - 26)) as char
    else if v < 62 then ('0' as int + (v - 52)) as char
    else if v == 62 then '+'
    else '/'
  }

  /** The URL-safe alphabet: as the standard one but '-' and '_' for 62 and 63. */
  function UrlChar(v: Sextet): (c: char)
    ensures c != '+' && c != '/' && c != '=' && c != '.'
  {
    if v == 62 then '-' else if v == 63 then '_' else StdChar(v)
  }

  /** The inverse of StdChar; None for a character outside the standard alphabet. */
  function StdValue(c: char): (r: Option<Sextet>)
    ensures r.Some? ==> StdChar(r.value) == c
  {
    if 'A' <= c <= 'Z' then Some(c as int - 'A' as int)
    else if 'a' <= c <= 'z' then Some(c as int - 'a' as int + 26)
    else if '0' <= c <= '9' then Some(c as int - '0' as int + 52)
    else if c == '+' then Some(62)
    else if c == '/' then Some(63)
    else None
  }

  lemma StdValueOfChar(v: Sextet)
    ensures StdValue(StdChar(v)) == Some(v)
  {
  }

  // ---------------------------------------------------------------- sextets

  /** The 6-bit groups of `b`, without padding: 4 per 3 bytes, then 2 or 3 for a tail of 1 or 2 bytes. */
  function Sextets(b: seq<Byte>): (r: seq<Sextet>)
    ensures |r| % 4 != 1
  {
    if |b| == 0 then []
    else if |b| == 1 then [b[0] / 4, (b[0] % 4) * 16]
    else if |b| == 2 then [b[0] / 4, (b[0] % 4) * 16 + b[1] / 16, (b[1] % 16) * 4]
    else [b[0] / 4, (b[0] % 4) * 16 + b[1] / 16, (b[1] % 16) * 4 + b[2] / 64, b[2] % 64] + Sextets(b[3..])
  }

  /** Bytes back from 6-bit groups; a lone trailing group carries no whole byte. */
  function FromSextets(v: seq<Sextet>): (r: seq<Byte>)
    ensures |r| == 3 * |v| / 4
  {
    if |v| < 2 then []
    else if |v| == 2 then [First(v[0], v[1])]
    else if |v| == 3 then [First(v[0], v[1]), Second(v[1], v[2])]
    else [First(v[0], v[1]), Second(v[1], v[2]), Third(v[2], v[3])] + FromSextets(v[4..])
  }

  function First(a: Sextet, b: Sextet): Byte {
    (a as int) * 4 + (b as int) / 16
  }

  function Second(b: Sextet, c: Sextet): Byte {
    ((b as int) % 16) * 16 + (c as int) / 4
  }

  function Third(c: Sextet, d: Sextet): Byte {
    ((c as int) % 4) * 64 + d as int
  }

  lemma Split16(hi: int, lo: int)
    requires 0 <= lo < 16
    ensures (hi * 16 + lo) / 16 == hi && (hi * 16 + lo) % 16 == lo
  {
  }

  lemma Split4(hi: int, lo: int)
    requires 0 <= lo < 4
    ensures (hi * 4 + lo) / 4 == hi && (hi * 4 + lo) % 4 == lo
  {
  }

  /** Each byte comes back out of the two sextets it was spread over. */
  lemma GroupInverse(b0: Byte, b1: Byte, b2: Byte)
    ensures First(b0 / 4, (b0 % 4) * 16 + b1 / 16) == b0
    ensures Second((b0 % 4) * 16 + b1 / 16, (b1 % 16) * 4 + b2 / 64) == b1
    ensures Third((b1 % 16) * 4 + b2 / 64, b2 % 64) == b2
  {
    Split16(b0 % 4, b1 / 16);
    Split4(b1 % 16, b2 / 64);
  }

  lemma {:induction false} FromSextetsInverse(b: seq<Byte>)
    ensures FromSextets(Sextets(b)) == b
  {
    if |b| == 1 {
      GroupInverse(b[0], 0, 0);
    } else if |b| == 2 {
      GroupInverse(b[0], b[1], 0);
    } else if |b| >= 3 {
      var s := Sextets(b);
      GroupInverse(b[0], b[1], b[2]);
      assert s[4..] == Sextets(b[3..]);
      FromSextetsInverse(b[3..]);
      assert b == b[..3] + b[3..];
    }
  }

  function MapChars(v: seq<Sextet>, f: Sextet -> char): (r: string)
    ensures |r| == |v| && forall k :: 0 <= k < |v| ==> r[k] == f(v[k])
  {
    if v == [] then [] else [f(v[0])] + MapChars(v[1..], f)
  }

  function Repeat(c: char, n: nat): (r: string)
    ensures |r| == n && forall k :: 0 <= k < n ==> r[k] == c
  {
    if n == 0 then [] else [c] + Repeat(c, n - 1)
  }

  /** base64_encode: the standard alphabet, padded with '=' to a multiple of 4. */
  function Encode(b: seq<Byte>): (r: string)
    ensures |r| % 4 == 0
  {
    var v := Sextets(b);
    var n := (4 - |v| % 4) % 4;
    assert (|v| + n) % 4 == 0 by { PadToFour(|v|); }
    MapChars(v, StdChar) + Repeat('=', n)
  }

  lemma PadToFour(m: nat)
    ensures (m + (4 - m % 4) % 4) % 4 == 0
  {
    var q := m / 4;
    assert m == 4 * q + m % 4;
  }

  // ---------------------------------------------------------------- string helpers

  /** strtr($s, $from, $to) for two single characters. */
  function Strtr2(s: string, from1: char, to1: char, from2: char, to2: char): (r: string)
    ensures |r| == |s|
    ensures forall k :: 0 <= k < |s| ==>
      r[k] == (if s[k] == from1 then to1 else if s[k] == from2 then to2 else s[k])
  {
    if s == [] then [] else
      [if s[0] == from1 then to1 else if s[0] == from2 then to2 else s[0]]
      + Strtr2(s[1..], from1, to1, from2, to2)
  }

  /** rtrim($s, $c): drop every trailing `c`. */
  function RTrimChar(s: string, c: char): (r: string)
    ensures |r| <= |s| && r == s[..|r|]
    ensures r != [] ==> r[|r| - 1] != c
    ensures forall k :: |r| <= k < |s| ==> s[k] == c
  {
    if s != [] && s[|s| - 1] == c then RTrimChar(s[..|s| - 1], c) else s
  }

  /** str_pad($s, $n, $c, STR_PAD_RIGHT): pad on the right up to length `n`. */
  function StrPadRight(s: string, n: int, c: char): (r: string)
    ensures n <= |s| ==> r == s
    ensures n > |s| ==> |r| == n && r[..|s|] == s
  {
    if n <= |s| then s else s + Repeat(c, n - |s|)
  }

  // ---------------------------------------------------------------- JWT helpers

  /**
   * JWT::base64UrlEncode: base64_encode, then '+' to '-' and '/' to '_', then
   * strip trailing '='. The result is the input's sextets spelled in the URL
   * alphabet, without padding.
   */
  function UrlEncode(b: seq<Byte>): (r: string)
    ensures r == MapChars(Sextets(b), UrlChar)
  {
    UrlSpelling(b);
    RTrimChar(Strtr2(Encode(b), '+', '-', '/', '_'), '=')
  }

  lemma UrlSpelling(b: seq<Byte>)
    ensures RTrimChar(Strtr2(Encode(b), '+', '-', '/', '_'), '=') == MapChars(Sextets(b), UrlChar)
  {
    var v := Sextets(b);
    var pad := Repeat('=', (4 - |v| % 4) % 4);
    assert Encode(b) == MapChars(v, StdChar) + pad;
    ToUrlAlphabet(v, pad);
    var u := MapChars(v, UrlChar);
    if v != [] {
      assert u[|u| - 1] == UrlChar(v[|v| - 1]);
    }
    RTrimPadding(u, pad);
  }

  /**
   * The sextets of the characters of `s` that belong to the standard alphabet,
   * in order. base64_decode in its default, non-strict mode skips every other
   * character, '=' included.
   */
  function Values(s: string): (r: seq<Sextet>)
    ensures |r| <= |s|
    ensures (forall k :: 0 <= k < |s| ==> StdValue(s[k]).Some?) ==>
              |r| == |s| && forall k :: 0 <= k < |s| ==> r[k] == StdValue(s[k]).value
  {
    if s == [] then []
    else
      var rest := Values(s[1..]);
      assert (forall k :: 0 <= k < |s| ==> StdValue(s[k]).Some?) ==>
               forall k :: 0 <= k < |s| - 1 ==> StdValue(s[1..][k]).Some? by {
        if forall k :: 0 <= k < |s| ==> StdValue(s[k]).Some? {
          forall k | 0 <= k < |s| - 1 ensures StdValue(s[1..][k]).Some? {
            assert s[1..][k] == s[k + 1];
          }
        }
      }
      match StdValue(s[0])
      case Some(x) => [x] + rest
      case None => rest
  }

  /**
   * base64_decode($s) in its default, non-strict mode: the characters outside
   * the standard alphabet are skipped, and a last group of one character, which
   * carries no whole byte, is dropped. It never fails: three bytes come out of
   * every four alphabet characters.
   */
  function Decode(s: string): (r: seq<Byte>)
    ensures |r| == 3 * |Values(s)| / 4
  {
    FromSextets(Values(s))
  }

  /**
   * JWT::base64UrlDecode: '-' and '_' back to '+' and '/', then str_pad to
   * strlen % 4 characters, then base64_decode. The str_pad call asks for fewer
   * characters than the string has, so it never pads.
   */
  function UrlDecode(s: string): (r: seq<Byte>)
    ensures r == Decode(Strtr2(s, '-', '+', '_', '/'))
  {
    Decode(StrPadRight(Strtr2(s, '-', '+', '_', '/'), |s| % 4, '='))
  }

  // ---------------------------------------------------------------- properties

  lemma ToUrlAlphabet(v: seq<Sextet>, pad: string)
    requires forall k :: 0 <= k < |pad| ==> pad[k] == '='
    ensures Strtr2(MapChars(v, StdChar) + pad, '+', '-', '/', '_') == MapChars(v, UrlChar) + pad
  {
    var src := MapChars(v, StdChar) + pad;
    var t := Strtr2(src, '+', '-', '/', '_');
    var w := MapChars(v, UrlChar) + pad;
    assert |t| == |w|;
    forall k | 0 <= k < |t| ensures t[k] == w[k] {
      if k < |v| {
        assert src[k] == StdChar(v[k]);
        CharToUrl(v[k]);
      } else {
        assert src[k] == pad[k - |v|];
      }
    }
  }

  lemma CharToUrl(v: Sextet)
    ensures (if StdChar(v) == '+' then '-' else if StdChar(v) == '/' then '_' else StdChar(v)) == UrlChar(v)
  {
  }

  lemma FromUrlAlphabet(v: seq<Sextet>)
    ensures Strtr2(MapChars(v, UrlChar), '-', '+', '_', '/') == MapChars(v, StdChar)
  {
  }

  lemma RTrimPadding(u: string, pad: string)
    requires u == [] || u[|u| - 1] != '='
    requires forall k :: 0 <= k < |pad| ==> pad[k] == '='
    ensures RTrimChar(u + pad, '=') == u
    decreases |pad|
  {
    if pad != [] {
      assert (u + pad)[..|u + pad| - 1] == u + pad[..|pad| - 1];
      RTrimPadding(u, pad[..|pad| - 1]);
    } else {
      assert u + pad == u;
    }
  }

  /** base64UrlEncode never emits '+', '/' or '='. */
  lemma UrlEncodeAlphabet(b: seq<Byte>)
    ensures forall k :: 0 <= k < |UrlEncode(b)| ==>
      UrlEncode(b)[k] != '+' && UrlEncode(b)[k] != '/' && UrlEncode(b)[k] != '='
  {
  }

  lemma {:induction false} ValuesOfStdChars(v: seq<Sextet>)
    ensures Values(MapChars(v, StdChar)) == v
  {
    if v != [] {
      var s := MapChars(v, StdChar);
      StdValueOfChar(v[0]);
      assert s[0] == StdChar(v[0]);
      assert s[1..] == MapChars(v[1..], StdChar);
      ValuesOfStdChars(v[1..]);
      assert [v[0]] + v[1..] == v;
    }
  }

  /** Decoding what base64UrlEncode produced gives back the original bytes. */
  lemma UrlRoundTrip(b: seq<Byte>)
    ensures UrlDecode(UrlEncode(b)) == b
  {
    var v := Sextets(b);
    FromUrlAlphabet(v);
    DecodeStd(v);
    FromSextetsInverse(b);
  }

  /** base64_decode of standard-alphabet text gives the bytes its sextets spell. */
  lemma DecodeStd(v: seq<Sextet>)
    ensures Decode(MapChars(v, StdChar)) == FromSextets(v)
  {
    ValuesOfStdChars(v);
  }

  lemma {:induction false} ValuesAppend(a: string, b: string)
    ensures Values(a + b) == Values(a) + Values(b)
  {
    if a == [] {
      assert a + b == b;
    } else {
      assert (a + b)[0] == a[0];
      assert (a + b)[1..] == a[1..] + b;
      ValuesAppend(a[1..], b);
      match StdValue(a[0])
      case Some(x) =>
        assert Values(a + b) == [x] + Values(a[1..] + b);
      case None =>
        assert Values(a + b) == Values(a[1..] + b);
    }
  }

  /** A character outside the alphabet, wherever it stands, does not change what base64_decode returns. */
  lemma SkipsForeign(a: string, c: char, b: string)
    requires StdValue(c).None?
    ensures Decode(a + [c] + b) == Decode(a + b)
  {
    assert Values([c]) == [] by { assert [c][1..] == []; }
    ValuesAppend(a, [c]);
    assert Values(a + [c]) == Values(a);
    ValuesAppend(a + [c], b);
    ValuesAppend(a, b);
  }

  /** The same for base64UrlDecode: a trailing character outside both alphabets is skipped. */
  lemma UrlSkipsForeign(s: string, c: char)
    requires StdValue(c).None? && c != '-' && c != '_'
    ensures UrlDecode(s + [c]) == UrlDecode(s)
  {
    var t := Strtr2(s, '-', '+', '_', '/');
    assert Strtr2(s + [c], '-', '+', '_', '/') == t + [c] + "";
    assert t + "" == t;
    SkipsForeign(t, c, "");
  }

  lemma {:induction false} FromSextetsSnoc(v: seq<Sextet>, x: Sextet)
    requires |v| % 4 == 0
    ensures FromSextets(v + [x]) == FromSextets(v)
  {
    if v != [] {
      var w := v + [x];
      assert |v| >= 4 && |w| > 4;
      assert w[0] == v[0] && w[1] == v[1] && w[2] == v[2] && w[3] == v[3];
      assert w[4..] == v[4..] + [x];
      assert |v[4..]| % 4 == 0;
      FromSextetsSnoc(v[4..], x);
    }
  }

  /** A last group of a single alphabet character is dropped: it carries no whole byte. */
  lemma LoneTrailingIgnored(s: string, c: char)
    requires |Values(s)| % 4 == 0
    ensures Decode(s + [c]) == Decode(s)
  {
    ValuesAppend(s, [c]);
    assert [c][1..] == [];
    match StdValue(c)
    case None =>
      assert Values(s + [c]) == Values(s);
    case Some(x) =>
      assert Values(s + [c]) == Values(s) + [x];
      FromSextetsSnoc(Values(s), x);
  }

  /** "QUI!" decodes to "AB": the '!' is skipped. */
  lemma ForeignCharacterExample()
    ensures UrlDecode("QUI!") == [65, 66]
  {
    QuiSpelling();
    SkipsForeign("QUI", '!', "");
    assert "QUI" + ['!'] + "" == "QUI!";
    assert "QUI" + "" == "QUI";
    assert FromSextets([16, 20, 8]) == [65, 66];
  }

  lemma QuiSpelling()
    ensures Strtr2("QUI!", '-', '+', '_', '/') == "QUI!"
    ensures Values("QUI") == [16, 20, 8]
  {
    var t := Strtr2("QUI!", '-', '+', '_', '/');
    assert |t| == 4 && t[0] == 'Q' && t[1] == 'U' && t[2] == 'I' && t[3] == '!';
    assert StdValue('Q') == Some(16) && StdValue('U') == Some(20) && StdValue('I') == Some(8);
    assert Values("I") == [8] by { assert "I"[1..] == []; }
    assert Values("UI") == [20, 8] by { assert "UI"[1..] == "I"; }
    assert "QUI"[1..] == "UI";
  }
}
