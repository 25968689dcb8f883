/**
 * The JWT class (HS256 tokens in JWS compact serialisation, section 7.1 of
 * RFC 7515) and Auth::generateTokens. HMAC-SHA256 and JSON are not modelled:
 * they are the parameters `sign`, `toJson` and `fromJson`.
 */
module Jwt {
  import opened Php
  import opened Wrappers
  import Base64
  import Config

  type Bytes = seq<Base64.Byte>

  // ---------------------------------------------------------------- explode

  /**
   * explode($sep, $s): the pieces between separators; always at least one.
   * No piece holds the separator, and joining the pieces with it gives `s` back.
   */
  function Explode(s: string, sep: char): (r: seq<string>)
    ensures |r| >= 1
    ensures forall k :: 0 <= k < |r| ==> sep !in r[k]
    ensures Join(r, [sep]) == s
  {
    if s == [] then [""]
    else
      var rest := Explode(s[1..], sep);
      if s[0] == sep then
        assert Join([""] + rest, [sep]) == "" + [sep] + Join(rest, [sep]);
        assert [s[0]] + s[1..] == s;
        [""] + rest
      else
        var r := [[s[0]] + rest[0]] + rest[1..];
        assert Join(r, [sep]) == s by {
          if |rest| == 1 {
            assert [s[0]] + s[1..] == s;
          } else {
            assert r[1..] == rest[1..];
            assert Join(rest, [sep]) == rest[0] + [sep] + Join(rest[1..], [sep]);
            assert [s[0]] + s[1..] == s;
          }
        }
        assert forall k :: 1 <= k < |r| ==> r[k] == rest[k];
        r
  }

  lemma {:induction false} ExplodeNoSep(a: string, sep: char)
    requires sep !in a
    ensures Explode(a, sep) == [a]
  {
    if a != [] {
      ExplodeNoSep(a[1..], sep);
      assert [a[0]] + a[1..] == a;
    }
  }

  lemma {:induction false} ExplodePrefix(a: string, sep: char, rest: string)
    requires sep !in a
    ensures Explode(a + [sep] + rest, sep) == [a] + Explode(rest, sep)
  {
    var s := a + [sep] + rest;
    if a == [] {
      assert s == [sep] + rest;
      assert s[1..] == rest;
    } else {
      assert s[0] == a[0];
      assert s[1..] == a[1..] + [sep] + rest;
      ExplodePrefix(a[1..], sep, rest);
      assert [a[0]] + a[1..] == a;
    }
  }

  /** Three separator-free pieces joined by the separator split back into exactly those pieces. */
  lemma ExplodeThree(a: string, b: string, c: string, sep: char)
    requires sep !in a && sep !in b && sep !in c
    ensures Explode(a + [sep] + b + [sep] + c, sep) == [a, b, c]
  {
    ExplodeNoSep(c, sep);
    ExplodePrefix(b, sep, c);
    assert a + [sep] + b + [sep] + c == a + [sep] + (b + [sep] + c);
    ExplodePrefix(a, sep, b + [sep] + c);
  }

  lemma NoDotInUrlEncoding(b: Bytes)
    ensures '.' !in Base64.UrlEncode(b)
  {
  }

  // ---------------------------------------------------------------- encode / decode

  /** The JWT header {"typ":"JWT","alg":"HS256"}. */
  const Header: Value := VMap(map["typ" := VStr("JWT"), "alg" := VStr("HS256")])

  /**
   * JWT::encode: base64url(header) "." base64url(payload) "." base64url(signature),
   * the signature taken over the first two parts joined by ".".
   */
  function Encode(payload: Value, toJson: Value -> Bytes, sign: string -> Bytes): (jwt: string)
    ensures |Explode(jwt, '.')| == 3
  {
    var h := Base64.UrlEncode(toJson(Header));
    var p := Base64.UrlEncode(toJson(payload));
    var s := Base64.UrlEncode(sign(h + "." + p));
    NoDotInUrlEncoding(toJson(Header));
    NoDotInUrlEncoding(toJson(payload));
    NoDotInUrlEncoding(sign(h + "." + p));
    ExplodeThree(h, p, s, '.');
    h + "." + p + "." + s
  }

  /** `isset($payload['exp']) && $payload['exp'] < time()`: a payload without `exp` never expires. */
  predicate Expired(payload: Value, now: int)
    ensures !Isset(payload, "exp") ==> !Expired(payload, now)
  {
    Isset(payload, "exp") && ToInt(Get(payload, "exp")) < now
  }

  /** Once expired, a payload stays expired at every later time. */
  lemma ExpiredStaysExpired(payload: Value, now: int, later: int)
    requires Expired(payload, now) && now <= later
    ensures Expired(payload, later)
  {
  }

  /**
   * JWT::decode: None (PHP's false) unless the token has exactly three parts,
   * a non-empty header and payload, a matching signature, and no `exp` in the past.
   */
  function Decode(jwt: string, fromJson: Bytes -> Value, sign: string -> Bytes, now: int): (r: Option<Value>)
    ensures |Explode(jwt, '.')| != 3 ==> r.None?
    ensures r.Some? ==> !Empty(r.value) && !Expired(r.value, now)
  {
    var parts := Explode(jwt, '.');
    if |parts| != 3 then None
    else
      var header := fromJson(Base64.UrlDecode(parts[0]));
      var payload := fromJson(Base64.UrlDecode(parts[1]));
      if Empty(header) || Empty(payload) then None
      else if Base64.UrlDecode(parts[2]) != sign(parts[0] + "." + parts[1]) then None
      else if Expired(payload, now) then None
      else Some(payload)
  }

  /**
   * A token JWT::encode produced is accepted back with its payload exactly when it
   * has not expired, provided the JSON codec reads back what it wrote. In particular
   * a token whose `exp` equals the current time is still accepted.
   */
  lemma EncodeDecode(payload: Value, toJson: Value -> Bytes, fromJson: Bytes -> Value,
                     sign: string -> Bytes, now: int)
    requires fromJson(toJson(Header)) == Header
    requires fromJson(toJson(payload)) == payload && !Empty(payload)
    ensures Decode(Encode(payload, toJson, sign), fromJson, sign, now)
         == if Expired(payload, now) then None else Some(payload)
  {
    var h := Base64.UrlEncode(toJson(Header));
    var p := Base64.UrlEncode(toJson(payload));
    var s := Base64.UrlEncode(sign(h + "." + p));
    NoDotInUrlEncoding(toJson(Header));
    NoDotInUrlEncoding(toJson(payload));
    NoDotInUrlEncoding(sign(h + "." + p));
    ExplodeThree(h, p, s, '.');
    Base64.UrlRoundTrip(toJson(Header));
    Base64.UrlRoundTrip(toJson(payload));
    Base64.UrlRoundTrip(sign(h + "." + p));
    DecodeWellFormed(h + "." + p + "." + s, h, p, s, payload, fromJson, sign, now);
  }

  lemma DecodeWellFormed(jwt: string, h: string, p: string, s: string, payload: Value,
                         fromJson: Bytes -> Value, sign: string -> Bytes, now: int)
    requires Explode(jwt, '.') == [h, p, s]
    requires fromJson(Base64.UrlDecode(h)) == Header
    requires fromJson(Base64.UrlDecode(p)) == payload && !Empty(payload)
    requires Base64.UrlDecode(s) == sign(h + "." + p)
    ensures Decode(jwt, fromJson, sign, now) == if Expired(payload, now) then None else Some(payload)
  {
    var parts := Explode(jwt, '.');
    assert parts[0] == h && parts[1] == p && parts[2] == s;
    assert Header.VMap? && "typ" in Header.fields;
    assert !Empty(Header);
  }

  /**
   * base64_decode skips characters outside its alphabet, so appending such a
   * character to any token (it lands in the signature part) changes nothing:
   * the token is accepted, with the same payload, exactly when it was before.
   */
  lemma ForeignCharacterInSignature(jwt: string, fromJson: Bytes -> Value, sign: string -> Bytes, now: int)
    ensures Decode(jwt + "!", fromJson, sign, now) == Decode(jwt, fromJson, sign, now)
  {
    var parts := Explode(jwt, '.');
    ExplodeSnoc(jwt, '!', '.');
    var longer := Explode(jwt + "!", '.');
    if |parts| == 3 {
      assert longer == [parts[0], parts[1], parts[2] + "!"];
      Base64.UrlSkipsForeign(parts[2], '!');
    }
  }

  /** Appending a non-separator character extends the last piece. */
  lemma {:induction false} ExplodeSnoc(s: string, c: char, sep: char)
    requires c != sep
    ensures var r := Explode(s, sep);
            Explode(s + [c], sep) == r[..|r| - 1] + [r[|r| - 1] + [c]]
  {
    if s == [] {
      assert [] + [c] == [c];
      assert [c][1..] == [];
    } else {
      assert (s + [c])[0] == s[0];
      assert (s + [c])[1..] == s[1..] + [c];
      ExplodeSnoc(s[1..], c, sep);
    }
  }

  // ---------------------------------------------------------------- Auth::generateTokens

  datatype Tokens = Tokens(accessToken: string, refreshToken: string, expiresAt: int)

  /** The access-token claims: user_id, iat and exp = iat + JWT_EXPIRY. */
  function AccessClaims(userId: int, issuedAt: int): Value {
    VMap(map["user_id" := VInt(userId), "iat" := VInt(issuedAt),
             "exp" := VInt(issuedAt + Config.JWT_EXPIRY)])
  }

  /** The refresh-token claims: as the access claims plus type = refresh, with exp = iat + REFRESH_TOKEN_EXPIRY. */
  function RefreshClaims(userId: int, issuedAt: int): Value {
    VMap(map["user_id" := VInt(userId), "type" := VStr("refresh"), "iat" := VInt(issuedAt),
             "exp" := VInt(issuedAt + Config.REFRESH_TOKEN_EXPIRY)])
  }

  /** Auth::generateTokens at time `issuedAt`; expires_at is the access token's expiry. */
  function GenerateTokens(userId: int, issuedAt: int, toJson: Value -> Bytes, sign: string -> Bytes): (t: Tokens)
    ensures t.expiresAt == issuedAt + Config.JWT_EXPIRY
  {
    Tokens(Encode(AccessClaims(userId, issuedAt), toJson, sign),
           Encode(RefreshClaims(userId, issuedAt), toJson, sign),
           issuedAt + Config.JWT_EXPIRY)
  }

  /** Only the refresh token carries type = refresh; both carry the user id and the issue time. */
  lemma OnlyRefreshHasType(userId: int, issuedAt: int)
    ensures !Isset(AccessClaims(userId, issuedAt), "type")
    ensures Get(RefreshClaims(userId, issuedAt), "type") == VStr("refresh")
    ensures Get(AccessClaims(userId, issuedAt), "user_id") == Get(RefreshClaims(userId, issuedAt), "user_id") == VInt(userId)
    ensures Get(AccessClaims(userId, issuedAt), "iat") == Get(RefreshClaims(userId, issuedAt), "iat") == VInt(issuedAt)
  {
    assert "type" !in AccessClaims(userId, issuedAt).fields;
  }

  /**
   * A freshly issued access token is accepted at time `now` exactly when
   * now <= iat + JWT_EXPIRY, and the refresh token exactly when
   * now <= iat + REFRESH_TOKEN_EXPIRY.
   */
  lemma TokenLifetimes(userId: int, issuedAt: int, now: int, toJson: Value -> Bytes,
                       fromJson: Bytes -> Value, sign: string -> Bytes)
    requires fromJson(toJson(Header)) == Header
    requires fromJson(toJson(AccessClaims(userId, issuedAt))) == AccessClaims(userId, issuedAt)
    requires fromJson(toJson(RefreshClaims(userId, issuedAt))) == RefreshClaims(userId, issuedAt)
    ensures Decode(GenerateTokens(userId, issuedAt, toJson, sign).accessToken, fromJson, sign, now).Some?
        <==> now <= issuedAt + Config.JWT_EXPIRY
    ensures Decode(GenerateTokens(userId, issuedAt, toJson, sign).refreshToken, fromJson, sign, now).Some?
        <==> now <= issuedAt + Config.REFRESH_TOKEN_EXPIRY
  {
    var a := AccessClaims(userId, issuedAt);
    var r := RefreshClaims(userId, issuedAt);
    assert Get(a, "exp") == VInt(issuedAt + Config.JWT_EXPIRY);
    assert Get(r, "exp") == VInt(issuedAt + Config.REFRESH_TOKEN_EXPIRY);
    Lifetime(a, issuedAt + Config.JWT_EXPIRY, toJson, fromJson, sign, now);
    Lifetime(r, issuedAt + Config.REFRESH_TOKEN_EXPIRY, toJson, fromJson, sign, now);
  }

  /** A token whose payload carries `exp` decodes exactly until `exp`. */
  lemma Lifetime(payload: Value, exp: int, toJson: Value -> Bytes, fromJson: Bytes -> Value, sign: string -> Bytes,
                 now: int)
    requires fromJson(toJson(Header)) == Header
    requires fromJson(toJson(payload)) == payload && Get(payload, "exp") == VInt(exp)
    ensures Decode(Encode(payload, toJson, sign), fromJson, sign, now).Some? <==> now <= exp
  {
    assert !Empty(payload);
    EncodeDecode(payload, toJson, fromJson, sign, now);
  }
}
