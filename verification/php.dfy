/**
 * The slice of PHP's runtime semantics the endpoints depend on: decoded JSON
 * values, isset/empty, the (int), (string) and (bool) casts, trim, ucfirst and
 * strlen (which counts UTF-8 bytes, not characters).
 */
module Php {

  /** A value as json_decode($body, true) or $_GET produces it. */
  datatype Value =
    | VNull
    | VBool(b: bool)
    | VInt(i: int)
    | VStr(s: string)
    | VList(items: seq<Value>)
    | VMap(fields: map<string, Value>)

  /** `$v[$key]`, with null for a missing key or a non-array. */
  function Get(v: Value, key: string): Value {
    if v.VMap? && key in v.fields then v.fields[key] else VNull
  }

  /** `isset($v[$key])`: present and not null. */
  predicate Isset(v: Value, key: string)
    ensures Isset(v, key) <==> v.VMap? && key in v.fields && v.fields[key] != VNull
  {
    Get(v, key) != VNull
  }

  /** `$v[$key] ?? $default`. */
  function Coalesce(v: Value, key: string, default: Value): Value {
    if Isset(v, key) then Get(v, key) else default
  }

  /** PHP's empty() of a string: "" and "0" are both empty. */
  predicate EmptyString(s: string) {
    s == "" || s == "0"
  }

  /** PHP's empty(): null, false, 0, "", "0" and the empty array. */
  predicate Empty(v: Value)
    ensures Empty(v) ==> ToInt(v) == 0
    ensures !v.VStr? ==> (Empty(v) <==> ToInt(v) == 0)
  {
    match v
    case VNull => true
    case VBool(b) => !b
    case VInt(i) => i == 0
    case VStr(s) => EmptyString(s)
    case VList(xs) => xs == []
    case VMap(m) => m == map[]
  }

  /** `(bool)$v`, which is exactly the negation of empty(). */
  predicate ToBool(v: Value)
    ensures ToBool(v) ==> v != VNull
    ensures v.VStr? ==> (ToBool(v) <==> v.s != "" && v.s != "0")
    ensures !ToBool(v) ==> ToInt(v) == 0
  {
    !Empty(v)
  }

  /** is_array(): a JSON list or object. */
  predicate IsArray(v: Value) {
    v.VList? || v.VMap?
  }

  /** `in_array($v, $list)` for a list of non-numeric strings. */
  predicate InList(v: Value, list: seq<string>) {
    v.VStr? && v.s in list
  }

  // ---------------------------------------------------------------- trim

  /** The characters trim() strips by default: " \t\n\r\0\x0B". */
  predicate IsTrimChar(c: char) {
    c == ' ' || c == '\t' || c == '\n' || c == '\r' || c == '\0' || c == '\U{000B}'
  }

  function TrimLeft(s: string): (r: string)
    ensures |r| <= |s|
    ensures r == s[|s| - |r|..]
    ensures r != [] ==> !IsTrimChar(r[0])
    ensures forall k :: 0 <= k < |s| - |r| ==> IsTrimChar(s[k])
  {
    if s != [] && IsTrimChar(s[0]) then TrimLeft(s[1..]) else s
  }

  function TrimRight(s: string): (r: string)
    ensures |r| <= |s|
    ensures r == s[..|r|]
    ensures r != [] ==> !IsTrimChar(r[|r| - 1])
    ensures forall k :: |r| <= k < |s| ==> IsTrimChar(s[k])
  {
    if s != [] && IsTrimChar(s[|s| - 1]) then TrimRight(s[..|s| - 1]) else s
  }

  /** trim(): strip trim characters from both ends. */
  function Trim(s: string): (r: string)
    ensures |r| <= |s|
    ensures r != [] ==> !IsTrimChar(r[0]) && !IsTrimChar(r[|r| - 1])
    ensures r == [] <==> forall k :: 0 <= k < |s| ==> IsTrimChar(s[k])
  {
    var l := TrimLeft(s);
    var r := TrimRight(l);
    assert r != [] ==> r[0] == l[0];
    assert r == [] ==> l == [];
    r
  }

  /** Trimming an already trimmed string changes nothing. */
  lemma {:induction false} TrimIdempotent(s: string)
    ensures Trim(Trim(s)) == Trim(s)
  {
    var t := Trim(s);
    if t != [] {
      assert TrimLeft(t) == t;
      assert TrimRight(t) == t;
    }
  }

  // ---------------------------------------------------------------- strlen, ucfirst

  /** Bytes of the UTF-8 encoding of one character. */
  function Utf8Width(c: char): (w: nat)
    ensures 1 <= w <= 4
  {
    if c as int < 0x80 then 1
    else if c as int < 0x800 then 2
    else if c as int < 0x10000 then 3
    else 4
  }

  /** strlen(): the number of UTF-8 bytes. */
  function StrLen(s: string): (n: nat)
    ensures |s| <= n <= 4 * |s|
    ensures (forall k :: 0 <= k < |s| ==> s[k] as int < 0x80) ==> n == |s|
  {
    if s == [] then 0 else Utf8Width(s[0]) + StrLen(s[1..])
  }

  /** ucfirst(): upper-case the first character when it is an ASCII letter a-z. */
  function Ucfirst(s: string): (r: string)
    ensures |r| == |s|
    ensures s != [] ==> r[1..] == s[1..]
    ensures s != [] && 'a' <= s[0] <= 'z' ==> r[0] as int == s[0] as int - 32
    ensures s != [] && !('a' <= s[0] <= 'z') ==> r == s
  {
    if s != [] && 'a' <= s[0] <= 'z' then [(s[0] as int - 32) as char] + s[1..] else s
  }

  // ---------------------------------------------------------------- casts

  function DigitChar(d: nat): (c: char)
    requires d < 10
    ensures '0' <= c <= '9'
  {
    ('0' as int + d) as char
  }

  /** Decimal spelling of a natural number. */
  function NatToString(n: nat): (r: string)
    ensures r != [] && forall k :: 0 <= k < |r| ==> '0' <= r[k] <= '9'
    decreases n
  {
    if n < 10 then [DigitChar(n)] else NatToString(n / 10) + [DigitChar(n % 10)]
  }

  /** `(string)$i` for an integer. */
  function IntToString(i: int): string {
    if i < 0 then "-" + NatToString(-i) else NatToString(i)
  }

  predicate IsSpace(c: char) {
    c == ' ' || c == '\t' || c == '\n' || c == '\r' || c == '\U{000B}' || c == '\U{000C}'
  }

  function SkipSpace(s: string): string {
    if s != [] && IsSpace(s[0]) then SkipSpace(s[1..]) else s
  }

  /** The longest prefix of decimal digits. */
  function DigitPrefix(s: string): (r: string)
    ensures |r| <= |s| && r == s[..|r|]
    ensures forall k :: 0 <= k < |r| ==> '0' <= r[k] <= '9'
  {
    if s != [] && '0' <= s[0] <= '9' then [s[0]] + DigitPrefix(s[1..]) else []
  }

  predicate AllDigits(s: string) {
    forall k :: 0 <= k < |s| ==> '0' <= s[k] <= '9'
  }

  /** A string of digits, optionally after a minus sign, is read whole. */
  lemma DigitsRead(s: string)
    ensures AllDigits(s) ==> LeadingInt(s) == DigitsValue(s)
    ensures s != [] && s[0] == '-' && AllDigits(s[1..]) ==> LeadingInt(s) == 0 - DigitsValue(s[1..])
  {
    if AllDigits(s) {
      DigitPrefixOfDigits(s);
      assert s == [] || !IsSpace(s[0]);
      assert SkipSpace(s) == s;
    }
    if s != [] && s[0] == '-' && AllDigits(s[1..]) {
      DigitPrefixOfDigits(s[1..]);
      assert SkipSpace(s) == s;
    }
  }

  /** The value of a string of decimal digits. */
  function DigitsValue(d: string): nat
    requires forall k :: 0 <= k < |d| ==> '0' <= d[k] <= '9'
  {
    if d == [] then 0 else DigitsValue(d[..|d| - 1]) * 10 + (d[|d| - 1] as int - '0' as int)
  }

  /** `(int)$s` for a string: optional leading space, an optional sign, then digits. */
  function LeadingInt(s: string): int {
    var t := SkipSpace(s);
    if t != [] && t[0] == '-' then 0 - DigitsValue(DigitPrefix(t[1..])) as int
    else if t != [] && t[0] == '+' then DigitsValue(DigitPrefix(t[1..]))
    else DigitsValue(DigitPrefix(t))
  }

  /** `(int)$v`. */
  function ToInt(v: Value): (r: int)
    ensures v.VInt? ==> r == v.i
    ensures !v.VInt? && !v.VStr? ==> 0 <= r <= 1
    ensures v.VStr? && AllDigits(v.s) ==> r == DigitsValue(v.s)
    ensures v.VStr? && v.s != [] && v.s[0] == '-' && AllDigits(v.s[1..]) ==> r == 0 - DigitsValue(v.s[1..])
  {
    match v
    case VNull => 0
    case VBool(b) => if b then 1 else 0
    case VInt(i) => i
    case VStr(s) => DigitsRead(s); LeadingInt(s)
    case VList(xs) => if xs == [] then 0 else 1
    case VMap(m) => if m == map[] then 0 else 1
  }

  /** `(string)$v`; an array converts to "Array". */
  function ToStr(v: Value): string {
    match v
    case VNull => ""
    case VBool(b) => if b then "1" else ""
    case VInt(i) => IntToString(i)
    case VStr(s) => s
    case _ => "Array"
  }

  lemma {:induction false} DigitsValueOfNat(n: nat)
    ensures DigitsValue(NatToString(n)) == n
    decreases n
  {
    if n >= 10 {
      var r := NatToString(n);
      assert r[..|r| - 1] == NatToString(n / 10);
      DigitsValueOfNat(n / 10);
    }
  }

  lemma {:induction false} DigitPrefixOfDigits(d: string)
    requires forall k :: 0 <= k < |d| ==> '0' <= d[k] <= '9'
    ensures DigitPrefix(d) == d
  {
    if d != [] {
      DigitPrefixOfDigits(d[1..]);
    }
  }

  lemma NatStringValue(n: nat)
    ensures LeadingInt(NatToString(n)) == n
    ensures LeadingInt("-" + NatToString(n)) == 0 - n
  {
    var d := NatToString(n);
    DigitPrefixOfDigits(d);
    DigitsValueOfNat(n);
    assert !IsSpace(d[0]) && d[0] != '-' && d[0] != '+';
    assert SkipSpace(d) == d;
    var m := "-" + d;
    assert m[1..] == d;
    assert SkipSpace(m) == m;
  }

  /** `(int)(string)$i == $i`: the two casts are inverse on integers. */
  lemma IntStringRoundTrip(i: int)
    ensures ToInt(VStr(IntToString(i))) == i
  {
    if i < 0 {
      NatStringValue(-i);
    } else {
      NatStringValue(i);
    }
  }

  // ---------------------------------------------------------------- request fields

  /** `isset($input[$key]) ? trim($input[$key]) : ''`, the field read as a string. */
  function TrimField(input: Value, key: string): (r: string)
    ensures !Isset(input, key) ==> r == ""
    ensures r != [] ==> !IsTrimChar(r[0]) && !IsTrimChar(r[|r| - 1])
  {
    if Isset(input, key) then Trim(ToStr(Get(input, key))) else ""
  }

  /**
   * `$v = isset($input[$key]) ? $input[$key] : $fallback;` followed by
   * `if (!in_array($v, $allowed)) $v = $fallback;`.
   */
  function OneOf(input: Value, key: string, allowed: seq<string>, fallback: string): (r: string)
    requires fallback in allowed
    ensures r in allowed
    ensures InList(Get(input, key), allowed) ==> r == Get(input, key).s
    ensures !InList(Get(input, key), allowed) ==> r == fallback
  {
    if Isset(input, key) && InList(Get(input, key), allowed) then Get(input, key).s else fallback
  }

  /** implode($sep, $parts). */
  function Join(parts: seq<string>, sep: string): (r: string)
    ensures |parts| == 1 ==> r == parts[0]
    ensures parts == [] ==> r == ""
  {
    if parts == [] then ""
    else if |parts| == 1 then parts[0]
    else parts[0] + sep + Join(parts[1..], sep)
  }

  predicate StartsWith(s: string, prefix: string) {
    |prefix| <= |s| && s[..|prefix|] == prefix
  }

  predicate EndsWith(s: string, suffix: string) {
    |suffix| <= |s| && s[|s| - |suffix|..] == suffix
  }

  // ---------------------------------------------------------------- string order

  /** strcmp($a, $b) <= 0: lexicographic order on code points. */
  predicate StrLe(a: string, b: string) {
    a == [] || (b != [] && (a[0] < b[0] || (a[0] == b[0] && StrLe(a[1..], b[1..]))))
  }

  lemma {:induction false} StrLeTotal(a: string, b: string)
    ensures StrLe(a, b) || StrLe(b, a)
  {
    if a != [] && b != [] && a[0] == b[0] {
      StrLeTotal(a[1..], b[1..]);
    }
  }

  lemma {:induction false} StrLeAntisymmetric(a: string, b: string)
    requires StrLe(a, b) && StrLe(b, a)
    ensures a == b
  {
    if a != [] {
      StrLeAntisymmetric(a[1..], b[1..]);
      assert a == [a[0]] + a[1..] && b == [b[0]] + b[1..];
    }
  }

  lemma {:induction false} StrLeTransitive(a: string, b: string, c: string)
    requires StrLe(a, b) && StrLe(b, c)
    ensures StrLe(a, c)
  {
    if a != [] && b != [] && c != [] && a[0] == b[0] == c[0] {
      StrLeTransitive(a[1..], b[1..], c[1..]);
    }
  }

  lemma {:induction false} StrLeReflexive(a: string)
    ensures StrLe(a, a)
  {
    if a != [] {
      StrLeReflexive(a[1..]);
    }
  }

  /** The least element of a non-empty finite set of strings. */
  lemma {:induction false} LeastKey(keys: set<string>) returns (m: string)
    requires keys != {}
    ensures m in keys && forall j :: j in keys ==> StrLe(m, j)
    decreases |keys|
  {
    var x :| x in keys;
    if keys == {x} {
      StrLeReflexive(x);
      m := x;
    } else {
      var rest := LeastKey(keys - {x});
      StrLeTotal(x, rest);
      if StrLe(x, rest) {
        forall j | j in keys
          ensures StrLe(x, j)
        {
          if j == x {
            StrLeReflexive(x);
          } else {
            StrLeTransitive(x, rest, j);
          }
        }
        m := x;
      } else {
        m := rest;
      }
    }
  }

  lemma LeastKeyExists(keys: set<string>)
    requires keys != {}
    ensures exists k :: k in keys && forall j :: j in keys ==> StrLe(k, j)
  {
    var m := LeastKey(keys);
  }

  /** The keys of an array in ascending order. */
  function KeysInOrder(keys: set<string>): (r: seq<string>)
    ensures |r| == |keys|
    ensures forall k :: k in r <==> k in keys
    decreases |keys|
  {
    if keys == {} then []
    else
      LeastKeyExists(keys);
      assert forall a, b :: StrLe(a, b) && StrLe(b, a) ==> a == b by {
        forall a, b | StrLe(a, b) && StrLe(b, a)
          ensures a == b
        {
          StrLeAntisymmetric(a, b);
        }
      }
      var k :| k in keys && forall j :: j in keys ==> StrLe(k, j);
      [k] + KeysInOrder(keys - {k})
  }

  /** The elements of an array: a list in order, an object's values by ascending key. */
  function Elements(v: Value): (r: seq<Value>)
    ensures v.VList? ==> r == v.items
    ensures v.VMap? ==> |r| == |v.fields| && forall x :: x in r ==> x in v.fields.Values
    ensures !IsArray(v) ==> r == []
  {
    match v
    case VList(items) => items
    case VMap(fields) =>
      var keys := KeysInOrder(fields.Keys);
      seq(|keys|, k requires 0 <= k < |keys| => fields[keys[k]])
    case _ => []
  }
}
