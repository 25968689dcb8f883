/** The Validator class: required fields, username and password rules, sanitising. */
module Validator {
  import opened Php
  import Seqs

  /** A field is missing when it is unset or empty(); unset already reads as null, which is empty. */
  predicate IsMissing(data: Value, field: string) {
    !Isset(data, field) || Empty(Get(data, field))
  }

  /** The listed fields that are missing from `data`, in the listed order. */
  function MissingFields(fields: seq<string>, data: Value): (missing: seq<string>)
    ensures forall f :: f in missing <==> f in fields && Empty(Get(data, f))
  {
    Seqs.Filter(fields, f => IsMissing(data, f))
  }

  lemma MissingFieldsSnoc(fields: seq<string>, field: string, data: Value)
    ensures MissingFields(fields + [field], data)
         == MissingFields(fields, data) + (if IsMissing(data, field) then [field] else [])
  {
    Seqs.FilterAppend(fields, [field], f => IsMissing(data, f));
  }

  /** A single required field is reported exactly when it is missing. */
  lemma MissingOne(field: string, data: Value)
    ensures MissingFields([field], data) == if IsMissing(data, field) then [field] else []
  {
    MissingFieldsSnoc([], field, data);
    assert [] + [field] == [field];
  }

  /** Nothing is reported exactly when every listed field is present and non-empty. */
  lemma NoneMissing(fields: seq<string>, data: Value)
    ensures MissingFields(fields, data) == [] <==> forall f :: f in fields ==> !Empty(Get(data, f))
  {
    var missing := MissingFields(fields, data);
    if missing != [] {
      assert missing[0] in missing;
    }
  }

  /** Two required fields: nothing is reported exactly when both are present and non-empty. */
  lemma NoneMissingOfTwo(a: string, b: string, data: Value)
    ensures MissingFields([a, b], data) == [] <==> !Empty(Get(data, a)) && !Empty(Get(data, b))
  {
    NoneMissing([a, b], data);
    assert a in [a, b] && b in [a, b];
    assert forall f :: f in [a, b] ==> f == a || f == b;
  }

  /** Which of two required fields are missing, in the order they are listed. */
  lemma MissingOfTwo(a: string, b: string, data: Value)
    ensures MissingFields([a, b], data)
         == (if Empty(Get(data, a)) then [a] else []) + (if Empty(Get(data, b)) then [b] else [])
  {
    MissingOne(a, data);
    MissingFieldsSnoc([a], b, data);
    assert [a] + [b] == [a, b];
    assert IsMissing(data, a) == Empty(Get(data, a));
    assert IsMissing(data, b) == Empty(Get(data, b));
  }

  /** The error text for a non-empty list of missing fields. */
  function MissingMessage(missing: seq<string>): (msg: string)
    ensures |missing| == 1 ==> msg == "Missing required fields: " + missing[0]
    ensures |missing| == 2 ==> msg == "Missing required fields: " + missing[0] + ", " + missing[1]
  {
    "Missing required fields: " + Join(missing, ", ")
  }

  /** The error text when some of two required fields are missing. */
  lemma MissingTextOfTwo(a: string, b: string, data: Value)
    ensures Empty(Get(data, a)) && !Empty(Get(data, b)) ==>
              MissingMessage(MissingFields([a, b], data)) == "Missing required fields: " + a
    ensures !Empty(Get(data, a)) && Empty(Get(data, b)) ==>
              MissingMessage(MissingFields([a, b], data)) == "Missing required fields: " + b
    ensures Empty(Get(data, a)) && Empty(Get(data, b)) ==>
              MissingMessage(MissingFields([a, b], data)) == "Missing required fields: " + a + ", " + b
  {
    MissingOfTwo(a, b, data);
  }

  /** validateRequired: one pass over the field list, appending each missing field. */
  method ValidateRequired(fields: seq<string>, data: Value) returns (missing: seq<string>)
    ensures missing == MissingFields(fields, data)
    ensures missing == [] <==> forall f :: f in fields ==> !Empty(Get(data, f))
  {
    missing := [];
    var i := 0;
    while i < |fields|
      invariant 0 <= i <= |fields|
      invariant missing == MissingFields(fields[..i], data)
    {
      var field := fields[i];
      MissingFieldsSnoc(fields[..i], field, data);
      assert fields[..i + 1] == fields[..i] + [field];
      if !Isset(data, field) || Empty(Get(data, field)) {
        missing := missing + [field];
      }
      i := i + 1;
    }
    assert fields[..i] == fields;
    if missing != [] {
      assert missing[0] in missing;
    }
  }

  // ---------------------------------------------------------------- validateUsername

  predicate IsWordChar(c: char) {
    'a' <= c <= 'z' || 'A' <= c <= 'Z' || '0' <= c <= '9' || c == '_'
  }

  /** `[a-zA-Z0-9_]{3,30}` matching the whole of `s`. */
  predicate WordRun(s: string) {
    3 <= |s| <= 30 && forall k :: 0 <= k < |s| ==> IsWordChar(s[k])
  }

  /**
   * preg_match('/^[a-zA-Z0-9_]{3,30}$/', $username). Without the D modifier a
   * PCRE `$` also matches just before a final newline, so a single trailing
   * "\n" is accepted too.
   */
  predicate ValidateUsername(s: string)
    ensures ValidateUsername(s) ==> 3 <= |s| <= 31
    ensures ValidateUsername(s) ==> forall k :: 0 <= k < |s| ==> IsWordChar(s[k]) || (k == |s| - 1 && s[k] == '\n')
    ensures WordRun(s) ==> ValidateUsername(s)
  {
    WordRun(s) || (|s| >= 1 && s[|s| - 1] == '\n' && WordRun(s[..|s| - 1]))
  }

  /** A username without a trailing newline is valid exactly when it is 3 to 30 word characters. */
  lemma UsernameRule(s: string)
    requires s == [] || s[|s| - 1] != '\n'
    ensures ValidateUsername(s) <==> 3 <= |s| <= 30 && forall k :: 0 <= k < |s| ==> IsWordChar(s[k])
  {
  }

  /** The one string outside the character rule that the pattern accepts: a trailing newline. */
  lemma UsernameTrailingNewline(s: string)
    requires WordRun(s)
    ensures ValidateUsername(s + "\n") && !WordRun(s + "\n")
  {
    assert (s + "\n")[..|s|] == s;
    assert (s + "\n")[|s|] == '\n';
  }

  /** A trimmed username is valid exactly when it is 3 to 30 word characters. */
  lemma TrimmedUsernameRule(s: string)
    ensures ValidateUsername(Trim(s)) <==> WordRun(Trim(s))
  {
  }

  // ---------------------------------------------------------------- validatePassword

  /** strlen($password) >= 6, counting UTF-8 bytes. */
  predicate ValidatePassword(p: string)
    ensures |p| >= 6 ==> ValidatePassword(p)
    ensures ValidatePassword(p) ==> |p| >= 2
  {
    StrLen(p) >= 6
  }

  /** Six characters always pass, fewer than two never do, and ASCII passwords pass exactly at six. */
  lemma PasswordBounds(p: string)
    ensures |p| >= 6 ==> ValidatePassword(p)
    ensures |p| < 2 ==> !ValidatePassword(p)
    ensures (forall k :: 0 <= k < |p| ==> p[k] as int < 0x80) ==> (ValidatePassword(p) <==> |p| >= 6)
  {
  }

  /** Two three-byte characters already reach six bytes. */
  lemma ShortMultibytePassword()
    ensures ValidatePassword("日本")
  {
    assert StrLen("本") == 3;
  }

  // ---------------------------------------------------------------- sanitizeString

  /**
   * htmlspecialchars(trim($s), ENT_QUOTES, 'UTF-8'); the escaping itself is
   * `escape`, left uninterpreted.
   */
  function SanitizeString(s: string, escape: string -> string): (r: string)
    ensures r == escape(Trim(Trim(s)))
    ensures Trim(s) == s ==> r == escape(s)
  {
    TrimIdempotent(s);
    escape(Trim(s))
  }
}
