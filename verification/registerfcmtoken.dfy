/**
 * POST api/register_fcm_token.php: a device registers its FCM token for the
 * caller. A known (user, token) pair is reactivated with the new device type;
 * an unknown one is inserted, active.
 */
module RegisterFcmToken {
  import opened Php
  import opened Http
  import opened Schema
  import Db
  import Seqs
  import Notify

  const DEVICE_TYPES: seq<string> := ["android", "ios"]

  datatype Registration = Registration(token: string, deviceType: string)

  /** The trimmed token and the device type, which falls back to android when missing or unknown. */
  function Parse(input: Value): (r: Checked<Registration>)
    ensures (Empty(input) || !Isset(input, "token")) ==> r == Reject(400, "FCM token required")
    ensures (!Empty(input) && Isset(input, "token") && EmptyString(Trim(ToStr(Get(input, "token"))))) ==>
              r == Reject(400, "FCM token cannot be empty")
    ensures r.Pass? <==> !Empty(input) && Isset(input, "token") && !EmptyString(Trim(ToStr(Get(input, "token"))))
    ensures r.Pass? ==> && r.value.token == Trim(ToStr(Get(input, "token")))
                        && !EmptyString(r.value.token)
                        && r.value.deviceType in DEVICE_TYPES
                        && (InList(Get(input, "device_type"), DEVICE_TYPES) ==> r.value.deviceType == Get(input, "device_type").s)
                        && (!InList(Get(input, "device_type"), DEVICE_TYPES) ==> r.value.deviceType == "android")
  {
    if Empty(input) || !Isset(input, "token") then Reject(400, "FCM token required")
    else
      var token := Trim(ToStr(Get(input, "token")));
      if EmptyString(token) then Reject(400, "FCM token cannot be empty")
      else Pass(Registration(token, OneOf(input, "device_type", DEVICE_TYPES, "android")))
  }

  predicate SameKey(t: DeviceToken, userId: int, token: string) {
    t.userId == userId && t.token == token
  }

  predicate Known(tokens: seq<DeviceToken>, userId: int, token: string) {
    exists k :: 0 <= k < |tokens| && SameKey(tokens[k], userId, token)
  }

  function Reactivate(t: DeviceToken, deviceType: string): DeviceToken {
    t.(deviceType := deviceType, isActive := true)
  }

  /** The UPDATE of a known pair, or the INSERT of a new one. */
  function Register(tokens: seq<DeviceToken>, userId: int, token: string, deviceType: string): (r: seq<DeviceToken>)
    ensures DeviceToken(userId, token, deviceType, true) in r
    ensures |r| == |tokens| + (if Known(tokens, userId, token) then 0 else 1)
    ensures forall k :: 0 <= k < |tokens| ==>
              r[k] == if SameKey(tokens[k], userId, token) then Reactivate(tokens[k], deviceType) else tokens[k]
  {
    if Known(tokens, userId, token) then
      Seqs.UpdateWhere(tokens, (t: DeviceToken) => SameKey(t, userId, token), (t: DeviceToken) => Reactivate(t, deviceType))
    else tokens + [DeviceToken(userId, token, deviceType, true)]
  }

  /** Registering keeps one row per (user, token): the upsert never duplicates a key. */
  lemma RegisterUpserts(tokens: seq<DeviceToken>, userId: int, token: string, deviceType: string)
    requires Seqs.UniqueBy(tokens, Db.TokenKey)
    ensures Seqs.UniqueBy(Register(tokens, userId, token, deviceType), Db.TokenKey)
  {
    if Known(tokens, userId, token) {
      Seqs.UniqueUpdate(tokens, (t: DeviceToken) => SameKey(t, userId, token),
                        (t: DeviceToken) => Reactivate(t, deviceType), Db.TokenKey);
    } else {
      Seqs.UniqueAppend(tokens, DeviceToken(userId, token, deviceType, true), Db.TokenKey);
    }
  }

  /** Registering the same token twice leaves the table as registering it once. */
  lemma RegisterIdempotent(tokens: seq<DeviceToken>, userId: int, token: string, deviceType: string)
    requires Seqs.UniqueBy(tokens, Db.TokenKey)
    ensures Register(Register(tokens, userId, token, deviceType), userId, token, deviceType)
         == Register(tokens, userId, token, deviceType)
  {
    var once := Register(tokens, userId, token, deviceType);
    RegisterUpserts(tokens, userId, token, deviceType);
    assert Known(once, userId, token) by {
      var k :| 0 <= k < |once| && once[k] == DeviceToken(userId, token, deviceType, true);
    }
    forall k | 0 <= k < |once| && SameKey(once[k], userId, token)
      ensures Reactivate(once[k], deviceType) == once[k]
    {
      var j :| 0 <= j < |once| && once[j] == DeviceToken(userId, token, deviceType, true);
      assert Db.TokenKey(once[j]) == Db.TokenKey(once[k]);
    }
  }

  /** Once registered, every notification to the user is pushed to this token. */
  lemma RegisteredTokenIsPushed(tokens: seq<DeviceToken>, userId: int, token: string, deviceType: string,
                                title: string, message: string, data: Value)
    requires Seqs.UniqueBy(tokens, Db.TokenKey)
    ensures Push(token, title, message, data)
            in Notify.PushesFor(Register(tokens, userId, token, deviceType), userId, title, message, data)
  {
    RegisterUpserts(tokens, userId, token, deviceType);
    Notify.PushesForTokens(Register(tokens, userId, token, deviceType), userId, title, message, data);
    assert Notify.ActiveTokenOf(DeviceToken(userId, token, deviceType, true), userId);
  }

  /** The endpoint. */
  method Store(db: Db.Database, userId: int, input: Value) returns (resp: Response<()>)
    requires db.Valid()
    modifies db`tokens
    ensures db.Valid()
    ensures resp.Success? <==> !Empty(input) && Isset(input, "token") && !EmptyString(Trim(ToStr(Get(input, "token"))))
    ensures Parse(input).Reject? ==>
              resp == Failure(Parse(input).code, Parse(input).error) && db.tokens == old(db.tokens)
    ensures Parse(input).Pass? ==>
              var r := Parse(input).value;
              && db.tokens == Register(old(db.tokens), userId, r.token, r.deviceType)
              && resp == Success((), if Known(old(db.tokens), userId, r.token) then "FCM token updated successfully"
                                     else "FCM token registered successfully")
  {
    var parsed := Parse(input);
    if parsed.Reject? {
      return Failure(parsed.code, parsed.error);
    }
    var r := parsed.value;
    var known := Known(db.tokens, userId, r.token);
    RegisterUpserts(db.tokens, userId, r.token, r.deviceType);
    db.SetTokens(Register(db.tokens, userId, r.token, r.deviceType));
    resp := Success((), if known then "FCM token updated successfully" else "FCM token registered successfully");
  }
}
