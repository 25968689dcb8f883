/**
 * POST api/send_message.php: a direct message, normal or vanish, from the
 * authenticated user to another existing user, followed by a notification
 * to the receiver.
 */
module SendMessage {
  import opened Wrappers
  import opened Php
  import opened Http
  import opened Schema
  import Validator
  import Config
  import Db
  import Notify

  const MESSAGE_TYPES: seq<string> := ["normal", "vanish"]
  const MEDIA_TYPES: seq<string> := ["text", "image", "video", "audio", "file"]

  /** The message the request asks for, once its fields are read and normalised. */
  datatype Draft = Draft(receiverId: int, content: string, mediaUrl: string, mediaType: string, messageType: string)

  /** message_type, 'normal' unless the body asks for 'vanish' (anything else falls back to 'normal'). */
  function MessageTypeOf(input: Value): (t: string)
    ensures t in MESSAGE_TYPES
    ensures t == "vanish" <==> Get(input, "message_type") == VStr("vanish")
  {
    OneOf(input, "message_type", MESSAGE_TYPES, "normal")
  }

  /** media_type: one of the allowed media types as given, otherwise 'text'. */
  function MediaTypeOf(input: Value): (t: string)
    ensures t in MEDIA_TYPES
    ensures InList(Get(input, "media_type"), MEDIA_TYPES) ==> t == Get(input, "media_type").s
    ensures t != "text" ==> Get(input, "media_type") == VStr(t)
  {
    OneOf(input, "media_type", MEDIA_TYPES, "text")
  }

  /** The request checks that need no database, in the order the endpoint makes them. */
  function Parse(input: Value, caller: int): (r: Checked<Draft>)
    ensures Empty(input) ==> r == Reject(400, "Invalid JSON input")
    ensures !Empty(input) && Empty(Get(input, "receiver_id"))
            ==> r == Reject(400, "Missing required fields: receiver_id")
    ensures !Empty(input) && !Empty(Get(input, "receiver_id"))
            && EmptyString(TrimField(input, "content")) && EmptyString(TrimField(input, "media_url"))
            ==> r == Reject(400, "Message must have either content or media")
    ensures !Empty(input) && !Empty(Get(input, "receiver_id"))
            && !(EmptyString(TrimField(input, "content")) && EmptyString(TrimField(input, "media_url")))
            && ToInt(Get(input, "receiver_id")) == caller
            ==> r == Reject(400, "Cannot send message to yourself")
    ensures r.Pass? <==>
              && !Empty(input) && !Empty(Get(input, "receiver_id"))
              && !(EmptyString(TrimField(input, "content")) && EmptyString(TrimField(input, "media_url")))
              && ToInt(Get(input, "receiver_id")) != caller
    ensures r.Pass? ==>
              && r.value.receiverId == ToInt(Get(input, "receiver_id")) && r.value.receiverId != caller
              && r.value.content == TrimField(input, "content")
              && r.value.mediaUrl == TrimField(input, "media_url")
              && r.value.messageType == MessageTypeOf(input) && r.value.mediaType == MediaTypeOf(input)
  {
    if Empty(input) then Reject(400, "Invalid JSON input")
    else
      var missing := Validator.MissingFields(["receiver_id"], input);
      Validator.MissingOne("receiver_id", input);
      if missing != [] then
        assert missing == ["receiver_id"];
        assert "Missing required fields: " + "receiver_id" == "Missing required fields: receiver_id";
        Reject(400, Validator.MissingMessage(missing))
      else
        var receiverId := ToInt(Get(input, "receiver_id"));
        var content := TrimField(input, "content");
        var mediaUrl := TrimField(input, "media_url");
        if EmptyString(content) && EmptyString(mediaUrl) then
          Reject(400, "Message must have either content or media")
        else if receiverId == caller then Reject(400, "Cannot send message to yourself")
        else
          Pass(Draft(receiverId, content, mediaUrl, MediaTypeOf(input), MessageTypeOf(input)))
  }

  /**
   * The stored row: unread, unedited, not deleted, created now; a vanish
   * message starts with thirty days to live and a normal one never expires.
   */
  function NewMessage(id: int, sender: int, d: Draft, now: int): (m: Message)
    ensures m.id == id && m.senderId == sender && m.receiverId == d.receiverId
    ensures m.content == d.content && m.mediaUrl == d.mediaUrl
    ensures m.mediaType == d.mediaType && m.messageType == d.messageType
    ensures !m.isRead && !m.isEdited && !m.isDeleted && m.createdAt == now
    ensures m.expiresAt.Some? <==> d.messageType == "vanish"
    ensures m.expiresAt.Some? ==> m.expiresAt.value == now + Config.VANISH_INITIAL_LIFETIME
    ensures LiveMessage(m, now)
  {
    Message(id, sender, d.receiverId, d.content, d.mediaUrl, d.mediaType, d.messageType,
            false, None, false, None, false, None,
            if d.messageType == "vanish" then Some(now + Config.VANISH_INITIAL_LIFETIME) else None,
            now)
  }

  const FIRE: string := "🔥 "

  /**
   * The push text after the sender's name: the content when it is truthy,
   * otherwise "Sent you a <media type>"; a vanish message is flagged with a
   * fire emoji in front.
   */
  function NotificationBody(d: Draft): (body: string)
    ensures d.messageType == "vanish" ==> StartsWith(body, FIRE)
    ensures !EmptyString(d.content) ==> EndsWith(body, d.content)
    ensures EmptyString(d.content) ==> EndsWith(body, "Sent you a " + d.mediaType)
  {
    var base := if !EmptyString(d.content) then d.content else "Sent you a " + d.mediaType;
    if d.messageType == "vanish" then FIRE + base else base
  }

  /** A message whose content is "0" is announced by its media type, since "0" is falsy. */
  lemma ZeroContentAnnouncedAsMedia(d: Draft)
    requires d.content == "0" && d.messageType == "normal"
    ensures NotificationBody(d) == "Sent you a " + d.mediaType
  {
  }

  /** The JSON data of the push: message id, sender id and message type. */
  function NotificationData(id: int, sender: int, d: Draft): Value {
    VMap(map["message_id" := VInt(id), "sender_id" := VInt(sender), "message_type" := VStr(d.messageType)])
  }

  /** The whole endpoint. */
  method Send(db: Db.Database, caller: int, input: Value, now: int) returns (resp: Response<Message>)
    requires db.Valid()
    modifies db`messages, db`nextMessageId, db`notifications, db`nextNotificationId, db`outbox
    ensures db.Valid()
    ensures Parse(input, caller).Reject? ==>
              resp == Failure(Parse(input, caller).code, Parse(input, caller).error)
    ensures Parse(input, caller).Pass? && !UserExists(db.users, Parse(input, caller).value.receiverId) ==>
              resp == Failure(404, "Receiver not found")
    ensures Parse(input, caller).Pass? && UserExists(db.users, Parse(input, caller).value.receiverId) ==> resp.Success?
    ensures resp.Failure? ==>
              && db.messages == old(db.messages) && db.nextMessageId == old(db.nextMessageId)
              && db.Sent() == old(db.Sent())
    ensures resp.Success? ==>
              var d := Parse(input, caller).value;
              var text := UsernameOf(db.users, caller) + ": " + NotificationBody(d);
              var data := NotificationData(old(db.nextMessageId), caller, d);
              && Parse(input, caller).Pass? && UserExists(db.users, d.receiverId)
              && resp == Success(NewMessage(old(db.nextMessageId), caller, d, now), "Message sent successfully")
              && db.messages == old(db.messages) + [resp.data]
              && db.nextMessageId == old(db.nextMessageId) + 1
              && db.Sent() == Notify.AfterSend(old(db.Sent()), db.tokens, d.receiverId, "message", "New Message",
                                               text, data, now)
  {
    var parsed := Parse(input, caller);
    if parsed.Reject? {
      return Failure(parsed.code, parsed.error);
    }
    var d := parsed.value;
    if !UserExists(db.users, d.receiverId) {
      return Failure(404, "Receiver not found");
    }
    ghost var nextId := db.nextMessageId;
    var m := Deliver(db, caller, d, now);
    resp := Success(m, "Message sent successfully");
    assert resp.data == NewMessage(nextId, caller, d, now);
  }

  /** The INSERT and the receiver's notification, once the checks have passed. */
  method Deliver(db: Db.Database, caller: int, d: Draft, now: int) returns (m: Message)
    requires db.Valid()
    modifies db`messages, db`nextMessageId, db`notifications, db`nextNotificationId, db`outbox
    ensures db.Valid()
    ensures m == NewMessage(old(db.nextMessageId), caller, d, now)
    ensures db.messages == old(db.messages) + [m] && db.nextMessageId == old(db.nextMessageId) + 1
    ensures db.Sent() == Notify.AfterSend(old(db.Sent()), db.tokens, d.receiverId, "message", "New Message",
                                          UsernameOf(db.users, caller) + ": " + NotificationBody(d),
                                          NotificationData(old(db.nextMessageId), caller, d), now)
  {
    var id := db.nextMessageId;
    m := NewMessage(id, caller, d, now);
    db.AddMessage(m);
    var text := UsernameOf(db.users, caller) + ": " + NotificationBody(d);
    Notify.Send(db, d.receiverId, "message", "New Message", text, NotificationData(id, caller, d), now);
  }
}
