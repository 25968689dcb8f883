/**
 * PUT api/edit_message.php: the sender replaces the text of one of their
 * own text messages within five minutes of sending it.
 */
module EditMessage {
  import opened Wrappers
  import opened Php
  import opened Http
  import opened Schema
  import Validator
  import Config
  import Db
  import Seqs

  datatype EditRequest = EditRequest(messageId: int, content: string)

  /** The stored message may be edited by `caller` at `now`: theirs, without media, and at most five minutes old. */
  predicate Editable(m: Message, caller: int, now: int) {
    m.senderId == caller && EmptyString(m.mediaUrl) && now - m.createdAt <= Config.MESSAGE_EDIT_TIME_LIMIT
  }

  /** The checks on the request body alone. */
  function ParseEdit(input: Value): (r: Checked<EditRequest>)
    ensures Empty(input) ==> r == Reject(400, "Invalid JSON input")
    ensures r.Reject? ==> r.code == 400
    ensures r.Pass? <==>
              && !Empty(input) && !Empty(Get(input, "message_id")) && !Empty(Get(input, "content"))
              && !EmptyString(TrimField(input, "content"))
    ensures r.Pass? ==> r.value == EditRequest(ToInt(Get(input, "message_id")), TrimField(input, "content"))
  {
    if Empty(input) then Reject(400, "Invalid JSON input")
    else
      var missing := Validator.MissingFields(["message_id", "content"], input);
      Validator.NoneMissingOfTwo("message_id", "content", input);
      if missing != [] then Reject(400, Validator.MissingMessage(missing))
      else
        var content := TrimField(input, "content");
        if EmptyString(content) then Reject(400, "Message content cannot be empty")
        else Pass(EditRequest(ToInt(Get(input, "message_id")), content))
  }

  /** Every check of the endpoint before the UPDATE, in the order it makes them. */
  function CheckEdit(messages: seq<Message>, caller: int, input: Value, now: int): (r: Checked<EditRequest>)
    ensures ParseEdit(input).Reject? ==> r == ParseEdit(input)
    ensures r.Pass? <==>
              && ParseEdit(input).Pass?
              && FindMessage(messages, ParseEdit(input).value.messageId).Some?
              && Editable(messages[FindMessage(messages, ParseEdit(input).value.messageId).value], caller, now)
    ensures r.Pass? ==> r == ParseEdit(input)
    ensures r.Reject? && r.code == 404 <==>
              ParseEdit(input).Pass? && FindMessage(messages, ParseEdit(input).value.messageId).None?
    ensures r.Reject? && r.code == 403 <==>
              && ParseEdit(input).Pass? && FindMessage(messages, ParseEdit(input).value.messageId).Some?
              && messages[FindMessage(messages, ParseEdit(input).value.messageId).value].senderId != caller
    ensures r.Reject? && r.code == 404 ==> r.error == "Message not found"
    ensures r.Reject? && r.code == 403 ==> r.error == "You can only edit your own messages"
    ensures ParseEdit(input).Pass? && FindMessage(messages, ParseEdit(input).value.messageId).Some? ==>
              var m := messages[FindMessage(messages, ParseEdit(input).value.messageId).value];
              && (m.senderId == caller && !EmptyString(m.mediaUrl) ==> r == Reject(400, "Cannot edit messages with media"))
              && (m.senderId == caller && EmptyString(m.mediaUrl) && now - m.createdAt > Config.MESSAGE_EDIT_TIME_LIMIT
                  ==> r == Reject(400, "Message edit time limit exceeded (5 minutes)"))
  {
    match ParseEdit(input)
    case Reject(code, error) => Reject(code, error)
    case Pass(req) =>
      match FindMessage(messages, req.messageId)
      case None => Reject(404, "Message not found")
      case Some(k) =>
        var m := messages[k];
        if m.senderId != caller then Reject(403, "You can only edit your own messages")
        else if !EmptyString(m.mediaUrl) then Reject(400, "Cannot edit messages with media")
        else if now - m.createdAt > Config.MESSAGE_EDIT_TIME_LIMIT then
          Reject(400, "Message edit time limit exceeded (5 minutes)")
        else Pass(req)
  }

  /** The edited row: new text, flagged edited, edited now; nothing else changes. */
  function Edited(m: Message, content: string, now: int): Message {
    m.(content := content, isEdited := true, editedAt := Some(now))
  }

  /** UPDATE messages SET content = ?, is_edited = 1, edited_at = NOW() WHERE id = ?. */
  function ApplyEdit(messages: seq<Message>, id: int, content: string, now: int): (r: seq<Message>)
    ensures |r| == |messages|
    ensures forall k :: 0 <= k < |r| ==>
              r[k] == if messages[k].id == id then Edited(messages[k], content, now) else messages[k]
  {
    Seqs.UpdateWhere(messages, (m: Message) => m.id == id, (m: Message) => Edited(m, content, now))
  }

  /** The edit keeps every id, so the table's keys and counter stay valid. */
  lemma ApplyEditKeepsIds(messages: seq<Message>, next: int, id: int, content: string, now: int)
    requires Db.IdsBelow(messages, Db.MessageId, next)
    ensures Db.IdsBelow(ApplyEdit(messages, id, content, now), Db.MessageId, next)
  {
    Db.UpdateIdsBelow(messages, (m: Message) => m.id == id, (m: Message) => Edited(m, content, now),
                      Db.MessageId, next);
  }

  /** An accepted edit leaves the message live, so a second edit within the window is accepted too. */
  lemma EditAgain(messages: seq<Message>, next: int, caller: int, input: Value, now: int, later: int)
    requires Db.IdsBelow(messages, Db.MessageId, next)
    requires CheckEdit(messages, caller, input, now).Pass?
    requires now <= later
    requires later - messages[FindMessage(messages, ParseEdit(input).value.messageId).value].createdAt
             <= Config.MESSAGE_EDIT_TIME_LIMIT
    ensures var req := CheckEdit(messages, caller, input, now).value;
            CheckEdit(ApplyEdit(messages, req.messageId, req.content, now), caller, input, later).Pass?
  {
    var req := CheckEdit(messages, caller, input, now).value;
    var k := FindMessage(messages, req.messageId).value;
    var after := ApplyEdit(messages, req.messageId, req.content, now);
    assert after[k] == Edited(messages[k], req.content, now);
    assert after[k].id == req.messageId && !after[k].isDeleted;
    var j := FindMessage(after, req.messageId).value;
    assert messages[j].id == req.messageId by {
      assert after[j].id == messages[j].id;
    }
    assert j == k;
    assert Editable(after[j], caller, later);
  }

  /** The time limit is inclusive: a message exactly five minutes old may still be edited, one second later not. */
  lemma EditWindowBoundary(m: Message, caller: int)
    requires m.senderId == caller && EmptyString(m.mediaUrl)
    ensures Editable(m, caller, m.createdAt + Config.MESSAGE_EDIT_TIME_LIMIT)
    ensures !Editable(m, caller, m.createdAt + Config.MESSAGE_EDIT_TIME_LIMIT + 1)
  {
  }

  /** The endpoint: check, then update the one row, then answer with it. */
  method Edit(db: Db.Database, caller: int, input: Value, now: int) returns (resp: Response<Message>)
    requires db.Valid()
    modifies db`messages
    ensures db.Valid()
    ensures resp.Success? <==>
              && ParseEdit(input).Pass?
              && FindMessage(old(db.messages), ParseEdit(input).value.messageId).Some?
              && Editable(old(db.messages)[FindMessage(old(db.messages), ParseEdit(input).value.messageId).value], caller, now)
    ensures var c := CheckEdit(old(db.messages), caller, input, now);
            && (c.Reject? ==> resp == Failure(c.code, c.error) && db.messages == old(db.messages))
            && (c.Pass? ==>
                  && db.messages == ApplyEdit(old(db.messages), c.value.messageId, c.value.content, now)
                  && resp.Success? && resp.message == "Message edited successfully"
                  && resp.data == Edited(old(db.messages)[FindMessage(old(db.messages), c.value.messageId).value],
                                         c.value.content, now))
  {
    var c := CheckEdit(db.messages, caller, input, now);
    if c.Reject? {
      return Failure(c.code, c.error);
    }
    var k := FindMessage(db.messages, c.value.messageId).value;
    ApplyEditKeepsIds(db.messages, db.nextMessageId, c.value.messageId, c.value.content, now);
    db.SetMessages(ApplyEdit(db.messages, c.value.messageId, c.value.content, now));
    resp := Success(db.messages[k], "Message edited successfully");
  }
}
