/**
 * GET api/get_messages.php: one page of the conversation between the caller
 * and another user, newest page first but each page oldest first. Fetching a
 * page marks the caller's unread received messages on it as read and gives
 * the vanish ones among them one more hour to live.
 */
module GetMessages {
  import opened Wrappers
  import opened Php
  import opened Http
  import opened Schema
  import Config
  import Db
  import Seqs

  /** A message of the conversation that readers still show. */
  predicate InConversation(m: Message, caller: int, other: int, now: int) {
    BetweenPair(m, caller, other) && LiveMessage(m, now)
  }

  /** The rows both the COUNT and the SELECT match, in table order. */
  function Conversation(messages: seq<Message>, caller: int, other: int, now: int): (r: seq<Message>)
    ensures forall m :: m in r <==> m in messages && InConversation(m, caller, other, now)
  {
    Seqs.Filter(messages, (m: Message) => InConversation(m, caller, other, now))
  }

  function CreatedAt(m: Message): int { m.createdAt }

  /** ORDER BY created_at DESC LIMIT limit OFFSET offset; ties keep table order. */
  function PageRows(messages: seq<Message>, caller: int, other: int, now: int, page: int, limit: int)
    : (rows: seq<Message>)
    requires page >= 1 && limit >= 1
    ensures var chat := Conversation(messages, caller, other, now);
            var offset := Offset(page, limit);
            && |rows| == Seqs.Min(limit, |chat| - Seqs.Min(offset, |chat|))
            && forall k :: 0 <= k < |rows| ==> rows[k] == Seqs.SortDesc(chat, CreatedAt)[offset + k]
    ensures forall m :: m in rows ==> m in messages && InConversation(m, caller, other, now)
    ensures forall i, j :: 0 <= i < j < |rows| ==> rows[i].createdAt >= rows[j].createdAt
  {
    Seqs.PageDesc(Conversation(messages, caller, other, now), CreatedAt, Offset(page, limit), limit)
  }

  /** A row of the answer: the message as fetched, and whether the caller sent it. */
  datatype MessageView = MessageView(message: Message, isOwnMessage: bool)

  /** The rows of the answer, flagged as the loop flags them. */
  function Views(rows: seq<Message>, caller: int): (r: seq<MessageView>)
    ensures |r| == |rows|
    ensures forall k :: 0 <= k < |r| ==> r[k].message == rows[k] && (r[k].isOwnMessage <==> rows[k].senderId == caller)
  {
    if rows == [] then [] else Views(rows[..|rows| - 1], caller) + [MessageView(rows[|rows| - 1], rows[|rows| - 1].senderId == caller)]
  }

  /** The ids the loop collects: messages on the page the caller did not send and has not read. */
  function UnreadIds(rows: seq<Message>, caller: int): (r: seq<int>)
    ensures |r| <= |rows|
  {
    if rows == [] then []
    else
      var last := rows[|rows| - 1];
      UnreadIds(rows[..|rows| - 1], caller) + (if last.senderId != caller && !last.isRead then [last.id] else [])
  }

  /** An id is collected exactly when a row on the page with that id was received unread. */
  lemma {:induction false} UnreadIdsExact(rows: seq<Message>, caller: int, id: int)
    ensures id in UnreadIds(rows, caller) <==>
              exists k :: 0 <= k < |rows| && rows[k].id == id && rows[k].senderId != caller && !rows[k].isRead
  {
    if rows != [] {
      var init := rows[..|rows| - 1];
      UnreadIdsExact(init, caller, id);
      if exists k :: 0 <= k < |init| && init[k].id == id && init[k].senderId != caller && !init[k].isRead {
        var k :| 0 <= k < |init| && init[k].id == id && init[k].senderId != caller && !init[k].isRead;
        assert rows[k] == init[k];
      }
      if exists k :: 0 <= k < |rows| && rows[k].id == id && rows[k].senderId != caller && !rows[k].isRead {
        var k :| 0 <= k < |rows| && rows[k].id == id && rows[k].senderId != caller && !rows[k].isRead;
        if k < |init| {
          assert init[k] == rows[k];
        }
      }
    }
  }

  /** The fetch loop: flag each row and collect the ids to mark read. */
  method BuildRows(rows: seq<Message>, caller: int) returns (views: seq<MessageView>, unread: seq<int>)
    ensures views == Views(rows, caller)
    ensures unread == UnreadIds(rows, caller)
  {
    views, unread := [], [];
    var i := 0;
    while i < |rows|
      invariant 0 <= i <= |rows|
      invariant views == Views(rows[..i], caller)
      invariant unread == UnreadIds(rows[..i], caller)
    {
      assert rows[..i + 1][..i] == rows[..i];
      var row := rows[i];
      var isOwn := row.senderId == caller;
      if !isOwn && !row.isRead {
        unread := unread + [row.id];
      }
      views := views + [MessageView(row, isOwn)];
      i := i + 1;
    }
    assert rows[..i] == rows;
  }

  /** Unread ids on a page are messages the other user sent to the caller. */
  lemma UnreadAreReceived(messages: seq<Message>, caller: int, other: int, now: int, page: int, limit: int, id: int)
    requires page >= 1 && limit >= 1
    requires id in UnreadIds(PageRows(messages, caller, other, now, page, limit), caller)
    ensures exists m :: m in messages && m.id == id && m.senderId == other && m.receiverId == caller && !m.isRead
  {
    var rows := PageRows(messages, caller, other, now, page, limit);
    UnreadIdsExact(rows, caller, id);
    var k :| 0 <= k < |rows| && rows[k].id == id && rows[k].senderId != caller && !rows[k].isRead;
    assert rows[k] in rows;
  }

  // ---------------------------------------------------------------- the two UPDATEs

  function ReadNow(m: Message, now: int): Message {
    m.(isRead := true, readAt := Some(now))
  }

  /** UPDATE messages SET is_read = 1, read_at = NOW() WHERE id IN (ids). */
  function ReadAll(messages: seq<Message>, ids: seq<int>, now: int): (r: seq<Message>)
    ensures |r| == |messages|
    ensures forall k :: 0 <= k < |r| ==> r[k] == if messages[k].id in ids then ReadNow(messages[k], now) else messages[k]
  {
    Seqs.UpdateWhere(messages, (m: Message) => m.id in ids, (m: Message) => ReadNow(m, now))
  }

  predicate VanishIn(m: Message, ids: seq<int>) {
    m.id in ids && m.messageType == "vanish"
  }

  function ExpireInAnHour(m: Message, now: int): Message {
    m.(expiresAt := Some(now + Config.VANISH_READ_LIFETIME))
  }

  /** UPDATE messages SET expires_at = NOW() + 1 hour WHERE id IN (ids) AND message_type = 'vanish'. */
  function ResetVanish(messages: seq<Message>, ids: seq<int>, now: int): (r: seq<Message>)
    ensures |r| == |messages|
    ensures forall k :: 0 <= k < |r| ==>
              r[k] == if VanishIn(messages[k], ids) then ExpireInAnHour(messages[k], now) else messages[k]
  {
    Seqs.UpdateWhere(messages, (m: Message) => VanishIn(m, ids), (m: Message) => ExpireInAnHour(m, now))
  }

  /**
   * Unlike mark_message_read, this reset has no `expires_at >` guard: a
   * vanish message with less than an hour left gets its hour back, and one
   * with no expiry at all gets one.
   */
  lemma ResetCanExtend(messages: seq<Message>, ids: seq<int>, now: int, k: int)
    requires 0 <= k < |messages| && VanishIn(messages[k], ids)
    ensures ResetVanish(messages, ids, now)[k].expiresAt == Some(now + Config.VANISH_READ_LIFETIME)
    ensures messages[k].expiresAt.Some? && messages[k].expiresAt.value < now + Config.VANISH_READ_LIFETIME ==>
              ResetVanish(messages, ids, now)[k].expiresAt.value > messages[k].expiresAt.value
  {
  }

  lemma UpdatesKeepIds(messages: seq<Message>, next: int, ids: seq<int>, now: int)
    requires Db.IdsBelow(messages, Db.MessageId, next)
    ensures Db.IdsBelow(ResetVanish(ReadAll(messages, ids, now), ids, now), Db.MessageId, next)
  {
    Db.UpdateIdsBelow(messages, (m: Message) => m.id in ids, (m: Message) => ReadNow(m, now), Db.MessageId, next);
    Db.UpdateIdsBelow(ReadAll(messages, ids, now), (m: Message) => VanishIn(m, ids),
                      (m: Message) => ExpireInAnHour(m, now), Db.MessageId, next);
  }

  /** With no id collected both UPDATEs are skipped, and skipping them changes nothing. */
  lemma NoIdsNoChange(messages: seq<Message>, now: int)
    ensures ResetVanish(ReadAll(messages, [], now), [], now) == messages
  {
    Seqs.UpdateNothing(messages, (m: Message) => m.id in [], (m: Message) => ReadNow(m, now));
    Seqs.UpdateNothing(messages, (m: Message) => VanishIn(m, []), (m: Message) => ExpireInAnHour(m, now));
  }

  /** The page is answered oldest first: the newest-first rows, reversed. */
  lemma PageIsChronological(messages: seq<Message>, caller: int, other: int, now: int, page: int, limit: int)
    requires page >= 1 && limit >= 1
    ensures var shown := Seqs.Reverse(Views(PageRows(messages, caller, other, now, page, limit), caller));
            forall i, j :: 0 <= i < j < |shown| ==> shown[i].message.createdAt <= shown[j].message.createdAt
  {
  }

  /** The endpoint. */
  method Fetch(db: Db.Database, caller: int, query: Value, now: int) returns (resp: Response<Paged<MessageView>>)
    requires db.Valid()
    modifies db`messages
    ensures db.Valid()
    ensures !Isset(query, "other_user_id") ==> resp == Failure(400, "Other user ID required")
    ensures Isset(query, "other_user_id") && !UserExists(db.users, ToInt(Get(query, "other_user_id"))) ==>
              resp == Failure(404, "User not found")
    ensures Isset(query, "other_user_id") && UserExists(db.users, ToInt(Get(query, "other_user_id"))) ==>
              resp.Success?
    ensures resp.Failure? ==> db.messages == old(db.messages)
    ensures resp.Success? ==>
              var other := ToInt(Get(query, "other_user_id"));
              var page := PageParam(query);
              var limit := LimitParam(query);
              var rows := PageRows(old(db.messages), caller, other, now, page, limit);
              var ids := UnreadIds(rows, caller);
              && Isset(query, "other_user_id") && UserExists(db.users, other)
              && db.messages == ResetVanish(ReadAll(old(db.messages), ids, now), ids, now)
              && resp == Success(Paginate(Seqs.Reverse(Views(rows, caller)),
                                          |Conversation(old(db.messages), caller, other, now)|, page, limit), "Success")
  {
    if !Isset(query, "other_user_id") {
      return Failure(400, "Other user ID required");
    }
    var other := ToInt(Get(query, "other_user_id"));
    var page := PageParam(query);
    var limit := LimitParam(query);
    if !UserExists(db.users, other) {
      return Failure(404, "User not found");
    }
    var total := |Conversation(db.messages, caller, other, now)|;
    var rows := PageRows(db.messages, caller, other, now, page, limit);
    var views, ids := BuildRows(rows, caller);
    if ids != [] {
      UpdatesKeepIds(db.messages, db.nextMessageId, ids, now);
      db.SetMessages(ResetVanish(ReadAll(db.messages, ids, now), ids, now));
    } else {
      NoIdsNoChange(db.messages, now);
    }
    resp := Success(Paginate(Seqs.Reverse(views), total, page, limit), "Success");
  }
}
