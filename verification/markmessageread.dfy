/**
 * POST api/mark_message_read.php: the receiver marks one or several messages
 * as read. A vanish message that is read has its remaining lifetime cut to
 * one hour.
 */
module MarkMessageRead {
  import opened Wrappers
  import opened Php
  import opened Http
  import opened Schema
  import Config
  import Db
  import Seqs

  /** `array_map('intval', $ids)` taken as the set the `IN (...)` list selects. */
  function IdsOf(v: Value): (r: set<int>)
    ensures v.VList? ==> forall id :: id in r <==> exists k :: 0 <= k < |v.items| && ToInt(v.items[k]) == id
    ensures v.VMap? ==> forall id :: id in r <==> exists key :: key in v.fields && ToInt(v.fields[key]) == id
    ensures IsArray(v) && !Empty(v) ==> r != {}
    ensures !IsArray(v) ==> r == {}
  {
    match v
    case VList(items) =>
      var ids := set k | 0 <= k < |items| :: ToInt(items[k]);
      assert items != [] ==> ToInt(items[0]) in ids;
      ids
    case VMap(fields) =>
      var ids := set key | key in fields :: ToInt(fields[key]);
      assert fields != map[] ==> exists key :: key in fields && ToInt(fields[key]) in ids;
      ids
    case _ => {}
  }

  /** The requested ids; `message_id` wins over `message_ids`, whose order does not matter to the query. */
  function RequestedIds(input: Value): (r: Checked<set<int>>)
    ensures Empty(input) ==> r == Reject(400, "Invalid JSON input")
    ensures !Empty(input) && Isset(input, "message_id") ==> r == Pass({ToInt(Get(input, "message_id"))})
    ensures !Empty(input) && !Isset(input, "message_id") && !IsArray(Get(input, "message_ids"))
            ==> r == Reject(400, "Message ID(s) required")
    ensures (!Empty(input) && !Isset(input, "message_id") && IsArray(Get(input, "message_ids"))
             && Empty(Get(input, "message_ids"))) ==> r == Reject(400, "No valid message IDs provided")
    ensures (!Empty(input) && !Isset(input, "message_id") && IsArray(Get(input, "message_ids"))
             && !Empty(Get(input, "message_ids"))) ==> r == Pass(IdsOf(Get(input, "message_ids")))
    ensures r.Pass? ==> r.value != {}
    ensures r.Reject? ==> r.code == 400
  {
    if Empty(input) then Reject(400, "Invalid JSON input")
    else if Isset(input, "message_id") then Pass({ToInt(Get(input, "message_id"))})
    else
      var ids := Get(input, "message_ids");
      if !IsArray(ids) then Reject(400, "Message ID(s) required")
      else if Empty(ids) then Reject(400, "No valid message IDs provided")
      else Pass(IdsOf(ids))
  }

  /** A row the validating SELECT returns: requested, received by the caller, not deleted. */
  predicate Receivable(m: Message, ids: set<int>, caller: int) {
    m.id in ids && m.receiverId == caller && !m.isDeleted
  }

  /** The ids the validating SELECT returns, in table order. */
  function ValidIds(messages: seq<Message>, ids: set<int>, caller: int): (r: seq<int>)
    ensures |r| <= |messages|
    ensures forall k :: 0 <= k < |r| ==> r[k] in ids
  {
    if messages == [] then []
    else
      var rest := ValidIds(messages[1..], ids, caller);
      if Receivable(messages[0], ids, caller) then [messages[0].id] + rest else rest
  }

  lemma {:induction false} ValidIdsSnoc(messages: seq<Message>, m: Message, ids: set<int>, caller: int)
    ensures ValidIds(messages + [m], ids, caller)
         == ValidIds(messages, ids, caller) + (if Receivable(m, ids, caller) then [m.id] else [])
  {
    if messages != [] {
      assert (messages + [m])[1..] == messages[1..] + [m];
      ValidIdsSnoc(messages[1..], m, ids, caller);
    }
  }

  /** An id is valid exactly when some receivable row carries it. */
  lemma {:induction false} ValidIdsExact(messages: seq<Message>, ids: set<int>, caller: int, id: int)
    ensures id in ValidIds(messages, ids, caller) <==>
              exists k :: 0 <= k < |messages| && messages[k].id == id && Receivable(messages[k], ids, caller)
  {
    if messages != [] {
      ValidIdsExact(messages[1..], ids, caller, id);
      if exists k :: 0 <= k < |messages| - 1 && messages[1..][k].id == id && Receivable(messages[1..][k], ids, caller) {
        var k :| 0 <= k < |messages| - 1 && messages[1..][k].id == id && Receivable(messages[1..][k], ids, caller);
        assert messages[k + 1] == messages[1..][k];
      }
      if exists k :: 0 <= k < |messages| && messages[k].id == id && Receivable(messages[k], ids, caller) {
        var k :| 0 <= k < |messages| && messages[k].id == id && Receivable(messages[k], ids, caller);
        if k > 0 {
          assert messages[1..][k - 1] == messages[k];
        }
      }
    }
  }

  /** The fetch loop: the id of every row the validating SELECT returns. */
  method CollectValidIds(messages: seq<Message>, ids: set<int>, caller: int) returns (valid: seq<int>)
    ensures valid == ValidIds(messages, ids, caller)
  {
    valid := [];
    var i := 0;
    while i < |messages|
      invariant 0 <= i <= |messages|
      invariant valid == ValidIds(messages[..i], ids, caller)
    {
      ValidIdsSnoc(messages[..i], messages[i], ids, caller);
      assert messages[..i + 1] == messages[..i] + [messages[i]];
      var m := messages[i];
      if m.id in ids && m.receiverId == caller && !m.isDeleted {
        valid := valid + [m.id];
      }
      i := i + 1;
    }
    assert messages[..i] == messages;
  }

  // ---------------------------------------------------------------- the two UPDATEs

  predicate Unread(m: Message, valid: seq<int>) {
    m.id in valid && !m.isRead
  }

  function Read(m: Message, now: int): Message {
    m.(isRead := true, readAt := Some(now))
  }

  /** UPDATE messages SET is_read = 1, read_at = NOW() WHERE id IN (valid) AND is_read = 0. */
  function MarkRead(messages: seq<Message>, valid: seq<int>, now: int): (r: seq<Message>)
    ensures |r| == |messages|
    ensures forall k :: 0 <= k < |r| ==> r[k] == if Unread(messages[k], valid) then Read(messages[k], now) else messages[k]
  {
    Seqs.UpdateWhere(messages, (m: Message) => Unread(m, valid), (m: Message) => Read(m, now))
  }

  /** affected_rows of that UPDATE: the number of requested rows that were still unread. */
  function MarkedCount(messages: seq<Message>, valid: seq<int>): (n: nat)
    ensures n <= |messages|
    ensures n == Seqs.Count(messages, (m: Message) => Unread(m, valid))
  {
    if messages == [] then 0
    else (if Unread(messages[0], valid) then 1 else 0) + MarkedCount(messages[1..], valid)
  }

  /** A vanish message whose expiry is more than an hour away; a NULL expiry never matches. */
  predicate ExpiresLater(m: Message, valid: seq<int>, now: int) {
    m.id in valid && m.messageType == "vanish" && m.expiresAt.Some?
    && m.expiresAt.value > now + Config.VANISH_READ_LIFETIME
  }

  function ExpireSoon(m: Message, now: int): Message {
    m.(expiresAt := Some(now + Config.VANISH_READ_LIFETIME))
  }

  /** UPDATE messages SET expires_at = NOW() + 1 hour WHERE id IN (valid) AND message_type = 'vanish' AND expires_at > NOW() + 1 hour. */
  function ShortenVanish(messages: seq<Message>, valid: seq<int>, now: int): (r: seq<Message>)
    ensures |r| == |messages|
    ensures forall k :: 0 <= k < |r| ==>
              r[k] == if ExpiresLater(messages[k], valid, now) then ExpireSoon(messages[k], now) else messages[k]
  {
    Seqs.UpdateWhere(messages, (m: Message) => ExpiresLater(m, valid, now), (m: Message) => ExpireSoon(m, now))
  }

  /** Marking the same messages again, at any later time, counts nothing and changes nothing. */
  lemma {:induction false} MarkReadAgain(messages: seq<Message>, valid: seq<int>, now: int, later: int)
    ensures MarkedCount(MarkRead(messages, valid, now), valid) == 0
    ensures MarkRead(MarkRead(messages, valid, now), valid, later) == MarkRead(messages, valid, now)
  {
    var once := MarkRead(messages, valid, now);
    forall k | 0 <= k < |once| ensures !Unread(once[k], valid) {
    }
    NoUnreadCountsZero(once, valid);
  }

  lemma {:induction false} NoUnreadCountsZero(messages: seq<Message>, valid: seq<int>)
    requires forall k :: 0 <= k < |messages| ==> !Unread(messages[k], valid)
    ensures MarkedCount(messages, valid) == 0
  {
    if messages != [] {
      NoUnreadCountsZero(messages[1..], valid);
    }
  }

  /** The expiry update only ever shortens: no expiry grows, none appears, and every one ends within the hour. */
  lemma ShortenNeverExtends(messages: seq<Message>, valid: seq<int>, now: int)
    ensures forall k :: 0 <= k < |messages| ==>
              var after := ShortenVanish(messages, valid, now)[k];
              && (messages[k].expiresAt.None? ==> after.expiresAt.None?)
              && (messages[k].expiresAt.Some? ==> after.expiresAt.Some? && after.expiresAt.value <= messages[k].expiresAt.value)
    ensures forall k :: (0 <= k < |messages| && messages[k].id in valid && messages[k].messageType == "vanish"
                         && messages[k].expiresAt.Some?) ==>
              ShortenVanish(messages, valid, now)[k].expiresAt.value <= now + Config.VANISH_READ_LIFETIME
  {
  }

  /**
   * With unique ids, the rows the two UPDATEs touch are exactly the caller's
   * undeleted received messages among those requested.
   */
  lemma OnlyOwnMessagesChange(messages: seq<Message>, ids: set<int>, caller: int, now: int)
    requires Seqs.UniqueBy(messages, Db.MessageId)
    ensures var valid := ValidIds(messages, ids, caller);
            forall k :: 0 <= k < |messages| && messages[k].id in valid ==> Receivable(messages[k], ids, caller)
  {
    var valid := ValidIds(messages, ids, caller);
    forall k | 0 <= k < |messages| && messages[k].id in valid ensures Receivable(messages[k], ids, caller) {
      ValidIdsExact(messages, ids, caller, messages[k].id);
      var j :| 0 <= j < |messages| && messages[j].id == messages[k].id && Receivable(messages[j], ids, caller);
      assert Db.MessageId(messages[j]) == Db.MessageId(messages[k]);
    }
  }

  lemma UpdatesKeepIds(messages: seq<Message>, next: int, valid: seq<int>, now: int)
    requires Db.IdsBelow(messages, Db.MessageId, next)
    ensures Db.IdsBelow(ShortenVanish(MarkRead(messages, valid, now), valid, now), Db.MessageId, next)
  {
    Db.UpdateIdsBelow(messages, (m: Message) => Unread(m, valid), (m: Message) => Read(m, now), Db.MessageId, next);
    Db.UpdateIdsBelow(MarkRead(messages, valid, now), (m: Message) => ExpiresLater(m, valid, now),
                      (m: Message) => ExpireSoon(m, now), Db.MessageId, next);
  }

  datatype MarkResult = MarkResult(markedCount: nat, messageIds: seq<int>)

  /** The endpoint; both UPDATEs run in one transaction. */
  method Mark(db: Db.Database, caller: int, input: Value, now: int) returns (resp: Response<MarkResult>)
    requires db.Valid()
    modifies db`messages
    ensures db.Valid()
    ensures RequestedIds(input).Reject? ==>
              resp == Failure(RequestedIds(input).code, RequestedIds(input).error) && db.messages == old(db.messages)
    ensures RequestedIds(input).Pass? && ValidIds(old(db.messages), RequestedIds(input).value, caller) == [] ==>
              resp == Failure(400, "No valid messages found to mark as read") && db.messages == old(db.messages)
    ensures RequestedIds(input).Pass? && ValidIds(old(db.messages), RequestedIds(input).value, caller) != [] ==>
              resp.Success?
    ensures resp.Success? ==>
              var valid := ValidIds(old(db.messages), RequestedIds(input).value, caller);
              var n := MarkedCount(old(db.messages), valid);
              && RequestedIds(input).Pass? && valid != []
              && db.messages == ShortenVanish(MarkRead(old(db.messages), valid, now), valid, now)
              && resp == Success(MarkResult(n, valid), IntToString(n) + " message(s) marked as read")
    ensures resp.Failure? ==> db.messages == old(db.messages)
  {
    var requested := RequestedIds(input);
    if requested.Reject? {
      return Failure(requested.code, requested.error);
    }
    var valid := CollectValidIds(db.messages, requested.value, caller);
    if valid == [] {
      return Failure(400, "No valid messages found to mark as read");
    }
    var n := MarkedCount(db.messages, valid);
    UpdatesKeepIds(db.messages, db.nextMessageId, valid, now);
    db.SetMessages(ShortenVanish(MarkRead(db.messages, valid, now), valid, now));
    resp := Success(MarkResult(n, valid), IntToString(n) + " message(s) marked as read");
  }
}
