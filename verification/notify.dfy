/**
 * Notification::send: store the notification, then push it to every active
 * device token of the recipient. The FCM request itself (sendFCM) is network
 * I/O; the model records each attempted push in the database's outbox.
 */
module Notify {
  import opened Php
  import opened Schema
  import Db
  import Seqs

  predicate ActiveTokenOf(t: DeviceToken, userId: int) {
    t.userId == userId && t.isActive
  }

  /** The pushes sent for one notification: one per active token of the user, in table order. */
  function PushesFor(tokens: seq<DeviceToken>, userId: int, title: string, message: string, data: Value)
    : (r: seq<Push>)
    ensures |r| <= |tokens|
    ensures forall k :: 0 <= k < |r| ==> r[k].title == title && r[k].body == message && r[k].data == data
  {
    if tokens == [] then []
    else
      var rest := PushesFor(tokens[1..], userId, title, message, data);
      if ActiveTokenOf(tokens[0], userId) then [Push(tokens[0].token, title, message, data)] + rest
      else rest
  }

  /** Exactly the active tokens of the user are pushed to, and no other token. */
  lemma {:induction false} PushesForTokens(tokens: seq<DeviceToken>, userId: int, title: string, message: string,
                                           data: Value)
    ensures forall p :: p in PushesFor(tokens, userId, title, message, data) ==>
              exists t :: t in tokens && ActiveTokenOf(t, userId) && p.token == t.token
    ensures forall t :: t in tokens && ActiveTokenOf(t, userId) ==>
              Push(t.token, title, message, data) in PushesFor(tokens, userId, title, message, data)
  {
    if tokens != [] {
      PushesForTokens(tokens[1..], userId, title, message, data);
      assert forall t :: t in tokens[1..] ==> t in tokens;
      assert forall t :: t in tokens ==> t == tokens[0] || t in tokens[1..];
    }
  }

  /** Scanning one more token adds its push, if any, at the end. */
  lemma {:induction false} PushesForSnoc(tokens: seq<DeviceToken>, t: DeviceToken, userId: int,
                                         title: string, message: string, data: Value)
    ensures PushesFor(tokens + [t], userId, title, message, data)
         == PushesFor(tokens, userId, title, message, data)
            + (if ActiveTokenOf(t, userId) then [Push(t.token, title, message, data)] else [])
  {
    if tokens != [] {
      assert (tokens + [t])[1..] == tokens[1..] + [t];
      PushesForSnoc(tokens[1..], t, userId, title, message, data);
    }
  }

  /** The notification side after one Notification::send: one more row with the next id, and its pushes. */
  function AfterSend(o: Db.Outgoing, tokens: seq<DeviceToken>, userId: int, kind: string, title: string,
                     message: string, data: Value, now: int): (r: Db.Outgoing)
    ensures |r.notifications| == |o.notifications| + 1 && r.notifications[..|o.notifications|] == o.notifications
    ensures var n := r.notifications[|o.notifications|];
            n.id == o.nextId && n.userId == userId && !n.isRead && n.createdAt == now
    ensures r.nextId == o.nextId + 1
    ensures |r.outbox| >= |o.outbox| && r.outbox[..|o.outbox|] == o.outbox
    ensures forall p :: p in r.outbox[|o.outbox|..] <==> p in PushesFor(tokens, userId, title, message, data)
  {
    Db.Outgoing(o.notifications + [Notification(o.nextId, userId, kind, title, message, data, false, now)],
                o.nextId + 1, o.outbox + PushesFor(tokens, userId, title, message, data))
  }

  /**
   * Notification::send at time `now`: one new notification row with the next
   * id, unread, then one push per active token of the recipient.
   */
  method Send(db: Db.Database, userId: int, kind: string, title: string, message: string, data: Value, now: int)
    requires db.Valid()
    modifies db`notifications, db`nextNotificationId, db`outbox
    ensures db.Valid()
    ensures db.notifications == old(db.notifications)
              + [Notification(old(db.nextNotificationId), userId, kind, title, message, data, false, now)]
    ensures db.nextNotificationId == old(db.nextNotificationId) + 1
    ensures db.outbox == old(db.outbox) + PushesFor(db.tokens, userId, title, message, data)
    ensures db.Sent() == AfterSend(old(db.Sent()), db.tokens, userId, kind, title, message, data, now)
  {
    db.AddNotification(Notification(db.nextNotificationId, userId, kind, title, message, data, false, now));

    PushAll(db, db.tokens, userId, title, message, data);
  }

  /** The fetch loop of Notification::send: one sendFCM per active token of the user. */
  method PushAll(db: Db.Database, tokens: seq<DeviceToken>, userId: int, title: string, message: string, data: Value)
    modifies db`outbox
    ensures db.outbox == old(db.outbox) + PushesFor(tokens, userId, title, message, data)
  {
    var i := 0;
    while i < |tokens|
      invariant 0 <= i <= |tokens|
      invariant db.outbox == old(db.outbox) + PushesFor(tokens[..i], userId, title, message, data)
    {
      ghost var sent := PushesFor(tokens[..i], userId, title, message, data);
      PushesForSnoc(tokens[..i], tokens[i], userId, title, message, data);
      assert tokens[..i + 1] == tokens[..i] + [tokens[i]];
      if tokens[i].userId == userId && tokens[i].isActive {
        var push := Push(tokens[i].token, title, message, data);
        assert PushesFor(tokens[..i + 1], userId, title, message, data) == sent + [push];
        db.outbox := db.outbox + [push];
      } else {
        assert PushesFor(tokens[..i + 1], userId, title, message, data) == sent;
      }
      i := i + 1;
    }
    assert tokens[..i] == tokens;
  }
}
