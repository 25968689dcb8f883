/**
 * The database every endpoint works on: one sequence of rows per table, in
 * insertion order, and the AUTO_INCREMENT counter of each table whose ids the
 * endpoints hand out. The files under uploads/ and the pushes sent to FCM are
 * kept beside the tables, since endpoints change them too.
 *
 * The three cleanup methods are the periodic expiry sweeps of the PHP
 * Database class.
 */
module Db {
  import opened Schema
  import Seqs

  // Key columns, as function values for the uniqueness predicates.
  function UserId(u: User): int { u.id }
  function Username(u: User): string { u.username }
  function MessageId(m: Message): int { m.id }
  function NotificationId(n: Notification): int { n.id }
  function RequestId(r: FollowRequest): int { r.id }
  function PostId(p: Post): int { p.id }
  function CommentId(c: Comment): int { c.id }
  function StoryId(s: Story): int { s.id }
  function CallId(c: CallSession): int { c.id }
  function TokenKey(t: DeviceToken): (int, string) { (t.userId, t.token) }
  function FollowKey(f: Follow): (int, int) { (f.userId, f.followerId) }
  function LikeKey(l: Like): (int, int) { (l.postId, l.userId) }
  function ViewKey(v: StoryView): (int, int) { (v.storyId, v.viewerId) }

  /** An AUTO_INCREMENT table: ids are unique and below the next id to hand out. */
  ghost predicate IdsBelow<T>(rows: seq<T>, id: T -> int, next: int) {
    Seqs.UniqueBy(rows, id) && forall k :: 0 <= k < |rows| ==> id(rows[k]) < next
  }

  /** Inserting a row with the next id keeps the table's ids unique and below the advanced counter. */
  lemma InsertWithNextId<T>(rows: seq<T>, x: T, id: T -> int, next: int)
    requires IdsBelow(rows, id, next) && id(x) == next
    ensures IdsBelow(rows + [x], id, next + 1)
  {
    Seqs.UniqueAppend(rows, x, id);
  }

  /** Deleting rows keeps an AUTO_INCREMENT table well formed. */
  lemma FilterIdsBelow<T>(rows: seq<T>, p: T -> bool, id: T -> int, next: int)
    requires IdsBelow(rows, id, next)
    ensures IdsBelow(Seqs.Filter(rows, p), id, next)
  {
    Seqs.UniqueFilter(rows, p, id);
  }

  /** An UPDATE that leaves ids alone keeps an AUTO_INCREMENT table well formed. */
  lemma UpdateIdsBelow<T>(rows: seq<T>, p: T -> bool, f: T -> T, id: T -> int, next: int)
    requires IdsBelow(rows, id, next)
    requires forall x :: id(f(x)) == id(x)
    ensures IdsBelow(Seqs.UpdateWhere(rows, p, f), id, next)
  {
    Seqs.UniqueUpdate(rows, p, f, id);
  }

  /**
   * The follow graph's invariant: every accepted request has its follower
   * row. Requests are accepted only together with that insert, and unfollow
   * rejects the pair's accepted requests when it deletes the row.
   */
  ghost predicate AcceptedFollowed(requests: seq<FollowRequest>, followers: seq<Follow>) {
    forall k :: 0 <= k < |requests| && requests[k].status == Accepted ==>
      IsFollowing(followers, requests[k].receiverId, requests[k].senderId)
  }

  // ---------------------------------------------------------------- expiry sweeps

  /** DELETE FROM stories WHERE expires_at < NOW(): what remains. */
  function SweepStories(stories: seq<Story>, now: int): (r: seq<Story>)
    ensures forall s :: s in r ==> s in stories && s.expiresAt >= now
    ensures forall s :: s in stories && s.expiresAt >= now ==> s in r
  {
    Seqs.Filter(stories, (s: Story) => !(s.expiresAt < now))
  }

  /** The vanish messages the message sweep removes: expires_at set and in the past. */
  predicate SweptMessage(m: Message, now: int) {
    m.messageType == "vanish" && m.expiresAt.Some? && m.expiresAt.value < now
  }

  /** DELETE FROM messages WHERE message_type = 'vanish' AND expires_at < NOW(): what remains. */
  function SweepMessages(messages: seq<Message>, now: int): (r: seq<Message>)
    ensures forall m :: m in r ==> m in messages && !SweptMessage(m, now)
    ensures forall m :: m in messages && !SweptMessage(m, now) ==> m in r
  {
    Seqs.Filter(messages, (m: Message) => !SweptMessage(m, now))
  }

  /** DELETE FROM user_sessions WHERE expires_at < NOW(): what remains. */
  function SweepSessions(sessions: seq<Session>, now: int): (r: seq<Session>)
    ensures forall s :: s in r ==> s in sessions && s.expiresAt >= now
    ensures forall s :: s in sessions && s.expiresAt >= now ==> s in r
  {
    Seqs.Filter(sessions, (s: Session) => !(s.expiresAt < now))
  }

  /** The message sweep never deletes a normal message, nor a vanish message without an expiry. */
  lemma SweepKeepsNormalMessages(messages: seq<Message>, now: int, m: Message)
    requires m in messages
    requires m.messageType != "vanish" || m.expiresAt.None?
    ensures m in SweepMessages(messages, now)
  {
  }

  /**
   * A vanish message that expires exactly now survives the sweep, yet every
   * reader, which requires expires_at > now, already hides it.
   */
  lemma ExpiryBoundary(messages: seq<Message>, now: int, m: Message)
    requires m in messages && !m.isDeleted && m.expiresAt == Wrappers.Some(now)
    ensures m in SweepMessages(messages, now)
    ensures !LiveMessage(m, now)
  {
  }

  /** Sweeping twice at the same time removes nothing more. */
  lemma SweepStoriesIdempotent(stories: seq<Story>, now: int)
    ensures SweepStories(SweepStories(stories, now), now) == SweepStories(stories, now)
  {
    Seqs.FilterIdempotent(stories, (s: Story) => !(s.expiresAt < now));
  }

  // ---------------------------------------------------------------- the database

  /** The notification side of the database: the table, its next id, and every push attempted so far. */
  datatype Outgoing = Outgoing(notifications: seq<Notification>, nextId: int, outbox: seq<Push>)

  class Database {
    var users: seq<User>
    var messages: seq<Message>
    var notifications: seq<Notification>
    var tokens: seq<DeviceToken>
    var followers: seq<Follow>
    var requests: seq<FollowRequest>
    var posts: seq<Post>
    var likes: seq<Like>
    var comments: seq<Comment>
    var stories: seq<Story>
    var views: seq<StoryView>
    var calls: seq<CallSession>
    var alerts: seq<ScreenshotAlert>
    var sessions: seq<Session>

    /** Paths, relative to the backend directory, of the files that exist. */
    var files: set<string>
    /** Every push attempted through FCM, in order. */
    var outbox: seq<Push>

    var nextMessageId: int
    var nextNotificationId: int
    var nextRequestId: int
    var nextPostId: int
    var nextCommentId: int
    var nextStoryId: int
    var nextCallId: int

    /** The notifications table, its counter and the pushes, taken together. */
    function Sent(): Outgoing
      reads this`notifications, this`nextNotificationId, this`outbox
    {
      Outgoing(notifications, nextNotificationId, outbox)
    }

    /** The keys the schema declares, and the AUTO_INCREMENT counters ahead of every id. */
    ghost predicate Valid()
      reads this
      ensures Valid() ==> forall k :: 0 <= k < |messages| ==> messages[k].id != nextMessageId
      ensures Valid() ==> forall k :: 0 <= k < |notifications| ==> notifications[k].id != nextNotificationId
      ensures Valid() ==> forall k :: 0 <= k < |requests| ==> requests[k].id != nextRequestId
      ensures Valid() ==> forall k :: 0 <= k < |posts| ==> posts[k].id != nextPostId
      ensures Valid() ==> forall k :: 0 <= k < |comments| ==> comments[k].id != nextCommentId
      ensures Valid() ==> forall k :: 0 <= k < |stories| ==> stories[k].id != nextStoryId
      ensures Valid() ==> forall k :: 0 <= k < |calls| ==> calls[k].id != nextCallId
      ensures Valid() ==> forall i, j :: 0 <= i < j < |users| ==> users[i].id != users[j].id
    {
      && ValidUsers() && ValidMessages() && ValidNotifications() && ValidRequests()
      && ValidPosts() && ValidComments() && ValidStories() && ValidCalls()
      && ValidTokens() && ValidFollowers() && ValidLikes() && ValidViews()
      && ValidGraph()
    }

    /** Ids and usernames are both unique. */
    ghost predicate ValidUsers() reads this`users {
      Seqs.UniqueBy(users, UserId) && Seqs.UniqueBy(users, Username)
    }
    ghost predicate ValidMessages() reads this`messages, this`nextMessageId {
      IdsBelow(messages, MessageId, nextMessageId)
    }
    ghost predicate ValidNotifications() reads this`notifications, this`nextNotificationId {
      IdsBelow(notifications, NotificationId, nextNotificationId)
    }
    ghost predicate ValidRequests() reads this`requests, this`nextRequestId {
      IdsBelow(requests, RequestId, nextRequestId)
    }
    ghost predicate ValidPosts() reads this`posts, this`nextPostId {
      IdsBelow(posts, PostId, nextPostId)
    }
    ghost predicate ValidComments() reads this`comments, this`nextCommentId {
      IdsBelow(comments, CommentId, nextCommentId)
    }
    ghost predicate ValidStories() reads this`stories, this`nextStoryId {
      IdsBelow(stories, StoryId, nextStoryId)
    }
    ghost predicate ValidCalls() reads this`calls, this`nextCallId {
      IdsBelow(calls, CallId, nextCallId)
    }
    /** One row per (user, device token). */
    ghost predicate ValidTokens() reads this`tokens {
      Seqs.UniqueBy(tokens, TokenKey)
    }
    /** One row per (followed user, follower). */
    ghost predicate ValidFollowers() reads this`followers {
      Seqs.UniqueBy(followers, FollowKey)
    }
    ghost predicate ValidGraph() reads this`requests, this`followers {
      AcceptedFollowed(requests, followers)
    }
    /** One like per (post, user). */
    ghost predicate ValidLikes() reads this`likes {
      Seqs.UniqueBy(likes, LikeKey)
    }
    /** One view per (story, viewer). */
    ghost predicate ValidViews() reads this`views {
      Seqs.UniqueBy(views, ViewKey)
    }

    /** An empty database; AUTO_INCREMENT starts at 1. */
    constructor ()
      ensures Valid()
      ensures users == [] && messages == [] && notifications == [] && tokens == []
      ensures followers == [] && requests == [] && posts == [] && likes == []
      ensures comments == [] && stories == [] && views == [] && calls == []
      ensures alerts == [] && sessions == [] && files == {} && outbox == []
    {
      users, messages, notifications, tokens := [], [], [], [];
      followers, requests, posts, likes := [], [], [], [];
      comments, stories, views, calls := [], [], [], [];
      alerts, sessions, files, outbox := [], [], {}, [];
      nextMessageId, nextNotificationId, nextRequestId, nextPostId := 1, 1, 1, 1;
      nextCommentId, nextStoryId, nextCallId := 1, 1, 1;
    }

    // ------------------------------------------------------------ INSERTs with AUTO_INCREMENT ids

    /** INSERT INTO messages; the row carries the next id. */
    method AddMessage(m: Message)
      requires Valid() && m.id == nextMessageId
      modifies this`messages, this`nextMessageId
      ensures Valid()
      ensures messages == old(messages) + [m] && nextMessageId == old(nextMessageId) + 1
    {
      InsertWithNextId(messages, m, MessageId, nextMessageId);
      messages, nextMessageId := messages + [m], nextMessageId + 1;
    }

    /** INSERT INTO notifications. */
    method AddNotification(n: Notification)
      requires Valid() && n.id == nextNotificationId
      modifies this`notifications, this`nextNotificationId
      ensures Valid()
      ensures notifications == old(notifications) + [n] && nextNotificationId == old(nextNotificationId) + 1
    {
      InsertWithNextId(notifications, n, NotificationId, nextNotificationId);
      notifications, nextNotificationId := notifications + [n], nextNotificationId + 1;
    }

    /** INSERT INTO follow_requests, pending. */
    method AddRequest(r: FollowRequest)
      requires Valid() && r.id == nextRequestId && r.status == Pending
      modifies this`requests, this`nextRequestId
      ensures Valid()
      ensures requests == old(requests) + [r] && nextRequestId == old(nextRequestId) + 1
    {
      InsertWithNextId(requests, r, RequestId, nextRequestId);
      requests, nextRequestId := requests + [r], nextRequestId + 1;
    }

    /** INSERT INTO posts. */
    method AddPost(p: Post)
      requires Valid() && p.id == nextPostId
      modifies this`posts, this`nextPostId
      ensures Valid()
      ensures posts == old(posts) + [p] && nextPostId == old(nextPostId) + 1
    {
      InsertWithNextId(posts, p, PostId, nextPostId);
      posts, nextPostId := posts + [p], nextPostId + 1;
    }

    /** INSERT INTO post_comments. */
    method AddComment(c: Comment)
      requires Valid() && c.id == nextCommentId
      modifies this`comments, this`nextCommentId
      ensures Valid()
      ensures comments == old(comments) + [c] && nextCommentId == old(nextCommentId) + 1
    {
      InsertWithNextId(comments, c, CommentId, nextCommentId);
      comments, nextCommentId := comments + [c], nextCommentId + 1;
    }

    /** INSERT INTO stories. */
    method AddStory(s: Story)
      requires Valid() && s.id == nextStoryId
      modifies this`stories, this`nextStoryId
      ensures Valid()
      ensures stories == old(stories) + [s] && nextStoryId == old(nextStoryId) + 1
    {
      InsertWithNextId(stories, s, StoryId, nextStoryId);
      stories, nextStoryId := stories + [s], nextStoryId + 1;
    }

    /** INSERT INTO call_sessions. */
    method AddCall(c: CallSession)
      requires Valid() && c.id == nextCallId
      modifies this`calls, this`nextCallId
      ensures Valid()
      ensures calls == old(calls) + [c] && nextCallId == old(nextCallId) + 1
    {
      InsertWithNextId(calls, c, CallId, nextCallId);
      calls, nextCallId := calls + [c], nextCallId + 1;
    }

    /** INSERT INTO post_likes, for a (post, user) pair that has no like yet. */
    method AddLike(l: Like)
      requires Valid() && !HasLike(likes, l.postId, l.userId)
      modifies this`likes
      ensures Valid()
      ensures likes == old(likes) + [l]
    {
      Seqs.UniqueAppend(likes, l, LikeKey);
      likes := likes + [l];
    }

    /** INSERT INTO story_views, for a (story, viewer) pair that has no view yet. */
    method AddView(v: StoryView)
      requires Valid() && forall k :: 0 <= k < |views| ==> ViewKey(views[k]) != ViewKey(v)
      modifies this`views
      ensures Valid()
      ensures views == old(views) + [v]
    {
      Seqs.UniqueAppend(views, v, ViewKey);
      views := views + [v];
    }

    /** INSERT INTO screenshot_alerts. */
    method AddAlert(a: ScreenshotAlert)
      requires Valid()
      modifies this`alerts
      ensures Valid()
      ensures alerts == old(alerts) + [a]
    {
      alerts := alerts + [a];
    }

    // ------------------------------------------------------------ UPDATEs and DELETEs

    /** An UPDATE or DELETE on messages that keeps the ids valid. */
    method SetMessages(ms: seq<Message>)
      requires Valid() && IdsBelow(ms, MessageId, nextMessageId)
      modifies this`messages
      ensures Valid() && messages == ms
    {
      messages := ms;
    }

    /** Writes to followers and follow_requests that keep both keys and the graph invariant. */
    method SetGraph(fs: seq<Follow>, rs: seq<FollowRequest>)
      requires Valid()
      requires Seqs.UniqueBy(fs, FollowKey) && IdsBelow(rs, RequestId, nextRequestId) && AcceptedFollowed(rs, fs)
      modifies this`followers, this`requests
      ensures Valid() && followers == fs && requests == rs
    {
      followers, requests := fs, rs;
    }

    /** An UPDATE on follow_requests alone. */
    method SetRequests(rs: seq<FollowRequest>)
      requires Valid() && IdsBelow(rs, RequestId, nextRequestId) && AcceptedFollowed(rs, followers)
      modifies this`requests
      ensures Valid() && requests == rs
    {
      requests := rs;
    }

    /** An UPDATE on notifications that keeps the ids valid. */
    method SetNotifications(ns: seq<Notification>)
      requires Valid() && IdsBelow(ns, NotificationId, nextNotificationId)
      modifies this`notifications
      ensures Valid() && notifications == ns
    {
      notifications := ns;
    }

    /** An INSERT or UPDATE on notification_tokens that keeps one row per (user, token). */
    method SetTokens(ts: seq<DeviceToken>)
      requires Valid() && Seqs.UniqueBy(ts, TokenKey)
      modifies this`tokens
      ensures Valid() && tokens == ts
    {
      tokens := ts;
    }

    /** A DELETE on post_likes. */
    method SetLikes(ls: seq<Like>)
      requires Valid() && Seqs.UniqueBy(ls, LikeKey)
      modifies this`likes
      ensures Valid() && likes == ls
    {
      likes := ls;
    }

    /** An UPDATE on call_sessions that keeps the ids valid. */
    method SetCalls(cs: seq<CallSession>)
      requires Valid() && IdsBelow(cs, CallId, nextCallId)
      modifies this`calls
      ensures Valid() && calls == cs
    {
      calls := cs;
    }

    /** An UPDATE on users that keeps ids and usernames unique. */
    method SetUsers(us: seq<User>)
      requires Valid() && Seqs.UniqueBy(us, UserId) && Seqs.UniqueBy(us, Username)
      modifies this`users
      ensures Valid() && users == us
    {
      users := us;
    }

    /** cleanupExpiredStories. */
    method CleanupExpiredStories(now: int)
      requires Valid()
      modifies this`stories
      ensures Valid()
      ensures stories == SweepStories(old(stories), now)
    {
      FilterIdsBelow(stories, (s: Story) => !(s.expiresAt < now), StoryId, nextStoryId);
      stories := SweepStories(stories, now);
    }

    /** cleanupExpiredVanishMessages. */
    method CleanupExpiredVanishMessages(now: int)
      requires Valid()
      modifies this`messages
      ensures Valid()
      ensures messages == SweepMessages(old(messages), now)
    {
      FilterIdsBelow(messages, (m: Message) => !SweptMessage(m, now), MessageId, nextMessageId);
      messages := SweepMessages(messages, now);
    }

    /** cleanupExpiredSessions. */
    method CleanupExpiredSessions(now: int)
      requires Valid()
      modifies this`sessions
      ensures Valid()
      ensures sessions == SweepSessions(old(sessions), now)
    {
      sessions := SweepSessions(sessions, now);
    }

    /** cleanupExpiredData: the three sweeps in turn. */
    method CleanupExpiredData(now: int)
      requires Valid()
      modifies this`stories, this`messages, this`sessions
      ensures Valid()
      ensures stories == SweepStories(old(stories), now)
      ensures messages == SweepMessages(old(messages), now)
      ensures sessions == SweepSessions(old(sessions), now)
    {
      CleanupExpiredStories(now);
      CleanupExpiredVanishMessages(now);
      CleanupExpiredSessions(now);
    }
  }
}
