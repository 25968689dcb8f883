/**
 * The rows of the MySQL tables the endpoints read and write. Timestamps are
 * integer seconds on the same clock as `now`; a nullable column is an Option.
 */
module Schema {
  import opened Wrappers
  import opened Php

  /** users: only the columns the modelled endpoints read or write. */
  datatype User = User(
    id: int,
    username: string,
    firstName: string,
    lastName: string,
    bio: string,
    isPrivate: bool)

  /** messages. `messageType` is 'normal' or 'vanish'; `expiresAt` is NULL for normal messages. */
  datatype Message = Message(
    id: int,
    senderId: int,
    receiverId: int,
    content: string,
    mediaUrl: string,
    mediaType: string,
    messageType: string,
    isRead: bool,
    readAt: Option<int>,
    isEdited: bool,
    editedAt: Option<int>,
    isDeleted: bool,
    deletedAt: Option<int>,
    expiresAt: Option<int>,
    createdAt: int)

  /** notifications; `data` is the JSON payload. */
  datatype Notification = Notification(
    id: int,
    userId: int,
    kind: string,
    title: string,
    message: string,
    data: Value,
    isRead: bool,
    createdAt: int)

  /** notification_tokens: one FCM registration of a device. */
  datatype DeviceToken = DeviceToken(userId: int, token: string, deviceType: string, isActive: bool)

  /** followers: `followerId` follows `userId`. */
  datatype Follow = Follow(userId: int, followerId: int, createdAt: int)

  datatype RequestStatus = Pending | Accepted | Rejected

  /** follow_requests: `senderId` asks to follow `receiverId`. */
  datatype FollowRequest = FollowRequest(
    id: int,
    senderId: int,
    receiverId: int,
    status: RequestStatus,
    createdAt: int)

  /** posts. `privacy` is 'public', 'private' or 'followers'. */
  datatype Post = Post(
    id: int,
    userId: int,
    content: string,
    mediaUrl: string,
    mediaType: Option<string>,
    location: Option<string>,
    privacy: string,
    createdAt: int)

  /** post_likes. */
  datatype Like = Like(postId: int, userId: int)

  /** post_comments; `parentId` is set for a reply. */
  datatype Comment = Comment(
    id: int,
    postId: int,
    userId: int,
    content: string,
    parentId: Option<int>,
    createdAt: int)

  /** stories. */
  datatype Story = Story(
    id: int,
    userId: int,
    mediaUrl: string,
    mediaType: string,
    caption: string,
    expiresAt: int,
    createdAt: int)

  /** story_views. */
  datatype StoryView = StoryView(storyId: int, viewerId: int)

  /** call_sessions. `status` runs 'initiated', then 'answered', 'ended', 'missed' or 'declined'. */
  datatype CallSession = CallSession(
    id: int,
    channelName: string,
    callerId: int,
    receiverId: int,
    callType: string,
    status: string,
    startedAt: int,
    endedAt: Option<int>,
    duration: int)

  /** screenshot_alerts: the chat as an ordered pair, and who took the screenshot. */
  datatype ScreenshotAlert = ScreenshotAlert(chatUser1: int, chatUser2: int, screenshotBy: int)

  /** user_sessions: only the owner and the expiry matter here. */
  datatype Session = Session(userId: int, expiresAt: int)

  /** One FCM push that Notification::sendFCM attempted. */
  datatype Push = Push(token: string, title: string, body: string, data: Value)

  // ---------------------------------------------------------------- shared row predicates

  /** A message readers still show: not soft-deleted and not past its expiry. */
  predicate LiveMessage(m: Message, now: int) {
    !m.isDeleted && (m.expiresAt.None? || m.expiresAt.value > now)
  }

  /** A story readers still show: `expires_at > NOW()`. */
  predicate LiveStory(s: Story, now: int) {
    s.expiresAt > now
  }

  /** The message was exchanged between `a` and `b`, in either direction. */
  predicate BetweenPair(m: Message, a: int, b: int) {
    (m.senderId == a && m.receiverId == b) || (m.senderId == b && m.receiverId == a)
  }

  predicate UserExists(users: seq<User>, id: int) {
    exists k :: 0 <= k < |users| && users[k].id == id
  }

  /** `followerId` follows `userId`. */
  predicate IsFollowing(followers: seq<Follow>, userId: int, followerId: int) {
    exists k :: 0 <= k < |followers| && followers[k].userId == userId && followers[k].followerId == followerId
  }

  /** `SELECT id FROM post_likes WHERE post_id = ? AND user_id = ?` finds a row. */
  predicate HasLike(likes: seq<Like>, postId: int, userId: int) {
    exists k :: 0 <= k < |likes| && likes[k].postId == postId && likes[k].userId == userId
  }

  /** `SELECT id FROM story_views WHERE story_id = ? AND viewer_id = ?` finds a row. */
  predicate HasView(views: seq<StoryView>, storyId: int, viewerId: int) {
    exists k :: 0 <= k < |views| && views[k].storyId == storyId && views[k].viewerId == viewerId
  }

  /** A pending request from `senderId` to `receiverId` exists. */
  predicate HasPendingRequest(requests: seq<FollowRequest>, senderId: int, receiverId: int) {
    exists k :: 0 <= k < |requests| && requests[k].senderId == senderId
                && requests[k].receiverId == receiverId && requests[k].status == Pending
  }

  /** The username of the first user row with this id; "" (a null column) when there is none. */
  function UsernameOf(users: seq<User>, id: int): (name: string)
    ensures !UserExists(users, id) ==> name == ""
    ensures UserExists(users, id) ==>
              exists k :: 0 <= k < |users| && users[k].id == id && name == users[k].username
  {
    if users == [] then ""
    else if users[0].id == id then users[0].username
    else
      var name := UsernameOf(users[1..], id);
      assert UserExists(users[1..], id) ==> UserExists(users, id) by {
        if UserExists(users[1..], id) {
          var k :| 0 <= k < |users| - 1 && users[1..][k].id == id;
          assert users[k + 1].id == id;
        }
      }
      name
  }

  /** `SELECT ... FROM messages WHERE id = ? AND is_deleted = 0`: the first such row. */
  function FindMessage(messages: seq<Message>, id: int): (r: Option<nat>)
    ensures r.Some? ==> r.value < |messages| && messages[r.value].id == id && !messages[r.value].isDeleted
    ensures r.None? <==> forall k :: 0 <= k < |messages| ==> !(messages[k].id == id && !messages[k].isDeleted)
  {
    if messages == [] then None
    else if messages[0].id == id && !messages[0].isDeleted then Some(0)
    else
      match FindMessage(messages[1..], id)
      case None => None
      case Some(k) => Some(k + 1)
  }

  /** `SELECT ... FROM users WHERE id = ?`: the first such row. */
  function FindUser(users: seq<User>, id: int): (r: Option<User>)
    ensures r.Some? <==> UserExists(users, id)
    ensures r.Some? ==> r.value in users && r.value.id == id
  {
    if users == [] then None
    else if users[0].id == id then Some(users[0])
    else
      var r := FindUser(users[1..], id);
      assert UserExists(users, id) && users[0].id != id ==> UserExists(users[1..], id) by {
        if UserExists(users, id) && users[0].id != id {
          var k :| 0 <= k < |users| && users[k].id == id;
          assert users[1..][k - 1].id == id;
        }
      }
      assert UserExists(users[1..], id) ==> UserExists(users, id) by {
        if UserExists(users[1..], id) {
          var k :| 0 <= k < |users| - 1 && users[1..][k].id == id;
          assert users[k + 1].id == id;
        }
      }
      assert r.Some? ==> r.value in users[1..];
      r
  }
}
