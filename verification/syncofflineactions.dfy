/**
 * sync_offline_actions.php: the client replays a batch of actions it queued
 * while offline. Each action runs in a transaction of its own through one
 * process* handler; the answer lists one result per action and a summary.
 *
 * The handlers are specified by pure step functions on the tables a batch can
 * write (`Tables`); the methods that change the database are proved against
 * them, and the properties of a batch are lemmas about `Run`.
 */
module SyncOfflineActions {
  import opened Wrappers
  import opened Php
  import opened Schema
  import opened Http
  import Config
  import Db
  import Seqs

  /** The tables a batch writes, with their AUTO_INCREMENT counters; followers are only read. */
  datatype Tables = Tables(
    messages: seq<Message>, nextMessageId: int,
    posts: seq<Post>, nextPostId: int,
    likes: seq<Like>,
    comments: seq<Comment>, nextCommentId: int,
    followers: seq<Follow>,
    requests: seq<FollowRequest>, nextRequestId: int,
    stories: seq<Story>, nextStoryId: int)

  function TablesOf(db: Db.Database): Tables
    reads db
  {
    Tables(db.messages, db.nextMessageId, db.posts, db.nextPostId, db.likes,
           db.comments, db.nextCommentId, db.followers, db.requests, db.nextRequestId,
           db.stories, db.nextStoryId)
  }

  /** The number of rows in the tables a batch inserts into. */
  function Size(t: Tables): nat {
    |t.messages| + |t.posts| + |t.likes| + |t.comments| + |t.requests| + |t.stories|
  }

  /** What a process* handler leaves in `$resultData` on success, or in `$error` on failure. */
  datatype Outcome = Done(data: Value) | Error(error: string)

  /** One entry of `results`. */
  datatype ActionResult =
    | Succeeded(clientId: Value, data: Value)
    | Failed(clientId: Value, error: string)

  datatype Summary = Summary(totalActions: int, successful: int, failed: int)

  datatype SyncAnswer = SyncAnswer(results: seq<ActionResult>, summary: Summary)

  // ---------------------------------------------------------------- the handlers, as steps

  /** processSendMessage: receiver_id set, content or media present; message_type is stored unchecked. */
  function SendMessageStep(t: Tables, userId: int, data: Value, now: int): (r: (Tables, Outcome))
    ensures r.1.Error? ==> r.0 == t
    ensures r.1.Done? ==> Size(r.0) == Size(t) + 1
    ensures r.1.Done? <==>
              Isset(data, "receiver_id")
              && !(Empty(Coalesce(data, "content", VStr(""))) && Empty(Coalesce(data, "media_url", VStr(""))))
    ensures !Isset(data, "receiver_id") ==> r.1 == Error("Missing field: receiver_id")
    ensures Isset(data, "receiver_id") && r.1.Error? ==> r.1 == Error("Message must have content or media")
    ensures r.1.Done? ==>
              && r.0 == t.(messages := t.messages + [Message(t.nextMessageId, userId, ToInt(Get(data, "receiver_id")),
                             ToStr(Coalesce(data, "content", VStr(""))), ToStr(Coalesce(data, "media_url", VStr(""))),
                             "text", ToStr(Coalesce(data, "message_type", VStr("normal"))), false, None, false, None,
                             false, None, None, now)],
                           nextMessageId := t.nextMessageId + 1)
              && r.1.data == VMap(map["message_id" := VInt(t.nextMessageId)])
  {
    if !Isset(data, "receiver_id") then (t, Error("Missing field: receiver_id"))
    else
      var content := Coalesce(data, "content", VStr(""));
      var mediaUrl := Coalesce(data, "media_url", VStr(""));
      var messageType := Coalesce(data, "message_type", VStr("normal"));
      if Empty(content) && Empty(mediaUrl) then (t, Error("Message must have content or media"))
      else
        var m := Message(t.nextMessageId, userId, ToInt(Get(data, "receiver_id")), ToStr(content),
                         ToStr(mediaUrl), "text", ToStr(messageType), false, None, false, None,
                         false, None, None, now);
        (t.(messages := t.messages + [m], nextMessageId := t.nextMessageId + 1),
         Done(VMap(map["message_id" := VInt(m.id)])))
  }

  /** processCreatePost: content or media present; the other columns take their defaults. */
  function CreatePostStep(t: Tables, userId: int, data: Value, now: int): (r: (Tables, Outcome))
    ensures r.1.Error? ==> r.0 == t
    ensures r.1.Done? ==> Size(r.0) == Size(t) + 1
    ensures r.1.Done? <==> !(Empty(Coalesce(data, "content", VStr(""))) && Empty(Coalesce(data, "media_url", VStr(""))))
    ensures r.1.Error? ==> r.1 == Error("Post must have content or media")
    ensures r.1.Done? ==>
              && r.0 == t.(posts := t.posts + [Post(t.nextPostId, userId, ToStr(Coalesce(data, "content", VStr(""))),
                                                    ToStr(Coalesce(data, "media_url", VStr(""))), None, None,
                                                    "public", now)],
                           nextPostId := t.nextPostId + 1)
              && r.1.data == VMap(map["post_id" := VInt(t.nextPostId)])
  {
    var content := Coalesce(data, "content", VStr(""));
    var mediaUrl := Coalesce(data, "media_url", VStr(""));
    if Empty(content) && Empty(mediaUrl) then (t, Error("Post must have content or media"))
    else
      var p := Post(t.nextPostId, userId, ToStr(content), ToStr(mediaUrl), None, None, "public", now);
      (t.(posts := t.posts + [p], nextPostId := t.nextPostId + 1),
       Done(VMap(map["post_id" := VInt(p.id)])))
  }

  /** processLikePost: post_id set and not yet liked by the user; no result data. */
  function LikePostStep(t: Tables, userId: int, data: Value): (r: (Tables, Outcome))
    ensures r.1.Error? ==> r.0 == t
    ensures r.1.Done? ==> Size(r.0) == Size(t) + 1
    ensures r.1.Done? <==> Isset(data, "post_id") && !HasLike(t.likes, ToInt(Get(data, "post_id")), userId)
    ensures !Isset(data, "post_id") ==> r.1 == Error("Post ID required")
    ensures Isset(data, "post_id") && r.1.Error? ==> r.1 == Error("Post already liked")
    ensures r.1.Done? ==>
              r.0 == t.(likes := t.likes + [Like(ToInt(Get(data, "post_id")), userId)]) && r.1.data == VList([])
  {
    if !Isset(data, "post_id") then (t, Error("Post ID required"))
    else
      var postId := ToInt(Get(data, "post_id"));
      if HasLike(t.likes, postId, userId) then (t, Error("Post already liked"))
      else (t.(likes := t.likes + [Like(postId, userId)]), Done(VList([])))
  }

  /** processCommentPost: post_id and content both set and non-empty, checked in that order. */
  function CommentPostStep(t: Tables, userId: int, data: Value, now: int): (r: (Tables, Outcome))
    ensures r.1.Error? ==> r.0 == t
    ensures r.1.Done? ==> Size(r.0) == Size(t) + 1
    ensures r.1.Done? <==> !Empty(Get(data, "post_id")) && !Empty(Get(data, "content"))
    ensures Empty(Get(data, "post_id")) ==> r.1 == Error("Missing field: post_id")
    ensures !Empty(Get(data, "post_id")) && r.1.Error? ==> r.1 == Error("Missing field: content")
    ensures r.1.Done? ==>
              && r.0 == t.(comments := t.comments + [Comment(t.nextCommentId, ToInt(Get(data, "post_id")), userId,
                                                            ToStr(Get(data, "content")), None, now)],
                           nextCommentId := t.nextCommentId + 1)
              && r.1.data == VMap(map["comment_id" := VInt(t.nextCommentId)])
  {
    if Empty(Get(data, "post_id")) then (t, Error("Missing field: post_id"))
    else if Empty(Get(data, "content")) then (t, Error("Missing field: content"))
    else
      var c := Comment(t.nextCommentId, ToInt(Get(data, "post_id")), userId, ToStr(Get(data, "content")),
                       None, now);
      (t.(comments := t.comments + [c], nextCommentId := t.nextCommentId + 1),
       Done(VMap(map["comment_id" := VInt(c.id)])))
  }

  /** processFollowUser: user_id set; refused when already following or a pending request exists. */
  function FollowUserStep(t: Tables, userId: int, data: Value, now: int): (r: (Tables, Outcome))
    ensures r.1.Error? ==> r.0 == t
    ensures r.1.Done? ==> Size(r.0) == Size(t) + 1
    ensures r.1.Done? <==>
              Isset(data, "user_id")
              && !IsFollowing(t.followers, ToInt(Get(data, "user_id")), userId)
              && !HasPendingRequest(t.requests, userId, ToInt(Get(data, "user_id")))
    ensures !Isset(data, "user_id") ==> r.1 == Error("User ID required")
    ensures Isset(data, "user_id") && r.1.Error? ==> r.1 == Error("Already following or request exists")
    ensures r.1.Done? ==>
              && r.0 == t.(requests := t.requests + [FollowRequest(t.nextRequestId, userId, ToInt(Get(data, "user_id")),
                                                                   Pending, now)],
                           nextRequestId := t.nextRequestId + 1)
              && r.1.data == VList([])
  {
    if !Isset(data, "user_id") then (t, Error("User ID required"))
    else
      var target := ToInt(Get(data, "user_id"));
      if IsFollowing(t.followers, target, userId) || HasPendingRequest(t.requests, userId, target) then
        (t, Error("Already following or request exists"))
      else
        var r := FollowRequest(t.nextRequestId, userId, target, Pending, now);
        (t.(requests := t.requests + [r], nextRequestId := t.nextRequestId + 1), Done(VList([])))
  }

  /** processUploadStory: media_url and media_type set; the story expires STORY_EXPIRY_TIME from now. */
  function UploadStoryStep(t: Tables, userId: int, data: Value, now: int): (r: (Tables, Outcome))
    ensures r.1.Error? ==> r.0 == t
    ensures r.1.Done? ==> Size(r.0) == Size(t) + 1
    ensures r.1.Done? <==> Isset(data, "media_url") && Isset(data, "media_type")
    ensures !Isset(data, "media_url") ==> r.1 == Error("Missing field: media_url")
    ensures Isset(data, "media_url") && r.1.Error? ==> r.1 == Error("Missing field: media_type")
    ensures r.1.Done? ==>
              && r.0 == t.(stories := t.stories + [Story(t.nextStoryId, userId, ToStr(Get(data, "media_url")),
                                                          ToStr(Get(data, "media_type")),
                                                          ToStr(Coalesce(data, "caption", VStr(""))),
                                                          now + Config.STORY_EXPIRY_TIME, now)],
                           nextStoryId := t.nextStoryId + 1)
              && r.1.data == VMap(map["story_id" := VInt(t.nextStoryId)])
  {
    if !Isset(data, "media_url") then (t, Error("Missing field: media_url"))
    else if !Isset(data, "media_type") then (t, Error("Missing field: media_type"))
    else
      var s := Story(t.nextStoryId, userId, ToStr(Get(data, "media_url")), ToStr(Get(data, "media_type")),
                     ToStr(Coalesce(data, "caption", VStr(""))), now + Config.STORY_EXPIRY_TIME, now);
      (t.(stories := t.stories + [s], nextStoryId := t.nextStoryId + 1),
       Done(VMap(map["story_id" := VInt(s.id)])))
  }

  /**
   * The case label `switch ($actionType)` selects. The comparison is loose, so
   * `true` equals the first label; any other non-string matches no label.
   */
  function ActionName(actionType: Value): (name: string)
    ensures actionType.VStr? ==> name == actionType.s
    ensures actionType == VBool(true) ==> HandlerOf(name) == Some(SendMessage)
    ensures !actionType.VStr? && actionType != VBool(true) ==> HandlerOf(name).None?
  {
    if actionType == VBool(true) then "send_message"
    else if actionType.VStr? then actionType.s
    else ""
  }

  function ClientId(action: Value): Value {
    Coalesce(action, "client_id", VNull)
  }

  /** The six handlers of the switch. */
  datatype Handler = SendMessage | CreatePost | LikePost | CommentPost | FollowUser | UploadStory

  /** The case label that names a handler, if any. */
  function HandlerOf(name: string): (h: Option<Handler>)
    ensures h.None? <==>
              name !in ["send_message", "create_post", "like_post", "comment_post", "follow_user", "upload_story"]
  {
    if name == "send_message" then Some(SendMessage)
    else if name == "create_post" then Some(CreatePost)
    else if name == "like_post" then Some(LikePost)
    else if name == "comment_post" then Some(CommentPost)
    else if name == "follow_user" then Some(FollowUser)
    else if name == "upload_story" then Some(UploadStory)
    else None
  }

  /** The handler the action's type selects; an unknown type fails without a write. */
  function Dispatch(t: Tables, userId: int, handler: Option<Handler>, data: Value, now: int): (r: (Tables, Outcome))
    ensures r.1.Error? ==> r.0 == t
    ensures r.1.Done? ==> Size(r.0) == Size(t) + 1
  {
    match handler
    case Some(SendMessage) => SendMessageStep(t, userId, data, now)
    case Some(CreatePost) => CreatePostStep(t, userId, data, now)
    case Some(LikePost) => LikePostStep(t, userId, data)
    case Some(CommentPost) => CommentPostStep(t, userId, data, now)
    case Some(FollowUser) => FollowUserStep(t, userId, data, now)
    case Some(UploadStory) => UploadStoryStep(t, userId, data, now)
    case None => (t, Error("Unsupported action type"))
  }

  /** Both fields present and non-empty; a missing one falls back to an empty default. */
  predicate WellFormed(action: Value)
    ensures WellFormed(action) ==>
              && Isset(action, "action_type") && !Empty(Get(action, "action_type"))
              && Isset(action, "data") && !Empty(Get(action, "data"))
  {
    !Empty(Coalesce(action, "action_type", VStr(""))) && !Empty(Coalesce(action, "data", VList([])))
  }

  /** One iteration of the foreach: the tables after the action, committed or rolled back, and its result. */
  function Step(t: Tables, userId: int, action: Value, now: int): (r: (Tables, ActionResult))
    ensures r.1.Failed? ==> r.0 == t
    ensures r.1.Succeeded? ==> Size(r.0) == Size(t) + 1
    ensures r.1.clientId == ClientId(action)
  {
    var clientId := ClientId(action);
    if !WellFormed(action) then (t, Failed(clientId, "Invalid action format"))
    else
      var r := Dispatch(t, userId, HandlerOf(ActionName(Get(action, "action_type"))), Get(action, "data"), now);
      match r.1
      case Done(data) => (r.0, Succeeded(clientId, data))
      case Error(error) => (t, Failed(clientId, error))
  }

  /** The foreach over a batch: the actions in order, each seeing the writes of those before it. */
  function Run(t: Tables, userId: int, actions: seq<Value>, now: int): (r: (Tables, seq<ActionResult>))
    ensures |r.1| == |actions|
    ensures forall k :: 0 <= k < |actions| ==> r.1[k].clientId == ClientId(actions[k])
    decreases |actions|
  {
    if actions == [] then (t, [])
    else
      var before := Run(t, userId, actions[..|actions| - 1], now);
      var last := Step(before.0, userId, actions[|actions| - 1], now);
      assert forall k :: 0 <= k < |actions| - 1 ==> actions[..|actions| - 1][k] == actions[k];
      (last.0, before.1 + [last.1])
  }

  /** One more iteration of the foreach runs the next action on the tables the earlier ones left. */
  lemma RunSnoc(t: Tables, userId: int, actions: seq<Value>, i: nat, now: int)
    requires i < |actions|
    ensures var before := Run(t, userId, actions[..i], now);
            var last := Step(before.0, userId, actions[i], now);
            Run(t, userId, actions[..i + 1], now) == (last.0, before.1 + [last.1])
  {
    assert actions[..i + 1][..i] == actions[..i];
  }

  function Successes(results: seq<ActionResult>): nat {
    Seqs.Count(results, (r: ActionResult) => r.Succeeded?)
  }

  /** The summary block: total, successful, and failed as their difference. */
  function Summarize(results: seq<ActionResult>): (s: Summary)
    ensures s.totalActions == |results|
    ensures 0 <= s.failed && s.successful + s.failed == s.totalActions
    ensures s.failed == Seqs.Count(results, (r: ActionResult) => r.Failed?)
  {
    CountSplit(results);
    Summary(|results|, Successes(results), |results| - Successes(results))
  }

  /** Every result is either a success or a failure, so the two counts add up. */
  lemma {:induction false} CountSplit(results: seq<ActionResult>)
    ensures Successes(results) + Seqs.Count(results, (r: ActionResult) => r.Failed?) == |results|
  {
    if results != [] {
      CountSplit(results[1..]);
    }
  }

  function SummaryMessage(s: Summary): string {
    "Processed " + IntToString(s.successful) + " out of " + IntToString(s.totalActions) + " actions"
  }

  /** `!$input || !isset($input['actions']) || !is_array($input['actions'])` rejects the batch. */
  predicate BatchAccepted(input: Value)
    ensures BatchAccepted(input) <==> !Empty(input) && Isset(input, "actions") && IsArray(Get(input, "actions"))
  {
    !Empty(input) && IsArray(Get(input, "actions"))
  }

  // ---------------------------------------------------------------- properties of a batch

  /** A batch inserts exactly as many rows as it reports successes. */
  lemma {:induction false} RunInsertsOneRowPerSuccess(t: Tables, userId: int, actions: seq<Value>, now: int)
    ensures Size(Run(t, userId, actions, now).0) == Size(t) + Successes(Run(t, userId, actions, now).1)
    decreases |actions|
  {
    if actions != [] {
      var before := Run(t, userId, actions[..|actions| - 1], now);
      RunInsertsOneRowPerSuccess(t, userId, actions[..|actions| - 1], now);
      var last := Step(before.0, userId, actions[|actions| - 1], now);
      Seqs.FilterAppend(before.1, [last.1], (r: ActionResult) => r.Succeeded?);
    }
  }

  /** "Invalid action format" is given exactly to the actions whose type or data is empty. */
  lemma InvalidFormat(t: Tables, userId: int, action: Value, now: int)
    ensures Step(t, userId, action, now).1 == Failed(ClientId(action), "Invalid action format")
        <==> !WellFormed(action)
  {
  }

  /** A well-formed action whose type names no handler fails with "Unsupported action type" and writes nothing. */
  lemma UnsupportedType(t: Tables, userId: int, action: Value, now: int)
    requires WellFormed(action)
    requires HandlerOf(ActionName(Get(action, "action_type"))).None?
    ensures Step(t, userId, action, now) == (t, Failed(ClientId(action), "Unsupported action type"))
  {
  }

  /**
   * A message sent offline is stored as the caller's, to the given receiver,
   * with message_id its new id; no check refuses sending to oneself, and even a
   * vanish message gets no expiry, so the expiry sweep never removes it.
   */
  lemma OfflineMessage(t: Tables, userId: int, data: Value, now: int, sweepTime: int)
    requires SendMessageStep(t, userId, data, now).1.Done?
    ensures var (t2, o) := SendMessageStep(t, userId, data, now);
      && |t2.messages| == |t.messages| + 1
      && var m := t2.messages[|t.messages|];
      && m.id == t.nextMessageId && Get(o.data, "message_id") == VInt(m.id)
      && m.senderId == userId && m.receiverId == ToInt(Get(data, "receiver_id"))
      && m.expiresAt.None?
      && m in Db.SweepMessages(t2.messages, sweepTime)
  {
    var m := SendMessageStep(t, userId, data, now).0.messages[|t.messages|];
    Db.SweepKeepsNormalMessages(SendMessageStep(t, userId, data, now).0.messages, sweepTime, m);
  }

  /** The same like replayed twice: the second fails with "Post already liked". */
  lemma LikeTwice(t: Tables, userId: int, action: Value, now: int)
    requires HandlerOf(ActionName(Get(action, "action_type"))) == Some(LikePost)
    requires Step(t, userId, action, now).1.Succeeded?
    ensures Step(Step(t, userId, action, now).0, userId, action, now).1
         == Failed(ClientId(action), "Post already liked")
  {
    var t2 := Step(t, userId, action, now).0;
    assert t2.likes[|t2.likes| - 1].postId == ToInt(Get(Get(action, "data"), "post_id"));
  }

  /** The same follow replayed twice: the first request is pending, so the second is refused. */
  lemma FollowTwice(t: Tables, userId: int, action: Value, now: int)
    requires HandlerOf(ActionName(Get(action, "action_type"))) == Some(FollowUser)
    requires Step(t, userId, action, now).1.Succeeded?
    ensures Step(Step(t, userId, action, now).0, userId, action, now).1
         == Failed(ClientId(action), "Already following or request exists")
  {
    var t2 := Step(t, userId, action, now).0;
    assert t2.requests[|t2.requests| - 1].status == Pending;
  }

  /**
   * Only a pending request blocks a new one: after a rejection the same pair
   * gets a second follow_requests row.
   */
  lemma FollowAfterRejection(t: Tables, userId: int, target: int, now: int)
    requires !IsFollowing(t.followers, target, userId) && !HasPendingRequest(t.requests, userId, target)
    ensures var t2 := FollowUserStep(t, userId, VMap(map["user_id" := VInt(target)]), now).0;
      t2.requests == t.requests + [FollowRequest(t.nextRequestId, userId, target, Pending, now)]
  {
  }

  /** An offline story expires STORY_EXPIRY_TIME after the upload, and any media type is accepted. */
  lemma OfflineStory(t: Tables, userId: int, data: Value, now: int)
    requires Isset(data, "media_url") && Isset(data, "media_type")
    ensures var t2 := UploadStoryStep(t, userId, data, now).0;
      && t2.stories == t.stories + [t2.stories[|t.stories|]]
      && t2.stories[|t.stories|].expiresAt == now + Config.STORY_EXPIRY_TIME
      && t2.stories[|t.stories|].mediaType == ToStr(Get(data, "media_type"))
  {
  }

  // ---------------------------------------------------------------- the handlers, on the database

  method ProcessSendMessage(db: Db.Database, userId: int, data: Value, now: int) returns (o: Outcome)
    requires db.Valid()
    modifies db`messages, db`nextMessageId
    ensures db.Valid()
    ensures (TablesOf(db), o) == SendMessageStep(old(TablesOf(db)), userId, data, now)
  {
    if !Isset(data, "receiver_id") {
      return Error("Missing field: receiver_id");
    }
    var content := Coalesce(data, "content", VStr(""));
    var mediaUrl := Coalesce(data, "media_url", VStr(""));
    var messageType := Coalesce(data, "message_type", VStr("normal"));
    if Empty(content) && Empty(mediaUrl) {
      return Error("Message must have content or media");
    }
    var m := Message(db.nextMessageId, userId, ToInt(Get(data, "receiver_id")), ToStr(content),
                     ToStr(mediaUrl), "text", ToStr(messageType), false, None, false, None,
                     false, None, None, now);
    db.AddMessage(m);
    o := Done(VMap(map["message_id" := VInt(m.id)]));
  }

  method ProcessCreatePost(db: Db.Database, userId: int, data: Value, now: int) returns (o: Outcome)
    requires db.Valid()
    modifies db`posts, db`nextPostId
    ensures db.Valid()
    ensures (TablesOf(db), o) == CreatePostStep(old(TablesOf(db)), userId, data, now)
  {
    var content := Coalesce(data, "content", VStr(""));
    var mediaUrl := Coalesce(data, "media_url", VStr(""));
    if Empty(content) && Empty(mediaUrl) {
      return Error("Post must have content or media");
    }
    var p := Post(db.nextPostId, userId, ToStr(content), ToStr(mediaUrl), None, None, "public", now);
    db.AddPost(p);
    o := Done(VMap(map["post_id" := VInt(p.id)]));
  }

  method ProcessLikePost(db: Db.Database, userId: int, data: Value) returns (o: Outcome)
    requires db.Valid()
    modifies db`likes
    ensures db.Valid()
    ensures (TablesOf(db), o) == LikePostStep(old(TablesOf(db)), userId, data)
  {
    if !Isset(data, "post_id") {
      return Error("Post ID required");
    }
    var postId := ToInt(Get(data, "post_id"));
    if HasLike(db.likes, postId, userId) {
      return Error("Post already liked");
    }
    db.AddLike(Like(postId, userId));
    o := Done(VList([]));
  }

  method ProcessCommentPost(db: Db.Database, userId: int, data: Value, now: int) returns (o: Outcome)
    requires db.Valid()
    modifies db`comments, db`nextCommentId
    ensures db.Valid()
    ensures (TablesOf(db), o) == CommentPostStep(old(TablesOf(db)), userId, data, now)
  {
    if Empty(Get(data, "post_id")) {
      return Error("Missing field: post_id");
    }
    if Empty(Get(data, "content")) {
      return Error("Missing field: content");
    }
    var c := Comment(db.nextCommentId, ToInt(Get(data, "post_id")), userId, ToStr(Get(data, "content")),
                     None, now);
    db.AddComment(c);
    o := Done(VMap(map["comment_id" := VInt(c.id)]));
  }

  method ProcessFollowUser(db: Db.Database, userId: int, data: Value, now: int) returns (o: Outcome)
    requires db.Valid()
    modifies db`requests, db`nextRequestId
    ensures db.Valid()
    ensures (TablesOf(db), o) == FollowUserStep(old(TablesOf(db)), userId, data, now)
  {
    if !Isset(data, "user_id") {
      return Error("User ID required");
    }
    var target := ToInt(Get(data, "user_id"));
    if IsFollowing(db.followers, target, userId) || HasPendingRequest(db.requests, userId, target) {
      return Error("Already following or request exists");
    }
    db.AddRequest(FollowRequest(db.nextRequestId, userId, target, Pending, now));
    o := Done(VList([]));
  }

  method ProcessUploadStory(db: Db.Database, userId: int, data: Value, now: int) returns (o: Outcome)
    requires db.Valid()
    modifies db`stories, db`nextStoryId
    ensures db.Valid()
    ensures (TablesOf(db), o) == UploadStoryStep(old(TablesOf(db)), userId, data, now)
  {
    if !Isset(data, "media_url") {
      return Error("Missing field: media_url");
    }
    if !Isset(data, "media_type") {
      return Error("Missing field: media_type");
    }
    var s := Story(db.nextStoryId, userId, ToStr(Get(data, "media_url")), ToStr(Get(data, "media_type")),
                   ToStr(Coalesce(data, "caption", VStr(""))), now + Config.STORY_EXPIRY_TIME, now);
    db.AddStory(s);
    o := Done(VMap(map["story_id" := VInt(s.id)]));
  }

  /** The switch on the action type: the handler it selects, or the unsupported-type error. */
  method ProcessHandler(db: Db.Database, userId: int, handler: Option<Handler>, data: Value, now: int)
    returns (o: Outcome)
    requires db.Valid()
    modifies db`messages, db`nextMessageId, db`posts, db`nextPostId, db`likes, db`comments,
             db`nextCommentId, db`requests, db`nextRequestId, db`stories, db`nextStoryId
    ensures db.Valid()
    ensures (TablesOf(db), o) == Dispatch(old(TablesOf(db)), userId, handler, data, now)
  {
    match handler {
      case Some(SendMessage) => o := ProcessSendMessage(db, userId, data, now);
      case Some(CreatePost) => o := ProcessCreatePost(db, userId, data, now);
      case Some(LikePost) => o := ProcessLikePost(db, userId, data);
      case Some(CommentPost) => o := ProcessCommentPost(db, userId, data, now);
      case Some(FollowUser) => o := ProcessFollowUser(db, userId, data, now);
      case Some(UploadStory) => o := ProcessUploadStory(db, userId, data, now);
      case None => o := Error("Unsupported action type");
    }
  }

  /** One action: validate its shape, run the handler its type selects, and record the result. */
  method ProcessAction(db: Db.Database, userId: int, action: Value, now: int) returns (r: ActionResult)
    requires db.Valid()
    modifies db`messages, db`nextMessageId, db`posts, db`nextPostId, db`likes, db`comments,
             db`nextCommentId, db`requests, db`nextRequestId, db`stories, db`nextStoryId
    ensures db.Valid()
    ensures (TablesOf(db), r) == Step(old(TablesOf(db)), userId, action, now)
  {
    var clientId := Coalesce(action, "client_id", VNull);
    if !WellFormed(action) {
      return Failed(clientId, "Invalid action format");
    }
    ghost var t0 := TablesOf(db);
    var o := ProcessHandler(db, userId, HandlerOf(ActionName(Get(action, "action_type"))), Get(action, "data"), now);
    ghost var d := Dispatch(t0, userId, HandlerOf(ActionName(Get(action, "action_type"))), Get(action, "data"), now);
    assert Step(t0, userId, action, now) == (if d.1.Done? then (d.0, Succeeded(clientId, d.1.data))
                                             else (t0, Failed(clientId, d.1.error)));
    match o {
      case Done(d) => r := Succeeded(clientId, d);
      case Error(e) => r := Failed(clientId, e);
    }
  }

  /** The endpoint: reject a batch that is not an array, else run every action and summarise. */
  method Sync(db: Db.Database, userId: int, input: Value, now: int) returns (resp: Response<SyncAnswer>)
    requires db.Valid()
    modifies db`messages, db`nextMessageId, db`posts, db`nextPostId, db`likes, db`comments,
             db`nextCommentId, db`requests, db`nextRequestId, db`stories, db`nextStoryId
    ensures db.Valid()
    ensures !BatchAccepted(input) ==>
              resp == Failure(400, "Actions array required") && TablesOf(db) == old(TablesOf(db))
    ensures BatchAccepted(input) ==>
              var run := Run(old(TablesOf(db)), userId, Elements(Get(input, "actions")), now);
              && TablesOf(db) == run.0
              && resp == Success(SyncAnswer(run.1, Summarize(run.1)), SummaryMessage(Summarize(run.1)))
  {
    if !BatchAccepted(input) {
      return Failure(400, "Actions array required");
    }
    var actions := Elements(Get(input, "actions"));
    ghost var t0 := TablesOf(db);
    var results := [];
    var i := 0;
    while i < |actions|
      invariant 0 <= i <= |actions|
      invariant db.Valid()
      invariant (TablesOf(db), results) == Run(t0, userId, actions[..i], now)
    {
      ghost var before := TablesOf(db);
      var r := ProcessAction(db, userId, actions[i], now);
      RunSnoc(t0, userId, actions, i, now);
      assert (TablesOf(db), r) == Step(before, userId, actions[i], now);
      results := results + [r];
      i := i + 1;
    }
    assert actions[..i] == actions;
    var summary := Summary(|results|, Successes(results), |results| - Successes(results));
    resp := Success(SyncAnswer(results, summary), SummaryMessage(summary));
  }
}
