/**
 * POST api/comment_post.php: a comment, or a reply to a comment on the same
 * post; the post's owner is notified unless they wrote it themselves.
 */
module CommentPost {
  import opened Wrappers
  import opened Php
  import opened Http
  import opened Schema
  import Db
  import Seqs
  import Notify
  import LikePost

  /** The comment as the input describes it. */
  datatype Draft = Draft(postIndex: nat, content: string, parentId: Option<int>)

  /** `isset($input['parent_id']) ? (int)$input['parent_id'] : null`. */
  function ParentField(input: Value): Option<int> {
    if Isset(input, "parent_id") then Some(ToInt(Get(input, "parent_id"))) else None
  }

  /** `SELECT user_id FROM post_comments WHERE id = ? AND post_id = ?` finds a row. */
  predicate HasComment(comments: seq<Comment>, id: int, postId: int) {
    exists k :: 0 <= k < |comments| && comments[k].id == id && comments[k].postId == postId
  }

  /** The checks, in order; `if ($parentId)` skips the parent check for a missing or zero parent. */
  function Check(posts: seq<Post>, comments: seq<Comment>, input: Value): (r: Checked<Draft>)
    ensures (Empty(input) || !Isset(input, "post_id") || !Isset(input, "content")) ==>
              r == Reject(400, "Post ID and content required")
    ensures !Empty(input) && Isset(input, "post_id") && Isset(input, "content")
            && EmptyString(TrimField(input, "content"))
            ==> r == Reject(400, "Comment content cannot be empty")
    ensures !Empty(input) && Isset(input, "post_id") && Isset(input, "content")
            && !EmptyString(TrimField(input, "content")) && StrLen(TrimField(input, "content")) > 1000
            ==> r == Reject(400, "Comment is too long (max 1000 characters)")
    ensures !Empty(input) && Isset(input, "post_id") && Isset(input, "content")
            && !EmptyString(TrimField(input, "content")) && StrLen(TrimField(input, "content")) <= 1000
            && LikePost.FindPost(posts, ToInt(Get(input, "post_id"))).None?
            ==> r == Reject(404, "Post not found")
    ensures !Empty(input) && Isset(input, "post_id") && Isset(input, "content")
            && !EmptyString(TrimField(input, "content")) && StrLen(TrimField(input, "content")) <= 1000
            && LikePost.FindPost(posts, ToInt(Get(input, "post_id"))).Some?
            && ParentField(input).Some? && ParentField(input).value != 0
            && !HasComment(comments, ParentField(input).value, ToInt(Get(input, "post_id")))
            ==> r == Reject(404, "Parent comment not found")
    ensures r.Reject? && r.code == 404 ==> r.error in {"Post not found", "Parent comment not found"}
    ensures r.Pass? <==>
              && !Empty(input) && Isset(input, "post_id") && Isset(input, "content")
              && !EmptyString(TrimField(input, "content")) && StrLen(TrimField(input, "content")) <= 1000
              && LikePost.FindPost(posts, ToInt(Get(input, "post_id"))).Some?
              && (ParentField(input).Some? && ParentField(input).value != 0 ==>
                    HasComment(comments, ParentField(input).value, ToInt(Get(input, "post_id"))))
    ensures r.Pass? ==>
              && r.value.postIndex < |posts| && posts[r.value.postIndex].id == ToInt(Get(input, "post_id"))
              && r.value.content == TrimField(input, "content")
              && r.value.parentId == ParentField(input)
  {
    if Empty(input) || !Isset(input, "post_id") || !Isset(input, "content") then
      Reject(400, "Post ID and content required")
    else
      var postId := ToInt(Get(input, "post_id"));
      var content := TrimField(input, "content");
      var parentId := ParentField(input);
      if EmptyString(content) then Reject(400, "Comment content cannot be empty")
      else if StrLen(content) > 1000 then Reject(400, "Comment is too long (max 1000 characters)")
      else match LikePost.FindPost(posts, postId)
        case None => Reject(404, "Post not found")
        case Some(k) =>
          if parentId.Some? && parentId.value != 0 && !HasComment(comments, parentId.value, postId) then
            Reject(404, "Parent comment not found")
          else Pass(Draft(k, content, parentId))
  }

  /** A reply with a real parent always answers a comment on the same post. */
  lemma ReplyOnSamePost(posts: seq<Post>, comments: seq<Comment>, input: Value)
    requires Check(posts, comments, input).Pass?
    requires Check(posts, comments, input).value.parentId.Some?
    requires Check(posts, comments, input).value.parentId.value != 0
    ensures exists c :: c in comments && c.id == Check(posts, comments, input).value.parentId.value
                        && c.postId == posts[Check(posts, comments, input).value.postIndex].id
  {
    var d := Check(posts, comments, input).value;
    var k :| 0 <= k < |comments| && comments[k].id == d.parentId.value && comments[k].postId == posts[d.postIndex].id;
    assert comments[k] in comments;
  }

  /** The answer: the new row, not liked by anyone yet. */
  datatype NewComment = NewComment(comment: Comment, isLiked: bool)

  function CommentData(postId: int, commentId: int, userId: int): Value {
    VMap(map["post_id" := VInt(postId), "comment_id" := VInt(commentId), "user_id" := VInt(userId)])
  }

  /** The text of the owner's notification. */
  function CommentBody(users: seq<User>, caller: int): string {
    UsernameOf(users, caller) + " commented on your post"
  }

  /** The writes once the checks pass: the comment row, then the owner's notification unless it is the caller. */
  method Insert(db: Db.Database, caller: int, d: Draft, now: int) returns (resp: Response<NewComment>)
    requires db.Valid() && d.postIndex < |db.posts|
    modifies db`comments, db`nextCommentId, db`notifications, db`nextNotificationId, db`outbox
    ensures db.Valid()
    ensures var post := db.posts[d.postIndex];
            var c := Schema.Comment(old(db.nextCommentId), post.id, caller, d.content, d.parentId, now);
            && db.comments == old(db.comments) + [c] && db.nextCommentId == old(db.nextCommentId) + 1
            && db.Sent() == (if post.userId != caller then
                              Notify.AfterSend(old(db.Sent()), db.tokens, post.userId, "comment", "New Comment",
                                               CommentBody(db.users, caller), CommentData(post.id, c.id, caller), now)
                            else old(db.Sent()))
            && resp == Success(NewComment(c, false), "Comment added successfully")
  {
    var post := db.posts[d.postIndex];
    var c := Schema.Comment(db.nextCommentId, post.id, caller, d.content, d.parentId, now);
    db.AddComment(c);
    if post.userId != caller {
      Notify.Send(db, post.userId, "comment", "New Comment", CommentBody(db.users, caller),
                  CommentData(post.id, c.id, caller), now);
    }
    resp := Success(NewComment(c, false), "Comment added successfully");
  }

  /** The endpoint: the checks, then one INSERT INTO post_comments and the owner's notification. */
  method Submit(db: Db.Database, caller: int, input: Value, now: int) returns (resp: Response<NewComment>)
    requires db.Valid()
    modifies db`comments, db`nextCommentId, db`notifications, db`nextNotificationId, db`outbox
    ensures db.Valid()
    ensures Check(db.posts, old(db.comments), input).Reject? ==>
              && resp == Failure(Check(db.posts, old(db.comments), input).code,
                                 Check(db.posts, old(db.comments), input).error)
              && db.comments == old(db.comments) && db.nextCommentId == old(db.nextCommentId)
              && db.Sent() == old(db.Sent())
    ensures Check(db.posts, old(db.comments), input).Pass? ==>
              var d := Check(db.posts, old(db.comments), input).value;
              var post := db.posts[d.postIndex];
              var c := Schema.Comment(old(db.nextCommentId), post.id, caller, d.content, d.parentId, now);
              && db.comments == old(db.comments) + [c] && db.nextCommentId == old(db.nextCommentId) + 1
              && db.Sent() == (if post.userId != caller then
                                Notify.AfterSend(old(db.Sent()), db.tokens, post.userId, "comment", "New Comment",
                                                 CommentBody(db.users, caller), CommentData(post.id, c.id, caller), now)
                              else old(db.Sent()))
              && resp == Success(NewComment(c, false), "Comment added successfully")
  {
    var checked := Check(db.posts, db.comments, input);
    if checked.Reject? {
      return Failure(checked.code, checked.error);
    }
    resp := Insert(db, caller, checked.value, now);
  }
}
