/**
 * POST api/like_post.php: a like toggle. An existing like of the caller on
 * the post is deleted, otherwise one is inserted; a new like on someone
 * else's post notifies its owner.
 */
module LikePost {
  import opened Wrappers
  import opened Php
  import opened Http
  import opened Schema
  import Db
  import Seqs
  import Notify

  /** `SELECT user_id FROM posts WHERE id = ?`: the first row with this id. */
  function FindPost(posts: seq<Post>, id: int): (r: Option<nat>)
    ensures r.Some? ==> r.value < |posts| && posts[r.value].id == id
    ensures r.None? <==> forall k :: 0 <= k < |posts| ==> posts[k].id != id
  {
    Seqs.Find(posts, (p: Post) => p.id == id)
  }

  /** The post to toggle: `post_id` present and the post on file. */
  function Check(posts: seq<Post>, input: Value): (r: Checked<nat>)
    ensures (Empty(input) || !Isset(input, "post_id")) ==> r == Reject(400, "Post ID required")
    ensures r.Reject? && r.code == 404 <==>
              !Empty(input) && Isset(input, "post_id") && FindPost(posts, ToInt(Get(input, "post_id"))).None?
    ensures r.Reject? && r.code == 404 ==> r.error == "Post not found"
    ensures r.Pass? <==>
              !Empty(input) && Isset(input, "post_id") && FindPost(posts, ToInt(Get(input, "post_id"))).Some?
    ensures r.Pass? ==> r.value == FindPost(posts, ToInt(Get(input, "post_id"))).value
    ensures r.Pass? ==> r.value < |posts| && posts[r.value].id == ToInt(Get(input, "post_id"))
  {
    if Empty(input) || !Isset(input, "post_id") then Reject(400, "Post ID required")
    else match FindPost(posts, ToInt(Get(input, "post_id")))
      case None => Reject(404, "Post not found")
      case Some(k) => Pass(k)
  }

  predicate LikeOf(l: Like, postId: int, userId: int) {
    l.postId == postId && l.userId == userId
  }

  /** The like table after the toggle: the DELETE when the pair has a like, the INSERT otherwise. */
  function Toggle(likes: seq<Like>, postId: int, userId: int): (r: seq<Like>)
    ensures HasLike(likes, postId, userId) ==> forall l :: l in r <==> l in likes && !LikeOf(l, postId, userId)
    ensures !HasLike(likes, postId, userId) ==> r == likes + [Like(postId, userId)]
  {
    if HasLike(likes, postId, userId) then Seqs.Filter(likes, (l: Like) => !LikeOf(l, postId, userId))
    else likes + [Like(postId, userId)]
  }

  /** `SELECT likes_count FROM posts`: the number of like rows of the post. */
  function LikesCount(likes: seq<Like>, postId: int): nat {
    Seqs.Count(likes, (l: Like) => l.postId == postId)
  }

  /**
   * The toggle flips the caller's like on this post and no other (post, user)
   * pair: `is_liked` in the answer is the negation of the state before.
   */
  lemma ToggleFlips(likes: seq<Like>, postId: int, userId: int, p: int, u: int)
    ensures HasLike(Toggle(likes, postId, userId), postId, userId) == !HasLike(likes, postId, userId)
    ensures (p, u) != (postId, userId) ==> HasLike(Toggle(likes, p, u), postId, userId) == HasLike(likes, postId, userId)
  {
    var r := Toggle(likes, postId, userId);
    if HasLike(r, postId, userId) {
      var k :| 0 <= k < |r| && r[k].postId == postId && r[k].userId == userId;
      assert r[k] in r;
    }
    if !HasLike(likes, postId, userId) {
      assert r[|likes|] == Like(postId, userId);
    }
    var r2 := Toggle(likes, p, u);
    if (p, u) != (postId, userId) {
      if HasLike(likes, postId, userId) {
        var k :| 0 <= k < |likes| && likes[k].postId == postId && likes[k].userId == userId;
        assert likes[k] in r2;
        var j :| 0 <= j < |r2| && r2[j] == likes[k];
      }
      if HasLike(r2, postId, userId) {
        var k :| 0 <= k < |r2| && r2[k].postId == postId && r2[k].userId == userId;
        assert r2[k] in r2;
        if HasLike(likes, p, u) {
          var j :| 0 <= j < |likes| && likes[j] == r2[k];
        } else if k < |likes| {
          assert likes[k] == r2[k];
        }
      }
    }
  }

  /** Liking then unliking gives the like table back. */
  lemma {:induction false} LikeThenUnlike(likes: seq<Like>, postId: int, userId: int)
    requires !HasLike(likes, postId, userId)
    ensures Toggle(Toggle(likes, postId, userId), postId, userId) == likes
  {
    var added := likes + [Like(postId, userId)];
    assert added[|likes|] == Like(postId, userId);
    var p := (l: Like) => !LikeOf(l, postId, userId);
    Seqs.FilterAppend(likes, [Like(postId, userId)], p);
    forall l | l in likes
      ensures p(l)
    {
      var k :| 0 <= k < |likes| && likes[k] == l;
    }
    Seqs.FilterAll(likes, p);
    assert Seqs.Filter([Like(postId, userId)], p) == [];
  }

  /** The answer: what was done, the new state and the post's like count. */
  datatype LikeState = LikeState(action: string, isLiked: bool, likesCount: int)

  function LikeData(postId: int, userId: int): Value {
    VMap(map["post_id" := VInt(postId), "user_id" := VInt(userId)])
  }

  /** The endpoint. */
  method ToggleLike(db: Db.Database, caller: int, input: Value, now: int) returns (resp: Response<LikeState>)
    requires db.Valid()
    modifies db`likes, db`notifications, db`nextNotificationId, db`outbox
    ensures db.Valid()
    ensures resp.Success? <==>
              !Empty(input) && Isset(input, "post_id") && FindPost(db.posts, ToInt(Get(input, "post_id"))).Some?
    ensures Check(db.posts, input).Reject? ==>
              && resp == Failure(Check(db.posts, input).code, Check(db.posts, input).error)
              && db.likes == old(db.likes) && db.Sent() == old(db.Sent())
    ensures Check(db.posts, input).Pass? ==>
              var post := db.posts[Check(db.posts, input).value];
              var wasLiked := HasLike(old(db.likes), post.id, caller);
              var action := if wasLiked then "unliked" else "liked";
              && db.likes == Toggle(old(db.likes), post.id, caller)
              && db.Sent() == (if !wasLiked && post.userId != caller then
                                 Notify.AfterSend(old(db.Sent()), db.tokens, post.userId, "like", "New Like",
                                                  UsernameOf(db.users, caller) + " liked your post",
                                                  LikeData(post.id, caller), now)
                               else old(db.Sent()))
              && resp == Success(LikeState(action, !wasLiked, LikesCount(db.likes, post.id)),
                                 "Post " + action + " successfully")
  {
    var checked := Check(db.posts, input);
    if checked.Reject? {
      return Failure(checked.code, checked.error);
    }
    var post := db.posts[checked.value];
    var wasLiked := HasLike(db.likes, post.id, caller);
    var action;
    if wasLiked {
      Seqs.UniqueFilter(db.likes, (l: Like) => !LikeOf(l, post.id, caller), Db.LikeKey);
      db.SetLikes(Toggle(db.likes, post.id, caller));
      action := "unliked";
    } else {
      db.AddLike(Like(post.id, caller));
      action := "liked";
      if post.userId != caller {
        Notify.Send(db, post.userId, "like", "New Like", UsernameOf(db.users, caller) + " liked your post",
                    LikeData(post.id, caller), now);
      }
    }
    resp := Success(LikeState(action, !wasLiked, LikesCount(db.likes, post.id)), "Post " + action + " successfully");
  }
}
