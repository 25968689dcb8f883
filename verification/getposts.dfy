/**
 * GET api/get_posts.php: one user's posts, or the feed (the viewer's own
 * posts and those of followed users), newest first, a page at a time,
 * restricted to the posts the viewer may see.
 */
module GetPosts {
  import opened Wrappers
  import opened Php
  import opened Http
  import opened Schema
  import Seqs

  /** The privacy filter: public posts for everyone; followers-only posts for the author and followers; private posts for the author. */
  predicate Visible(p: Post, viewer: Option<int>, followers: seq<Follow>)
    ensures Visible(p, viewer, followers) ==> p.privacy in ["public", "followers", "private"]
    ensures p.privacy == "public" ==> Visible(p, viewer, followers)
    ensures viewer.None? ==> (Visible(p, viewer, followers) <==> p.privacy == "public")
    ensures Visible(p, viewer, followers) && p.privacy != "public" ==> viewer.Some?
    ensures p.privacy == "private" && Visible(p, viewer, followers) ==> viewer == Some(p.userId)
  {
    match viewer
    case None => p.privacy == "public"
    case Some(v) =>
      || p.privacy == "public"
      || (p.privacy == "followers" && (p.userId == v || IsFollowing(followers, p.userId, v)))
      || (p.privacy == "private" && p.userId == v)
  }

  /** Anonymous viewers see public posts only, and a logged-in viewer sees at least those. */
  lemma VisibilityLevels(p: Post, v: int, followers: seq<Follow>)
    ensures Visible(p, None, followers) <==> p.privacy == "public"
    ensures Visible(p, None, followers) ==> Visible(p, Some(v), followers)
    ensures p.privacy in ["public", "private", "followers"] ==> Visible(p, Some(p.userId), followers)
    ensures p.privacy == "private" && v != p.userId ==> !Visible(p, Some(v), followers)
    ensures p.privacy == "followers" && v != p.userId ==> (Visible(p, Some(v), followers) <==> IsFollowing(followers, p.userId, v))
  {
  }

  /** `$userId = $_GET['user_id'] ?? null; if ($userId)`: a truthy user_id selects one author. */
  predicate ForAuthor(query: Value) {
    Isset(query, "user_id") && ToBool(Get(query, "user_id"))
  }

  /** The author and feed conditions: the chosen author, or for a logged-in feed own and followed authors. */
  predicate Selected(p: Post, query: Value, viewer: Option<int>, followers: seq<Follow>) {
    if ForAuthor(query) then p.userId == ToInt(Get(query, "user_id"))
    else viewer.Some? ==> p.userId == viewer.value || IsFollowing(followers, p.userId, viewer.value)
  }

  /** The whole WHERE clause. */
  predicate Listed(p: Post, query: Value, viewer: Option<int>, followers: seq<Follow>) {
    Selected(p, query, viewer, followers) && Visible(p, viewer, followers)
  }

  /**
   * The early exit for one author: a logged-in viewer other than the author,
   * the author on file, private, and not followed by the viewer.
   */
  predicate Hidden(users: seq<User>, followers: seq<Follow>, query: Value, viewer: Option<int>)
    ensures viewer.None? || !ForAuthor(query) ==> !Hidden(users, followers, query, viewer)
    ensures Hidden(users, followers, query, viewer) ==>
              var author := ToInt(Get(query, "user_id"));
              && author != viewer.value && !IsFollowing(followers, author, viewer.value)
              && exists u :: u in users && u.id == author && u.isPrivate
  {
    && ForAuthor(query) && viewer.Some? && viewer.value != ToInt(Get(query, "user_id"))
    && FindUser(users, ToInt(Get(query, "user_id"))).Some?
    && FindUser(users, ToInt(Get(query, "user_id"))).value.isPrivate
    && !IsFollowing(followers, ToInt(Get(query, "user_id")), viewer.value)
  }

  datatype PostItem = PostItem(post: Post, isLiked: bool)

  function CreatedAt(p: Post): int {
    p.createdAt
  }

  function Item(p: Post, likes: seq<Like>, viewer: Option<int>): PostItem {
    PostItem(p, viewer.Some? && HasLike(likes, p.id, viewer.value))
  }

  /** The listed posts whose author row survives the JOIN, in table order. */
  function JoinedRows(users: seq<User>, posts: seq<Post>, followers: seq<Follow>, viewer: Option<int>, query: Value)
    : (r: seq<Post>)
    ensures forall p :: p in r <==> p in posts && Listed(p, query, viewer, followers) && UserExists(users, p.userId)
  {
    Seqs.Filter(posts, (p: Post) => Listed(p, query, viewer, followers) && UserExists(users, p.userId))
  }

  /** The answer: an empty page for a hidden author, otherwise one page of listed posts joined to their authors. */
  function List(users: seq<User>, posts: seq<Post>, likes: seq<Like>, followers: seq<Follow>, viewer: Option<int>,
                query: Value): (r: Paged<PostItem>)
    ensures Hidden(users, followers, query, viewer) ==> r.items == [] && r.pagination.totalItems == 0
    ensures !Hidden(users, followers, query, viewer) ==>
              r.pagination.totalItems == Seqs.Count(posts, (p: Post) => Listed(p, query, viewer, followers))
    ensures !Hidden(users, followers, query, viewer) ==>
              var joined := JoinedRows(users, posts, followers, viewer, query);
              var offset := Offset(PageParam(query), LimitParam(query));
              && |r.items| == Seqs.Min(LimitParam(query), |joined| - Seqs.Min(offset, |joined|))
              && forall k :: 0 <= k < |r.items| ==>
                   r.items[k] == Item(Seqs.SortDesc(joined, CreatedAt)[offset + k], likes, viewer)
    ensures |r.items| <= LimitParam(query)
    ensures forall x :: x in r.items ==>
              && x.post in posts && Listed(x.post, query, viewer, followers) && UserExists(users, x.post.userId)
              && (x.isLiked <==> viewer.Some? && HasLike(likes, x.post.id, viewer.value))
    ensures forall i, j :: 0 <= i < j < |r.items| ==> r.items[i].post.createdAt >= r.items[j].post.createdAt
    ensures r.pagination.currentPage == PageParam(query) && r.pagination.perPage == LimitParam(query)
  {
    var page := PageParam(query);
    var limit := LimitParam(query);
    if Hidden(users, followers, query, viewer) then Paginate([], 0, page, limit)
    else
      var joined := JoinedRows(users, posts, followers, viewer, query);
      Paginate(Shown(joined, likes, viewer, Offset(page, limit), limit),
               Seqs.Count(posts, (p: Post) => Listed(p, query, viewer, followers)), page, limit)
  }

  /** One page of the joined rows, newest first, each marked liked or not. */
  function Shown(joined: seq<Post>, likes: seq<Like>, viewer: Option<int>, offset: nat, limit: nat)
    : (items: seq<PostItem>)
    ensures |items| == Seqs.Min(limit, |joined| - Seqs.Min(offset, |joined|))
    ensures forall k :: 0 <= k < |items| ==> items[k] == Item(Seqs.SortDesc(joined, CreatedAt)[offset + k], likes, viewer)
    ensures forall x :: x in items ==> x.post in joined && x == Item(x.post, likes, viewer)
    ensures forall i, j :: 0 <= i < j < |items| ==> items[i].post.createdAt >= items[j].post.createdAt
  {
    var rows := Seqs.PageDesc(joined, CreatedAt, offset, limit);
    var items := Seqs.Map(rows, (p: Post) => Item(p, likes, viewer));
    forall x | x in items
      ensures x.post in joined && x == Item(x.post, likes, viewer)
    {
      var i :| 0 <= i < |items| && items[i] == x;
      assert rows[i] in rows;
    }
    forall i, j | 0 <= i < j < |items| ensures items[i].post.createdAt >= items[j].post.createdAt {
      assert items[i].post == rows[i] && items[j].post == rows[j];
    }
    items
  }

  /**
   * The private-account check runs only for a logged-in viewer: an anonymous
   * caller asking for a private user's posts is shown that user's public
   * posts, while a logged-in stranger gets an empty page.
   */
  lemma AnonymousSeesPrivateAccountsPublicPosts()
    ensures var u := User(2, "noor", "", "", "", true);
            var p := Post(5, 2, "hello", "", None, None, "public", 100);
            var q := VMap(map["user_id" := VInt(2)]);
            && PostItem(p, false) in List([u], [p], [], [], None, q).items
            && List([u], [p], [], [], Some(3), q).items == []
  {
    var u := User(2, "noor", "", "", "", true);
    var p := Post(5, 2, "hello", "", None, None, "public", 100);
    var q := VMap(map["user_id" := VInt(2)]);
    assert Get(q, "user_id") == VInt(2);
    assert UserExists([u], 2) by { assert [u][0].id == 2; }
    assert !Isset(q, "page") && PageParam(q) == 1;
    assert ForAuthor(q) && Listed(p, q, None, []);
    AnonymousPage(u, p, q);
    assert FindUser([u], 2) == Some(u);
    assert Hidden([u], [], q, Some(3));
  }

  /** The anonymous caller's page for the one-post example holds that post. */
  lemma AnonymousPage(u: User, p: Post, q: Value)
    requires Get(q, "user_id") == VInt(p.userId) && PageParam(q) == 1 && UserExists([u], p.userId)
    requires Listed(p, q, None, [])
    ensures PostItem(p, false) in List([u], [p], [], [], None, q).items
  {
    var joined := JoinedRows([u], [p], [], None, q);
    assert p in joined;
    assert Offset(1, LimitParam(q)) == 0;
    var items := List([u], [p], [], [], None, q).items;
    assert |items| >= 1;
    var sorted := Seqs.SortDesc(joined, CreatedAt);
    assert sorted[0] in multiset(joined);
    assert items[0] == PostItem(p, false);
  }
}
