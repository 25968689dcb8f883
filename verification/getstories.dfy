/**
 * GET api/get_stories.php: either the live stories of one user, newest
 * first, or the story feed: one group per user with stories, carrying the
 * number of stories, how many of them the viewer has not seen and the time
 * of the latest, the most recent group first.
 */
module GetStories {
  import opened Wrappers
  import opened Php
  import opened Schema
  import Seqs

  // ---------------------------------------------------------------- one user's stories

  /** `$userId = $_GET['user_id'] ?? null; if ($userId)`: a truthy user_id selects the per-user list. */
  predicate PerUser(query: Value) {
    Isset(query, "user_id") && ToBool(Get(query, "user_id"))
  }

  /** One story of the list; `is_viewed` is only ever true for a logged-in viewer. */
  datatype StoryItem = StoryItem(story: Story, isViewed: bool)

  function CreatedAt(s: Story): int {
    s.createdAt
  }

  /** The WHERE clause and the JOIN: the user's stories that have not expired and whose author has a user row. */
  predicate Listed(s: Story, userId: int, users: seq<User>, now: int) {
    s.userId == userId && LiveStory(s, now) && UserExists(users, s.userId)
  }

  function Item(s: Story, views: seq<StoryView>, viewer: Option<int>): StoryItem {
    StoryItem(s, viewer.Some? && HasView(views, s.id, viewer.value))
  }

  /** The rows the per-user WHERE clause selects, in table order. */
  function ListedStories(users: seq<User>, stories: seq<Story>, userId: int, now: int): (r: seq<Story>)
    ensures forall s :: s in r <==> s in stories && Listed(s, userId, users, now)
  {
    Seqs.Filter(stories, (s: Story) => Listed(s, userId, users, now))
  }

  /** The list for `userId`: live stories only, newest first, each marked viewed or not. */
  function StoriesOf(users: seq<User>, stories: seq<Story>, views: seq<StoryView>, userId: int, viewer: Option<int>,
                     now: int): (r: seq<StoryItem>)
    ensures |r| == |ListedStories(users, stories, userId, now)|
    ensures forall k :: 0 <= k < |r| ==>
              r[k] == Item(Seqs.SortDesc(ListedStories(users, stories, userId, now), CreatedAt)[k], views, viewer)
    ensures forall x :: x in r ==> x.story in stories && Listed(x.story, userId, users, now)
                                   && (x.isViewed <==> viewer.Some? && HasView(views, x.story.id, viewer.value))
    ensures forall s :: s in stories && Listed(s, userId, users, now) ==> Item(s, views, viewer) in r
    ensures forall i, j :: 0 <= i < j < |r| ==> r[i].story.createdAt >= r[j].story.createdAt
  {
    StoriesOfItems(users, stories, views, userId, viewer, now);
    Marked(Seqs.SortDesc(ListedStories(users, stories, userId, now), CreatedAt), views, viewer)
  }

  /** Each story of the list with its `is_viewed` flag. */
  function Marked(sorted: seq<Story>, views: seq<StoryView>, viewer: Option<int>): (r: seq<StoryItem>)
    ensures |r| == |sorted|
    ensures forall k :: 0 <= k < |r| ==> r[k] == Item(sorted[k], views, viewer)
  {
    Seqs.Map(sorted, (s: Story) => Item(s, views, viewer))
  }

  /** The marked list holds exactly the selected stories, newest first. */
  lemma StoriesOfItems(users: seq<User>, stories: seq<Story>, views: seq<StoryView>, userId: int, viewer: Option<int>,
                       now: int)
    ensures var listed := ListedStories(users, stories, userId, now);
            var r := Marked(Seqs.SortDesc(listed, CreatedAt), views, viewer);
            && |r| == |listed|
            && (forall x :: x in r ==> x.story in stories && Listed(x.story, userId, users, now))
            && (forall s :: s in stories && Listed(s, userId, users, now) ==> Item(s, views, viewer) in r)
  {
    var listed := ListedStories(users, stories, userId, now);
    var sorted := Seqs.SortDesc(listed, CreatedAt);
    var r := Marked(sorted, views, viewer);
    assert |sorted| == |listed| by { assert |multiset(sorted)| == |multiset(listed)|; }
    forall x | x in r
      ensures x.story in stories && Listed(x.story, userId, users, now)
    {
      var i :| 0 <= i < |r| && r[i] == x;
      assert sorted[i] in multiset(listed);
    }
    forall s | s in stories && Listed(s, userId, users, now)
      ensures Item(s, views, viewer) in r
    {
      assert s in listed;
      assert s in multiset(sorted);
      var i :| 0 <= i < |sorted| && sorted[i] == s;
      assert r[i] == Item(s, views, viewer);
    }
  }

  // ---------------------------------------------------------------- the feed

  /** One row of the GROUP BY: a user and the aggregates over that user's stories. */
  datatype StoryGroup = StoryGroup(user: User, storyCount: nat, unviewedCount: nat, latestStory: int,
                                   hasUnviewed: bool)

  /** MAX(created_at) of a non-empty group. */
  function LatestOf(ss: seq<Story>): (m: int)
    requires ss != []
    ensures exists k :: 0 <= k < |ss| && ss[k].createdAt == m
    ensures forall k :: 0 <= k < |ss| ==> ss[k].createdAt <= m
  {
    if |ss| == 1 then ss[0].createdAt
    else
      var rest := LatestOf(ss[1..]);
      assert forall k :: 1 <= k < |ss| ==> ss[k] == ss[1..][k - 1];
      if ss[0].createdAt >= rest then ss[0].createdAt else rest
  }

  /** The feed's stories by `u`. */
  function Own(u: User, inFeed: Story -> bool): Story -> bool {
    (s: Story) => s.userId == u.id && inFeed(s)
  }

  /** The feed's stories by `u` that the LEFT JOIN finds no view row for. */
  function OwnUnviewed(u: User, inFeed: Story -> bool, viewed: Story -> bool): Story -> bool {
    (s: Story) => s.userId == u.id && inFeed(s) && !viewed(s)
  }

  /**
   * The group of `u`, if the feed holds any of its stories: `inFeed` is the
   * WHERE clause, `viewed` says whether the LEFT JOIN finds a view row.
   */
  function GroupOf(u: User, stories: seq<Story>, inFeed: Story -> bool, viewed: Story -> bool): (r: Option<StoryGroup>)
    ensures r.Some? <==> Seqs.Count(stories, Own(u, inFeed)) > 0
    ensures r.Some? ==>
              && r.value.user == u
              && r.value.storyCount == Seqs.Count(stories, Own(u, inFeed))
              && r.value.unviewedCount == Seqs.Count(stories, OwnUnviewed(u, inFeed, viewed))
              && r.value.unviewedCount <= r.value.storyCount
              && (r.value.hasUnviewed <==> r.value.unviewedCount > 0)
  {
    var own := Seqs.Filter(stories, Own(u, inFeed));
    if own == [] then None
    else
      var unviewed := Seqs.Count(stories, OwnUnviewed(u, inFeed, viewed));
      UnviewedAtMost(stories, u, inFeed, viewed);
      Some(StoryGroup(u, |own|, unviewed, LatestOf(own), unviewed > 0))
  }

  /** `latest_story` is the creation time of the group's newest story. */
  lemma GroupLatest(u: User, stories: seq<Story>, inFeed: Story -> bool, viewed: Story -> bool)
    requires GroupOf(u, stories, inFeed, viewed).Some?
    ensures var g := GroupOf(u, stories, inFeed, viewed).value;
            && (exists s :: s in stories && Own(u, inFeed)(s) && s.createdAt == g.latestStory)
            && (forall s :: s in stories && Own(u, inFeed)(s) ==> s.createdAt <= g.latestStory)
  {
    var own := Seqs.Filter(stories, Own(u, inFeed));
    var latest := LatestOf(own);
    forall s | s in stories && Own(u, inFeed)(s)
      ensures s.createdAt <= latest
    {
      var k :| 0 <= k < |own| && own[k] == s;
    }
    var k :| 0 <= k < |own| && own[k].createdAt == latest;
    assert own[k] in own;
  }

  lemma {:induction false} UnviewedAtMost(stories: seq<Story>, u: User, inFeed: Story -> bool, viewed: Story -> bool)
    ensures Seqs.Count(stories, OwnUnviewed(u, inFeed, viewed)) <= Seqs.Count(stories, Own(u, inFeed))
  {
    if stories != [] {
      UnviewedAtMost(stories[1..], u, inFeed, viewed);
    }
  }

  /** The groups in user-table order, one per user with a story in the feed. */
  function Groups(users: seq<User>, stories: seq<Story>, inFeed: Story -> bool, viewed: Story -> bool)
    : (r: seq<StoryGroup>)
    ensures forall g :: g in r ==> g.user in users && GroupOf(g.user, stories, inFeed, viewed) == Some(g)
    ensures forall u :: u in users && GroupOf(u, stories, inFeed, viewed).Some? ==>
              GroupOf(u, stories, inFeed, viewed).value in r
  {
    if users == [] then []
    else
      var rest := Groups(users[1..], stories, inFeed, viewed);
      assert forall u :: u in users[1..] ==> u in users;
      assert forall u :: u in users ==> u == users[0] || u in users[1..];
      match GroupOf(users[0], stories, inFeed, viewed)
      case None => rest
      case Some(g) => [g] + rest
  }

  function Latest(g: StoryGroup): int {
    g.latestStory
  }

  /** ORDER BY latest_story DESC over the groups. */
  function Ordered(groups: seq<StoryGroup>): (r: seq<StoryGroup>)
    ensures multiset(r) == multiset(groups)
    ensures forall i, j :: 0 <= i < j < |r| ==> r[i].latestStory >= r[j].latestStory
  {
    Seqs.SortDescOrdered(groups, Latest);
    Seqs.SortBy(groups, Seqs.Desc(Latest))
  }

  /** A logged-in viewer's WHERE clause: own stories and stories of followed users, not expired. */
  predicate InViewerFeed(s: Story, viewer: int, followers: seq<Follow>, now: int) {
    (s.userId == viewer || IsFollowing(followers, s.userId, viewer)) && LiveStory(s, now)
  }

  /**
   * The feed as written. For an anonymous viewer the WHERE clause is empty, so
   * `AND s.expires_at > NOW()` becomes part of the LEFT JOIN's ON clause: it
   * no longer filters stories, it only stops view rows from joining. Every
   * story, expired or not, is counted, and (with no view by user 0) counted
   * as unviewed.
   */
  function FeedAsWritten(users: seq<User>, stories: seq<Story>, views: seq<StoryView>, followers: seq<Follow>,
                         viewer: Option<int>, now: int): (r: seq<StoryGroup>)
    ensures multiset(r) == multiset(Groups(users, stories, WrittenStory(viewer, followers, now),
                                           WrittenViewed(views, viewer, now)))
    ensures forall i, j :: 0 <= i < j < |r| ==> r[i].latestStory >= r[j].latestStory
    ensures viewer.Some? ==> r == Feed(users, stories, views, followers, viewer, now)
  {
    Ordered(Groups(users, stories, WrittenStory(viewer, followers, now), WrittenViewed(views, viewer, now)))
  }

  /** The WHERE clause as written: the logged-in viewer's feed, or no filter at all. */
  function WrittenStory(viewer: Option<int>, followers: seq<Follow>, now: int): Story -> bool {
    if viewer.Some? then FeedStory(viewer, followers, now) else (s: Story) => true
  }

  /** The LEFT JOIN as written: for an anonymous viewer the expiry test only stops view rows from joining. */
  function WrittenViewed(views: seq<StoryView>, viewer: Option<int>, now: int): Story -> bool {
    if viewer.Some? then ViewedBy(views, viewer) else (s: Story) => HasView(views, s.id, 0) && LiveStory(s, now)
  }

  /** The feed the query evidently means: for an anonymous viewer too, only stories that have not expired. */
  function Feed(users: seq<User>, stories: seq<Story>, views: seq<StoryView>, followers: seq<Follow>,
                viewer: Option<int>, now: int): (r: seq<StoryGroup>)
    ensures multiset(r) == multiset(Groups(users, stories, FeedStory(viewer, followers, now), ViewedBy(views, viewer)))
    ensures forall i, j :: 0 <= i < j < |r| ==> r[i].latestStory >= r[j].latestStory
    ensures forall g :: g in r ==> g.user in users && g.storyCount >= 1 && g.unviewedCount <= g.storyCount
                                    && (g.hasUnviewed <==> g.unviewedCount > 0)
  {
    var groups := Groups(users, stories, FeedStory(viewer, followers, now), ViewedBy(views, viewer));
    var r := Ordered(groups);
    forall g | g in r
      ensures g in groups
    {
      assert g in multiset(groups);
    }
    r
  }

  /** The corrected WHERE clause: the logged-in viewer's feed, or every live story. */
  function FeedStory(viewer: Option<int>, followers: seq<Follow>, now: int): Story -> bool {
    (s: Story) => if viewer.Some? then InViewerFeed(s, viewer.value, followers, now) else LiveStory(s, now)
  }

  /** The LEFT JOIN on the viewer's views; an anonymous viewer is user 0. */
  function ViewedBy(views: seq<StoryView>, viewer: Option<int>): Story -> bool {
    (s: Story) => HasView(views, s.id, if viewer.Some? then viewer.value else 0)
  }

  /** Every group of the corrected feed counts live stories only, and only the viewer's own or followed authors'. */
  lemma FeedCountsLiveStories(users: seq<User>, stories: seq<Story>, views: seq<StoryView>, followers: seq<Follow>,
                              viewer: Option<int>, now: int, g: StoryGroup)
    requires g in Feed(users, stories, views, followers, viewer, now)
    ensures exists s :: s in stories && s.userId == g.user.id && LiveStory(s, now) && s.createdAt == g.latestStory
    ensures viewer.Some? ==> g.user.id == viewer.value || IsFollowing(followers, g.user.id, viewer.value)
  {
    var inFeed := FeedStory(viewer, followers, now);
    var viewed := ViewedBy(views, viewer);
    var groups := Groups(users, stories, inFeed, viewed);
    assert g in multiset(groups);
    assert GroupOf(g.user, stories, inFeed, viewed) == Some(g);
    GroupLatest(g.user, stories, inFeed, viewed);
  }

  /** An anonymous caller is shown a group for a user whose only story expired a day ago; the corrected feed shows none. */
  lemma AnonymousFeedCountsExpired()
    ensures var u := User(1, "amal", "", "", "", false);
            var s := Story(7, 1, "a.jpg", "image", "", 1000, 1000 - 86400);
            && |FeedAsWritten([u], [s], [], [], None, 1000 + 86400)| == 1
            && FeedAsWritten([u], [s], [], [], None, 1000 + 86400)[0].storyCount == 1
            && Feed([u], [s], [], [], None, 1000 + 86400) == []
  {
    var u := User(1, "amal", "", "", "", false);
    var s := Story(7, 1, "a.jpg", "image", "", 1000, 1000 - 86400);
    var all := WrittenStory(None, [], 1000 + 86400);
    var viewedW := WrittenViewed([], None, 1000 + 86400);
    assert s in [s];
    var g := GroupOf(u, [s], all, viewedW);
    assert g.Some?;
    assert Groups([u], [s], all, viewedW) == [g.value];
    var live := FeedStory(None, [], 1000 + 86400);
    var viewed := ViewedBy([], None);
    assert GroupOf(u, [s], live, viewed).None?;
    assert Groups([u], [s], live, viewed) == [];
  }

  // ---------------------------------------------------------------- the endpoint

  datatype StoriesAnswer = Stories(stories: seq<StoryItem>) | StoryUsers(storyUsers: seq<StoryGroup>)

  /** The answer for the query, with the corrected feed. */
  function Answer(users: seq<User>, stories: seq<Story>, views: seq<StoryView>, followers: seq<Follow>, viewer: Option<int>,
               query: Value, now: int): (r: StoriesAnswer)
    ensures r.Stories? <==> PerUser(query)
    ensures r.Stories? ==>
              r.stories == StoriesOf(users, stories, views, ToInt(Get(query, "user_id")), viewer, now)
    ensures r.StoryUsers? ==> r.storyUsers == Feed(users, stories, views, followers, viewer, now)
  {
    if PerUser(query) then Stories(StoriesOf(users, stories, views, ToInt(Get(query, "user_id")), viewer, now))
    else StoryUsers(Feed(users, stories, views, followers, viewer, now))
  }
}
