/**
 * POST api/view_story.php: the caller views a live story. The first view is
 * recorded once and notifies the owner (unless the owner is the viewer); a
 * repeat view changes nothing.
 */
module ViewStory {
  import opened Wrappers
  import opened Php
  import opened Http
  import opened Schema
  import Db
  import Seqs
  import Notify

  /** `SELECT user_id, expires_at FROM stories WHERE id = ? AND expires_at > NOW()`: the first such row. */
  function FindLiveStory(stories: seq<Story>, id: int, now: int): (r: Option<nat>)
    ensures r.Some? ==> r.value < |stories| && stories[r.value].id == id && LiveStory(stories[r.value], now)
    ensures r.None? <==> forall k :: 0 <= k < |stories| ==> !(stories[k].id == id && LiveStory(stories[k], now))
  {
    Seqs.Find(stories, (s: Story) => s.id == id && LiveStory(s, now))
  }

  /** The story to view: `story_id` present, and the story on file and not expired. */
  function Check(stories: seq<Story>, input: Value, now: int): (r: Checked<nat>)
    ensures (Empty(input) || !Isset(input, "story_id")) ==> r == Reject(400, "Story ID required")
    ensures r.Reject? && r.code == 404 <==>
              !Empty(input) && Isset(input, "story_id") && FindLiveStory(stories, ToInt(Get(input, "story_id")), now).None?
    ensures r.Reject? && r.code == 404 ==> r.error == "Story not found or expired"
    ensures r.Pass? <==>
              !Empty(input) && Isset(input, "story_id") && FindLiveStory(stories, ToInt(Get(input, "story_id")), now).Some?
    ensures r.Pass? ==> r.value == FindLiveStory(stories, ToInt(Get(input, "story_id")), now).value
    ensures r.Pass? ==> && r.value < |stories| && stories[r.value].id == ToInt(Get(input, "story_id"))
                        && LiveStory(stories[r.value], now)
  {
    if Empty(input) || !Isset(input, "story_id") then Reject(400, "Story ID required")
    else match FindLiveStory(stories, ToInt(Get(input, "story_id")), now)
      case None => Reject(404, "Story not found or expired")
      case Some(k) => Pass(k)
  }

  /** The view table after the call: the first view adds one row, a repeat view nothing. */
  function Viewed(views: seq<StoryView>, storyId: int, viewerId: int): (r: seq<StoryView>)
    ensures HasView(r, storyId, viewerId)
    ensures HasView(views, storyId, viewerId) ==> r == views
    ensures !HasView(views, storyId, viewerId) ==> r == views + [StoryView(storyId, viewerId)]
  {
    if HasView(views, storyId, viewerId) then views
    else
      var r := views + [StoryView(storyId, viewerId)];
      assert r[|views|] == StoryView(storyId, viewerId);
      r
  }

  /** Viewing is idempotent: a second view of the same story by the same viewer leaves the table as the first left it. */
  lemma ViewIdempotent(views: seq<StoryView>, storyId: int, viewerId: int)
    ensures Viewed(Viewed(views, storyId, viewerId), storyId, viewerId) == Viewed(views, storyId, viewerId)
  {
  }

  /** The first view keeps one row per (story, viewer). */
  lemma ViewedUnique(views: seq<StoryView>, storyId: int, viewerId: int)
    requires Seqs.UniqueBy(views, Db.ViewKey)
    ensures Seqs.UniqueBy(Viewed(views, storyId, viewerId), Db.ViewKey)
  {
    if !HasView(views, storyId, viewerId) {
      Seqs.UniqueAppend(views, StoryView(storyId, viewerId), Db.ViewKey);
    }
  }

  /** `SELECT views_count FROM stories`: the number of view rows of the story. */
  function ViewsCount(views: seq<StoryView>, storyId: int): nat {
    Seqs.Count(views, (v: StoryView) => v.storyId == storyId)
  }

  /** The answer; `is_viewed` is always true. */
  datatype ViewState = ViewState(storyId: int, viewsCount: int, isViewed: bool)

  function ViewData(storyId: int, userId: int): Value {
    VMap(map["story_id" := VInt(storyId), "user_id" := VInt(userId)])
  }

  /** The endpoint. */
  method View(db: Db.Database, caller: int, input: Value, now: int) returns (resp: Response<ViewState>)
    requires db.Valid()
    modifies db`views, db`notifications, db`nextNotificationId, db`outbox
    ensures db.Valid()
    ensures resp.Success? <==>
              !Empty(input) && Isset(input, "story_id") && FindLiveStory(db.stories, ToInt(Get(input, "story_id")), now).Some?
    ensures Check(db.stories, input, now).Reject? ==>
              && resp == Failure(Check(db.stories, input, now).code, Check(db.stories, input, now).error)
              && db.views == old(db.views) && db.Sent() == old(db.Sent())
    ensures Check(db.stories, input, now).Pass? ==>
              var story := db.stories[Check(db.stories, input, now).value];
              var first := !HasView(old(db.views), story.id, caller);
              && db.views == Viewed(old(db.views), story.id, caller)
              && db.Sent() == (if first && story.userId != caller then
                                 Notify.AfterSend(old(db.Sent()), db.tokens, story.userId, "story_view", "Story Viewed",
                                                  UsernameOf(db.users, caller) + " viewed your story",
                                                  ViewData(story.id, caller), now)
                               else old(db.Sent()))
              && resp == Success(ViewState(story.id, ViewsCount(db.views, story.id), true),
                                 if first then "Story view recorded" else "Story already viewed")
  {
    var checked := Check(db.stories, input, now);
    if checked.Reject? {
      return Failure(checked.code, checked.error);
    }
    var story := db.stories[checked.value];
    var message;
    if !HasView(db.views, story.id, caller) {
      forall k | 0 <= k < |db.views|
        ensures Db.ViewKey(db.views[k]) != Db.ViewKey(StoryView(story.id, caller))
      {
      }
      db.AddView(StoryView(story.id, caller));
      if story.userId != caller {
        Notify.Send(db, story.userId, "story_view", "Story Viewed", UsernameOf(db.users, caller) + " viewed your story",
                    ViewData(story.id, caller), now);
      }
      message := "Story view recorded";
    } else {
      message := "Story already viewed";
    }
    resp := Success(ViewState(story.id, ViewsCount(db.views, story.id), true), message);
  }
}
