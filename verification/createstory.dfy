/**
 * POST api/create_story.php: a new story of the caller, an image or a video
 * with an optional short caption, that expires STORY_EXPIRY_TIME after it was
 * posted.
 */
module CreateStory {
  import opened Php
  import opened Http
  import opened Schema
  import Config
  import Validator
  import Db

  const STORY_MEDIA_TYPES: seq<string> := ["image", "video"]

  datatype Draft = Draft(mediaUrl: string, mediaType: string, caption: string)

  /** The checks, in order. */
  function Check(input: Value): (r: Checked<Draft>)
    ensures r.Reject? ==> r.code == 400
    ensures Empty(input) ==> r == Reject(400, "Invalid JSON input")
    ensures r.Pass? <==>
              && !Empty(input)
              && !Empty(Get(input, "media_url")) && !Empty(Get(input, "media_type"))
              && InList(Get(input, "media_type"), STORY_MEDIA_TYPES)
              && StrLen(TrimField(input, "caption")) <= 200
    ensures r.Pass? ==>
              && r.value.mediaUrl == Trim(ToStr(Get(input, "media_url")))
              && r.value.mediaType == Get(input, "media_type").s && r.value.mediaType in STORY_MEDIA_TYPES
              && r.value.caption == TrimField(input, "caption")
  {
    if Empty(input) then Reject(400, "Invalid JSON input")
    else
      var missing := Validator.MissingFields(["media_url", "media_type"], input);
      Validator.NoneMissingOfTwo("media_url", "media_type", input);
      if missing != [] then Reject(400, Validator.MissingMessage(missing))
      else
        var caption := TrimField(input, "caption");
        if !InList(Get(input, "media_type"), STORY_MEDIA_TYPES) then
          Reject(400, "Invalid media type. Only image and video are allowed for stories")
        else if StrLen(caption) > 200 then Reject(400, "Caption is too long (max 200 characters)")
        else Pass(Draft(Trim(ToStr(Get(input, "media_url"))), Get(input, "media_type").s, caption))
  }

  /** The story row for a draft posted at `now`. */
  function NewRow(id: int, caller: int, d: Draft, now: int): (s: Story)
    ensures s.expiresAt - s.createdAt == Config.STORY_EXPIRY_TIME
  {
    Story(id, caller, d.mediaUrl, d.mediaType, d.caption, now + Config.STORY_EXPIRY_TIME, now)
  }

  /**
   * A new story is shown for exactly STORY_EXPIRY_TIME seconds, and the
   * reaper removes it only once that time has passed (the second after expiry
   * it is hidden but still on file).
   */
  lemma Lifetime(id: int, caller: int, d: Draft, now: int, t: int)
    ensures LiveStory(NewRow(id, caller, d, now), t) <==> t < now + Config.STORY_EXPIRY_TIME
    ensures NewRow(id, caller, d, now) in Db.SweepStories([NewRow(id, caller, d, now)], t)
            <==> t <= now + Config.STORY_EXPIRY_TIME
  {
  }

  /** The answer: the new row, not viewed by anyone yet. */
  datatype NewStory = NewStory(story: Story, isViewed: bool)

  /** The endpoint: one INSERT INTO stories with the next id. */
  method Create(db: Db.Database, caller: int, input: Value, now: int) returns (resp: Response<NewStory>)
    requires db.Valid()
    modifies db`stories, db`nextStoryId
    ensures db.Valid()
    ensures Check(input).Reject? ==>
              && resp == Failure(400, Check(input).error)
              && db.stories == old(db.stories) && db.nextStoryId == old(db.nextStoryId)
    ensures Check(input).Pass? ==>
              var s := NewRow(old(db.nextStoryId), caller, Check(input).value, now);
              && db.stories == old(db.stories) + [s] && db.nextStoryId == old(db.nextStoryId) + 1
              && resp == Success(NewStory(s, false), "Story created successfully")
  {
    var checked := Check(input);
    if checked.Reject? {
      return Failure(400, checked.error);
    }
    var s := NewRow(db.nextStoryId, caller, checked.value, now);
    db.AddStory(s);
    resp := Success(NewStory(s, false), "Story created successfully");
  }
}
