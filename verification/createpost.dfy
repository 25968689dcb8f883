/**
 * POST api/create_post.php: a new post of the caller, with content or media
 * or both, a privacy setting normalised to one of the three known ones, and
 * an optional media type that must be a known one.
 */
module CreatePost {
  import opened Wrappers
  import opened Php
  import opened Http
  import opened Schema
  import Validator
  import Db

  const PRIVACY: seq<string> := ["public", "private", "followers"]
  const MEDIA_TYPES: seq<string> := ["image", "video", "audio"]

  /** The post as the input describes it, before the id and the time are known. */
  datatype Draft = Draft(content: string, mediaUrl: string, mediaType: Option<string>, location: string,
                         privacy: string)

  /** `isset($input['media_type']) ? $input['media_type'] : null`, as the string column receives it. */
  function MediaTypeField(input: Value): Option<string> {
    if Isset(input, "media_type") then Some(ToStr(Get(input, "media_type"))) else None
  }

  /** The fields of the new row; `escape` is htmlspecialchars, applied to the location. */
  function DraftOf(input: Value, escape: string -> string): (d: Draft)
    ensures d.content == TrimField(input, "content") && d.mediaUrl == TrimField(input, "media_url")
    ensures d.privacy in PRIVACY
    ensures InList(Get(input, "privacy"), PRIVACY) ==> d.privacy == Get(input, "privacy").s
    ensures !InList(Get(input, "privacy"), PRIVACY) ==> d.privacy == "public"
    ensures d.mediaType == MediaTypeField(input)
    ensures !Isset(input, "location") ==> d.location == ""
  {
    var location := if Isset(input, "location") then Validator.SanitizeString(ToStr(Get(input, "location")), escape)
                    else "";
    Draft(TrimField(input, "content"), TrimField(input, "media_url"), MediaTypeField(input), location,
          OneOf(input, "privacy", PRIVACY, "public"))
  }

  /** The checks, in order, and on success the draft. */
  function Check(input: Value, escape: string -> string): (r: Checked<Draft>)
    ensures r.Reject? ==> r.code == 400
    ensures Empty(input) ==> r == Reject(400, "Invalid JSON input")
    ensures !Empty(input) && EmptyString(TrimField(input, "content")) && EmptyString(TrimField(input, "media_url")) ==>
              r == Reject(400, "Post must have either content or media")
    ensures r.Pass? <==>
              && !Empty(input)
              && !(EmptyString(TrimField(input, "content")) && EmptyString(TrimField(input, "media_url")))
              && (Empty(Get(input, "media_type")) || InList(Get(input, "media_type"), MEDIA_TYPES))
    ensures r.Pass? ==>
              && r.value == DraftOf(input, escape)
              && (!Empty(Get(input, "media_type")) ==>
                    r.value.mediaType == Some(Get(input, "media_type").s) && Get(input, "media_type").s in MEDIA_TYPES)
  {
    if Empty(input) then Reject(400, "Invalid JSON input")
    else if EmptyString(TrimField(input, "content")) && EmptyString(TrimField(input, "media_url")) then
      Reject(400, "Post must have either content or media")
    else if !Empty(Get(input, "media_type")) && !InList(Get(input, "media_type"), MEDIA_TYPES) then
      Reject(400, "Invalid media type")
    else Pass(DraftOf(input, escape))
  }

  /** The answer: the new row, not liked by anyone yet. */
  datatype NewPost = NewPost(post: Post, isLiked: bool)

  /** The endpoint: one INSERT INTO posts with the next id. */
  method Create(db: Db.Database, caller: int, input: Value, escape: string -> string, now: int)
    returns (resp: Response<NewPost>)
    requires db.Valid()
    modifies db`posts, db`nextPostId
    ensures db.Valid()
    ensures Check(input, escape).Reject? ==>
              && resp == Failure(400, Check(input, escape).error)
              && db.posts == old(db.posts) && db.nextPostId == old(db.nextPostId)
    ensures Check(input, escape).Pass? ==>
              var d := Check(input, escape).value;
              var p := Post(old(db.nextPostId), caller, d.content, d.mediaUrl, d.mediaType, Some(d.location),
                            d.privacy, now);
              && db.posts == old(db.posts) + [p] && db.nextPostId == old(db.nextPostId) + 1
              && resp == Success(NewPost(p, false), "Post created successfully")
  {
    var checked := Check(input, escape);
    if checked.Reject? {
      return Failure(400, checked.error);
    }
    var d := checked.value;
    var p := Post(db.nextPostId, caller, d.content, d.mediaUrl, d.mediaType, Some(d.location), d.privacy, now);
    db.AddPost(p);
    resp := Success(NewPost(p, false), "Post created successfully");
  }
}
