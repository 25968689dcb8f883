/**
 * backend/index.php: the front controller. It normalises PATH_INFO and
 * dispatches to one endpoint script, answers the health check itself, and
 * answers 404 for any other path.
 */
module Router {
  import opened Wrappers
  import opened Php
  import opened Http
  import Seqs

  /** The endpoint scripts under api/, and the health check the router answers itself. */
  datatype Endpoint =
    | Register | Login | Logout | RefreshToken
    | Profile | UpdateProfile | SearchUsers | UserStatus
    | CreatePost | GetPosts | LikePost | CommentPost | GetComments
    | CreateStory | GetStories | ViewStory
    | SendFollowRequest | RespondFollowRequest | GetFollowRequests | Unfollow | GetFollowers | GetFollowing
    | SendMessage | GetMessages | GetConversations | EditMessage | DeleteMessage | MarkMessageRead
    | UploadMedia
    | RegisterFcmToken | GetNotifications | MarkNotificationRead
    | InitiateCall | EndCall | GetAgoraToken
    | ReportScreenshot
    | SyncOfflineActions

  /** rtrim($path, '/'): every trailing '/' removed. */
  function TrimSlashes(path: string): (r: string)
    ensures |r| <= |path| && r == path[..|r|]
    ensures r == [] || r[|r| - 1] != '/'
    ensures forall k :: |r| <= k < |path| ==> path[k] == '/'
  {
    if path != [] && path[|path| - 1] == '/' then
      var r := TrimSlashes(path[..|path| - 1]);
      assert path[..|path| - 1][..|r|] == path[..|r|];
      r
    else path
  }

  /** `$_SERVER['PATH_INFO'] ?? '/'`, right-trimmed of '/', and '/' again if that leaves an empty string. */
  function Normalize(pathInfo: Option<string>): (path: string)
    ensures path == "/" || (path != [] && path[|path| - 1] != '/')
  {
    var trimmed := TrimSlashes(if pathInfo.Some? then pathInfo.value else "/");
    if EmptyString(trimmed) then "/" else trimmed
  }

  /** A normalised path is its own normal form, so normalising twice changes nothing. */
  lemma NormalizeIdempotent(pathInfo: Option<string>)
    ensures Normalize(Some(Normalize(pathInfo))) == Normalize(pathInfo)
  {
    var p := Normalize(pathInfo);
    if p == "/" {
      assert TrimSlashes("/") == TrimSlashes([]);
    }
  }

  /** Trailing slashes never change where a request goes. */
  lemma {:induction false} TrailingSlashIgnored(path: string)
    ensures Normalize(Some(path + "/")) == Normalize(Some(path))
  {
    assert (path + "/")[..|path|] == path;
  }

  /** The cases of the switch that run a script, in source order. */
  const ROUTES: seq<(string, Endpoint)> := [
    ("/register", Register), ("/login", Login), ("/logout", Logout), ("/refresh-token", RefreshToken),
    ("/profile", Profile), ("/update-profile", UpdateProfile), ("/search-users", SearchUsers),
    ("/user-status", UserStatus),
    ("/create-post", CreatePost), ("/get-posts", GetPosts), ("/like-post", LikePost), ("/comment-post", CommentPost),
    ("/get-comments", GetComments),
    ("/create-story", CreateStory), ("/get-stories", GetStories), ("/view-story", ViewStory),
    ("/send-follow-request", SendFollowRequest), ("/respond-follow-request", RespondFollowRequest),
    ("/get-follow-requests", GetFollowRequests), ("/unfollow", Unfollow), ("/get-followers", GetFollowers),
    ("/get-following", GetFollowing),
    ("/send-message", SendMessage), ("/get-messages", GetMessages), ("/get-conversations", GetConversations),
    ("/edit-message", EditMessage), ("/delete-message", DeleteMessage), ("/mark-message-read", MarkMessageRead),
    ("/upload-media", UploadMedia),
    ("/register-fcm-token", RegisterFcmToken), ("/get-notifications", GetNotifications),
    ("/mark-notification-read", MarkNotificationRead),
    ("/initiate-call", InitiateCall), ("/end-call", EndCall), ("/get-agora-token", GetAgoraToken),
    ("/report-screenshot", ReportScreenshot),
    ("/sync-offline-actions", SyncOfflineActions)
  ]

  /** The two labels of the health-check case. */
  const HEALTH_PATHS: seq<string> := ["/", "/health"]

  function CaseOf(path: string): ((string, Endpoint)) -> bool {
    (c: (string, Endpoint)) => c.0 == path
  }

  /**
   * The script cases of `switch ($path)`: the endpoint of the first case whose
   * label is the path, or none when no case matches.
   */
  function Lookup(path: string): (r: Option<Endpoint>)
    ensures r.None? <==> forall k :: 0 <= k < |ROUTES| ==> ROUTES[k].0 != path
    ensures r.Some? ==> (path, r.value) in ROUTES
  {
    match Seqs.Find(ROUTES, CaseOf(path))
    case None => None
    case Some(k) => Some(ROUTES[k].1)
  }

  /** What index.php does with a request: run one endpoint script, or answer itself. */
  datatype Routed = Run(endpoint: Endpoint) | Answer(response: Response<Value>)

  function HealthStatus(): Value {
    VMap(map["status" := VStr("API is running"), "version" := VStr("1.0.0")])
  }

  /**
   * The request after normalisation: the health answer for the health-check
   * labels, a script for the other labels, 404 otherwise. The labels are
   * pairwise distinct, so testing the health labels first selects the same
   * case as the switch does.
   */
  function Route(pathInfo: Option<string>): (r: Routed)
    ensures Normalize(pathInfo) in HEALTH_PATHS <==> r == Answer(Success(HealthStatus(), "Success"))
    ensures r == Answer(Failure(404, "Endpoint not found")) <==>
              Normalize(pathInfo) !in HEALTH_PATHS && forall k :: 0 <= k < |ROUTES| ==> ROUTES[k].0 != Normalize(pathInfo)
    ensures r.Run? ==> (Normalize(pathInfo), r.endpoint) in ROUTES
  {
    var path := Normalize(pathInfo);
    if path in HEALTH_PATHS then Answer(Success(HealthStatus(), "Success"))
    else match Lookup(path)
      case None => Answer(Failure(404, "Endpoint not found"))
      case Some(e) => Run(e)
  }

  /** No PATH_INFO, or just '/', reaches the health check. */
  lemma RootIsHealth()
    ensures Route(None) == Answer(Success(HealthStatus(), "Success"))
  {
    assert TrimSlashes("/") == TrimSlashes([]);
  }

  /** '/health' reaches the health check (and so does '/health/', by TrailingSlashIgnored). */
  lemma HealthIsHealth()
    ensures Route(Some("/health")) == Answer(Success(HealthStatus(), "Success"))
  {
    assert TrimSlashes("/health") == "/health";
    assert "/health" in HEALTH_PATHS;
  }
}
