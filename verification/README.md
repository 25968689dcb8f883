# Socially backend: a Dafny model of the REST API core

Socially is a mobile social network. Its backend is a set of PHP scripts behind a
single front controller (`backend/index.php`). The controller maps a path such as
`/send-message` onto one script under `backend/api/`. Each script:

- reads the JSON body or the query string;
- authenticates the caller from a JWT (JSON Web Token) bearer token;
- runs a few prepared MySQL statements;
- answers with `Response::success` or `Response::error`.

The scripts cover:

- posts, likes and comments;
- 24-hour stories and their views;
- a follow graph with private accounts and follow requests;
- one-to-one messages, including "vanish" messages that expire once read;
- calls;
- screenshot alerts;
- device tokens and push notifications;
- a batch endpoint that replays actions a client queued while offline.

The model represents the MySQL database as one object, `Db.Database`. It has:

- one sequence field per table, in insertion order;
- the next auto-increment id of each table;
- an outbox that records every push notification sent to FCM (Firebase Cloud Messaging).

`Db.Database.Valid()` is the invariant every writing endpoint keeps:

- ids are unique and below the next id;
- the unique keys of tokens, followers, likes and views hold;
- every accepted follow request has its follower row.

Each endpoint is modelled in two parts:

- a pure function that decides the response, checks the input or plans the change (`Check`, `Parse`, `Plan`, `List`, ...);
- for the scripts that write, a method on the database. The method's `ensures` gives the new tables as a function of the old ones.

Lemmas relate the operations to each other. Examples:

- liking and then unliking gives the like table back;
- deleting a message hides it from every reader;
- accepting a request creates the follower row;
- replaying an offline batch adds one row per successful action.

The current time (`NOW()`, `time()`) is a parameter `now`, in integer seconds. Side
effects the model cannot see are parameters too: the JSON codec, the HMAC signature and
`htmlspecialchars`.

## Model

| member | source | states |
|---|---|---|
| Jwt.Explode | backend/includes/functions.php:20 | no piece holds the separator, and the pieces joined by it give the token back |
| Jwt.Encode | backend/includes/functions.php:6-17 | the token is three base64url parts joined by '.', so explode gives exactly three parts |
| Jwt.Decode | backend/includes/functions.php:19-46 | a token without exactly three parts is refused; an accepted payload is non-empty and not expired |
| Jwt.ExplodeThree | backend/includes/functions.php:20-22 | three dot-free parts joined by dots split back into exactly those three parts |
| Jwt.NoDotInUrlEncoding | backend/includes/functions.php:48-50 | the base64url alphabet has no '.', so an encoded part never splits the token |
| Jwt.EncodeDecode | backend/includes/functions.php:6-46 | a token JWT::encode made decodes to its payload exactly when the payload is not expired (a token expiring at `now` is still accepted) |
| Jwt.DecodeWellFormed | backend/includes/functions.php:19-46 | three parts with a valid header, a non-empty payload and a matching signature decode to the payload unless it has expired |
| Jwt.Expired | backend/includes/functions.php:40-43 | a payload without `exp` never expires |
| Jwt.ExpiredStaysExpired | backend/includes/functions.php:40-43 | an expired payload stays expired at every later time |
| Jwt.ForeignCharacterInSignature | backend/includes/functions.php:19-46 | appending a character outside the base64 alphabets to any token changes neither whether it is accepted nor its payload |
| Jwt.GenerateTokens | backend/includes/functions.php:59-85 | expires_at is the issue time plus JWT_EXPIRY |
| Jwt.OnlyRefreshHasType | backend/includes/functions.php:64-75 | only the refresh claims carry type = refresh; both carry the same user_id and iat |
| Jwt.TokenLifetimes | backend/includes/functions.php:59-85 | the access token is accepted exactly until iat + 7 days, the refresh token exactly until iat + 30 days |
| Jwt.Lifetime | backend/includes/functions.php:40-43 | a token whose payload has exp decodes exactly while now <= exp |
| Base64.Encode | backend/includes/functions.php:49 | base64_encode pads to a multiple of four characters |
| Base64.UrlEncode | backend/includes/functions.php:48-50 | base64UrlEncode is the sextets of the input spelled in the URL alphabet, without padding |
| Base64.UrlSpelling | backend/includes/functions.php:48-50 | mapping '+' to '-' and '/' to '_' in the standard spelling of a sextet sequence gives its URL spelling |
| Base64.UrlEncodeAlphabet | backend/includes/functions.php:48-50 | the output never contains '+', '/' or '=' |
| Base64.Values | backend/includes/functions.php:53 | the non-strict decoder keeps the alphabet characters only; text made of alphabet characters keeps every one, in order |
| Base64.Decode | backend/includes/functions.php:53 | non-strict base64_decode never fails and yields three bytes per four alphabet characters, dropping a lone last character |
| Base64.UrlDecode | backend/includes/functions.php:52-54 | the str_pad call never pads: base64UrlDecode is base64_decode after mapping '-' and '_' back |
| Base64.UrlRoundTrip | backend/includes/functions.php:48-54 | base64UrlDecode(base64UrlEncode(b)) gives back b for every byte string |
| Base64.DecodeStd | backend/includes/functions.php:53 | base64_decode of standard-alphabet text gives the bytes its sextets spell |
| Base64.FromSextetsInverse | backend/includes/functions.php:48-54 | regrouping the 6-bit groups of a byte string into bytes is the identity |
| Base64.SkipsForeign | backend/includes/functions.php:53 | a character outside the alphabet, anywhere in the input, does not change what base64_decode returns |
| Base64.UrlSkipsForeign | backend/includes/functions.php:52-54 | the same for base64UrlDecode and a trailing character outside both alphabets |
| Base64.LoneTrailingIgnored | backend/includes/functions.php:53 | a last group of one character is dropped |
| Base64.ForeignCharacterExample | backend/includes/functions.php:52-54 | "QUI!" decodes to the two bytes of "AB" |
| Validator.MissingFields | backend/includes/functions.php:158-166 | a field is reported exactly when it is listed and its value is empty() |
| Validator.ValidateRequired | backend/includes/functions.php:158-166 | the loop reports the missing fields in list order, and reports none exactly when every field is present and non-empty |
| Validator.MissingFieldsSnoc | backend/includes/functions.php:160-164 | one more field in the list appends that field exactly when it is missing |
| Validator.MissingOne | backend/includes/functions.php:158-166 | a single required field is reported exactly when it is missing |
| Validator.NoneMissing | backend/includes/functions.php:158-166 | nothing is reported exactly when every listed field is non-empty |
| Validator.NoneMissingOfTwo | backend/includes/functions.php:158-166 | for two fields, nothing is reported exactly when both are non-empty |
| Validator.MissingOfTwo | backend/includes/functions.php:158-166 | for two fields, the report is the first if missing followed by the second if missing |
| Validator.MissingTextOfTwo | backend/includes/functions.php:158-166 | the error text for two fields names exactly the missing ones, in list order |
| Validator.MissingMessage | backend/includes/functions.php:158-166 | one missing field gives "Missing required fields: " followed by its name; two give both names joined by ", " |
| Validator.UsernameRule | backend/includes/functions.php:145-147 | without a final newline, a username is valid exactly when it is 3 to 30 characters from [a-zA-Z0-9_] |
| Validator.UsernameTrailingNewline | backend/includes/functions.php:145-147 | a valid username followed by "\n" is also accepted, because `$` matches before a final newline |
| Validator.TrimmedUsernameRule | backend/includes/functions.php:145-147 | for a trimmed username the pattern is exactly the 3-to-30 word-character rule |
| Validator.PasswordBounds | backend/includes/functions.php:149-152 | six characters always pass, fewer than two never pass, and an ASCII password passes exactly at six characters |
| Validator.ShortMultibytePassword | backend/includes/functions.php:149-152 | strlen counts bytes, so a two-character CJK password passes |
| Validator.ValidateUsername | backend/includes/functions.php:145-147 | an accepted username is 3 to 31 characters, each a word character except a final newline; every run of 3 to 30 word characters is accepted |
| Validator.ValidatePassword | backend/includes/functions.php:149-152 | six or more characters always pass; an accepted password has at least two characters |
| Validator.SanitizeString | backend/includes/functions.php:154-156 | the result is the escaped trimmed input, escaping a second trim of it as well, and the escaped input itself when it is already trimmed |
| Php.Trim | backend/includes/functions.php:155 | trim() leaves no trim character at either end and is empty exactly when the input is all trim characters |
| Php.TrimIdempotent | backend/includes/functions.php:155 | trimming twice equals trimming once |
| Php.StrLen | backend/includes/functions.php:151 | strlen is between the character count and four times it, and equals it for ASCII |
| Php.IntStringRoundTrip | backend/api/sync_offline_actions.php:110 | an int written into a message as decimal text reads back as the same int, sign included |
| Php.Isset | backend/api/like_post.php:13 | isset($v[$key]) holds exactly when the value is an array holding the key with a non-null value |
| Php.Empty | backend/api/like_post.php:13 | an empty() value reads as (int) 0, and for a non-string value empty() holds exactly when (int) gives 0 |
| Php.ToBool | backend/api/delete_message.php:18 | a true value is never null; a string is true exactly when it is neither "" nor "0"; a false value reads as (int) 0 |
| Php.ToInt | backend/api/like_post.php:17 | (int) keeps an int, maps null, booleans and arrays to 0 or 1, reads a string of digits as its decimal value and a minus followed by digits as its negation |
| Http.PageParam | backend/api/get_notifications.php:11 | page is at least 1, 1 when absent, and the given value when that is at least 1 |
| Http.LimitParam | backend/api/get_notifications.php:12 | limit lies in 1..MAX_PAGE_SIZE, is DEFAULT_PAGE_SIZE when absent, and the given value when that is in range |
| Http.Offset | backend/api/get_notifications.php:13 | the skipped rows plus one page reach page * limit |
| Http.CeilDiv | backend/includes/functions.php:199 | ceil(total / limit): the smallest page count covering total rows |
| Http.Pagination | backend/includes/functions.php:192-204 | total_pages is ceil(total / limit), has_next iff page * limit < total, has_prev iff page > 1 |
| Http.HasNextIffNotLastPage | backend/includes/functions.php:199-200 | for page >= 1, has_next holds exactly when page < total_pages |
| Http.Paginate | backend/includes/functions.php:192-204 | the page of items is returned unchanged together with its metadata |
| Seqs.SortDesc | backend/api/get_notifications.php:39 | ORDER BY ... DESC: a permutation of the rows, ordered by the key from largest to smallest |
| Seqs.PageDesc | backend/api/get_notifications.php:39-40 | LIMIT ? OFFSET ?: min(limit, rows left after the offset) rows, row k being row offset + k of the ordered result, all taken from the rows and in key order |
| Seqs.RowOnItsPage | backend/api/get_notifications.php:11-13 | every row of the ordered result appears on the page its position gives, at its place within that page |
| Seqs.PageDescAll | backend/api/get_notifications.php:39-40 | a first page at least as large as the result holds every row |
| Files.GetFileType | backend/includes/functions.php:245-255 | image, video or audio by the first allowed list containing the MIME type, otherwise document |
| Files.AllowedListsDisjoint | backend/includes/functions.php:245-255 | every allowed type is classified by its own list, whatever the order of the tests |
| Notify.PushesFor | backend/includes/functions.php:270-277 | at most one push per token row, each with the notification's title, body and data |
| Notify.PushesForTokens | backend/includes/functions.php:270-277 | a push goes to exactly the active tokens of the recipient |
| Notify.PushesForSnoc | backend/includes/functions.php:275-277 | one more token row appends its push when it is active and the recipient's |
| Notify.Send | backend/includes/functions.php:260-278 | one unread notification row with the next id is appended, then the pushes for the recipient's active tokens; the three together are AfterSend of the old notifications, next id and outbox |
| Notify.AfterSend | backend/includes/functions.php:260-278 | exactly one notification row is appended after the old ones, with the next id, the recipient, unread, created now; the id counter advances by one; the outbox keeps its old pushes and gains exactly the pushes for the recipient's active tokens |
| Notify.PushAll | backend/includes/functions.php:275-277 | the fetch loop sends exactly PushesFor in token order |
| Db.SweepStories | backend/includes/db.php:73-77 | the stories left are exactly those with expires_at >= now |
| Db.SweepMessages | backend/includes/db.php:79-83 | the messages left are exactly those that are not vanish messages with an expiry in the past |
| Db.SweepSessions | backend/includes/db.php:85-88 | the sessions left are exactly those with expires_at >= now |
| Db.SweepKeepsNormalMessages | backend/includes/db.php:79-83 | a normal message, or a vanish message without an expiry, is never deleted |
| Db.ExpiryBoundary | backend/includes/db.php:79-83 | a vanish message expiring exactly now survives the sweep, but every reader already hides it |
| Db.SweepStoriesIdempotent | backend/includes/db.php:73-77 | sweeping twice at the same time removes nothing more |
| Db.Database.CleanupExpiredStories | backend/includes/db.php:73-77 | the stories table becomes SweepStories of the old one; the invariant is kept |
| Db.Database.CleanupExpiredVanishMessages | backend/includes/db.php:79-83 | the messages table becomes SweepMessages of the old one |
| Db.Database.CleanupExpiredSessions | backend/includes/db.php:85-88 | the sessions table becomes SweepSessions of the old one |
| Db.Database.CleanupExpiredData | backend/includes/functions.php:315-320 | all three sweeps at the same time; the invariant is kept |
| Db.Database.Valid | backend/includes/db.php:48-50 | under the schema invariant the next AUTO_INCREMENT id of each table is carried by no row yet, and user ids are unique |
| Schema.UsernameOf | backend/api/send_follow_request.php:95-98 | the username of a user row with the id, or "" (a null column) when there is none |
| Schema.FindMessage | backend/api/edit_message.php:35-46 | the index of a non-deleted message with the id, None exactly when there is none |
| Schema.FindUser | backend/api/profile.php:21-38 | a user row with the id, present exactly when such a row exists |
| Router.TrimSlashes | backend/index.php:17 | rtrim(path, '/'): a prefix of the path with every trailing '/' removed |
| Router.Normalize | backend/index.php:14-20 | the routed path is "/" or a non-empty path not ending in '/' |
| Router.NormalizeIdempotent | backend/index.php:14-20 | normalising a normalised path changes nothing |
| Router.TrailingSlashIgnored | backend/index.php:16-20 | a trailing '/' never changes where a request goes |
| Router.Lookup | backend/index.php:23-155 | an endpoint is found exactly when some case label equals the path, and it is that label's script |
| Router.Route | backend/index.php:13-165 | the health answer exactly for "/" and "/health", 404 "Endpoint not found" exactly when no label matches, otherwise that label's script |
| Router.RootIsHealth | backend/index.php:14-20 | no PATH_INFO reaches the health check |
| Router.HealthIsHealth | backend/index.php:158-161 | "/health" reaches the health check |
| GetNotifications.List | backend/api/get_notifications.php:11-68 | the page holds min(limit, rows left after the offset) rows, and row k is row offset + k of the listed rows (the caller's, unread ones when unread_only is set) sorted newest first; pagination is computed over the number of listed rows; unread_count counts the caller's unread rows |
| GetNotifications.PageOf | backend/api/get_notifications.php:27-45 | the page holds min(limit, rows left after the offset) rows, row k being row offset + k of the rows sorted newest first, each a listed row, newest first; pagination is over the number of listed rows |
| GetNotifications.ListedRows | backend/api/get_notifications.php:16-26 | a row is listed exactly when it is the caller's, and unread when unread_only is set |
| GetNotifications.TotalAgainstUnread | backend/api/get_notifications.php:28-66 | with unread_only the total equals unread_count; otherwise the total is never smaller |
| GetNotifications.CountMonotone | backend/api/get_notifications.php:28-63 | the caller's rows are at least as many as their unread rows |
| GetNotifications.FirstPageComplete | backend/api/get_notifications.php:35-41 | when every listed row fits on page 1, page 1 contains each of them |
| Profile.Show | backend/api/profile.php:10-74 | 400 without a user id; 404 exactly when no user has the id; otherwise the user row with its follower, following and post counts and the caller's relation; bio and post count are blanked exactly when the profile is hidden |
| Profile.HiddenOnlyFromStrangers | backend/api/profile.php:43-72 | data is hidden exactly for a private account viewed anonymously or by a non-follower other than the owner |
| Profile.UnfollowHidesPrivateProfile | backend/api/profile.php:69-72 | after unfollowing a private account, its bio and post count are hidden from the former follower again |
| GetFollowers.TargetParam | backend/api/get_followers.php:11-17 | user_id from the query, else the caller's id; a missing or falsy value is refused with 400 "User ID required"; otherwise the value cast to int |
| GetFollowers.RelationTo | backend/api/get_followers.php:79-96 | for a logged-in viewer looking at someone else: is_following iff a follower row exists, and the status of a request from the viewer when there is one; nothing otherwise |
| GetFollowers.CanViewIff | backend/api/get_followers.php:37-51 | the list is visible iff the account is public, or the viewer is its owner or one of its followers |
| GetFollowers.CanView | backend/api/get_followers.php:37-51 | a public account is always viewable and the owner can always view; an anonymous viewer sees exactly public accounts; another viewer of a private account sees it exactly when following it |
| GetFollowers.Page | backend/api/get_followers.php:59-112 | min(limit, rows left after the offset) entries; entry k is follower row offset + k of the joined rows, newest follow first, with that user's columns and the viewer's relation to them |
| GetFollowers.JoinedRows | backend/api/get_followers.php:59-66 | a follower row is listed exactly when it follows the target and its follower has a user row |
| GetFollowers.List | backend/api/get_followers.php:10-114 | 400, 404 and 403 in the script's order; on success the page of Page for the page and limit parameters, with pagination over the unjoined follower count |
| GetFollowRequests.KindParam | backend/api/get_follow_requests.php:11-18 | type defaults to received; anything other than "received" or "sent" is refused with the script's 400 message |
| GetFollowRequests.Page | backend/api/get_follow_requests.php:23-84 | min(limit, rows left after the offset) entries; entry k is request offset + k of the joined rows, newest first, with the user on the other side |
| GetFollowRequests.JoinedRows | backend/api/get_follow_requests.php:23-48 | a request is listed exactly when it is pending, on the caller's side named by the type, and its counterpart has a user row |
| GetFollowRequests.List | backend/api/get_follow_requests.php:10-86 | refused exactly when the type is invalid; otherwise the page of Page for the page and limit parameters, with pagination over the unjoined count |
| GetFollowRequests.TotalCountsUnjoined | backend/api/get_follow_requests.php:36-58 | the total is never below the joined rows, and equal to them when every counterpart has a user row |
| GetFollowRequests.AnsweredLeavesReceived | backend/api/get_follow_requests.php:31-46 | an answered request leaves the received list but stays on the sender's sent list |
| SearchUsers.Rank | backend/api/search_users.php:75-80 | rank 1 exactly for a username prefix match, 2 exactly for a full-name prefix match only, otherwise 3 |
| SearchUsers.RankLeIsOrder | backend/api/search_users.php:75-81 | ordering by rank, then by username, is total and transitive |
| SearchUsers.PrefixIsMatch | backend/api/search_users.php:32-80 | every user the ordering promotes (rank 1 or 2) also matches the search condition |
| SearchUsers.Ranked | backend/api/search_users.php:61-83 | a permutation of the users the WHERE clause selects, in rank-then-username order |
| SearchUsers.Window | backend/api/search_users.php:82 | min(limit, users left after the offset) users; user k is ranked user offset + k |
| SearchUsers.Rows | backend/api/search_users.php:97-147 | min(limit, users left after the offset) entries; entry k is ranked user offset + k with its counts and the caller's relationship |
| SearchUsers.Search | backend/api/search_users.php:10-153 | refused with 400 "Search query must be at least 2 characters" exactly when the query is shorter than 2 bytes; otherwise min(limit, users left after the offset) entries, entry k being ranked user offset + k, never the caller, in rank order, with the query, the filter and pagination over all selected users |
| SearchUsers.AnonymousSeesAllMatches | backend/api/search_users.php:35-56 | for an anonymous caller the filter is ignored and every matching user is selected |
| GetPosts.VisibilityLevels | backend/api/get_posts.php:60-76 | an anonymous viewer sees exactly public posts; a logged-in viewer sees at least those; the author sees all own posts; a private post is hidden from others; a followers-only post is visible to a non-author exactly when they follow the author |
| GetPosts.Visible | backend/api/get_posts.php:60-76 | a visible post has one of the three privacy levels; public posts are always visible; an anonymous viewer sees exactly public posts; a visible non-public post needs a logged-in viewer, and a visible private post needs the author as viewer |
| GetPosts.Hidden | backend/api/get_posts.php:29-46 | only an author's listing seen by a logged-in viewer can be hidden, and then the viewer is not the author, does not follow them, and the author is a private user on file |
| GetPosts.List | backend/api/get_posts.php:10-141 | an empty page with total 0 for a private author the logged-in viewer does not follow; otherwise min(limit, rows left) items, item k being joined post offset + k newest first, each listed, with an author row, and liked exactly when the viewer has a like row; total counts the listed posts without the join |
| GetPosts.JoinedRows | backend/api/get_posts.php:20-99 | a post is joined exactly when the WHERE clause lists it and its author row exists |
| GetPosts.Shown | backend/api/get_posts.php:92-140 | min(limit, rows left after the offset) items; item k is joined post offset + k newest first, marked liked as Item marks it |
| GetPosts.AnonymousSeesPrivateAccountsPublicPosts | backend/api/get_posts.php:29-46 | the private-account check runs only for a logged-in viewer: an anonymous caller is shown a private user's public post, while a logged-in stranger gets an empty page |
| GetPosts.AnonymousPage | backend/api/get_posts.php:20-102 | an anonymous caller's page for a listed post with an author row contains that post, not liked |
| GetStories.StoriesOf | backend/api/get_stories.php:16-58 | as many items as the user's live stories with an author row; item k is the k-th of them newest first, marked viewed exactly when a logged-in viewer has a view row; so each listed story appears once per row |
| GetStories.ListedStories | backend/api/get_stories.php:20-25 | a story is selected exactly when it is the user's, not expired, and its author row exists |
| GetStories.Marked | backend/api/get_stories.php:30-56 | one item per story, in order, each flagged as Item flags it |
| GetStories.StoriesOfItems | backend/api/get_stories.php:16-58 | the list holds exactly the selected stories, each once per row of the table |
| GetStories.LatestOf | backend/api/get_stories.php:77 | MAX(created_at): attained by a story of the group and at least every story's time |
| GetStories.GroupOf | backend/api/get_stories.php:73-85 | a group exists exactly when the user has a story in the feed; story_count counts them, unviewed_count counts those without a view row, and has_unviewed iff unviewed_count > 0 |
| GetStories.GroupLatest | backend/api/get_stories.php:77 | latest_story is the creation time of the group's newest story |
| GetStories.UnviewedAtMost | backend/api/get_stories.php:76-78 | unviewed_count never exceeds story_count |
| GetStories.Groups | backend/api/get_stories.php:79-83 | exactly one group per user with a story in the feed |
| GetStories.Ordered | backend/api/get_stories.php:84 | the groups reordered by latest_story, newest first, and nothing added or lost |
| GetStories.AnonymousFeedCountsExpired | backend/api/get_stories.php:62-85 | an anonymous caller is shown a group for a user whose only story expired a day ago; the corrected feed shows none |
| GetStories.FeedAsWritten | backend/api/get_stories.php:62-85 | the feed as written: a permutation of the groups under the written WHERE and JOIN conditions, ordered by latest_story; for a logged-in viewer it equals the corrected feed |
| GetStories.Feed | backend/api/get_stories.php:62-120 | a permutation of the groups of the corrected WHERE clause, ordered by latest_story; each for a user row with at least one story, unviewed_count <= story_count, has_unviewed iff unviewed_count > 0 |
| GetStories.FeedCountsLiveStories | backend/api/get_stories.php:66-82 | every group of the corrected feed has a live story at latest_story, and for a logged-in viewer belongs to the viewer or someone they follow |
| GetStories.Answer | backend/api/get_stories.php:10-120 | a truthy user_id gives that user's story list; otherwise the grouped feed |
| GetConversations.ListAsWritten | backend/api/get_conversations.php:68-82 | the endpoint as written: whenever bind_param refuses its arguments the answer is a 500 failure |
| GetConversations.AsWrittenAlwaysFails | backend/api/get_conversations.php:19-80 | the type string has one more letter than the nine placeholders and variables, so every request fails |
| GetConversations.Partner | backend/api/get_conversations.php:36-39 | the receiver when the caller sent the message, otherwise the sender |
| GetConversations.PartnerIsBetween | backend/api/get_conversations.php:36-54 | a live message of the caller's belongs to the chat with `partner` exactly when it was exchanged between the two |
| GetConversations.LastTime | backend/api/get_conversations.php:35-46 | MAX(created_at) of the chat's live messages: None exactly when there are none, otherwise attained and never exceeded |
| GetConversations.LatestMessages | backend/api/get_conversations.php:47-54 | exactly the caller's live messages whose time is the newest of their chat |
| GetConversations.TiesGiveDuplicateRows | backend/api/get_conversations.php:48-54 | two messages of one chat sharing the newest time both join, so the chat appears twice |
| GetConversations.UnreadCount | backend/api/get_conversations.php:55-63 | zero exactly when the partner sent the caller no live unread message |
| GetConversations.Preview | backend/api/get_conversations.php:86-93 | non-empty content is shown as is; empty content with a non-text media type ends with the paperclip and the ucfirst media type; a vanish message starts with the fire mark |
| GetConversations.Rows | backend/api/get_conversations.php:47-110 | at most one row per latest message |
| GetConversations.RowsSound | backend/api/get_conversations.php:47-110 | every row is the row of a latest message, for the partner's user row |
| GetConversations.RowsComplete | backend/api/get_conversations.php:47-110 | every latest message whose partner has a user row yields its row |
| GetConversations.RowsAreCountedChats | backend/api/get_conversations.php:19-129 | every row's user is a counted partner and its time is the newest of that chat |
| GetConversations.List | backend/api/get_conversations.php:10-131 | the corrected endpoint: success; the page is PageOf the conversation rows, with pagination over the distinct partner count; every row shown is a conversation row |
| GetConversations.PageOf | backend/api/get_conversations.php:60-100 | min(limit, rows left after the offset) rows; row k is row offset + k of the given rows sorted newest first; every row shown is one of them |
| GetMessages.Conversation | backend/api/get_messages.php:34-40 | exactly the live, non-deleted messages exchanged between the caller and the other user |
| GetMessages.PageRows | backend/api/get_messages.php:46-64 | min(limit, messages left after the offset) messages; message k is message offset + k of the conversation sorted newest first |
| GetMessages.Views | backend/api/get_messages.php:69-84 | one row per fetched message, flagged as own exactly when the caller sent it |
| GetMessages.UnreadIds | backend/api/get_messages.php:77-80 | at most one id per fetched row |
| GetMessages.UnreadIdsExact | backend/api/get_messages.php:77-80 | an id is collected exactly when a fetched row with that id was received and unread |
| GetMessages.BuildRows | backend/api/get_messages.php:66-84 | the fetch loop yields exactly Views and UnreadIds of the page |
| GetMessages.UnreadAreReceived | backend/api/get_messages.php:54-80 | every collected id is an unread message the other user sent to the caller |
| GetMessages.ReadAll | backend/api/get_messages.php:89-90 | the collected messages become read at `now`; every other row is unchanged |
| GetMessages.ResetVanish | backend/api/get_messages.php:93-98 | the collected vanish messages expire one hour from now; every other row is unchanged |
| GetMessages.ResetCanExtend | backend/api/get_messages.php:93-98 | the reset has no guard, so a vanish message with less than an hour left gets a later expiry |
| GetMessages.UpdatesKeepIds | backend/api/get_messages.php:86-99 | the two UPDATEs keep every id below the next message id |
| GetMessages.NoIdsNoChange | backend/api/get_messages.php:87 | with no collected id the messages table is unchanged |
| GetMessages.PageIsChronological | backend/api/get_messages.php:101-102 | the answered page is oldest first |
| GetMessages.Fetch | backend/api/get_messages.php:10-104 | 400 "Other user ID required" exactly without other_user_id and 404 for an unknown user, both leaving messages unchanged, and success otherwise; on success the page's received unread messages are marked read and their vanish expiry reset, and the page is answered reversed with the conversation's total |
| SendMessage.Parse | backend/api/send_message.php:11-48 | 400 "Invalid JSON input", then "Missing required fields: receiver_id", then "Message must have either content or media", then "Cannot send message to yourself"; passes exactly when none applies, with the trimmed content and media URL and the types of MessageTypeOf and MediaTypeOf |
| SendMessage.MessageTypeOf | backend/api/send_message.php:27-29 | always one of the allowed message types, and vanish exactly when the request says vanish |
| SendMessage.MediaTypeOf | backend/api/send_message.php:41-48 | always one of the allowed media types: the requested one when listed, text otherwise |
| SendMessage.NewMessage | backend/api/send_message.php:62-74 | the inserted row: unread, unedited, not deleted, created now, with an expiry exactly for a vanish message, 30 days from now |
| SendMessage.NotificationBody | backend/api/send_message.php:107-111 | the content, or "Sent you a" and the media type when the content is empty; prefixed with the fire mark for a vanish message |
| SendMessage.ZeroContentAnnouncedAsMedia | backend/api/send_message.php:108 | content "0" is falsy, so it is announced by its media type |
| SendMessage.Send | backend/api/send_message.php:10-128 | a parse refusal is answered as is and a missing receiver is a 404, both leaving messages, the counters, notifications and outbox unchanged; otherwise success: the message with the next id is appended and one "message" notification "username: body" is sent with its pushes (AfterSend) |
| SendMessage.Deliver | backend/api/send_message.php:62-117 | the message with the next id is appended, the id counter advances by one, and the receiver gets one "message" notification with its pushes (AfterSend) |
| EditMessage.ParseEdit | backend/api/edit_message.php:11-29 | invalid JSON is refused first and every body error is a 400; the body passes exactly when message_id and content are present and the trimmed content is non-empty, giving the id and the trimmed content |
| EditMessage.CheckEdit | backend/api/edit_message.php:11-66 | 404 "Message not found" exactly when no live message has the id; 403 "You can only edit your own messages" exactly when it is someone else's; for the caller's own message, 400 "Cannot edit messages with media" when it has media, and only then 400 "Message edit time limit exceeded (5 minutes)" when it is older than five minutes; passes exactly when the message is the caller's, has no media and is at most five minutes old |
| EditMessage.ApplyEdit | backend/api/edit_message.php:69-74 | only the row with the id changes, to the new text, flagged edited at `now` |
| EditMessage.ApplyEditKeepsIds | backend/api/edit_message.php:69-74 | the update keeps every id below the next message id |
| EditMessage.EditAgain | backend/api/edit_message.php:35-74 | an edited message stays editable: a second edit inside the five-minute window is accepted |
| EditMessage.EditWindowBoundary | backend/api/edit_message.php:60-66 | the limit is inclusive: exactly five minutes old may be edited, one second more may not |
| EditMessage.Edit | backend/api/edit_message.php:10-93 | succeeds exactly when the body parses, a live message has the id and it is editable by the caller now; a refusal answers CheckEdit's code and text and leaves messages unchanged; an accepted one applies the edit and answers with the edited row |
| DeleteMessage.ParseDelete | backend/api/delete_message.php:11-18 | refused with 400 "Message ID required" exactly when the body is falsy or has no message_id; delete_for_everyone is its truthiness |
| DeleteMessage.CheckDelete | backend/api/delete_message.php:11-52 | 404 "Message not found" exactly when no live message has the id; 403 "You can only delete your own messages" exactly when it is someone else's; 400 "Message delete time limit exceeded (5 minutes)" for the caller's own message deleted for everyone after five minutes; passes exactly when it is the caller's and, for everyone, at most five minutes old |
| DeleteMessage.ApplyDelete | backend/api/delete_message.php:56-61 | only rows with the id change: flagged deleted at `now`, content replaced by "[Message deleted]" |
| DeleteMessage.ApplyDeleteKeepsIds | backend/api/delete_message.php:56-61 | the update keeps every id below the next message id |
| DeleteMessage.DeleteAgainNotFound | backend/api/delete_message.php:24-35 | after a delete no live row has the id, so deleting again answers 404 |
| DeleteMessage.DeletedIsHidden | backend/api/delete_message.php:56-61 | a deleted message is hidden from every reader at every later time |
| DeleteMessage.Delete | backend/api/delete_message.php:10-90 | succeeds exactly when the body parses, a live message has the id, it is the caller's and, for everyone, at most five minutes old; a refusal answers CheckDelete's code and text and changes nothing; otherwise the soft delete, and for everyone the media file is removed; the two success messages differ |
| MarkMessageRead.RequestedIds | backend/api/mark_message_read.php:11-29 | invalid JSON, then neither message_id nor an array message_ids, then an empty array are refused with 400; message_id wins over message_ids; a non-empty message_ids array gives exactly the set of the (int) values of its elements; an accepted set is non-empty |
| MarkMessageRead.IdsOf | backend/api/mark_message_read.php:21-22 | an id is in the set exactly when (int) of some element of the message_ids array gives it; a non-empty array gives a non-empty set, anything else the empty set |
| MarkMessageRead.ValidIds | backend/api/mark_message_read.php:36-51 | at most one id per row, each one requested |
| MarkMessageRead.ValidIdsSnoc | backend/api/mark_message_read.php:49-51 | one more row appends its id exactly when the SELECT returns it |
| MarkMessageRead.ValidIdsExact | backend/api/mark_message_read.php:36-51 | an id is valid exactly when a requested, undeleted message to the caller carries it |
| MarkMessageRead.CollectValidIds | backend/api/mark_message_read.php:48-51 | the fetch loop collects exactly ValidIds |
| MarkMessageRead.MarkRead | backend/api/mark_message_read.php:62-68 | exactly the valid rows still unread become read at `now`; all others are unchanged |
| MarkMessageRead.MarkedCount | backend/api/mark_message_read.php:70 | affected_rows is the number of valid rows that were still unread, so it never exceeds the table |
| MarkMessageRead.ShortenVanish | backend/api/mark_message_read.php:73-81 | exactly the valid vanish rows expiring more than an hour from now get an expiry one hour from now |
| MarkMessageRead.MarkReadAgain | backend/api/mark_message_read.php:62-70 | marking the same ids again at any later time counts 0 and changes nothing |
| MarkMessageRead.NoUnreadCountsZero | backend/api/mark_message_read.php:62-70 | with no unread valid row, marked_count is 0 |
| MarkMessageRead.ShortenNeverExtends | backend/api/mark_message_read.php:73-81 | no expiry grows and none appears, and a valid vanish message ends within the hour |
| MarkMessageRead.OnlyOwnMessagesChange | backend/api/mark_message_read.php:36-81 | with unique ids, every row the UPDATEs may touch is a requested, undeleted message to the caller |
| MarkMessageRead.UpdatesKeepIds | backend/api/mark_message_read.php:57-83 | the two UPDATEs keep every id below the next message id |
| MarkMessageRead.Mark | backend/api/mark_message_read.php:10-88 | the request errors and "No valid messages found to mark as read" leave messages unchanged; success exactly when some requested id (every id of message_ids) is valid, applying both UPDATEs and answering the affected count and the valid ids |
| MarkNotificationRead.Requested | backend/api/mark_notification_read.php:11-29 | notification_id wins over an array notification_ids, which wins over a truthy mark_all; an empty array and a request with none of them are refused with the script's 400 messages |
| MarkNotificationRead.OwnedIds | backend/api/mark_notification_read.php:57-70 | at most one id per row, each one requested |
| MarkNotificationRead.OwnedIdsSnoc | backend/api/mark_notification_read.php:68-70 | one more row appends its id exactly when it is requested and the caller's |
| MarkNotificationRead.OwnedIdsExact | backend/api/mark_notification_read.php:57-70 | an id comes back exactly when a requested row of the caller's carries it |
| MarkNotificationRead.CollectOwnedIds | backend/api/mark_notification_read.php:67-70 | the fetch loop collects exactly OwnedIds |
| MarkNotificationRead.MarkRead | backend/api/mark_notification_read.php:36-42 | exactly the selected rows still unread become read; all others are unchanged |
| MarkNotificationRead.MarkAllClearsUnread | backend/api/mark_notification_read.php:34-48 | after mark_all the caller has no unread notification, the count is their former unread count, and other users' rows are unchanged |
| MarkNotificationRead.OnlyOwnedChange | backend/api/mark_notification_read.php:55-84 | with unique ids, the listed UPDATE touches only requested rows of the caller's |
| MarkNotificationRead.MarkAgain | backend/api/mark_notification_read.php:78-86 | marking the same selection again counts 0 and changes nothing |
| MarkNotificationRead.UpdateKeepsIds | backend/api/mark_notification_read.php:78-84 | the update keeps every id below the next notification id |
| MarkNotificationRead.Mark | backend/api/mark_notification_read.php:10-91 | refusals, including "No valid notifications found", leave the table unchanged; mark_all and a listed request apply their UPDATE and answer with the affected count, plus the valid ids for a listed request |
| RegisterFcmToken.Parse | backend/api/register_fcm_token.php:11-26 | 400 "FCM token required" without a body or token, 400 "FCM token cannot be empty" for a blank token; passes exactly when a body with a token that is non-blank after trimming is given, with the trimmed token and the device type, android unless it is android or ios |
| RegisterFcmToken.Register | backend/api/register_fcm_token.php:31-60 | afterwards the pair is active with the new device type; the table grows by one exactly for a new pair; rows of the pair are reactivated and every other row is unchanged |
| RegisterFcmToken.RegisterUpserts | backend/api/register_fcm_token.php:31-60 | one row per (user, token) is kept: the upsert never duplicates a key |
| RegisterFcmToken.RegisterIdempotent | backend/api/register_fcm_token.php:31-60 | registering the same token twice leaves the table as registering it once |
| RegisterFcmToken.RegisteredTokenIsPushed | backend/api/register_fcm_token.php:38-53 | once registered, every notification to the user is pushed to this token |
| RegisterFcmToken.Store | backend/api/register_fcm_token.php:10-59 | succeeds exactly when the body carries a token that is non-blank after trimming; a refusal leaves tokens unchanged; otherwise the upsert, answered "updated" for a known pair and "registered" for a new one |
| CreatePost.DraftOf | backend/api/create_post.php:17-31 | content and media URL are trimmed; the privacy is the requested one when it is public, private or followers and public otherwise; the media type is passed through as given; no location gives an empty one |
| CreatePost.Check | backend/api/create_post.php:11-36 | 400 for an empty body, 400 when both trimmed content and media URL are empty, 400 for a media type outside image, video and audio; passes exactly when none of these holds, with the draft |
| CreatePost.Create | backend/api/create_post.php:10-79 | a refusal leaves posts and the post counter unchanged; otherwise exactly one post row with the next id, the caller and the draft's fields, the counter advanced by one, answered not liked with "Post created successfully" |
| CreateStory.Check | backend/api/create_story.php:11-36 | 400 for an empty body, missing media URL or type, a media type other than image or video, or a trimmed caption over 200 bytes; passes exactly when none holds, with the trimmed URL and caption |
| CreateStory.NewRow | backend/api/create_story.php:41-49 | a new story expires STORY_EXPIRY_TIME seconds after it is created |
| CreateStory.Lifetime | backend/api/create_story.php:41-49 | a new story is shown exactly until its expiry and is removed by the reaper only after that instant |
| CreateStory.Create | backend/api/create_story.php:10-87 | a refusal leaves stories and the story counter unchanged; otherwise exactly one story row with the next id, the counter advanced by one, answered not viewed with "Story created successfully" |
| CommentPost.Check | backend/api/comment_post.php:13-54 | 400 "Post ID and content required" without body, post id or content; 400 "Comment content cannot be empty" for blank content; 400 "Comment is too long (max 1000 characters)" over 1000 bytes; 404 "Post not found" for an unknown post; 404 "Parent comment not found" for a non-zero parent that is not a comment on the post; passes exactly when every check holds, with the post, the trimmed content and the parent |
| CommentPost.ReplyOnSamePost | backend/api/comment_post.php:44-54 | an accepted reply's parent is a comment on the same post |
| CommentPost.Insert | backend/api/comment_post.php:56-108 | one comment row with the next id and the comment counter advanced; the post owner is notified "commented on your post", with its pushes, unless the owner is the caller, and otherwise notifications and outbox are unchanged; answered not liked |
| CommentPost.Submit | backend/api/comment_post.php:10-118 | a refusal answers Check's code and text (including "Parent comment not found") and leaves comments, counters, notifications and outbox unchanged; otherwise the writes of Insert |
| LikePost.FindPost | backend/api/like_post.php:23-30 | finds a post with the requested id exactly when one is on file |
| LikePost.Check | backend/api/like_post.php:13-30 | 400 "Post ID required" without a body or post id; 404 "Post not found" exactly when no post has the id; passes exactly when a body with a post id names a post on file, with that post |
| LikePost.Toggle | backend/api/like_post.php:34-56 | a liked pair loses every like row of that pair and nothing else; an unliked pair gains one row |
| LikePost.ToggleFlips | backend/api/like_post.php:40-56 | the toggle flips the caller's like on the post and no other pair's |
| LikePost.LikeThenUnlike | backend/api/like_post.php:45-56 | liking then unliking gives the like table back |
| LikePost.ToggleLike | backend/api/like_post.php:10-97 | succeeds exactly when the body names a post on file; a refusal leaves likes, notifications and outbox unchanged; otherwise the like table is toggled, the owner is notified (with pushes) only of a new like by someone else and nothing is sent otherwise, and the answer reports the action, the new state and the post's like count |
| ViewStory.FindLiveStory | backend/api/view_story.php:23-34 | finds a story with the id exactly when one is on file and not expired |
| ViewStory.Check | backend/api/view_story.php:13-34 | 400 "Story ID required" without a body or story id; 404 "Story not found or expired" exactly when no live story has the id; passes exactly when a body with a story id names a live story, with that story |
| ViewStory.Viewed | backend/api/view_story.php:39-49 | after the call the viewer has a view of the story; a repeat view leaves the table as it was, a first view adds one row |
| ViewStory.ViewIdempotent | backend/api/view_story.php:39-70 | viewing twice leaves the table as viewing once |
| ViewStory.ViewedUnique | backend/api/view_story.php:39-49 | one view row per (story, viewer) is kept |
| ViewStory.View | backend/api/view_story.php:10-87 | succeeds exactly when the body names a live story; a refusal leaves views, notifications and outbox unchanged; otherwise the view is recorded, the owner is notified (with pushes) only of a first view by someone else and nothing is sent otherwise, and the answer is "Story view recorded" or "Story already viewed" |
| SendFollowRequest.TargetUser | backend/api/send_follow_request.php:13-21 | 400 "User ID required" without a body or user id; 400 for the caller's own id; otherwise the target, never the caller |
| SendFollowRequest.Check | backend/api/send_follow_request.php:13-57 | a bad target is refused with 400; 404 exactly when the target is not on file; passes exactly when the target exists, is not yet followed and the first request of the pair is not pending, with the account's privacy |
| SendFollowRequest.AcceptPair | backend/api/send_follow_request.php:77-80 | every request of the pair, and only those, becomes accepted |
| SendFollowRequest.StagedPending | backend/api/send_follow_request.php:47-70 | a request on file is reopened, not duplicated; otherwise one row is added; either way the pair's first request is pending |
| SendFollowRequest.Staged | backend/api/send_follow_request.php:47-70 | the table grows by one row exactly when the pair has no request yet, that row being pending with the next id and `now`; every earlier row keeps its fields and can only change status, to pending |
| SendFollowRequest.StagedKeepsGraph | backend/api/send_follow_request.php:47-70 | putting a request on file keeps "every accepted request has its follower row" |
| SendFollowRequest.AcceptKeepsGraph | backend/api/send_follow_request.php:73-88 | accepting the pair together with the follower row keeps that invariant |
| SendFollowRequest.NoAcceptedUnlessFollowing | backend/api/send_follow_request.php:38-57 | under the invariant a pair that does not follow has no accepted request, so the first request is pending or rejected |
| SendFollowRequest.SendTwiceRefused | backend/api/send_follow_request.php:38-57 | sending again is refused: "Follow request already sent" for a private account, "Already following this user" for a public one |
| SendFollowRequest.Stage | backend/api/send_follow_request.php:47-70 | the request table becomes the staged one: a new pending row with the next id, or the rejected row reopened; the id counter advances exactly when a row is inserted |
| SendFollowRequest.AutoAccept | backend/api/send_follow_request.php:73-92 | the pair's requests are accepted and exactly one follower row is appended |
| SendFollowRequest.Ask | backend/api/send_follow_request.php:93-112 | a private account: the staged request, one "wants to follow you" notification with its pushes (AfterSend), answered pending |
| SendFollowRequest.FollowAtOnce | backend/api/send_follow_request.php:72-112 | a public account: the staged request accepted, one follower row, answered accepted and following; the id counter advances exactly when a row is inserted |
| SendFollowRequest.Send | backend/api/send_follow_request.php:10-117 | a refusal leaves requests, the request counter, followers, notifications and outbox unchanged; otherwise a private account gets a pending request and a notification with its pushes, a public one is followed at once and nothing is sent |
| RespondFollowRequest.Parse | backend/api/respond_follow_request.php:13-29 | 400 "Invalid JSON input" for an empty body; every refusal is a 400; with both fields present, 400 "Invalid action. Use \"accept\" or \"reject\"" for any other action; passes exactly otherwise, with the request id and whether it is an accept |
| RespondFollowRequest.MissingRefused | backend/api/respond_follow_request.php:17-22 | a missing request_id, a missing action, or both are refused with "Missing required fields: " followed by the missing names in list order, joined by ", " |
| RespondFollowRequest.SetStatus | backend/api/respond_follow_request.php:59-61 | the rows with the id, and only those, take the new status; the table keeps its length |
| RespondFollowRequest.AcceptKeepsGraph | backend/api/respond_follow_request.php:57-72 | accepting keeps one follower row per pair and "every accepted request has its follower row", and the sender then follows the caller |
| RespondFollowRequest.RejectKeepsGraph | backend/api/respond_follow_request.php:90-94 | rejecting keeps that invariant |
| RespondFollowRequest.AnsweredOnce | backend/api/respond_follow_request.php:35-48 | an answered request is no longer found by the lookup, so answering again is a 404 |
| RespondFollowRequest.Respond | backend/api/respond_follow_request.php:10-116 | a bad body is refused and writes nothing; a request that is not pending, not addressed to the caller or without a sender row is a 404 that writes nothing and sends nothing; accept marks it accepted, adds the follower row and notifies the sender with pushes (AfterSend); reject marks it rejected and sends nothing |
| RespondFollowRequest.Find | backend/api/respond_follow_request.php:35-52 | the 404 when the lookup finds nothing, leaving requests, followers, notifications and outbox unchanged; otherwise the answer of the request found |
| RespondFollowRequest.Answered | backend/api/respond_follow_request.php:54-106 | the accept path (status, follower row, "follow_accepted" notification with its pushes, "Follow request accepted") or the reject path (status, nothing sent, "Follow request rejected") |
| RespondFollowRequest.RejectRequest | backend/api/respond_follow_request.php:92-94 | the request table becomes SetStatus(rejected) and the invariant holds |
| RespondFollowRequest.AcceptRequest | backend/api/respond_follow_request.php:59-72 | the request is accepted, the follower row added if missing, and the sender now follows the caller |
| Unfollow.Unfollowed | backend/api/unfollow.php:39-41 | afterwards the pair has no follower row; every other row is kept and no row is added |
| Unfollow.Withdrawn | backend/api/unfollow.php:44-50 | the caller's accepted requests to the user, and only those, become rejected; none of the pair stays accepted |
| Unfollow.UnfollowKeepsGraph | backend/api/unfollow.php:35-52 | the two writes together keep "every accepted request has its follower row" |
| Unfollow.UnfollowUndoesFollow | backend/api/unfollow.php:39-41 | following a user and then unfollowing them gives the follower table back |
| Unfollow.FollowAgain | backend/api/unfollow.php:43-50 | after unfollowing, a new follow request is not turned away as "Already following this user" |
| Unfollow.Check | backend/api/unfollow.php:13-33 | 400 "User ID required" or "Cannot unfollow yourself" as the target check says; passes exactly when the caller follows the target |
| Unfollow.Unfollow | backend/api/unfollow.php:10-64 | a refusal writes nothing; otherwise the follower row is deleted, the accepted request withdrawn, and the answer is not following |
| UpdateProfile.FieldChange | backend/api/update_profile.php:28-36 | is_private, and only it, is bound as a boolean cast of the body value; every other allowed field as the sanitised string |
| UpdateProfile.Collect | backend/api/update_profile.php:20-38 | the foreach collects one change per allowed field the body names, in the allowed list's order |
| UpdateProfile.Apply | backend/api/update_profile.php:70-72 | applying the SET list never changes the row's id |
| UpdateProfile.ApplyPresent | backend/api/update_profile.php:28-37 | one allowed field's change sets that column when the body names it and leaves the row alone otherwise |
| UpdateProfile.Whitelist | backend/api/update_profile.php:25-38 | the collected changes set exactly the allowed columns the body names and leave every other column, the username included, as it was |
| UpdateProfile.Plan | backend/api/update_profile.php:13-64 | 400 "Invalid JSON input" for an empty body; with a username: 400 "Invalid username format" when it fails validation, 400 "Username already taken" when another user holds it, and a pass otherwise; without one: 400 "No fields to update" exactly when no allowed field is present; a passing SET list is the allowed fields present, then SetUsername of the sanitized name when one was given |
| UpdateProfile.ChangesEmpty | backend/api/update_profile.php:27-38 | the foreach collects nothing exactly when the body names none of the allowed fields |
| UpdateProfile.ChangesBuilt | backend/api/update_profile.php:27-38 | the foreach never changes the username |
| UpdateProfile.NoUsernameChange | backend/api/update_profile.php:27-38 | no prefix of the allowed list yields a username change |
| UpdateProfile.UpdatedUnique | backend/api/update_profile.php:41-72 | the UPDATE keeps user ids and usernames unique |
| UpdateProfile.ApplyUsername | backend/api/update_profile.php:41-60 | after the changes the username is the old one or a name no other user holds |
| UpdateProfile.Update | backend/api/update_profile.php:10-97 | a refusal leaves users unchanged; otherwise only the caller's row is updated with the plan and the answer is that row as read back |
| InitiateCall.Parse | backend/api/initiate_call.php:13-33 | 400 for an empty body, missing fields, a call type other than audio and video, or the caller's own id; passes exactly otherwise, with the receiver and call type |
| InitiateCall.ChannelSymmetric | backend/api/initiate_call.php:51 | the channel name is the same whichever of the two users calls |
| InitiateCall.Title | backend/api/initiate_call.php:70 | the notification title is "Audio Call" for audio and "Video Call" for video |
| InitiateCall.Initiate | backend/api/initiate_call.php:10-100 | a refusal, or an unknown receiver (404), leaves calls, the call counter, notifications and outbox unchanged; otherwise one initiated call session with the next id and the channel name, one "is calling you" notification with its pushes (AfterSend), and the answer with the call id and channel |
| EndCall.Parse | backend/api/end_call.php:13-22 | 400 "Call ID required" exactly without a body or call id; the status is the requested one when it is ended, missed or declined, and ended otherwise |
| EndCall.FindCall | backend/api/end_call.php:28-39 | finds a session with the id exactly when one is on file |
| EndCall.Check | backend/api/end_call.php:13-46 | the 400 of Parse; 404 "Call session not found" exactly when no session has the id; 403 "You are not part of this call" exactly when the caller is neither its caller nor its receiver; passes exactly when the body parses and the caller takes part in the session, with the session and the status |
| EndCall.Duration | backend/api/end_call.php:48-53 | the duration is non-zero only when an answered call is ended, and is then the seconds since it started |
| EndCall.Ended | backend/api/end_call.php:56-61 | the sessions with the id, and only those, take the status, the end time and the duration |
| EndCall.Other | backend/api/end_call.php:65 | the other participant is a participant, and not the caller unless the call is with oneself |
| EndCall.EndTwiceNoDuration | backend/api/end_call.php:48-61 | ending a call a second time reports no duration |
| EndCall.Notice | backend/api/end_call.php:72-89 | declined and ended calls, and only those, notify the other participant, titled "Call Declined" and "Call Ended" |
| EndCall.End | backend/api/end_call.php:10-103 | succeeds exactly when the body parses and the caller takes part in the session with the id; a refusal answers its code and writes nothing; otherwise the session is updated, the other participant notified with pushes exactly as Notice says (nothing sent otherwise), and the status and duration answered |
| ReportScreenshot.Parse | backend/api/report_screenshot.php:13-21 | 400 "Chat user ID required" without a body or the id; 400 for the caller's own id; passes exactly otherwise, with the other user |
| ReportScreenshot.Alert | backend/api/report_screenshot.php:44-48 | the chat is stored as the two ids in ascending order, together with the reporter |
| ReportScreenshot.SamePairEitherWay | backend/api/report_screenshot.php:44-48 | both users of a chat store the same pair |
| ReportScreenshot.Report | backend/api/report_screenshot.php:10-80 | a refusal, or an unknown user (404), leaves alerts, notifications and outbox unchanged; otherwise one alert row and one "screenshot_alert" notification with its pushes (AfterSend) to the other user, answered with that user's name |
| SyncOfflineActions.SendMessageStep | backend/api/sync_offline_actions.php:118-149 | succeeds exactly when receiver_id is set and content or media is non-empty; refusals "Missing field: receiver_id" then "Message must have content or media" write nothing; a success appends the message with the next id, message_type stored unchecked, and answers that id |
| SyncOfflineActions.CreatePostStep | backend/api/sync_offline_actions.php:151-170 | succeeds exactly when content or media is non-empty; otherwise "Post must have content or media" and nothing written; a success appends a public post with the next id and answers that id |
| SyncOfflineActions.LikePostStep | backend/api/sync_offline_actions.php:172-192 | succeeds exactly when post_id is set and the user has no like on it; refusals "Post ID required" then "Post already liked" write nothing; a success appends the like row |
| SyncOfflineActions.CommentPostStep | backend/api/sync_offline_actions.php:194-213 | succeeds exactly when post_id and content are both non-empty; refusals "Missing field: post_id" then "Missing field: content" write nothing; a success appends a top-level comment with the next id and answers that id |
| SyncOfflineActions.FollowUserStep | backend/api/sync_offline_actions.php:215-240 | succeeds exactly when user_id is set and the user neither follows the target nor has a pending request to them; refusals "User ID required" then "Already following or request exists"; a success appends a pending request with the next id |
| SyncOfflineActions.UploadStoryStep | backend/api/sync_offline_actions.php:242-267 | succeeds exactly when media_url and media_type are set; refusals "Missing field: media_url" then "Missing field: media_type"; a success appends a story expiring STORY_EXPIRY_TIME from now and answers its id |
| SyncOfflineActions.HandlerOf | backend/api/sync_offline_actions.php:44-72 | a type selects no handler exactly when it is none of the six case labels |
| SyncOfflineActions.BatchAccepted | backend/api/sync_offline_actions.php:13-15 | a batch is accepted exactly when the body is non-empty and actions is set and an array |
| SyncOfflineActions.WellFormed | backend/api/sync_offline_actions.php:24-33 | a well-formed action has a non-empty action_type and non-empty data |
| SyncOfflineActions.ActionName | backend/api/sync_offline_actions.php:24-44 | a string action_type is its own name; the loose `true` selects the send_message case; any other non-string selects no handler |
| SyncOfflineActions.Dispatch | backend/api/sync_offline_actions.php:44-72 | a failing handler or an unsupported type writes nothing; a success inserts exactly one row |
| SyncOfflineActions.Step | backend/api/sync_offline_actions.php:24-97 | a failed action is rolled back and leaves the tables as they were; a successful one inserts exactly one row; the result carries the action's client id |
| SyncOfflineActions.Run | backend/api/sync_offline_actions.php:23-98 | one result per action, in order, each with that action's client id |
| SyncOfflineActions.RunSnoc | backend/api/sync_offline_actions.php:23-98 | one more iteration runs the next action on the tables the earlier actions left |
| SyncOfflineActions.Summarize | backend/api/sync_offline_actions.php:100-109 | the total is the number of results, failed is non-negative, and failed is exactly the number of failed results |
| SyncOfflineActions.CountSplit | backend/api/sync_offline_actions.php:100-108 | successes and failures together are all the results |
| SyncOfflineActions.RunInsertsOneRowPerSuccess | backend/api/sync_offline_actions.php:37-97 | a batch inserts exactly as many rows as it reports successes |
| SyncOfflineActions.InvalidFormat | backend/api/sync_offline_actions.php:28-35 | "Invalid action format" is the result exactly for the actions whose type or data is empty |
| SyncOfflineActions.UnsupportedType | backend/api/sync_offline_actions.php:69-71 | a well-formed action of an unknown type fails with "Unsupported action type" and writes nothing |
| SyncOfflineActions.OfflineMessage | backend/api/sync_offline_actions.php:127-144 | an offline message is the caller's, to the given receiver, with its new id answered; it has no expiry, so the expiry sweep never removes it |
| SyncOfflineActions.LikeTwice | backend/api/sync_offline_actions.php:178-186 | replaying the same like fails with "Post already liked" |
| SyncOfflineActions.FollowTwice | backend/api/sync_offline_actions.php:221-233 | replaying the same follow fails with "Already following or request exists" |
| SyncOfflineActions.FollowAfterRejection | backend/api/sync_offline_actions.php:221-239 | only a pending request blocks a new one: with none, a new pending row is appended |
| SyncOfflineActions.OfflineStory | backend/api/sync_offline_actions.php:251-261 | an offline story expires STORY_EXPIRY_TIME after the upload and keeps any media type |
| SyncOfflineActions.ProcessSendMessage | backend/api/sync_offline_actions.php:118-149 | the tables and outcome are those of SendMessageStep |
| SyncOfflineActions.ProcessCreatePost | backend/api/sync_offline_actions.php:151-170 | the tables and outcome are those of CreatePostStep |
| SyncOfflineActions.ProcessLikePost | backend/api/sync_offline_actions.php:172-192 | the tables and outcome are those of LikePostStep |
| SyncOfflineActions.ProcessCommentPost | backend/api/sync_offline_actions.php:194-213 | the tables and outcome are those of CommentPostStep |
| SyncOfflineActions.ProcessFollowUser | backend/api/sync_offline_actions.php:215-240 | the tables and outcome are those of FollowUserStep |
| SyncOfflineActions.ProcessUploadStory | backend/api/sync_offline_actions.php:242-267 | the tables and outcome are those of UploadStoryStep |
| SyncOfflineActions.ProcessHandler | backend/api/sync_offline_actions.php:44-72 | the tables and outcome are those of Dispatch |
| SyncOfflineActions.ProcessAction | backend/api/sync_offline_actions.php:24-97 | the tables and result are those of Step |
| SyncOfflineActions.Sync | backend/api/sync_offline_actions.php:10-115 | a body without an actions array is refused with 400 and writes nothing; otherwise the tables and results are those of Run over the actions, with the summary and "Processed n out of m actions" |

## Left out

- HMAC-SHA256 signing (`hash_hmac`, `hash_equals`) is a parameter `sign` of the JWT functions; the JSON codec is the pair of parameters `toJson`/`fromJson`; `htmlspecialchars` in `sanitizeString` is the parameter `escape`. None of them is re-implemented.
- `password_hash`, `password_verify`, `random_bytes` and `uniqid` are not modelled: they are foreign cryptography and randomness.
- `Notification::sendFCM` is a curl request. Each attempted push is recorded in the outbox; its result is ignored, as the source ignores it.
- The `rand(1, 100)` draw that runs the cleanup in backend/index.php:9-11 is random; the cleanup itself is the explicit operation `Db.Database.CleanupExpiredData`.
- The 405 answers to a wrong HTTP method and `Auth::requireAuth` are not modelled: each endpoint takes the authenticated caller id as a parameter. `Auth::verifyToken` and `Auth::getCurrentUser` (header parsing) are not part of this model.
- The 500 answers from exceptions and from a failed `execute()`, and the "Failed to ..." errors, are not modelled: every statement succeeds. A transaction is one atomic step of a method.
- upload_media.php, login.php, register.php, logout.php, refresh_token.php, user_status.php, get_comments.php, get_agora_token.php and test_db.php are not part of this model, nor are the root-level legacy scripts: they are credential handling, file I/O, mocks or single statements.
- `FileUpload::validateFile` (finfo) and `FileUpload::generateUniqueFileName` (uniqid, time) are file-system and randomness helpers; uploaded files appear only as the set `Db.Database.files` that message deletion releases from.
- The `Database` connection wrapper and `getDB()` are not part of this model; the tables are one explicit `Db.Database` object. Of backend/includes/config.php only the constants are kept.
- Dates are integer seconds; `date()` formatting of timestamps in responses is not modelled.
- `Php.InList` models `in_array` for string values only; PHP's loose matches (`true`, numeric strings) are not modelled. JSON numbers are integers: floats are absent.
- `Php.Elements` lists an object's values by ascending key, where PHP keeps insertion order.
- `Php.Trim` is applied to strings only; the TypeError `trim` raises on an array is not modelled.
- `SearchUsers.Matches`: SQL `LIKE '%q%'` is plain substring containment; `%` and `_` inside the query and the case-insensitive collation are not modelled.
- `SearchUsers.Rank`: `LIKE 'q%'` is a plain prefix test, with the same gaps (wildcards in the query, case-insensitive collation); the tie-break `ORDER BY username` compares code points, not the database collation.
- `Php.ToInt`: reads an optional sign and the leading decimal digits of a string; PHP's numeric strings with a fraction or an exponent (`(int)"1e3"` is 1000) are not modelled.
- `Profile.Show`: profile.php:46 and :66 compare the caller's id with the raw `user_id` query string loosely (`!=`, `==`); the model compares it with the integer the query string reads as, so a string such as "2abc" is taken for user 2.
- `GetPosts.Hidden`: get_posts.php:30 compares the viewer's id with the raw `user_id` query string loosely; the model compares the integer the string reads as, the value the prepared statement binds.
- `GetMessages.PageRows` does not apply the join on the sender's user row (get_messages.php:53): a message whose sender row is missing is still listed.
- `likes_count` and `views_count` are the number of like and view rows, standing in for the counter columns the database maintains.
- Joined user columns other than id, username, first and last name, bio and privacy (profile picture, email, online status) are not modelled.
- Column defaults the scripts rely on (for example the media type of an offline message) are written out in the model.
- `Php.StrLen` counts UTF-8 bytes of the characters; it does not model invalid byte sequences.
- Sorting by time keeps table order for ties, where MySQL leaves the order of ties unspecified.

## Findings

| source | as written | input that shows it | evidently intended | confidence | as-written member | corrected member |
|---|---|---|---|---|---|---|
| backend/api/get_conversations.php:69-80 | the type string `'iiiiiiiiii'` names ten variables but nine are bound, so `bind_param` refuses the call and the endpoint always fails | any authenticated request | nine types for the nine placeholders, and the page of conversations returned | not executed | GetConversations.AsWrittenAlwaysFails | GetConversations.List |
| backend/api/get_stories.php:62-85 | for an anonymous viewer the WHERE clause is empty, so `AND s.expires_at > NOW()` becomes part of the LEFT JOIN condition and expired stories are still grouped and counted | no token; one user with one story that expired a day ago | only stories whose `expires_at` lies in the future are counted | not executed | GetStories.AnonymousFeedCountsExpired | GetStories.FeedCountsLiveStories |
