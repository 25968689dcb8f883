/**
 * GET api/get_conversations.php: the caller's chats, one row per partner and
 * latest message, newest first, with the number of unread messages from that
 * partner.
 *
 * As written the endpoint never answers: its main query has nine
 * placeholders and binds nine variables, but the type string passed to
 * bind_param names ten. `ListAsWritten` models that; `List` models the
 * intended query, which the rest of the model is about.
 */
module GetConversations {
  import opened Wrappers
  import opened Php
  import opened Http
  import opened Schema
  import Seqs

  // ---------------------------------------------------------------- as written

  /** The type string passed to bind_param for the main query. */
  const MAIN_QUERY_TYPES: string := "iiiiiiiiii"
  /** The variables bound after it: the caller's id seven times, then limit and offset. */
  const MAIN_QUERY_VARIABLES: nat := 9
  /** The `?` placeholders in the main query. */
  const MAIN_QUERY_PLACEHOLDERS: nat := 9

  /** mysqli_stmt::bind_param accepts the call only when the type string names every bound variable. */
  predicate BindParamAccepts(types: string, variables: nat) {
    |types| == variables
  }

  /**
   * The endpoint as written: bind_param rejects its arguments and throws an
   * ArgumentCountError, which the `catch (Exception $e)` does not catch, so
   * the request ends with HTTP 500 and no JSON body.
   */
  function ListAsWritten(users: seq<User>, messages: seq<Message>, caller: int, query: Value, now: int)
    : (r: Response<Paged<ConversationRow>>)
    ensures r.Failure? ==> r.code == 500
  {
    if BindParamAccepts(MAIN_QUERY_TYPES, MAIN_QUERY_VARIABLES) then List(users, messages, caller, query, now)
    else Failure(500, "")
  }

  /** Whatever the tables and the request, the endpoint as written fails. */
  lemma AsWrittenAlwaysFails(users: seq<User>, messages: seq<Message>, caller: int, query: Value, now: int)
    ensures |MAIN_QUERY_TYPES| == MAIN_QUERY_PLACEHOLDERS + 1
    ensures ListAsWritten(users, messages, caller, query, now).Failure?
  {
    assert |MAIN_QUERY_TYPES| == 10;
  }

  // ---------------------------------------------------------------- the intended query

  /** A live message the caller sent or received. */
  predicate Involves(m: Message, caller: int, now: int) {
    (m.senderId == caller || m.receiverId == caller) && LiveMessage(m, now)
  }

  /** CASE WHEN sender_id = caller THEN receiver_id ELSE sender_id END. */
  function Partner(m: Message, caller: int): (p: int)
    ensures m.senderId == caller ==> p == m.receiverId
    ensures m.receiverId == caller && m.senderId != caller ==> p == m.senderId
  {
    if m.senderId == caller then m.receiverId else m.senderId
  }

  /** A message of the caller's chat with `partner` is exactly a live one between the two. */
  lemma PartnerIsBetween(m: Message, caller: int, partner: int, now: int)
    requires Involves(m, caller, now)
    ensures Partner(m, caller) == partner <==> BetweenPair(m, caller, partner) && LiveMessage(m, now)
  {
  }

  /** MAX(created_at) over the live messages of the caller's chat with `partner`; None when there are none. */
  function LastTime(messages: seq<Message>, caller: int, partner: int, now: int): (t: Option<int>)
    ensures t.None? <==> forall k :: 0 <= k < |messages| ==>
                           !(Involves(messages[k], caller, now) && Partner(messages[k], caller) == partner)
    ensures t.Some? ==> forall k :: (0 <= k < |messages| && Involves(messages[k], caller, now)
                                     && Partner(messages[k], caller) == partner) ==> messages[k].createdAt <= t.value
    ensures t.Some? ==> exists k :: 0 <= k < |messages| && Involves(messages[k], caller, now)
                           && Partner(messages[k], caller) == partner && messages[k].createdAt == t.value
  {
    if messages == [] then None
    else
      var rest := LastTime(messages[1..], caller, partner, now);
      var m := messages[0];
      var t: Option<int> :=
        if !(Involves(m, caller, now) && Partner(m, caller) == partner) then rest
        else if rest.None? || rest.value < m.createdAt then Some(m.createdAt)
        else rest;
      assert forall k :: 1 <= k < |messages| ==> messages[k] == messages[1..][k - 1];
      assert rest.Some? ==> exists k :: 0 <= k < |messages| && Involves(messages[k], caller, now)
                              && Partner(messages[k], caller) == partner && messages[k].createdAt == rest.value by {
        if rest.Some? {
          var j :| 0 <= j < |messages| - 1 && Involves(messages[1..][j], caller, now)
                   && Partner(messages[1..][j], caller) == partner && messages[1..][j].createdAt == rest.value;
          assert messages[j + 1] == messages[1..][j];
        }
      }
      t
  }

  /** The JOIN on `latest`: a live message of the caller's whose time is the newest of its chat. */
  predicate IsLatest(m: Message, messages: seq<Message>, caller: int, now: int) {
    Involves(m, caller, now) && LastTime(messages, caller, Partner(m, caller), now) == Some(m.createdAt)
  }

  /** The latest messages, one per chat unless several share the newest time, in table order. */
  function LatestMessages(messages: seq<Message>, caller: int, now: int): (r: seq<Message>)
    ensures forall m :: m in r <==> m in messages && IsLatest(m, messages, caller, now)
  {
    Seqs.Filter(messages, (m: Message) => IsLatest(m, messages, caller, now))
  }

  /**
   * The join on MAX(created_at) has no tie-break: two live messages of one
   * chat sent in the same second are both "latest", so that partner gets two rows.
   */
  lemma TiesGiveDuplicateRows(messages: seq<Message>, caller: int, now: int, i: int, j: int)
    requires 0 <= i < |messages| && 0 <= j < |messages|
    requires Involves(messages[i], caller, now) && Involves(messages[j], caller, now)
    requires Partner(messages[i], caller) == Partner(messages[j], caller)
    requires messages[i].createdAt == messages[j].createdAt
    requires forall k :: (0 <= k < |messages| && Involves(messages[k], caller, now)
                          && Partner(messages[k], caller) == Partner(messages[i], caller))
                         ==> messages[k].createdAt <= messages[i].createdAt
    ensures messages[i] in LatestMessages(messages, caller, now) && messages[j] in LatestMessages(messages, caller, now)
  {
    var t := LastTime(messages, caller, Partner(messages[i], caller), now);
    var w :| 0 <= w < |messages| && Involves(messages[w], caller, now)
             && Partner(messages[w], caller) == Partner(messages[i], caller) && messages[w].createdAt == t.value;
  }

  /** The unread_count subquery: live unread messages `partner` sent the caller. */
  predicate UnreadFrom(m: Message, caller: int, partner: int, now: int) {
    m.senderId == partner && m.receiverId == caller && !m.isRead && LiveMessage(m, now)
  }

  function UnreadCount(messages: seq<Message>, caller: int, partner: int, now: int): (n: nat)
    ensures n == 0 <==> forall m :: m in messages ==> !UnreadFrom(m, caller, partner, now)
  {
    Seqs.CountZero(messages, (m: Message) => UnreadFrom(m, caller, partner, now));
    Seqs.Count(messages, (m: Message) => UnreadFrom(m, caller, partner, now))
  }

  /**
   * The preview text: the content, or "📎 " and the capitalised media type
   * when the content is empty and the message is not text; vanish messages
   * get a fire emoji in front.
   */
  function Preview(m: Message): (text: string)
    ensures !EmptyString(m.content) && m.messageType != "vanish" ==> text == m.content
    ensures EmptyString(m.content) && m.mediaType != "text" ==> EndsWith(text, "📎 " + Ucfirst(m.mediaType))
    ensures m.messageType == "vanish" ==> StartsWith(text, "🔥 ")
  {
    var base := if EmptyString(m.content) && m.mediaType != "text" then "📎 " + Ucfirst(m.mediaType) else m.content;
    if m.messageType == "vanish" then "🔥 " + base else base
  }

  datatype ConversationRow = ConversationRow(
    user: User,
    lastMessage: string,
    lastMessageTime: int,
    isLastMessageMine: bool,
    unreadCount: nat)

  /** The row of one latest message: its partner's user row, the preview, and the partner's unread count. */
  function RowOf(u: User, messages: seq<Message>, m: Message, caller: int, now: int): ConversationRow {
    ConversationRow(u, Preview(m), m.createdAt, m.senderId == caller, UnreadCount(messages, caller, Partner(m, caller), now))
  }

  /** The latest messages joined with their partners' user rows; partners without a user row drop out. */
  function Rows(users: seq<User>, messages: seq<Message>, latest: seq<Message>, caller: int, now: int)
    : (r: seq<ConversationRow>)
    ensures |r| <= |latest|
  {
    if latest == [] then []
    else
      var m := latest[0];
      var rest := Rows(users, messages, latest[1..], caller, now);
      match FindUser(users, Partner(m, caller))
      case None => rest
      case Some(u) => [RowOf(u, messages, m, caller, now)] + rest
  }

  /** Every row is the row of one of the latest messages, for an existing partner. */
  lemma {:induction false} RowsSound(users: seq<User>, messages: seq<Message>, latest: seq<Message>, caller: int,
                                     now: int, row: ConversationRow)
    requires row in Rows(users, messages, latest, caller, now)
    ensures exists m :: m in latest && row.user in users && row.user.id == Partner(m, caller)
                        && row == RowOf(row.user, messages, m, caller, now)
  {
    var m := latest[0];
    var rest := Rows(users, messages, latest[1..], caller, now);
    if row in rest {
      RowsSound(users, messages, latest[1..], caller, now, row);
      var x :| x in latest[1..] && row.user in users && row.user.id == Partner(x, caller)
               && row == RowOf(row.user, messages, x, caller, now);
      assert x in latest;
    } else {
      assert row == RowOf(FindUser(users, Partner(m, caller)).value, messages, m, caller, now);
    }
  }

  /** Every latest message whose partner has a user row yields a row. */
  lemma {:induction false} RowsComplete(users: seq<User>, messages: seq<Message>, latest: seq<Message>, caller: int,
                                        now: int, m: Message)
    requires m in latest && UserExists(users, Partner(m, caller))
    ensures RowOf(FindUser(users, Partner(m, caller)).value, messages, m, caller, now)
            in Rows(users, messages, latest, caller, now)
  {
    if m != latest[0] {
      RowsComplete(users, messages, latest[1..], caller, now, m);
    }
  }

  function RowTime(r: ConversationRow): int { r.lastMessageTime }

  /** Every conversation row, before paging. */
  function AllRows(users: seq<User>, messages: seq<Message>, caller: int, now: int): seq<ConversationRow> {
    Rows(users, messages, LatestMessages(messages, caller, now), caller, now)
  }

  /** The total: COUNT(DISTINCT partner) over the caller's live messages, with no join on users. */
  function Partners(messages: seq<Message>, caller: int, now: int): set<int> {
    set m | m in messages && Involves(m, caller, now) :: Partner(m, caller)
  }

  /** Every row shown belongs to a counted partner, and its latest message is the newest of that chat. */
  lemma RowsAreCountedChats(users: seq<User>, messages: seq<Message>, caller: int, now: int, k: int)
    requires 0 <= k < |Rows(users, messages, LatestMessages(messages, caller, now), caller, now)|
    ensures var row := Rows(users, messages, LatestMessages(messages, caller, now), caller, now)[k];
            && row.user.id in Partners(messages, caller, now)
            && LastTime(messages, caller, row.user.id, now) == Some(row.lastMessageTime)
  {
    var latest := LatestMessages(messages, caller, now);
    var row := Rows(users, messages, latest, caller, now)[k];
    RowsSound(users, messages, latest, caller, now, row);
    var m :| m in latest && row.user in users && row.user.id == Partner(m, caller)
             && row == RowOf(row.user, messages, m, caller, now);
    assert m in messages && IsLatest(m, messages, caller, now);
  }

  /** The intended endpoint: the rows newest first, one page of them, with the partner count as total. */
  function List(users: seq<User>, messages: seq<Message>, caller: int, query: Value, now: int)
    : (r: Response<Paged<ConversationRow>>)
    ensures r.Success? && r.message == "Success"
    ensures var all := AllRows(users, messages, caller, now);
            var offset := Offset(PageParam(query), LimitParam(query));
            && |r.data.items| == Seqs.Min(LimitParam(query), |all| - Seqs.Min(offset, |all|))
            && forall k :: 0 <= k < |r.data.items| ==> r.data.items[k] == Seqs.SortDesc(all, RowTime)[offset + k]
    ensures |r.data.items| <= LimitParam(query)
    ensures forall i, j :: 0 <= i < j < |r.data.items| ==> r.data.items[i].lastMessageTime >= r.data.items[j].lastMessageTime
    ensures r.data.pagination == Pagination(|Partners(messages, caller, now)|, PageParam(query), LimitParam(query))
    ensures forall row :: row in r.data.items ==> row in AllRows(users, messages, caller, now)
  {
    PageOf(AllRows(users, messages, caller, now), |Partners(messages, caller, now)|, query)
  }

  /** One page of the given rows, newest first, with `total` as the item count. */
  function PageOf(all: seq<ConversationRow>, total: nat, query: Value): (r: Response<Paged<ConversationRow>>)
    ensures r.Success? && r.message == "Success"
    ensures var offset := Offset(PageParam(query), LimitParam(query));
            && |r.data.items| == Seqs.Min(LimitParam(query), |all| - Seqs.Min(offset, |all|))
            && forall k :: 0 <= k < |r.data.items| ==> r.data.items[k] == Seqs.SortDesc(all, RowTime)[offset + k]
    ensures forall i, j :: 0 <= i < j < |r.data.items| ==> r.data.items[i].lastMessageTime >= r.data.items[j].lastMessageTime
    ensures r.data.pagination == Pagination(total, PageParam(query), LimitParam(query))
    ensures forall row :: row in r.data.items ==> row in all
  {
    var page := PageParam(query);
    var limit := LimitParam(query);
    Success(Paged(Seqs.PageDesc(all, RowTime, Offset(page, limit), limit), Pagination(total, page, limit)), "Success")
  }
}
