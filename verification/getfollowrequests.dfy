/**
 * GET api/get_follow_requests.php: the follow requests the caller received
 * (pending only) or sent (any status), newest first, a page at a time, each
 * with the user on the other side.
 */
module GetFollowRequests {
  import opened Wrappers
  import opened Php
  import opened Http
  import opened Schema
  import Seqs

  datatype Kind = Received | Sent

  /** `$_GET['type'] ?? 'received'`, which must be "received" or "sent". */
  function KindParam(query: Value): (r: Checked<Kind>)
    ensures !Isset(query, "type") ==> r == Pass(Received)
    ensures r.Pass? ==> (r.value == Received <==> Coalesce(query, "type", VStr("received")) == VStr("received"))
    ensures r.Reject? <==> Coalesce(query, "type", VStr("received")) !in [VStr("received"), VStr("sent")]
    ensures r.Reject? ==> r == Reject(400, "Invalid type. Use \"received\" or \"sent\"")
  {
    var t := Coalesce(query, "type", VStr("received"));
    if t == VStr("received") then Pass(Received)
    else if t == VStr("sent") then Pass(Sent)
    else Reject(400, "Invalid type. Use \"received\" or \"sent\"")
  }

  /** The WHERE clause: pending requests to the caller, or any request from the caller. */
  predicate Listed(r: FollowRequest, caller: int, kind: Kind) {
    match kind
    case Received => r.receiverId == caller && r.status == Pending
    case Sent => r.senderId == caller
  }

  /** The user the JOIN attaches: the sender of a received request, the receiver of a sent one. */
  function Counterpart(r: FollowRequest, kind: Kind): int {
    if kind == Received then r.senderId else r.receiverId
  }

  /** The row survives the inner JOIN on users. */
  predicate Joined(r: FollowRequest, caller: int, kind: Kind, users: seq<User>) {
    Listed(r, caller, kind) && UserExists(users, Counterpart(r, kind))
  }

  function CreatedAt(r: FollowRequest): int {
    r.createdAt
  }

  /** One entry of the answer: the request and the user on the other side. */
  datatype RequestItem = RequestItem(request: FollowRequest, user: Option<User>)

  function Item(r: FollowRequest, kind: Kind, users: seq<User>): RequestItem {
    RequestItem(r, FindUser(users, Counterpart(r, kind)))
  }

  /** `SELECT COUNT(*) FROM follow_requests WHERE ...`: the count has no JOIN. */
  function Total(requests: seq<FollowRequest>, caller: int, kind: Kind): nat {
    Seqs.Count(requests, (r: FollowRequest) => Listed(r, caller, kind))
  }

  /** The rows the WHERE clause and the JOIN keep, in table order. */
  function JoinedRows(requests: seq<FollowRequest>, caller: int, kind: Kind, users: seq<User>): (r: seq<FollowRequest>)
    ensures forall x :: x in r <==> x in requests && Joined(x, caller, kind, users)
  {
    Seqs.Filter(requests, (r: FollowRequest) => Joined(r, caller, kind, users))
  }

  /** One page of the joined rows, newest first, each with its counterpart's user row. */
  function Page(users: seq<User>, requests: seq<FollowRequest>, caller: int, kind: Kind, page: int, limit: int)
    : (items: seq<RequestItem>)
    requires page >= 1 && limit >= 1
    ensures var joined := JoinedRows(requests, caller, kind, users);
            var offset := Offset(page, limit);
            && |items| == Seqs.Min(limit, |joined| - Seqs.Min(offset, |joined|))
            && forall k :: 0 <= k < |items| ==>
                 items[k] == Item(Seqs.SortDesc(joined, CreatedAt)[offset + k], kind, users)
    ensures forall i :: 0 <= i < |items| ==>
              && items[i].request in requests && Joined(items[i].request, caller, kind, users)
              && items[i].user.Some? && items[i].user.value in users
              && items[i].user.value.id == Counterpart(items[i].request, kind)
    ensures forall i, j :: 0 <= i < j < |items| ==> items[i].request.createdAt >= items[j].request.createdAt
  {
    var joined := JoinedRows(requests, caller, kind, users);
    var rows := Seqs.PageDesc(joined, CreatedAt, Offset(page, limit), limit);
    assert forall i :: 0 <= i < |rows| ==> rows[i] in rows;
    Seqs.Map(rows, (r: FollowRequest) => Item(r, kind, users))
  }

  /** The answer: the type check, then one page of the joined rows and the unjoined total. */
  function List(users: seq<User>, requests: seq<FollowRequest>, caller: int, query: Value): (r: Checked<Paged<RequestItem>>)
    ensures r.Reject? <==> KindParam(query).Reject?
    ensures r.Reject? ==> r == Reject(400, "Invalid type. Use \"received\" or \"sent\"")
    ensures r.Pass? ==>
              var kind := KindParam(query).value;
              var items := r.value.items;
              var joined := JoinedRows(requests, caller, kind, users);
              var offset := Offset(PageParam(query), LimitParam(query));
              && |items| == Seqs.Min(LimitParam(query), |joined| - Seqs.Min(offset, |joined|))
              && (forall k :: 0 <= k < |items| ==>
                    items[k] == Item(Seqs.SortDesc(joined, CreatedAt)[offset + k], kind, users))
              && (forall i :: 0 <= i < |items| ==>
                    && items[i].request in requests && Joined(items[i].request, caller, kind, users)
                    && items[i].user.Some? && items[i].user.value in users
                    && items[i].user.value.id == Counterpart(items[i].request, kind))
              && (forall i, j :: 0 <= i < j < |items| ==> items[i].request.createdAt >= items[j].request.createdAt)
              && r.value.pagination == Pagination(Total(requests, caller, kind), PageParam(query), LimitParam(query))
  {
    match KindParam(query)
    case Reject(code, error) => Reject(code, error)
    case Pass(kind) =>
      var page := PageParam(query);
      var limit := LimitParam(query);
      Pass(Paginate(Page(users, requests, caller, kind, page, limit), Total(requests, caller, kind), page, limit))
  }

  /**
   * The total counts rows the JOIN may drop: it is never below the number of
   * joined rows, and equal to it when every counterpart still has a user row.
   */
  lemma {:induction false} TotalCountsUnjoined(users: seq<User>, requests: seq<FollowRequest>, caller: int, kind: Kind)
    ensures Total(requests, caller, kind)
         >= Seqs.Count(requests, (r: FollowRequest) => Joined(r, caller, kind, users))
    ensures (forall r :: r in requests && Listed(r, caller, kind) ==> UserExists(users, Counterpart(r, kind))) ==>
              Total(requests, caller, kind) == Seqs.Count(requests, (r: FollowRequest) => Joined(r, caller, kind, users))
  {
    if requests != [] {
      assert forall r :: r in requests[1..] ==> r in requests;
      TotalCountsUnjoined(users, requests[1..], caller, kind);
    }
  }

  /** Received lists only pending requests, so answering a request takes it off the received list. */
  lemma AnsweredLeavesReceived(r: FollowRequest, caller: int, status: RequestStatus)
    requires status != Pending
    ensures !Listed(r.(status := status), caller, Received)
    ensures Listed(r, caller, Sent) <==> Listed(r.(status := status), caller, Sent)
  {
  }
}
