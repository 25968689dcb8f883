/**
 * GET api/search_users.php: users whose username or full name contains the
 * query, optionally only among the caller's followers or followings, never
 * the caller, username-prefix matches first, then full-name-prefix matches,
 * then the rest, each group by username.
 */
module SearchUsers {
  import opened Wrappers
  import opened Php
  import opened Http
  import opened Schema
  import Seqs
  import GetFollowers

  /** `$_GET['q'] ?? ''`. */
  function QueryParam(query: Value): string {
    ToStr(Coalesce(query, "q", VStr("")))
  }

  /** `$_GET['filter'] ?? 'all'`, echoed in the answer. */
  function FilterParam(query: Value): Value {
    Coalesce(query, "filter", VStr("all"))
  }

  /** `CONCAT(u.first_name, ' ', u.last_name)`. */
  function FullName(u: User): string {
    u.firstName + " " + u.lastName
  }

  predicate OccursAt(s: string, q: string, i: int) {
    0 <= i <= |s| - |q| && s[i..i + |q|] == q
  }

  /** `s LIKE '%q%'`: `q` occurs in `s`. */
  predicate Contains(s: string, q: string) {
    exists i | 0 <= i <= |s| :: OccursAt(s, q, i)
  }

  predicate Matches(u: User, q: string) {
    Contains(u.username, q) || Contains(FullName(u), q)
  }

  /** The whole WHERE clause with its JOIN: the match, the relationship filter, and never the caller. */
  predicate Selected(u: User, q: string, filter: Value, viewer: Option<int>, followers: seq<Follow>) {
    && Matches(u, q)
    && (viewer.Some? && filter == VStr("followers") ==> IsFollowing(followers, viewer.value, u.id))
    && (viewer.Some? && filter == VStr("following") ==> IsFollowing(followers, u.id, viewer.value))
    && (viewer.Some? ==> u.id != viewer.value)
  }

  function SelectedBy(q: string, filter: Value, viewer: Option<int>, followers: seq<Follow>): User -> bool {
    (u: User) => Selected(u, q, filter, viewer, followers)
  }

  /** The CASE of the ORDER BY: 1 for a username prefix match, 2 for a full-name prefix match, else 3. */
  function Rank(u: User, q: string): (r: int)
    ensures 1 <= r <= 3
    ensures r == 1 <==> StartsWith(u.username, q)
    ensures r == 2 <==> !StartsWith(u.username, q) && StartsWith(FullName(u), q)
  {
    if StartsWith(u.username, q) then 1 else if StartsWith(FullName(u), q) then 2 else 3
  }

  /** ORDER BY the rank, then u.username ASC. */
  function RankLe(q: string): (User, User) -> bool {
    (a: User, b: User) => Rank(a, q) < Rank(b, q) || (Rank(a, q) == Rank(b, q) && StrLe(a.username, b.username))
  }

  lemma RankLeIsOrder(q: string)
    ensures Seqs.Total(RankLe(q)) && Seqs.Transitive(RankLe(q))
  {
    forall a: User, b: User ensures RankLe(q)(a, b) || RankLe(q)(b, a) {
      StrLeTotal(a.username, b.username);
    }
    forall a: User, b: User, c: User | RankLe(q)(a, b) && RankLe(q)(b, c) ensures RankLe(q)(a, c) {
      if Rank(a, q) == Rank(b, q) == Rank(c, q) {
        StrLeTransitive(a.username, b.username, c.username);
      }
    }
  }

  /** A prefix match is a match, so every rank-1 or rank-2 user the ordering promotes was found by the search. */
  lemma PrefixIsMatch(u: User, q: string)
    ensures Rank(u, q) < 3 ==> Matches(u, q)
  {
    if StartsWith(u.username, q) {
      assert OccursAt(u.username, q, 0);
    } else if StartsWith(FullName(u), q) {
      assert OccursAt(FullName(u), q, 0);
    }
  }

  datatype SearchItem = SearchItem(
    user: User,
    followersCount: nat,
    followingCount: nat,
    relation: GetFollowers.Relation)

  datatype SearchResult = SearchResult(query: string, filter: Value, results: Paged<SearchItem>)

  function FollowsUser(id: int): Follow -> bool {
    (f: Follow) => f.userId == id
  }

  function FollowedBy(id: int): Follow -> bool {
    (f: Follow) => f.followerId == id
  }

  function Item(u: User, followers: seq<Follow>, requests: seq<FollowRequest>, viewer: Option<int>): SearchItem {
    SearchItem(u, Seqs.Count(followers, FollowsUser(u.id)), Seqs.Count(followers, FollowedBy(u.id)),
               GetFollowers.RelationTo(followers, requests, viewer, u.id))
  }

  /** The selected users in ORDER BY order. */
  function Ranked(users: seq<User>, q: string, filter: Value, viewer: Option<int>, followers: seq<Follow>)
    : (r: seq<User>)
    ensures multiset(r) == multiset(Seqs.Filter(users, SelectedBy(q, filter, viewer, followers)))
    ensures forall u :: u in r <==> u in users && Selected(u, q, filter, viewer, followers)
    ensures forall i, j :: 0 <= i < j < |r| ==> RankLe(q)(r[i], r[j])
  {
    var selected := Seqs.Filter(users, SelectedBy(q, filter, viewer, followers));
    RankLeIsOrder(q);
    Seqs.SortBySorted(selected, RankLe(q));
    Seqs.SortByIn(selected, RankLe(q));
    Seqs.SortBy(selected, RankLe(q))
  }

  /** LIMIT/OFFSET over the ranked users. */
  function Window(users: seq<User>, q: string, filter: Value, viewer: Option<int>, followers: seq<Follow>,
                  offset: nat, limit: nat): (rows: seq<User>)
    ensures var ranked := Ranked(users, q, filter, viewer, followers);
            && |rows| == Seqs.Min(limit, |ranked| - Seqs.Min(offset, |ranked|))
            && forall k :: 0 <= k < |rows| ==> rows[k] == ranked[offset + k]
    ensures forall u :: u in rows ==> u in users && Selected(u, q, filter, viewer, followers)
    ensures forall i, j :: 0 <= i < j < |rows| ==> RankLe(q)(rows[i], rows[j])
  {
    var ordered := Ranked(users, q, filter, viewer, followers);
    var rows := Seqs.Slice(ordered, offset, limit);
    forall u | u in rows
      ensures u in ordered
    {
      var i :| 0 <= i < |rows| && rows[i] == u;
      assert rows[i] == ordered[offset + i];
    }
    forall i, j | 0 <= i < j < |rows| ensures RankLe(q)(rows[i], rows[j]) {
      assert rows[i] == ordered[offset + i];
      assert rows[j] == ordered[offset + j];
    }
    rows
  }

  /** One page of the ranked users, each with its counts and the caller's relationship. */
  function Rows(users: seq<User>, followers: seq<Follow>, requests: seq<FollowRequest>, viewer: Option<int>,
                q: string, filter: Value, offset: nat, limit: nat): (items: seq<SearchItem>)
    ensures var ranked := Ranked(users, q, filter, viewer, followers);
            && |items| == Seqs.Min(limit, |ranked| - Seqs.Min(offset, |ranked|))
            && forall k :: 0 <= k < |items| ==> items[k] == Item(ranked[offset + k], followers, requests, viewer)
    ensures forall x :: x in items ==>
              && x.user in users && Selected(x.user, q, filter, viewer, followers)
              && x == Item(x.user, followers, requests, viewer)
    ensures forall i, j :: 0 <= i < j < |items| ==> RankLe(q)(items[i].user, items[j].user)
  {
    var rows := Window(users, q, filter, viewer, followers, offset, limit);
    var items := Seqs.Map(rows, (u: User) => Item(u, followers, requests, viewer));
    forall x | x in items
      ensures x.user in users && Selected(x.user, q, filter, viewer, followers)
    {
      var i :| 0 <= i < |items| && items[i] == x;
      assert x == Item(rows[i], followers, requests, viewer);
      assert rows[i] in rows;
    }
    forall i, j | 0 <= i < j < |items| ensures RankLe(q)(items[i].user, items[j].user) {
      assert items[i].user == rows[i] && items[j].user == rows[j];
    }
    items
  }

  /** The answer: the length check, then one page of the ranked matches and their total. */
  function Search(users: seq<User>, followers: seq<Follow>, requests: seq<FollowRequest>, viewer: Option<int>,
                  query: Value): (r: Checked<SearchResult>)
    ensures r.Reject? <==> StrLen(QueryParam(query)) < 2
    ensures r.Reject? ==> r == Reject(400, "Search query must be at least 2 characters")
    ensures r.Pass? ==>
              var q := QueryParam(query);
              var filter := FilterParam(query);
              var items := r.value.results.items;
              var ranked := Ranked(users, q, filter, viewer, followers);
              var offset := Offset(PageParam(query), LimitParam(query));
              && r.value.query == q && r.value.filter == filter
              && |items| == Seqs.Min(LimitParam(query), |ranked| - Seqs.Min(offset, |ranked|))
              && (forall k :: 0 <= k < |items| ==> items[k] == Item(ranked[offset + k], followers, requests, viewer))
              && (forall x :: x in items ==>
                    && x.user in users && Selected(x.user, q, filter, viewer, followers)
                    && x == Item(x.user, followers, requests, viewer))
              && (viewer.Some? ==> forall x :: x in items ==> x.user.id != viewer.value)
              && (forall i, j :: 0 <= i < j < |items| ==> RankLe(q)(items[i].user, items[j].user))
              && r.value.results.pagination
                 == Pagination(Seqs.Count(users, SelectedBy(q, filter, viewer, followers)),
                               PageParam(query), LimitParam(query))
  {
    var q := QueryParam(query);
    if StrLen(q) < 2 then Reject(400, "Search query must be at least 2 characters")
    else
      var filter := FilterParam(query);
      var page := PageParam(query);
      var limit := LimitParam(query);
      var items := Rows(users, followers, requests, viewer, q, filter, Offset(page, limit), limit);
      var total := Seqs.Count(users, SelectedBy(q, filter, viewer, followers));
      Pass(SearchResult(q, filter, Paginate(items, total, page, limit)))
  }

  /** The relationship filters are ignored for an anonymous caller: every match is selected. */
  lemma AnonymousSeesAllMatches(u: User, q: string, filter: Value, followers: seq<Follow>)
    ensures Selected(u, q, filter, None, followers) <==> Matches(u, q)
  {
  }
}
