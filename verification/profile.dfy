/**
 * GET api/profile.php: one user's profile with follower, following and post
 * counts and the viewer's relationship to the user. A private profile seen by
 * a stranger has its post count and bio blanked.
 */
module Profile {
  import opened Wrappers
  import opened Php
  import opened Http
  import opened Schema
  import Seqs
  import GetFollowers
  import Unfollow

  datatype ProfileView = ProfileView(
    user: User,
    followersCount: nat,
    followingCount: nat,
    postsCount: nat,
    relation: GetFollowers.Relation,
    isOwnProfile: bool)

  function FollowsUser(id: int): Follow -> bool {
    (f: Follow) => f.userId == id
  }

  function FollowedBy(id: int): Follow -> bool {
    (f: Follow) => f.followerId == id
  }

  function PostBy(id: int): Post -> bool {
    (p: Post) => p.userId == id
  }

  /** The data is hidden from a viewer who is neither the owner nor a follower of a private account. */
  predicate Hides(user: User, relation: GetFollowers.Relation, isOwnProfile: bool) {
    user.isPrivate && !relation.isFollowing && !isOwnProfile
  }

  /** The answer: the user row with its counts, the relationship, and the blanking for a hidden profile. */
  function Show(users: seq<User>, followers: seq<Follow>, requests: seq<FollowRequest>, posts: seq<Post>,
                viewer: Option<int>, query: Value): (r: Checked<ProfileView>)
    ensures GetFollowers.TargetParam(query, viewer).Reject? ==> r == Reject(400, "User ID required")
    ensures GetFollowers.TargetParam(query, viewer).Pass? ==>
              var id := GetFollowers.TargetParam(query, viewer).value;
              && (FindUser(users, id).None? <==> r == Reject(404, "User not found"))
              && (FindUser(users, id).Some? ==> r.Pass?)
    ensures r.Pass? ==>
              var id := GetFollowers.TargetParam(query, viewer).value;
              var u := FindUser(users, id).value;
              var p := r.value;
              && p.user == u.(bio := p.user.bio)
              && p.followersCount == Seqs.Count(followers, FollowsUser(id))
              && p.followingCount == Seqs.Count(followers, FollowedBy(id))
              && p.relation == GetFollowers.RelationTo(followers, requests, viewer, id)
              && (p.isOwnProfile <==> viewer == Some(id))
              && (Hides(u, p.relation, p.isOwnProfile) ==> p.postsCount == 0 && p.user.bio == "")
              && (!Hides(u, p.relation, p.isOwnProfile) ==>
                    p.postsCount == Seqs.Count(posts, PostBy(id)) && p.user.bio == u.bio)
  {
    match GetFollowers.TargetParam(query, viewer)
    case Reject(code, error) => Reject(code, error)
    case Pass(id) =>
      match FindUser(users, id)
      case None => Reject(404, "User not found")
      case Some(u) =>
        var relation := GetFollowers.RelationTo(followers, requests, viewer, id);
        var own := viewer == Some(id);
        var view := ProfileView(u, Seqs.Count(followers, FollowsUser(id)), Seqs.Count(followers, FollowedBy(id)),
                                Seqs.Count(posts, PostBy(id)), relation, own);
        if Hides(u, relation, own) then Pass(view.(postsCount := 0, user := u.(bio := ""))) else Pass(view)
  }

  /** Only a private account hides anything, and never from its owner or a follower. */
  lemma HiddenOnlyFromStrangers(u: User, followers: seq<Follow>, requests: seq<FollowRequest>, viewer: Option<int>)
    ensures Hides(u, GetFollowers.RelationTo(followers, requests, viewer, u.id), viewer == Some(u.id)) <==>
              u.isPrivate && (viewer.None? || (viewer.value != u.id && !IsFollowing(followers, u.id, viewer.value)))
  {
  }

  /** Unfollowing a private account hides its bio and post count from the former follower again. */
  lemma UnfollowHidesPrivateProfile(u: User, followers: seq<Follow>, requests: seq<FollowRequest>, v: int)
    requires u.isPrivate && v != u.id
    ensures Hides(u, GetFollowers.RelationTo(Unfollow.Unfollowed(followers, u.id, v), requests, Some(v), u.id), false)
  {
  }
}
