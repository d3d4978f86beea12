/** The profile page src/components/ProfilePage.jsx: whom the user follows, who follows
    back, and the two profile lists built from them. */
module Profile {
  import opened Common

  /** A `user_follows` row: `follower` follows `followee`. */
  datatype FollowRow = FollowRow(followerId: UserId, followeeId: UserId)

  /** A `user_positions` row as `.select("user_id,email")` returns it. */
  datatype ProfileRow = ProfileRow(userId: UserId, email: Option<string>)

  /** `followee_id` of the rows with `follower_id = me`, in table order. */
  function Followees(follows: seq<FollowRow>, me: UserId): (r: seq<UserId>)
    ensures |r| <= |follows|
    ensures forall x :: x in r <==> FollowRow(me, x) in follows
  {
    if follows == [] then []
    else (if follows[0].followerId == me then [follows[0].followeeId] else []) + Followees(follows[1..], me)
  }

  /** `follower_id` of the rows with `followee_id = me`, in table order. */
  function Followers(follows: seq<FollowRow>, me: UserId): (r: seq<UserId>)
    ensures |r| <= |follows|
    ensures forall x :: x in r <==> FollowRow(x, me) in follows
  {
    if follows == [] then []
    else (if follows[0].followeeId == me then [follows[0].followerId] else []) + Followers(follows[1..], me)
  }

  /** `followees.filter((id) => followers.includes(id))`. */
  function MutualIds(followees: seq<UserId>, followers: seq<UserId>): (r: seq<UserId>)
    ensures |r| <= |followees|
    ensures forall x :: x in r <==> x in followees && x in followers
  {
    if followees == [] then []
    else (if followees[0] in followers then [followees[0]] else []) + MutualIds(followees[1..], followers)
  }

  /** The friends of `me`: the mutual follows. */
  function Friends(follows: seq<FollowRow>, me: UserId): seq<UserId>
  {
    MutualIds(Followees(follows, me), Followers(follows, me))
  }

  /** Friendship is following both ways, so it is symmetric. */
  lemma FriendSymmetric(follows: seq<FollowRow>, a: UserId, b: UserId)
    ensures b in Friends(follows, a) <==> FollowRow(a, b) in follows && FollowRow(b, a) in follows
    ensures b in Friends(follows, a) <==> a in Friends(follows, b)
  {
  }

  /** `[...new Set([...followees, ...mutualIds])]`: the ids whose profiles are fetched. */
  function LookupIds(followees: seq<UserId>, mutual: seq<UserId>): seq<UserId>
  {
    Dedup(followees + mutual)
  }

  /** Since every mutual id is a followee, the lookup is exactly the followees, each once. */
  lemma LookupIdsSpec(followees: seq<UserId>, followers: seq<UserId>)
    ensures var ids := LookupIds(followees, MutualIds(followees, followers));
      (forall x :: x in ids <==> x in followees) &&
      (forall i, j :: 0 <= i < j < |ids| ==> ids[i] != ids[j])
  {
    DedupSpec(followees + MutualIds(followees, followers));
  }

  /** `rows.filter((u) => ids.includes(u.user_id))`, also the `.in("user_id", ids)` query. */
  function WithIds(rows: seq<ProfileRow>, ids: seq<UserId>): (r: seq<ProfileRow>)
    ensures |r| <= |rows|
    ensures forall p {:trigger p in r} :: p in r <==> p in rows && p.userId in ids
  {
    if rows == [] then []
    else (if rows[0].userId in ids then [rows[0]] else []) + WithIds(rows[1..], ids)
  }

  /** The page state: the two lists and the loading flag. */
  datatype ProfileView = ProfileView(following: seq<ProfileRow>, friends: seq<ProfileRow>, loading: bool)

  /** The load effect. Without a user nothing happens, and the page keeps loading. An error
      in any of the three queries is caught: the lists stay as they were. Otherwise
      `following` holds the fetched profiles of the followees and `friends` those of the
      mutual follows. Loading ends in every case that got past the guard. */
  function Load(prev: ProfileView, user: Option<AuthUser>, follows: seq<FollowRow>, followeesOk: bool,
                followersOk: bool, positions: seq<ProfileRow>, usersOk: bool): (r: ProfileView)
    ensures user.None? ==> r == prev
    ensures user.Some? ==> !r.loading
    ensures user.Some? && !(followeesOk && followersOk && usersOk) ==>
      r.following == prev.following && r.friends == prev.friends
    ensures user.Some? && followeesOk && followersOk && usersOk ==>
      (forall p :: p in r.following <==> p in positions && FollowRow(user.value.id, p.userId) in follows) &&
      (forall p :: p in r.friends <==> p in positions && p.userId in Friends(follows, user.value.id))
  {
    if user.None? then prev
    else if !(followeesOk && followersOk && usersOk) then prev.(loading := false)
    else
      var me := user.value.id;
      var followees := Followees(follows, me);
      var mutual := MutualIds(followees, Followers(follows, me));
      var ids := LookupIds(followees, mutual);
      LookupIdsSpec(followees, Followers(follows, me));
      var allUsers := WithIds(positions, ids);
      ProfileView(WithIds(allUsers, followees), WithIds(allUsers, mutual), false)
  }

  /** Every friend shown is also among the followed profiles. */
  lemma FriendsWithinFollowing(prev: ProfileView, user: Option<AuthUser>, follows: seq<FollowRow>,
                               followeesOk: bool, followersOk: bool, positions: seq<ProfileRow>, usersOk: bool)
    requires forall p :: p in prev.friends ==> p in prev.following
    ensures var r := Load(prev, user, follows, followeesOk, followersOk, positions, usersOk);
      forall p :: p in r.friends ==> p in r.following
  {
  }
}
