/**
 * src/modules/users/users.service.ts: public profiles, follow and unfollow, and the follower and following
 * listings. Reads are functions of the tables; follow and unfollow are methods on the store.
 */
module UsersService {
  import opened Wrappers
  import opened ErrorHandler
  import opened Types
  import opened Query
  import opened Database

  const UserNotFound: ErrorValue := ServiceError(404, "User not found", "USER_NOT_FOUND")
  const InvalidFollow: ErrorValue := ServiceError(400, "Cannot follow yourself", "INVALID_FOLLOW")
  const AlreadyFollowing: ErrorValue := ServiceError(409, "Already following this user", "ALREADY_FOLLOWING")
  const InvalidUnfollow: ErrorValue := ServiceError(400, "Cannot unfollow yourself", "INVALID_UNFOLLOW")
  const NotFollowing: ErrorValue := ServiceError(404, "Not following this user", "NOT_FOLLOWING")

  /** `getUserById`: the public projection of the stored user, or 404 USER_NOT_FOUND. */
  function GetUserById(t: Tables, id: string): (r: Result<UserPublicDTO, ErrorValue>)
    ensures r.Failure? <==> !HasUser(t.users, id)
    ensures r.Failure? ==> r.error == UserNotFound
    ensures r.Success? ==> exists u :: u in t.users && u.id == id && r.value == UserPublicDTO(u.id, u.handle, u.name, u.createdAt)
  {
    match FindUser(t.users, id)
    case None => Failure(UserNotFound)
    case Some(u) => Success(PublicOf(u))
  }

  /**
   * The error `followUser` ends with, if any: a self follow first, before any lookup; then a missing target;
   * then an existing edge. Past the checks the insert can still fail, with the database's P2003, when the
   * follower itself is not a stored user.
   */
  function FollowCheck(t: Tables, followerId: string, followingId: string): (e: Option<ErrorValue>)
    ensures followerId == followingId ==> e == Some(InvalidFollow)
    ensures followerId != followingId && !HasUser(t.users, followingId) ==> e == Some(UserNotFound)
    ensures followerId != followingId && HasUser(t.users, followingId) && HasEdge(t.follows, followerId, followingId) ==>
      e == Some(AlreadyFollowing)
    ensures followerId != followingId && HasUser(t.users, followingId) &&
            !HasEdge(t.follows, followerId, followingId) && !HasUser(t.users, followerId) ==>
      e == Some(ForeignKeyConstraintFailed)
    ensures e.None? <==>
      followerId != followingId && HasUser(t.users, followerId) && HasUser(t.users, followingId) &&
      !HasEdge(t.follows, followerId, followingId)
  {
    if followerId == followingId then Some(InvalidFollow)
    else if !HasUser(t.users, followingId) then Some(UserNotFound)
    else if HasEdge(t.follows, followerId, followingId) then Some(AlreadyFollowing)
    else if !HasUser(t.users, followerId) then Some(ForeignKeyConstraintFailed)
    else None
  }

  /**
   * `followUser`: the checks of `FollowCheck`, then `prisma.follow.create`. A failure leaves the store as it
   * was; a success appends exactly the one edge. The follow graph keeps no self edge and no repeated pair.
   */
  method FollowUser(db: Store, followerId: string, followingId: string, now: nat) returns (r: Result<(), ErrorValue>)
    requires db.Valid() && NoSelfFollows(db.follows)
    modifies db
    ensures db.Valid() && NoSelfFollows(db.follows)
    ensures db.users == old(db.users) && db.posts == old(db.posts)
    ensures var e := FollowCheck(old(db.State()), followerId, followingId);
      if e.Some? then r == Failure(e.value) && db.follows == old(db.follows)
      else r == Success(()) && db.follows == old(db.follows) + [Follow(followerId, followingId, now)]
  {
    if followerId == followingId {
      return Failure(InvalidFollow);
    }
    var target := FindUser(db.users, followingId);
    if target.None? {
      return Failure(UserNotFound);
    }
    var existing := FindEdge(db.follows, followerId, followingId);
    if existing.Some? {
      return Failure(AlreadyFollowing);
    }
    var created := db.CreateFollow(followerId, followingId, now);
    if created.Failure? {
      return Failure(created.error);
    }
    r := Success(());
  }

  /** The error `unfollowUser` ends with, if any: a self unfollow, then a missing edge. The target's existence is not checked. */
  function UnfollowCheck(t: Tables, followerId: string, followingId: string): (e: Option<ErrorValue>)
    ensures followerId == followingId ==> e == Some(InvalidUnfollow)
    ensures followerId != followingId && !HasEdge(t.follows, followerId, followingId) ==> e == Some(NotFollowing)
    ensures e.None? <==> followerId != followingId && HasEdge(t.follows, followerId, followingId)
  {
    if followerId == followingId then Some(InvalidUnfollow)
    else if !HasEdge(t.follows, followerId, followingId) then Some(NotFollowing)
    else None
  }

  /** `unfollowUser`: the checks of `UnfollowCheck`, then `prisma.follow.delete` of exactly that edge. */
  method UnfollowUser(db: Store, followerId: string, followingId: string) returns (r: Result<(), ErrorValue>)
    requires db.Valid() && NoSelfFollows(db.follows)
    modifies db
    ensures db.Valid() && NoSelfFollows(db.follows)
    ensures db.users == old(db.users) && db.posts == old(db.posts)
    ensures var e := UnfollowCheck(old(db.State()), followerId, followingId);
      if e.Some? then r == Failure(e.value) && db.follows == old(db.follows)
      else r == Success(()) && db.follows == RemoveEdge(old(db.follows), followerId, followingId)
  {
    if followerId == followingId {
      return Failure(InvalidUnfollow);
    }
    var existing := FindEdge(db.follows, followerId, followingId);
    if existing.None? {
      return Failure(NotFollowing);
    }
    var deleted := db.DeleteFollow(followerId, followingId);
    r := Success(());
  }

  /** A follow that succeeds, undone by an unfollow of the same pair, gives back the original follow table. */
  lemma FollowThenUnfollowRestores(t: Tables, followerId: string, followingId: string, now: nat)
    requires FollowCheck(t, followerId, followingId).None?
    ensures var after := t.follows + [Follow(followerId, followingId, now)];
      UnfollowCheck(t.(follows := after), followerId, followingId).None? &&
      RemoveEdge(after, followerId, followingId) == t.follows
  {
    var after := t.follows + [Follow(followerId, followingId, now)];
    assert after[|t.follows|] == Follow(followerId, followingId, now);
    RemoveEdgeAbsent(t.follows, followerId, followingId);
    FilterAppend(t.follows, Follow(followerId, followingId, now),
      (e: Follow) => !(e.followerId == followerId && e.followingId == followingId));
  }

  /** A successful unfollow removes exactly one edge, and a second unfollow of the pair fails with NOT_FOLLOWING. */
  lemma UnfollowRemovesOne(t: Tables, followerId: string, followingId: string)
    requires Consistent(t)
    requires UnfollowCheck(t, followerId, followingId).None?
    ensures |RemoveEdge(t.follows, followerId, followingId)| == |t.follows| - 1
    ensures UnfollowCheck(t.(follows := RemoveEdge(t.follows, followerId, followingId)), followerId, followingId) == Some(NotFollowing)
  {
    RemoveEdgeRemovesOne(t.follows, followerId, followingId);
  }

  /** After a successful follow, the same follow fails with ALREADY_FOLLOWING. */
  lemma FollowTwiceFails(t: Tables, followerId: string, followingId: string, now: nat)
    requires FollowCheck(t, followerId, followingId).None?
    ensures FollowCheck(t.(follows := t.follows + [Follow(followerId, followingId, now)]), followerId, followingId) == Some(AlreadyFollowing)
  {
    var after := t.follows + [Follow(followerId, followingId, now)];
    assert after[|t.follows|] == Follow(followerId, followingId, now);
  }

  function EdgeTime(e: Follow): nat { e.createdAt }

  /** The followers query: the edges into `userId`, newest first, cut to the window. */
  function FollowerEdgesPage(t: Tables, userId: string, offset: nat, limit: nat): (page: seq<Follow>)
    ensures IsNewestWindow(page, EdgesTo(t.follows, userId), EdgeTime, offset, limit)
    ensures NewestFirst(page, EdgeTime)
    ensures |page| == Min(limit, Max(0, |EdgesTo(t.follows, userId)| - offset))
    ensures forall i :: 0 <= i < |page| ==> page[i] in t.follows && page[i].followingId == userId
  {
    NewestPage(EdgesTo(t.follows, userId), EdgeTime, offset, limit)
  }

  /** The following query: the edges out of `userId`, newest first, cut to the window. */
  function FollowingEdgesPage(t: Tables, userId: string, offset: nat, limit: nat): (page: seq<Follow>)
    ensures IsNewestWindow(page, EdgesFrom(t.follows, userId), EdgeTime, offset, limit)
    ensures NewestFirst(page, EdgeTime)
    ensures |page| == Min(limit, Max(0, |EdgesFrom(t.follows, userId)| - offset))
    ensures forall i :: 0 <= i < |page| ==> page[i] in t.follows && page[i].followerId == userId
  {
    NewestPage(EdgesFrom(t.follows, userId), EdgeTime, offset, limit)
  }

  /**
   * `getFollowers`: 404 USER_NOT_FOUND for a missing user; otherwise the follower end of each edge of the
   * window, as a public profile, with the offset and limit echoed and the total of all matching edges.
   */
  function GetFollowers(t: Tables, userId: string, offset: nat, limit: nat): (r: Result<PaginatedResponse<UserPublicDTO>, ErrorValue>)
    requires Consistent(t)
    ensures r.Failure? <==> !HasUser(t.users, userId)
    ensures r.Failure? ==> r.error == UserNotFound
    ensures r.Success? ==>
      var page := FollowerEdgesPage(t, userId, offset, limit);
      var total := |EdgesTo(t.follows, userId)|;
      r.value.pagination == Pagination(offset, limit, total) &&
      |r.value.data| == |page| == Min(limit, Max(0, total - offset)) &&
      forall i :: 0 <= i < |page| ==> r.value.data[i] == PublicOf(UserById(t.users, page[i].followerId))
  {
    if !HasUser(t.users, userId) then Failure(UserNotFound)
    else
      var page := FollowerEdgesPage(t, userId, offset, limit);
      Success(PaginatedResponse(seq(|page|, i requires 0 <= i < |page| => PublicOf(UserById(t.users, page[i].followerId))),
        Pagination(offset, limit, |EdgesTo(t.follows, userId)|)))
  }

  /**
   * `getFollowing`: 404 USER_NOT_FOUND for a missing user; otherwise the following end of each edge of the
   * window, as a public profile, with the offset and limit echoed and the total of all matching edges.
   */
  function GetFollowing(t: Tables, userId: string, offset: nat, limit: nat): (r: Result<PaginatedResponse<UserPublicDTO>, ErrorValue>)
    requires Consistent(t)
    ensures r.Failure? <==> !HasUser(t.users, userId)
    ensures r.Failure? ==> r.error == UserNotFound
    ensures r.Success? ==>
      var page := FollowingEdgesPage(t, userId, offset, limit);
      var total := |EdgesFrom(t.follows, userId)|;
      r.value.pagination == Pagination(offset, limit, total) &&
      |r.value.data| == |page| == Min(limit, Max(0, total - offset)) &&
      forall i :: 0 <= i < |page| ==> r.value.data[i] == PublicOf(UserById(t.users, page[i].followingId))
  {
    if !HasUser(t.users, userId) then Failure(UserNotFound)
    else
      var page := FollowingEdgesPage(t, userId, offset, limit);
      Success(PaginatedResponse(seq(|page|, i requires 0 <= i < |page| => PublicOf(UserById(t.users, page[i].followingId))),
        Pagination(offset, limit, |EdgesFrom(t.follows, userId)|)))
  }

  /** Paging past the end gives an empty page and leaves the total as it was. */
  lemma FollowersPastTheEnd(t: Tables, userId: string, offset: nat, limit: nat)
    requires Consistent(t) && HasUser(t.users, userId)
    requires offset >= |EdgesTo(t.follows, userId)|
    ensures GetFollowers(t, userId, offset, limit).value.data == []
    ensures GetFollowers(t, userId, offset, limit).value.pagination.total == GetFollowers(t, userId, 0, limit).value.pagination.total
  {
  }
}
