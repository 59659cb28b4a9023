/**
 * The three tables the services read and write, and the Prisma operations on them that change state.
 * Rows are kept in table order. The store enforces the constraints the services rely on: unique user id,
 * email and handle, unique post id, at most one follow edge per (follower, following) pair, and the
 * relations `follower`, `following` and `author` as foreign keys to a user.
 */
module Database {
  import opened Wrappers
  import opened ErrorHandler
  import opened Types
  import opened Query

  datatype User = User(id: string, email: string, handle: string, name: string, passwordHash: string, createdAt: nat)

  datatype Follow = Follow(followerId: string, followingId: string, createdAt: nat)

  datatype Post = Post(id: string, authorId: string, text: string, mediaUrl: Option<string>, createdAt: nat)

  /** The contents of the database at one moment. */
  datatype Tables = Tables(users: seq<User>, follows: seq<Follow>, posts: seq<Post>)

  /** Prisma's error for a write that breaks a unique constraint. */
  const UniqueConstraintFailed: ErrorValue := PrismaError("P2002", "Unique constraint failed")
  /** Prisma's error for a write whose relation points at no row. */
  const ForeignKeyConstraintFailed: ErrorValue := PrismaError("P2003", "Foreign key constraint failed")
  /** Prisma's error for a delete that finds no row. */
  const RecordNotFound: ErrorValue := PrismaError("P2025", "Record to delete does not exist.")

  predicate HasUser(users: seq<User>, id: string) {
    exists i :: 0 <= i < |users| && users[i].id == id
  }

  predicate HasPost(posts: seq<Post>, id: string) {
    exists i :: 0 <= i < |posts| && posts[i].id == id
  }

  predicate HasEdge(follows: seq<Follow>, followerId: string, followingId: string) {
    exists i :: 0 <= i < |follows| && follows[i].followerId == followerId && follows[i].followingId == followingId
  }

  /** `prisma.user.findUnique({ where: { id } })`. */
  function FindUser(users: seq<User>, id: string): (r: Option<User>)
    ensures r.Some? <==> HasUser(users, id)
    ensures r.Some? ==> r.value in users && r.value.id == id
  {
    FindFirst(users, (u: User) => u.id == id)
  }

  /** `prisma.follow.findUnique({ where: { followerId_followingId } })`. */
  function FindEdge(follows: seq<Follow>, followerId: string, followingId: string): (r: Option<Follow>)
    ensures r.Some? <==> HasEdge(follows, followerId, followingId)
    ensures r.Some? ==> r.value in follows && r.value.followerId == followerId && r.value.followingId == followingId
  {
    FindFirst(follows, (e: Follow) => e.followerId == followerId && e.followingId == followingId)
  }

  /** The edges `where: { followingId: userId }`, in table order: who follows `userId`. */
  function EdgesTo(follows: seq<Follow>, userId: string): (r: seq<Follow>)
    ensures forall i :: 0 <= i < |r| ==> r[i] in follows && r[i].followingId == userId
    ensures forall i :: 0 <= i < |follows| && follows[i].followingId == userId ==> follows[i] in r
  {
    Filter(follows, (e: Follow) => e.followingId == userId)
  }

  /** The edges `where: { followerId: userId }`, in table order: whom `userId` follows. */
  function EdgesFrom(follows: seq<Follow>, userId: string): (r: seq<Follow>)
    ensures forall i :: 0 <= i < |r| ==> r[i] in follows && r[i].followerId == userId
    ensures forall i :: 0 <= i < |follows| && follows[i].followerId == userId ==> follows[i] in r
  {
    Filter(follows, (e: Follow) => e.followerId == userId)
  }

  /** `prisma.post.findUnique({ where: { id } })`. */
  function FindPost(posts: seq<Post>, id: string): (r: Option<Post>)
    ensures r.Some? <==> HasPost(posts, id)
    ensures r.Some? ==> r.value in posts && r.value.id == id
  {
    FindFirst(posts, (p: Post) => p.id == id)
  }

  /** The posts `where: { authorId: userId }`, in table order. */
  function PostsOf(posts: seq<Post>, userId: string): (r: seq<Post>)
    ensures forall i :: 0 <= i < |r| ==> r[i] in posts && r[i].authorId == userId
    ensures forall p :: p in r ==> p in posts && p.authorId == userId
    ensures forall i :: 0 <= i < |posts| && posts[i].authorId == userId ==> posts[i] in r
  {
    Filter(posts, (p: Post) => p.authorId == userId)
  }

  /** The posts `where: { authorId: { in: authorIds } }`, in table order. */
  function PostsByAny(posts: seq<Post>, authorIds: seq<string>): (r: seq<Post>)
    ensures forall i :: 0 <= i < |r| ==> r[i] in posts && r[i].authorId in authorIds
    ensures forall p :: p in r ==> p in posts && p.authorId in authorIds
    ensures forall i :: 0 <= i < |posts| && posts[i].authorId in authorIds ==> posts[i] in r
  {
    Filter(posts, (p: Post) => p.authorId in authorIds)
  }

  /** Selecting by a one-element id list is selecting by that id. */
  lemma PostsByOne(posts: seq<Post>, userId: string)
    ensures PostsByAny(posts, [userId]) == PostsOf(posts, userId)
  {
    FilterCongruent(posts, (p: Post) => p.authorId in [userId], (p: Post) => p.authorId == userId);
  }

  /**
   * Each selection holds every matching row exactly as often as the table does, and no other row; so its
   * length is what `count` with the same `where` reports.
   */
  lemma SelectionCounts(t: Tables, userId: string, authorIds: seq<string>, e: Follow, p: Post)
    ensures multiset(EdgesTo(t.follows, userId))[e] == if e.followingId == userId then multiset(t.follows)[e] else 0
    ensures multiset(EdgesFrom(t.follows, userId))[e] == if e.followerId == userId then multiset(t.follows)[e] else 0
    ensures multiset(PostsOf(t.posts, userId))[p] == if p.authorId == userId then multiset(t.posts)[p] else 0
    ensures multiset(PostsByAny(t.posts, authorIds))[p] == if p.authorId in authorIds then multiset(t.posts)[p] else 0
  {
    FilterMultiset(t.follows, (f: Follow) => f.followingId == userId, e);
    FilterMultiset(t.follows, (f: Follow) => f.followerId == userId, e);
    FilterMultiset(t.posts, (q: Post) => q.authorId == userId, p);
    FilterMultiset(t.posts, (q: Post) => q.authorId in authorIds, p);
  }

  /** The stored user with a given id, for a relation that the foreign keys guarantee. */
  function UserById(users: seq<User>, id: string): (u: User)
    requires HasUser(users, id)
    ensures u in users && u.id == id
  {
    FindUser(users, id).value
  }

  /** The `{ id, handle, name, createdAt }` selection the services make of a user. */
  function PublicOf(u: User): UserPublicDTO {
    UserPublicDTO(u.id, u.handle, u.name, u.createdAt)
  }

  /** Whether a stored user already has the id, the email or the handle of `row`. */
  predicate Taken(users: seq<User>, row: User) {
    exists i :: 0 <= i < |users| && (users[i].id == row.id || users[i].email == row.email || users[i].handle == row.handle)
  }

  predicate UniqueUsers(users: seq<User>) {
    forall i, j :: 0 <= i < j < |users| ==>
      users[i].id != users[j].id && users[i].email != users[j].email && users[i].handle != users[j].handle
  }

  predicate UniquePairs(follows: seq<Follow>) {
    forall i, j :: 0 <= i < j < |follows| ==>
      !(follows[i].followerId == follows[j].followerId && follows[i].followingId == follows[j].followingId)
  }

  predicate UniquePostIds(posts: seq<Post>) {
    forall i, j :: 0 <= i < j < |posts| ==> posts[i].id != posts[j].id
  }

  predicate EdgesReferToUsers(t: Tables) {
    forall i :: 0 <= i < |t.follows| ==>
      HasUser(t.users, t.follows[i].followerId) && HasUser(t.users, t.follows[i].followingId)
  }

  predicate PostsReferToUsers(t: Tables) {
    forall i :: 0 <= i < |t.posts| ==> HasUser(t.users, t.posts[i].authorId)
  }

  /** The database's constraints hold. */
  predicate Consistent(t: Tables) {
    UniqueUsers(t.users) && UniquePairs(t.follows) && UniquePostIds(t.posts) &&
    EdgesReferToUsers(t) && PostsReferToUsers(t)
  }

  /** The follow-graph invariant the users service keeps on top of the database's own: no user follows itself. */
  predicate NoSelfFollows(follows: seq<Follow>) {
    forall i :: 0 <= i < |follows| ==> follows[i].followerId != follows[i].followingId
  }

  /** The rows left by `prisma.follow.delete({ where: { followerId_followingId } })`, in table order. */
  function RemoveEdge(follows: seq<Follow>, followerId: string, followingId: string): (r: seq<Follow>)
    ensures forall i :: 0 <= i < |r| ==>
      r[i] in follows && !(r[i].followerId == followerId && r[i].followingId == followingId)
    ensures forall i :: 0 <= i < |follows| && !(follows[i].followerId == followerId && follows[i].followingId == followingId) ==>
      follows[i] in r
  {
    Filter(follows, (e: Follow) => !(e.followerId == followerId && e.followingId == followingId))
  }

  /** With pairs unique, deleting an existing edge removes exactly one row. */
  lemma {:induction false} RemoveEdgeRemovesOne(follows: seq<Follow>, followerId: string, followingId: string)
    requires UniquePairs(follows)
    requires HasEdge(follows, followerId, followingId)
    ensures |RemoveEdge(follows, followerId, followingId)| == |follows| - 1
  {
    var f := follows[0];
    if f.followerId == followerId && f.followingId == followingId {
      assert !HasEdge(follows[1..], followerId, followingId) by {
        forall i | 0 <= i < |follows[1..]|
          ensures !(follows[1..][i].followerId == followerId && follows[1..][i].followingId == followingId)
        {
          assert follows[1..][i] == follows[i + 1];
        }
      }
      RemoveEdgeAbsent(follows[1..], followerId, followingId);
    } else {
      var k :| 0 <= k < |follows| && follows[k].followerId == followerId && follows[k].followingId == followingId;
      assert follows[1..][k - 1] == follows[k];
      RemoveEdgeRemovesOne(follows[1..], followerId, followingId);
    }
  }

  /** Deleting an edge that is not there leaves the rows as they were. */
  lemma {:induction false} RemoveEdgeAbsent(follows: seq<Follow>, followerId: string, followingId: string)
    requires !HasEdge(follows, followerId, followingId)
    ensures RemoveEdge(follows, followerId, followingId) == follows
  {
    if follows != [] {
      assert !HasEdge(follows[1..], followerId, followingId) by {
        forall i | 0 <= i < |follows[1..]|
          ensures !(follows[1..][i].followerId == followerId && follows[1..][i].followingId == followingId)
        {
          assert follows[1..][i] == follows[i + 1];
        }
      }
      RemoveEdgeAbsent(follows[1..], followerId, followingId);
      assert follows == [follows[0]] + follows[1..];
    }
  }

  /**
   * The database as a mutable object: one field per table, and the Prisma `create`/`delete` calls the services
   * make, each refusing a write that breaks a constraint with the Prisma error for it.
   */
  class Store {
    var users: seq<User>
    var follows: seq<Follow>
    var posts: seq<Post>

    constructor ()
      ensures users == [] && follows == [] && posts == []
    {
      users, follows, posts := [], [], [];
    }

    function State(): Tables
      reads this
    {
      Tables(users, follows, posts)
    }

    ghost predicate Valid()
      reads this
    {
      Consistent(State())
    }

    /** `prisma.user.create`: refused with P2002 when the id, the email or the handle is already stored. */
    method CreateUser(row: User) returns (r: Result<User, ErrorValue>)
      requires Valid()
      modifies this`users
      ensures Valid()
      ensures if Taken(old(users), row) then r == Failure(UniqueConstraintFailed) && users == old(users)
        else r == Success(row) && users == old(users) + [row]
    {
      if Taken(users, row) {
        return Failure(UniqueConstraintFailed);
      }
      users := users + [row];
      assert forall id :: HasUser(old(users), id) ==> HasUser(users, id) by {
        forall id | HasUser(old(users), id) ensures HasUser(users, id) {
          var k :| 0 <= k < |old(users)| && old(users)[k].id == id;
          assert users[k] == old(users)[k];
        }
      }
      r := Success(row);
    }

    /**
     * `prisma.follow.create`: refused with P2002 when the pair is already stored, then with P2003 when either
     * end is not a stored user. Nothing in the database forbids a self edge.
     */
    method CreateFollow(followerId: string, followingId: string, now: nat) returns (r: Result<Follow, ErrorValue>)
      requires Valid()
      modifies this`follows
      ensures Valid()
      ensures if HasEdge(old(follows), followerId, followingId) then
          r == Failure(UniqueConstraintFailed) && follows == old(follows)
        else if !HasUser(users, followerId) || !HasUser(users, followingId) then
          r == Failure(ForeignKeyConstraintFailed) && follows == old(follows)
        else
          r == Success(Follow(followerId, followingId, now)) && follows == old(follows) + [Follow(followerId, followingId, now)]
    {
      if HasEdge(follows, followerId, followingId) {
        return Failure(UniqueConstraintFailed);
      }
      if !HasUser(users, followerId) || !HasUser(users, followingId) {
        return Failure(ForeignKeyConstraintFailed);
      }
      var edge := Follow(followerId, followingId, now);
      follows := follows + [edge];
      r := Success(edge);
    }

    /** `prisma.follow.delete`: refused with P2025 when the pair is not stored. */
    method DeleteFollow(followerId: string, followingId: string) returns (r: Result<(), ErrorValue>)
      requires Valid()
      modifies this`follows
      ensures Valid()
      ensures if HasEdge(old(follows), followerId, followingId) then
          r == Success(()) && follows == RemoveEdge(old(follows), followerId, followingId)
        else
          r == Failure(RecordNotFound) && follows == old(follows)
    {
      if !HasEdge(follows, followerId, followingId) {
        return Failure(RecordNotFound);
      }
      follows := RemoveEdge(follows, followerId, followingId);
      FilterKeepsUniquePairs(old(follows), (e: Follow) => !(e.followerId == followerId && e.followingId == followingId));
      r := Success(());
    }

    /** `prisma.post.create`: refused with P2002 when the id is already stored, then with P2003 when the author is not a stored user. */
    method CreatePost(row: Post) returns (r: Result<Post, ErrorValue>)
      requires Valid()
      modifies this`posts
      ensures Valid()
      ensures if HasPost(old(posts), row.id) then
          r == Failure(UniqueConstraintFailed) && posts == old(posts)
        else if !HasUser(users, row.authorId) then
          r == Failure(ForeignKeyConstraintFailed) && posts == old(posts)
        else
          r == Success(row) && posts == old(posts) + [row]
    {
      if HasPost(posts, row.id) {
        return Failure(UniqueConstraintFailed);
      }
      if !HasUser(users, row.authorId) {
        return Failure(ForeignKeyConstraintFailed);
      }
      posts := posts + [row];
      r := Success(row);
    }
  }

  /** Dropping the first edge keeps pairs unique. */
  lemma UniquePairsTail(follows: seq<Follow>)
    requires follows != [] && UniquePairs(follows)
    ensures UniquePairs(follows[1..])
  {
    var tail := follows[1..];
    forall i, j | 0 <= i < j < |tail|
      ensures !(tail[i].followerId == tail[j].followerId && tail[i].followingId == tail[j].followingId)
    {
      assert tail[i] == follows[i + 1] && tail[j] == follows[j + 1];
    }
  }

  /** Putting an edge in front of unique edges keeps them unique when none of them has its pair. */
  lemma UniquePairsCons(e: Follow, rest: seq<Follow>)
    requires UniquePairs(rest)
    requires forall k :: 0 <= k < |rest| ==> !(rest[k].followerId == e.followerId && rest[k].followingId == e.followingId)
    ensures UniquePairs([e] + rest)
  {
    var r := [e] + rest;
    forall i, j | 0 <= i < j < |r|
      ensures !(r[i].followerId == r[j].followerId && r[i].followingId == r[j].followingId)
    {
      assert r[j] == rest[j - 1];
      if i > 0 {
        assert r[i] == rest[i - 1];
      }
    }
  }

  /** Filtering keeps rows in order, so it keeps pairs unique. */
  lemma {:induction false} FilterKeepsUniquePairs(follows: seq<Follow>, p: Follow -> bool)
    requires UniquePairs(follows)
    ensures UniquePairs(Filter(follows, p))
  {
    if follows != [] {
      var tail := follows[1..];
      UniquePairsTail(follows);
      FilterKeepsUniquePairs(tail, p);
      var rest := Filter(tail, p);
      if p(follows[0]) {
        forall k | 0 <= k < |rest|
          ensures !(rest[k].followerId == follows[0].followerId && rest[k].followingId == follows[0].followingId)
        {
          var m :| 0 <= m < |tail| && tail[m] == rest[k];
          assert tail[m] == follows[m + 1];
        }
        UniquePairsCons(follows[0], rest);
      }
    }
  }
}
