/**
 * src/modules/posts/posts.service.ts: creating a post, reading one, a user's posts, and the feed of the
 * viewer's own posts and the posts of everyone the viewer follows, newest first.
 */
module PostsService {
  import opened Wrappers
  import opened ErrorHandler
  import opened Types
  import opened Query
  import opened Database
  import UsersService

  const PostNotFound: ErrorValue := ServiceError(404, "Post not found", "POST_NOT_FOUND")

  /** `data.mediaUrl || null`: an absent or empty URL is stored as `null`, any other as given. */
  function StoredMediaUrl(mediaUrl: Option<string>): (stored: Option<string>)
    ensures stored.None? <==> mediaUrl.None? || mediaUrl == Some("")
    ensures stored.Some? ==> stored == mediaUrl
  {
    if mediaUrl.Some? && mediaUrl.value != "" then mediaUrl else None
  }

  /** `toPostDTO` of a post joined with its author: the post's fields with `authorId` replaced by the author's public profile. */
  function ToPostDTO(users: seq<User>, p: Post): (d: PostDTO)
    requires HasUser(users, p.authorId)
    ensures d.id == p.id && d.text == p.text && d.mediaUrl == p.mediaUrl && d.createdAt == p.createdAt
    ensures d.author.id == p.authorId
    ensures exists u :: u in users && u.id == p.authorId && d.author == UserPublicDTO(u.id, u.handle, u.name, u.createdAt)
  {
    PostDTO(p.id, p.text, p.mediaUrl, p.createdAt, PublicOf(UserById(users, p.authorId)))
  }

  /**
   * `createPost`: inserts the post with the text and author as given and the media URL as `StoredMediaUrl`
   * makes it. There is no check of the author in the service; the database's foreign key refuses an
   * author that is not a stored user with P2003.
   */
  method CreatePost(db: Store, authorId: string, text: string, mediaUrl: Option<string>, newId: string, now: nat)
    returns (r: Result<PostDTO, ErrorValue>)
    requires db.Valid()
    requires !HasPost(db.posts, newId)
    modifies db
    ensures db.Valid()
    ensures db.users == old(db.users) && db.follows == old(db.follows)
    ensures var row := Post(newId, authorId, text, StoredMediaUrl(mediaUrl), now);
      if HasUser(db.users, authorId) then
        db.posts == old(db.posts) + [row] && r == Success(ToPostDTO(db.users, row))
      else
        r == Failure(ForeignKeyConstraintFailed) && db.posts == old(db.posts)
  {
    var row := Post(newId, authorId, text, StoredMediaUrl(mediaUrl), now);
    var created := db.CreatePost(row);
    if created.Failure? {
      return Failure(created.error);
    }
    r := Success(ToPostDTO(db.users, created.value));
  }

  /** `getPostById`: the stored post with its author, or 404 POST_NOT_FOUND. */
  function GetPostById(t: Tables, id: string): (r: Result<PostDTO, ErrorValue>)
    requires Consistent(t)
    ensures r.Failure? <==> !HasPost(t.posts, id)
    ensures r.Failure? ==> r.error == PostNotFound
    ensures r.Success? ==> r.value.id == id && exists p :: p in t.posts && p.id == id && r.value == ToPostDTO(t.users, p)
  {
    match FindPost(t.posts, id)
    case None => Failure(PostNotFound)
    case Some(p) => Success(ToPostDTO(t.users, p))
  }

  function PostTime(p: Post): nat { p.createdAt }

  /** The posts of a page as DTOs, each joined with its author. */
  function PostDTOs(t: Tables, page: seq<Post>): (data: seq<PostDTO>)
    requires Consistent(t)
    requires forall i :: 0 <= i < |page| ==> page[i] in t.posts
    ensures |data| == |page|
    ensures forall i :: 0 <= i < |page| ==> data[i] == ToPostDTO(t.users, page[i])
  {
    seq(|page|, i requires 0 <= i < |page| => ToPostDTO(t.users, page[i]))
  }

  /** The window of a user's posts, newest first. */
  function UserPostsPage(t: Tables, userId: string, offset: nat, limit: nat): (page: seq<Post>)
    ensures IsNewestWindow(page, PostsOf(t.posts, userId), PostTime, offset, limit)
    ensures |page| == Min(limit, Max(0, |PostsOf(t.posts, userId)| - offset))
    ensures multiset(page) <= multiset(PostsOf(t.posts, userId))
    ensures forall i :: 0 <= i < |page| ==> page[i] in t.posts && page[i].authorId == userId
    ensures forall i, j :: 0 <= i < j < |page| ==> page[i].createdAt >= page[j].createdAt
  {
    var page := NewestPage(PostsOf(t.posts, userId), PostTime, offset, limit);
    assert forall i :: 0 <= i < |page| ==> page[i] in PostsOf(t.posts, userId);
    page
  }

  /**
   * `getUserPosts`: 404 USER_NOT_FOUND for a missing user; otherwise a window of that user's posts, newest
   * first, joined with their author, with the offset and limit echoed and the total of all the user's posts.
   */
  function GetUserPosts(t: Tables, userId: string, offset: nat, limit: nat): (r: Result<PaginatedResponse<PostDTO>, ErrorValue>)
    requires Consistent(t)
    ensures r.Failure? <==> !HasUser(t.users, userId)
    ensures r.Failure? ==> r.error == UsersService.UserNotFound
    ensures r.Success? ==>
      var page := UserPostsPage(t, userId, offset, limit);
      r.value.pagination == Pagination(offset, limit, |PostsOf(t.posts, userId)|) &&
      |r.value.data| == |page| &&
      forall i :: 0 <= i < |page| ==> r.value.data[i] == ToPostDTO(t.users, page[i])
  {
    if !HasUser(t.users, userId) then Failure(UsersService.UserNotFound)
    else
      var page := UserPostsPage(t, userId, offset, limit);
      Success(PaginatedResponse(PostDTOs(t, page), Pagination(offset, limit, |PostsOf(t.posts, userId)|)))
  }

  /** `authorIds = [userId, ...followingIds]`: the viewer first, then everyone the viewer follows, in table order. */
  function FeedAuthorIds(t: Tables, userId: string): (ids: seq<string>)
    ensures |ids| == 1 + |EdgesFrom(t.follows, userId)|
    ensures ids[0] == userId
    ensures forall i :: 1 <= i < |ids| ==> ids[i] == EdgesFrom(t.follows, userId)[i - 1].followingId
  {
    var edges := EdgesFrom(t.follows, userId);
    [userId] + seq(|edges|, i requires 0 <= i < |edges| => edges[i].followingId)
  }

  /** An id is a feed author exactly when it is the viewer or someone the viewer follows. */
  lemma FeedAuthorsIff(t: Tables, userId: string, authorId: string)
    ensures authorId in FeedAuthorIds(t, userId) <==> authorId == userId || HasEdge(t.follows, userId, authorId)
  {
    var ids := FeedAuthorIds(t, userId);
    var edges := EdgesFrom(t.follows, userId);
    if authorId in ids && authorId != userId {
      var k :| 0 <= k < |ids| && ids[k] == authorId;
      assert edges[k - 1] in t.follows;
    }
    if authorId != userId && HasEdge(t.follows, userId, authorId) {
      var k :| 0 <= k < |t.follows| && t.follows[k].followerId == userId && t.follows[k].followingId == authorId;
      assert t.follows[k] in edges;
      var j :| 0 <= j < |edges| && edges[j] == t.follows[k];
      assert ids[j + 1] == authorId;
    }
  }

  /** The posts the feed draws from: those whose author is a feed author. */
  function FeedPosts(t: Tables, userId: string): seq<Post> {
    PostsByAny(t.posts, FeedAuthorIds(t, userId))
  }

  /** The window of the feed's posts, newest first. */
  function FeedPage(t: Tables, userId: string, offset: nat, limit: nat): (page: seq<Post>)
    ensures IsNewestWindow(page, FeedPosts(t, userId), PostTime, offset, limit)
    ensures |page| == Min(limit, Max(0, |FeedPosts(t, userId)| - offset))
    ensures multiset(page) <= multiset(FeedPosts(t, userId))
    ensures forall i :: 0 <= i < |page| ==> page[i] in t.posts && page[i].authorId in FeedAuthorIds(t, userId)
    ensures forall i, j :: 0 <= i < j < |page| ==> page[i].createdAt >= page[j].createdAt
  {
    var page := NewestPage(FeedPosts(t, userId), PostTime, offset, limit);
    assert forall i :: 0 <= i < |page| ==> page[i] in FeedPosts(t, userId);
    page
  }

  /**
   * `getFeed`: never fails, and does not look the viewer up. The data is the feed window joined with the
   * authors; the total counts all posts by the viewer and the viewer's followees.
   */
  function GetFeed(t: Tables, userId: string, offset: nat, limit: nat): (r: Result<PaginatedResponse<PostDTO>, ErrorValue>)
    requires Consistent(t)
    ensures r.Success?
    ensures var page := FeedPage(t, userId, offset, limit);
      r.value.pagination == Pagination(offset, limit, |FeedPosts(t, userId)|) &&
      |r.value.data| == |page| &&
      forall i :: 0 <= i < |page| ==> r.value.data[i] == ToPostDTO(t.users, page[i])
  {
    var page := FeedPage(t, userId, offset, limit);
    Success(PaginatedResponse(PostDTOs(t, page), Pagination(offset, limit, |FeedPosts(t, userId)|)))
  }

  /** Every post on a feed page is by the viewer or by someone the viewer follows. */
  lemma FeedPageAuthors(t: Tables, userId: string, offset: nat, limit: nat, i: nat)
    requires Consistent(t)
    requires i < |GetFeed(t, userId, offset, limit).value.data|
    ensures var d := GetFeed(t, userId, offset, limit).value.data[i];
      d.author.id == userId || HasEdge(t.follows, userId, d.author.id)
  {
    FeedAuthorsIff(t, userId, FeedPage(t, userId, offset, limit)[i].authorId);
  }

  /** Paging past the end of the feed gives an empty page and leaves the total as it was. */
  lemma FeedPastTheEnd(t: Tables, userId: string, offset: nat, limit: nat)
    requires Consistent(t)
    requires offset >= |FeedPosts(t, userId)|
    ensures GetFeed(t, userId, offset, limit).value.data == []
    ensures GetFeed(t, userId, offset, limit).value.pagination.total == GetFeed(t, userId, 0, limit).value.pagination.total
  {
  }

  /** Every stored post by the viewer or by someone the viewer follows is among the posts the feed counts. */
  lemma FeedCoversAuthors(t: Tables, userId: string, p: Post)
    requires p in t.posts
    requires p.authorId == userId || HasEdge(t.follows, userId, p.authorId)
    ensures p in FeedPosts(t, userId)
  {
    FeedAuthorsIff(t, userId, p.authorId);
    var k :| 0 <= k < |t.posts| && t.posts[k] == p;
  }

  /** A viewer who follows no one gets exactly their own posts: the same page and total as `getUserPosts`. */
  lemma FeedWithoutFollowsIsOwnPosts(t: Tables, userId: string, offset: nat, limit: nat)
    requires Consistent(t) && HasUser(t.users, userId)
    requires forall i :: 0 <= i < |t.follows| ==> t.follows[i].followerId != userId
    ensures GetFeed(t, userId, offset, limit) == GetUserPosts(t, userId, offset, limit)
  {
    assert EdgesFrom(t.follows, userId) == [];
    assert FeedAuthorIds(t, userId) == [userId];
    PostsByOne(t.posts, userId);
  }

  /** For an unknown viewer the feed is still a page, made of the posts of whoever the id follows. */
  lemma FeedOfUnknownViewer(t: Tables, userId: string, offset: nat, limit: nat)
    requires Consistent(t) && !HasUser(t.users, userId)
    ensures GetFeed(t, userId, offset, limit).Success?
    ensures GetUserPosts(t, userId, offset, limit) == Failure(UsersService.UserNotFound)
  {
  }

  /**
   * The rows prisma/seed.ts creates: alice, bob and charlie; alice follows bob and charlie and bob follows
   * alice; four posts, by alice, bob, charlie and alice again, written in that order.
   */
  function SeedTables(): Tables {
    Tables(
      [User("alice", "alice@example.com", "alice", "Alice Johnson", "hash", 0),
       User("bob", "bob@example.com", "bob", "Bob Smith", "hash", 0),
       User("charlie", "charlie@example.com", "charlie", "Charlie Brown", "hash", 0)],
      [Follow("alice", "bob", 1), Follow("alice", "charlie", 1), Follow("bob", "alice", 1)],
      [Post("p1", "alice", "Hello world! This is my first post.", None, 2),
       Post("p2", "bob", "Excited to be here!", None, 3),
       Post("p3", "charlie", "Just another day in paradise \U{1F334}", None, 4),
       Post("p4", "alice", "Working on some cool projects today.", None, 5)])
  }

  /** The seed rows satisfy the schema's constraints. */
  lemma SeedConsistent()
    ensures Consistent(SeedTables())
  {
    var t := SeedTables();
    assert t.users[0].id == "alice" && t.users[1].id == "bob" && t.users[2].id == "charlie";
  }

  /** Charlie follows no one, so the only post of charlie's feed is charlie's own. */
  lemma SeedFeedPostsOfCharlie(t: Tables)
    requires t == SeedTables()
    ensures FeedPosts(t, "charlie") == [t.posts[2]]
  {
    assert EdgesFrom(t.follows, "charlie") == [];
    assert FeedAuthorIds(t, "charlie") == ["charlie"];
  }

  /** Charlie's feed is charlie's one post. */
  lemma SeedFeedOfCharlie(t: Tables)
    requires t == SeedTables()
    ensures Consistent(t)
    ensures var feed := GetFeed(t, "charlie", 0, 20).value;
      feed.pagination.total == 1 && |feed.data| == 1 && feed.data[0].id == "p3"
  {
    SeedConsistent();
    SeedFeedPostsOfCharlie(t);
    assert FeedPage(t, "charlie", 0, 20)[0] in FeedPosts(t, "charlie");
  }

  /** Alice follows bob and charlie: the feed authors of alice are alice, bob and charlie. */
  lemma SeedFeedAuthorsOfAlice(t: Tables)
    requires t == SeedTables()
    ensures FeedAuthorIds(t, "alice") == ["alice", "bob", "charlie"]
  {
    var f := t.follows;
    assert f == f[..2] + [f[2]];
    FilterAppend(f[..2], f[2], (e: Follow) => e.followerId == "alice");
  }

  /** Every post of the seed is a post of alice's feed. */
  lemma SeedFeedPostsOfAlice(t: Tables)
    requires t == SeedTables()
    ensures FeedPosts(t, "alice") == t.posts
  {
    SeedFeedAuthorsOfAlice(t);
    var ids := FeedAuthorIds(t, "alice");
    assert forall i :: 0 <= i < |t.posts| ==> t.posts[i].authorId in ids;
  }

  /** A first page that holds the whole feed starts with the feed's strictly newest post. */
  lemma FullFeedStartsWithNewest(t: Tables, userId: string, limit: nat, newest: Post)
    requires Consistent(t)
    requires |FeedPosts(t, userId)| <= limit
    requires newest in FeedPosts(t, userId)
    requires forall i :: 0 <= i < |FeedPosts(t, userId)| && FeedPosts(t, userId)[i] != newest ==>
      FeedPosts(t, userId)[i].createdAt < newest.createdAt
    ensures |GetFeed(t, userId, 0, limit).value.data| == |FeedPosts(t, userId)|
    ensures GetFeed(t, userId, 0, limit).value.data[0].id == newest.id
  {
    FullPageStartsWithNewest(FeedPosts(t, userId), PostTime, limit, newest);
  }

  /** The last seed post is strictly newer than the others. */
  lemma SeedNewestPost(posts: seq<Post>)
    requires posts == SeedTables().posts
    ensures forall i :: 0 <= i < |posts| && posts[i] != posts[3] ==> posts[i].createdAt < posts[3].createdAt
  {
    assert |posts| == 4 && posts[0].createdAt == 2 && posts[1].createdAt == 3 && posts[2].createdAt == 4 && posts[3].createdAt == 5;
  }

  /** Alice's feed holds all four posts, the newest one first. */
  lemma SeedFeedOfAlice(t: Tables)
    requires t == SeedTables()
    ensures Consistent(t)
    ensures var feed := GetFeed(t, "alice", 0, 20).value;
      feed.pagination.total == 4 && |feed.data| == 4 && feed.data[0].id == "p4"
  {
    SeedConsistent();
    SeedFeedPostsOfAlice(t);
    SeedNewestPost(t.posts);
    FullFeedStartsWithNewest(t, "alice", 20, t.posts[3]);
  }
}
