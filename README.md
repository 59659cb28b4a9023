# Social-media backend: a verified model of its services, middleware and request schemas

This project models the core of a small social-media backend (Express, Prisma, bcrypt, jsonwebtoken, Zod) in Dafny:

- the three services: accounts (`register`, `login`), the follow graph (`getUserById`, `followUser`, `unfollowUser`, `getFollowers`, `getFollowing`), and posts and the feed (`createPost`, `getPostById`, `getUserPosts`, `getFeed`);
- the `authenticate` and `optionalAuth` middleware, which read the `Authorization: Bearer` header (section 2.1 of RFC 6750, compared case-sensitively);
- the error handler, which turns a thrown value into a status and a JSON body, and the 404 handler for unknown routes;
- the Zod request schemas for the auth, posts and users routes.

The database is a class `Database.Store` with three tables (`users`, `follows`, `posts`) held as sequences. Its methods are the Prisma calls that write:

- `create` refuses a unique-key clash with P2002 and a missing referenced user with P2003;
- `delete` of a missing row gives P2025;
- `Store.Valid()` states the schema's constraints and every write keeps them. The constraints are unique user ids, emails and handles; one edge per ordered pair; unique post ids; and edges and posts that point at stored users.

The services that write (`FollowUser`, `UnfollowUser`, `PostsService.CreatePost`, `AuthService.Register`) are methods on the store. Their contracts tie the result and the new tables to a specification function of the old tables.

The read-only services are functions of a snapshot `Tables`. Prisma's `findMany` with `orderBy: { createdAt: 'desc' }`, `skip` and `take` becomes:

- a filter;
- a newest-first sort, whose order among equal timestamps is left open: `Query.IsNewestWindow`;
- a window;
- `count`, the length of the filtered rows.

Three things are parameters rather than part of the model. bcrypt and jsonwebtoken are function-valued fields of `AuthService.Crypto`. The JWT secret and lifetime are `AuthService.AuthConfig`. `NODE_ENV` is an `Option<string>`. Row ids and `createdAt` timestamps are parameters too, and a new id is required to be fresh, which is what the database's id generator promises.

Modules, one per source file, plus shared building blocks:

- `Wrappers`: `Option` and `Result`.
- `Types`: the DTOs of src/models/types.ts.
- `Query`: the Prisma read semantics.
- `Database`: rows, constraints and `Store`.
- `ErrorHandler`: the error handler.
- `Zod`: UTF-16 string length and JavaScript `parseInt`.
- `AuthValidation`, `PostsValidation` and `UsersValidation`: the request schemas.
- `AuthMiddleware`: the two middleware functions.
- `UsersService`, `PostsService` and `AuthService`: the services.

Two behaviours of the code are modelled as written and made explicit by lemmas:

- **`TOKEN_EXPIRED` is unreachable.** In jsonwebtoken, `TokenExpiredError` is a subclass of `JsonWebTokenError`. The catch block of `authenticate` tests `JsonWebTokenError` first, so an expired token is answered with 'Invalid token' / UNAUTHORIZED. The 'Token expired' / TOKEN_EXPIRED branch is never taken. See `AuthMiddleware.ExpiredTokenReportedAsInvalid` and `AuthMiddleware.TokenExpiredUnreachable`. The failure datatype carries the subclass relation as a flag, so the other case is stated too, in `AuthMiddleware.ExpiredTokenOtherwise`.
- **`register`'s conflict message depends on the row found.** The message looks only at the one row `findFirst` returns for `email OR handle`: 'Email already registered' when that row holds the email, else 'Handle already taken'. One user holding both, as when the same body is registered twice, is answered with the email message (`AuthService.BothHeldByOneRowMessage`). When one user holds the email and another holds the handle, the lookup has no `orderBy`, so the answer can be 'Handle already taken' although the email is registered too (`AuthService.SplitConflictReportsHandle`, for one legal row order). A description of the system as "email first" would disagree; the model follows the code.

## Model

| member | source | states |
|---|---|---|
| Query.FindFirst | src/modules/auth/auth.service.ts:19-23 | `findFirst` finds a row exactly when some row satisfies the `where`, and the row it finds is stored and satisfies it |
| Query.FindFirstAfterMisses | src/modules/auth/auth.service.ts:65-69 | a matching row appended after rows that all fail the `where` is the row `findFirst` returns |
| Query.Filter | src/modules/posts/posts.service.ts:66-67 | the filtered rows are exactly the stored rows the `where` accepts: every kept row matches, every matching row is kept, nothing is kept when nothing matches, everything when everything matches; `Query.FilterMultiset` gives the multiplicities |
| Query.FilterMultiset | src/modules/posts/posts.service.ts:82-84 | each row the `where` accepts is selected exactly as often as the table holds it, and a rejected row never is, so the length of the selection is the `count` of matching rows |
| Query.FilterCongruent | src/modules/posts/posts.service.ts:110-114 | two `where` conditions that agree on every stored row select the same rows |
| Query.FilterAppend | src/modules/users/users.service.ts:53-58 | filtering a table with a row appended gives the old selection plus that row when it matches |
| Query.InsertByNewest | src/modules/users/users.service.ts:119 | inserting a row into a newest-first listing keeps it newest-first and adds exactly that row |
| Query.SortByNewest | src/modules/users/users.service.ts:119 | `orderBy: { createdAt: 'desc' }` yields the same rows (as a multiset) in non-increasing `createdAt` order |
| Query.Window | src/modules/users/users.service.ts:120-121 | `skip`/`take` gives min(limit, max(0, n - offset)) rows, row i being row offset + i of the listing |
| Query.WindowKeepsOrder | src/modules/users/users.service.ts:119-121 | a window of a newest-first listing is newest-first and holds only rows of the listing |
| Query.WindowWithin | src/modules/users/users.service.ts:120-121 | a window takes each row at most as often as the listing holds it |
| Query.SortedWindowWithin | src/modules/posts/posts.service.ts:125-127 | a window of the sorted rows is a sub-multiset of the selected rows |
| Query.SortedWindowIsNewest | src/modules/posts/posts.service.ts:125-127 | a window of the sorted rows is the window of some newest-first arrangement of exactly the selected rows |
| Query.NewestPage | src/modules/posts/posts.service.ts:109-128 | the page of `findMany` is the window of a newest-first arrangement of exactly the selected rows: newest-first, of size min(limit, max(0, total - offset)), a sub-multiset of the selection |
| Query.FullPageStartsWithNewest | src/modules/posts/posts.service.ts:125-127 | a first page long enough for the whole selection holds all of it and starts with the strictly newest row |
| Database.FindUser | src/modules/users/users.service.ts:7-15 | `user.findUnique({ where: { id } })` finds a row exactly when the id is stored, and that row has the id |
| Database.FindEdge | src/modules/users/users.service.ts:39-46 | `follow.findUnique` on the pair finds a row exactly when the edge is stored |
| Database.EdgesTo | src/modules/users/users.service.ts:107-108 | the edges `where: { followingId }` are exactly the stored edges into the user, each kept as often as stored (`Database.SelectionCounts`) |
| Database.EdgesFrom | src/modules/posts/posts.service.ts:99-102 | the edges `where: { followerId }` are exactly the stored edges out of the user, each kept as often as stored (`Database.SelectionCounts`) |
| Database.FindPost | src/modules/posts/posts.service.ts:29-30 | `post.findUnique({ where: { id } })` finds a row exactly when the id is stored |
| Database.PostsOf | src/modules/posts/posts.service.ts:66-67 | the posts `where: { authorId }` are exactly the stored posts by that author, each kept as often as stored (`Database.SelectionCounts`) |
| Database.PostsByAny | src/modules/posts/posts.service.ts:109-114 | the posts `where: { authorId: { in } }` are exactly the stored posts whose author is listed, each kept as often as stored (`Database.SelectionCounts`) |
| Database.SelectionCounts | src/modules/users/users.service.ts:105-125 | the edges into a user, the edges out of a user, a user's posts and the posts by any listed author each hold every matching stored row exactly as often as the table does and no other row, so `findMany` and `count` over the same `where` agree |
| Database.PostsByOne | src/modules/posts/posts.service.ts:104-114 | selecting by a one-element author list equals selecting by that author |
| Database.UserById | src/modules/posts/posts.service.ts:13-22 | the `include: { author }` join gives the stored user with the post's author id |
| Database.PublicOf | src/modules/users/users.service.ts:9-14 | the `select: { id, handle, name, createdAt }` of a user; `UsersService.GetUserById`, `GetFollowers` and `ToPostDTO` state its use |
| Database.RemoveEdge | src/modules/users/users.service.ts:81-88 | the follow table after the delete keeps exactly the edges other than the pair |
| Database.RemoveEdgeRemovesOne | src/modules/users/users.service.ts:81-88 | with unique pairs, deleting a stored edge shortens the table by one and leaves no such edge |
| Database.RemoveEdgeAbsent | src/modules/users/users.service.ts:81-88 | deleting a pair that is not stored leaves the table as it was |
| Database.FilterKeepsUniquePairs | src/modules/users/users.service.ts:81-88 | removing edges keeps every ordered pair unique |
| Database.Store.CreateUser | src/modules/auth/auth.service.ts:39-46 | `user.create` refuses a row whose id, email or handle is stored with P2002 and changes nothing; otherwise appends exactly the row; constraints are kept |
| Database.Store.CreateFollow | src/modules/users/users.service.ts:53-58 | `follow.create` refuses a stored pair with P2002, then a missing endpoint with P2003; otherwise appends exactly the edge; constraints are kept |
| Database.Store.DeleteFollow | src/modules/users/users.service.ts:81-88 | `follow.delete` of a missing pair gives P2025 and changes nothing; otherwise removes exactly that edge |
| Database.Store.CreatePost | src/modules/posts/posts.service.ts:7-12 | `post.create` refuses a stored id with P2002, then a missing author with P2003; otherwise appends exactly the row |
| ErrorHandler.NewHttpError | src/middleware/error-handler.ts:16-21 | an `HttpError` keeps its status, message and details; its code is the given one, or 'HTTP_ERROR' when omitted or empty |
| ErrorHandler.HandleError | src/middleware/error-handler.ts:25-82 | ZodError gives 422 VALIDATION_ERROR; an HttpError gives its own status, code, message and details; Prisma P2002 gives 409 CONFLICT, P2025 404 NOT_FOUND; anything else 500 INTERNAL_SERVER_ERROR, with the message hidden in production |
| ErrorHandler.HttpErrorRoundTrip | src/middleware/error-handler.ts:16-57 | an error built by the `HttpError` constructor comes out of the handler with the status, message, details and defaulted code it was built with |
| ErrorHandler.StatusIsOneOfTheTable | src/middleware/error-handler.ts:42-81 | every error gets one response; only an `HttpError` can choose a status outside 422, 409, 404 and 500 |
| ErrorHandler.ProductionHidesUnknownErrors | src/middleware/error-handler.ts:77-81 | in production a non-`HttpError` never has its own message echoed |
| ErrorHandler.OtherPrismaCodesAreInternal | src/middleware/error-handler.ts:60-81 | a Prisma known-request error with a code other than P2002 and P2025 is a 500 |
| ErrorHandler.NotFound | src/middleware/error-handler.ts:84-89 | an unknown route is a 404 NOT_FOUND whose message is 'Route ', the method, a space, the path and ' not found' |
| Zod.Utf16Length | src/modules/auth/auth.validation.ts:8-9 | a string's JavaScript length lies between its number of characters and twice that |
| Zod.Utf16LengthOfBmp | src/modules/auth/auth.validation.ts:8-9 | for text in the Basic Multilingual Plane the JavaScript length is the number of characters |
| Zod.LengthBoundsOfBmp | src/modules/posts/posts.validation.ts:7-8 | for such text, `min(lo).max(hi)` accepts exactly lengths lo..hi |
| Zod.TrimStart | src/modules/posts/posts.validation.ts:28 | `parseInt` skips exactly the leading ECMAScript white space |
| Zod.DigitPrefix | src/modules/posts/posts.validation.ts:28 | `parseInt` reads the longest run of leading decimal digits |
| Zod.Decimal | src/modules/posts/posts.validation.ts:27 | a natural number's decimal numeral is a non-empty string of digits |
| Zod.DecimalValueOfDecimal | src/modules/posts/posts.validation.ts:28 | reading a numeral back gives its number |
| Zod.ParseIntDecimal | src/modules/posts/posts.validation.ts:28 | `parseInt(numeral + rest, 10)` is the numeral's value whenever `rest` does not start with a digit |
| Zod.ParseIntNegative | src/modules/posts/posts.validation.ts:28 | a leading '-' negates the value |
| Zod.DigitPrefixOfDigits | src/modules/posts/posts.validation.ts:28 | the digit run of digits followed by a non-digit is those digits |
| Zod.ParseInt | src/modules/posts/posts.validation.ts:28 | `parseInt(val, 10)` gives a number only when the text holds a digit, and a negative number only when it holds a '-'; `ParseIntDecimal`, `ParseIntNegative` and `ParseIntNoDigits` pin its values |
| Zod.ParseIntNoDigits | src/modules/posts/posts.validation.ts:28 | a value with no digit parses to NaN |
| AuthValidation.HandlePatternIff | src/modules/auth/auth.validation.ts:10 | `/^[a-zA-Z0-9_]+$/` accepts exactly the non-empty strings of letters, digits and underscores |
| AuthValidation.HandleOkIff | src/modules/auth/auth.validation.ts:6-10 | a handle is accepted exactly when it has 3 to 30 characters, each a letter, digit or underscore |
| AuthValidation.RegisterAccepted | src/modules/auth/auth.validation.ts:3-20 | an accepted register body has a valid email, a valid handle, a name of 1..100 characters and a password of 4..72 characters (8..72 JavaScript code units) |
| AuthValidation.RegisterSchemaIff | src/modules/auth/auth.validation.ts:3-20 | with name and password in the Basic Multilingual Plane, a register body is accepted exactly when email, handle (3..30 handle characters), name (1..100) and password (8..72) all pass |
| AuthValidation.RegisterSchema | src/modules/auth/auth.validation.ts:3-20 | `registerSchema`: what it accepts is stated by `RegisterAccepted` and `RegisterSchemaIff` |
| AuthValidation.LoginSchema | src/modules/auth/auth.validation.ts:22-27 | `loginSchema`: what it accepts is stated by `LoginSchemaIff` |
| AuthValidation.HandleHasNoAt | src/modules/auth/auth.validation.ts:6-10 | a handle the schema accepts holds no '@' |
| AuthValidation.LoginSchemaIff | src/modules/auth/auth.validation.ts:22-27 | a login body is accepted exactly when neither field is empty |
| PostsValidation.OffsetQuery | src/modules/posts/posts.validation.ts:24-29 | an accepted offset is at least 0 |
| PostsValidation.LimitQuery | src/modules/posts/posts.validation.ts:30-35 | an accepted limit lies in 1..100 |
| PostsValidation.PageQuerySchema | src/modules/posts/posts.validation.ts:23-36 | the query is accepted exactly when both fields are, and carries both parsed values |
| PostsValidation.GetUserPostsSchema | src/modules/posts/posts.validation.ts:19-37 | accepted exactly when the id is non-empty and both paging fields pass; then it carries the parsed offset (>= 0) and limit (1..100) |
| PostsValidation.GetFeedSchema | src/modules/posts/posts.validation.ts:39-54 | accepted exactly when both paging fields pass; then it carries the parsed offset (>= 0) and limit (1..100) |
| PostsValidation.CreatePostSchemaIff | src/modules/posts/posts.validation.ts:3-11 | for text in the Basic Multilingual Plane, a post body is accepted exactly when the text has 1..2000 characters and a media URL, if present, is a URL |
| PostsValidation.PostIdIff | src/modules/posts/posts.validation.ts:13-17 | a post id is accepted exactly when it is non-empty |
| PostsValidation.CreatePostSchema | src/modules/posts/posts.validation.ts:3-11 | `createPostSchema`: what it accepts is stated by `CreatePostSchemaIff` |
| PostsValidation.GetPostSchema | src/modules/posts/posts.validation.ts:13-17 | `getPostSchema`: what it accepts is stated by `PostIdIff` |
| PostsValidation.GetUploadUrlSchema | src/modules/posts/posts.validation.ts:56-62 | `getUploadUrlSchema`: what it accepts is stated by `UploadExtensions` |
| PostsValidation.UploadExtensions | src/modules/posts/posts.validation.ts:56-62 | the extension is accepted exactly when it is png, jpg, jpeg, gif or mp4, case-sensitively |
| PostsValidation.OffsetAcceptsNumerals | src/modules/posts/posts.validation.ts:24-29 | every decimal numeral is an accepted offset with its own value |
| PostsValidation.LimitAcceptsNumeralsInRange | src/modules/posts/posts.validation.ts:30-35 | a limit numeral is accepted exactly when its value is in 1..100 |
| PostsValidation.DefaultsAccepted | src/modules/posts/posts.validation.ts:24-35 | a missing offset means 0 and a missing limit means 20; the defaults pass their own refinements |
| PostsValidation.OffsetRejectsNegatives | src/modules/posts/posts.validation.ts:28-29 | a negative numeral is refused as offset, except '-0' |
| PostsValidation.NonNumericRejected | src/modules/posts/posts.validation.ts:28-35 | a value without digits is refused for both fields |
| UsersValidation.GetFollowersSchema | src/modules/users/users.validation.ts:21-39 | accepted exactly when the id is non-empty and both paging fields pass; then it carries the parsed offset (>= 0) and limit (1..100) |
| UsersValidation.GetFollowingSchema | src/modules/users/users.validation.ts:41-59 | accepted exactly when the id is non-empty and both paging fields pass; then it carries the parsed offset (>= 0) and limit (1..100) |
| UsersValidation.GetUserSchema | src/modules/users/users.validation.ts:3-7 | `getUserSchema`: what it accepts is stated by `IdSchemasIff` |
| UsersValidation.FollowUserSchema | src/modules/users/users.validation.ts:9-13 | `followUserSchema`: what it accepts is stated by `IdSchemasIff` |
| UsersValidation.UnfollowUserSchema | src/modules/users/users.validation.ts:15-19 | `unfollowUserSchema`: what it accepts is stated by `IdSchemasIff` |
| UsersValidation.IdSchemasIff | src/modules/users/users.validation.ts:3-19 | the get, follow and unfollow schemas each accept exactly the non-empty ids |
| UsersValidation.ListingSchemasAgree | src/modules/users/users.validation.ts:21-59 | the followers and following schemas accept the same requests with the same result |
| UsersValidation.ListingDefaults | src/modules/users/users.validation.ts:26-37 | a listing without query fields gets offset 0 and limit 20 |
| AuthMiddleware.TokenOf | src/middleware/auth.ts:27 | the token is the header without its first 7 characters: 'Bearer ' + token is the header |
| AuthMiddleware.BearerToken | src/middleware/auth.ts:21-27 | a token exists exactly when the header is present and starts with 'Bearer ' |
| AuthMiddleware.TokenRoundTrip | src/middleware/auth.ts:23-27 | prefixing any token with 'Bearer ' and extracting it gives the token back |
| AuthMiddleware.LowerCaseSchemeRejected | src/middleware/auth.ts:23 | the prefix test is case-sensitive: a 'bearer ' header carries no token |
| AuthMiddleware.CatchAuthError | src/middleware/auth.ts:33-41 | a JsonWebTokenError becomes 401 'Invalid token'; otherwise a TokenExpiredError becomes 401 TOKEN_EXPIRED; any other error is forwarded unchanged |
| AuthMiddleware.ExpiredTokenReportedAsInvalid | src/middleware/auth.ts:34-37 | with jsonwebtoken's class hierarchy an expired token is reported as 'Invalid token' |
| AuthMiddleware.TokenExpiredUnreachable | src/middleware/auth.ts:33-41 | with that hierarchy no error `verify` throws becomes TOKEN_EXPIRED |
| AuthMiddleware.ExpiredTokenOtherwise | src/middleware/auth.ts:36-37 | only an expiry error that is not a JsonWebTokenError reaches the TOKEN_EXPIRED branch |
| AuthMiddleware.Request.constructor | src/middleware/auth.ts:11-17 | a request starts with its header and no `user` |
| AuthMiddleware.Authenticate | src/middleware/auth.ts:19-42 | no token: 'No token provided' is passed on and `user` is untouched; a token that verifies: no error and `user` is the decoded payload; a token that throws: the caught error as classified, `user` untouched |
| AuthMiddleware.OptionalAuth | src/middleware/auth.ts:44-59 | never passes an error; sets `user` only when a Bearer token verifies, else leaves it |
| UsersService.GetUserById | src/modules/users/users.service.ts:6-22 | the public projection (id, handle, name, createdAt) of the stored user; a missing id fails 404 USER_NOT_FOUND |
| UsersService.FollowCheck | src/modules/users/users.service.ts:24-58 | a self follow fails INVALID_FOLLOW before any lookup, then a missing target USER_NOT_FOUND, then an existing edge ALREADY_FOLLOWING; no error exactly when the users differ, both exist and the edge is new; when everything else passes but the follower is not a stored user, `follow.create` fails with P2003 |
| UsersService.FollowUser | src/modules/users/users.service.ts:24-59 | answers as `FollowCheck`; a failure leaves the store as it was, a success appends exactly the one edge; no self edge and no repeated pair ever appears |
| UsersService.UnfollowCheck | src/modules/users/users.service.ts:61-78 | a self unfollow fails INVALID_UNFOLLOW, a missing edge NOT_FOLLOWING; the target's existence is not checked |
| UsersService.UnfollowUser | src/modules/users/users.service.ts:61-89 | answers as `UnfollowCheck`; a failure changes nothing, a success removes exactly that edge |
| UsersService.FollowThenUnfollowRestores | src/modules/users/users.service.ts:53-88 | a successful follow undone by an unfollow of the same pair restores the follow table |
| UsersService.UnfollowRemovesOne | src/modules/users/users.service.ts:76-88 | a successful unfollow removes one edge, after which the same unfollow fails NOT_FOLLOWING |
| UsersService.FollowTwiceFails | src/modules/users/users.service.ts:39-50 | after a successful follow the same follow fails ALREADY_FOLLOWING |
| UsersService.FollowerEdgesPage | src/modules/users/users.service.ts:107-122 | the followers page is the `skip`/`take` window of some newest-first arrangement of exactly the edges into the user; so it holds only such edges, newest first, window-sized |
| UsersService.FollowingEdgesPage | src/modules/users/users.service.ts:154-169 | the following page is the `skip`/`take` window of some newest-first arrangement of exactly the edges out of the user; so it holds only such edges, newest first, window-sized |
| UsersService.GetFollowers | src/modules/users/users.service.ts:91-136 | a missing user fails USER_NOT_FOUND; otherwise the follower of each edge in the page, offset and limit echoed, total = all edges into the user |
| UsersService.GetFollowing | src/modules/users/users.service.ts:138-183 | a missing user fails USER_NOT_FOUND; otherwise the followed user of each edge in the page, offset and limit echoed, total = all edges out of the user |
| UsersService.FollowersPastTheEnd | src/modules/users/users.service.ts:119-125 | an offset past the total gives an empty page with the total unchanged |
| PostsService.StoredMediaUrl | src/modules/posts/posts.service.ts:11 | `mediaUrl || null`: absent or empty is stored as null, anything else as given |
| PostsService.ToPostDTO | src/modules/posts/posts.service.ts:148-167 | a post's id, text, media URL and time with its author's public projection, the author being the post's author |
| PostsService.CreatePost | src/modules/posts/posts.service.ts:6-26 | a stored author gets exactly one new post with the given text and the stored media URL; a missing author fails with P2003 and nothing changes |
| PostsService.GetPostById | src/modules/posts/posts.service.ts:28-48 | the stored post with its author; a missing id fails 404 POST_NOT_FOUND |
| PostsService.PostDTOs | src/modules/posts/posts.service.ts:88 | each post of a page mapped through `toPostDTO`, in order |
| PostsService.UserPostsPage | src/modules/posts/posts.service.ts:66-81 | the page is the `skip`/`take` window of some newest-first arrangement of exactly the user's posts; so it holds only the user's posts, newest first, window-sized |
| PostsService.GetUserPosts | src/modules/posts/posts.service.ts:50-95 | a missing user fails USER_NOT_FOUND; otherwise the page's posts with their author, offset and limit echoed, total = all the user's posts |
| PostsService.FeedAuthorIds | src/modules/posts/posts.service.ts:99-105 | the feed authors are the viewer followed by each followee, in edge order |
| PostsService.FeedAuthorsIff | src/modules/posts/posts.service.ts:104-105 | an id is a feed author exactly when it is the viewer or someone the viewer follows |
| PostsService.FeedPage | src/modules/posts/posts.service.ts:109-128 | the feed page is the `skip`/`take` window of some newest-first arrangement of exactly the posts by feed authors; so it holds only such posts, newest first, window-sized |
| PostsService.GetFeed | src/modules/posts/posts.service.ts:97-146 | never fails; the page's posts with their author, offset and limit echoed, total = all posts by feed authors |
| PostsService.FeedPageAuthors | src/modules/posts/posts.service.ts:104-114 | every post on a feed page is by the viewer or by someone the viewer follows |
| PostsService.FeedPastTheEnd | src/modules/posts/posts.service.ts:125-145 | an offset past the total gives an empty page with the total unchanged |
| PostsService.FeedCoversAuthors | src/modules/posts/posts.service.ts:104-114 | every stored post by the viewer or a followee is counted in the feed |
| PostsService.FeedWithoutFollowsIsOwnPosts | src/modules/posts/posts.service.ts:99-145 | a viewer who follows no one gets exactly the answer of `getUserPosts` for themself |
| PostsService.FeedOfUnknownViewer | src/modules/posts/posts.service.ts:97-105 | an unknown viewer still gets a feed, while `getUserPosts` for that id fails USER_NOT_FOUND |
| PostsService.FullFeedStartsWithNewest | src/modules/posts/posts.service.ts:125-139 | a first page that holds the whole feed starts with its strictly newest post |
| PostsService.SeedConsistent | prisma/seed.ts:15-91 | the seed data satisfies the schema's constraints |
| PostsService.SeedFeedPostsOfCharlie | prisma/seed.ts:43-91 | charlie follows no one, so charlie's feed draws only on charlie's post |
| PostsService.SeedFeedOfCharlie | prisma/seed.ts:43-91 | charlie's feed is the one post by charlie, total 1 |
| PostsService.SeedFeedAuthorsOfAlice | prisma/seed.ts:43-56 | alice's feed authors are alice, bob and charlie |
| PostsService.SeedFeedPostsOfAlice | prisma/seed.ts:43-91 | every seed post is in alice's feed |
| PostsService.SeedNewestPost | prisma/seed.ts:65-91 | the last seed post is strictly the newest |
| PostsService.SeedFeedOfAlice | prisma/seed.ts:43-91 | alice's feed holds all four posts, the last one written first |
| AuthService.ExistingUser | src/modules/auth/auth.service.ts:19-23 | a row is found exactly when some stored user has the email or the handle |
| AuthService.RegisterConflict | src/modules/auth/auth.service.ts:19-33 | a conflict exactly when the email or the handle is stored; then 409 USER_EXISTS, for some stored row holding the email or the handle, with 'Email already registered' when that row holds the email and 'Handle already taken' otherwise |
| AuthService.NewUserRow | src/modules/auth/auth.service.ts:35-46 | the new row has the body's email, handle and name and the bcrypt hash of the password at cost 12 |
| AuthService.Register | src/modules/auth/auth.service.ts:12-58 | a conflict fails and creates nothing; otherwise exactly one user is appended and the answer is its profile without the hash and a token for { id, handle }; uniqueness is kept |
| AuthService.EmailConflictMessage | src/modules/auth/auth.service.ts:25-32 | when only the email collides, the message is 'Email already registered' |
| AuthService.HandleConflictMessage | src/modules/auth/auth.service.ts:25-32 | when only the handle collides, the message is 'Handle already taken' |
| AuthService.BothHeldByOneRowMessage | src/modules/auth/auth.service.ts:19-30 | when the one row that matches holds both the email and the handle, the message is 'Email already registered' |
| AuthService.SplitConflictReportsHandle | src/modules/auth/auth.service.ts:19-32 | with the handle held by one user and the email by another, the answer can be 'Handle already taken': it is for the table order that puts the handle's row first |
| AuthService.LoginMatch | src/modules/auth/auth.service.ts:65-69 | a row is found exactly when some stored user has the identifier as email or handle |
| AuthService.Login | src/modules/auth/auth.service.ts:60-92 | every failure is the one 401 INVALID_CREDENTIALS, so an unknown identifier and a wrong password look alike; an identifier no user has fails; a success is a user with that email or handle whose hash the password passes, answered with its profile and a token for it |
| AuthService.LoginSingleMatch | src/modules/auth/auth.service.ts:65-91 | when exactly one user answers to the identifier, login succeeds exactly when the password passes that user's hash |
| AuthService.LoginByEmailAfterRegister | src/modules/auth/auth.service.ts:35-91 | after a registration, login with its email and password gives the new user and its token (assuming bcrypt accepts a password against its own hash) |
| AuthService.LoginByHandleAfterRegister | src/modules/auth/auth.service.ts:35-91 | the same with the handle as identifier |

## Left out

- Prisma itself: SQL, connections, `include`/`select` mechanics. The database schema file (prisma/schema.prisma) is not part of this model. The constraints `Database.Store.Valid` states are inferred from the compound key `followerId_followingId`, the error codes the handler maps, and the checks the services make.
- The parallel `Promise.all` of `findMany` and `count` is modelled as two reads of one snapshot.
- Concurrency: the check-then-create races in `followUser` and `register` are not modelled. Both methods require the store's invariant and run as one step.
- bcrypt and jsonwebtoken internals: hashing, salts, signatures and expiry. They are the function fields of `AuthService.Crypto`, and the random salt is a parameter. No lemma assumes `compare(p, hash(p))` except the two login-after-register lemmas, which state it as a precondition.
- JWT claims beyond `{ userId, handle }`, such as `iat` and `exp`, are not modelled. `jwt.verify` is a parameter of the middleware methods that returns a payload or a thrown error.
- AuthService.HashPassword, AuthService.VerifyPassword, AuthService.GenerateToken and AuthService.ToUserDTO carry no contract of their own. They only forward to the crypto parameters or copy fields. What they mean is stated by the contracts of `NewUserRow`, `Register` and `Login`.
- `findFirst` without `orderBy` (the `register` and `login` lookups) is modelled as the first match in table order. The database promises no order, so which of several matching rows is found is one choice among those allowed; `AuthService.RegisterConflict` and `AuthService.Login` state only that some matching row is used.
- Timestamps are `nat` values supplied by the caller, not `Date`s. The order among rows with equal `createdAt` is left open (`Query.IsNewestWindow`); the executable sort keeps table order.
- Zod's `email()` and `url()` format checks are parameters (`isEmail`, `isUrl`). Zod's issue messages and the shape of `ZodError.errors` are not modelled.
- `parseInt` is modelled on unbounded integers. JavaScript's loss of precision above 2^53 is not, and neither is the difference between `-0` and `0`.
- Logging (`logger.error`) and the Express `res`/`next` plumbing are output only. `next()` after a successful `authenticate` is the `None` result.
- The controllers, routers, server bootstrap and configuration are not modelled. Neither is `getUploadUrl` in the posts controller, which calls Supabase storage and `randomUUID`. Only its query schema is modelled (`PostsValidation.UploadExtensions`).
- AuthValidation.RegisterAccepted: states the password bound as 4..72 characters. Zod counts UTF-16 code units, so 8 code units can be 4 characters outside the Basic Multilingual Plane. `AuthValidation.RegisterSchemaIff` gives the exact 8..72 for text inside it.
