/**
 * src/modules/users/users.validation.ts: every route takes a non-empty `id` parameter; the two listings also
 * take the paging query, written out with the same default, parse and refinement chain as the posts schemas.
 */
module UsersValidation {
  import opened Wrappers
  import opened Zod
  import opened PostsValidation

  /** `getUserSchema`. */
  predicate GetUserSchema(id: string) {
    MinLength(id, 1)
  }

  /** `followUserSchema`: the id and nothing about the query. */
  predicate FollowUserSchema(id: string) {
    MinLength(id, 1)
  }

  /** `unfollowUserSchema`: the id and nothing about the query. */
  predicate UnfollowUserSchema(id: string) {
    MinLength(id, 1)
  }

  /** `getFollowersSchema`: the id, an offset of at least 0 defaulting to 0, a limit in 1..100 defaulting to 20. */
  function GetFollowersSchema(id: string, offset: Option<string>, limit: Option<string>): (r: Option<PageQuery>)
    ensures r.Some? <==> id != [] && OffsetQuery(offset).Some? && LimitQuery(limit).Some?
    ensures r.Some? ==> r.value.offset >= 0 && 1 <= r.value.limit <= 100
    ensures r.Some? ==> r.value == PageQuery(OffsetQuery(offset).value, LimitQuery(limit).value)
  {
    if MinLength(id, 1) then PageQuerySchema(offset, limit) else None
  }

  /** `getFollowingSchema`: the same fields and checks as the followers schema. */
  function GetFollowingSchema(id: string, offset: Option<string>, limit: Option<string>): (r: Option<PageQuery>)
    ensures r.Some? <==> id != [] && OffsetQuery(offset).Some? && LimitQuery(limit).Some?
    ensures r.Some? ==> r.value.offset >= 0 && 1 <= r.value.limit <= 100
    ensures r.Some? ==> r.value == PageQuery(OffsetQuery(offset).value, LimitQuery(limit).value)
  {
    if MinLength(id, 1) then PageQuerySchema(offset, limit) else None
  }

  /** The id check of every users route is exactly "not empty". */
  lemma IdSchemasIff(id: string)
    ensures GetUserSchema(id) <==> id != []
    ensures FollowUserSchema(id) <==> id != []
    ensures UnfollowUserSchema(id) <==> id != []
  {
  }

  /** The followers and following schemas accept the same requests and produce the same query. */
  lemma ListingSchemasAgree(id: string, offset: Option<string>, limit: Option<string>)
    ensures GetFollowersSchema(id, offset, limit) == GetFollowingSchema(id, offset, limit)
  {
  }

  /** With both query fields missing, a listing gets offset 0 and limit 20. */
  lemma ListingDefaults(id: string)
    requires id != []
    ensures GetFollowersSchema(id, None, None) == Some(PageQuery(0, 20))
  {
    DefaultsAccepted();
  }
}
