/** The record shapes the services return (src/models/types.ts). */
module Types {
  import opened Wrappers

  /** A user as returned to the account owner: never the password hash. */
  datatype UserDTO = UserDTO(id: string, handle: string, email: string, name: string, createdAt: nat)

  /** A user as anyone may see it: neither the email nor the password hash. */
  datatype UserPublicDTO = UserPublicDTO(id: string, handle: string, name: string, createdAt: nat)

  /** A post joined with its author's public projection; a `null` media URL is `None`. */
  datatype PostDTO = PostDTO(id: string, text: string, mediaUrl: Option<string>, createdAt: nat, author: UserPublicDTO)

  datatype Pagination = Pagination(offset: nat, limit: nat, total: nat)

  /** One page of a listing, the window it was cut with, and the count of the unwindowed listing. */
  datatype PaginatedResponse<T> = PaginatedResponse(data: seq<T>, pagination: Pagination)
}
