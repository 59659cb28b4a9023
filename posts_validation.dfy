/** src/modules/posts/posts.validation.ts: the post body, route-parameter and paging-query schemas. */
module PostsValidation {
  import opened Wrappers
  import opened Zod

  /** The query after validation: the parsed `offset` and `limit`. */
  datatype PageQuery = PageQuery(offset: int, limit: int)

  /** `createPostSchema`: text of 1 to 2000 code units; a media URL, when present, passes Zod's `url()` check, the parameter `isUrl`. */
  predicate CreatePostSchema(text: string, mediaUrl: Option<string>, isUrl: string -> bool) {
    MinLength(text, 1) && MaxLength(text, 2000) && (mediaUrl.None? || isUrl(mediaUrl.value))
  }

  /** `getPostSchema`: a non-empty post id. */
  predicate GetPostSchema(id: string) {
    MinLength(id, 1)
  }

  /** The `offset` query field: missing means '0'; then `parseInt(value, 10)`, which must be at least 0. */
  function OffsetQuery(raw: Option<string>): (r: Option<int>)
    ensures r.Some? ==> r.value >= 0
  {
    match ParseInt(raw.GetOr("0"))
    case NaN => None
    case Num(v) => if v >= 0 then Some(v) else None
  }

  /** The `limit` query field: missing means '20'; then `parseInt(value, 10)`, which must lie in 1..100. */
  function LimitQuery(raw: Option<string>): (r: Option<int>)
    ensures r.Some? ==> 1 <= r.value <= 100
  {
    match ParseInt(raw.GetOr("20"))
    case NaN => None
    case Num(v) => if v > 0 && v <= 100 then Some(v) else None
  }

  /** Both paging fields; the query is rejected when either is. */
  function PageQuerySchema(offset: Option<string>, limit: Option<string>): (r: Option<PageQuery>)
    ensures r.Some? <==> OffsetQuery(offset).Some? && LimitQuery(limit).Some?
    ensures r.Some? ==> r.value == PageQuery(OffsetQuery(offset).value, LimitQuery(limit).value)
  {
    match (OffsetQuery(offset), LimitQuery(limit))
    case (Some(o), Some(l)) => Some(PageQuery(o, l))
    case _ => None
  }

  /** `getUserPostsSchema`: a non-empty user id, and the paging query. */
  function GetUserPostsSchema(id: string, offset: Option<string>, limit: Option<string>): (r: Option<PageQuery>)
    ensures r.Some? <==> id != [] && OffsetQuery(offset).Some? && LimitQuery(limit).Some?
    ensures r.Some? ==> r.value.offset >= 0 && 1 <= r.value.limit <= 100
    ensures r.Some? ==> r.value == PageQuery(OffsetQuery(offset).value, LimitQuery(limit).value)
  {
    if MinLength(id, 1) then PageQuerySchema(offset, limit) else None
  }

  /** `getFeedSchema`: the paging query alone. */
  function GetFeedSchema(offset: Option<string>, limit: Option<string>): (r: Option<PageQuery>)
    ensures r.Some? <==> OffsetQuery(offset).Some? && LimitQuery(limit).Some?
    ensures r.Some? ==> r.value.offset >= 0 && 1 <= r.value.limit <= 100
    ensures r.Some? ==> r.value == PageQuery(OffsetQuery(offset).value, LimitQuery(limit).value)
  {
    PageQuerySchema(offset, limit)
  }

  /** `getUploadUrlSchema`: the extension is one of the five the enum lists. */
  predicate GetUploadUrlSchema(ext: string) {
    ext in ["png", "jpg", "jpeg", "gif", "mp4"]
  }

  /** For text in the Basic Multilingual Plane, a post body is accepted exactly when the text has 1 to 2000 characters and a URL, if given, is valid. */
  lemma CreatePostSchemaIff(text: string, mediaUrl: Option<string>, isUrl: string -> bool)
    requires IsBmp(text)
    ensures CreatePostSchema(text, mediaUrl, isUrl) <==>
      1 <= |text| <= 2000 && (mediaUrl.None? || isUrl(mediaUrl.value))
  {
    LengthBoundsOfBmp(text, 1, 2000);
  }

  /** The post-id check is exactly "not empty". */
  lemma PostIdIff(id: string)
    ensures GetPostSchema(id) <==> id != []
  {
  }

  /** The extension check is exact and case-sensitive: 'png' passes, 'PNG' and 'webp' do not. */
  lemma UploadExtensions(ext: string)
    ensures GetUploadUrlSchema(ext) <==> ext == "png" || ext == "jpg" || ext == "jpeg" || ext == "gif" || ext == "mp4"
    ensures GetUploadUrlSchema("png") && !GetUploadUrlSchema("PNG") && !GetUploadUrlSchema("webp")
  {
    assert "PNG"[0] != "png"[0];
  }

  /** Any decimal numeral is an accepted offset, and reads back as its value. */
  lemma OffsetAcceptsNumerals(n: nat)
    ensures OffsetQuery(Some(Decimal(n))) == Some(n)
  {
    ParseIntDecimal(n, []);
    assert Decimal(n) + [] == Decimal(n);
  }

  /** A limit numeral is accepted exactly when its value is in 1..100. */
  lemma LimitAcceptsNumeralsInRange(n: nat)
    ensures LimitQuery(Some(Decimal(n))) == (if 1 <= n <= 100 then Some(n) else None)
  {
    ParseIntDecimal(n, []);
    assert Decimal(n) + [] == Decimal(n);
  }

  /** The defaults '0' and '20' pass their own refinements: a missing field means offset 0, limit 20. */
  lemma DefaultsAccepted()
    ensures OffsetQuery(None) == Some(0)
    ensures LimitQuery(None) == Some(20)
    ensures PageQuerySchema(None, None) == Some(PageQuery(0, 20))
  {
    assert Decimal(0) == "0";
    assert Decimal(20) == "20";
    OffsetAcceptsNumerals(0);
    LimitAcceptsNumeralsInRange(20);
  }

  /** A negative numeral is not an offset; '-0' is, as JavaScript's -0 is not below 0. */
  lemma OffsetRejectsNegatives(n: nat)
    ensures OffsetQuery(Some("-" + Decimal(n))) == (if n == 0 then Some(0) else None)
  {
    ParseIntNegative(n);
  }

  /** An empty or non-numeric value is rejected for both fields, as `parseInt` gives NaN. */
  lemma NonNumericRejected(raw: string)
    requires forall i :: 0 <= i < |raw| ==> !IsDigit(raw[i])
    ensures OffsetQuery(Some(raw)).None? && LimitQuery(Some(raw)).None?
  {
    ParseIntNoDigits(raw);
  }
}
