/** The stored post record: an optional author reference and two trimmed, required strings. */
module PostModel {
  import opened Wrappers
  import opened JsString
  import opened UserModel

  type PostId = nat

  datatype Post = Post(id: PostId, authorId: Option<UserId>, authorName: string, content: string, createdAt: int)

  /** The fields passed to `create`; absent ones are `None`. */
  datatype PostInput = PostInput(authorId: Option<UserId>, authorName: Option<string>, content: Option<string>, createdAt: Option<int>)

  datatype PostError = AuthorNameRequired | ContentRequired

  /** What every saved post satisfies. */
  predicate ValidPost(p: Post) {
    && p.authorName != "" && Trim(p.authorName) == p.authorName
    && p.content != "" && Trim(p.content) == p.content
  }

  /** The validation a new post document goes through: both strings are trimmed, then required. */
  function PostErrors(input: PostInput): (errs: seq<PostError>)
    ensures AuthorNameRequired in errs <==> input.authorName.None? || Trim(input.authorName.value) == ""
    ensures ContentRequired in errs <==> input.content.None? || Trim(input.content.value) == ""
  {
    (if input.authorName.None? || Trim(input.authorName.value) == "" then [AuthorNameRequired] else [])
    + (if input.content.None? || Trim(input.content.value) == "" then [ContentRequired] else [])
  }

  /** `create(input)`: builds and validates a post; `createdAt` defaults to `now`, `authorId` may be absent. */
  function CreatePost(input: PostInput, id: PostId, now: int): (r: Result<Post, seq<PostError>>)
    ensures r.Ok? <==>
      input.authorName.Some? && Trim(input.authorName.value) != "" && input.content.Some? && Trim(input.content.value) != ""
    ensures r.Err? ==> r.error != []
    ensures r.Ok? ==>
      && ValidPost(r.value)
      && r.value.id == id
      && r.value.authorId == input.authorId
      && r.value.authorName == Trim(input.authorName.value)
      && r.value.content == Trim(input.content.value)
      && r.value.createdAt == input.createdAt.GetOr(now)
  {
    var errs := PostErrors(input);
    if errs != [] then Err(errs)
    else
      TrimIdempotent(input.authorName.value);
      TrimIdempotent(input.content.value);
      Ok(Post(id, input.authorId, Trim(input.authorName.value), Trim(input.content.value), input.createdAt.GetOr(now)))
  }
}
