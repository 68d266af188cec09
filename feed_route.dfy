/**
 * The feed endpoint. GET returns a page of posts, newest first, with a clamped
 * page size and offset; POST validates the content, settles the author name and
 * appends one post to the store.
 */
module FeedRoute {
  import opened Wrappers
  import opened JsString
  import opened UserModel
  import opened PostModel
  import opened Request
  import opened Query

  /** One post as the endpoint returns it. */
  datatype FeedItem = FeedItem(id: PostId, authorId: Option<UserId>, authorName: string, content: string, createdAt: int)

  function ToItem(p: Post): FeedItem {
    FeedItem(p.id, p.authorId, p.authorName, p.content, p.createdAt)
  }

  function CreatedAt(p: Post): int {
    p.createdAt
  }

  const DefaultLimit: int := 10
  const MaxLimit: int := 100

  function Min(a: int, b: int): int { if a <= b then a else b }
  function Max(a: int, b: int): int { if a >= b then a else b }

  /** `Math.min(Number(limit || "10"), 100)` (an absent or empty parameter is `None`). */
  function FeedLimit(requested: Option<int>): int {
    Min(requested.GetOr(DefaultLimit), MaxLimit)
  }

  /** `Math.max(Number(skip || "0"), 0)` */
  function FeedSkip(requested: Option<int>): nat {
    Max(requested.GetOr(0), 0)
  }

  /** Sorts newest first, skips, limits and projects: the query and the `map` of the handler. */
  function FeedPage(posts: seq<Post>, limit: int, skip: nat): seq<FeedItem> {
    var page := Window(SortNewestFirst(posts, CreatedAt), skip, limit);
    seq(|page|, i requires 0 <= i < |page| => ToItem(page[i]))
  }

  /** The page the endpoint returns for the given query parameters, as written. */
  function FeedGet(posts: seq<Post>, limit: Option<int>, skip: Option<int>): seq<FeedItem> {
    FeedPage(posts, FeedLimit(limit), FeedSkip(skip))
  }

  /** The page-size and offset rules: clamped to at most 100, 10 by default; the offset clamped to at least 0, 0 by default. */
  lemma FeedParameters(limit: Option<int>, skip: Option<int>)
    ensures FeedLimit(limit) <= MaxLimit
    ensures limit.None? ==> FeedLimit(limit) == DefaultLimit
    ensures limit.Some? && limit.value <= MaxLimit ==> FeedLimit(limit) == limit.value
    ensures limit.Some? && limit.value > MaxLimit ==> FeedLimit(limit) == MaxLimit
    ensures skip.None? ==> FeedSkip(skip) == 0
    ensures skip.Some? && skip.value >= 0 ==> FeedSkip(skip) == skip.value
    ensures skip.Some? && skip.value < 0 ==> FeedSkip(skip) == 0
  {
  }

  /**
   * A page is the run of the newest-first posts that starts at the offset;
   * it holds at most as many posts as the database's reading of the limit allows.
   */
  lemma FeedPageIsWindow(posts: seq<Post>, limit: int, skip: nat)
    ensures var sorted, page := SortNewestFirst(posts, CreatedAt), FeedPage(posts, limit, skip);
      && NewestFirst(sorted, CreatedAt) && multiset(sorted) == multiset(posts)
      && |page| <= |posts|
      && (forall i | 0 <= i < |page| :: skip + i < |sorted| && page[i] == ToItem(sorted[skip + i]))
      && (limit > 0 ==> |page| <= limit)
      && (LimitBound(limit).Some? ==> |page| <= LimitBound(limit).value)
      && (limit > 0 && skip <= |posts| ==> |page| == if limit < |posts| - skip then limit else |posts| - skip)
  {
    WindowIsContiguous(SortNewestFirst(posts, CreatedAt), skip, limit);
  }

  /** A page is in non-increasing creation order. */
  lemma FeedPageNewestFirst(posts: seq<Post>, limit: int, skip: nat)
    ensures var page := FeedPage(posts, limit, skip);
      forall i, j | 0 <= i < j < |page| :: page[i].createdAt >= page[j].createdAt
  {
    var sorted := SortNewestFirst(posts, CreatedAt);
    var window := Window(sorted, skip, limit);
    WindowNewestFirst(sorted, skip, limit, CreatedAt);
    assert forall i | 0 <= i < |window| :: FeedPage(posts, limit, skip)[i].createdAt == CreatedAt(window[i]);
  }

  /** A store of `n` posts, all created at the same instant. */
  function Posts(n: nat): (posts: seq<Post>)
    ensures |posts| == n
  {
    seq(n, i requires 0 <= i < n => Post(i, None, "a", "b", 0))
  }

  /** As written, `limit=0` asks the database for no limit and `limit=-150` for 150 posts: the cap of 100 is escaped. */
  lemma FeedLimitEscapesCap()
    ensures |FeedGet(Posts(150), Some(0), None)| == 150
    ensures |FeedGet(Posts(150), Some(-150), None)| == 150
  {
    WindowIsContiguous(SortNewestFirst(Posts(150), CreatedAt), 0, 0);
    WindowIsContiguous(SortNewestFirst(Posts(150), CreatedAt), 0, -150);
  }

  /** The page size clamped to 1 through 100, as the cap evidently intends. */
  function CappedFeedLimit(requested: Option<int>): (n: int)
    ensures 1 <= n <= MaxLimit
    ensures requested.None? ==> n == DefaultLimit
    ensures requested.Some? && 1 <= requested.value <= MaxLimit ==> n == requested.value
  {
    Max(FeedLimit(requested), 1)
  }

  /** The page with the corrected page size. */
  function CappedFeedGet(posts: seq<Post>, limit: Option<int>, skip: Option<int>): seq<FeedItem> {
    FeedPage(posts, CappedFeedLimit(limit), FeedSkip(skip))
  }

  /** With the corrected page size no page exceeds 100 posts, and every request the cap does not touch is served as before. */
  lemma CappedFeedHonoursCap(posts: seq<Post>, limit: Option<int>, skip: Option<int>)
    ensures |CappedFeedGet(posts, limit, skip)| <= MaxLimit
    ensures FeedLimit(limit) >= 1 ==> CappedFeedGet(posts, limit, skip) == FeedGet(posts, limit, skip)
  {
    FeedPageIsWindow(posts, CappedFeedLimit(limit), FeedSkip(skip));
  }

  /** What POST reads from the JSON body. */
  datatype PostBody = PostBody(content: JsValue, authorId: Option<IdRef>, authorName: Option<string>)

  datatype PostResponse = Created(item: FeedItem) | BadRequest(error: string) | ServerError(error: string)

  const ContentRequiredMessage: string := "Content is required"
  const CreateFailedMessage: string := "Failed to create post"
  const Anonymous: string := "Anonymous"

  /** `!content || typeof content !== "string" || !content.trim()` */
  predicate ContentRejected(content: JsValue) {
    !Truthy(content) || !content.Str? || Trim(content.s) == ""
  }

  /** The user an author id names, if the lookup finds one (a malformed id makes the lookup throw, which is ignored). */
  function FoundAuthor(users: seq<User>, authorId: Option<IdRef>): Option<User> {
    if IdGiven(authorId) && authorId.value.ObjectId? then FindById(users, authorId.value.id) else None
  }

  /** The author name a post gets: the found user's username, else the supplied name, else "Anonymous". */
  function AuthorNameFor(users: seq<User>, authorId: Option<IdRef>, authorName: Option<string>): string {
    var found := FoundAuthor(users, authorId);
    if found.Some? && found.value.username != "" then found.value.username
    else if authorName.Some? && authorName.value != "" then authorName.value
    else Anonymous
  }

  /** Settles the author name step by step, as the handler does. */
  method ResolveAuthorName(users: seq<User>, authorId: Option<IdRef>, authorName: Option<string>) returns (finalAuthorName: string)
    ensures finalAuthorName == AuthorNameFor(users, authorId, authorName)
    ensures finalAuthorName != ""
  {
    finalAuthorName := if authorName.Some? && authorName.value != "" then authorName.value else Anonymous;
    if IdGiven(authorId) {
      match authorId.value
      case ObjectId(id) =>
        var user := FindById(users, id);
        if user.Some? {
          finalAuthorName := if user.value.username != "" then user.value.username else finalAuthorName;
        }
      case Malformed(_) =>
    }
  }

  /** A found user with a username wins over any supplied name. */
  lemma FoundUsernameWins(users: seq<User>, id: UserId, authorName: Option<string>, i: nat)
    requires i < |users| && users[i].id == id && ValidUser(users[i])
    requires forall j | 0 <= j < |users| && j != i :: users[j].id != id
    ensures AuthorNameFor(users, Some(ObjectId(id)), authorName) == users[i].username
  {
    assert FindById(users, id).Some?;
  }

  /** An unknown or malformed author id falls back silently to the supplied name, or "Anonymous". */
  lemma FailedLookupFallsBack(users: seq<User>, authorId: Option<IdRef>, authorName: Option<string>)
    requires authorId.Some? && (authorId.value.Malformed? || forall j | 0 <= j < |users| :: users[j].id != authorId.value.id)
    ensures AuthorNameFor(users, authorId, authorName) == if authorName.Some? && authorName.value != "" then authorName.value else Anonymous
  {
  }

  /** The id stored with a post: the given object id, or null when none is given. */
  function StoredAuthorId(authorId: Option<IdRef>): Option<UserId> {
    if IdGiven(authorId) && authorId.value.ObjectId? then Some(authorId.value.id) else None
  }

  /** Every stored post passed validation, and ids are distinct and below `nextId`. */
  ghost predicate StoreInvariant(posts: seq<Post>, nextId: nat) {
    && (forall i | 0 <= i < |posts| :: ValidPost(posts[i]) && posts[i].id < nextId)
    && (forall i, j | 0 <= i < j < |posts| :: posts[i].id != posts[j].id)
  }

  /** Appending a valid post under the next id keeps the invariant. */
  lemma AppendKeepsInvariant(posts: seq<Post>, nextId: nat, p: Post)
    requires StoreInvariant(posts, nextId) && ValidPost(p) && p.id == nextId
    ensures StoreInvariant(posts + [p], nextId + 1)
  {
    var s := posts + [p];
    forall i, j | 0 <= i < j < |s| ensures s[i].id != s[j].id {
      assert s[i] == posts[i];
    }
  }

  class PostStore {
    var posts: seq<Post>
    var nextId: nat

    ghost predicate Valid()
      reads this
    {
      StoreInvariant(posts, nextId)
    }

    constructor ()
      ensures Valid() && posts == []
    {
      posts := [];
      nextId := 0;
    }

    /** GET, with the page size capped: reads the store and changes nothing. */
    method Get(limit: Option<int>, skip: Option<int>) returns (page: seq<FeedItem>)
      requires Valid()
      ensures page == CappedFeedGet(posts, limit, skip)
      ensures forall i, j | 0 <= i < j < |page| :: page[i].createdAt >= page[j].createdAt
      ensures |page| <= CappedFeedLimit(limit) <= MaxLimit
      ensures forall i | 0 <= i < |page| :: page[i] == ToItem(SortNewestFirst(posts, CreatedAt)[FeedSkip(skip) + i])
    {
      var n, k := CappedFeedLimit(limit), FeedSkip(skip);
      page := FeedPage(posts, n, k);
      FeedPageNewestFirst(posts, n, k);
      FeedPageIsWindow(posts, n, k);
      assert |page| <= n;
    }

    /** POST: rejects empty content, otherwise appends one post with trimmed content. */
    method Create(body: PostBody, users: seq<User>, now: int) returns (resp: PostResponse)
      requires Valid()
      modifies this
      ensures Valid()
      ensures resp.BadRequest? <==> ContentRejected(body.content)
      ensures resp.BadRequest? ==> resp.error == ContentRequiredMessage
      ensures resp.ServerError? ==> resp.error == CreateFailedMessage
      ensures resp.ServerError? <==>
        && !ContentRejected(body.content)
        && ((IdGiven(body.authorId) && body.authorId.value.Malformed?)
            || Trim(AuthorNameFor(users, body.authorId, body.authorName)) == "")
      ensures !resp.Created? ==> posts == old(posts) && nextId == old(nextId)
      ensures resp.Created? ==>
        && nextId == old(nextId) + 1
        && var p := Post(old(nextId), StoredAuthorId(body.authorId),
                         Trim(AuthorNameFor(users, body.authorId, body.authorName)), Trim(body.content.s), now);
        && posts == old(posts) + [p]
        && resp.item == ToItem(p)
    {
      var content := body.content;
      if !Truthy(content) || !content.Str? || Trim(content.s) == "" {
        return BadRequest(ContentRequiredMessage);
      }
      var finalAuthorName := ResolveAuthorName(users, body.authorId, body.authorName);
      if IdGiven(body.authorId) && body.authorId.value.Malformed? {
        // the id cannot be cast to an object id when the document is built
        return ServerError(CreateFailedMessage);
      }
      var input := PostInput(StoredAuthorId(body.authorId), Some(finalAuthorName), Some(content.s), None);
      var post := CreatePost(input, nextId, now);
      if post.Err? {
        return ServerError(CreateFailedMessage);
      }
      AppendKeepsInvariant(posts, nextId, post.value);
      posts := posts + [post.value];
      nextId := nextId + 1;
      return Created(ToItem(post.value));
    }
  }
}
