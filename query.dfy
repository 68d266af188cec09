/**
 * The database queries the route handlers issue, over an in-memory sequence of
 * documents: sorting newest first on a timestamp key, `skip`, and `limit` with the
 * database's reading of its argument (0 means no limit, a negative limit `-n`
 * returns at most `n` documents).
 */
module Query {
  import opened Wrappers

  /** Keys never increase along the sequence. */
  predicate NewestFirst<T>(s: seq<T>, key: T -> int) {
    forall i, j | 0 <= i < j < |s| :: key(s[i]) >= key(s[j])
  }

  /** Inserts `x` into a sequence already newest first, before the first older element. */
  function Insert<T>(x: T, s: seq<T>, key: T -> int): (r: seq<T>)
    requires NewestFirst(s, key)
    ensures NewestFirst(r, key)
    ensures multiset(r) == multiset(s) + multiset{x}
    ensures |r| == |s| + 1
    ensures r[0] == x || (s != [] && r[0] == s[0])
  {
    if s == [] || key(s[0]) <= key(x) then [x] + s
    else
      assert s == [s[0]] + s[1..];
      [s[0]] + Insert(x, s[1..], key)
  }

  /** `sort({ createdAt: -1 })`: a newest-first permutation of the input. */
  function SortNewestFirst<T>(s: seq<T>, key: T -> int): (r: seq<T>)
    ensures NewestFirst(r, key)
    ensures multiset(r) == multiset(s)
    ensures |r| == |s|
  {
    if s == [] then []
    else
      assert s == [s[0]] + s[1..];
      Insert(s[0], SortNewestFirst(s[1..], key), key)
  }

  /** `skip(n)`: drops the first `n` documents. */
  function Skip<T>(s: seq<T>, n: nat): (r: seq<T>)
    ensures |r| == if n <= |s| then |s| - n else 0
    ensures forall i | 0 <= i < |r| :: r[i] == s[n + i]
  {
    if n <= |s| then s[n..] else []
  }

  /** How many documents `limit(n)` lets through at most; `None` means all of them. */
  function LimitBound(n: int): (b: Option<nat>)
    ensures b.None? <==> n == 0
    ensures b.Some? ==> b.value > 0
    ensures n > 0 ==> b == Some(n)
    ensures n < 0 ==> b == Some(-n)
  {
    if n == 0 then None else if n > 0 then Some(n) else Some(-n)
  }

  /** `limit(n)` */
  function Limit<T>(s: seq<T>, n: int): (r: seq<T>)
    ensures r <= s
    ensures LimitBound(n).None? ==> r == s
    ensures LimitBound(n).Some? ==> |r| == if LimitBound(n).value < |s| then LimitBound(n).value else |s|
    ensures n == 0 ==> r == s
    ensures n > 0 ==> |r| == if n < |s| then n else |s|
    ensures n < 0 ==> |r| == if -n < |s| then -n else |s|
  {
    match LimitBound(n)
    case None => s
    case Some(b) => if b < |s| then s[..b] else s
  }

  /** `skip(k).limit(n)` */
  function Window<T>(s: seq<T>, skip: nat, limit: int): seq<T> {
    Limit(Skip(s, skip), limit)
  }

  /** A window is a contiguous run of the input, starting at `skip`, of length at most the bound. */
  lemma WindowIsContiguous<T>(s: seq<T>, skip: nat, limit: int)
    ensures |Window(s, skip, limit)| <= |s|
    ensures forall i | 0 <= i < |Window(s, skip, limit)| :: skip + i < |s| && Window(s, skip, limit)[i] == s[skip + i]
    ensures LimitBound(limit).Some? ==> |Window(s, skip, limit)| <= LimitBound(limit).value
    ensures LimitBound(limit).None? ==> |Window(s, skip, limit)| == if skip <= |s| then |s| - skip else 0
  {
    var r := Window(s, skip, limit);
    forall i | 0 <= i < |r| ensures skip + i < |s| && r[i] == s[skip + i] {
      assert r[i] == Skip(s, skip)[i];
    }
  }

  /** A contiguous run of a newest-first sequence is newest first. */
  lemma WindowNewestFirst<T>(s: seq<T>, skip: nat, limit: int, key: T -> int)
    requires NewestFirst(s, key)
    ensures NewestFirst(Window(s, skip, limit), key)
  {
    WindowIsContiguous(s, skip, limit);
  }
}
