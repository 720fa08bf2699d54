/** The pagination every listing route shares: `skip((page - 1) * limit)`,
    `limit(limit)` and `totalPages = Math.ceil(total / limit)`, for a page
    counted from 1 and a positive limit. */
module Paging {

  function Skip(page: nat, limit: nat): nat
    requires page >= 1
  {
    (page - 1) * limit
  }

  function Min(a: int, b: int): int
  {
    if a <= b then a else b
  }

  /** `Math.ceil(total / limit)`: the fewest pages of `limit` entries that
      hold `total` entries. */
  function TotalPages(total: nat, limit: nat): (n: nat)
    requires limit >= 1
    ensures n * limit >= total
    ensures n > 0 ==> (n - 1) * limit < total
    ensures n == 0 <==> total == 0
  {
    if total == 0 then 0
    else
      var n := 1 + TotalPages(if total <= limit then 0 else total - limit, limit);
      n
  }

  /** The entries the store returns for `page`: at most `limit` of them,
      starting `Skip(page, limit)` entries in, fewer (or none) at the end. */
  function Page<T>(s: seq<T>, page: nat, limit: nat): (r: seq<T>)
    requires page >= 1 && limit >= 1
    ensures |r| <= limit
    ensures |r| == if Skip(page, limit) >= |s| then 0 else Min(limit, |s| - Skip(page, limit))
    ensures forall i :: 0 <= i < |r| ==> Skip(page, limit) + i < |s| && r[i] == s[Skip(page, limit) + i]
  {
    var lo := Min(Skip(page, limit), |s|);
    var hi := Min(Skip(page, limit) + limit, |s|);
    s[lo..hi]
  }

  /** Pages 1 to `n`, one after the other. */
  function Pages<T>(s: seq<T>, limit: nat, n: nat): seq<T>
    requires limit >= 1
  {
    if n == 0 then [] else Pages(s, limit, n - 1) + Page(s, n, limit)
  }

  /** The first `n` pages are the first `n * limit` entries. */
  lemma {:induction false} PagesPrefix<T>(s: seq<T>, limit: nat, n: nat)
    requires limit >= 1
    ensures Pages(s, limit, n) == s[..Min(n * limit, |s|)]
  {
    if n > 0 {
      PagesPrefix(s, limit, n - 1);
      assert Skip(n, limit) == (n - 1) * limit;
      assert n * limit == (n - 1) * limit + limit;
    }
  }

  /** Walking pages 1 to `totalPages` lists every entry exactly once, in
      order. */
  lemma {:induction false} PagesCover<T>(s: seq<T>, limit: nat)
    requires limit >= 1
    ensures Pages(s, limit, TotalPages(|s|, limit)) == s
  {
    PagesPrefix(s, limit, TotalPages(|s|, limit));
  }

  /** A page past the last one is empty, and every page up to the last one
      is not. */
  lemma {:induction false} PageBeyondEnd<T>(s: seq<T>, page: nat, limit: nat)
    requires page >= 1 && limit >= 1
    ensures page > TotalPages(|s|, limit) <==> Page(s, page, limit) == []
  {
    var n := TotalPages(|s|, limit);
    if page > n {
      MulMono(n, page - 1, limit);
    } else {
      MulMono(page - 1, n - 1, limit);
    }
  }

  lemma {:induction false} MulMono(a: nat, b: nat, c: nat)
    requires a <= b
    ensures a * c <= b * c
  {
  }
}
