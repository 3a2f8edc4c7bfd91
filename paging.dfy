/** The result pages of `renderMovies`: page `p` (from 1) shows the slice
    [(p-1)*50, p*50) of the result list, and a "Load More" button appears
    when the list goes on past that slice. */
module Paging {
  import opened Seqs

  const MoviesPerPage: nat := 50

  /** `filteredMovies.slice(startIdx, endIdx)`, both bounds clamped to the
      length. The page holds at most 50 items, the ones from position (p-1)*50
      on; it is empty exactly when that position is past the end, and it is
      full whenever "Load More" is offered. */
  function PageOf<T>(items: seq<T>, page: int): (r: seq<T>)
    requires page >= 1
    ensures |r| <= MoviesPerPage && (r != [] ==> (page - 1) * MoviesPerPage + |r| <= |items|)
    ensures forall i :: 0 <= i < |r| ==> r[i] == items[(page - 1) * MoviesPerPage + i]
    ensures r == [] <==> (page - 1) * MoviesPerPage >= |items|
    ensures HasMore(items, page) ==> |r| == MoviesPerPage
  {
    items[Min((page - 1) * MoviesPerPage, |items|)..Min(page * MoviesPerPage, |items|)]
  }

  /** `endIdx < filteredMovies.length`: the condition for the "Load More" button. */
  predicate HasMore<T>(items: seq<T>, page: int) {
    page * MoviesPerPage < |items|
  }

  /** Pages 1 to `k`, one after the other. */
  function PagesUpTo<T>(items: seq<T>, k: nat): seq<T> {
    if k == 0 then [] else PagesUpTo(items, k - 1) + PageOf(items, k)
  }

  /** Successive pages tile the list: pages 1 to `k` are its first
      `min(50 k, n)` items, with no gap and no overlap. */
  lemma {:induction false} PagesTile<T>(items: seq<T>, k: nat)
    ensures PagesUpTo(items, k) == items[..Min(k * MoviesPerPage, |items|)]
  {
    if k > 0 {
      PagesTile(items, k - 1);
      var a := Min((k - 1) * MoviesPerPage, |items|);
      var b := Min(k * MoviesPerPage, |items|);
      assert items[..a] + items[a..b] == items[..b];
    }
  }

  /** Every item can be reached from page 1: each earlier page offers
      "Load More", and the item is on page `i / 50 + 1`. */
  lemma Reachable<T>(items: seq<T>, i: nat)
    requires i < |items|
    ensures forall q :: 1 <= q < i / MoviesPerPage + 1 ==> HasMore(items, q)
    ensures items[i] in PageOf(items, i / MoviesPerPage + 1)
  {
    var p := i / MoviesPerPage + 1;
    assert PageOf(items, p)[i - (p - 1) * MoviesPerPage] == items[i];
  }
}
