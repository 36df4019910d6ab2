/** The product grid's incremental reveal
    (src/components/products/ProductList/ProductList.jsx): a prefix of the
    list that grows by eight at each "load more". */
module ProductList {
  import opened Common

  /** How many products each step reveals, and how many are asked for first. */
  const PageSize: int := 8

  /** The grid's state: the requested count, the products shown, and
      whether the simulated loading delay is running. The count never goes
      below 8, so it is a `nat` and `slice`'s negative-end reading never
      arises. */
  datatype Pager<T> = Pager(itemsToShow: nat, visible: seq<T>, loading: bool)

  function Start<T>(): (p: Pager<T>)
    ensures p.itemsToShow == PageSize && p.visible == [] && p.loading
  {
    Pager(8, [], true)
  }

  /** The effect's timer firing: loading ends and the shown products become
      the first `itemsToShow` of the list. */
  function Settle<T>(products: seq<T>, p: Pager<T>): (r: Pager<T>)
    ensures !r.loading && r.itemsToShow == p.itemsToShow
    ensures r.visible <= products
    ensures |r.visible| == if p.itemsToShow < |products| then p.itemsToShow else |products|
  {
    p.(loading := false, visible := Take(products, p.itemsToShow))
  }

  /** `handleLoadMore`: eight more requested and shown at once, after which
      the effect restarts the loading delay. */
  function LoadMore<T>(products: seq<T>, p: Pager<T>): (r: Pager<T>)
    ensures r.itemsToShow == p.itemsToShow + PageSize
    ensures r.visible <= products && r.loading
    ensures |r.visible| == if p.itemsToShow + 8 < |products| then p.itemsToShow + 8 else |products|
  {
    var n := p.itemsToShow + 8;
    Pager(n, Take(products, n), true)
  }

  /** A new product list restarts the delay but keeps `itemsToShow`. */
  function ChangeProducts<T>(p: Pager<T>): (r: Pager<T>)
    ensures r.itemsToShow == p.itemsToShow && r.visible == p.visible && r.loading
  {
    p.(loading := true)
  }

  /** `hasMore`: fewer shown than there are. */
  predicate HasMore<T>(products: seq<T>, p: Pager<T>) {
    |p.visible| < |products|
  }

  /** The shown products are the list's prefix of length `itemsToShow`. */
  predicate Shows<T(==)>(products: seq<T>, p: Pager<T>) {
    p.visible == Take(products, p.itemsToShow)
  }

  /** Settling always shows the right prefix, and a settled "load more" is
      the prefix eight longer; "more" remains exactly while the request is
      shorter than the list. */
  lemma {:induction false} PagerInvariant<T>(products: seq<T>, p: Pager<T>)
    ensures Shows(products, Settle(products, p))
    ensures Shows(products, LoadMore(products, p))
    ensures Settle(products, LoadMore(products, p)).visible == LoadMore(products, p).visible
    ensures HasMore(products, Settle(products, p)) <==> p.itemsToShow < |products|
    ensures |Settle(products, p).visible| <= |products|
  {
  }

  /** The state after the first settle and then `k` "load more" clicks,
      each followed by its settle. */
  function AfterLoads<T>(products: seq<T>, k: nat): (p: Pager<T>)
    ensures p.itemsToShow == PageSize * (k + 1) && !p.loading
    ensures Shows(products, p)
  {
    if k == 0 then Settle(products, Start())
    else Settle(products, LoadMore(products, AfterLoads(products, k - 1)))
  }

  /** "Load more" keeps being offered for the first ceil(n/8) - 1 clicks and
      disappears after that many. */
  lemma {:induction false} LoadsUntilDone<T>(products: seq<T>, k: nat)
    ensures k < (|products| + 7) / 8 - 1 ==> HasMore(products, AfterLoads(products, k))
    ensures k >= (|products| + 7) / 8 - 1 ==> !HasMore(products, AfterLoads(products, k))
  {
    var n := |products|;
    var p := AfterLoads(products, k);
    assert |p.visible| == if 8 * (k + 1) < n then 8 * (k + 1) else n;
    if k < (n + 7) / 8 - 1 {
      assert 8 * (k + 1) < n;
    } else {
      assert 8 * (k + 1) >= n;
    }
  }

  /** Twenty products: 8 shown first, 16 after one click, all 20 after the
      second, with no button left. */
  lemma TwentyProducts<T>(products: seq<T>)
    requires |products| == 20
    ensures |AfterLoads(products, 0).visible| == 8 && HasMore(products, AfterLoads(products, 0))
    ensures |AfterLoads(products, 1).visible| == 16 && HasMore(products, AfterLoads(products, 1))
    ensures AfterLoads(products, 2).visible == products && !HasMore(products, AfterLoads(products, 2))
  {
  }

  /** After three clicks on a 20-product list the request is 32, so a new
      list of 30 (say, after a filter change) shows all 30 at once instead of
      starting again from 8: the count is not reset. */
  lemma NoResetOnNewList<T>(products: seq<T>, other: seq<T>)
    requires |products| == 20 && |other| == 30
    ensures var p := Settle(other, ChangeProducts(AfterLoads(products, 3)));
      p.itemsToShow == 32 && |p.visible| == 30 && !HasMore(other, p)
  {
  }
}
