/**
 * The length-aware paginator: the record that `Reconstruct` fills in place,
 * the facts derived from it, and the merge of the first, slider and last
 * windows into one list of page links.
 *
 * Collaborators whose code is not part of this model are inputs: the page
 * URL builder `Url`, `FirstItem`, `LastItem` and `PreviousPageUrl` arrive as
 * a `Peers` value, and the result of `UrlWindow(*p).Get()` as a `Window`.
 */
module Paginator {
  import opened Wrappers
  import opened GoInt
  import opened DenseMap

  /** The window radius that `Reconstruct` always sets. */
  const ON_EACH_SIDE: int64 := 3

  /** The values the paginator obtains from collaborators outside this model, for the current record. */
  datatype Peers = Peers(
    url: int64 -> string,               // p.Url(page)
    firstItem: Option<int64>,           // p.FirstItem()
    lastItem: Option<int64>,            // p.LastItem()
    previousPageUrl: Option<string>)    // p.PreviousPageUrl()

  /** A value of the map that `ToArray` returns. */
  datatype Entry<T> =
    | Number(n: int64)
    | Rows(items: T)
    | Link(url: string)
    | MaybeLink(link: Option<string>)
    | MaybeNumber(number: Option<int64>)

  /** The fields of a `Paginate` record, as a value. */
  datatype Fields<T> = Fields(
    items: T,
    total: int64,
    perPage: int64,
    currentPage: int64,
    lastPage: int64,
    onEachSide: int64,
    fragment: Option<string>)
  {
    /** There is a page after the current one. */
    predicate HasMorePages()
      ensures HasMorePages() ==> currentPage as int + 1 <= lastPage as int < TWO_63
      ensures !HasMorePages() ==> lastPage <= currentPage
    {
      currentPage < lastPage
    }

    /** The link to the next page, or nil when the current page is the last one. */
    function NextPageUrl(url: int64 -> string): (r: Option<string>)
      ensures r.None? <==> !HasMorePages()
      ensures r.Some? ==> currentPage < lastPage && r.value == url(currentPage + 1)
    {
      if HasMorePages() then Some(url(currentPage + 1)) else None
    }

    /** The record as the map that is serialised for API responses. */
    function ToArray(peers: Peers): (r: map<string, Entry<T>>)
      ensures r.Keys == {"current_page", "data", "first_page_url", "from", "last_page", "last_page_url",
                         "next_page_url", "per_page", "prev_page_url", "to", "total"}
      ensures r["current_page"] == Number(currentPage) && r["last_page"] == Number(lastPage)
      ensures r["per_page"] == Number(perPage) && r["total"] == Number(total)
      ensures r["data"] == Rows(items)
      ensures r["first_page_url"] == Link(peers.url(1)) && r["last_page_url"] == Link(peers.url(lastPage))
      ensures r["next_page_url"] == MaybeLink(NextPageUrl(peers.url))
      ensures r["prev_page_url"] == MaybeLink(peers.previousPageUrl)
      ensures r["from"] == MaybeNumber(peers.firstItem) && r["to"] == MaybeNumber(peers.lastItem)
    {
      var r := map[
        "current_page" := Number(currentPage),
        "data" := Rows(items),
        "first_page_url" := Link(peers.url(1)),
        "from" := MaybeNumber(peers.firstItem),
        "last_page" := Number(lastPage),
        "last_page_url" := Link(peers.url(lastPage)),
        "next_page_url" := MaybeLink(NextPageUrl(peers.url)),
        "per_page" := Number(perPage),
        "prev_page_url" := MaybeLink(peers.previousPageUrl),
        "to" := MaybeNumber(peers.lastItem),
        "total" := Number(total)];
      r
    }
  }

  /** `a <= b` is preserved by multiplying with a positive factor. */
  lemma MulMono(a: int, b: int, p: int)
    requires a <= b && p > 0
    ensures a * p <= b * p
  {
    assert b * p - a * p == (b - a) * p;
  }

  /** The integer ceiling of `total / perPage`. */
  function CeilDiv(total: int, perPage: int): (r: int)
    requires perPage > 0
    ensures r * perPage >= total && (r - 1) * perPage < total
  {
    var q := (total + perPage - 1) / perPage;
    var rem := (total + perPage - 1) % perPage;
    assert total + perPage - 1 == q * perPage + rem && 0 <= rem < perPage;
    assert (q - 1) * perPage == q * perPage - perPage;
    q
  }

  /** Only the ceiling satisfies the two ceiling inequalities, and it is 0 for no rows. */
  lemma CeilDivUnique(total: int, perPage: int, r: int)
    requires perPage > 0
    requires r * perPage >= total && (r - 1) * perPage < total
    ensures r == CeilDiv(total, perPage)
    ensures total == 0 ==> r == 0
  {
    var c := CeilDiv(total, perPage);
    if r < c {
      MulMono(r, c - 1, perPage);
    } else if r > c {
      MulMono(c, r - 1, perPage);
    }
    if total == 0 {
      if r > 0 {
        MulMono(1, r, perPage);
      } else if r < 0 {
        MulMono(r, -1, perPage);
      }
    }
  }

  /** The ceiling lies between 0 and `total`, so it fits wherever `total` does. */
  lemma CeilDivBetween(total: int, perPage: int)
    requires perPage > 0
    ensures total >= 0 ==> 0 <= CeilDiv(total, perPage) <= total
    ensures total < 0 ==> total <= CeilDiv(total, perPage) <= 0
  {
    var c := CeilDiv(total, perPage);
    if total >= 0 {
      if c < 0 {
        MulMono(c, -1, perPage);   // c * perPage <= -perPage < 0 <= total
      }
      if c > total {
        MulMono(1, perPage, c - 1);   // c - 1 <= (c - 1) * perPage < total
      }
    } else {
      if c > 0 {
        MulMono(0, c - 1, perPage);   // 0 <= (c - 1) * perPage < total
      }
      if c < total {
        MulMono(1, perPage, -c);   // c * perPage <= c < total
      }
    }
  }

  /** `LastPage` as `Reconstruct` computes it: the ceiling of `total / perPage`. */
  function LastPageOf(total: int64, perPage: int64): (r: int64)
    requires perPage > 0
    ensures r as int * perPage as int >= total as int
    ensures (r as int - 1) * perPage as int < total as int
  {
    CeilDivBetween(total as int, perPage as int);
    CeilDiv(total as int, perPage as int) as int64
  }

  /** The record that `Reconstruct(items, total, perPage, currentPage)` leaves behind, whatever it held before. */
  function Reconstructed<T>(items: T, total: int64, perPage: int64, currentPage: int64): (f: Fields<T>)
    requires perPage > 0
    ensures f.items == items && f.total == total && f.perPage == perPage && f.currentPage == currentPage
    ensures f.lastPage as int * perPage as int >= total as int
    ensures (f.lastPage as int - 1) * perPage as int < total as int
    ensures f.onEachSide == 3 && f.fragment == None
  {
    Fields(items, total, perPage, currentPage, LastPageOf(total, perPage), ON_EACH_SIDE, None)
  }

  /** `LastPage` is exactly the ceiling, and 0 when there are no rows. */
  lemma LastPageIsCeiling<T>(items: T, total: int64, perPage: int64, currentPage: int64)
    requires perPage > 0
    ensures Reconstructed(items, total, perPage, currentPage).lastPage as int == CeilDiv(total as int, perPage as int)
    ensures total == 0 ==> Reconstructed(items, total, perPage, currentPage).lastPage == 0
  {
    var f := Reconstructed(items, total, perPage, currentPage);
    CeilDivUnique(total as int, perPage as int, f.lastPage as int);
  }

  /**
   * After `Reconstruct`, more pages exist exactly when rows remain beyond
   * the current page; so never on the last page, and never for an empty
   * result unless the current page is negative.
   */
  lemma MorePagesIffRowsRemain<T>(items: T, total: int64, perPage: int64, currentPage: int64)
    requires perPage > 0
    ensures Reconstructed(items, total, perPage, currentPage).HasMorePages()
            <==> currentPage as int * perPage as int < total as int
    ensures currentPage == Reconstructed(items, total, perPage, currentPage).lastPage
            ==> !Reconstructed(items, total, perPage, currentPage).HasMorePages()
    ensures total == 0 && currentPage >= 0 ==> !Reconstructed(items, total, perPage, currentPage).HasMorePages()
  {
    var f := Reconstructed(items, total, perPage, currentPage);
    var c, l, p := currentPage as int, f.lastPage as int, perPage as int;
    if c < l {
      MulMono(c, l - 1, p);
    } else {
      MulMono(l, c, p);
    }
    LastPageIsCeiling(items, total, perPage, currentPage);
  }

  /** The merged page-link list: `first`, then each non-empty zone behind an ellipsis. */
  function ElementsListing(first: seq<string>, slider: seq<string>, last: seq<string>): (r: seq<string>)
    ensures |r| >= |first| && r[..|first|] == first
  {
    Merged(Merged(first, slider), last)
  }

  /** The number of page links produced from the three windows. */
  lemma {:induction false} ElementsSize(first: map<int, string>, slider: map<int, string>, last: map<int, string>,
                                        sliderOrder: seq<int>, lastOrder: seq<int>)
    requires Dense(first) && Enumerates(sliderOrder, slider) && Enumerates(lastOrder, last)
    ensures |ElementsListing(Listing(first), Visit(slider, sliderOrder), Visit(last, lastOrder))|
            == |first| + (if |slider| > 0 then |slider| + 1 else 0) + (if |last| > 0 then |last| + 1 else 0)
  {
    EnumerationLength(sliderOrder, slider);
    EnumerationLength(lastOrder, last);
  }

  /**
   * With an empty first window and a non-empty slider, the list opens with
   * an ellipsis; with no last window either, it is the ellipsis and the
   * slider's links and nothing else.
   */
  lemma {:induction false} EllipsisLeadsSlider(slider: map<int, string>, last: map<int, string>,
                                               sliderOrder: seq<int>, lastOrder: seq<int>)
    requires |slider| > 0
    requires Enumerates(sliderOrder, slider) && Enumerates(lastOrder, last)
    ensures |ElementsListing(Listing(map[]), Visit(slider, sliderOrder), Visit(last, lastOrder))| > 0
    ensures ElementsListing(Listing(map[]), Visit(slider, sliderOrder), Visit(last, lastOrder))[0] == ELLIPSIS
    ensures last == map[] ==>
            ElementsListing(Listing(map[]), Visit(slider, sliderOrder), Visit(last, lastOrder))
            == [ELLIPSIS] + Visit(slider, sliderOrder)
  {
    EnumerationLength(sliderOrder, slider);
    EnumerationLength(lastOrder, last);
  }

  /** A Go map of page links; a reference, so writes through one alias are seen through the others. */
  class PageMap {
    var entries: map<int, string>

    /** A map holding `entries`. */
    constructor (entries: map<int, string>)
      ensures this.entries == entries
    {
      this.entries := entries;
    }
  }

  /**
   * The result of `UrlWindow(*p).Get()`: its `first` map is the one `Elements`
   * grows; `null` stands for a nil Go map, which reads as empty and panics
   * when written.
   */
  datatype Window = Window(first: PageMap?, slider: map<int, string>, last: map<int, string>)

  /** Why `Elements` stops: a write into a nil map panics. */
  datatype Fault = NilMapWrite

  /** The entries of a Go map that may be nil. */
  function EntriesOf(m: PageMap?): (r: map<int, string>)
    reads m
    ensures m == null ==> r == map[]
    ensures m != null ==> r == m.entries
  {
    if m == null then map[] else m.entries
  }

  /** A `Paginate` record; `Reconstruct` overwrites its fields in place. */
  class Paginate<T(0)> {
    var items: T
    var total: int64
    var perPage: int64
    var currentPage: int64
    var lastPage: int64
    var onEachSide: int64
    var fragment: Option<string>

    /** The zero record `Paginate{}`. */
    constructor ()
      ensures total == 0 && perPage == 0 && currentPage == 0 && lastPage == 0
      ensures onEachSide == 0 && fragment == None
    {
      total, perPage, currentPage, lastPage, onEachSide := 0, 0, 0, 0, 0;
      fragment := None;
    }

    /** The current field values. */
    function View(): Fields<T>
      reads this
    {
      Fields(items, total, perPage, currentPage, lastPage, onEachSide, fragment)
    }

    /** Overwrites every field from the arguments and returns the same record. */
    method Reconstruct(items: T, total: int64, perPage: int64, currentPage: int64) returns (self: Paginate<T>)
      requires perPage > 0
      modifies this
      ensures self == this
      ensures View() == Reconstructed(items, total, perPage, currentPage)
    {
      this.items := items;
      this.perPage := perPage;
      this.currentPage := currentPage;
      this.total := total;
      this.lastPage := LastPageOf(total, perPage);
      this.onEachSide := ON_EACH_SIDE;
      this.fragment := None;
      self := this;
    }

    /** A new record: `Reconstruct` applied to the zero record. */
    static method Construct(items: T, total: int64, perPage: int64, currentPage: int64) returns (p: Paginate<T>)
      requires perPage > 0
      ensures fresh(p)
      ensures p.View() == Reconstructed(items, total, perPage, currentPage)
    {
      p := new Paginate();
      var self := p.Reconstruct(items, total, perPage, currentPage);
    }

    /**
     * Appends one window to `elems`: when `m` has entries, an ellipsis at key
     * |elems|+1 and then each value of `m` at the next key |elems|+1. The
     * `range` loop visits the keys of `m` in `order`, which the Go runtime
     * picks at random; any order that visits every key once is possible.
     * The first write into a nil map panics.
     */
    method ElementsLoop(elems: PageMap?, m: map<int, string>, order: seq<int>) returns (r: Result<map<int, string>, Fault>)
      requires Enumerates(order, m)
      modifies elems
      ensures r.Failure? <==> elems == null && |m| > 0
      ensures r.Success? ==> r.value == EntriesOf(elems)
      ensures |m| == 0 ==> EntriesOf(elems) == old(EntriesOf(elems))
      ensures elems != null && Dense(old(elems.entries)) ==>
              Dense(elems.entries) && Listing(elems.entries) == Merged(Listing(old(elems.entries)), Visit(m, order))
    {
      EnumerationLength(order, m);
      if |m| > 0 {
        if elems == null {
          return Failure(NilMapWrite);
        }
        ghost var start := elems.entries;
        if Dense(start) {
          ListingPush(start, ELLIPSIS);
        }
        elems.entries := elems.entries[|elems.entries| + 1 := ELLIPSIS];
        for i := 0 to |order|
          invariant Dense(start) ==>
                    Dense(elems.entries) && Listing(elems.entries) == Listing(start) + [ELLIPSIS] + Visit(m, order[..i])
        {
          if Dense(start) {
            VisitPush(elems.entries, Listing(start) + [ELLIPSIS], m, order, i);
          }
          elems.entries := elems.entries[|elems.entries| + 1 := m[order[i]]];
        }
        if Dense(start) {
          assert order[..|order|] == order;
        }
      }
      r := Success(EntriesOf(elems));
    }

    /**
     * The page-link list of the window: the `first` map itself, grown in
     * place by the slider and then the last zone, each visited in the order
     * the runtime picks. A nil `first` map stays nil when both zones are
     * empty and panics otherwise.
     */
    method Elements(window: Window, sliderOrder: seq<int>, lastOrder: seq<int>) returns (r: Result<PageMap?, Fault>)
      requires Enumerates(sliderOrder, window.slider) && Enumerates(lastOrder, window.last)
      modifies window.first
      ensures r.Failure? <==> window.first == null && (|window.slider| > 0 || |window.last| > 0)
      ensures r.Success? ==> r.value == window.first
      ensures window.first != null && Dense(old(window.first.entries)) ==>
              && Dense(window.first.entries)
              && Listing(window.first.entries)
                 == ElementsListing(Listing(old(window.first.entries)),
                                    Visit(window.slider, sliderOrder), Visit(window.last, lastOrder))
    {
      var elems := window.first;
      var afterSlider := ElementsLoop(elems, window.slider, sliderOrder);
      if afterSlider.Failure? {
        return Failure(afterSlider.error);
      }
      var afterLast := ElementsLoop(elems, window.last, lastOrder);
      if afterLast.Failure? {
        return Failure(afterLast.error);
      }
      r := Success(elems);
    }
  }
}
