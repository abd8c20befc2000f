/**
 * The team-services pagination bar: the page a click navigates to, how the
 * `page` query parameter of the new URL is written, and which page buttons
 * (numbers and "..." markers) are shown.
 */
module Pagination {
  import opened Wrappers
  import JsLib

  // ---------------------------------------------------------------------------
  // Query parameters (the browser's URLSearchParams)
  // ---------------------------------------------------------------------------

  /** One `name=value` pair of a query string. */
  datatype Param = Param(name: string, value: string)

  /** The pairs of `ps` not named `name`, in their order. */
  function Without(ps: seq<Param>, name: string): (r: seq<Param>)
    ensures forall k :: 0 <= k < |r| ==> r[k].name != name
    ensures forall p :: p in r <==> p in ps && p.name != name
  {
    if ps == [] then []
    else (if ps[0].name == name then [] else [ps[0]]) + Without(ps[1..], name)
  }

  /** How many pairs are named `name`. */
  function CountNamed(ps: seq<Param>, name: string): nat {
    if ps == [] then 0
    else (if ps[0].name == name then 1 else 0) + CountNamed(ps[1..], name)
  }

  /** `params.get(name)`: the value of the first pair named `name`. */
  function Get(ps: seq<Param>, name: string): Option<string> {
    if ps == [] then None
    else if ps[0].name == name then Some(ps[0].value)
    else Get(ps[1..], name)
  }

  /**
   * `params.set(name, value)`: the first pair named `name` takes `value` and
   * the later ones are removed; when there is none, the pair is appended.
   */
  function SetValue(ps: seq<Param>, name: string, value: string): seq<Param>
  {
    if ps == [] then [Param(name, value)]
    else if ps[0].name == name then [Param(name, value)] + Without(ps[1..], name)
    else [ps[0]] + SetValue(ps[1..], name, value)
  }

  /** A list without pairs named `name` has none to count or get. */
  lemma {:induction false} NoneNamed(ps: seq<Param>, name: string)
    requires forall k :: 0 <= k < |ps| ==> ps[k].name != name
    ensures CountNamed(ps, name) == 0 && Get(ps, name) == None
    ensures Without(ps, name) == ps
  {
    if ps != [] {
      NoneNamed(ps[1..], name);
    }
  }

  /** After `delete(name)` no pair has that name and the others are kept. */
  lemma WithoutSpec(ps: seq<Param>, name: string)
    ensures CountNamed(Without(ps, name), name) == 0
    ensures Get(Without(ps, name), name) == None
    ensures Without(Without(ps, name), name) == Without(ps, name)
  {
    NoneNamed(Without(ps, name), name);
  }

  /**
   * After `set(name, value)` exactly one pair has that name, it holds
   * `value`, and the pairs with other names are the old ones in their order.
   */
  lemma {:induction false} SetValueSpec(ps: seq<Param>, name: string, value: string)
    ensures CountNamed(SetValue(ps, name, value), name) == 1
    ensures Get(SetValue(ps, name, value), name) == Some(value)
    ensures Without(SetValue(ps, name, value), name) == Without(ps, name)
  {
    var r := SetValue(ps, name, value);
    if ps == [] {
      assert r[1..] == [];
    } else if ps[0].name == name {
      assert r[1..] == Without(ps[1..], name);
      WithoutSpec(ps[1..], name);
    } else {
      assert r[1..] == SetValue(ps[1..], name, value);
      SetValueSpec(ps[1..], name, value);
    }
  }

  /** `name=value`. */
  function PairString(p: Param): string {
    p.name + "=" + p.value
  }

  /** `params.toString()`: the pairs joined by `&`. */
  function Serialize(ps: seq<Param>): (r: string)
    ensures r == "" <==> ps == []
  {
    if ps == [] then ""
    else if |ps| == 1 then PairString(ps[0])
    else PairString(ps[0]) + "&" + Serialize(ps[1..])
  }

  /** A URLSearchParams object: an ordered list of pairs changed in place. */
  class SearchParams {
    var entries: seq<Param>

    /** `new URLSearchParams(searchParams.toString())`. */
    constructor (init: seq<Param>)
      ensures entries == init
    {
      entries := init;
    }

    /** `params.delete(name)`. */
    method Delete(name: string)
      modifies this
      ensures entries == Without(old(entries), name)
      ensures CountNamed(entries, name) == 0
    {
      entries := Without(entries, name);
      WithoutSpec(old(entries), name);
    }

    /** `params.set(name, value)`. */
    method Set(name: string, value: string)
      modifies this
      ensures entries == SetValue(old(entries), name, value)
      ensures Get(entries, name) == Some(value) && CountNamed(entries, name) == 1
      ensures Without(entries, name) == Without(old(entries), name)
    {
      entries := SetValue(entries, name, value);
      SetValueSpec(old(entries), name, value);
    }

    /** `params.toString()`; empty exactly when there are no pairs. */
    function ToString(): (r: string)
      reads this
      ensures r == "" <==> entries == []
    {
      Serialize(entries)
    }
  }

  // ---------------------------------------------------------------------------
  // handlePageChange
  // ---------------------------------------------------------------------------

  /** `Math.max(1, Math.min(page, totalPages))`. */
  function ClampPage(page: int, totalPages: int): (r: int)
    ensures r >= 1
    ensures totalPages >= 1 ==> r <= totalPages
    ensures 1 <= page <= totalPages ==> r == page
    ensures page < 1 || totalPages < 1 ==> r == 1
    ensures 1 <= totalPages < page ==> r == totalPages
  {
    var m := if page < totalPages then page else totalPages;
    if 1 < m then m else 1
  }

  /** The query of the new URL for a clamped page. */
  function PageQuery(search: seq<Param>, validPage: int): seq<Param>
    requires validPage >= 1
  {
    if validPage == 1 then Without(search, "page")
    else SetValue(search, "page", JsLib.Decimal(validPage))
  }

  /** `${pathname}${query ? `?${query}` : ""}`. */
  function PageUrl(pathname: string, params: seq<Param>): (url: string)
    ensures params == [] ==> url == pathname
    ensures params != [] ==> url == pathname + "?" + Serialize(params)
  {
    var query := Serialize(params);
    if query != "" then pathname + "?" + query else pathname
  }

  /**
   * Page 1 removes the `page` parameter; any other page sets it, once, to
   * its decimal string, from which the page reads back; every other
   * parameter is kept, in its order.
   */
  lemma PageQuerySpec(search: seq<Param>, validPage: int)
    requires validPage >= 1
    ensures validPage == 1 ==> CountNamed(PageQuery(search, validPage), "page") == 0
    ensures validPage != 1 ==>
      && CountNamed(PageQuery(search, validPage), "page") == 1
      && Get(PageQuery(search, validPage), "page") == Some(JsLib.Decimal(validPage))
      && JsLib.ParseDecimal(JsLib.Decimal(validPage)) == validPage
    ensures Without(PageQuery(search, validPage), "page") == Without(search, "page")
  {
    if validPage == 1 {
      WithoutSpec(search, "page");
    } else {
      SetValueSpec(search, "page", JsLib.Decimal(validPage));
      JsLib.ParseDecimalOfDecimal(validPage);
    }
  }

  /** `handlePageChange(page)`: the URL handed to `router.push`. */
  method HandlePageChange(page: int, totalPages: int, pathname: string, search: seq<Param>)
    returns (newUrl: string)
    ensures newUrl == PageUrl(pathname, PageQuery(search, ClampPage(page, totalPages)))
  {
    var validPage := ClampPage(page, totalPages);
    var params := new SearchParams(search);
    if validPage == 1 {
      params.Delete("page");
    } else {
      params.Set("page", JsLib.Decimal(validPage));
    }
    var query := params.ToString();
    newUrl := if query != "" then pathname + "?" + query else pathname;
  }

  // ---------------------------------------------------------------------------
  // getPageNumbers
  // ---------------------------------------------------------------------------

  /** A page button: a page number or the "..." marker. */
  datatype PageButton = Num(n: int) | Ellipsis

  const MaxVisiblePages: int := 5

  /** The buttons for pages `lo` to `hi`. */
  function Pages(lo: int, hi: int): (r: seq<PageButton>)
    ensures |r| == if hi < lo then 0 else hi - lo + 1
    ensures forall k :: 0 <= k < |r| ==> r[k] == Num(lo + k)
  {
    seq(if hi < lo then 0 else hi - lo + 1, k => Num(lo + k))
  }

  lemma PagesSnoc(lo: int, hi: int)
    requires lo <= hi + 1
    ensures Pages(lo, hi + 1) == Pages(lo, hi) + [Num(hi + 1)]
  {
  }

  /** The buttons shown for `currentPage` of `totalPages`. */
  function PageWindow(currentPage: int, totalPages: int): seq<PageButton> {
    if totalPages <= MaxVisiblePages then Pages(1, totalPages)
    else if currentPage <= 3 then Pages(1, 4) + [Ellipsis, Num(totalPages)]
    else if currentPage >= totalPages - 2 then [Num(1), Ellipsis] + Pages(totalPages - 3, totalPages)
    else [Num(1), Ellipsis] + Pages(currentPage - 1, currentPage + 1) + [Ellipsis, Num(totalPages)]
  }

  /** `getPageNumbers()`. */
  method GetPageNumbers(currentPage: int, totalPages: int) returns (pages: seq<PageButton>)
    ensures pages == PageWindow(currentPage, totalPages)
  {
    pages := [];
    if totalPages <= MaxVisiblePages {
      var i := 1;
      while i <= totalPages
        invariant 1 <= i <= if totalPages < 1 then 1 else totalPages + 1
        invariant pages == Pages(1, i - 1)
      {
        PagesSnoc(1, i - 1);
        pages := pages + [Num(i)];
        i := i + 1;
      }
    } else if currentPage <= 3 {
      var i := 1;
      while i <= 4
        invariant 1 <= i <= 5
        invariant pages == Pages(1, i - 1)
      {
        PagesSnoc(1, i - 1);
        pages := pages + [Num(i)];
        i := i + 1;
      }
      pages := pages + [Ellipsis];
      pages := pages + [Num(totalPages)];
    } else if currentPage >= totalPages - 2 {
      pages := pages + [Num(1)];
      pages := pages + [Ellipsis];
      var i := totalPages - 3;
      while i <= totalPages
        invariant totalPages - 3 <= i <= totalPages + 1
        invariant pages == [Num(1), Ellipsis] + Pages(totalPages - 3, i - 1)
      {
        PagesSnoc(totalPages - 3, i - 1);
        pages := pages + [Num(i)];
        i := i + 1;
      }
    } else {
      pages := pages + [Num(1)];
      pages := pages + [Ellipsis];
      var i := currentPage - 1;
      while i <= currentPage + 1
        invariant currentPage - 1 <= i <= currentPage + 2
        invariant pages == [Num(1), Ellipsis] + Pages(currentPage - 1, i - 1)
      {
        PagesSnoc(currentPage - 1, i - 1);
        pages := pages + [Num(i)];
        i := i + 1;
      }
      pages := pages + [Ellipsis];
      pages := pages + [Num(totalPages)];
    }
  }

  /** How many "..." markers `w` holds. */
  function EllipsisCount(w: seq<PageButton>): nat {
    if w == [] then 0 else (if w[0].Ellipsis? then 1 else 0) + EllipsisCount(w[1..])
  }

  lemma {:induction false} EllipsisCountConcat(a: seq<PageButton>, b: seq<PageButton>)
    ensures EllipsisCount(a + b) == EllipsisCount(a) + EllipsisCount(b)
  {
    if a == [] {
      assert a + b == b;
    } else {
      assert (a + b)[0] == a[0];
      assert (a + b)[1..] == a[1..] + b;
      EllipsisCountConcat(a[1..], b);
    }
  }

  lemma {:induction false} EllipsisCountNone(w: seq<PageButton>)
    requires forall k :: 0 <= k < |w| ==> w[k].Num?
    ensures EllipsisCount(w) == 0
  {
    if w != [] {
      EllipsisCountNone(w[1..]);
    }
  }

  /** With at most five pages every page is shown, in order, with no marker. */
  lemma SmallWindow(currentPage: int, totalPages: int)
    requires totalPages <= MaxVisiblePages
    ensures |PageWindow(currentPage, totalPages)| == if totalPages < 0 then 0 else totalPages
    ensures forall k :: 0 <= k < |PageWindow(currentPage, totalPages)| ==>
      PageWindow(currentPage, totalPages)[k] == Num(k + 1)
    ensures EllipsisCount(PageWindow(currentPage, totalPages)) == 0
  {
    EllipsisCountNone(PageWindow(currentPage, totalPages));
  }

  /**
   * With more than five pages the list starts at page 1 and ends at the last
   * page; it has six entries and one marker near either end, and seven
   * entries and two markers in the middle.
   */
  lemma LargeWindow(currentPage: int, totalPages: int)
    requires totalPages > MaxVisiblePages
    ensures var w := PageWindow(currentPage, totalPages);
      && w[0] == Num(1) && w[|w| - 1] == Num(totalPages)
      && (3 < currentPage < totalPages - 2 ==> |w| == 7 && EllipsisCount(w) == 2)
      && (currentPage <= 3 || currentPage >= totalPages - 2 ==> |w| == 6 && EllipsisCount(w) == 1)
  {
    var t := totalPages;
    var w := PageWindow(currentPage, t);
    assert EllipsisCount([Ellipsis, Num(t)]) == 1 by {
      assert [Ellipsis, Num(t)][1..] == [Num(t)];
      assert [Num(t)][1..] == [];
    }
    assert EllipsisCount([Num(1), Ellipsis]) == 1 by {
      assert [Num(1), Ellipsis][1..] == [Ellipsis];
      assert [Ellipsis][1..] == [];
    }
    if currentPage <= 3 {
      EllipsisCountNone(Pages(1, 4));
      EllipsisCountConcat(Pages(1, 4), [Ellipsis, Num(t)]);
    } else if currentPage >= t - 2 {
      EllipsisCountNone(Pages(t - 3, t));
      EllipsisCountConcat([Num(1), Ellipsis], Pages(t - 3, t));
    } else {
      var mid := Pages(currentPage - 1, currentPage + 1);
      EllipsisCountNone(mid);
      EllipsisCountConcat([Num(1), Ellipsis], mid);
      EllipsisCountConcat([Num(1), Ellipsis] + mid, [Ellipsis, Num(t)]);
    }
  }

  /** Shown page numbers lie in [1, totalPages] and strictly increase. */
  predicate NumbersIncreasing(w: seq<PageButton>, totalPages: int) {
    && (forall k :: 0 <= k < |w| && w[k].Num? ==> 1 <= w[k].n <= totalPages)
    && (forall i, j :: 0 <= i < j < |w| && w[i].Num? && w[j].Num? ==> w[i].n < w[j].n)
  }

  /**
   * A marker is never first, never last and never beside another marker: it
   * stands between two page numbers and hides at least one page; two page
   * numbers side by side are consecutive pages.
   */
  predicate MarkersHidePages(w: seq<PageButton>) {
    && (forall k :: 0 <= k < |w| && w[k].Ellipsis? ==>
          0 < k < |w| - 1 && w[k - 1].Num? && w[k + 1].Num? && w[k + 1].n >= w[k - 1].n + 2)
    && (forall k :: 0 <= k < |w| - 1 && w[k].Num? && w[k + 1].Num? ==> w[k + 1].n == w[k].n + 1)
  }

  /** Every list, for any current page and page count, has both shapes above. */
  lemma WindowShape(currentPage: int, totalPages: int)
    ensures NumbersIncreasing(PageWindow(currentPage, totalPages), totalPages)
    ensures MarkersHidePages(PageWindow(currentPage, totalPages))
  {
    var t, c := totalPages, currentPage;
    if t <= MaxVisiblePages {
    } else if c <= 3 {
      NearStartShape(c, t);
    } else if c >= t - 2 {
      NearEndShape(c, t);
    } else {
      MiddleShape(c, t);
    }
  }

  /** The list of the near-start case. */
  function StartList(t: int): seq<PageButton> {
    [Num(1), Num(2), Num(3), Num(4), Ellipsis, Num(t)]
  }

  /** The near-start list's numbers increase. */
  lemma StartIncreasing(t: int)
    requires t > MaxVisiblePages
    ensures NumbersIncreasing(StartList(t), t)
  {
    var w := StartList(t);
    forall i, j | 0 <= i < j < |w| && w[i].Num? && w[j].Num? ensures w[i].n < w[j].n {
      assert i <= 3;
    }
  }

  /** Any current page up to 3 (0 and below included) shows the first four pages. */
  lemma NearStartShape(c: int, t: int)
    requires t > MaxVisiblePages && c <= 3
    ensures var w := [Num(1), Num(2), Num(3), Num(4), Ellipsis, Num(t)];
      w == PageWindow(c, t) && NumbersIncreasing(w, t) && MarkersHidePages(w)
  {
    assert Pages(1, 4) == [Num(1), Num(2), Num(3), Num(4)];
    StartIncreasing(t);
    assert MarkersHidePages(StartList(t));
  }

  /** The list of the near-end case. */
  function EndList(t: int): seq<PageButton> {
    [Num(1), Ellipsis, Num(t - 3), Num(t - 2), Num(t - 1), Num(t)]
  }

  /** The near-end list's numbers increase. */
  lemma EndIncreasing(t: int)
    requires t > MaxVisiblePages
    ensures NumbersIncreasing(EndList(t), t)
  {
    var w := EndList(t);
    forall i, j | 0 <= i < j < |w| && w[i].Num? && w[j].Num? ensures w[i].n < w[j].n {
      assert 2 <= j;
    }
  }

  /**
   * Any current page past 3 and within two of the last page (pages past the
   * last included) shows the last four pages.
   */
  lemma NearEndShape(c: int, t: int)
    requires t > MaxVisiblePages && 3 < c && c >= t - 2
    ensures var w := [Num(1), Ellipsis, Num(t - 3), Num(t - 2), Num(t - 1), Num(t)];
      w == PageWindow(c, t) && NumbersIncreasing(w, t) && MarkersHidePages(w)
  {
    assert Pages(t - 3, t) == [Num(t - 3), Num(t - 2), Num(t - 1), Num(t)];
    EndIncreasing(t);
    assert MarkersHidePages(EndList(t));
  }

  /** The list of the middle case. */
  function MiddleList(c: int, t: int): seq<PageButton> {
    [Num(1), Ellipsis, Num(c - 1), Num(c), Num(c + 1), Ellipsis, Num(t)]
  }

  /** The middle list's numbers increase. */
  lemma MiddleIncreasing(c: int, t: int)
    requires 3 < c < t - 2
    ensures NumbersIncreasing(MiddleList(c, t), t)
  {
    var w := MiddleList(c, t);
    forall i, j | 0 <= i < j < |w| && w[i].Num? && w[j].Num? ensures w[i].n < w[j].n {
      assert i == 0 || 2 <= i <= 4;
      assert 2 <= j <= 4 || j == 6;
    }
  }

  /** The middle list's markers each hide pages. */
  lemma MiddleMarkers(c: int, t: int)
    requires 3 < c < t - 2
    ensures MarkersHidePages(MiddleList(c, t))
  {
  }

  /** A current page in the middle shows it with both neighbours, between two markers. */
  lemma MiddleShape(c: int, t: int)
    requires t > MaxVisiblePages && 3 < c < t - 2
    ensures var w := [Num(1), Ellipsis, Num(c - 1), Num(c), Num(c + 1), Ellipsis, Num(t)];
      w == PageWindow(c, t) && NumbersIncreasing(w, t) && MarkersHidePages(w)
  {
    assert Pages(c - 1, c + 1) == [Num(c - 1), Num(c), Num(c + 1)];
    MiddleIncreasing(c, t);
    MiddleMarkers(c, t);
  }

  /** A current page within range always has its own button. */
  lemma WindowShowsCurrent(currentPage: int, totalPages: int)
    requires 1 <= currentPage <= totalPages
    ensures Num(currentPage) in PageWindow(currentPage, totalPages)
  {
    var t, c := totalPages, currentPage;
    var w := PageWindow(c, t);
    if t <= MaxVisiblePages {
      assert w[c - 1] == Num(c);
    } else if c <= 3 {
      assert w[c - 1] == Num(c);
    } else if c >= t - 2 {
      assert w[c - t + 5] == Num(c);
    } else {
      assert w[3] == Num(c);
    }
  }
}
