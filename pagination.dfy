/** The page list of `SimplePagination`: every page when there are at most
    five, otherwise the first page, the current page with its neighbours,
    the last page, and an ellipsis for each gap. */
module Pagination {
  import opened Common

  /** `number | "ellipsis"` */
  datatype Item = Page(n: int) | Ellipsis

  /** `maxVisible` */
  const MAX_VISIBLE: int := 5

  function Max(a: int, b: int): int { if a >= b then a else b }
  function Min(a: int, b: int): int { if a <= b then a else b }

  /** The pages `a..b`, none when `a > b`. */
  function Range(a: int, b: int): (r: seq<Item>)
    ensures |r| == if a > b then 0 else b - a + 1
    ensures forall k :: 0 <= k < |r| ==> r[k] == Page(a + k)
    decreases b - a
  {
    if a > b then [] else Range(a, b - 1) + [Page(b)]
  }

  /** The list the `useMemo` callback builds. */
  function PagesSpec(current: int, total: int): seq<Item> {
    if total <= MAX_VISIBLE then Range(1, total)
    else
      [Page(1)]
      + (if current > 3 then [Ellipsis] else [])
      + Range(Max(2, current - 1), Min(total - 1, current + 1))
      + (if current < total - 2 then [Ellipsis] else [])
      + [Page(total)]
  }

  /** One of the `for` loops: pushes the pages `a..b`. */
  method PushRange(items: seq<Item>, a: int, b: int) returns (r: seq<Item>)
    ensures r == items + Range(a, b)
  {
    r := items;
    var i := a;
    while i <= b
      invariant a <= i <= Max(a, b + 1)
      invariant r == items + Range(a, i - 1)
      decreases b - i
    {
      r := r + [Page(i)];
      i := i + 1;
    }
  }

  /** The `useMemo` callback. */
  method Pages(current: int, total: int) returns (items: seq<Item>)
    ensures items == PagesSpec(current, total)
  {
    items := [];
    if total <= MAX_VISIBLE {
      items := PushRange(items, 1, total);
      assert items == Range(1, total);
    } else {
      ghost var lead: seq<Item> := if current > 3 then [Ellipsis] else [];
      ghost var trail: seq<Item> := if current < total - 2 then [Ellipsis] else [];
      ghost var middle := Range(Max(2, current - 1), Min(total - 1, current + 1));
      items := items + [Page(1)];
      if current > 3 {
        items := items + [Ellipsis];
      }
      assert items == [Page(1)] + lead;
      items := PushRange(items, Max(2, current - 1), Min(total - 1, current + 1));
      assert items == [Page(1)] + lead + middle;
      if current < total - 2 {
        items := items + [Ellipsis];
      }
      assert items == [Page(1)] + lead + middle + trail;
      items := items + [Page(total)];
    }
  }

  // ---------------------------------------------------------------------
  // Properties of the list

  /** With at most five pages, the list is exactly `1..totalPages`. */
  lemma FewPages(current: int, total: int)
    requires total <= MAX_VISIBLE
    ensures var items := PagesSpec(current, total);
      && |items| == Max(0, total)
      && forall k :: 0 <= k < |items| ==> items[k] == Page(k + 1)
  {
  }

  /** With more, the list starts at page 1, ends at the last page and has at
      most seven entries, whatever the current page. */
  lemma ManyPagesEnds(current: int, total: int)
    requires total > MAX_VISIBLE
    ensures var items := PagesSpec(current, total);
      && 3 <= |items| <= 7
      && items[0] == Page(1)
      && items[|items| - 1] == Page(total)
  {
  }

  /** Page numbers strictly increase along the list, whatever the current
      page, so no page is listed twice. */
  lemma PagesIncreasing(current: int, total: int)
    ensures var items := PagesSpec(current, total);
      forall i, j :: 0 <= i < j < |items| && items[i].Page? && items[j].Page? ==>
        items[i].n < items[j].n
  {
    var items := PagesSpec(current, total);
    if total > MAX_VISIBLE {
      var lead := if current > 3 then [Ellipsis] else [];
      var mid := Range(Max(2, current - 1), Min(total - 1, current + 1));
      var trail := if current < total - 2 then [Ellipsis] else [];
      assert items == [Page(1)] + lead + mid + trail + [Page(total)];
      forall i, j | 0 <= i < j < |items| && items[i].Page? && items[j].Page?
        ensures items[i].n < items[j].n
      {
        PageBounds(current, total, i);
        PageBounds(current, total, j);
        var o := 1 + |lead|;
        if o <= i < o + |mid| && o <= j < o + |mid| {
          assert items[i] == mid[i - o] && items[j] == mid[j - o];
        }
      }
    }
  }

  /** Where page entries sit in the long list: page 1 first, the last page
      last, and the window in between holding pages `2..totalPages-1`. */
  lemma PageBounds(current: int, total: int, i: int)
    requires total > MAX_VISIBLE
    requires 0 <= i < |PagesSpec(current, total)|
    ensures var items := PagesSpec(current, total);
      var o := 1 + (if current > 3 then 1 else 0);
      var mid := Range(Max(2, current - 1), Min(total - 1, current + 1));
      && (i == 0 ==> items[i] == Page(1))
      && (i == |items| - 1 ==> items[i] == Page(total))
      && (o <= i < o + |mid| ==> items[i] == mid[i - o] && 2 <= items[i].n <= total - 1)
      && (items[i].Page? && 0 < i < |items| - 1 ==> o <= i < o + |mid|)
  {
  }

  function EllipsisCount(items: seq<Item>): nat {
    if items == [] then 0 else (if items[0] == Ellipsis then 1 else 0) + EllipsisCount(items[1..])
  }

  lemma {:induction false} EllipsisCountAppend(a: seq<Item>, b: seq<Item>)
    ensures EllipsisCount(a + b) == EllipsisCount(a) + EllipsisCount(b)
    decreases |a|
  {
    if a != [] {
      assert (a + b)[1..] == a[1..] + b;
      EllipsisCountAppend(a[1..], b);
    } else {
      assert a + b == b;
    }
  }

  lemma {:induction false} RangeNoEllipsis(a: int, b: int)
    ensures EllipsisCount(Range(a, b)) == 0
    decreases b - a
  {
    if a <= b {
      RangeNoEllipsis(a, b - 1);
      EllipsisCountAppend(Range(a, b - 1), [Page(b)]);
    }
  }

  /** There is a leading ellipsis iff the current page is past 3 and a
      trailing one iff it is more than two pages before the last, for any
      current page. */
  lemma EllipsisCountOf(current: int, total: int)
    requires total > MAX_VISIBLE
    ensures EllipsisCount(PagesSpec(current, total))
         == (if current > 3 then 1 else 0) + (if current < total - 2 then 1 else 0)
  {
    var lead := if current > 3 then [Ellipsis] else [];
    var mid := Range(Max(2, current - 1), Min(total - 1, current + 1));
    var trail := if current < total - 2 then [Ellipsis] else [];
    RangeNoEllipsis(Max(2, current - 1), Min(total - 1, current + 1));
    EllipsisCountAppend([Page(1)], lead);
    EllipsisCountAppend([Page(1)] + lead, mid);
    EllipsisCountAppend([Page(1)] + lead + mid, trail);
    EllipsisCountAppend([Page(1)] + lead + mid + trail, [Page(total)]);
  }

  /** For a current page in range, the ellipses sit right after page 1 and
      right before the last page, exactly under those conditions. */
  lemma EllipsisPlacement(current: int, total: int)
    requires total > MAX_VISIBLE
    requires 1 <= current <= total
    ensures var items := PagesSpec(current, total);
      && (items[1] == Ellipsis <==> current > 3)
      && (items[|items| - 2] == Ellipsis <==> current < total - 2)
  {
  }

  /** Every ellipsis sits between two pages and stands for at least one
      page that is not listed, whatever the current page. */
  lemma EllipsisHidesPages(current: int, total: int, i: int)
    requires total > MAX_VISIBLE
    requires 0 <= i < |PagesSpec(current, total)|
    requires PagesSpec(current, total)[i] == Ellipsis
    ensures var items := PagesSpec(current, total);
      && 0 < i < |items| - 1
      && items[i - 1].Page? && items[i + 1].Page?
      && items[i + 1].n - items[i - 1].n >= 2
  {
  }

  /** A current page in range is always listed. */
  lemma CurrentListed(current: int, total: int)
    requires 1 <= current <= total
    ensures Page(current) in PagesSpec(current, total)
  {
    var items := PagesSpec(current, total);
    if total <= MAX_VISIBLE {
      assert items[current - 1] == Page(current);
    } else if current == 1 {
      assert items[0] == Page(1);
    } else if current == total {
      assert items[|items| - 1] == Page(total);
    } else {
      var o := 1 + (if current > 3 then 1 else 0);
      var mid := Range(Max(2, current - 1), Min(total - 1, current + 1));
      var k := current - Max(2, current - 1);
      assert items[o + k] == mid[k] == Page(current);
    }
  }

  // ---------------------------------------------------------------------
  // The controls

  /** The previous and next buttons: nothing is rendered for one page or
      fewer. */
  datatype Controls = Controls(previousDisabled: bool, nextDisabled: bool)

  function ControlsOf(current: int, total: int): (c: Option<Controls>)
    ensures c.None? <==> total <= 1
    ensures c.Some? ==> (c.value.previousDisabled <==> current == 1)
    ensures c.Some? ==> (c.value.nextDisabled <==> current == total)
  {
    if total <= 1 then None else Some(Controls(current == 1, current == total))
  }

  /** From a page in range, an enabled button leads to a page in range. */
  lemma ControlsStayInRange(current: int, total: int)
    requires 1 <= current <= total
    ensures var c := ControlsOf(current, total);
      c.Some? ==>
        && (!c.value.previousDisabled ==> 1 <= current - 1 <= total)
        && (!c.value.nextDisabled ==> 1 <= current + 1 <= total)
  {
  }
}
