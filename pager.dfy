/**
 * `window.Pager` of `ui-pager.v1.js`: the slice arithmetic of `paginate`,
 * the button bar of `_markup`, and the click guard of `_wire`.
 */
module Pager {
  import opened Common
  import Text

  /** `Math.max(1, parseInt(size || 12, 10))` for an integral `size`. */
  function PageSize(size: int): (sz: int)
    ensures sz >= 1
    ensures size >= 1 ==> sz == size
    ensures size == 0 ==> sz == 12
    ensures size < 0 ==> sz == 1
  {
    Max(1, if size == 0 then 12 else size)
  }

  /** `Math.ceil(total / size)`. */
  function CeilDiv(total: nat, size: int): nat
    requires size >= 1
  {
    (total + size - 1) / size
  }

  /** The page count is the fewest pages (at least one) that hold every element. */
  lemma CeilDivBounds(total: nat, size: int)
    requires size >= 1
    ensures var pages := Max(1, CeilDiv(total, size));
            total <= pages * size && (total == 0 || (pages - 1) * size < total)
  {
    var q := CeilDiv(total, size);
    var r := (total + size - 1) % size;
    assert total + size - 1 == q * size + r;
    if q == 0 {
      assert total == 0;
    }
  }

  datatype PageView<T> = PageView(data: seq<T>, total: nat, page: int, pages: int, start: int, end: int)

  function StartOf(page: int, sz: int): int { (page - 1) * sz }

  /** `paginate(arr, page, size)` for integral `page` and `size`. */
  function Paginate<T>(arr: seq<T>, page: int, size: int): (r: PageView<T>)
    ensures var sz := PageSize(size);
            r.total == |arr| && 1 <= r.page <= r.pages
            && |arr| <= r.pages * sz && (|arr| == 0 || (r.pages - 1) * sz < |arr|)
            && r.page == Min(Max(1, page), r.pages)
            && 0 <= StartOf(r.page, sz) <= |arr|
            && r.start == StartOf(r.page, sz) + 1
            && r.end == Min(StartOf(r.page, sz) + sz, |arr|)
            && r.data == arr[StartOf(r.page, sz)..r.end]
            && |r.data| <= sz
  {
    var p0 := Max(1, if page == 0 then 1 else page);
    var sz := PageSize(size);
    var total := |arr|;
    var pages := Max(1, CeilDiv(total, sz));
    CeilDivBounds(total, sz);
    var p := if p0 > pages then pages else p0;
    var start := StartOf(p, sz);
    StartBelowTotal(p, pages, sz, total);
    var end := start + sz;
    PageView(arr[start..Min(end, total)], total, p, pages, start + 1, Min(end, total))
  }

  lemma StartBelowTotal(p: int, pages: int, sz: int, total: nat)
    requires 1 <= p <= pages && sz >= 1
    requires total == 0 ==> pages == 1
    requires total == 0 || (pages - 1) * sz < total
    ensures 0 <= StartOf(p, sz) <= total
  {
    MulMono(p - 1, pages - 1, sz);
  }

  lemma MulMono(a: int, b: int, c: int)
    requires 0 <= a <= b && c >= 0
    ensures 0 <= a * c <= b * c
  {
  }

  /** The pages 1..k, one after the other. */
  function PagesUpTo<T>(arr: seq<T>, size: int, k: nat): seq<T>
  {
    if k == 0 then [] else PagesUpTo(arr, size, k - 1) + Paginate(arr, k, size).data
  }

  /** Leafing through every page gives back the whole list, in order. */
  lemma AllPages<T>(arr: seq<T>, size: int)
    ensures PagesUpTo(arr, size, Paginate(arr, 1, size).pages) == arr
  {
    var pages := Paginate(arr, 1, size).pages;
    PagesPrefix(arr, size, pages, pages);
    assert arr[..|arr|] == arr;
  }

  lemma {:induction false} PagesPrefix<T>(arr: seq<T>, size: int, k: nat, pages: int)
    requires pages == Paginate(arr, 1, size).pages && k <= pages
    ensures PagesUpTo(arr, size, k) == arr[..Min(k * PageSize(size), |arr|)]
  {
    var sz := PageSize(size);
    if k > 0 {
      PagesPrefix(arr, size, k - 1, pages);
      var v := Paginate(arr, k, size);
      assert v.pages == pages;
      assert v.page == k;
      assert StartOf(k, sz) == (k - 1) * sz;
      assert (k - 1) * sz + sz == k * sz;
      var a := (k - 1) * sz;
      assert Min(a, |arr|) == a;
      assert arr[..a] + arr[a..v.end] == arr[..v.end];
    }
  }

  // ----- the button bar -----

  /** A numbered button: `data-page` and whether it is the current page. */
  datatype NumButton = NumButton(target: int, active: bool)
  /** The previous / next button: `data-page` and whether it is disabled. */
  datatype NavButton = NavButton(target: int, disabled: bool)
  datatype Bar = Bar(prev: NavButton, nums: seq<NumButton>, next: NavButton)

  /**
   * `_markup(total, page, pages)`: previous and next (disabled at the ends)
   * around the buttons from `max(1, page-2)` to `min(pages, page+2)`.
   */
  method Markup(page: int, pages: int) returns (bar: Bar)
    ensures bar.prev == NavButton(page - 1, page <= 1)
    ensures bar.next == NavButton(page + 1, page >= pages)
    ensures var from := Max(1, page - 2);
            var to := Min(pages, page + 2);
            |bar.nums| == Max(0, to - from + 1)
            && forall i :: 0 <= i < |bar.nums| ==> bar.nums[i] == NumButton(from + i, from + i == page)
    ensures |bar.nums| <= 5
    ensures forall i :: 0 <= i < |bar.nums| ==> 1 <= bar.nums[i].target <= pages
    ensures 1 <= page <= pages ==> page - Max(1, page - 2) < |bar.nums| && bar.nums[page - Max(1, page - 2)].active
  {
    var prev := NavButton(page - 1, page <= 1);
    var next := NavButton(page + 1, page >= pages);
    var from := Max(1, page - 2);
    var to := Min(pages, page + 2);
    var nums: seq<NumButton> := [];
    var p := from;
    while p <= to
      invariant from <= p <= Max(from, to + 1)
      invariant |nums| == p - from
      invariant forall i :: 0 <= i < |nums| ==> nums[i] == NumButton(from + i, from + i == page)
    {
      nums := nums + [NumButton(p, p == page)];
      p := p + 1;
    }
    bar := Bar(prev, nums, next);
  }

  /**
   * The click handler of `_wire`: the button's `data-page` read with
   * `parseInt`, passed on only when it is a page other than the current one.
   */
  function ClickTarget(attr: string, page: int, pages: int): (r: Option<int>)
    ensures r.Some? <==> Text.ParseInt(attr).Some? && 1 <= Text.ParseInt(attr).value <= pages
                         && Text.ParseInt(attr).value != page
    ensures r.Some? ==> r == Text.ParseInt(attr)
  {
    match Text.ParseInt(attr)
    case None => None
    case Some(p) => if p < 1 || p > pages || p == page then None else Some(p)
  }

  /**
   * The disabled previous and next buttons and the current page's button never
   * call `onChange`; any other page in range does.
   */
  lemma ClickGuard(page: int, pages: int, t: int)
    ensures page <= 1 ==> ClickTarget(Text.IntToString(page - 1), page, pages).None?
    ensures page >= pages ==> ClickTarget(Text.IntToString(page + 1), page, pages).None?
    ensures ClickTarget(Text.IntToString(page), page, pages).None?
    ensures 1 <= t <= pages && t != page ==> ClickTarget(Text.IntToString(t), page, pages) == Some(t)
  {
    Text.ParseIntIntToString(page - 1);
    Text.ParseIntIntToString(page + 1);
    Text.ParseIntIntToString(page);
    Text.ParseIntIntToString(t);
  }
}
