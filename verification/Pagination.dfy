/** The pager of every list page (app/pagination.py). */
module Pagination {
  import opened Wrappers

  /** parse_page, once int() has accepted the text or not */
  function ParsePage(value: Option<int>): (page: int)
    ensures page >= 1
    ensures value.Some? && value.value >= 1 ==> page == value.value
  {
    match value
    case None => 1
    case Some(n) => if n > 0 then n else 1
  }

  function Abs(n: int): nat {
    if n < 0 then -n else n
  }

  function Max(a: int, b: int): int {
    if a > b then a else b
  }

  function Min(a: int, b: int): int {
    if a < b then a else b
  }

  /** math.ceil(total / perPage) */
  function CeilDiv(total: nat, perPage: nat): nat
    requires perPage > 0
  {
    (total + perPage - 1) / perPage
  }

  /** The number of each entry; None is the gap marker. */
  type Window = seq<Option<int>>

  predicate Shows(n: int, page: int, pages: int, edge: nat, around: nat) {
    n <= edge || n > pages - edge || Abs(n - page) <= around
  }

  /** No marker at either end or next to another, and each stands for at least one number. */
  predicate GapAt(w: Window, i: nat)
    requires i < |w|
  {
    w[i].None? ==> 0 < i < |w| - 1 && w[i - 1].Some? && w[i + 1].Some? && w[i + 1].value - w[i - 1].value > 1
  }

  /** Numbers next to each other are consecutive. */
  predicate StepAt(w: Window, i: nat)
    requires i + 1 < |w|
  {
    w[i].Some? && w[i + 1].Some? ==> w[i + 1].value == w[i].value + 1
  }

  ghost predicate GapsMarked(w: Window) {
    && (forall i: nat | i < |w| :: GapAt(w, i))
    && (forall i: nat | i + 1 < |w| :: StepAt(w, i))
  }

  predicate InOrder(w: Window, i: nat, j: nat)
    requires i < j < |w|
  {
    w[i].Some? && w[j].Some? ==> w[i].value < w[j].value
  }

  ghost predicate Increasing(w: Window) {
    forall i: nat, j: nat | i < j < |w| :: InOrder(w, i, j)
  }

  /** The number is listed. */
  predicate Has(w: Window, n: int) {
    Some(n) in w
  }

  ghost predicate AtMost(w: Window, last: int) {
    forall n | Has(w, n) :: n <= last
  }

  /** How many of the numbers 1..n fall at the first edge, around the page, and at the last edge; and the two gaps. */
  function Quota(n: int, page: int, pages: int, edge: nat, around: nat): int {
    Min(n, edge) + Max(0, Min(n - (page - around) + 1, 2 * around + 1)) + Max(0, n - (pages - edge))
    + (if n >= page - around then 1 else 0) + (if n > pages - edge then 1 else 0)
  }

  /** A number shown uses up one of the quota, and one more where a gap ends. */
  lemma QuotaGrows(n: int, page: int, pages: int, edge: nat, around: nat)
    requires n >= 1
    ensures Quota(n, page, pages, edge, around) >= Quota(n - 1, page, pages, edge, around)
    ensures Shows(n, page, pages, edge, around) ==>
              Quota(n, page, pages, edge, around) >= Quota(n - 1, page, pages, edge, around) + 1
    ensures Shows(n, page, pages, edge, around) && !Shows(n - 1, page, pages, edge, around) && n > 1 ==>
              Quota(n, page, pages, edge, around) >= Quota(n - 1, page, pages, edge, around) + 2
  {
  }

  function Append(w: Window, last: int, n: int): Window {
    if last > 0 && n - last > 1 then w + [None, Some(n)] else w + [Some(n)]
  }

  ghost predicate WithinQuota(w: Window, n: int, page: int, pages: int, edge: nat, around: nat) {
    |w| <= Quota(n, page, pages, edge, around)
  }

  /** `w` is right for the numbers below n, and `last` is the last of them. */
  ghost predicate Lists(w: Window, last: int, n: int, page: int, pages: int, edge: nat, around: nat) {
    && GapsMarked(w) && Increasing(w)
    && 0 <= last < n && (last == 0 <==> w == [])
    && (last > 0 ==> w[|w| - 1] == Some(last))
    && (forall k | last < k < n :: !Shows(k, page, pages, edge, around))
    && (forall k :: Has(w, k) <==> 1 <= k < n && Shows(k, page, pages, edge, around))
    && WithinQuota(w, n - 1, page, pages, edge, around)
  }

  lemma AppendKeepsOrder(w: Window, last: int, n: int)
    requires GapsMarked(w) && Increasing(w) && 0 <= last < n && (last == 0 <==> w == [])
    requires last > 0 ==> w[|w| - 1] == Some(last)
    requires AtMost(w, last)
    ensures GapsMarked(Append(w, last, n)) && Increasing(Append(w, last, n))
  {
    var after := Append(w, last, n);
    forall i: nat, j: nat | i < j < |after| ensures InOrder(after, i, j) {
      if j < |w| { assert InOrder(w, i, j); } else if i < |w| && w[i].Some? { assert Has(w, w[i].value); }
    }
    forall i: nat | i < |after| ensures GapAt(after, i) {
      if i < |w| { assert GapAt(w, i); }
    }
    forall i: nat | i + 1 < |after| ensures StepAt(after, i) {
      if i + 1 < |w| { assert StepAt(w, i); }
    }
  }

  lemma AppendAdds(w: Window, last: int, n: int, k: int)
    ensures Has(Append(w, last, n), k) <==> Has(w, k) || k == n
  {
    var after := Append(w, last, n);
    assert after[|after| - 1] == Some(n);
    if Has(w, k) {
      var i :| 0 <= i < |w| && w[i] == Some(k);
      assert after[i] == Some(k);
    }
  }

  lemma ShowNext(w: Window, last: int, n: int, page: int, pages: int, edge: nat, around: nat)
    requires Lists(w, last, n, page, pages, edge, around) && Shows(n, page, pages, edge, around)
    ensures Lists(Append(w, last, n), n, n + 1, page, pages, edge, around)
  {
    var after := Append(w, last, n);
    QuotaGrows(n, page, pages, edge, around);
    assert AtMost(w, last) by {
      forall k | Has(w, k) ensures k <= last {
        assert Shows(k, page, pages, edge, around);
      }
    }
    AppendKeepsOrder(w, last, n);
    forall k ensures Has(after, k) <==> 1 <= k < n + 1 && Shows(k, page, pages, edge, around) {
      AppendAdds(w, last, n, k);
    }
  }

  lemma SkipNext(w: Window, last: int, n: int, page: int, pages: int, edge: nat, around: nat)
    requires Lists(w, last, n, page, pages, edge, around) && !Shows(n, page, pages, edge, around)
    ensures Lists(w, last, n + 1, page, pages, edge, around)
  {
    QuotaGrows(n, page, pages, edge, around);
  }

  lemma NothingYet(page: int, pages: int, edge: nat, around: nat)
    ensures Lists([], 0, 1, page, pages, edge, around)
  {
  }

  method ShowNumber(w: Window, last: int, n: int) returns (shown: Window)
    ensures shown == Append(w, last, n)
  {
    shown := w;
    if last > 0 && n - last > 1 {
      shown := shown + [None];
    }
    shown := shown + [Some(n)];
  }

  method ShowNumbers(page: int, pages: nat, edge: nat, around: nat) returns (shown: Window)
    ensures GapsMarked(shown) && Increasing(shown)
    ensures forall n :: Has(shown, n) <==> 1 <= n <= pages && Shows(n, page, pages, edge, around)
    ensures |shown| <= 2 * edge + 2 * around + 3
  {
    shown := [];
    var last := 0;
    NothingYet(page, pages, edge, around);
    for n := 1 to pages + 1
      invariant Lists(shown, last, n, page, pages, edge, around)
    {
      if n <= edge || n > pages - edge || Abs(n - page) <= around {
        ShowNext(shown, last, n, page, pages, edge, around);
        shown := ShowNumber(shown, last, n);
        last := n;
      } else {
        SkipNext(shown, last, n, page, pages, edge, around);
      }
    }
    ListsAll(shown, last, page, pages, edge, around);
  }

  datatype Page = Page(page: int, perPage: nat, total: nat) {
    function Pages(): (pages: int)
      ensures pages >= 1
    {
      if perPage == 0 then 1 else Max(1, CeilDiv(total, perPage))
    }

    function Offset(): int {
      (page - 1) * perPage
    }

    function FirstItem(): int {
      if total > 0 then Offset() + 1 else 0
    }

    function LastItem(): int {
      Min(Offset() + perPage, total)
    }

    /** `window`, for any edge and around; by default they are 1 and 2, and there are at most 9 entries. */
    method PageWindow(edge: nat := 1, around: nat := 2) returns (shown: Window)
      ensures GapsMarked(shown) && Increasing(shown)
      ensures forall n :: Has(shown, n) <==> 1 <= n <= Pages() && Shows(n, page, Pages(), edge, around)
      ensures |shown| <= 2 * edge + 2 * around + 3
    {
      shown := ShowNumbers(page, Pages(), edge, around);
    }
  }

  /** An empty list has one page, without items. */
  lemma EmptyList(p: Page)
    requires p.total == 0 && p.page >= 1
    ensures p.Pages() == 1 && p.FirstItem() == 0 && p.LastItem() == 0
  {
  }

  lemma ListsAll(w: Window, last: int, page: int, pages: int, edge: nat, around: nat)
    requires Lists(w, last, pages + 1, page, pages, edge, around)
    ensures GapsMarked(w) && Increasing(w)
    ensures forall n :: Has(w, n) <==> 1 <= n <= pages && Shows(n, page, pages, edge, around)
    ensures |w| <= 2 * edge + 2 * around + 3
  {
  }

  /** What the pager relies on: both ends and the neighbours are shown, whatever page is asked for. */
  lemma EndsAndNeighboursShow(page: int, pages: int, n: int)
    requires pages >= 1 && 1 <= n <= pages
    ensures Shows(1, page, pages, 1, 2) && Shows(pages, page, pages, 1, 2)
    ensures page - 2 <= n <= page + 2 ==> Shows(n, page, pages, 1, 2)
  {
  }

  /** A window without its last number and the gap before it. */
  function Trim(w: Window): (t: Window)
    ensures w != [] ==> |t| < |w|
  {
    if w == [] then [] else if |w| > 1 && w[|w| - 2].None? then w[..|w| - 2] else w[..|w| - 1]
  }

  lemma Ends(w: Window) returns (x: int)
    requires GapsMarked(w) && Increasing(w)
    ensures w != [] ==> w[|w| - 1] == Some(x) && Has(w, x) && forall n | Has(w, n) :: n <= x
    ensures w == [] <==> forall n :: !Has(w, n)
  {
    x := 0;
    if w != [] {
      assert GapAt(w, |w| - 1);
      x := w[|w| - 1].value;
      assert Has(w, x);
      forall n | Has(w, n) ensures n <= x {
        var i: nat :| i < |w| && w[i] == Some(n);
        assert i < |w| - 1 ==> InOrder(w, i, |w| - 1);
      }
    }
  }

  lemma Trimmed(w: Window)
    requires GapsMarked(w) && Increasing(w) && w != []
    ensures GapsMarked(Trim(w)) && Increasing(Trim(w))
    ensures w[|w| - 1].Some? && forall n :: Has(Trim(w), n) <==> Has(w, n) && n != w[|w| - 1].value
    ensures var x, t := w[|w| - 1].value, Trim(w);
            && (t != [] ==> t[|t| - 1].Some?)
            && w == if t != [] && x - t[|t| - 1].value > 1 then t + [None, Some(x)] else t + [Some(x)]
  {
    var t := Trim(w);
    assert GapAt(w, |w| - 1);
    if |w| > 1 {
      assert GapAt(w, |w| - 2) && StepAt(w, |w| - 2);
    }
    forall i: nat | i < |t| ensures GapAt(t, i) {
      assert GapAt(w, i);
    }
    forall i: nat, j: nat | i < j < |t| ensures InOrder(t, i, j) {
      assert InOrder(w, i, j);
    }
    forall n ensures Has(t, n) <==> Has(w, n) && n != w[|w| - 1].value {
      if Has(t, n) {
        var i: nat :| i < |t| && t[i] == Some(n);
        assert w[i] == Some(n) && InOrder(w, i, |w| - 1);
      }
    }
    forall i: nat | i + 1 < |t| ensures StepAt(t, i) {
      assert StepAt(w, i);
    }
  }

  /**
   The window has only one reading: two lists that show the same numbers in order and mark the gaps
   are the same list.
   */
  lemma {:induction false} WindowIsUnique(v: Window, w: Window)
    requires GapsMarked(v) && Increasing(v) && GapsMarked(w) && Increasing(w)
    requires forall n :: Has(v, n) <==> Has(w, n)
    ensures v == w
    decreases |v|
  {
    if v == [] {
      var _ := Ends(w);
    } else {
      var x := Ends(v);
      var y := Ends(w);
      assert Has(w, x) && Has(v, y);
      assert x == y;
      Trimmed(v);
      Trimmed(w);
      WindowIsUnique(Trim(v), Trim(w));
    }
  }

  lemma DivBounds(n: nat, d: nat)
    requires d > 0
    ensures n / d * d <= n < (n / d + 1) * d
  {
    assert n == n / d * d + n % d;
  }

  lemma LessByFactor(a: int, b: int, d: nat)
    requires a < b
    ensures (a + 1) * d <= b * d
  {
  }

  lemma PagesCover(perPage: nat, total: nat)
    requires perPage > 0 && total > 0
    ensures var pages := Page(1, perPage, total).Pages();
            (pages - 1) * perPage < total <= pages * perPage
  {
    DivBounds(total + perPage - 1, perPage);
    var pages := CeilDiv(total, perPage);
    assert (pages - 1) * perPage == pages * perPage - perPage;
    assert pages == 0 ==> (pages + 1) * perPage == perPage;
  }

  predicate Holds(p: int, perPage: nat, total: nat, row: int) {
    Page(p, perPage, total).FirstItem() <= row <= Page(p, perPage, total).LastItem()
  }

  /** Every row of the list is on exactly one of the pages 1..pages. */
  lemma PagesTile(perPage: nat, total: nat, row: int) returns (p: int)
    requires perPage > 0 && 1 <= row <= total
    ensures 1 <= p <= Page(1, perPage, total).Pages() && Holds(p, perPage, total, row)
    ensures forall q | 1 <= q && Holds(q, perPage, total, row) :: q == p
  {
    p := (row - 1) / perPage + 1;
    DivBounds(row - 1, perPage);
    PagesCover(perPage, total);
    var pages := Page(1, perPage, total).Pages();
    if p > pages { LessByFactor(pages - 1, p - 1, perPage); }
    forall q | 1 <= q && Holds(q, perPage, total, row) ensures q == p {
      assert q * perPage == (q - 1) * perPage + perPage;
      if q < p { LessByFactor(q - 1, p - 1, perPage); }
      if q > p { LessByFactor(p - 1, q - 1, perPage); }
    }
  }

  /** Consecutive pages meet: the first begins at row 1, each begins where the one before ends, the last ends the list. */
  lemma PagesMeet(perPage: nat, total: nat, p: int)
    requires perPage > 0 && total > 0 && 1 <= p <= Page(1, perPage, total).Pages()
    ensures Page(1, perPage, total).FirstItem() == 1
    ensures p < Page(1, perPage, total).Pages() ==>
              Page(p + 1, perPage, total).FirstItem() == Page(p, perPage, total).LastItem() + 1
    ensures Page(Page(1, perPage, total).Pages(), perPage, total).LastItem() == total
  {
    PagesCover(perPage, total);
    var pages := Page(1, perPage, total).Pages();
    if p < pages { LessByFactor(p - 1, pages - 1, perPage); }
    assert (p - 1) * perPage + perPage == p * perPage;
    assert (pages - 1) * perPage + perPage == pages * perPage;
  }
}
