/** The pager: how many pages a total makes, which buttons it shows and what each requests. */
module Pagination {
  import opened Wrappers
  import opened Text

  /** `Math.ceil(a / d)` for a positive divisor; `/` is Euclidean, so negating twice rounds up. */
  function CeilDiv(a: int, d: int): (c: int)
    requires d >= 1
    ensures (c - 1) * d < a <= c * d
  {
    var q := (-a) / d;
    var m := (-a) % d;
    assert -a == q * d + m && 0 <= m < d;
    assert -q * d == a + m;
    assert (-q - 1) * d == a + m - d;
    -q
  }

  lemma MulBounds(x: int, d: int)
    requires d >= 1
    ensures x >= 0 ==> x * d >= 0
    ensures x >= 1 ==> x * d >= d
    ensures x <= 1 ==> x * d <= d
  {
  }

  /** `totalPages`: the page count of `total` records at a page size of at least one. */
  function TotalPages(total: int, pageSize: int): (r: int)
    ensures r >= 1
    ensures total <= Max(1, pageSize) ==> r == 1
    ensures total > 0 ==> (r - 1) * Max(1, pageSize) < total <= r * Max(1, pageSize)
  {
    var d := Max(1, pageSize);
    var c := CeilDiv(total, d);
    if total <= 0 then
      MulBounds(c - 1, d);
      1
    else
      assert c >= 1;
      if total <= d then
        MulBounds(c - 1, d);
        Max(1, c)
      else Max(1, c)
  }

  lemma TotalPagesExample()
    ensures TotalPages(25, 10) == 3 && TotalPages(30, 10) == 3 && TotalPages(0, 10) == 1
  {
  }

  function CanPrev(page: int): bool {
    page > 1
  }

  function CanNext(page: int, totalPages: int): bool {
    page < totalPages
  }

  /** A button: the page number it requests, and whether it is disabled or marks the
      current page. */
  datatype Button = Button(target: int, disabled: bool, current: bool)

  datatype Pager = Pager(prev: Button, numbers: seq<Button>, next: Button, totalPages: int)

  /** The rendered pager, or nothing when there is at most one page. */
  function Render(page: int, pageSize: int, total: int): (r: Option<Pager>)
    ensures r.None? <==> total <= Max(1, pageSize)
    ensures r.Some? ==>
      var tp := TotalPages(total, pageSize);
      && r.value.totalPages == tp >= 2
      && r.value.prev == Button(page - 1, page <= 1, false)
      && r.value.next == Button(page + 1, page >= tp, false)
      && |r.value.numbers| == Min(4, tp)
      && forall i :: 0 <= i < |r.value.numbers| ==>
           r.value.numbers[i] == Button(i + 1, false, i + 1 == page)
  {
    var tp := TotalPages(total, pageSize);
    var numbers := seq(Min(4, tp), i requires 0 <= i < Min(4, tp) => Button(i + 1, false, i + 1 == page));
    if tp <= 1 then
      MulBounds(tp, Max(1, pageSize));
      None
    else
      Some(Pager(Button(page - 1, !CanPrev(page), false), numbers, Button(page + 1, !CanNext(page, tp), false), tp))
  }

  /** Every enabled control requests a page between 1 and the last page, and the numbered
      buttons are exactly the first pages, never beyond the last. */
  lemma EnabledTargetsInRange(page: int, pageSize: int, total: int)
    requires 1 <= page <= TotalPages(total, pageSize)
    ensures var r := Render(page, pageSize, total);
      r.Some? ==>
        && (!r.value.prev.disabled ==> 1 <= r.value.prev.target < page)
        && (!r.value.next.disabled ==> page < r.value.next.target <= r.value.totalPages)
        && forall b :: b in r.value.numbers ==> 1 <= b.target <= r.value.totalPages
  {
  }

  /** Nothing clamps a page past the last: Prev stays enabled and requests a page that is
      itself at or past the last, Next is disabled, and no numbered button is current. */
  lemma StalePage(page: int, pageSize: int, total: int)
    requires page > TotalPages(total, pageSize)
    ensures var r := Render(page, pageSize, total);
      r.Some? ==>
        && !r.value.prev.disabled && r.value.prev.target >= r.value.totalPages
        && r.value.next.disabled
        && forall b :: b in r.value.numbers ==> !b.current
  {
  }

  lemma StalePageExample()
    ensures Render(10, 10, 25).Some?
    ensures Render(10, 10, 25).value.totalPages == 3
    ensures Render(10, 10, 25).value.prev == Button(9, false, false)
  {
  }
}
