/** The `page`/`limit` arithmetic shared by the paginated listings. */
module Pagination {
  import opened Collections

  /** `(Number(page) - 1) * Number(limit)`: how many rows the listing skips. */
  function Skip(page: int, limit: int): int {
    (page - 1) * limit
  }

  function Min(a: int, b: int): int { if a <= b then a else b }

  function Max(a: int, b: int): int { if a <= b then b else a }

  /** `Math.ceil(a / b)` for `a >= 0` and `b != 0`. */
  function CeilDiv(a: nat, b: int): (q: int)
    requires b != 0
    ensures b > 0 ==> (q - 1) * b < a <= q * b
    ensures b < 0 ==> q * b <= a < (q - 1) * b
  {
    if b > 0 then (a + b - 1) / b else -(a / -b)
  }

  /**
   * `Math.ceil(total / Number(limit))`. A zero limit gives `Infinity` or `NaN`
   * in JavaScript, which is not a number of pages: `None`.
   */
  function TotalPages(total: nat, limit: int): (r: Option<int>)
    ensures r.None? <==> limit == 0
    ensures limit > 0 ==> r.Some? && r.value >= 0 && r.value * limit >= total && (r.value - 1) * limit < total
  {
    if limit == 0 then None else Some(CeilDiv(total, limit))
  }

  /** Fewest whole pages: with a positive limit no smaller page count covers `total`. */
  lemma {:induction false} TotalPagesIsLeast(total: nat, limit: int, pages: int)
    requires limit > 0 && pages * limit >= total
    ensures TotalPages(total, limit).value <= pages
  {
    var q := TotalPages(total, limit).value;
    if q > pages {
      assert (q - 1) * limit >= pages * limit by {
        assert q - 1 >= pages;
        MulMonotone(pages, q - 1, limit);
      }
      assert false;
    }
  }

  lemma MulMonotone(a: int, b: int, c: int)
    requires a <= b && c > 0
    ensures a * c <= b * c
  {
  }

  /** The list without its first `n` elements. */
  function Drop<T>(s: seq<T>, n: nat): seq<T> {
    if n >= |s| then [] else s[n..]
  }

  /** The first `n` elements of the list, or all of it when it is shorter. */
  function Take<T>(s: seq<T>, n: nat): seq<T> {
    if n >= |s| then s else s[..n]
  }

  function Reverse<T>(s: seq<T>): (r: seq<T>)
    ensures |r| == |s| && forall i :: 0 <= i < |s| ==> r[i] == s[|s| - 1 - i]
  {
    seq(|s|, i requires 0 <= i < |s| => s[|s| - 1 - i])
  }

  /**
   * `findMany({ skip, take })` over rows already in the listing's order.
   * Prisma refuses a negative `skip` (the controller then answers 500). A
   * negative `take` reads the list from its end: the order is reversed, the
   * skip and the take applied, and the result put back in order.
   */
  function Page<T>(rows: seq<T>, page: int, limit: int): (r: Option<seq<T>>)
    ensures r.None? <==> Skip(page, limit) < 0
    ensures r.Some? && limit >= 0 ==>
      var skip := Skip(page, limit);
      r.value == rows[Min(skip, |rows|)..Min(skip + limit, |rows|)]
    ensures r.Some? && limit < 0 ==>
      var skip := Skip(page, limit);
      r.value == rows[Max(|rows| - skip + limit, 0)..Max(|rows| - skip, 0)]
  {
    var skip := Skip(page, limit);
    if skip < 0 then None else Some(Window(rows, skip, limit))
  }

  /** The rows a non-negative `skip` and a `take` of `limit` select. */
  function Window<T>(rows: seq<T>, skip: nat, limit: int): (r: seq<T>)
    ensures limit >= 0 ==> r == rows[Min(skip, |rows|)..Min(skip + limit, |rows|)]
    ensures limit < 0 ==> r == rows[Max(|rows| - skip + limit, 0)..Max(|rows| - skip, 0)]
  {
    if limit >= 0 then Take(Drop(rows, skip), limit) else TakeFromEnd(rows, skip, -limit)
  }

  /** Reversing, skipping `skip`, taking `take` and reversing back: the slice that ends `skip` before the end. */
  function TakeFromEnd<T>(rows: seq<T>, skip: nat, take: nat): (r: seq<T>)
    ensures r == rows[Max(|rows| - skip - take, 0)..Max(|rows| - skip, 0)]
  {
    FromTheEnd(rows, skip, take);
    Reverse(Take(Drop(Reverse(rows), skip), take))
  }

  lemma FromTheEnd<T>(rows: seq<T>, skip: nat, take: nat)
    ensures Reverse(Take(Drop(Reverse(rows), skip), take)) ==
      rows[Max(|rows| - skip - take, 0)..Max(|rows| - skip, 0)]
  {
    var n := |rows|;
    var hi := Max(n - skip, 0);
    var lo := Max(n - skip - take, 0);
    var mid := Take(Drop(Reverse(rows), skip), take);
    assert |mid| == hi - lo;
    forall i | 0 <= i < |mid| ensures mid[i] == rows[hi - 1 - i] {
      assert Drop(Reverse(rows), skip)[i] == Reverse(rows)[skip + i];
    }
    var r := Reverse(mid);
    forall i | 0 <= i < |r| ensures r[i] == rows[lo..hi][i] {
      assert r[i] == mid[|mid| - 1 - i];
    }
  }

  /** Every row on a page is a row of the list. */
  lemma PageElement<T>(rows: seq<T>, page: int, limit: int, k: nat) returns (j: nat)
    requires Page(rows, page, limit).Some? && k < |Page(rows, page, limit).value|
    ensures j < |rows| && Page(rows, page, limit).value[k] == rows[j]
  {
    j := WindowElement(rows, Skip(page, limit), limit, k);
  }

  lemma WindowElement<T>(rows: seq<T>, skip: nat, limit: int, k: nat) returns (j: nat)
    requires k < |Window(rows, skip, limit)|
    ensures j < |rows| && Window(rows, skip, limit)[k] == rows[j]
  {
    var w := Window(rows, skip, limit);
    var lo, hi;
    if limit >= 0 {
      lo, hi := Min(skip, |rows|), Min(skip + limit, |rows|);
    } else {
      lo, hi := Max(|rows| - skip + limit, 0), Max(|rows| - skip, 0);
    }
    assert w == rows[lo..hi];
    j := lo + k;
  }

  /** Pages 1 to `count` one after the other. */
  function Pages<T>(rows: seq<T>, limit: int, count: nat): seq<T>
    requires limit > 0
  {
    if count == 0 then []
    else
      MulMonotone(0, count - 1, limit);
      Pages(rows, limit, count - 1) + Page(rows, count, limit).value
  }

  /** Page `p + 1` starts where page `p` ends: the first pages list a prefix of the rows, without gaps or repeats. */
  lemma {:induction false} PagesArePrefix<T>(rows: seq<T>, limit: int, count: nat)
    requires limit > 0
    ensures Pages(rows, limit, count) == rows[..Min(count * limit, |rows|)]
  {
    if count > 0 {
      PagesArePrefix(rows, limit, count - 1);
      MulMonotone(0, count - 1, limit);
      var before := Min((count - 1) * limit, |rows|);
      assert Skip(count, limit) + limit == count * limit;
      assert rows[..before] + rows[before..Min(count * limit, |rows|)] == rows[..Min(count * limit, |rows|)];
    }
  }

  /** With a positive limit, the `totalPages` pages list every row exactly once, in order. */
  lemma EveryRowOnOnePage<T>(rows: seq<T>, limit: int)
    requires limit > 0
    ensures Pages(rows, limit, TotalPages(|rows|, limit).value) == rows
  {
    PagesArePrefix(rows, limit, TotalPages(|rows|, limit).value);
  }
}
