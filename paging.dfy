/** The pagination arithmetic shared by the catalog queries: the page size
    clamped to 1..100, the non-negative skip offset of a page, the page count
    of at least one, and Prisma's `skip`/`take` window. */
module Paging {

  /** The page size, clamped to 1..100. */
  function ClampTake(n: int): (t: int)
    ensures 1 <= t <= 100
    ensures 1 <= n <= 100 ==> t == n
    ensures n < 1 ==> t == 1
    ensures n > 100 ==> t == 100
  {
    if n < 1 then 1 else if n > 100 then 100 else n
  }

  /** The rows before page `page`, never negative. */
  function SkipFor(page: int, take: int): (s: nat)
    requires take >= 1
    ensures page <= 1 ==> s == 0
    ensures page >= 1 ==> s == (page - 1) * take
  {
    if (page - 1) * take < 0 then 0 else (page - 1) * take
  }

  /** The quotient rounded up, for a non-negative total. */
  function CeilDiv(total: nat, take: int): (q: nat)
    requires take >= 1
    ensures q * take >= total
    ensures q == 0 || (q - 1) * take < total
  {
    (total + take - 1) / take
  }

  /** The least number of pages of `take` rows that hold `total` rows, and
      never less than one. */
  function TotalPages(total: nat, take: int): (p: nat)
    requires take >= 1
    ensures p >= 1
    ensures p * take >= total
    ensures total <= take ==> p == 1
    ensures total > take ==> (p - 1) * take < total
  {
    var q := CeilDiv(total, take);
    assert q >= 2 ==> (q - 1) * take >= take by {
      if q >= 2 { MulMonotone(q - 1, 1, take); }
    }
    if q < 1 then 1 else q
  }

  lemma MulMonotone(a: int, b: int, c: nat)
    requires a >= b
    ensures a * c >= b * c
  {
  }

  /** Prisma's `skip` and `take` on an ordered result. */
  function Window<T>(rows: seq<T>, skip: nat, take: nat): (r: seq<T>)
    ensures |r| <= take
    ensures skip >= |rows| ==> r == []
    ensures forall k :: 0 <= k < |r| ==> skip + k < |rows| && r[k] == rows[skip + k]
    ensures |r| == if skip >= |rows| then 0 else if skip + take <= |rows| then take else |rows| - skip
  {
    var lo := if skip < |rows| then skip else |rows|;
    var hi := if skip + take < |rows| then skip + take else |rows|;
    rows[lo..hi]
  }

  /** Two consecutive pages together are the window of their combined size:
      paging through a result neither skips nor repeats a row. */
  lemma WindowsTile<T>(rows: seq<T>, skip: nat, take1: nat, take2: nat)
    ensures Window(rows, skip, take1) + Window(rows, skip + take1, take2) == Window(rows, skip, take1 + take2)
  {
    var a := Window(rows, skip, take1);
    var b := Window(rows, skip + take1, take2);
    var c := Window(rows, skip, take1 + take2);
    assert |a + b| == |c|;
    forall k | 0 <= k < |c| ensures (a + b)[k] == c[k] {
      if k >= |a| {
        assert b[k - |a|] == rows[skip + take1 + (k - |a|)];
      }
    }
  }
}
