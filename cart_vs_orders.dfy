/** The yearly cart and order counts of the cart-vs-orders metric. Each
    cart and order is given by the calendar year of its `createdAt`. */
module CartVsOrders {
  import Seqs
  import Grouping

  predicate StrictlyAscending(s: seq<int>) {
    forall i, j :: 0 <= i < j < |s| ==> s[i] < s[j]
  }

  /** Adds a year to an ascending list of distinct years. */
  function InsertYear(y: int, s: seq<int>): (r: seq<int>)
    requires StrictlyAscending(s)
    ensures StrictlyAscending(r)
    ensures forall z :: z in r <==> z == y || z in s
  {
    if s == [] || y < s[0] then
      HeadBelowTail([y] + s);
      [y] + s
    else if y == s[0] then s
    else
      HeadBelowTail(s);
      var rest := InsertYear(y, s[1..]);
      HeadBelowTail([s[0]] + rest);
      [s[0]] + rest
  }

  /** A non-empty list is ascending exactly when its tail is and its head is
      below every element of the tail. */
  lemma HeadBelowTail(s: seq<int>)
    requires s != []
    ensures StrictlyAscending(s) <==> StrictlyAscending(s[1..]) && forall z :: z in s[1..] ==> s[0] < z
    ensures forall z :: z in s <==> z == s[0] || z in s[1..]
  {
    if StrictlyAscending(s[1..]) && forall z :: z in s[1..] ==> s[0] < z {
      forall i, j | 0 <= i < j < |s| ensures s[i] < s[j] {
        assert s[j] == s[1..][j - 1];
        if i > 0 {
          assert s[i] == s[1..][i - 1];
        } else {
          assert s[1..][j - 1] in s[1..];
        }
      }
    }
    if StrictlyAscending(s) {
      forall z | z in s[1..] ensures s[0] < z {
        var k :| 0 <= k < |s[1..]| && s[1..][k] == z;
        assert s[k + 1] == z;
      }
    }
  }

  /** The distinct years, in ascending numeric order. */
  function SortedYears(years: seq<int>): (r: seq<int>)
    ensures StrictlyAscending(r)
    ensures forall y :: y in r <==> y in years
  {
    if years == [] then []
    else
      assert forall z :: z in years <==> z == years[0] || z in years[1..];
      InsertYear(years[0], SortedYears(years[1..]))
  }

  datatype YearEntry = YearEntry(year: int, carts: nat, orders: nat)

  function Identity(y: int): int {
    y
  }

  /** The number of records created in the year. */
  function CountIn(years: seq<int>, year: int): (n: nat)
    ensures n <= |years|
    ensures n > 0 <==> year in years
  {
    Grouping.GroupCount(years, Identity, year)
  }

  /** The entry of one year. */
  function Entry(cartYears: seq<int>, orderYears: seq<int>, y: int): YearEntry {
    YearEntry(y, CountIn(cartYears, y), CountIn(orderYears, y))
  }

  /** The chart data of `GET`: one entry per year that occurs in either list,
      ascending. */
  function ChartData(cartYears: seq<int>, orderYears: seq<int>): (r: seq<YearEntry>)
    ensures forall y :: (exists k :: 0 <= k < |r| && r[k].year == y) <==> y in cartYears || y in orderYears
    ensures forall i, j :: 0 <= i < j < |r| ==> r[i].year < r[j].year
    ensures forall k :: 0 <= k < |r| ==>
              r[k].carts == CountIn(cartYears, r[k].year) && r[k].orders == CountIn(orderYears, r[k].year)
    ensures forall k :: 0 <= k < |r| ==> r[k].carts + r[k].orders >= 1
  {
    var years := SortedYears(cartYears + orderYears);
    var r := Seqs.Map(years, (y: int) => Entry(cartYears, orderYears, y));
    EntriesOfYears(cartYears, orderYears, years, r);
    r
  }

  lemma EntriesOfYears(cartYears: seq<int>, orderYears: seq<int>, years: seq<int>, r: seq<YearEntry>)
    requires StrictlyAscending(years)
    requires forall y :: y in years <==> y in cartYears + orderYears
    requires |r| == |years|
    requires forall k :: 0 <= k < |r| ==> r[k] == Entry(cartYears, orderYears, years[k])
    ensures forall y :: (exists k :: 0 <= k < |r| && r[k].year == y) <==> y in cartYears || y in orderYears
    ensures forall i, j :: 0 <= i < j < |r| ==> r[i].year < r[j].year
    ensures forall k :: 0 <= k < |r| ==>
              r[k].carts == CountIn(cartYears, r[k].year) && r[k].orders == CountIn(orderYears, r[k].year)
    ensures forall k :: 0 <= k < |r| ==> r[k].carts + r[k].orders >= 1
  {
    forall y | y in cartYears || y in orderYears
      ensures exists k :: 0 <= k < |r| && r[k].year == y
    {
      assert y in cartYears + orderYears;
      var k :| 0 <= k < |years| && years[k] == y;
      assert r[k].year == y;
    }
    forall y | exists k :: 0 <= k < |r| && r[k].year == y
      ensures y in cartYears || y in orderYears
    {
      var k :| 0 <= k < |r| && r[k].year == y;
      assert years[k] in years;
    }
    forall k | 0 <= k < |r| ensures r[k].carts + r[k].orders >= 1 {
      assert years[k] in years;
      assert years[k] in cartYears + orderYears;
    }
  }

  lemma EmptyChart()
    ensures ChartData([], []) == []
  {
    var none: seq<int> := [];
    assert none + none == [];
  }

  function Years(r: seq<YearEntry>): seq<int> {
    Seqs.Map(r, (e: YearEntry) => e.year)
  }

  function CartsOf(e: YearEntry): int {
    e.carts
  }

  function OrdersOf(e: YearEntry): int {
    e.orders
  }

  /** The counts of a list of entries, added up, are the group sums over
      their years. */
  lemma {:induction false} CountsAreGroupSums(r: seq<YearEntry>, cartYears: seq<int>, orderYears: seq<int>)
    requires forall k :: 0 <= k < |r| ==>
               r[k].carts == CountIn(cartYears, r[k].year) && r[k].orders == CountIn(orderYears, r[k].year)
    ensures Seqs.Sum(r, CartsOf) == Grouping.SumGroups(Years(r), cartYears, Identity, Grouping.One)
    ensures Seqs.Sum(r, OrdersOf) == Grouping.SumGroups(Years(r), orderYears, Identity, Grouping.One)
  {
    if r != [] {
      CountsAreGroupSums(r[1..], cartYears, orderYears);
      assert Years(r)[1..] == Years(r[1..]);
      Grouping.GroupCountIsSum(cartYears, Identity, r[0].year);
      Grouping.GroupCountIsSum(orderYears, Identity, r[0].year);
    }
  }

  /** Every cart and every order is counted in exactly one entry. */
  lemma CountsAddUp(cartYears: seq<int>, orderYears: seq<int>)
    ensures Seqs.Sum(ChartData(cartYears, orderYears), CartsOf) == |cartYears|
    ensures Seqs.Sum(ChartData(cartYears, orderYears), OrdersOf) == |orderYears|
  {
    var r := ChartData(cartYears, orderYears);
    var ys := Years(r);
    assert Grouping.Distinct(ys);
    forall y | y in cartYears || y in orderYears ensures y in ys {
      var k :| 0 <= k < |r| && r[k].year == y;
      assert ys[k] == y;
    }
    CountsAreGroupSums(r, cartYears, orderYears);
    Grouping.SumByKey(ys, cartYears, Identity, Grouping.One);
    Grouping.SumByKey(ys, orderYears, Identity, Grouping.One);
    Grouping.SumOfOnes(cartYears);
    Grouping.SumOfOnes(orderYears);
  }
}
