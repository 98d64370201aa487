/** `getOrderChartData`: order totals grouped by month. The month is given
    as an index 0..11; `year` is carried only to show that it is ignored.
    Amounts are whole numbers. */
module OrderChart {
  import opened Wrappers
  import Seqs
  import Grouping

  datatype Order = Order(year: int, month: int, status: string, totalAmount: Option<int>)

  datatype MonthGroup = MonthGroup(month: int, total: int, successful: int)

  function MonthOf(o: Order): int {
    o.month
  }

  /** The order's amount as a number, 0 when it has none. */
  function Amount(o: Order): int {
    o.totalAmount.GetOr(0)
  }

  function DeliveredAmount(o: Order): int {
    if o.status == "DELIVERED" then Amount(o) else 0
  }

  /** The group of month `m` after scanning `orders`. */
  function Group(orders: seq<Order>, m: int): (g: MonthGroup)
    ensures g.month == m
    ensures (forall o :: o in orders ==> o.month != m) ==> g.total == 0 && g.successful == 0
  {
    assert (forall o :: o in orders ==> MonthOf(o) != m) ==>
             Grouping.GroupSum(orders, MonthOf, Amount, m) == 0 &&
             Grouping.GroupSum(orders, MonthOf, DeliveredAmount, m) == 0 by {
      if forall o :: o in orders ==> MonthOf(o) != m {
        Grouping.GroupSumAbsent(orders, MonthOf, Amount, m);
        Grouping.GroupSumAbsent(orders, MonthOf, DeliveredAmount, m);
      }
    }
    MonthGroup(m, Grouping.GroupSum(orders, MonthOf, Amount, m),
               Grouping.GroupSum(orders, MonthOf, DeliveredAmount, m))
  }

  function Months(orders: seq<Order>): seq<int> {
    Grouping.FirstAppearance(orders, MonthOf)
  }

  /** The chart's data: one group per month, in order of first appearance. */
  function ChartData(orders: seq<Order>): (r: seq<MonthGroup>)
    ensures |r| == |Months(orders)|
    ensures forall k :: 0 <= k < |r| ==> r[k] == Group(orders, Months(orders)[k])
  {
    Seqs.Map(Months(orders), (m: int) => Group(orders, m))
  }

  /** The accumulator invariant: `acc` holds exactly the months in `keys`,
      each with its group over `orders`. */
  ghost predicate Accumulated(acc: map<int, MonthGroup>, keys: seq<int>, orders: seq<Order>) {
    && keys == Months(orders)
    && (forall m :: m in acc <==> m in keys)
    && (forall m :: m in keys ==> acc[m] == Group(orders, m))
  }

  /** One step of the `reduce` callback. */
  method AddOrder(acc: map<int, MonthGroup>, keys: seq<int>, orders: seq<Order>, order: Order)
    returns (acc': map<int, MonthGroup>, keys': seq<int>)
    requires Accumulated(acc, keys, orders)
    ensures Accumulated(acc', keys', orders + [order])
  {
    Grouping.FirstAppearanceSnoc(orders, order, MonthOf);
    acc', keys' := acc, keys;
    var month := order.month;
    if month !in acc' {
      EmptyGroup(orders, month);
      acc' := acc'[month := MonthGroup(month, 0, 0)];
      keys' := keys' + [month];
    } else {
      LookupGroup(acc, keys, orders, month);
    }
    var amount := if order.totalAmount.Some? then order.totalAmount.value else 0;
    var g := acc'[month];
    ghost var start := g;
    g := g.(total := g.total + amount);
    if order.status == "DELIVERED" {
      g := g.(successful := g.successful + amount);
    }
    assert g == Counted(start, order);
    GroupSnoc(orders, order, month);
    acc' := acc'[month := g];
    forall m | m in keys' ensures acc'[m] == Group(orders + [order], m) {
      if m != month {
        assert m in keys && acc'[m] == acc[m];
        GroupSnoc(orders, order, m);
      }
    }
  }

  lemma LookupGroup(acc: map<int, MonthGroup>, keys: seq<int>, orders: seq<Order>, m: int)
    requires Accumulated(acc, keys, orders) && m in acc
    ensures acc[m] == Group(orders, m)
  {
  }

  /** A month no order has yet starts from zero. */
  lemma EmptyGroup(orders: seq<Order>, m: int)
    requires m !in Months(orders)
    ensures Group(orders, m) == MonthGroup(m, 0, 0)
  {
    Grouping.GroupSumAbsent(orders, MonthOf, Amount, m);
    Grouping.GroupSumAbsent(orders, MonthOf, DeliveredAmount, m);
  }

  /** A group with one more order of its month counted. */
  function Counted(g: MonthGroup, o: Order): MonthGroup {
    MonthGroup(g.month, g.total + Amount(o), g.successful + DeliveredAmount(o))
  }

  /** One more order changes only its own month's group. */
  lemma GroupSnoc(orders: seq<Order>, order: Order, m: int)
    ensures Group(orders + [order], m) ==
              if order.month == m then Counted(Group(orders, m), order) else Group(orders, m)
  {
    Grouping.GroupSumSnoc(orders, order, MonthOf, Amount, m);
    Grouping.GroupSumSnoc(orders, order, MonthOf, DeliveredAmount, m);
  }

  /** `getOrderChartData()`: the `reduce` that fills the accumulator
      dictionary, then `Object.values` in insertion order. */
  method GetOrderChartData(orders: seq<Order>) returns (groups: seq<MonthGroup>)
    ensures groups == ChartData(orders)
  {
    var acc: map<int, MonthGroup> := map[];
    var keys: seq<int> := [];
    for i := 0 to |orders|
      invariant Accumulated(acc, keys, orders[..i])
    {
      assert orders[..i + 1] == orders[..i] + [orders[i]];
      acc, keys := AddOrder(acc, keys, orders[..i], orders[i]);
    }
    assert orders[..|orders|] == orders;
    assert forall j :: 0 <= j < |keys| ==> keys[j] in keys;
    groups := Values(acc, keys);
    assert forall j :: 0 <= j < |groups| ==> groups[j] == Group(orders, keys[j]);
  }

  /** `Object.values(acc)`: the groups in the order their months were added. */
  method Values(acc: map<int, MonthGroup>, keys: seq<int>) returns (groups: seq<MonthGroup>)
    requires forall j :: 0 <= j < |keys| ==> keys[j] in acc
    ensures |groups| == |keys|
    ensures forall j :: 0 <= j < |keys| ==> groups[j] == acc[keys[j]]
  {
    groups := [];
    for k := 0 to |keys|
      invariant |groups| == k
      invariant forall j :: 0 <= j < k ==> groups[j] == acc[keys[j]]
    {
      groups := groups + [acc[keys[k]]];
    }
  }

  /** Months are distinct, and exactly the months of the orders. */
  lemma MonthsAreDistinct(orders: seq<Order>)
    ensures Grouping.Distinct(Months(orders))
    ensures forall m :: m in Months(orders) <==> exists o :: o in orders && o.month == m
  {
  }

  /** With non-negative amounts, the delivered sum of a month is at most its
      total. */
  lemma SuccessfulWithinTotal(orders: seq<Order>, m: int)
    requires forall o :: o in orders ==> Amount(o) >= 0
    ensures Group(orders, m).successful <= Group(orders, m).total
  {
    var kept := Seqs.Filter(orders, Grouping.KeyIs(MonthOf, m));
    ClampedDelivered(kept);
  }

  lemma {:induction false} ClampedDelivered(xs: seq<Order>)
    requires forall o :: o in xs ==> Amount(o) >= 0
    ensures Seqs.Sum(xs, DeliveredAmount) <= Seqs.Sum(xs, Amount)
  {
    if xs != [] {
      assert xs[0] in xs;
      assert forall o :: o in xs[1..] ==> o in xs;
      ClampedDelivered(xs[1..]);
    }
  }

  /** Two orders of the same month land in one group, whatever their
      years. */
  lemma YearIsIgnored(a: Order, b: Order)
    requires a.month == b.month && a.year != b.year
    ensures ChartData([a, b]) ==
              [MonthGroup(a.month, Amount(a) + Amount(b), DeliveredAmount(a) + DeliveredAmount(b))]
  {
    PairMonths(a, b);
    PairGroup(a, b);
    var r := ChartData([a, b]);
    assert |r| == 1 && r[0] == Group([a, b], a.month);
  }

  lemma PairMonths(a: Order, b: Order)
    requires a.month == b.month
    ensures Months([a, b]) == [a.month]
  {
    var none: seq<Order> := [];
    assert [a] == none + [a];
    assert [a, b] == [a] + [b];
    Grouping.FirstAppearanceSnoc(none, a, MonthOf);
    Grouping.FirstAppearanceSnoc([a], b, MonthOf);
  }

  lemma PairGroup(a: Order, b: Order)
    requires a.month == b.month
    ensures Group([a, b], a.month) ==
              MonthGroup(a.month, Amount(a) + Amount(b), DeliveredAmount(a) + DeliveredAmount(b))
  {
    PairSum(a, b, Amount);
    PairSum(a, b, DeliveredAmount);
  }

  lemma PairSum(a: Order, b: Order, w: Order -> int)
    requires a.month == b.month
    ensures Grouping.GroupSum([a, b], MonthOf, w, a.month) == w(a) + w(b)
  {
    var none: seq<Order> := [];
    assert [a] == none + [a];
    assert [a, b] == [a] + [b];
    Grouping.GroupSumAbsent(none, MonthOf, w, a.month);
    Grouping.GroupSumSnoc(none, a, MonthOf, w, a.month);
    Grouping.GroupSumSnoc([a], b, MonthOf, w, a.month);
  }

  function TotalOf(g: MonthGroup): int {
    g.total
  }

  lemma {:induction false} TotalsAreGroupSums(orders: seq<Order>, ms: seq<int>)
    ensures Seqs.Sum(Seqs.Map(ms, (m: int) => Group(orders, m)), TotalOf) ==
            Grouping.SumGroups(ms, orders, MonthOf, Amount)
  {
    if ms != [] {
      var gs := Seqs.Map(ms, (m: int) => Group(orders, m));
      assert gs[1..] == Seqs.Map(ms[1..], (m: int) => Group(orders, m));
      TotalsAreGroupSums(orders, ms[1..]);
    }
  }

  /** The month totals add up to the sum of all order amounts. */
  lemma TotalsAddUp(orders: seq<Order>)
    ensures Seqs.Sum(ChartData(orders), TotalOf) == Seqs.Sum(orders, Amount)
  {
    TotalsAreGroupSums(orders, Months(orders));
    Grouping.SumByKey(Months(orders), orders, MonthOf, Amount);
  }
}
