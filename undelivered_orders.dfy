/** `getOrdersByDate`: the paid but undelivered orders of one day, newest
    first. Instants are milliseconds since the epoch; a day runs from
    midnight to 23:59:59.999 of the same calendar day, counted in UTC. */
module UndeliveredOrders {
  import opened Wrappers
  import Json
  import Seqs
  import Sorting

  const DayMs: int := 86_400_000

  /** `startOfDay(date)` */
  function StartOfDay(t: int): (s: int)
    ensures s <= t < s + DayMs
    ensures s % DayMs == 0
  {
    (t / DayMs) * DayMs
  }

  /** `endOfDay(date)`: the last millisecond of the day. */
  function EndOfDay(t: int): (e: int)
    ensures e == StartOfDay(t) + DayMs - 1
    ensures t <= e
  {
    StartOfDay(t) + DayMs - 1
  }

  datatype Item = Item(productTitle: Option<string>, merchandiseSnapshot: Json.Value)

  datatype Address = Address(fullName: string, county: string)

  datatype OrderRow = OrderRow(
    id: string, orderNumber: Option<string>, paymentStatus: string, status: string,
    createdAt: int, totalAmount: Option<real>, shippingAddress: Option<Address>, items: seq<Item>)

  datatype UndeliveredOrder = UndeliveredOrder(
    id: string, orderNumber: Option<string>, paymentStatus: string, status: string,
    createdAt: int, totalAmount: real, shippingAddress: Option<Address>, items: seq<Item>)

  /** The `where` of the query. */
  predicate Selected(o: OrderRow, start: int, end: int) {
    o.paymentStatus == "CAPTURED" && o.status != "DELIVERED" && start <= o.createdAt <= end
  }

  function NewestFirst(a: OrderRow, b: OrderRow): bool {
    a.createdAt >= b.createdAt
  }

  /** The returned order: only its first item, and its total as a number, 0
      when it has none. */
  function Convert(o: OrderRow): (r: UndeliveredOrder)
    ensures r.totalAmount == o.totalAmount.GetOr(0.0)
    ensures |r.items| <= 1 && (o.items != [] ==> r.items == [o.items[0]])
    ensures r.id == o.id && r.orderNumber == o.orderNumber && r.paymentStatus == o.paymentStatus &&
            r.status == o.status && r.createdAt == o.createdAt && r.shippingAddress == o.shippingAddress
  {
    var items := if |o.items| <= 1 then o.items else o.items[..1];
    UndeliveredOrder(o.id, o.orderNumber, o.paymentStatus, o.status, o.createdAt,
                     o.totalAmount.GetOr(0.0), o.shippingAddress, items)
  }

  /** The orders of the day [start, end], as the query returns them. */
  function SelectedOrders(orders: seq<OrderRow>, start: int, end: int): seq<OrderRow> {
    Seqs.Filter(orders, InDay(start, end))
  }

  function InDay(start: int, end: int): OrderRow -> bool {
    (o: OrderRow) => Selected(o, start, end)
  }

  /** `getOrdersByDate(selectedDate)`; `now` is the clock reading used when no
      date is given. */
  function OrdersByDate(selectedDate: Option<int>, now: int, orders: seq<OrderRow>): (r: seq<UndeliveredOrder>)
    ensures var date := selectedDate.GetOr(now);
      forall o :: o in r ==>
        && o.paymentStatus == "CAPTURED" && o.status != "DELIVERED"
        && StartOfDay(date) <= o.createdAt <= EndOfDay(date)
        && |o.items| <= 1
    ensures forall i, j :: 0 <= i < j < |r| ==> r[i].createdAt >= r[j].createdAt
    ensures var date := selectedDate.GetOr(now);
      multiset(r) == multiset(Seqs.Map(SelectedOrders(orders, StartOfDay(date), EndOfDay(date)), Convert))
  {
    var date := selectedDate.GetOr(now);
    var start, end := StartOfDay(date), EndOfDay(date);
    var chosen := SelectedOrders(orders, start, end);
    var sorted := Sorting.SortBy(chosen, NewestFirst);
    assert Sorting.TotalPreorder(NewestFirst);
    Sorting.SortBySorted(chosen, NewestFirst);
    Seqs.MapPermutation(sorted, chosen, Convert);
    ConvertedOrders(chosen, sorted, start, end);
    Seqs.Map(sorted, Convert)
  }

  /** The converted rows of a newest-first arrangement of the day's orders. */
  lemma ConvertedOrders(chosen: seq<OrderRow>, sorted: seq<OrderRow>, start: int, end: int)
    requires forall o :: o in chosen ==> Selected(o, start, end)
    requires multiset(sorted) == multiset(chosen)
    requires Sorting.Sorted(sorted, NewestFirst)
    ensures forall o :: o in Seqs.Map(sorted, Convert) ==>
              && o.paymentStatus == "CAPTURED" && o.status != "DELIVERED"
              && start <= o.createdAt <= end
              && |o.items| <= 1
    ensures forall i, j :: 0 <= i < j < |sorted| ==>
              Seqs.Map(sorted, Convert)[i].createdAt >= Seqs.Map(sorted, Convert)[j].createdAt
  {
    var r := Seqs.Map(sorted, Convert);
    forall o | o in r
      ensures o.paymentStatus == "CAPTURED" && o.status != "DELIVERED" && start <= o.createdAt <= end
    {
      var k :| 0 <= k < |r| && r[k] == o;
      assert sorted[k] in multiset(chosen);
      assert sorted[k] in chosen;
    }
    forall i, j | 0 <= i < j < |sorted| ensures r[i].createdAt >= r[j].createdAt {
      assert NewestFirst(sorted[i], sorted[j]);
    }
  }

  /** Without a date the selection is today's. */
  lemma NoDateMeansToday(now: int, orders: seq<OrderRow>)
    ensures OrdersByDate(None, now, orders) == OrdersByDate(Some(now), now, orders)
  {
  }

  /** The window is exactly the calendar day of the date. */
  lemma DayWindow(date: int, t: int)
    ensures StartOfDay(date) <= t <= EndOfDay(date) <==> t / DayMs == date / DayMs
  {
    var d := date / DayMs;
    if StartOfDay(date) <= t <= EndOfDay(date) {
      assert d * DayMs <= t < d * DayMs + DayMs;
      DivBetween(t, d);
    }
  }

  lemma DivBetween(t: int, d: int)
    requires d * DayMs <= t < d * DayMs + DayMs
    ensures t / DayMs == d
  {
    var q, r := t / DayMs, t % DayMs;
    assert t == q * DayMs + r && 0 <= r < DayMs;
  }
}
