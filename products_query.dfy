/** The catalog listing query: an optional text filter on title and
    description, a sort column and direction, and page arithmetic. The
    product table is an in-memory sequence of rows. */
module ProductsQuery {
  import opened Wrappers
  import Text
  import Paging
  import Sorting
  import Seqs
  import RP = ReshapeProduct

  datatype Params = Params(
    query: Option<string>, reverse: Option<bool>, sortKey: Option<string>,
    page: Option<int>, perPage: Option<int>)

  datatype Direction = Asc | Desc
  datatype OrderBy = OrderBy(field: string, direction: Direction)

  /** The `where` object: no condition, or the OR of the two containment
      conditions. */
  datatype Where = NoFilter | TitleOrDescriptionContains(query: string)

  predicate Satisfies(p: RP.ProductRow, w: Where) {
    match w
    case NoFilter => true
    case TitleOrDescriptionContains(q) =>
      Text.ContainsInsensitive(p.title, q) ||
      (p.description.Some? && Text.ContainsInsensitive(p.description.value, q))
  }

  /** Builds `where` and `orderBy` the way the source does, by assigning to
      them step by step. */
  method BuildQuery(params: Params) returns (where: Where, orderBy: OrderBy)
    ensures params.query.None? || params.query.value == "" ==> where == NoFilter
    ensures params.query.Some? && params.query.value != "" ==>
              where == TitleOrDescriptionContains(params.query.value)
    ensures orderBy.field ==
              if params.sortKey.Some? && params.sortKey.value != "" then params.sortKey.value else "createdAt"
    ensures orderBy.direction == if params.reverse == Some(true) then Asc else Desc
    ensures where == WhereFor(params.query) && orderBy == OrderByFor(params.sortKey, params.reverse)
  {
    where := NoFilter;
    if params.query.Some? && params.query.value != "" {
      where := TitleOrDescriptionContains(params.query.value);
    }
    var direction := if params.reverse == Some(true) then Asc else Desc;
    if params.sortKey.Some? && params.sortKey.value != "" {
      orderBy := OrderBy(params.sortKey.value, direction);
    } else {
      orderBy := OrderBy("createdAt", direction);
    }
  }

  /** The same `where`, as a function of the query. */
  function WhereFor(query: Option<string>): (w: Where)
    ensures w == NoFilter <==> query.None? || query.value == ""
    ensures w.TitleOrDescriptionContains? ==> w.query == query.value
  {
    if query.Some? && query.value != "" then TitleOrDescriptionContains(query.value) else NoFilter
  }

  /** The same `orderBy`, as a function of the sort key and the direction flag. */
  function OrderByFor(sortKey: Option<string>, reverse: Option<bool>): (o: OrderBy)
    ensures o.direction == Asc <==> reverse == Some(true)
    ensures sortKey.None? || sortKey.value == "" ==> o.field == "createdAt"
    ensures sortKey.Some? && sortKey.value != "" ==> o.field == sortKey.value
  {
    OrderBy(if sortKey.Some? && sortKey.value != "" then sortKey.value else "createdAt",
            if reverse == Some(true) then Asc else Desc)
  }

  /** The columns the model can order by; Prisma rejects any other name. */
  predicate KnownColumn(field: string) {
    field == "createdAt" || field == "title" || field == "handle" || field == "id"
  }

  function ColumnLe(field: string): (RP.ProductRow, RP.ProductRow) -> bool {
    if field == "title" then (a: RP.ProductRow, b: RP.ProductRow) => Text.LexLe(a.title, b.title)
    else if field == "handle" then (a: RP.ProductRow, b: RP.ProductRow) => Text.LexLe(a.handle, b.handle)
    else if field == "id" then (a: RP.ProductRow, b: RP.ProductRow) => Text.LexLe(a.id, b.id)
    else (a: RP.ProductRow, b: RP.ProductRow) => a.createdAt <= b.createdAt
  }

  function OrderLe(o: OrderBy): (RP.ProductRow, RP.ProductRow) -> bool {
    var le := ColumnLe(o.field);
    if o.direction == Asc then le else (a: RP.ProductRow, b: RP.ProductRow) => le(b, a)
  }

  lemma OrderLeIsPreorder(o: OrderBy)
    ensures Sorting.TotalPreorder(OrderLe(o))
  {
    forall a: string, b: string { Text.LexLeTotal(a, b); }
    forall a: string, b: string, c: string | Text.LexLe(a, b) && Text.LexLe(b, c) ensures Text.LexLe(a, c) {
      Text.LexLeTransitive(a, b, c);
    }
  }

  /** `perPage` after its default of 12 and the `|| 12` for 0, clamped. */
  function TakeFor(perPage: Option<int>): (t: int)
    ensures perPage.None? || perPage == Some(0) ==> t == 12
    ensures perPage.Some? && 1 <= perPage.value <= 100 ==> t == perPage.value
    ensures perPage.Some? && perPage.value < 0 ==> t == 1
    ensures perPage.Some? && perPage.value > 100 ==> t == 100
  {
    var pp := perPage.GetOr(12);
    Paging.ClampTake(if pp == 0 then 12 else pp)
  }

  datatype ProductsPage = ProductsPage(
    items: seq<RP.ProductDto>, total: nat, page: int, perPage: int, totalPages: nat)

  datatype QueryError = UnknownSortColumn(field: string)

  function Matching(table: seq<RP.ProductRow>, where: Where): (r: seq<RP.ProductRow>)
    ensures forall row :: row in r <==> row in table && Satisfies(row, where)
  {
    Seqs.Filter(table, (p: RP.ProductRow) => Satisfies(p, where))
  }

  /** The matching rows in the requested order. */
  function SortedMatches(table: seq<RP.ProductRow>, where: Where, orderBy: OrderBy): (s: seq<RP.ProductRow>)
    ensures multiset(s) == multiset(Matching(table, where))
    ensures Sorting.Sorted(s, OrderLe(orderBy))
  {
    OrderLeIsPreorder(orderBy);
    Sorting.SortBySorted(Matching(table, where), OrderLe(orderBy));
    Sorting.SortBy(Matching(table, where), OrderLe(orderBy))
  }

  /** The rows `findMany` returns: the matching rows in the requested order,
      `skip` rows skipped and at most `take` kept. */
  function PageRows(table: seq<RP.ProductRow>, where: Where, orderBy: OrderBy, skip: nat, take: nat): (rows: seq<RP.ProductRow>)
    ensures rows == Paging.Window(SortedMatches(table, where, orderBy), skip, take)
    ensures var n := |Matching(table, where)|;
      |rows| == if skip >= n then 0 else if skip + take <= n then take else n - skip
    ensures forall row :: row in rows ==> row in table && Satisfies(row, where)
  {
    var sorted := SortedMatches(table, where, orderBy);
    var rows := Paging.Window(sorted, skip, take);
    assert forall row :: row in rows ==> row in sorted;
    assert forall row :: row in sorted ==> row in multiset(Matching(table, where));
    rows
  }

  /** `getProducts(params)` over the product table. */
  function GetProducts(params: Params, table: seq<RP.ProductRow>): (r: Result<ProductsPage, QueryError>)
    ensures r.Err? <==> !KnownColumn(OrderByFor(params.sortKey, params.reverse).field)
    ensures r.Ok? ==> var pg := r.value;
      && pg.page == params.page.GetOr(1)
      && pg.perPage == TakeFor(params.perPage)
      && pg.total == |Matching(table, WhereFor(params.query))|
      && pg.totalPages == Paging.TotalPages(pg.total, pg.perPage)
      && pg.items == RP.ReshapeRows(PageRows(table, WhereFor(params.query), OrderByFor(params.sortKey, params.reverse),
                                             Paging.SkipFor(pg.page, pg.perPage), pg.perPage))
      && (forall it :: it in pg.items ==>
            exists row :: row in table && Satisfies(row, WhereFor(params.query)) && it == RP.Reshape(row))
  {
    var where := WhereFor(params.query);
    var orderBy := OrderByFor(params.sortKey, params.reverse);
    if !KnownColumn(orderBy.field) then Err(UnknownSortColumn(orderBy.field))
    else
      var take := TakeFor(params.perPage);
      var page := params.page.GetOr(1);
      var skip := Paging.SkipFor(page, take);
      var total := |Matching(table, where)|;
      var rows := PageRows(table, where, orderBy, skip, take);
      RP.ReshapeRowsMembers(rows);
      var items := RP.ReshapeRows(rows);
      Ok(ProductsPage(items, total, page, take, Paging.TotalPages(total, take)))
  }

  /** The rows of a page come in the requested order. */
  lemma PageRowsOrdered(table: seq<RP.ProductRow>, where: Where, orderBy: OrderBy, skip: nat, take: nat)
    ensures Sorting.Sorted(PageRows(table, where, orderBy, skip, take), OrderLe(orderBy))
  {
    var s := SortedMatches(table, where, orderBy);
    var rows := PageRows(table, where, orderBy, skip, take);
    forall i, j | 0 <= i < j < |rows| ensures OrderLe(orderBy)(rows[i], rows[j]) {
      assert rows[i] == s[skip + i] && rows[j] == s[skip + j];
    }
  }

  /** Consecutive pages follow on from each other: page `p + 1` starts with
      the row after the last row of page `p`, so every matching row is on
      exactly one page. */
  lemma ConsecutivePages(table: seq<RP.ProductRow>, where: Where, orderBy: OrderBy, page: int, take: int)
    requires 1 <= page && 1 <= take
    ensures PageRows(table, where, orderBy, Paging.SkipFor(page, take), take) +
            PageRows(table, where, orderBy, Paging.SkipFor(page + 1, take), take) ==
            Paging.Window(SortedMatches(table, where, orderBy), Paging.SkipFor(page, take), 2 * take)
  {
    var skip := Paging.SkipFor(page, take);
    assert (page + 1 - 1) * take == (page - 1) * take + take;
    assert Paging.SkipFor(page + 1, take) == skip + take;
    Paging.WindowsTile(SortedMatches(table, where, orderBy), skip, take, take);
    assert take + take == 2 * take;
  }

  /** Without a query (or with the empty one) every product is counted. */
  lemma NoQueryCountsAll(params: Params, table: seq<RP.ProductRow>)
    requires params.query.None? || params.query == Some("")
    requires KnownColumn(OrderByFor(params.sortKey, params.reverse).field)
    ensures GetProducts(params, table).value.total == |table|
  {
    Seqs.FilterAll(table, (p: RP.ProductRow) => Satisfies(p, WhereFor(params.query)));
  }

  /** A page at or before the first skips nothing, and a page past the end
      is empty. */
  lemma PageBounds(params: Params, table: seq<RP.ProductRow>)
    requires KnownColumn(OrderByFor(params.sortKey, params.reverse).field)
    ensures var take := TakeFor(params.perPage);
      var skip := Paging.SkipFor(params.page.GetOr(1), take);
      && (params.page.GetOr(1) <= 1 ==> skip == 0)
      && (skip >= |table| ==> GetProducts(params, table).value.items == [])
  {
  }
}
