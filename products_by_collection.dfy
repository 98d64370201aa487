/** `getProductsByCollection`: the products of every collection whose handle
    or title matches a loosely given handle. */
module ProductsByCollection {
  import opened Wrappers
  import Json
  import Text
  import Paging
  import Sorting
  import Seqs
  import RP = ReshapeProduct

  datatype Collection = Collection(id: string, handle: string, title: string)

  /** A row of the collection-to-product join table. */
  datatype CollectionProduct = CollectionProduct(collectionId: string, productId: string)

  /** The handle as matched: trimmed, then lower-cased. */
  function Normalize(handle: string): (n: string)
    ensures n == Text.ToLower(Text.Trim(handle))
    ensures |n| <= |handle|
  {
    Text.TrimShape(handle);
    Text.ToLower(Text.Trim(handle))
  }

  /** The `OR` of the three conditions of the collection query. */
  predicate Matches(c: Collection, normalized: string)
    ensures c.handle == normalized ==> Matches(c, normalized)
    ensures Text.ContainsInsensitive(c.title, normalized) ==> Matches(c, normalized)
    ensures !Text.Contains(c.handle, normalized) && !Text.ContainsInsensitive(c.title, normalized) ==>
              !Matches(c, normalized)
  {
    Text.ContainsSelf(c.handle);
    || c.handle == normalized
    || Text.Contains(c.handle, normalized)
    || Text.ContainsInsensitive(c.title, normalized)
  }

  /** The exact-match condition is subsumed by the containment condition. */
  lemma ExactImpliesContains(c: Collection, normalized: string)
    ensures Matches(c, normalized) <==>
              Text.Contains(c.handle, normalized) || Text.ContainsInsensitive(c.title, normalized)
  {
    if c.handle == normalized {
      Text.ContainsSelf(c.handle);
    }
  }

  /** A handle made only of whitespace normalises to "" and matches every
      collection. */
  lemma BlankHandleMatchesAll(handle: string, c: Collection)
    requires forall i :: 0 <= i < |handle| ==> Text.IsWhitespace(handle[i])
    ensures Normalize(handle) == ""
    ensures Matches(c, Normalize(handle))
  {
    Text.ContainsEmpty(c.handle);
  }

  function MatchedIds(collections: seq<Collection>, normalized: string): (ids: seq<string>)
    ensures forall id :: id in ids <==> exists c :: c in collections && Matches(c, normalized) && c.id == id
    ensures (forall c :: c in collections ==> !Matches(c, normalized)) ==> ids == []
  {
    var matched := Seqs.Filter(collections, (c: Collection) => Matches(c, normalized));
    var ids := Seqs.Map(matched, (c: Collection) => c.id);
    assert forall id :: id in ids ==> exists c :: c in matched && c.id == id by {
      forall id | id in ids ensures exists c :: c in matched && c.id == id {
        var k :| 0 <= k < |ids| && ids[k] == id;
        assert matched[k] in matched;
      }
    }
    assert forall c :: c in matched ==> c.id in ids by {
      forall c | c in matched ensures c.id in ids {
        var k :| 0 <= k < |matched| && matched[k] == c;
        assert ids[k] == c.id;
      }
    }
    assert ids != [] ==> ids[0] in ids;
    ids
  }

  predicate Linked(p: RP.ProductRow, links: seq<CollectionProduct>, ids: seq<string>) {
    exists l :: l in links && l.productId == p.id && l.collectionId in ids
  }

  function NewestFirst(a: RP.ProductRow, b: RP.ProductRow): bool {
    a.createdAt >= b.createdAt
  }

  lemma NewestFirstIsPreorder()
    ensures Sorting.TotalPreorder(NewestFirst)
  {
  }

  /** A product the product query selects: available and linked to a
      matched collection. */
  predicate Candidate(p: RP.ProductRow, ids: seq<string>, links: seq<CollectionProduct>) {
    p.availableForSale == Some(true) && Linked(p, links, ids)
  }

  function Candidates(ids: seq<string>, links: seq<CollectionProduct>,
                      products: seq<RP.ProductRow>): (r: seq<RP.ProductRow>)
    ensures forall p :: p in r <==> p in products && Candidate(p, ids, links)
  {
    Seqs.Filter(products, (p: RP.ProductRow) => Candidate(p, ids, links))
  }

  /** The rows hold every candidate a newest-first page of `take` rows
      must hold: all candidates when the page is not full, and otherwise
      every candidate newer than the last row. */
  predicate RowsHoldNewest(rows: seq<RP.ProductRow>, cands: seq<RP.ProductRow>, take: nat) {
    && (forall p :: (p in cands && |rows| < take) ==> p in rows)
    && (forall p :: (p in cands && rows != [] && p.createdAt > rows[|rows| - 1].createdAt) ==> p in rows)
  }

  /** The product query: available, linked to a matched collection, newest
      first, at most `take` rows. The rows are the `take` newest candidates,
      or all of them when there are fewer. */
  function ProductRows(ids: seq<string>, take: nat, links: seq<CollectionProduct>,
                       products: seq<RP.ProductRow>): (rows: seq<RP.ProductRow>)
    ensures |rows| == PageSize(take, |Candidates(ids, links, products)|)
    ensures forall p :: p in rows ==> p in products && Candidate(p, ids, links)
    ensures multiset(rows) <= multiset(Candidates(ids, links, products))
    ensures Sorting.Sorted(rows, NewestFirst)
    ensures RowsHoldNewest(rows, Candidates(ids, links, products), take)
  {
    var candidates := Candidates(ids, links, products);
    var n := PageSize(take, |candidates|);
    NewestPage(candidates, take);
    var rows := Sorting.SortBy(candidates, NewestFirst)[..n];
    assert forall p :: p in rows ==> p in multiset(candidates);
    rows
  }

  /** The page of the `take` newest rows. */
  lemma NewestPage(cands: seq<RP.ProductRow>, take: nat)
    ensures var rows := Sorting.SortBy(cands, NewestFirst)[..PageSize(take, |cands|)];
      && Sorting.Sorted(rows, NewestFirst)
      && multiset(rows) <= multiset(cands)
      && RowsHoldNewest(rows, cands, take)
  {
    var n := PageSize(take, |cands|);
    TakeNewest(cands, n);
    var rows := Sorting.SortBy(cands, NewestFirst)[..n];
    assert |rows| == n;
    forall p | p in cands && |rows| < take ensures p in rows {
      assert n == |cands|;
    }
    forall p | p in cands && rows != [] && p.createdAt > rows[|rows| - 1].createdAt ensures p in rows {
      assert n > 0;
    }
  }

  /** The `n` newest of some rows: newest first, drawn from the rows, and
      holding every row newer than the last of them, or all of them when
      `n` is their number. */
  lemma TakeNewest(cands: seq<RP.ProductRow>, n: nat)
    requires n <= |cands|
    ensures var rows := Sorting.SortBy(cands, NewestFirst)[..n];
      && Sorting.Sorted(rows, NewestFirst)
      && multiset(rows) <= multiset(cands)
      && (n == |cands| ==> forall p :: p in cands ==> p in rows)
      && (forall p :: (p in cands && n > 0 && p.createdAt > rows[n - 1].createdAt) ==> p in rows)
  {
    var sorted := Sorting.SortBy(cands, NewestFirst);
    NewestFirstIsPreorder();
    Sorting.SortBySorted(cands, NewestFirst);
    Sorting.PrefixSorted(sorted, NewestFirst, n);
    Seqs.PrefixMultiset(sorted, n);
    forall p | p in cands ensures p in sorted {
      Sorting.SortByMembers(cands, NewestFirst, p);
    }
    assert n == |sorted| ==> sorted[..n] == sorted;
    forall p | p in cands && n > 0 && p.createdAt > sorted[n - 1].createdAt
      ensures p in sorted[..n]
    {
      Sorting.PrefixHoldsAllBefore(sorted, NewestFirst, n, p);
    }
  }

  /** The item is the reshape of an available product linked to a collection
      that matches. */
  predicate FromMatchedCollection(item: RP.ProductDto, normalized: string, collections: seq<Collection>,
                                  links: seq<CollectionProduct>, products: seq<RP.ProductRow>) {
    exists p, c, l :: p in products && c in collections && l in links &&
      p.availableForSale == Some(true) && Matches(c, normalized) &&
      l.collectionId == c.id && l.productId == p.id && item == RP.Reshape(p)
  }

  /** Every item is the reshape of an available product linked to a
      matching collection. */
  predicate AllFromMatched(r: seq<RP.ProductDto>, normalized: string, collections: seq<Collection>,
                           links: seq<CollectionProduct>, products: seq<RP.ProductRow>) {
    forall k :: 0 <= k < |r| ==> FromMatchedCollection(r[k], normalized, collections, links, products)
  }

  predicate NewestFirstItems(r: seq<RP.ProductDto>) {
    forall i, j :: 0 <= i < j < |r| ==> r[i].createdAt >= r[j].createdAt
  }

  /** No candidate the page must hold is missing: every candidate newer than
      the last item is there, and all of them when the page is not full. */
  predicate HoldsNewest(r: seq<RP.ProductDto>, cands: seq<RP.ProductRow>, take: nat) {
    forall p :: (p in cands && (|r| < take || (r != [] && p.createdAt > r[|r| - 1].createdAt))) ==>
                RP.Reshape(p) in r
  }

  function PageSize(take: nat, n: nat): nat {
    if take <= n then take else n
  }

  /** `getProductsByCollection({ collectionHandle, limit })`. The handle is
      whatever the caller passed: anything but a non-empty string gives []. */
  function ProductsByCollection(collectionHandle: Json.Value, limit: Option<int>,
                                collections: seq<Collection>, links: seq<CollectionProduct>,
                                products: seq<RP.ProductRow>): (r: seq<RP.ProductDto>)
    ensures !(collectionHandle.Str? && collectionHandle.s != "") ==> r == []
    ensures (collectionHandle.Str? &&
             forall c :: c in collections ==> !Matches(c, Normalize(collectionHandle.s))) ==> r == []
    ensures |r| <= Paging.ClampTake(limit.GetOr(8))
    ensures r != [] ==>
              collectionHandle.Str? && AllFromMatched(r, Normalize(collectionHandle.s), collections, links, products)
    ensures NewestFirstItems(r)
    ensures collectionHandle.Str? && collectionHandle.s != "" ==>
              var take := Paging.ClampTake(limit.GetOr(8));
              var cands := Candidates(MatchedIds(collections, Normalize(collectionHandle.s)), links, products);
              |r| == PageSize(take, |cands|) && HoldsNewest(r, cands, take)
  {
    match collectionHandle
    case Str(handle) =>
      if handle == "" then []
      else MatchedProducts(Normalize(handle), Paging.ClampTake(limit.GetOr(8)), collections, links, products)
    case _ => []
  }

  /** The products of the collections matching the normalised handle,
      newest first, at most `take` of them; none when no collection matches. */
  function MatchedProducts(normalized: string, take: nat, collections: seq<Collection>,
                           links: seq<CollectionProduct>, products: seq<RP.ProductRow>): (r: seq<RP.ProductDto>)
    ensures r == RP.ReshapeRows(ProductRows(MatchedIds(collections, normalized), take, links, products))
    ensures (forall c :: c in collections ==> !Matches(c, normalized)) ==> r == []
    ensures |r| == PageSize(take, |Candidates(MatchedIds(collections, normalized), links, products)|)
    ensures AllFromMatched(r, normalized, collections, links, products)
    ensures NewestFirstItems(r)
    ensures HoldsNewest(r, Candidates(MatchedIds(collections, normalized), links, products), take)
  {
    var ids := MatchedIds(collections, normalized);
    MatchedRows(normalized, take, collections, links, products);
    if |ids| == 0 then
      NoIdsNoRows(take, links, products);
      []
    else
      RP.ReshapeRows(ProductRows(ids, take, links, products))
  }

  lemma NoIdsNoRows(take: nat, links: seq<CollectionProduct>, products: seq<RP.ProductRow>)
    ensures ProductRows([], take, links, products) == []
  {
    assert Candidates([], links, products) == [] by {
      assert forall p :: p in products ==> !(p.availableForSale == Some(true) && Linked(p, links, []));
    }
  }

  /** The reshaped product rows of the matched collections: provenance,
      order, and every candidate the page must hold. */
  lemma MatchedRows(normalized: string, take: nat, collections: seq<Collection>,
                    links: seq<CollectionProduct>, products: seq<RP.ProductRow>)
    ensures var ids := MatchedIds(collections, normalized);
      var r := RP.ReshapeRows(ProductRows(ids, take, links, products));
      && AllFromMatched(r, normalized, collections, links, products)
      && NewestFirstItems(r)
      && HoldsNewest(r, Candidates(ids, links, products), take)
  {
    var ids := MatchedIds(collections, normalized);
    var rows := ProductRows(ids, take, links, products);
    ReshapedRows(normalized, ids, collections, links, products, rows);
    ReshapedKeepsNewest(Candidates(ids, links, products), rows, take);
  }

  /** Reshaping keeps every row the page must hold. */
  lemma ReshapedKeepsNewest(cands: seq<RP.ProductRow>, rows: seq<RP.ProductRow>, take: nat)
    requires RowsHoldNewest(rows, cands, take)
    ensures HoldsNewest(RP.ReshapeRows(rows), cands, take)
  {
    var r := RP.ReshapeRows(rows);
    forall p | p in cands && (|r| < take || (r != [] && p.createdAt > r[|r| - 1].createdAt))
      ensures RP.Reshape(p) in r
    {
      if r != [] { assert r[|r| - 1].createdAt == rows[|rows| - 1].createdAt; }
      var k :| 0 <= k < |rows| && rows[k] == p;
      assert r[k] == RP.Reshape(p);
    }
  }

  /** Every reshaped row comes from an available product linked to a
      matching collection, and the rows stay newest first. */
  lemma ReshapedRows(normalized: string, ids: seq<string>, collections: seq<Collection>,
                     links: seq<CollectionProduct>, products: seq<RP.ProductRow>, rows: seq<RP.ProductRow>)
    requires forall id :: id in ids <==> exists c :: c in collections && Matches(c, normalized) && c.id == id
    requires forall p :: p in rows ==> p in products && p.availableForSale == Some(true) && Linked(p, links, ids)
    requires Sorting.Sorted(rows, NewestFirst)
    ensures AllFromMatched(RP.ReshapeRows(rows), normalized, collections, links, products)
    ensures NewestFirstItems(RP.ReshapeRows(rows))
  {
    var items := RP.ReshapeRows(rows);
    forall k | 0 <= k < |rows|
      ensures FromMatchedCollection(items[k], normalized, collections, links, products)
    {
      var p := rows[k];
      assert p in rows;
      var l :| l in links && l.productId == p.id && l.collectionId in ids;
      var c :| c in collections && Matches(c, normalized) && c.id == l.collectionId;
    }
    forall i, j | 0 <= i < j < |rows| ensures items[i].createdAt >= items[j].createdAt {
      assert NewestFirst(rows[i], rows[j]);
    }
  }
}
