/** `getCollectionSales`: units sold per collection, summed over every order
    item of every variant of every product linked to the collection. */
module CollectionSales {
  import Seqs

  datatype Variant = Variant(orderItemQuantities: seq<int>)

  datatype Product = Product(variants: seq<Variant>)

  /** A collection with the products of its product links, in link order. */
  datatype Collection = Collection(id: string, title: string, products: seq<Product>)

  datatype Sales = Sales(title: string, sold: int)

  function Quantity(q: int): int {
    q
  }

  function VariantSold(v: Variant): int {
    Seqs.Sum(v.orderItemQuantities, Quantity)
  }

  function ProductSold(p: Product): int {
    Seqs.Sum(p.variants, VariantSold)
  }

  /** The units sold of a collection. */
  function Sold(c: Collection): (s: int)
    ensures (forall p, v, q :: p in c.products && v in p.variants && q in v.orderItemQuantities ==> q >= 0) ==> s >= 0
  {
    assert (forall p, v, q :: p in c.products && v in p.variants && q in v.orderItemQuantities ==> q >= 0) ==>
             Seqs.Sum(c.products, ProductSold) >= 0 by {
      if forall p, v, q :: p in c.products && v in p.variants && q in v.orderItemQuantities ==> q >= 0 {
        forall p | p in c.products ensures ProductSold(p) >= 0 {
          forall v | v in p.variants ensures VariantSold(v) >= 0 {
            Seqs.SumNonNegative(v.orderItemQuantities, Quantity);
          }
          Seqs.SumNonNegative(p.variants, VariantSold);
        }
        Seqs.SumNonNegative(c.products, ProductSold);
      }
    }
    Seqs.Sum(c.products, ProductSold)
  }

  /** The three nested `forEach` loops that add up `totalSold`. */
  method TotalSold(c: Collection) returns (totalSold: int)
    ensures totalSold == Sold(c)
  {
    totalSold := 0;
    var i := 0;
    while i < |c.products|
      invariant 0 <= i <= |c.products|
      invariant totalSold == Seqs.Sum(c.products[..i], ProductSold)
    {
      var p := c.products[i];
      var j := 0;
      while j < |p.variants|
        invariant 0 <= j <= |p.variants|
        invariant totalSold == Seqs.Sum(c.products[..i], ProductSold) + Seqs.Sum(p.variants[..j], VariantSold)
      {
        var v := p.variants[j];
        var k := 0;
        while k < |v.orderItemQuantities|
          invariant 0 <= k <= |v.orderItemQuantities|
          invariant totalSold == Seqs.Sum(c.products[..i], ProductSold) + Seqs.Sum(p.variants[..j], VariantSold)
                                 + Seqs.Sum(v.orderItemQuantities[..k], Quantity)
        {
          Seqs.SumSnoc(v.orderItemQuantities, k, Quantity);
          totalSold := totalSold + v.orderItemQuantities[k];
          k := k + 1;
        }
        assert v.orderItemQuantities[..k] == v.orderItemQuantities;
        Seqs.SumSnoc(p.variants, j, VariantSold);
        j := j + 1;
      }
      assert p.variants[..j] == p.variants;
      Seqs.SumSnoc(c.products, i, ProductSold);
      i := i + 1;
    }
    assert c.products[..i] == c.products;
  }

  /** `collections.map(...)`: one entry per collection, in query order. */
  method CollectionSales(collections: seq<Collection>) returns (result: seq<Sales>)
    ensures |result| == |collections|
    ensures forall k :: 0 <= k < |collections| ==>
              result[k] == Sales(collections[k].title, Sold(collections[k]))
  {
    result := [];
    for k := 0 to |collections|
      invariant |result| == k
      invariant forall m :: 0 <= m < k ==> result[m] == Sales(collections[m].title, Sold(collections[m]))
    {
      var sold := TotalSold(collections[k]);
      result := result + [Sales(collections[k].title, sold)];
    }
  }

  /** A product sum in which no variant ever appears in an order item is 0. */
  lemma {:induction false} UnsoldProductsSumToZero(ps: seq<Product>)
    requires forall p, v :: p in ps && v in p.variants ==> v.orderItemQuantities == []
    ensures Seqs.Sum(ps, ProductSold) == 0
  {
    if ps != [] {
      UnsoldVariantsSumToZero(ps[0].variants);
      UnsoldProductsSumToZero(ps[1..]);
    }
  }

  lemma {:induction false} UnsoldVariantsSumToZero(vs: seq<Variant>)
    requires forall v :: v in vs ==> v.orderItemQuantities == []
    ensures Seqs.Sum(vs, VariantSold) == 0
  {
    if vs != [] {
      UnsoldVariantsSumToZero(vs[1..]);
    }
  }

  /** A collection without products, variants or order items has sold 0. */
  lemma NothingSoldIsZero(c: Collection)
    requires forall p, v :: p in c.products && v in p.variants ==> v.orderItemQuantities == []
    ensures Sold(c) == 0
  {
    UnsoldProductsSumToZero(c.products);
  }

  /** Collections are summed independently: a product contributes its whole
      sales to every collection it is linked to. */
  lemma ProductCountsInEveryCollection(c: Collection, before: seq<Product>, p: Product, after: seq<Product>)
    requires c.products == before + [p] + after
    ensures Sold(c) == Seqs.Sum(before, ProductSold) + ProductSold(p) + Seqs.Sum(after, ProductSold)
  {
    Seqs.SumConcat(before + [p], after, ProductSold);
    Seqs.SumConcat(before, [p], ProductSold);
  }
}
