/** The conversion of a product row, with its images, variants and SEO
    record, into the storefront's product shape: total, with fallback chains
    for the image fields and the display price. */
module ReshapeProduct {
  import opened Wrappers
  import Seqs

  /** A price value as `toNumber` receives it. For a string the result of
      JavaScript's `Number(s)` is carried along (None when it is NaN): string
      parsing is not part of this model. */
  datatype RawNumber =
    | Missing                                // null or undefined
    | Decimal(d: real)                       // a Prisma Decimal (has toNumber)
    | Number(n: real)
    | NotANumber                             // the number NaN
    | Text(s: string, parsed: Option<real>)

  /** `toNumber(value)`: null, undefined and NaN become undefined. */
  function ToNumber(v: RawNumber): (r: Option<real>)
    ensures v.Missing? || v.NotANumber? ==> r == None
    ensures v.Decimal? ==> r == Some(v.d)
    ensures v.Number? ==> r == Some(v.n)
    ensures v.Text? ==> r == v.parsed
  {
    match v
    case Missing => None
    case Decimal(d) => Some(d)
    case Number(n) => Some(n)
    case NotANumber => None
    case Text(_, parsed) => parsed
  }

  /** A chain of nullish fallbacks: the first present value, else the default. */
  function Coalesce(xs: seq<Option<string>>, d: string): (r: string)
    ensures (forall i :: 0 <= i < |xs| ==> xs[i].None?) ==> r == d
    ensures forall i :: 0 <= i < |xs| && xs[i].Some? && (forall j :: 0 <= j < i ==> xs[j].None?) ==>
                        r == xs[i].value
  {
    if xs == [] then d
    else if xs[0].Some? then xs[0].value
    else Coalesce(xs[1..], d)
  }

  datatype ImageRow = ImageRow(
    id: Option<string>, url: Option<string>, src: Option<string>, path: Option<string>,
    publicUrl: Option<string>, alt: Option<string>, altText: Option<string>)

  datatype ImageDto = ImageDto(id: string, src: string, alt: Option<string>)

  /** `mapImage(i, fallbackAlt)` */
  function MapImage(i: Option<ImageRow>, fallbackAlt: Option<string>): (r: Option<ImageDto>)
    ensures r.None? <==> i.None? || i.value.id.None? || i.value.id.value == ""
    ensures r.Some? ==> r.value.id == i.value.id.value
    ensures r.Some? ==>
              r.value.src == Coalesce([i.value.url, i.value.src, i.value.path, i.value.publicUrl], "")
    ensures r.Some? && i.value.alt.Some? ==> r.value.alt == i.value.alt
    ensures r.Some? && i.value.alt.None? && i.value.altText.Some? ==> r.value.alt == i.value.altText
    ensures r.Some? && i.value.alt.None? && i.value.altText.None? ==> r.value.alt == fallbackAlt
  {
    if i.None? || i.value.id.None? || i.value.id.value == "" then None
    else
      var img := i.value;
      var src := Coalesce([img.url, img.src, img.path, img.publicUrl], "");
      var alt := if img.alt.Some? then img.alt else if img.altText.Some? then img.altText else fallbackAlt;
      Some(ImageDto(img.id.value, src, alt))
  }

  datatype VariantRow = VariantRow(
    id: string, title: string, sku: Option<string>, availableForSale: bool,
    priceAmount: RawNumber, priceCurrency: string, updatedAt: Option<int>)

  datatype VariantDto = VariantDto(
    id: string, title: string, sku: Option<string>, availableForSale: bool,
    price: Option<real>, priceCurrency: string, updatedAt: Option<int>)

  function MapVariant(v: VariantRow): (r: VariantDto)
    ensures r.id == v.id && r.title == v.title && r.sku == v.sku
    ensures r.availableForSale == v.availableForSale && r.priceCurrency == v.priceCurrency
    ensures r.price == ToNumber(v.priceAmount)
  {
    VariantDto(v.id, v.title, v.sku, v.availableForSale, ToNumber(v.priceAmount),
               v.priceCurrency, v.updatedAt)
  }

  datatype SeoRow = SeoRow(title: Option<string>, description: Option<string>)

  datatype ProductRow = ProductRow(
    id: string, handle: string, title: string,
    description: Option<string>, descriptionHtml: Option<string>,
    availableForSale: Option<bool>, tags: Option<seq<string>>,
    minVariantPriceAmount: RawNumber, minVariantPriceCurrency: Option<string>,
    images: Option<seq<ImageRow>>, variants: Option<seq<VariantRow>>,
    seo: Option<SeoRow>, createdAt: int, updatedAt: Option<int>)

  datatype ProductDto = ProductDto(
    id: string, handle: string, title: string,
    description: Option<string>, descriptionHtml: Option<string>,
    availableForSale: bool, tags: seq<string>, price: real, currencyCode: string,
    images: seq<ImageDto>, featuredImage: Option<ImageDto>, variants: seq<VariantDto>,
    seo: Option<SeoRow>, createdAt: int, updatedAt: Option<int>)

  /** The prices the variants define, in variant order. */
  function DefinedPrices(vs: seq<VariantDto>): (r: seq<real>)
    ensures forall x :: x in r <==> exists v :: v in vs && v.price == Some(x)
  {
    Seqs.FilterMap(vs, (v: VariantDto) => v.price)
  }

  /** The least element of a non-empty list. */
  function Min(xs: seq<real>): (m: real)
    requires |xs| > 0
    ensures m in xs
    ensures forall x :: x in xs ==> m <= x
  {
    if |xs| == 1 then xs[0]
    else
      var rest := Min(xs[1..]);
      assert forall x :: x in xs ==> x == xs[0] || x in xs[1..];
      if xs[0] <= rest then xs[0] else rest
  }

  /** The display price and currency before the final defaults: the least
      defined variant price with the first variant's currency; otherwise the
      stored minimum price, with the stored minimum currency. */
  function DisplayPrice(vs: seq<VariantDto>, minAmount: RawNumber, minCurrency: Option<string>): (r: (Option<real>, Option<string>))
    ensures |DefinedPrices(vs)| > 0 ==>
              && r.0.Some? && r.0.value in DefinedPrices(vs)
              && (forall x :: x in DefinedPrices(vs) ==> r.0.value <= x)
              && r.1 == Some(vs[0].priceCurrency)
    ensures |DefinedPrices(vs)| == 0 ==>
              r.0 == ToNumber(minAmount) && r.1 == (if minAmount.Missing? then None else minCurrency)
  {
    var prices := DefinedPrices(vs);
    if |prices| > 0 then (Some(Min(prices)), Some(vs[0].priceCurrency))
    else if !minAmount.Missing? then (ToNumber(minAmount), minCurrency)
    else (None, None)
  }

  /** The two sequential if-blocks that choose `price` and `currency`. */
  method PickDisplayPrice(vs: seq<VariantDto>, minAmount: RawNumber, minCurrency: Option<string>)
    returns (price: Option<real>, currency: Option<string>)
    ensures (price, currency) == DisplayPrice(vs, minAmount, minCurrency)
  {
    price, currency := None, None;
    if |vs| > 0 {
      var validPrices := DefinedPrices(vs);
      if |validPrices| > 0 {
        price := Some(Min(validPrices));
        currency := Some(vs[0].priceCurrency);
      }
    }
    if price.None? && !minAmount.Missing? {
      price := ToNumber(minAmount);
      currency := if minCurrency.Some? then minCurrency else currency;
    }
  }

  /** What the display price means: it is a variant price no greater than
      any other defined variant price, with the currency of `variants[0]`;
      without any defined variant price it is the stored minimum. */
  lemma DisplayPriceRules(vs: seq<VariantDto>, minAmount: RawNumber, minCurrency: Option<string>)
    ensures var (price, currency) := DisplayPrice(vs, minAmount, minCurrency);
      && ((exists v :: v in vs && v.price.Some?) ==>
            && price.Some? && currency == Some(vs[0].priceCurrency)
            && (exists v :: v in vs && v.price == price)
            && (forall v :: v in vs && v.price.Some? ==> price.value <= v.price.value))
      && ((forall v :: v in vs ==> v.price.None?) ==>
            price == ToNumber(minAmount) && currency == (if minAmount.Missing? then None else minCurrency))
  {
    var prices := DefinedPrices(vs);
    if exists v :: v in vs && v.price.Some? {
      var v :| v in vs && v.price.Some?;
      assert v.price.value in prices;
      var m := Min(prices);
      forall w | w in vs && w.price.Some? ensures m <= w.price.value {
        assert w.price.value in prices;
      }
    } else {
      if |prices| > 0 {
        assert prices[0] in prices;
      }
    }
  }

  /** The currency is that of the first variant, not of the cheapest one. */
  lemma CurrencyOfFirstVariant()
    ensures var vs := [VariantDto("a", "A", None, true, Some(10.0), "EUR", None),
                       VariantDto("b", "B", None, true, Some(5.0), "KES", None)];
      DisplayPrice(vs, Missing, None) == (Some(5.0), Some("EUR"))
  {
    var vs := [VariantDto("a", "A", None, true, Some(10.0), "EUR", None),
               VariantDto("b", "B", None, true, Some(5.0), "KES", None)];
    assert DefinedPrices(vs) == [10.0, 5.0];
  }

  /** The mapped images: every image row with an id, in row order. */
  function MappedImages(rows: seq<ImageRow>, title: string): (r: seq<ImageDto>)
    ensures |r| <= |rows|
    ensures forall i :: i in r <==> exists row :: row in rows && MapImage(Some(row), Some(title)) == Some(i)
  {
    Seqs.FilterMap(rows, (i: ImageRow) => MapImage(Some(i), Some(title)))
  }

  /** The product without the `!p` guard. */
  function Reshape(p: ProductRow): (d: ProductDto)
    ensures d.id == p.id && d.handle == p.handle && d.title == p.title && d.description == p.description
    ensures d.availableForSale <==> p.availableForSale == Some(true)
    ensures d.tags == p.tags.GetOr([])
    ensures |d.variants| == |p.variants.GetOr([])|
  {
    var images := MappedImages(p.images.GetOr([]), p.title);
    var variants := Seqs.Map(p.variants.GetOr([]), MapVariant);
    var (price, currency) := DisplayPrice(variants, p.minVariantPriceAmount, p.minVariantPriceCurrency);
    ProductDto(
      p.id, p.handle, p.title, p.description, p.descriptionHtml,
      p.availableForSale == Some(true), p.tags.GetOr([]),
      price.GetOr(0.0), currency.GetOr("USD"),
      images, if |images| > 0 then Some(images[0]) else None, variants,
      if p.seo.Some? then Some(SeoRow(p.seo.value.title, p.seo.value.description)) else None,
      p.createdAt, p.updatedAt)
  }

  /** `reshapeProduct(p)`: null for a missing product, otherwise the reshaped
      product. */
  function ReshapeProduct(p: Option<ProductRow>): (r: Option<ProductDto>)
    ensures r.None? <==> p.None?
  {
    if p.None? then None else Some(Reshape(p.value))
  }

  /** The defaults and fallbacks of the reshaped product. */
  lemma ReshapeDefaults(p: ProductRow)
    ensures var d := Reshape(p);
      && d.id == p.id && d.handle == p.handle && d.title == p.title
      && (p.tags.None? ==> d.tags == [])
      && (d.availableForSale <==> p.availableForSale == Some(true))
      && (d.featuredImage.None? <==> d.images == [])
      && (d.featuredImage.Some? ==> d.featuredImage.value == d.images[0])
      && d.images == MappedImages(p.images.GetOr([]), p.title)
      && (forall i :: i in d.images <==>
            exists row :: row in p.images.GetOr([]) && MapImage(Some(row), Some(p.title)) == Some(i))
      && |d.variants| == |p.variants.GetOr([])|
      && (forall k :: 0 <= k < |d.variants| ==> d.variants[k] == MapVariant(p.variants.GetOr([])[k]))
      && var (price, currency) := DisplayPrice(d.variants, p.minVariantPriceAmount, p.minVariantPriceCurrency);
      && d.price == price.GetOr(0.0) && d.currencyCode == currency.GetOr("USD")
      && ((exists v :: v in d.variants && v.price.Some?) ==>
            && d.currencyCode == d.variants[0].priceCurrency
            && (exists v :: v in d.variants && v.price == Some(d.price))
            && (forall v :: v in d.variants && v.price.Some? ==> d.price <= v.price.value))
      && ((forall v :: v in d.variants ==> v.price.None?) ==>
            && d.price == ToNumber(p.minVariantPriceAmount).GetOr(0.0)
            && d.currencyCode == (if p.minVariantPriceAmount.Missing? then "USD"
                                  else p.minVariantPriceCurrency.GetOr("USD")))
  {
    var variants := Seqs.Map(p.variants.GetOr([]), MapVariant);
    DisplayPriceRules(variants, p.minVariantPriceAmount, p.minVariantPriceCurrency);
  }

  /** Image order is kept: the images of two row lists are the images of
      each, one after the other. */
  lemma ImagesKeepOrder(a: seq<ImageRow>, b: seq<ImageRow>, title: string)
    ensures MappedImages(a + b, title) == MappedImages(a, title) + MappedImages(b, title)
  {
    Seqs.FilterMapConcat(a, b, (i: ImageRow) => MapImage(Some(i), Some(title)));
  }

  /** Reshaping the rows and dropping the nulls keeps every row: a present
      product always reshapes to a product. */
  lemma ReshapeKeepsAll(rows: seq<ProductRow>)
    ensures Seqs.FilterMap(rows, (p: ProductRow) => ReshapeProduct(Some(p))) == Seqs.Map(rows, Reshape)
  {
    Seqs.FilterMapTotal(rows, (p: ProductRow) => ReshapeProduct(Some(p)), Reshape);
  }

  /** The rows reshaped, with the null results dropped. */
  function ReshapeRows(rows: seq<ProductRow>): (items: seq<ProductDto>)
    ensures |items| == |rows|
    ensures forall k :: 0 <= k < |rows| ==> items[k] == Reshape(rows[k])
  {
    ReshapeKeepsAll(rows);
    Seqs.FilterMap(rows, (p: ProductRow) => ReshapeProduct(Some(p)))
  }

  /** An item is in the reshaped rows exactly when it is the reshape of one
      of the rows. */
  lemma ReshapeRowsMembers(rows: seq<ProductRow>)
    ensures forall it :: it in ReshapeRows(rows) <==> exists p :: p in rows && it == Reshape(p)
  {
    var items := ReshapeRows(rows);
    forall it | it in items ensures exists p :: p in rows && it == Reshape(p) {
      var k :| 0 <= k < |items| && items[k] == it;
      assert rows[k] in rows;
    }
    forall p | p in rows ensures Reshape(p) in items {
      var k :| 0 <= k < |rows| && rows[k] == p;
      assert items[k] == Reshape(p);
    }
  }
}
