/** The product request schemas: a product with its variants and images,
    and the partial schema for updates. */
module ProductSchemas {
  import opened Wrappers
  import Json
  import opened Zod

  /** `coerceToString`: the empty string, null and undefined become null,
      anything else its `String(value)` form. */
  function CoerceToString(v: Json.Value, fmt: Formats): (r: Json.Value)
    ensures r.Null? || r.Str?
    ensures r.Null? <==> v == Json.Str("") || Json.IsNullish(v)
    ensures v.Str? && v.s != "" ==> r == v
  {
    if v == Json.Str("") || v.Null? || v.Undefined? then Json.Null
    else Json.Str(StringOf(v, fmt))
  }

  const Variant: Schema := ZObject([
    Field("id", ZOptional(ZString([]))),
    Field("title", ZString([MinLength(1)])),
    Field("availableForSale", ZDefault(ZBoolean, Json.Bool(true))),
    Field("selectedOptions", ZOptional(ZAny)),
    Field("priceAmount", ZPreprocess(CoerceToString, ZOptional(ZNullable(ZString([]))))),
    Field("priceCurrency", ZString([MinLength(1)])),
    Field("sku", ZOptional(ZString([])))
  ])

  const Image: Schema := ZObject([
    Field("id", ZOptional(ZString([]))),
    Field("url", ZString([Url])),
    Field("altText", ZOptional(ZString([]))),
    Field("width", ZOptional(ZNumber([IsInt, Positive]))),
    Field("height", ZOptional(ZNumber([IsInt, Positive])))
  ])

  const CreateProduct: Schema := ZObject([
    Field("handle", ZString([MinLength(1)])),
    Field("title", ZString([MinLength(1)])),
    Field("description", ZOptional(ZNullable(ZString([])))),
    Field("descriptionHtml", ZOptional(ZNullable(ZString([])))),
    Field("availableForSale", ZDefault(ZBoolean, Json.Bool(true))),
    Field("options", ZOptional(ZAny)),
    Field("minVariantPriceAmount", ZNullable(ZNumber([IsInt]))),
    Field("minVariantPriceCurrency", ZOptional(ZString([]))),
    Field("maxVariantPriceAmount", ZNullable(ZNumber([IsInt]))),
    Field("maxVariantPriceCurrency", ZOptional(ZString([]))),
    Field("featuredImageId", ZOptional(ZNullable(ZString([Uuid])))),
    Field("tags", ZDefault(ZArray(ZString([])), Json.Arr([]))),
    Field("seoId", ZOptional(ZNullable(ZString([Uuid])))),
    Field("variants", ZDefault(ZArray(Variant), Json.Arr([]))),
    Field("images", ZDefault(ZArray(Image), Json.Arr([])))
  ])

  const UpdateProduct: Schema := Partial(CreateProduct)

  predicate OptionalString(x: Json.Value) {
    x.Undefined? || x.Str?
  }

  predicate OptionalNullableString(x: Json.Value) {
    x.Undefined? || x.Null? || x.Str?
  }

  /** A flag that may be left out, to take its default. */
  predicate OptionalFlag(x: Json.Value) {
    x.Undefined? || x.Bool?
  }

  /** An integer or null, which must be given. */
  predicate NullableInt(x: Json.Value) {
    x.Null? || (x.Num? && IsInteger(x.n))
  }

  predicate OptionalNullableUuid(x: Json.Value, fmt: Formats) {
    x.Undefined? || x.Null? || StringWhere(x, fmt.isUuid)
  }

  predicate OptionalPositiveInt(x: Json.Value) {
    x.Undefined? || (x.Num? && IsInteger(x.n) && x.n > 0.0)
  }

  /** A variant needs a title and a currency; its price amount may be
      anything, since it is coerced to a string or null first. */
  predicate VariantValid(v: Json.Value, fmt: Formats) {
    v.Obj? &&
    OptionalString(Json.Get(v, "id")) &&
    NonEmptyString(Json.Get(v, "title")) &&
    OptionalFlag(Json.Get(v, "availableForSale")) &&
    NonEmptyString(Json.Get(v, "priceCurrency")) &&
    OptionalString(Json.Get(v, "sku"))
  }

  lemma VariantAccepts(v: Json.Value, fmt: Formats)
    ensures Parse(Variant, v, fmt).Some? <==> VariantValid(v, fmt)
  {
    VariantShape(v, fmt);
    VariantEachField(v, fmt);
  }

  /** The variant schema's fields, one by one. */
  predicate VariantFields(v: Json.Value, fmt: Formats) {
    FieldAccepts(Variant, 0, v, fmt) && FieldAccepts(Variant, 1, v, fmt) &&
    FieldAccepts(Variant, 2, v, fmt) && FieldAccepts(Variant, 3, v, fmt) &&
    FieldAccepts(Variant, 4, v, fmt) && FieldAccepts(Variant, 5, v, fmt) &&
    FieldAccepts(Variant, 6, v, fmt)
  }

  lemma VariantShape(v: Json.Value, fmt: Formats)
    ensures Parse(Variant, v, fmt).Some? <==> v.Obj? && VariantFields(v, fmt)
  {
    ObjectAccepts(Variant, v, fmt);
  }

  lemma VariantEachField(v: Json.Value, fmt: Formats)
    ensures FieldAccepts(Variant, 0, v, fmt) <==> OptionalString(Json.Get(v, "id"))
    ensures FieldAccepts(Variant, 1, v, fmt) <==> NonEmptyString(Json.Get(v, "title"))
    ensures FieldAccepts(Variant, 2, v, fmt) <==> OptionalFlag(Json.Get(v, "availableForSale"))
    ensures FieldAccepts(Variant, 3, v, fmt)
    ensures FieldAccepts(Variant, 4, v, fmt)
    ensures FieldAccepts(Variant, 5, v, fmt) <==> NonEmptyString(Json.Get(v, "priceCurrency"))
    ensures FieldAccepts(Variant, 6, v, fmt) <==> OptionalString(Json.Get(v, "sku"))
  {
    MaybePlainField(Variant, 0, v, fmt);
    StringField(Variant, 1, MinLength(1), v, fmt);
    DefaultBoolField(Variant, 2, true, v, fmt);
    MaybeAnyField(Variant, 3, v, fmt);
    PriceAmountAccepted(Json.Get(v, "priceAmount"), fmt);
    StringField(Variant, 5, MinLength(1), v, fmt);
    MaybePlainField(Variant, 6, v, fmt);
  }

  /** Whatever is sent as a price amount, its coerced form is null or a
      string, which the nullable optional string accepts. */
  lemma PriceAmountAccepted(x: Json.Value, fmt: Formats)
    ensures Parse(Variant.fields[4].schema, x, fmt).Some?
  {
    var y := CoerceToString(x, fmt);
    assert Parse(Variant.fields[4].schema, x, fmt) == Parse(ZOptional(ZNullable(ZString([]))), y, fmt);
    assert Parse(ZNullable(ZString([])), y, fmt).Some?;
  }

  /** A parsed variant always has a price amount: null when none, or an
      empty one, was sent, otherwise the string form of what was sent. */
  lemma VariantPriceAmount(v: Json.Value, fmt: Formats)
    requires Parse(Variant, v, fmt).Some?
    ensures var out := Parse(Variant, v, fmt).value;
      out.Obj? && "priceAmount" in out.fields &&
      out.fields["priceAmount"] == CoerceToString(Json.Get(v, "priceAmount"), fmt)
  {
    assert UniqueKey(Variant.fields, 4);
    ObjectOutput(Variant, v, fmt, 4);
  }

  /** A variant sent without a sale flag is for sale. */
  lemma VariantForSaleByDefault(v: Json.Value, fmt: Formats)
    requires Parse(Variant, v, fmt).Some? && Json.Get(v, "availableForSale").Undefined?
    ensures var out := Parse(Variant, v, fmt).value;
      out.Obj? && "availableForSale" in out.fields && out.fields["availableForSale"] == Json.Bool(true)
  {
    assert UniqueKey(Variant.fields, 2);
    ObjectOutput(Variant, v, fmt, 2);
  }

  /** An image needs a URL; its width and height, when given, are positive
      integers. */
  predicate ImageValid(v: Json.Value, fmt: Formats) {
    v.Obj? &&
    OptionalString(Json.Get(v, "id")) &&
    StringWhere(Json.Get(v, "url"), fmt.isUrl) &&
    OptionalString(Json.Get(v, "altText")) &&
    OptionalPositiveInt(Json.Get(v, "width")) &&
    OptionalPositiveInt(Json.Get(v, "height"))
  }

  lemma ImageAccepts(v: Json.Value, fmt: Formats)
    ensures Parse(Image, v, fmt).Some? <==> ImageValid(v, fmt)
  {
    ImageShape(v, fmt);
    ImageEachField(v, fmt);
  }

  /** The image schema's fields, one by one. */
  predicate ImageFields(v: Json.Value, fmt: Formats) {
    FieldAccepts(Image, 0, v, fmt) && FieldAccepts(Image, 1, v, fmt) &&
    FieldAccepts(Image, 2, v, fmt) && FieldAccepts(Image, 3, v, fmt) &&
    FieldAccepts(Image, 4, v, fmt)
  }

  lemma ImageShape(v: Json.Value, fmt: Formats)
    ensures Parse(Image, v, fmt).Some? <==> v.Obj? && ImageFields(v, fmt)
  {
    ObjectAccepts(Image, v, fmt);
  }

  lemma ImageEachField(v: Json.Value, fmt: Formats)
    ensures FieldAccepts(Image, 0, v, fmt) <==> OptionalString(Json.Get(v, "id"))
    ensures FieldAccepts(Image, 1, v, fmt) <==> StringWhere(Json.Get(v, "url"), fmt.isUrl)
    ensures FieldAccepts(Image, 2, v, fmt) <==> OptionalString(Json.Get(v, "altText"))
    ensures FieldAccepts(Image, 3, v, fmt) <==> OptionalPositiveInt(Json.Get(v, "width"))
    ensures FieldAccepts(Image, 4, v, fmt) <==> OptionalPositiveInt(Json.Get(v, "height"))
  {
    MaybePlainField(Image, 0, v, fmt);
    StringField(Image, 1, Url, v, fmt);
    MaybePlainField(Image, 2, v, fmt);
    MaybeField(Image, 3, ZNumber([IsInt, Positive]), v, fmt);
    MaybeField(Image, 4, ZNumber([IsInt, Positive]), v, fmt);
    IntWithAccepts(Positive, Json.Get(v, "width"), fmt);
    IntWithAccepts(Positive, Json.Get(v, "height"), fmt);
  }

  /** A new product needs a handle and a title. */
  lemma HandleAndTitleRequired(v: Json.Value, fmt: Formats)
    requires Parse(CreateProduct, v, fmt).Some?
    ensures v.Obj? && NonEmptyString(Json.Get(v, "handle")) && NonEmptyString(Json.Get(v, "title"))
  {
    FieldRequired(CreateProduct, 0, v, fmt);
    StringField(CreateProduct, 0, MinLength(1), v, fmt);
    FieldRequired(CreateProduct, 1, v, fmt);
    StringField(CreateProduct, 1, MinLength(1), v, fmt);
  }

  /** A new product must state both price amounts, as integers or null:
      unlike the other optional fields they cannot be left out. */
  lemma PriceAmountsRequired(v: Json.Value, fmt: Formats)
    requires Parse(CreateProduct, v, fmt).Some?
    ensures NullableInt(Json.Get(v, "minVariantPriceAmount"))
    ensures NullableInt(Json.Get(v, "maxVariantPriceAmount"))
  {
    FieldRequired(CreateProduct, 6, v, fmt);
    NullableField(CreateProduct, 6, ZNumber([IsInt]), v, fmt);
    FieldRequired(CreateProduct, 8, v, fmt);
    NullableField(CreateProduct, 8, ZNumber([IsInt]), v, fmt);
    IntAccepts(Json.Get(v, "minVariantPriceAmount"), fmt);
    IntAccepts(Json.Get(v, "maxVariantPriceAmount"), fmt);
  }

  /** Every variant of an accepted product is a valid variant. */
  lemma VariantsValid(v: Json.Value, fmt: Formats)
    requires Parse(CreateProduct, v, fmt).Some?
    ensures var x := Json.Get(v, "variants");
      x.Undefined? || (x.Arr? && forall i :: 0 <= i < |x.items| ==> VariantValid(x.items[i], fmt))
  {
    FieldRequired(CreateProduct, 13, v, fmt);
    DefaultArrayField(CreateProduct, 13, Variant, v, fmt);
    var x := Json.Get(v, "variants");
    if x.Arr? {
      forall i | 0 <= i < |x.items|
        ensures VariantValid(x.items[i], fmt)
      {
        VariantAccepts(x.items[i], fmt);
      }
    }
  }

  /** A product sent without a sale flag is for sale. */
  lemma ForSaleByDefault(v: Json.Value, fmt: Formats)
    requires Parse(CreateProduct, v, fmt).Some? && Json.Get(v, "availableForSale").Undefined?
    ensures var out := Parse(CreateProduct, v, fmt).value;
      out.Obj? && "availableForSale" in out.fields && out.fields["availableForSale"] == Json.Bool(true)
  {
    assert UniqueKey(CreateProduct.fields, 4);
    ObjectOutput(CreateProduct, v, fmt, 4);
  }

  /** A product sent without tags gets an empty tag list. */
  lemma NoTagsByDefault(v: Json.Value, fmt: Formats)
    requires Parse(CreateProduct, v, fmt).Some? && Json.Get(v, "tags").Undefined?
    ensures var out := Parse(CreateProduct, v, fmt).value;
      out.Obj? && "tags" in out.fields && out.fields["tags"] == Json.Arr([])
  {
    assert UniqueKey(CreateProduct.fields, 11);
    ObjectOutput(CreateProduct, v, fmt, 11);
  }

  /** A product sent without variants or images gets empty lists of both. */
  lemma NoVariantsOrImagesByDefault(v: Json.Value, fmt: Formats)
    requires Parse(CreateProduct, v, fmt).Some?
    requires Json.Get(v, "variants").Undefined? && Json.Get(v, "images").Undefined?
    ensures var out := Parse(CreateProduct, v, fmt).value;
      && out.Obj? && "variants" in out.fields && out.fields["variants"] == Json.Arr([])
      && "images" in out.fields && out.fields["images"] == Json.Arr([])
  {
    assert UniqueKey(CreateProduct.fields, 13);
    ObjectOutput(CreateProduct, v, fmt, 13);
    assert UniqueKey(CreateProduct.fields, 14);
    ObjectOutput(CreateProduct, v, fmt, 14);
  }

  /** An update accepts every valid product and the empty object, so an
      update may leave out the price amounts a new product needs. */
  lemma UpdateProductAccepts(v: Json.Value, fmt: Formats)
    ensures Parse(CreateProduct, v, fmt).Some? ==> Parse(UpdateProduct, v, fmt).Some?
    ensures Parse(UpdateProduct, Json.Obj(map[]), fmt).Some?
    ensures !Parse(CreateProduct, Json.Obj(map[]), fmt).Some?
  {
    PartialAccepts(CreateProduct, v, fmt);
    PriceAmountsRequiredEmpty(fmt);
  }

  lemma PriceAmountsRequiredEmpty(fmt: Formats)
    ensures !Parse(CreateProduct, Json.Obj(map[]), fmt).Some?
  {
    if Parse(CreateProduct, Json.Obj(map[]), fmt).Some? {
      PriceAmountsRequired(Json.Obj(map[]), fmt);
      assert false;
    }
  }
}
