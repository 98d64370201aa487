/** The cart request schemas. */
module CartSchemas {
  import opened Wrappers
  import Json
  import opened Zod

  const CreateCart: Schema := ZObject([
    Field("userId", ZOptional(ZString([Cuid]))),
    Field("checkoutUrl", ZOptional(ZString([Url])))
  ])

  const AddCartItem: Schema := ZObject([
    Field("variantId", ZString([Uuid])),
    Field("quantity", ZNumber([IsInt, AtLeast(1.0)]))
  ])

  /** A quantity of 0 asks for the item's removal. */
  const UpdateCartItem: Schema := ZObject([
    Field("quantity", ZNumber([IsInt, AtLeast(0.0)]))
  ])

  /** A cart may be created from nothing: both fields are optional, and
      each must be well-formed when given. */
  lemma CreateCartAccepts(v: Json.Value, fmt: Formats)
    ensures Parse(CreateCart, v, fmt).Some? <==>
      v.Obj? &&
      (Json.Get(v, "userId").Undefined? || StringWhere(Json.Get(v, "userId"), fmt.isCuid)) &&
      (Json.Get(v, "checkoutUrl").Undefined? || StringWhere(Json.Get(v, "checkoutUrl"), fmt.isUrl))
  {
    ObjectAccepts(CreateCart, v, fmt);
    MaybeStringField(CreateCart, 0, Cuid, v, fmt);
    MaybeStringField(CreateCart, 1, Url, v, fmt);
  }

  /** An empty request creates a cart with neither field set. */
  lemma EmptyCartRequest(fmt: Formats)
    ensures Parse(CreateCart, Json.Obj(map[]), fmt) == Some(Json.Obj(map[]))
  {
    var e := Json.Obj(map[]);
    assert ParseFields(CreateCart, 2, e, fmt) == Some(map[]);
    assert ParseFields(CreateCart, 1, e, fmt) == Some(map[]);
    assert ParseFields(CreateCart, 0, e, fmt) == Some(map[]);
  }

  /** Adding an item needs a UUID variant and a whole quantity of at least 1. */
  lemma AddCartItemAccepts(v: Json.Value, fmt: Formats)
    ensures Parse(AddCartItem, v, fmt).Some? <==>
      v.Obj? && StringWhere(Json.Get(v, "variantId"), fmt.isUuid) && IntAtLeast(Json.Get(v, "quantity"), 1.0)
  {
    ObjectAccepts(AddCartItem, v, fmt);
    StringField(AddCartItem, 0, Uuid, v, fmt);
    IntWithAccepts(AtLeast(1.0), Json.Get(v, "quantity"), fmt);
  }

  /** Updating needs a whole quantity of at least 0; 0 itself is allowed. */
  lemma UpdateCartItemAccepts(v: Json.Value, fmt: Formats)
    ensures Parse(UpdateCartItem, v, fmt).Some? <==> v.Obj? && IntAtLeast(Json.Get(v, "quantity"), 0.0)
  {
    ObjectAccepts(UpdateCartItem, v, fmt);
    IntWithAccepts(AtLeast(0.0), Json.Get(v, "quantity"), fmt);
  }
}
