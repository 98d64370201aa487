/** `OrdersList`: the cards of the undelivered-orders list. */
module OrdersList {
  import opened Wrappers
  import Json
  import Seqs

  datatype Item = Item(productTitle: Option<string>, merchandiseSnapshot: Json.Value)

  datatype Address = Address(fullName: string, county: string)

  datatype OrderDto = OrderDto(
    id: string, orderNumber: Option<string>, totalAmount: real,
    shippingAddress: Option<Address>, items: seq<Item>)

  const Placeholder := Json.Str("/placeholder.jpg")

  /** The first element of a non-empty array. */
  function First(v: Json.Value): Json.Value
    requires Json.IsNonEmptyArray(v)
  {
    v.items[0]
  }

  /** The four sources, in priority order, each taken only when the
      earlier ones are absent. */
  predicate FromProduct(snap: Json.Value) {
    Json.Truthy(snap) && Json.Truthy(Json.Get(snap, "product")) &&
    Json.IsNonEmptyArray(Json.Get(Json.Get(snap, "product"), "images"))
  }

  predicate FromImages(snap: Json.Value) {
    Json.Truthy(snap) && !FromProduct(snap) && Json.IsNonEmptyArray(Json.Get(snap, "images"))
  }

  predicate FromImage(snap: Json.Value) {
    Json.Truthy(snap) && !FromProduct(snap) && !Json.IsNonEmptyArray(Json.Get(snap, "images")) &&
    Json.Get(snap, "image").Str?
  }

  predicate FromMedia(snap: Json.Value) {
    Json.Truthy(snap) && !FromProduct(snap) && !Json.IsNonEmptyArray(Json.Get(snap, "images")) &&
    !Json.Get(snap, "image").Str? && Json.IsNonEmptyArray(Json.Get(snap, "media"))
  }

  /** The image a snapshot selects, or `None` where the source reads a
      property of null or undefined (`images[0].url` with a missing first
      image) and the render throws. */
  function SnapshotImage(snap: Json.Value): (r: Option<Json.Value>)
    ensures FromProduct(snap) ==>
              var first := First(Json.Get(Json.Get(snap, "product"), "images"));
              r == (if Json.IsNullish(first) then None else Some(Json.Get(first, "url")))
    ensures FromImages(snap) ==> r == Some(First(Json.Get(snap, "images")))
    ensures FromImage(snap) ==> r == Some(Json.Get(snap, "image"))
    ensures FromMedia(snap) ==> r == Some(First(Json.Get(snap, "media")))
    ensures !FromProduct(snap) && !FromImages(snap) && !FromImage(snap) && !FromMedia(snap) ==>
              r == Some(Placeholder)
  {
    if !Json.Truthy(snap) then Some(Placeholder)
    else
      var product := Json.Get(snap, "product");
      if Json.Truthy(product) && Json.IsNonEmptyArray(Json.Get(product, "images")) then
        var first := First(Json.Get(product, "images"));
        if Json.IsNullish(first) then None else Some(Json.Get(first, "url"))
      else if Json.IsNonEmptyArray(Json.Get(snap, "images")) then Some(First(Json.Get(snap, "images")))
      else if Json.Get(snap, "image").Str? then Some(Json.Get(snap, "image"))
      else if Json.Truthy(Json.Get(snap, "media")) && Json.IsNonEmptyArray(Json.Get(snap, "media")) then
        Some(First(Json.Get(snap, "media")))
      else Some(Placeholder)
  }

  /** The `let firstImage` reassigned through the chain of `if`s. */
  method PickFirstImage(items: seq<Item>) returns (firstImage: Option<Json.Value>)
    ensures items == [] ==> firstImage == Some(Placeholder)
    ensures items != [] ==> firstImage == SnapshotImage(items[0].merchandiseSnapshot)
  {
    firstImage := Some(Placeholder);
    if items != [] && Json.Truthy(items[0].merchandiseSnapshot) {
      var snap := items[0].merchandiseSnapshot;
      var product := Json.Get(snap, "product");
      if Json.Truthy(product) && Json.IsNonEmptyArray(Json.Get(product, "images")) {
        var first := Json.Get(product, "images").items[0];
        if Json.IsNullish(first) {
          firstImage := None;
        } else {
          firstImage := Some(Json.Get(first, "url"));
        }
      } else if Json.IsNonEmptyArray(Json.Get(snap, "images")) {
        firstImage := Some(Json.Get(snap, "images").items[0]);
      } else if Json.Get(snap, "image").Str? {
        firstImage := Some(Json.Get(snap, "image"));
      } else if Json.Truthy(Json.Get(snap, "media")) && Json.IsNonEmptyArray(Json.Get(snap, "media")) {
        firstImage := Some(Json.Get(snap, "media").items[0]);
      }
    }
  }

  /** The image of an order's card: only the first item is looked at. */
  function CardImage(items: seq<Item>): Option<Json.Value> {
    if items == [] then Some(Placeholder) else SnapshotImage(items[0].merchandiseSnapshot)
  }

  lemma OnlyFirstItemCounts(first: Item, rest: seq<Item>, rest': seq<Item>)
    ensures CardImage([first] + rest) == CardImage([first] + rest')
  {
  }

  /** A snapshot with a product image wins over every other source. */
  lemma ProductImageWins(url: string)
    ensures var image := Json.Obj(map["url" := Json.Str(url)]);
      var snap := Json.Obj(map["product" := Json.Obj(map["images" := Json.Arr([image])]),
                               "images" := Json.Arr([Json.Str("other")]),
                               "image" := Json.Str("another")]);
      SnapshotImage(snap) == Some(Json.Str(url))
  {
  }

  datatype Card = Card(image: Json.Value, alt: string, name: string, county: string, caption: string, href: string)

  datatype View = NoOrders(message: string) | Cards(cards: seq<Card>)

  /** One card, or `None` when its image lookup throws. */
  function ToCard(o: OrderDto): (r: Option<Card>)
    ensures r.None? <==> CardImage(o.items).None?
    ensures r.Some? ==>
              && r.value.image == CardImage(o.items).value
              && r.value.alt == (if o.items == [] then "Product" else o.items[0].productTitle.GetOr("Product"))
              && r.value.name == (if o.shippingAddress.Some? then o.shippingAddress.value.fullName else "Unknown")
              && r.value.county == (if o.shippingAddress.Some? then o.shippingAddress.value.county else "N/A")
              && r.value.caption == "#" + o.orderNumber.GetOr(o.id)
              && r.value.href == "/dashboard/admin/orders/" + o.id
  {
    match CardImage(o.items)
    case None => None
    case Some(image) =>
      var alt := if o.items == [] then "Product" else o.items[0].productTitle.GetOr("Product");
      var name := if o.shippingAddress.Some? then o.shippingAddress.value.fullName else "Unknown";
      var county := if o.shippingAddress.Some? then o.shippingAddress.value.county else "N/A";
      Some(Card(image, alt, name, county, "#" + o.orderNumber.GetOr(o.id), "/dashboard/admin/orders/" + o.id))
  }

  predicate Renders(o: OrderDto) {
    ToCard(o).Some?
  }

  function CardOf(o: OrderDto): Card
    requires Renders(o)
  {
    ToCard(o).value
  }

  /** The rendered list: the empty-state message, or one card per order in
      order; `None` when some card throws. */
  function Render(orders: seq<OrderDto>): (r: Option<View>)
    ensures orders == [] ==> r == Some(NoOrders("No orders for this date."))
    ensures orders != [] && (forall o :: o in orders ==> Renders(o)) ==>
              r.Some? && r.value.Cards? && |r.value.cards| == |orders| &&
              forall k :: 0 <= k < |orders| ==> r.value.cards[k] == CardOf(orders[k])
    ensures (exists o :: o in orders && !Renders(o)) ==> r.None?
  {
    if orders == [] then Some(NoOrders("No orders for this date."))
    else if forall o :: o in orders ==> Renders(o) then
      Some(Cards(seq(|orders|, k requires 0 <= k < |orders| => CardOf(orders[k]))))
    else None
  }
}
