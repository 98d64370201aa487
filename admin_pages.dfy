/** What the admin dashboard pages share: the signed-in admin guard and the
    image of a listing's first product. */
module AdminPages {
  import opened Wrappers

  /** What a server page does: redirect, or render its data. */
  datatype Outcome<T> = Redirect(path: string) | Render(data: T)

  datatype User = User(id: string)

  /** The admin guard: no signed-in user is sent to the login page, a role
      other than ADMIN to the unauthorized page; `None` lets the page load. */
  function Guard(user: Option<User>, role: Option<string>): (r: Option<string>)
    ensures user.None? ==> r == Some("dashboard/login")
    ensures user.Some? && role != Some("ADMIN") ==> r == Some("/unauthorized")
    ensures r.None? <==> user.Some? && role == Some("ADMIN")
  {
    if user.None? then Some("dashboard/login")
    else if role != Some("ADMIN") then Some("/unauthorized")
    else None
  }

  /** A guarded page: `load` runs only when both checks pass. */
  function GuardedPage<T>(user: Option<User>, role: Option<string>, load: () -> T): (r: Outcome<T>)
    ensures r.Render? <==> user.Some? && role == Some("ADMIN")
    ensures r.Render? ==> r.data == load()
    ensures r.Redirect? ==> Some(r.path) == Guard(user, role)
  {
    match Guard(user, role)
    case Some(path) => Redirect(path)
    case None => Render(load())
  }

  datatype ImageRef = ImageRef(url: Option<string>)

  datatype ProductImages = ProductImages(images: seq<ImageRef>, featuredImage: Option<ImageRef>)

  /** The thumbnail of a listing: the first image URL of its first product,
      else that product's featured image URL, else none. */
  function FirstProductImage(products: seq<ProductImages>): (r: Option<string>)
    ensures products == [] ==> r.None?
    ensures products != [] && products[0].images != [] && products[0].images[0].url.Some? ==>
              r == products[0].images[0].url
    ensures products != [] && !(products[0].images != [] && products[0].images[0].url.Some?) ==>
              r == (if products[0].featuredImage.Some? then products[0].featuredImage.value.url else None)
  {
    if products == [] then None
    else
      var first := products[0];
      var fromImages := if first.images != [] then first.images[0].url else None;
      var fromFeatured := if first.featuredImage.Some? then first.featuredImage.value.url else None;
      if fromImages.Some? then fromImages else fromFeatured
  }

  /** Only the first product is examined. */
  lemma OnlyFirstProductCounts(first: ProductImages, rest: seq<ProductImages>, rest': seq<ProductImages>)
    ensures FirstProductImage([first] + rest) == FirstProductImage([first] + rest')
  {
  }

  /** A row of the collections and health-topics tables. */
  datatype FormattedListing = FormattedListing(
    id: string, title: string, handle: string, productCount: nat, image: Option<string>, createdAt: int)
}

/** `CollectionsPage`: collection rows for the admin table. */
module AdminCollectionsPage {
  import opened Wrappers
  import Seqs
  import Sorting
  import AdminPages

  /** A collection with its linked products in link order and `_count`. */
  datatype CollectionRow = CollectionRow(
    id: string, title: string, handle: string,
    products: seq<AdminPages.ProductImages>, productCount: Option<nat>, createdAt: int)

  function Format(c: CollectionRow): (r: AdminPages.FormattedListing)
    ensures r.id == c.id && r.title == c.title && r.handle == c.handle && r.createdAt == c.createdAt
    ensures r.productCount == c.productCount.GetOr(0)
    ensures r.image == AdminPages.FirstProductImage(c.products)
  {
    AdminPages.FormattedListing(c.id, c.title, c.handle, c.productCount.GetOr(0),
                                AdminPages.FirstProductImage(c.products), c.createdAt)
  }

  function NewestFirst(a: CollectionRow, b: CollectionRow): bool {
    a.createdAt >= b.createdAt
  }

  /** `formatted`: one row per collection, newest first. */
  function Formatted(collections: seq<CollectionRow>): (r: seq<AdminPages.FormattedListing>)
    ensures |r| == |collections|
    ensures forall i, j :: 0 <= i < j < |r| ==> r[i].createdAt >= r[j].createdAt
    ensures multiset(r) == multiset(Seqs.Map(collections, Format))
  {
    var sorted := Sorting.SortBy(collections, NewestFirst);
    assert Sorting.TotalPreorder(NewestFirst);
    Sorting.SortBySorted(collections, NewestFirst);
    Seqs.MapPermutation(sorted, collections, Format);
    Seqs.Map(sorted, Format)
  }
}

/** The health-topics admin page: topic rows with the same image fallback. */
module AdminHealthTopicsPage {
  import opened Wrappers
  import Seqs
  import Sorting
  import AdminPages

  /** A topic with its related products in link order and `_count`. */
  datatype TopicRow = TopicRow(
    id: string, title: string, handle: string,
    relatedProducts: seq<AdminPages.ProductImages>, relatedCount: Option<nat>, createdAt: int)

  function Format(t: TopicRow): (r: AdminPages.FormattedListing)
    ensures r.id == t.id && r.title == t.title && r.handle == t.handle && r.createdAt == t.createdAt
    ensures r.productCount == t.relatedCount.GetOr(0)
    ensures r.image == AdminPages.FirstProductImage(t.relatedProducts)
  {
    AdminPages.FormattedListing(t.id, t.title, t.handle, t.relatedCount.GetOr(0),
                                AdminPages.FirstProductImage(t.relatedProducts), t.createdAt)
  }

  function NewestFirst(a: TopicRow, b: TopicRow): bool {
    a.createdAt >= b.createdAt
  }

  /** `formatted`: one row per topic, newest first. */
  function Formatted(topics: seq<TopicRow>): (r: seq<AdminPages.FormattedListing>)
    ensures |r| == |topics|
    ensures forall i, j :: 0 <= i < j < |r| ==> r[i].createdAt >= r[j].createdAt
    ensures multiset(r) == multiset(Seqs.Map(topics, Format))
  {
    var sorted := Sorting.SortBy(topics, NewestFirst);
    assert Sorting.TotalPreorder(NewestFirst);
    Sorting.SortBySorted(topics, NewestFirst);
    Seqs.MapPermutation(sorted, topics, Format);
    Seqs.Map(sorted, Format)
  }
}

/** `ProductsPage`: guarded product rows for the admin table. */
module AdminProductsPage {
  import opened Wrappers
  import Seqs
  import Sorting
  import AdminPages

  datatype Variant = Variant(priceAmount: Option<real>, availableForSale: bool)

  datatype ProductRow = ProductRow(
    id: string, title: string, images: seq<AdminPages.ImageRef>, variants: seq<Variant>,
    collectionTitles: seq<string>, createdAt: int)

  datatype FormattedProduct = FormattedProduct(
    id: string, title: string, image: Option<string>, price: real, inStock: bool,
    collections: seq<string>, createdAt: int)

  function Format(p: ProductRow): (r: FormattedProduct)
    ensures r.id == p.id && r.title == p.title && r.createdAt == p.createdAt
    ensures r.image == (if p.images == [] then None else p.images[0].url)
    ensures r.price == (if p.variants == [] then 0.0 else p.variants[0].priceAmount.GetOr(0.0))
    ensures r.inStock <==> exists v :: v in p.variants && v.availableForSale
    ensures r.collections == p.collectionTitles
  {
    var inStock := exists v :: v in p.variants && v.availableForSale;
    FormattedProduct(p.id, p.title, if p.images == [] then None else p.images[0].url,
                     if p.variants == [] then 0.0 else p.variants[0].priceAmount.GetOr(0.0),
                     inStock, p.collectionTitles, p.createdAt)
  }

  /** The price shown is the first variant's, not the cheapest. */
  lemma PriceIsFirstVariant()
    ensures Format(ProductRow("p", "t", [], [Variant(Some(9.0), false), Variant(Some(3.0), true)], [], 0)).price == 9.0
    ensures Format(ProductRow("p", "t", [], [], [], 0)).inStock == false
  {
  }

  function NewestFirst(a: ProductRow, b: ProductRow): bool {
    a.createdAt >= b.createdAt
  }

  /** `formattedProducts`: one row per product, newest first. */
  function FormattedProducts(products: seq<ProductRow>): (r: seq<FormattedProduct>)
    ensures |r| == |products|
    ensures forall i, j :: 0 <= i < j < |r| ==> r[i].createdAt >= r[j].createdAt
    ensures multiset(r) == multiset(Seqs.Map(products, Format))
  {
    var sorted := Sorting.SortBy(products, NewestFirst);
    assert Sorting.TotalPreorder(NewestFirst);
    Sorting.SortBySorted(products, NewestFirst);
    Seqs.MapPermutation(sorted, products, Format);
    Seqs.Map(sorted, Format)
  }

  /** The page: the guard first, the query only for an admin. */
  function ProductsPage(user: Option<AdminPages.User>, role: Option<string>, products: seq<ProductRow>)
    : (r: AdminPages.Outcome<seq<FormattedProduct>>)
    ensures user.None? ==> r == AdminPages.Redirect("dashboard/login")
    ensures user.Some? && role != Some("ADMIN") ==> r == AdminPages.Redirect("/unauthorized")
    ensures user.Some? && role == Some("ADMIN") ==> r == AdminPages.Render(FormattedProducts(products))
  {
    AdminPages.GuardedPage(user, role, () => FormattedProducts(products))
  }
}

/** The orders admin page: guarded order rows. */
module AdminOrdersPage {
  import opened Wrappers
  import Seqs
  import Sorting
  import AdminPages

  datatype Customer = Customer(email: Option<string>)

  datatype ShippingAddress = ShippingAddress(fullName: string, county: string, phone: string, town: string)

  datatype ShippingSummary = ShippingSummary(fullName: string, county: string)

  datatype OrderRow = OrderRow(
    id: string, orderNumber: Option<string>, user: Option<Customer>, totalAmount: Option<real>,
    totalQuantity: int, status: string, paymentStatus: string, createdAt: int,
    shippingAddress: Option<ShippingAddress>)

  datatype FormattedOrder = FormattedOrder(
    id: string, orderNumber: Option<string>, userEmail: string, totalAmount: real, totalQuantity: int,
    status: string, paymentStatus: string, createdAt: int, shippingAddress: Option<ShippingSummary>)

  function Format(o: OrderRow): (r: FormattedOrder)
    ensures r.userEmail == (if o.user.Some? && o.user.value.email.Some? then o.user.value.email.value else "Guest")
    ensures r.totalAmount == o.totalAmount.GetOr(0.0)
    ensures r.shippingAddress.None? <==> o.shippingAddress.None?
    ensures o.shippingAddress.Some? ==>
              r.shippingAddress == Some(ShippingSummary(o.shippingAddress.value.fullName, o.shippingAddress.value.county))
    ensures r.id == o.id && r.orderNumber == o.orderNumber && r.totalQuantity == o.totalQuantity &&
            r.status == o.status && r.paymentStatus == o.paymentStatus && r.createdAt == o.createdAt
  {
    var email := if o.user.Some? then o.user.value.email else None;
    var address := if o.shippingAddress.Some?
      then Some(ShippingSummary(o.shippingAddress.value.fullName, o.shippingAddress.value.county))
      else None;
    FormattedOrder(o.id, o.orderNumber, email.GetOr("Guest"), o.totalAmount.GetOr(0.0), o.totalQuantity,
                   o.status, o.paymentStatus, o.createdAt, address)
  }

  function NewestFirst(a: OrderRow, b: OrderRow): bool {
    a.createdAt >= b.createdAt
  }

  /** `formattedOrders`: one row per order, newest first. */
  function FormattedOrders(orders: seq<OrderRow>): (r: seq<FormattedOrder>)
    ensures |r| == |orders|
    ensures forall i, j :: 0 <= i < j < |r| ==> r[i].createdAt >= r[j].createdAt
    ensures multiset(r) == multiset(Seqs.Map(orders, Format))
  {
    var sorted := Sorting.SortBy(orders, NewestFirst);
    assert Sorting.TotalPreorder(NewestFirst);
    Sorting.SortBySorted(orders, NewestFirst);
    Seqs.MapPermutation(sorted, orders, Format);
    Seqs.Map(sorted, Format)
  }

  function OrdersPage(user: Option<AdminPages.User>, role: Option<string>, orders: seq<OrderRow>)
    : (r: AdminPages.Outcome<seq<FormattedOrder>>)
    ensures user.None? ==> r == AdminPages.Redirect("dashboard/login")
    ensures user.Some? && role != Some("ADMIN") ==> r == AdminPages.Redirect("/unauthorized")
    ensures user.Some? && role == Some("ADMIN") ==> r == AdminPages.Render(FormattedOrders(orders))
  {
    AdminPages.GuardedPage(user, role, () => FormattedOrders(orders))
  }
}

/** The users admin page: user rows with `||` defaults. */
module AdminUsersPage {
  import opened Wrappers
  import Seqs

  datatype UserRow = UserRow(
    id: string, name: Option<string>, email: Option<string>, image: Option<string>,
    role: string, allowed: bool)

  datatype UserDto = UserDto(id: string, avatar: string, status: string, fullName: string, email: string, role: string)

  /** A logical-or default on a nullable string: null and "" both fall back. */
  function OrElse(v: Option<string>, fallback: string): (r: string)
    ensures v.Some? && v.value != "" ==> r == v.value
    ensures v.None? || v.value == "" ==> r == fallback
  {
    if v.Some? && v.value != "" then v.value else fallback
  }

  function ToDto(u: UserRow): (r: UserDto)
    ensures r.id == u.id && r.role == u.role
    ensures r.avatar == OrElse(u.image, "/users/default.png")
    ensures r.fullName == OrElse(u.name, "Unnamed User")
    ensures r.email == OrElse(u.email, "No email")
    ensures r.status == "active"
  {
    UserDto(u.id, OrElse(u.image, "/users/default.png"), "active", OrElse(u.name, "Unnamed User"),
            OrElse(u.email, "No email"), u.role)
  }

  /** The selected `allowed` flag never shows in the row. */
  lemma StatusIgnoresAllowed(u: UserRow)
    ensures ToDto(u.(allowed := false)) == ToDto(u.(allowed := true))
  {
  }

  /** `getData()`: one row per user, in query order. */
  function Users(users: seq<UserRow>): (r: seq<UserDto>)
    ensures |r| == |users|
    ensures forall k :: 0 <= k < |r| ==> r[k] == ToDto(users[k])
  {
    Seqs.Map(users, ToDto)
  }
}
