/** `OrdersPage`: a customer's orders mapped to the client structure. */
module OrdersPage {
  import opened Wrappers
  import Text
  import Seqs

  datatype OrderItem = OrderItem(
    productTitle: Option<string>, variantTitle: Option<string>,
    quantity: int, lineTotalAmount: real, image: Option<string>)

  datatype Order = Order(id: string, createdAt: int, totalAmount: real, status: string, items: Option<seq<OrderItem>>)

  datatype ClientItem = ClientItem(productTitle: string, variantTitle: string, quantity: int,
                                   lineTotalAmount: real, image: string)

  datatype ClientOrder = ClientOrder(id: string, createdAt: int, totalAmount: real, status: string,
                                     items: seq<ClientItem>)

  function ToClientItem(it: OrderItem): (r: ClientItem)
    ensures r.productTitle == it.productTitle.GetOr("Product")
    ensures r.variantTitle == it.variantTitle.GetOr("")
    ensures r.image == it.image.GetOr("/1.webp")
    ensures r.quantity == it.quantity && r.lineTotalAmount == it.lineTotalAmount
  {
    ClientItem(it.productTitle.GetOr("Product"), it.variantTitle.GetOr(""), it.quantity,
               it.lineTotalAmount, it.image.GetOr("/1.webp"))
  }

  /** The client status: "past" for an upper-cased DELIVERED, "active" otherwise. */
  function ClientStatus(status: string): (r: string)
    ensures r == "past" || r == "active"
    ensures r == "past" <==> Text.ToUpper(status) == "DELIVERED"
  {
    if Text.ToUpper(status) == "DELIVERED" then "past" else "active"
  }

  /** The status test ignores the case of ASCII letters. */
  lemma LowerCaseDeliveredIsPast()
    ensures ClientStatus("delivered") == "past" && ClientStatus("Delivered") == "past"
    ensures ClientStatus("SHIPPED") == "active"
  {
    assert Text.ToUpper("delivered") == "DELIVERED";
    assert Text.ToUpper("Delivered") == "DELIVERED";
    assert Text.ToUpper("SHIPPED")[0] == 'S';
  }

  function ToClientOrder(o: Order): (r: ClientOrder)
    ensures r.id == o.id && r.createdAt == o.createdAt && r.totalAmount == o.totalAmount
    ensures r.status == ClientStatus(o.status)
    ensures o.items.None? ==> r.items == []
    ensures o.items.Some? ==> |r.items| == |o.items.value|
    ensures o.items.Some? ==>
              forall k :: 0 <= k < |r.items| ==> r.items[k] == ToClientItem(o.items.value[k])
  {
    ClientOrder(o.id, o.createdAt, o.totalAmount, ClientStatus(o.status),
                Seqs.Map(o.items.GetOr([]), ToClientItem))
  }

  /** `ordersData.map(...)`: one client order per order, in order. */
  function ClientOrders(orders: seq<Order>): (r: seq<ClientOrder>)
    ensures |r| == |orders|
    ensures forall k :: 0 <= k < |r| ==> r[k] == ToClientOrder(orders[k])
  {
    Seqs.Map(orders, ToClientOrder)
  }
}
