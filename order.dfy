/** The order records: status, line items that snapshot a price, and the order itself. */
module OrderModel {
  import opened Common

  /** The five order states. */
  datatype OrderStatus = Pending | Paid | Shipped | Delivered | Cancelled

  /** A line of an order: the product, its price when ordered, and the quantity. */
  datatype OrderItem = OrderItem(productId: int, price: int, quantity: int)

  /** The item constraints: a positive price and a positive quantity. */
  predicate ItemValid(item: OrderItem)
  {
    item.price > 0 && item.quantity > 0
  }

  datatype Order = Order(id: Option<int>, userId: int, status: OrderStatus, totalPrice: int, items: seq<OrderItem>)

  /** The order constraints: a non-negative total and valid items. */
  predicate OrderValid(o: Order)
  {
    o.totalPrice >= 0 && forall i :: 0 <= i < |o.items| ==> ItemValid(o.items[i])
  }

  /** An order built with the defaults: no id, PENDING and no items. */
  function NewOrder(userId: int, totalPrice: int): (o: Order)
    ensures o.id == None && o.status == Pending && o.items == []
    ensures o.userId == userId && o.totalPrice == totalPrice
    ensures OrderValid(o) <==> totalPrice >= 0
  {
    Order(None, userId, Pending, totalPrice, [])
  }

  /** Σ price × quantity over the items. */
  function Total(items: seq<OrderItem>): int
  {
    if items == [] then 0 else items[0].price * items[0].quantity + Total(items[1..])
  }

  /** Valid items never total below zero; a non-empty list of them totals above zero. */
  lemma {:induction false} TotalPositive(items: seq<OrderItem>)
    requires forall i :: 0 <= i < |items| ==> ItemValid(items[i])
    ensures Total(items) >= 0
    ensures items != [] ==> Total(items) > 0
  {
    if items != [] {
      TotalPositive(items[1..]);
      assert ItemValid(items[0]);
      assert items[0].price * items[0].quantity > 0;
    }
  }

  /** The statuses from which an order can still be cancelled. */
  predicate Cancellable(s: OrderStatus)
  {
    s == Pending || s == Paid
  }
}
