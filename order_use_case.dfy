/** The order use cases over the in-memory product, order and cart tables. Placing an order
    runs inside a unit of work: if any line fails, the product table is put back as it was
    before the call, and no order is saved. */
module OrderUseCases {
  import opened Common
  import opened ProductModel
  import opened OrderModel
  import opened OrderRules
  import CartModel
  import FakeProductRepo
  import FakeOrderRepo
  import FakeCartRepo
  import Tables

  /** The lines of a cart, item by item. */
  function CartLines(items: seq<CartModel.CartItem>): (lines: seq<LineRequest>)
    ensures |lines| == |items|
    ensures forall i :: 0 <= i < |items| ==> lines[i] == LineRequest(items[i].productId, items[i].quantity)
  {
    seq(|items|, i requires 0 <= i < |items| => LineRequest(items[i].productId, items[i].quantity))
  }

  /** The product ids of the lines, in order. */
  function ProductIds(lines: seq<LineRequest>): (ids: seq<int>)
    ensures |ids| == |lines|
    ensures forall i :: 0 <= i < |lines| ==> ids[i] == lines[i].productId
  {
    seq(|lines|, i requires 0 <= i < |lines| => lines[i].productId)
  }

  class OrderUseCase {
    const products: FakeProductRepo.FakeProductRepository
    const orders: FakeOrderRepo.FakeOrderRepository
    const carts: FakeCartRepo.FakeCartRepository

    /** The tables are well-formed, the order counter is ahead of every stored order id,
        every stored product has a positive price and a non-negative stock, every stored
        order is well-formed, and every cart row has a positive quantity. */
    ghost predicate Valid()
      reads this, products, orders, carts
    {
      && products.Valid() && orders.Valid() && carts.Valid() && orders.IdsBelowCounter()
      && (forall k :: k in products.data ==> Sound(products.data[k]))
      && (forall k :: k in orders.data ==> OrderValid(orders.data[k]))
      && (forall k :: k in carts.data ==> CartModel.ItemValid(carts.data[k]))
    }

    constructor (products: FakeProductRepo.FakeProductRepository, orders: FakeOrderRepo.FakeOrderRepository,
                 carts: FakeCartRepo.FakeCartRepository)
      ensures this.products == products && this.orders == orders && this.carts == carts
    {
      this.products, this.orders, this.carts := products, orders, carts;
    }

    /** `_create_order_core` inside its unit of work: the reservation pass, then the order
        saved as PENDING with its items and total. On an error the product table is restored
        and nothing is saved. */
    method CreateOrderCore(userId: int, lines: seq<LineRequest>) returns (r: Result<Order>)
      modifies products, orders
      requires Valid()
      requires forall i :: 0 <= i < |lines| ==> lines[i].quantity > 0
      ensures Valid()
      ensures var res := Reserve(old(products.data), lines);
        && (res.Err? ==> r == Err(res.error) && products.data == old(products.data) && orders.data == old(orders.data))
        && (res.Ok? ==>
              && products.data == res.value.products
              && r == Ok(Order(Some(old(orders.nextId)), userId, Pending, res.value.total, res.value.items))
              && orders.data == old(orders.data)[old(orders.nextId) := r.value])
      ensures products.keys == old(products.keys) && products.nextId == old(products.nextId)
      ensures r.Ok? ==> old(orders.nextId) !in old(orders.data) && orders.nextId == old(orders.nextId) + 1
      ensures r.Ok? ==> orders.keys == old(orders.keys) + [old(orders.nextId)]
      ensures r.Err? ==> orders.keys == old(orders.keys) && orders.nextId == old(orders.nextId)
    {
      ghost var start := products.data;
      var reserved := ReserveLines(lines);
      if reserved.Err? {
        return Err(reserved.error);
      }
      ReserveKeepsSound(start, lines);
      ReserveItemsValid(start, lines);
      var (items, total) := reserved.value;
      var order := orders.Save(NewOrder(userId, total).(items := items));
      r := Ok(order);
    }

    /** The reservation loop of `_create_order_core`: line by line, the product must exist
        and have the stock, its price is snapshot into the items and the total, and its stock
        is decreased. On an error the product table is restored, as the unit of work does. */
    method ReserveLines(lines: seq<LineRequest>) returns (r: Result<(seq<OrderItem>, int)>)
      modifies products
      requires products.Valid()
      ensures products.Valid()
      ensures var res := Reserve(old(products.data), lines);
        && (res.Err? ==> r == Err(res.error) && products.data == old(products.data))
        && (res.Ok? ==> r == Ok((res.value.items, res.value.total)) && products.data == res.value.products)
      ensures products.keys == old(products.keys) && products.nextId == old(products.nextId)
    {
      var saved := products.data;
      var items: seq<OrderItem> := [];
      var total := 0;
      var i := 0;
      assert lines[0..] == lines;
      if Reserve(saved, lines).Ok? {
        assert [] + Reserve(saved, lines).value.items == Reserve(saved, lines).value.items;
      }
      while i < |lines|
        modifies products
        invariant 0 <= i <= |lines|
        invariant products.Valid()
        invariant products.keys == old(products.keys) && products.nextId == old(products.nextId)
        invariant Reserve(saved, lines) == Prepend(items, total, Reserve(products.data, lines[i..]))
      {
        var line := lines[i];
        ReserveFrom(products.data, lines, i);
        var found := products.GetById(line.productId);
        if found.None? {
          products.data := saved;
          return Err(NotFound(ProductEntity));
        }
        var product := found.value;
        if product.stock < line.quantity {
          products.data := saved;
          return Err(InsufficientStock);
        }
        PrependTwice(items, total, [OrderItem(line.productId, product.price, line.quantity)], product.price * line.quantity,
          Reserve(products.data[line.productId := product.(stock := product.stock - line.quantity)], lines[i + 1..]));
        total := total + product.price * line.quantity;
        items := items + [OrderItem(line.productId, product.price, line.quantity)];
        var _ := products.Update(product.(stock := product.stock - line.quantity));
        i := i + 1;
      }
      assert Reserve(products.data, lines[i..]) == Ok(Reservation(products.data, [], 0));
      assert items + [] == items;
      r := Ok((items, total));
    }

    /** `create_order`: place the order, then delete this user's cart rows for the ordered
        products and no others. An order needs at least one line, and every quantity is
        positive. */
    method CreateOrder(userId: int, lines: seq<LineRequest>) returns (r: Result<Order>)
      modifies products, orders, carts
      requires Valid()
      requires lines != []
      requires forall i :: 0 <= i < |lines| ==> lines[i].quantity > 0
      ensures Valid()
      ensures var res := Reserve(old(products.data), lines);
        && (res.Err? ==>
              && r == Err(res.error)
              && products.data == old(products.data) && orders.data == old(orders.data) && carts.data == old(carts.data))
        && (res.Ok? ==>
              && products.data == res.value.products
              && r == Ok(Order(Some(old(orders.nextId)), userId, Pending, res.value.total, res.value.items))
              && orders.data == old(orders.data)[old(orders.nextId) := r.value]
              && carts.data == old(carts.data) - FakeCartRepo.Matching(old(carts.data), FakeCartRepo.OfUserAmong(userId, ProductIds(lines))))
      ensures r.Ok? ==> old(orders.nextId) !in old(orders.data)
      ensures products.keys == old(products.keys) && products.nextId == old(products.nextId)
      ensures r.Ok? ==> orders.keys == old(orders.keys) + [old(orders.nextId)] && orders.nextId == old(orders.nextId) + 1
      ensures r.Err? ==> orders.keys == old(orders.keys) && orders.nextId == old(orders.nextId)
      ensures r.Ok? ==> carts.keys == Tables.KeysWithout(old(carts.keys), FakeCartRepo.Matching(old(carts.data), FakeCartRepo.OfUserAmong(userId, ProductIds(lines))))
      ensures r.Err? ==> carts.keys == old(carts.keys)
      ensures carts.nextId == old(carts.nextId)
    {
      r := CreateOrderCore(userId, lines);
      if r.Ok? {
        carts.DeleteItemsByUserId(userId, ProductIds(lines));
      }
    }

    /** `create_order_from_cart`: an empty cart is a bad request; otherwise the cart's rows
        are ordered, in insertion order, and on success the user's whole cart is emptied. */
    method CreateOrderFromCart(userId: int) returns (r: Result<Order>)
      modifies products, orders, carts
      requires Valid()
      ensures Valid()
      ensures var lines := CartLines(old(carts.GetAllByUserId(userId)));
        var res := Reserve(old(products.data), lines);
        && (lines == [] ==> r == Err(BadRequest) && products.data == old(products.data) && orders.data == old(orders.data))
        && (lines != [] && res.Err? ==> r == Err(res.error) && products.data == old(products.data) && orders.data == old(orders.data))
        && (lines != [] && res.Ok? ==>
              && products.data == res.value.products
              && r == Ok(Order(Some(old(orders.nextId)), userId, Pending, res.value.total, res.value.items))
              && orders.data == old(orders.data)[old(orders.nextId) := r.value])
      ensures r.Ok? ==> old(orders.nextId) !in old(orders.data)
      ensures products.keys == old(products.keys) && products.nextId == old(products.nextId)
      ensures r.Ok? ==> orders.keys == old(orders.keys) + [old(orders.nextId)] && orders.nextId == old(orders.nextId) + 1
      ensures r.Err? ==> orders.keys == old(orders.keys) && orders.nextId == old(orders.nextId)
      ensures r.Ok? ==> carts.keys == Tables.KeysWithout(old(carts.keys), FakeCartRepo.Matching(old(carts.data), FakeCartRepo.OfUser(userId)))
      ensures r.Err? ==> carts.keys == old(carts.keys)
      ensures carts.nextId == old(carts.nextId)
      ensures r.Ok? ==> carts.data == old(carts.data) - FakeCartRepo.Matching(old(carts.data), FakeCartRepo.OfUser(userId))
      ensures r.Err? ==> carts.data == old(carts.data)
    {
      var cartItems := carts.GetAllByUserId(userId);
      if cartItems == [] {
        return Err(BadRequest);
      }
      var lines := CartLines(cartItems);
      forall i | 0 <= i < |lines| ensures lines[i].quantity > 0 {
        var c := cartItems[i];
        assert c in carts.Items();
        var j :| 0 <= j < |carts.Items()| && carts.Items()[j] == c;
        assert carts.keys[j] in carts.data;
      }
      r := CreateOrderCore(userId, lines);
      if r.Ok? {
        carts.DeleteAllByUserId(userId);
      }
    }

    /** `list_orders`: the user's orders, paged. */
    function ListOrders(userId: int, offset: int, limit: int): (r: seq<Order>)
      reads this, orders
      requires orders.Valid()
      ensures r == orders.FindByUserId(userId, offset, limit)
      ensures forall o :: o in r ==> o.userId == userId
      ensures limit >= 0 ==> |r| <= limit
    {
      orders.FindByUserId(userId, offset, limit)
    }

    /** `get_order`: NotFound for a missing order comes before PermissionDenied for another
        user's order. */
    function GetOrder(userId: int, orderId: int): (r: Result<Order>)
      reads this, orders
      ensures orderId !in orders.data ==> r == Err(NotFound(OrderEntity))
      ensures orderId in orders.data && orders.data[orderId].userId != userId ==> r == Err(PermissionDenied)
      ensures r.Ok? <==> orderId in orders.data && orders.data[orderId].userId == userId
      ensures r.Ok? ==> r.value == orders.data[orderId]
    {
      match orders.FindById(orderId)
      case None => Err(NotFound(OrderEntity))
      case Some(o) => if o.userId != userId then Err(PermissionDenied) else Ok(o)
    }

    /** `cancel_order`: NotFound, then PermissionDenied, then BadRequest unless the order is
        PENDING or PAID; otherwise each item's quantity goes back to its product, skipping
        products that no longer exist, and the order is saved as CANCELLED. */
    method CancelOrder(userId: int, orderId: int) returns (r: Result<Order>)
      modifies products, orders
      requires Valid()
      ensures Valid()
      ensures var found := old(GetOrder(userId, orderId));
        && (found.Err? ==> r == found)
        && (found.Ok? && !Cancellable(found.value.status) ==> r == Err(BadRequest))
        && (r.Err? ==> products.data == old(products.data) && orders.data == old(orders.data))
        && (found.Ok? && Cancellable(found.value.status) ==>
              && r == Ok(found.value.(status := Cancelled))
              && products.data == Restock(old(products.data), found.value.items)
              && orders.data == old(orders.data)[orderId := r.value])
      ensures products.keys == old(products.keys) && products.nextId == old(products.nextId)
      ensures orders.keys == old(orders.keys) && orders.nextId == old(orders.nextId)
    {
      var found := orders.FindById(orderId);
      if found.None? {
        return Err(NotFound(OrderEntity));
      }
      var order := found.value;
      if order.userId != userId {
        return Err(PermissionDenied);
      }
      if !Cancellable(order.status) {
        return Err(BadRequest);
      }
      var start := products.data;
      var i := 0;
      while i < |order.items|
        modifies products
        invariant 0 <= i <= |order.items|
        invariant products.Valid()
        invariant products.keys == old(products.keys) && products.nextId == old(products.nextId)
        invariant Restock(start, order.items) == Restock(products.data, order.items[i..])
      {
        var item := order.items[i];
        RestockFrom(products.data, order.items, i);
        var p := products.GetById(item.productId);
        if p.Some? {
          var _ := products.Update(p.value.(stock := p.value.stock + item.quantity));
        }
        i := i + 1;
      }
      RestockKeepsSound(start, order.items);
      var cancelled := orders.Save(order.(status := Cancelled));
      r := Ok(cancelled);
    }

    /** Cancelling the same order twice: once the first call succeeds, the second is a bad
        request and touches neither table, so no stock is returned twice. */
    method SecondCancelRejected(userId: int, orderId: int) returns (first: Result<Order>, second: Result<Order>)
      modifies products, orders
      requires Valid()
      ensures Valid()
      ensures first.Ok? ==> second == Err(BadRequest)
      ensures first.Ok? ==> products.data == Restock(old(products.data), first.value.items)
      ensures first.Ok? ==> orders.data == old(orders.data)[orderId := first.value]
      ensures products.keys == old(products.keys) && products.nextId == old(products.nextId)
      ensures orders.keys == old(orders.keys) && orders.nextId == old(orders.nextId)
    {
      first := CancelOrder(userId, orderId);
      ghost var products1, orders1 := products.data, orders.data;
      second := CancelOrder(userId, orderId);
      if first.Ok? {
        assert products.data == products1 && orders.data == orders1;
      }
    }
  }
}
