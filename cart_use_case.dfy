/** The cart use cases over the in-memory cart and product tables: the cart view with
    prices read from the product table, and adding, re-setting and removing the row of one
    (user, product) pair. */
module CartUseCases {
  import opened Common
  import opened ProductModel
  import opened CartModel
  import FakeProductRepo
  import FakeCartRepo
  import Tables

  /** One line of the cart view: the row, the product's current name and price, and the
      line total. */
  datatype CartLine = CartLine(id: Option<int>, productId: int, productName: string, price: int,
                               quantity: int, totalPrice: int)

  /** The cart view: its lines and the sum of their totals. */
  datatype CartView = CartView(items: seq<CartLine>, totalPrice: int)

  function LineOf(item: CartItem, p: ProductData): CartLine
  {
    CartLine(item.id, item.productId, p.name, p.price, item.quantity, p.price * item.quantity)
  }

  /** The lines of the rows, in row order, skipping rows whose product no longer exists. */
  function Lines(items: seq<CartItem>, products: map<int, ProductData>): seq<CartLine>
    decreases |items|
  {
    if items == [] then []
    else
      (if items[0].productId in products then [LineOf(items[0], products[items[0].productId])] else [])
      + Lines(items[1..], products)
  }

  /** The sum of the line totals. */
  function LineSum(lines: seq<CartLine>): int
  {
    if lines == [] then 0 else lines[0].totalPrice + LineSum(lines[1..])
  }

  /** The view of a user's rows. */
  function View(items: seq<CartItem>, products: map<int, ProductData>): CartView
  {
    CartView(Lines(items, products), LineSum(Lines(items, products)))
  }

  /** The lines of row `i` alone. */
  function LineAt(items: seq<CartItem>, products: map<int, ProductData>, i: nat): seq<CartLine>
    requires i < |items|
  {
    if items[i].productId in products then [LineOf(items[i], products[items[i].productId])] else []
  }

  /** The view built up to row `i`, extended by row `i`. */
  lemma LinesStep(items: seq<CartItem>, products: map<int, ProductData>, i: nat, done: seq<CartLine>)
    requires i < |items|
    requires Lines(items, products) == done + Lines(items[i..], products)
    ensures Lines(items, products) == (done + LineAt(items, products, i)) + Lines(items[i + 1..], products)
  {
    var rest := items[i..];
    assert rest[0] == items[i] && rest[1..] == items[i + 1..];
    var head := LineAt(items, products, i);
    var tail := Lines(items[i + 1..], products);
    assert Lines(rest, products) == head + tail;
    assert done + (head + tail) == (done + head) + tail;
  }

  /** Every line comes from a row whose product exists, with that product's name and price
      and the row's id and quantity; every such row has its line; there are never more lines
      than rows, and when no product is missing the lines follow the rows one for one. */
  lemma {:induction false} LinesShape(items: seq<CartItem>, products: map<int, ProductData>)
    ensures var ls := Lines(items, products);
      && |ls| <= |items|
      && (forall l :: l in ls ==> exists i :: 0 <= i < |items| && items[i].productId in products
                                              && l == LineOf(items[i], products[items[i].productId]))
      && (forall i :: 0 <= i < |items| && items[i].productId in products ==>
            LineOf(items[i], products[items[i].productId]) in ls)
      && ((forall i :: 0 <= i < |items| ==> items[i].productId in products) ==>
            |ls| == |items| && forall i :: 0 <= i < |items| ==> ls[i] == LineOf(items[i], products[items[i].productId]))
  {
    if items != [] {
      var tail := items[1..];
      LinesShape(tail, products);
      var ls := Lines(items, products);
      var head := if items[0].productId in products then [LineOf(items[0], products[items[0].productId])] else [];
      assert ls == head + Lines(tail, products);
      forall l | l in ls
        ensures exists i :: 0 <= i < |items| && items[i].productId in products
                            && l == LineOf(items[i], products[items[i].productId])
      {
        if l in head {
          assert items[0].productId in products && l == LineOf(items[0], products[items[0].productId]);
        } else {
          assert l in Lines(tail, products);
          var j :| 0 <= j < |tail| && tail[j].productId in products && l == LineOf(tail[j], products[tail[j].productId]);
          assert tail[j] == items[j + 1];
        }
      }
      forall i | 0 <= i < |items| && items[i].productId in products
        ensures LineOf(items[i], products[items[i].productId]) in ls
      {
        if i > 0 {
          assert items[i] == tail[i - 1];
        }
      }
      if forall i :: 0 <= i < |items| ==> items[i].productId in products {
        assert forall i :: 0 <= i < |tail| ==> tail[i] == items[i + 1];
      }
    }
  }

  /** With positive prices and quantities a view's total is non-negative, and positive
      as soon as one line is shown. */
  lemma {:induction false} LineSumPositive(lines: seq<CartLine>)
    requires forall i :: 0 <= i < |lines| ==> lines[i].totalPrice > 0
    ensures LineSum(lines) >= 0
    ensures lines != [] ==> LineSum(lines) > 0
  {
    if lines != [] {
      assert forall i :: 0 <= i < |lines[1..]| ==> lines[1..][i] == lines[i + 1];
      LineSumPositive(lines[1..]);
    }
  }

  lemma PositiveProduct(a: int, b: int)
    requires a > 0 && b > 0
    ensures a * b > 0
  {
  }

  /** At most one row per (user, product) pair. */
  ghost predicate OnePerPair(data: map<int, CartItem>)
  {
    forall a, b :: a in data && b in data && data[a].userId == data[b].userId && data[a].productId == data[b].productId ==> a == b
  }

  /** Replacing a row by one of the same pair keeps one row per pair. */
  lemma ReplaceKeepsPairs(data: map<int, CartItem>, k: int, v: CartItem)
    requires OnePerPair(data) && k in data
    requires data[k].userId == v.userId && data[k].productId == v.productId
    ensures OnePerPair(data[k := v])
  {
  }

  /** Adding a row under a fresh key for a pair without a row keeps one row per pair. */
  lemma AddFreshKeepsPairs(data: map<int, CartItem>, k: int, v: CartItem)
    requires OnePerPair(data) && k !in data
    requires forall j :: j in data ==> !(data[j].userId == v.userId && data[j].productId == v.productId)
    ensures OnePerPair(data[k := v])
  {
  }

  class CartUseCase {
    const carts: FakeCartRepo.FakeCartRepository
    const products: FakeProductRepo.FakeProductRepository

    /** Both tables are well-formed, the cart's counter is ahead of its ids, each pair has at
        most one row, and every row has a positive quantity. */
    ghost predicate Valid()
      reads this, carts, products
    {
      && carts.Valid() && products.Valid() && carts.IdsBelowCounter()
      && OnePerPair(carts.data)
      && (forall k :: k in carts.data ==> ItemValid(carts.data[k]))
    }

    constructor (carts: FakeCartRepo.FakeCartRepository, products: FakeProductRepo.FakeProductRepository)
      ensures this.carts == carts && this.products == products
    {
      this.carts, this.products := carts, products;
    }

    /** `get_cart`: the view of the user's rows, in insertion order, against the current
        product table. */
    method GetCart(userId: int) returns (view: CartView)
      requires carts.Valid()
      ensures view == View(carts.GetAllByUserId(userId), products.data)
      ensures Valid() && (forall k :: k in products.data ==> Sound(products.data[k])) ==>
        view.totalPrice >= 0 && (view.items != [] ==> view.totalPrice > 0)
    {
      var cartItems := carts.GetAllByUserId(userId);
      var lines: seq<CartLine> := [];
      var i := 0;
      assert cartItems[0..] == cartItems;
      while i < |cartItems|
        invariant 0 <= i <= |cartItems|
        invariant Lines(cartItems, products.data) == lines + Lines(cartItems[i..], products.data)
      {
        LinesStep(cartItems, products.data, i, lines);
        var item := cartItems[i];
        var product := products.GetById(item.productId);
        if product.Some? {
          lines := lines + [LineOf(item, product.value)];
        } else {
          assert lines + [] == lines;
        }
        i := i + 1;
      }
      assert lines + [] == lines;
      if Valid() && (forall k :: k in products.data ==> Sound(products.data[k])) {
        ViewTotalBound(userId);
      }
      view := CartView(lines, LineSum(lines));
    }

    /** With positive quantities in the cart and positive prices in the product table, a
        user's cart total is non-negative, and positive as soon as one line is shown. */
    lemma ViewTotalBound(userId: int)
      requires Valid()
      requires forall k :: k in products.data ==> Sound(products.data[k])
      ensures var view := View(carts.GetAllByUserId(userId), products.data);
        view.totalPrice >= 0 && (view.items != [] ==> view.totalPrice > 0)
    {
      var cartItems := carts.GetAllByUserId(userId);
      var lines := Lines(cartItems, products.data);
      LinesShape(cartItems, products.data);
      forall n | 0 <= n < |lines| ensures lines[n].totalPrice > 0 {
        assert lines[n] in lines;
        var j :| 0 <= j < |cartItems| && cartItems[j].productId in products.data
                 && lines[n] == LineOf(cartItems[j], products.data[cartItems[j].productId]);
        FoundIsStored(cartItems[j]);
        PositiveProduct(products.data[cartItems[j].productId].price, cartItems[j].quantity);
      }
      LineSumPositive(lines);
    }

    /** The stored row a found item came from. */
    lemma FoundIsStored(e: CartItem)
      requires carts.Valid()
      requires e in carts.Items()
      ensures e.id.Some? && e.id.value in carts.data && carts.data[e.id.value] == e
    {
      var j :| 0 <= j < |carts.Items()| && carts.Items()[j] == e;
      assert carts.keys[j] in carts.data;
    }

    /** `add_to_cart`: NotFound for a missing product, InsufficientStock when the stock is
        below the quantity added (the quantity already in the cart is not counted); then the
        pair's row grows by the quantity, or a new row is created for the pair. The quantity
        is positive, as the request demands. */
    method AddToCart(userId: int, productId: int, quantity: int) returns (r: Result<CartView>)
      modifies carts
      requires Valid()
      requires quantity > 0
      ensures Valid()
      ensures productId !in products.data ==> r == Err(NotFound(ProductEntity))
      ensures productId in products.data && products.data[productId].stock < quantity ==> r == Err(InsufficientStock)
      ensures r.Ok? <==> productId in products.data && products.data[productId].stock >= quantity
      ensures r.Err? ==> carts.data == old(carts.data) && carts.keys == old(carts.keys) && carts.nextId == old(carts.nextId)
      ensures r.Ok? ==>
        var found := old(FirstWhere(carts.Items(), FakeCartRepo.SamePair(userId, productId)));
        && (found.Some? ==>
              && found.value.id.Some?
              && carts.data == old(carts.data)[found.value.id.value := found.value.(quantity := found.value.quantity + quantity)]
              && carts.keys == old(carts.keys) && carts.nextId == old(carts.nextId))
        && (found.None? ==>
              && carts.data == old(carts.data)[old(carts.nextId) := CartItem(Some(old(carts.nextId)), userId, productId, quantity)]
              && carts.keys == old(carts.keys) + [old(carts.nextId)] && carts.nextId == old(carts.nextId) + 1)
        && r.value == View(carts.GetAllByUserId(userId), products.data)
    {
      var product := products.GetById(productId);
      if product.None? {
        return Err(NotFound(ProductEntity));
      }
      if product.value.stock < quantity {
        return Err(InsufficientStock);
      }
      StoreAdded(userId, productId, quantity);
      var view := GetCart(userId);
      r := Ok(view);
    }

    /** The write of `add_to_cart`: the pair's row grows by the quantity, or a new row is
        stored for the pair under the next id. */
    method StoreAdded(userId: int, productId: int, quantity: int)
      modifies carts
      requires Valid()
      requires quantity > 0
      ensures Valid()
      ensures var found := old(FirstWhere(carts.Items(), FakeCartRepo.SamePair(userId, productId)));
        && (found.Some? ==>
              && found.value.id.Some?
              && carts.data == old(carts.data)[found.value.id.value := found.value.(quantity := found.value.quantity + quantity)]
              && carts.keys == old(carts.keys) && carts.nextId == old(carts.nextId))
        && (found.None? ==>
              && carts.data == old(carts.data)[old(carts.nextId) := CartItem(Some(old(carts.nextId)), userId, productId, quantity)]
              && carts.keys == old(carts.keys) + [old(carts.nextId)] && carts.nextId == old(carts.nextId) + 1)
    {
      var existing := carts.GetByUserAndProduct(userId, productId);
      if existing.Some? {
        var item := existing.value;
        FoundIsStored(item);
        var added := AddQuantity(item, quantity);
        item := added.value;
        ReplaceKeepsPairs(carts.data, item.id.value, item);
        var _ := carts.Save(item);
      } else {
        AddFreshKeepsPairs(carts.data, carts.nextId, CartItem(Some(carts.nextId), userId, productId, quantity));
        var _ := carts.Save(CartItem(None, userId, productId, quantity));
      }
    }

    /** `update_item_quantity`: NotFound for a missing row comes first, then NotFound for a
        missing product and InsufficientStock when the stock is below the new quantity;
        otherwise the pair's row takes the new quantity. A non-positive quantity (which the
        request itself refuses) is swallowed: the row is saved as it was. */
    method UpdateItemQuantity(userId: int, productId: int, quantity: int) returns (r: Result<CartView>)
      modifies carts
      requires Valid()
      ensures Valid()
      ensures var found := old(FirstWhere(carts.Items(), FakeCartRepo.SamePair(userId, productId)));
        && (found.None? ==> r == Err(NotFound(CartItemEntity)))
        && (found.Some? && productId !in products.data ==> r == Err(NotFound(ProductEntity)))
        && (found.Some? && productId in products.data && products.data[productId].stock < quantity ==> r == Err(InsufficientStock))
        && (r.Ok? <==> found.Some? && productId in products.data && products.data[productId].stock >= quantity)
        && (r.Ok? ==>
              && found.value.id.Some?
              && carts.data == old(carts.data)[found.value.id.value := found.value.(quantity := if quantity > 0 then quantity else found.value.quantity)]
              && r.value == View(carts.GetAllByUserId(userId), products.data))
      ensures r.Err? ==> carts.data == old(carts.data)
      ensures carts.keys == old(carts.keys) && carts.nextId == old(carts.nextId)
    {
      var item := carts.GetByUserAndProduct(userId, productId);
      if item.None? {
        return Err(NotFound(CartItemEntity));
      }
      var product := products.GetById(productId);
      if product.None? {
        return Err(NotFound(ProductEntity));
      }
      if product.value.stock < quantity {
        return Err(InsufficientStock);
      }
      FoundIsStored(item.value);
      StoreQuantity(item.value, quantity);
      var view := GetCart(userId);
      r := Ok(view);
    }

    /** The write of `update_item_quantity`: the stored row takes the new quantity, or is
        saved as it was when the quantity is refused; it keeps its place in the table. */
    method StoreQuantity(row: CartItem, quantity: int)
      modifies carts
      requires Valid()
      requires row.id.Some? && row.id.value in carts.data && carts.data[row.id.value] == row
      ensures Valid()
      ensures carts.data == old(carts.data)[row.id.value := row.(quantity := if quantity > 0 then quantity else row.quantity)]
      ensures carts.keys == old(carts.keys) && carts.nextId == old(carts.nextId)
    {
      var next := row;
      var updated := UpdateQuantity(row, quantity);
      if updated.Ok? {
        next := updated.value;
      }
      ReplaceKeepsPairs(carts.data, next.id.value, next);
      var _ := carts.Save(next);
    }

    /** `add_to_cart` against the `CartItem` class as written: when the pair already has a row,
        the `add_quantity` call raises AttributeError, which the `except InvalidDomainException`
        does not catch, so the request fails before the save and the unit of work leaves the
        cart as it was. A pair without a row still gets its new row. */
    method AddToCartAsWritten(userId: int, productId: int, quantity: int) returns (r: Result<CartView>)
      modifies carts
      requires Valid()
      requires quantity > 0
      ensures Valid()
      ensures productId !in products.data ==> r == Err(NotFound(ProductEntity))
      ensures productId in products.data && products.data[productId].stock < quantity ==> r == Err(InsufficientStock)
      ensures var found := old(FirstWhere(carts.Items(), FakeCartRepo.SamePair(userId, productId)));
        && (r.Ok? <==> productId in products.data && products.data[productId].stock >= quantity && found.None?)
        && (found.Some? && productId in products.data && products.data[productId].stock >= quantity ==>
              r == Err(MissingAttribute))
        && (r.Err? ==> carts.data == old(carts.data) && carts.keys == old(carts.keys) && carts.nextId == old(carts.nextId))
        && (r.Ok? ==>
              && carts.data == old(carts.data)[old(carts.nextId) := CartItem(Some(old(carts.nextId)), userId, productId, quantity)]
              && carts.keys == old(carts.keys) + [old(carts.nextId)] && carts.nextId == old(carts.nextId) + 1
              && r.value == View(carts.GetAllByUserId(userId), products.data))
    {
      var product := products.GetById(productId);
      if product.None? {
        return Err(NotFound(ProductEntity));
      }
      if product.value.stock < quantity {
        return Err(InsufficientStock);
      }
      var existing := carts.GetByUserAndProduct(userId, productId);
      if existing.Some? {
        var added := AddQuantityAsWritten(existing.value, quantity);
        return Err(added.error);
      }
      StoreAdded(userId, productId, quantity);
      var view := GetCart(userId);
      r := Ok(view);
    }

    /** `update_item_quantity` against the `CartItem` class as written: once the row, the
        product and the stock check are through, the `update_quantity` call raises
        AttributeError, which is not caught, so every call fails and the cart is never
        changed. */
    method UpdateItemQuantityAsWritten(userId: int, productId: int, quantity: int) returns (r: Result<CartView>)
      requires Valid()
      ensures r.Err?
      ensures var found := FirstWhere(carts.Items(), FakeCartRepo.SamePair(userId, productId));
        && (found.None? ==> r == Err(NotFound(CartItemEntity)))
        && (found.Some? && productId !in products.data ==> r == Err(NotFound(ProductEntity)))
        && (found.Some? && productId in products.data && products.data[productId].stock < quantity ==> r == Err(InsufficientStock))
        && (found.Some? && productId in products.data && products.data[productId].stock >= quantity ==> r == Err(MissingAttribute))
    {
      var item := carts.GetByUserAndProduct(userId, productId);
      if item.None? {
        return Err(NotFound(CartItemEntity));
      }
      var product := products.GetById(productId);
      if product.None? {
        return Err(NotFound(ProductEntity));
      }
      if product.value.stock < quantity {
        return Err(InsufficientStock);
      }
      var updated := UpdateQuantityAsWritten(item.value, quantity);
      return Err(updated.error);
    }

    /** `remove_item`: NotFound for a missing row; otherwise the pair's row is deleted, and
        the user then has no row for that product. */
    method RemoveItem(userId: int, productId: int) returns (r: Result<CartView>)
      modifies carts
      requires Valid()
      ensures Valid()
      ensures var found := old(FirstWhere(carts.Items(), FakeCartRepo.SamePair(userId, productId)));
        && (found.None? <==> r == Err(NotFound(CartItemEntity)))
        && (found.None? ==> carts.data == old(carts.data) && carts.keys == old(carts.keys))
        && (found.Some? ==>
              && found.value.id.Some?
              && carts.data == old(carts.data) - {found.value.id.value}
              && carts.keys == Tables.KeysWithout(old(carts.keys), {found.value.id.value})
              && r == Ok(View(carts.GetAllByUserId(userId), products.data)))
      ensures r.Ok? ==> forall k :: k in carts.data ==> !(carts.data[k].userId == userId && carts.data[k].productId == productId)
      ensures carts.nextId == old(carts.nextId)
    {
      var item := carts.GetByUserAndProduct(userId, productId);
      if item.None? {
        return Err(NotFound(CartItemEntity));
      }
      FoundIsStored(item.value);
      carts.Delete(item.value);
      var view := GetCart(userId);
      r := Ok(view);
    }
  }
}
