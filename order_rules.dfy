/** What placing and cancelling an order does to the product table, as functions of the table:
    the reservation pass of order creation and the restocking pass of cancellation. */
module OrderRules {
  import opened Common
  import opened ProductModel
  import opened OrderModel

  /** One requested line: which product and how many. */
  datatype LineRequest = LineRequest(productId: int, quantity: int)

  /** A finished reservation pass: the product table afterwards, the order items in request
      order, and the accumulated total. */
  datatype Reservation = Reservation(products: map<int, ProductData>, items: seq<OrderItem>, total: int)

  /** The reservation pass over the lines in order: each line re-reads its product, so a
      product requested twice is checked against the stock the earlier line left. A missing
      product is NotFound, a stock below the quantity is InsufficientStock, and otherwise the
      line snapshots the current price and takes the quantity from the stock. */
  function Reserve(products: map<int, ProductData>, lines: seq<LineRequest>): Result<Reservation>
    decreases |lines|
  {
    if lines == [] then Ok(Reservation(products, [], 0))
    else
      var line := lines[0];
      if line.productId !in products then Err(NotFound(ProductEntity))
      else
        var p := products[line.productId];
        if p.stock < line.quantity then Err(InsufficientStock)
        else
          Prepend([OrderItem(line.productId, p.price, line.quantity)], p.price * line.quantity,
            Reserve(products[line.productId := p.(stock := p.stock - line.quantity)], lines[1..]))
  }

  /** Items and a total already accumulated, placed before the rest of a pass. */
  function Prepend(items: seq<OrderItem>, total: int, rest: Result<Reservation>): Result<Reservation>
  {
    match rest
    case Err(e) => Err(e)
    case Ok(r) => Ok(Reservation(r.products, items + r.items, total + r.total))
  }

  lemma PrependTwice(a: seq<OrderItem>, ta: int, b: seq<OrderItem>, tb: int, rest: Result<Reservation>)
    ensures Prepend(a, ta, Prepend(b, tb, rest)) == Prepend(a + b, ta + tb, rest)
  {
    if rest.Ok? {
      assert a + (b + rest.value.items) == (a + b) + rest.value.items;
    }
  }

  /** The pass from line `i` on, unfolded by one line. */
  lemma ReserveFrom(products: map<int, ProductData>, lines: seq<LineRequest>, i: nat)
    requires i < |lines|
    ensures var line := lines[i];
      Reserve(products, lines[i..]) ==
        if line.productId !in products then Err(NotFound(ProductEntity))
        else if products[line.productId].stock < line.quantity then Err(InsufficientStock)
        else
          var p := products[line.productId];
          Prepend([OrderItem(line.productId, p.price, line.quantity)], p.price * line.quantity,
            Reserve(products[line.productId := p.(stock := p.stock - line.quantity)], lines[i + 1..]))
  {
    assert lines[i..][1..] == lines[i + 1..];
  }

  /** How much of product `pid` the lines ask for. */
  function Requested(lines: seq<LineRequest>, pid: int): int
  {
    if lines == [] then 0
    else (if lines[0].productId == pid then lines[0].quantity else 0) + Requested(lines[1..], pid)
  }

  /** How much of product `pid` the items hold. */
  function ItemQuantity(items: seq<OrderItem>, pid: int): int
  {
    if items == [] then 0
    else (if items[0].productId == pid then items[0].quantity else 0) + ItemQuantity(items[1..], pid)
  }

  /** Line `i` passes: its product exists and what the lines up to and including it ask of
      that product fits in the stock the pass started with. */
  ghost predicate LinePasses(products: map<int, ProductData>, lines: seq<LineRequest>, i: int)
    requires 0 <= i < |lines|
  {
    lines[i].productId in products && Requested(lines[..i + 1], lines[i].productId) <= products[lines[i].productId].stock
  }

  /** Line `i + 1` of the lines is line `i` of the lines after the first, checked against the
      table the first line left. */
  lemma {:induction false} LinePassesShift(products: map<int, ProductData>, lines: seq<LineRequest>, i: nat)
    requires 0 < |lines| && i + 1 < |lines|
    requires lines[0].productId in products
    ensures var p0 := products[lines[0].productId];
      var after := products[lines[0].productId := p0.(stock := p0.stock - lines[0].quantity)];
      LinePasses(products, lines, i + 1) <==> LinePasses(after, lines[1..], i)
  {
    assert lines[..i + 2][1..] == lines[1..][..i + 1];
    assert lines[..i + 2][0] == lines[0];
  }

  /** The pass succeeds exactly when every line passes, and when it fails, the error comes
      from the first line that does not pass: NotFound for a missing product,
      InsufficientStock otherwise. */
  lemma {:induction false} ReserveOutcome(products: map<int, ProductData>, lines: seq<LineRequest>)
    ensures Reserve(products, lines).Ok? <==> forall i :: 0 <= i < |lines| ==> LinePasses(products, lines, i)
    ensures Reserve(products, lines).Err? ==>
      exists i :: 0 <= i < |lines| && (forall j :: 0 <= j < i ==> LinePasses(products, lines, j)) && !LinePasses(products, lines, i)
        && Reserve(products, lines).error == (if lines[i].productId in products then InsufficientStock else NotFound(ProductEntity))
    decreases |lines|
  {
    if lines != [] {
      var line := lines[0];
      assert Requested(lines[..1], line.productId) == line.quantity by {
        assert lines[..1][1..] == [];
      }
      if line.productId in products && products[line.productId].stock >= line.quantity {
        var p0 := products[line.productId];
        var after := products[line.productId := p0.(stock := p0.stock - line.quantity)];
        ReserveOutcome(after, lines[1..]);
        forall i | 0 <= i < |lines| - 1
          ensures LinePasses(products, lines, i + 1) <==> LinePasses(after, lines[1..], i)
        {
          LinePassesShift(products, lines, i);
        }
        assert LinePasses(products, lines, 0);
        if Reserve(products, lines).Ok? {
          forall i | 0 <= i < |lines| ensures LinePasses(products, lines, i) {
            if i > 0 {
              assert LinePasses(after, lines[1..], i - 1);
            }
          }
        } else {
          var k :| 0 <= k < |lines| - 1 && (forall j :: 0 <= j < k ==> LinePasses(after, lines[1..], j)) && !LinePasses(after, lines[1..], k)
            && Reserve(after, lines[1..]).error == (if lines[1..][k].productId in after then InsufficientStock else NotFound(ProductEntity));
          forall j | 0 <= j < k + 1 ensures LinePasses(products, lines, j) {
            if j > 0 {
              assert LinePasses(after, lines[1..], j - 1);
            }
          }
          assert !LinePasses(products, lines, k + 1);
        }
      } else {
        assert !LinePasses(products, lines, 0);
      }
    }
  }

  /** A successful pass keeps the product ids, leaves each product with its stock minus what
      the lines ask of it, and changes nothing else about any product; its items are the lines
      in order with each product's price, their quantities add up to what was requested, and
      the total is Σ price × quantity over the items. */
  lemma {:induction false} ReserveEffect(products: map<int, ProductData>, lines: seq<LineRequest>)
    requires Reserve(products, lines).Ok?
    ensures var r := Reserve(products, lines).value;
      && r.products.Keys == products.Keys
      && (forall pid :: pid in products ==> r.products[pid] == products[pid].(stock := products[pid].stock - Requested(lines, pid)))
      && |r.items| == |lines|
      && (forall i :: 0 <= i < |lines| ==> lines[i].productId in products)
      && (forall i :: 0 <= i < |lines| ==> r.items[i] == OrderItem(lines[i].productId, products[lines[i].productId].price, lines[i].quantity))
      && (forall pid :: ItemQuantity(r.items, pid) == Requested(lines, pid))
      && r.total == Total(r.items)
    decreases |lines|
  {
    if lines != [] {
      var line := lines[0];
      var p0 := products[line.productId];
      var after := products[line.productId := p0.(stock := p0.stock - line.quantity)];
      ReserveEffect(after, lines[1..]);
      var rest := Reserve(after, lines[1..]).value;
      var item := OrderItem(line.productId, p0.price, line.quantity);
      var r := Reserve(products, lines).value;
      assert r.items == [item] + rest.items;
      assert r.items[1..] == rest.items;
      forall i | 0 <= i < |lines|
        ensures lines[i].productId in products
        ensures r.items[i] == OrderItem(lines[i].productId, products[lines[i].productId].price, lines[i].quantity)
      {
        if i > 0 {
          assert r.items[i] == rest.items[i - 1];
          assert lines[i] == lines[1..][i - 1];
        }
      }
    }
  }

  /** Every product of a successful pass is still sound: no stock goes below zero. */
  lemma {:induction false} ReserveKeepsSound(products: map<int, ProductData>, lines: seq<LineRequest>)
    requires forall pid :: pid in products ==> Sound(products[pid])
    requires Reserve(products, lines).Ok?
    ensures forall pid :: pid in Reserve(products, lines).value.products ==> Sound(Reserve(products, lines).value.products[pid])
    decreases |lines|
  {
    if lines != [] {
      var line := lines[0];
      var p0 := products[line.productId];
      ReserveKeepsSound(products[line.productId := p0.(stock := p0.stock - line.quantity)], lines[1..]);
    }
  }

  /** The placed order is well-formed: with sound products and positive quantities every item
      has a positive price and quantity, and the total is not negative. */
  lemma ReserveItemsValid(products: map<int, ProductData>, lines: seq<LineRequest>)
    requires forall pid :: pid in products ==> Sound(products[pid])
    requires forall i :: 0 <= i < |lines| ==> lines[i].quantity > 0
    requires Reserve(products, lines).Ok?
    ensures var r := Reserve(products, lines).value;
      (forall i :: 0 <= i < |r.items| ==> ItemValid(r.items[i])) && r.total >= 0
  {
    ReserveEffect(products, lines);
    var r := Reserve(products, lines).value;
    ReserveOutcome(products, lines);
    forall i | 0 <= i < |r.items| ensures ItemValid(r.items[i]) {
      assert LinePasses(products, lines, i);
    }
    TotalPositive(r.items);
  }

  /** One item of a cancelled order back into stock; a product that no longer exists is
      skipped. */
  function RestockOne(products: map<int, ProductData>, item: OrderItem): map<int, ProductData>
  {
    if item.productId in products
    then products[item.productId := products[item.productId].(stock := products[item.productId].stock + item.quantity)]
    else products
  }

  /** The restocking pass of a cancellation, item by item. */
  function Restock(products: map<int, ProductData>, items: seq<OrderItem>): map<int, ProductData>
    decreases |items|
  {
    if items == [] then products else Restock(RestockOne(products, items[0]), items[1..])
  }

  lemma RestockFrom(products: map<int, ProductData>, items: seq<OrderItem>, i: nat)
    requires i < |items|
    ensures Restock(products, items[i..]) == Restock(RestockOne(products, items[i]), items[i + 1..])
  {
    assert items[i..][1..] == items[i + 1..];
  }

  /** Restocking keeps the product ids and gives each product back what the items hold of it;
      nothing else about a product changes. */
  lemma {:induction false} RestockEffect(products: map<int, ProductData>, items: seq<OrderItem>)
    ensures Restock(products, items).Keys == products.Keys
    ensures forall pid :: pid in products ==>
      Restock(products, items)[pid] == products[pid].(stock := products[pid].stock + ItemQuantity(items, pid))
    decreases |items|
  {
    if items != [] {
      RestockEffect(RestockOne(products, items[0]), items[1..]);
    }
  }

  /** Restocking with valid items keeps every product sound. */
  lemma RestockKeepsSound(products: map<int, ProductData>, items: seq<OrderItem>)
    requires forall pid :: pid in products ==> Sound(products[pid])
    requires forall i :: 0 <= i < |items| ==> ItemValid(items[i])
    ensures forall pid :: pid in Restock(products, items) ==> Sound(Restock(products, items)[pid])
  {
    RestockEffect(products, items);
    forall pid | pid in products ensures ItemQuantity(items, pid) >= 0 {
      ItemQuantityNonNegative(items, pid);
    }
  }

  lemma {:induction false} ItemQuantityNonNegative(items: seq<OrderItem>, pid: int)
    requires forall i :: 0 <= i < |items| ==> ItemValid(items[i])
    ensures ItemQuantity(items, pid) >= 0
  {
    if items != [] {
      assert ItemValid(items[0]);
      ItemQuantityNonNegative(items[1..], pid);
    }
  }

  /** Placing an order and then cancelling it restores every product exactly as it was. */
  lemma CancelRestoresStock(products: map<int, ProductData>, lines: seq<LineRequest>)
    requires Reserve(products, lines).Ok?
    ensures Restock(Reserve(products, lines).value.products, Reserve(products, lines).value.items) == products
  {
    var r := Reserve(products, lines).value;
    ReserveEffect(products, lines);
    RestockEffect(r.products, r.items);
    var back := Restock(r.products, r.items);
    assert back.Keys == products.Keys;
    forall pid | pid in products ensures back[pid] == products[pid] {
    }
  }
}
