/** The in-memory order table. */
module FakeOrderRepo {
  import opened Common
  import opened Tables
  import opened OrderModel

  function OfUser(userId: int): Order -> bool
  {
    (o: Order) => o.userId == userId
  }

  class FakeOrderRepository {
    var data: map<int, Order>
    var keys: seq<int>
    var nextId: int

    /** Keys in insertion order, and each order stored under its own id. */
    ghost predicate Valid()
      reads this
    {
      InsertionOrdered(keys, data) && forall k :: k in data ==> data[k].id == Some(k)
    }

    /** Every stored id is below the counter, so the next assigned id is fresh. */
    ghost predicate IdsBelowCounter()
      reads this
    {
      forall k :: k in data ==> k < nextId
    }

    function Orders(): seq<Order>
      reads this
      requires Valid()
    {
      Values(keys, data)
    }

    constructor ()
      ensures Valid() && IdsBelowCounter()
      ensures data == map[] && keys == [] && nextId == 1
    {
      data, keys, nextId := map[], [], 1;
    }

    /** An order without an id gets the counter's value and the counter moves on; the order
        is then stored under its id, replacing the order there if the id was known. */
    method Save(order: Order) returns (saved: Order)
      modifies this
      requires Valid()
      ensures Valid()
      ensures order.id.None? ==> saved == order.(id := Some(old(nextId))) && nextId == old(nextId) + 1
      ensures order.id.Some? ==> saved == order && nextId == old(nextId)
      ensures data == old(data)[saved.id.value := saved]
      ensures keys == KeysAfterPut(old(keys), old(data), saved.id.value)
      ensures order.id.None? && old(IdsBelowCounter()) ==> saved.id.value !in old(data) && IdsBelowCounter()
      ensures order.id.Some? && order.id.value < old(nextId) && old(IdsBelowCounter()) ==> IdsBelowCounter()
    {
      saved := order;
      if saved.id.None? {
        saved := saved.(id := Some(nextId));
        nextId := nextId + 1;
      }
      PutKeepsOrder(keys, data, saved.id.value, saved);
      keys := KeysAfterPut(keys, data, saved.id.value);
      data := data[saved.id.value := saved];
    }

    function FindById(orderId: int): (r: Option<Order>)
      reads this
      ensures r.Some? <==> orderId in data
      ensures r.Some? ==> r.value == data[orderId]
    {
      if orderId in data then Some(data[orderId]) else None
    }

    /** `orders[skip : skip + limit]` over all orders. */
    function FindAll(skip: int, limit: int): (r: seq<Order>)
      reads this
      requires Valid()
      ensures limit >= 0 ==> |r| <= limit
      ensures skip >= 0 && limit >= 0 ==> |r| == Max(0, Min(skip + limit, |keys|) - skip)
      ensures skip >= 0 && limit >= 0 ==> forall i :: 0 <= i < |r| ==> r[i] == data[keys[skip + i]]
    {
      WindowShape(Orders(), skip, limit);
      Window(Orders(), skip, limit)
    }

    /** The user's orders, in insertion order, then the page: every order returned is the
        user's, and at most `limit` are returned. */
    function FindByUserId(userId: int, skip: int, limit: int): (r: seq<Order>)
      reads this
      requires Valid()
      ensures limit >= 0 ==> |r| <= limit
      ensures forall o :: o in r ==> o in Orders() && o.userId == userId
      ensures skip >= 0 && limit >= 0 ==>
        |r| == Max(0, Min(skip + limit, |Filter(Orders(), OfUser(userId))|) - skip)
      ensures skip >= 0 && limit >= 0 ==>
        forall i :: 0 <= i < |r| ==> r[i] == Filter(Orders(), OfUser(userId))[skip + i]
    {
      WindowShape(Filter(Orders(), OfUser(userId)), skip, limit);
      Window(Filter(Orders(), OfUser(userId)), skip, limit)
    }
  }
}
