/** The in-memory seller table. Unlike the other tables it always assigns the counter's id. */
module FakeSellerRepo {
  import opened Common
  import opened Tables
  import opened SellerModel

  function OfUser(userId: int): SellerData -> bool
  {
    (s: SellerData) => s.userId == userId
  }

  class FakeSellerRepository {
    var data: map<int, SellerData>
    var keys: seq<int>
    var nextId: int

    /** Keys in insertion order, each seller stored under its own id, and every id below the
        counter: the table assigns all ids itself, so this always holds. */
    ghost predicate Valid()
      reads this
    {
      && InsertionOrdered(keys, data)
      && (forall k :: k in data ==> data[k].id == k)
      && (forall k :: k in data ==> k < nextId)
    }

    function Sellers(): seq<SellerData>
      reads this
      requires Valid()
    {
      Values(keys, data)
    }

    /** The sellers of one user. */
    function SellersOf(userId: int): (r: seq<SellerData>)
      reads this
      requires Valid()
      ensures forall s :: s in r <==> s in Sellers() && s.userId == userId
    {
      Filter(Sellers(), OfUser(userId))
    }

    constructor ()
      ensures Valid()
      ensures data == map[] && keys == [] && nextId == 1
    {
      data, keys, nextId := map[], [], 1;
    }

    /** The first seller, in insertion order, of that user, or `None` when the user has none. */
    method GetByUserId(userId: int) returns (r: Option<SellerData>)
      requires Valid()
      ensures r == FirstWhere(Sellers(), OfUser(userId))
      ensures r.None? <==> forall k :: k in data ==> data[k].userId != userId
      ensures r.Some? ==> r.value in Sellers() && r.value.userId == userId
    {
      var i := 0;
      while i < |keys|
        invariant 0 <= i <= |keys|
        invariant FirstWhere(Sellers(), OfUser(userId)) == FirstWhere(Sellers()[i..], OfUser(userId))
      {
        FirstWhereStep(Sellers(), OfUser(userId), i);
        var seller := data[keys[i]];
        if seller.userId == userId {
          ValuesCover(keys, data);
          return Some(seller);
        }
        i := i + 1;
      }
      ValuesCover(keys, data);
      return None;
    }

    /** The new seller takes the counter's id, which no stored seller has, and goes last; the
        counter moves on. A second seller for the same user is not refused. */
    method Create(userId: int, storeName: string, description: Option<string>) returns (saved: SellerData)
      modifies this
      requires Valid()
      ensures Valid()
      ensures saved == SellerData(old(nextId), userId, storeName, description)
      ensures saved.id !in old(data)
      ensures data == old(data)[saved.id := saved] && keys == old(keys) + [saved.id]
      ensures nextId == old(nextId) + 1
      ensures Sellers() == old(Sellers()) + [saved]
    {
      saved := SellerData(nextId, userId, storeName, description);
      PutKeepsOrder(keys, data, nextId, saved);
      keys := keys + [nextId];
      data := data[nextId := saved];
      nextId := nextId + 1;
    }

    /** Replaces the stored seller when its id is present and changes nothing otherwise. */
    method Update(seller: SellerData) returns (r: SellerData)
      modifies this
      requires Valid()
      ensures Valid()
      ensures r == seller
      ensures seller.id in old(data) ==> data == old(data)[seller.id := seller]
      ensures seller.id !in old(data) ==> data == old(data)
      ensures keys == old(keys) && nextId == old(nextId)
    {
      if seller.id in data {
        data := data[seller.id := seller];
      }
      return seller;
    }
  }
}
