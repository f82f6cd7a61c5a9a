/** The in-memory product table: an id-keyed dictionary and a counter for the next id. */
module FakeProductRepo {
  import opened Common
  import opened Tables
  import opened ProductModel

  /** The products of one seller, or all of them. */
  function OfSeller(ps: seq<ProductData>, sellerId: Option<int>): (r: seq<ProductData>)
    ensures forall p :: p in r <==> p in ps && (sellerId.Some? ==> p.sellerId == sellerId.value)
  {
    if sellerId.Some? then Filter(ps, (p: ProductData) => p.sellerId == sellerId.value) else ps
  }

  /** `list(offset, limit, seller_id)`: filter by seller first, then take the page. */
  function Listing(ps: seq<ProductData>, offset: int, limit: int, sellerId: Option<int>): seq<ProductData>
  {
    Window(OfSeller(ps, sellerId), offset, limit)
  }

  /** A listing holds at most `limit` products, each a stored product of the requested seller,
      and with a non-negative offset it is the filtered run starting at `offset`. */
  lemma ListingShape(ps: seq<ProductData>, offset: int, limit: int, sellerId: Option<int>)
    ensures var r := Listing(ps, offset, limit, sellerId);
      && (limit >= 0 ==> |r| <= limit)
      && (forall p :: p in r ==> p in ps && (sellerId.Some? ==> p.sellerId == sellerId.value))
      && (offset >= 0 && limit >= 0 ==>
            && |r| == Max(0, Min(offset + limit, |OfSeller(ps, sellerId)|) - offset)
            && forall i :: 0 <= i < |r| ==> r[i] == OfSeller(ps, sellerId)[offset + i])
  {
    WindowShape(OfSeller(ps, sellerId), offset, limit);
  }

  class FakeProductRepository {
    var data: map<int, ProductData>
    var keys: seq<int>
    var nextId: int

    /** Keys in insertion order, and each product stored under its own id. */
    ghost predicate Valid()
      reads this
    {
      InsertionOrdered(keys, data) && forall k :: k in data ==> data[k].id == Some(k)
    }

    /** Every stored id is below the counter, so the next assigned id is fresh. */
    ghost predicate IdsBelowCounter()
      reads this
    {
      forall k :: k in data ==> k < nextId
    }

    /** `list(self._data.values())`. */
    function Products(): (r: seq<ProductData>)
      reads this
      requires Valid()
      ensures |r| == |keys| && forall i :: 0 <= i < |keys| ==> r[i] == data[keys[i]]
    {
      Values(keys, data)
    }

    constructor ()
      ensures Valid() && IdsBelowCounter()
      ensures data == map[] && keys == [] && nextId == 1
    {
      data, keys, nextId := map[], [], 1;
    }

    /** A product without an id gets the counter's value and the counter moves on; the
        product is then stored under its id, replacing any product there. */
    method Create(product: ProductData) returns (saved: ProductData)
      modifies this
      requires Valid()
      ensures Valid()
      ensures product.id.None? ==> saved == product.(id := Some(old(nextId))) && nextId == old(nextId) + 1
      ensures product.id.Some? ==> saved == product && nextId == old(nextId)
      ensures data == old(data)[saved.id.value := saved]
      ensures keys == KeysAfterPut(old(keys), old(data), saved.id.value)
      ensures product.id.None? && old(IdsBelowCounter()) ==> saved.id.value !in old(data) && IdsBelowCounter()
    {
      saved := product;
      if saved.id.None? {
        saved := saved.(id := Some(nextId));
        nextId := nextId + 1;
      }
      PutKeepsOrder(keys, data, saved.id.value, saved);
      keys := KeysAfterPut(keys, data, saved.id.value);
      data := data[saved.id.value := saved];
    }

    /** `self._data.get(product_id)`. */
    function GetById(productId: int): (r: Option<ProductData>)
      reads this
      ensures r.Some? <==> productId in data
      ensures r.Some? ==> r.value == data[productId]
    {
      if productId in data then Some(data[productId]) else None
    }

    /** The page of products, filtered by seller; see `ListingShape`. */
    function List(offset: int, limit: int, sellerId: Option<int>): (r: seq<ProductData>)
      reads this
      requires Valid()
      ensures r == Listing(Products(), offset, limit, sellerId)
      ensures limit >= 0 ==> |r| <= limit
      ensures forall p :: p in r ==> p in data.Values && (sellerId.Some? ==> p.sellerId == sellerId.value)
    {
      ListingShape(Products(), offset, limit, sellerId);
      var r := Listing(Products(), offset, limit, sellerId);
      assert forall p :: p in Products() ==> p in data.Values by {
        forall p | p in Products() ensures p in data.Values {
          var i :| 0 <= i < |Products()| && Products()[i] == p;
          assert keys[i] in data;
        }
      }
      r
    }

    /** Replaces the stored product when its id is present and changes nothing otherwise;
        there is no version check and no conflict. The argument is returned as it is. */
    method Update(product: ProductData) returns (r: ProductData)
      modifies this
      requires Valid()
      ensures Valid()
      ensures r == product
      ensures product.id.Some? && product.id.value in old(data) ==> data == old(data)[product.id.value := product]
      ensures !(product.id.Some? && product.id.value in old(data)) ==> data == old(data)
      ensures keys == old(keys) && nextId == old(nextId)
    {
      if product.id.Some? && product.id.value in data {
        data := data[product.id.value := product];
      }
      return product;
    }
  }
}
