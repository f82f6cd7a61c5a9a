/** The in-memory cart table. Its bulk deletions first collect the ids to delete in one pass
    and then delete them in a second. */
module FakeCartRepo {
  import opened Common
  import opened Tables
  import opened CartModel

  function SamePair(userId: int, productId: int): CartItem -> bool
  {
    (c: CartItem) => c.userId == userId && c.productId == productId
  }

  function OfUser(userId: int): CartItem -> bool
  {
    (c: CartItem) => c.userId == userId
  }

  function OfUserAmong(userId: int, productIds: seq<int>): CartItem -> bool
  {
    (c: CartItem) => c.userId == userId && c.productId in productIds
  }

  /** The keys whose item passes `keep`. */
  ghost function Matching(data: map<int, CartItem>, keep: CartItem -> bool): set<int>
  {
    set k | k in data && keep(data[k])
  }

  /** The ids listed in `ids`. */
  function IdSet(ids: seq<int>): set<int>
  {
    set k | k in ids
  }

  class FakeCartRepository {
    var data: map<int, CartItem>
    var keys: seq<int>
    var nextId: int

    /** Keys in insertion order, and each item stored under its own id. */
    ghost predicate Valid()
      reads this
    {
      InsertionOrdered(keys, data) && forall k :: k in data ==> data[k].id == Some(k)
    }

    /** Every stored id is below the counter, so the next assigned id is fresh. */
    ghost predicate IdsBelowCounter()
      reads this
    {
      forall k :: k in data ==> k < nextId
    }

    function Items(): seq<CartItem>
      reads this
      requires Valid()
    {
      Values(keys, data)
    }

    constructor ()
      ensures Valid() && IdsBelowCounter()
      ensures data == map[] && keys == [] && nextId == 1
    {
      data, keys, nextId := map[], [], 1;
    }

    /** The first item, in insertion order, of that user and product, or `None`. */
    method GetByUserAndProduct(userId: int, productId: int) returns (r: Option<CartItem>)
      requires Valid()
      ensures r == FirstWhere(Items(), SamePair(userId, productId))
      ensures r.None? <==> forall k :: k in data ==> !(data[k].userId == userId && data[k].productId == productId)
      ensures r.Some? ==> r.value in Items() && r.value.userId == userId && r.value.productId == productId
    {
      var i := 0;
      while i < |keys|
        invariant 0 <= i <= |keys|
        invariant FirstWhere(Items(), SamePair(userId, productId)) == FirstWhere(Items()[i..], SamePair(userId, productId))
      {
        FirstWhereStep(Items(), SamePair(userId, productId), i);
        var item := data[keys[i]];
        if item.userId == userId && item.productId == productId {
          ValuesCover(keys, data);
          return Some(item);
        }
        i := i + 1;
      }
      ValuesCover(keys, data);
      return None;
    }

    /** Exactly the user's items, in insertion order. */
    function GetAllByUserId(userId: int): (r: seq<CartItem>)
      reads this
      requires Valid()
      ensures forall c :: c in r <==> c in Items() && c.userId == userId
    {
      Filter(Items(), OfUser(userId))
    }

    /** An item without an id gets the counter's value and the counter moves on; the item is
        then stored under its id, replacing the item there if the id was known. */
    method Save(item: CartItem) returns (saved: CartItem)
      modifies this
      requires Valid()
      ensures Valid()
      ensures item.id.None? ==> saved == item.(id := Some(old(nextId))) && nextId == old(nextId) + 1
      ensures item.id.Some? ==> saved == item && nextId == old(nextId)
      ensures data == old(data)[saved.id.value := saved]
      ensures keys == KeysAfterPut(old(keys), old(data), saved.id.value)
      ensures item.id.None? && old(IdsBelowCounter()) ==> saved.id.value !in old(data) && IdsBelowCounter()
      ensures item.id.Some? && item.id.value < old(nextId) && old(IdsBelowCounter()) ==> IdsBelowCounter()
    {
      saved := item;
      if saved.id.None? {
        saved := saved.(id := Some(nextId));
        nextId := nextId + 1;
      }
      PutKeepsOrder(keys, data, saved.id.value, saved);
      keys := KeysAfterPut(keys, data, saved.id.value);
      data := data[saved.id.value := saved];
    }

    /** Removes the item's id from the table, or does nothing when it is absent. */
    method Delete(item: CartItem)
      modifies this
      requires Valid()
      ensures Valid()
      ensures item.id.Some? ==> data == old(data) - {item.id.value} && keys == KeysWithout(old(keys), {item.id.value})
      ensures item.id.None? ==> data == old(data) && keys == old(keys)
      ensures nextId == old(nextId)
    {
      if item.id.Some? && item.id.value in data {
        DeleteKeepsOrder(keys, data, {item.id.value});
        keys := KeysWithout(keys, {item.id.value});
        data := data - {item.id.value};
      } else if item.id.Some? {
        KeysWithoutAbsent(keys, {item.id.value});
      }
    }

    /** Deletes the first item of that user and product, if there is one; a user has at most
        one such item when the cart keeps one row per pair. */
    method DeleteByUserAndProduct(userId: int, productId: int)
      modifies this
      requires Valid()
      ensures Valid()
      ensures var found := old(FirstWhere(Items(), SamePair(userId, productId)));
        && (found.None? ==> data == old(data) && keys == old(keys))
        && (found.Some? ==> data == old(data) - {found.value.id.value} && keys == KeysWithout(old(keys), {found.value.id.value}))
      ensures nextId == old(nextId)
    {
      var item := GetByUserAndProduct(userId, productId);
      if item.Some? {
        ValuesCover(keys, data);
        Delete(item.value);
      }
    }

    /** The ids, in insertion order, of the items that pass `keep`. */
    method CollectIds(keep: CartItem -> bool) returns (ids: seq<int>)
      requires Valid()
      ensures forall k :: k in ids <==> k in data && keep(data[k])
      ensures IdSet(ids) == Matching(data, keep)
    {
      ids := [];
      var i := 0;
      while i < |keys|
        invariant 0 <= i <= |keys|
        invariant forall k :: k in ids <==> k in keys[..i] && keep(data[k])
      {
        assert keys[..i + 1] == keys[..i] + [keys[i]];
        if keep(data[keys[i]]) {
          ids := ids + [keys[i]];
        }
        i := i + 1;
      }
      assert keys[..i] == keys;
      assert forall k :: k in IdSet(ids) <==> k in Matching(data, keep);
    }

    /** Deletes each listed id that is still present. */
    method DeleteEach(ids: seq<int>)
      modifies this
      requires Valid()
      ensures Valid()
      ensures data == old(data) - IdSet(ids)
      ensures keys == KeysWithout(old(keys), IdSet(ids))
      ensures nextId == old(nextId)
    {
      var keys0, data0 := keys, data;
      KeysWithoutAbsent(keys, {});
      assert IdSet(ids[..0]) == {};
      var i := 0;
      while i < |ids|
        invariant 0 <= i <= |ids|
        invariant data == data0 - IdSet(ids[..i])
        invariant keys == KeysWithout(keys0, IdSet(ids[..i]))
        invariant nextId == old(nextId)
      {
        var gone := IdSet(ids[..i]);
        assert IdSet(ids[..i + 1]) == gone + {ids[i]} by {
          assert ids[..i + 1] == ids[..i] + [ids[i]];
        }
        DeleteStep(keys0, data0, gone, ids[i]);
        if ids[i] in data {
          keys := KeysWithout(keys, {ids[i]});
          data := data - {ids[i]};
        }
        i := i + 1;
      }
      assert ids[..i] == ids;
      DeleteKeepsOrder(keys0, data0, IdSet(ids));
    }

    /** Deletes exactly the user's items whose product is listed; every other item stays as
        it was. */
    method DeleteItemsByUserId(userId: int, productIds: seq<int>)
      modifies this
      requires Valid()
      ensures Valid()
      ensures data == old(data) - Matching(old(data), OfUserAmong(userId, productIds))
      ensures keys == KeysWithout(old(keys), Matching(old(data), OfUserAmong(userId, productIds)))
      ensures forall k :: k in data <==> k in old(data) && !(old(data)[k].userId == userId && old(data)[k].productId in productIds)
      ensures nextId == old(nextId)
    {
      var ids := CollectIds(OfUserAmong(userId, productIds));
      DeleteEach(ids);
    }

    /** Deletes all and only the user's items. */
    method DeleteAllByUserId(userId: int)
      modifies this
      requires Valid()
      ensures Valid()
      ensures data == old(data) - Matching(old(data), OfUser(userId))
      ensures keys == KeysWithout(old(keys), Matching(old(data), OfUser(userId)))
      ensures forall k :: k in data <==> k in old(data) && old(data)[k].userId != userId
      ensures nextId == old(nextId)
    {
      var ids := CollectIds(OfUser(userId));
      DeleteEach(ids);
    }
  }
}
