/** The in-memory user table. */
module FakeUserRepo {
  import opened Common
  import opened Tables
  import opened UserModel

  function HasEmail(email: string): UserData -> bool
  {
    (u: UserData) => u.email == email
  }

  class FakeUserRepository {
    var data: map<int, UserData>
    var keys: seq<int>
    var nextId: int

    /** Keys in insertion order, and each user stored under its own id. */
    ghost predicate Valid()
      reads this
    {
      InsertionOrdered(keys, data) && forall k :: k in data ==> data[k].id == Some(k)
    }

    /** Every stored id is below the counter, so the next assigned id is fresh. */
    ghost predicate IdsBelowCounter()
      reads this
    {
      forall k :: k in data ==> k < nextId
    }

    function Users(): (r: seq<UserData>)
      reads this
      requires Valid()
      ensures |r| == |keys| && forall i :: 0 <= i < |keys| ==> r[i] == data[keys[i]]
    {
      Values(keys, data)
    }

    constructor ()
      ensures Valid() && IdsBelowCounter()
      ensures data == map[] && keys == [] && nextId == 1
    {
      data, keys, nextId := map[], [], 1;
    }

    /** A user without an id gets the counter's value and the counter moves on; the user is
        then stored under its id. */
    method Create(user: UserData) returns (saved: UserData)
      modifies this
      requires Valid()
      ensures Valid()
      ensures user.id.None? ==> saved == user.(id := Some(old(nextId))) && nextId == old(nextId) + 1
      ensures user.id.Some? ==> saved == user && nextId == old(nextId)
      ensures data == old(data)[saved.id.value := saved]
      ensures keys == KeysAfterPut(old(keys), old(data), saved.id.value)
      ensures user.id.None? && old(IdsBelowCounter()) ==> saved.id.value !in old(data) && IdsBelowCounter()
    {
      saved := user;
      if saved.id.None? {
        saved := saved.(id := Some(nextId));
        nextId := nextId + 1;
      }
      PutKeepsOrder(keys, data, saved.id.value, saved);
      keys := KeysAfterPut(keys, data, saved.id.value);
      data := data[saved.id.value := saved];
    }

    /** The first user, in insertion order, with that email, or `None` when no user has it. */
    method GetByEmail(email: string) returns (r: Option<UserData>)
      requires Valid()
      ensures r == FirstWhere(Users(), HasEmail(email))
      ensures r.None? <==> forall k :: k in data ==> data[k].email != email
      ensures r.Some? ==> r.value in Users() && r.value.email == email
    {
      var i := 0;
      while i < |keys|
        invariant 0 <= i <= |keys|
        invariant FirstWhere(Users(), HasEmail(email)) == FirstWhere(Users()[i..], HasEmail(email))
      {
        FirstWhereStep(Users(), HasEmail(email), i);
        var user := data[keys[i]];
        if user.email == email {
          r := Some(user);
          ValuesCover(keys, data);
          return;
        }
        i := i + 1;
      }
      r := None;
      ValuesCover(keys, data);
    }

    function GetById(userId: int): (r: Option<UserData>)
      reads this
      ensures r.Some? <==> userId in data
      ensures r.Some? ==> r.value == data[userId]
    {
      if userId in data then Some(data[userId]) else None
    }

    /** Replaces the stored user when its id is present and changes nothing otherwise. */
    method Update(user: UserData) returns (r: UserData)
      modifies this
      requires Valid()
      ensures Valid()
      ensures r == user
      ensures user.id.Some? && user.id.value in old(data) ==> data == old(data)[user.id.value := user]
      ensures !(user.id.Some? && user.id.value in old(data)) ==> data == old(data)
      ensures keys == old(keys) && nextId == old(nextId)
    {
      if user.id.Some? && user.id.value in data {
        data := data[user.id.value := user];
      }
      return user;
    }
  }
}
