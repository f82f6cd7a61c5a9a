/** The seller use cases: registering a user as a seller with a store profile, and looking a
    user's profile up. */
module SellerUseCases {
  import opened Common
  import opened UserModel
  import SellerModel
  import FakeUserRepo
  import FakeSellerRepo

  /** At most one seller profile per user. */
  ghost predicate OneSellerPerUser(data: map<int, SellerModel.SellerData>)
  {
    forall a, b :: a in data && b in data && data[a].userId == data[b].userId ==> a == b
  }

  class SellerUseCase {
    const sellers: FakeSellerRepo.FakeSellerRepository
    const users: FakeUserRepo.FakeUserRepository

    /** Both tables are well-formed and no user has two seller profiles. */
    ghost predicate Valid()
      reads this, sellers, users
    {
      sellers.Valid() && users.Valid() && OneSellerPerUser(sellers.data)
    }

    constructor (sellers: FakeSellerRepo.FakeSellerRepository, users: FakeUserRepo.FakeUserRepository)
      ensures this.sellers == sellers && this.users == users
    {
      this.sellers, this.users := sellers, users;
    }

    /** `register_seller`: UserNotFound for an unknown user, then SellerAlreadyExists when the
        user already has a profile; otherwise a profile with the given store name and
        description is created under the next id, it is then the user's only profile, and the
        user's role becomes SELLER. On an error neither table changes. */
    method RegisterSeller(userId: int, storeName: string, description: Option<string>)
      returns (r: Result<SellerModel.SellerData>)
      modifies sellers, users
      requires Valid()
      ensures Valid()
      ensures userId !in old(users.data) ==> r == Err(NotFound(UserEntity))
      ensures userId in old(users.data) && (exists k :: k in old(sellers.data) && old(sellers.data)[k].userId == userId) ==>
        r == Err(SellerAlreadyExists)
      ensures r.Ok? <==> userId in old(users.data) && forall k :: k in old(sellers.data) ==> old(sellers.data)[k].userId != userId
      ensures r.Err? ==> sellers.data == old(sellers.data) && users.data == old(users.data)
      ensures r.Ok? ==>
        && r.value == SellerModel.SellerData(old(sellers.nextId), userId, storeName, description)
        && sellers.data == old(sellers.data)[r.value.id := r.value]
        && (forall k :: k in sellers.data && sellers.data[k].userId == userId ==> k == r.value.id)
        && users.data == old(users.data)[userId := old(users.data)[userId].(role := Seller)]
        && sellers.keys == old(sellers.keys) + [r.value.id] && sellers.nextId == old(sellers.nextId) + 1
      ensures r.Err? ==> sellers.keys == old(sellers.keys) && sellers.nextId == old(sellers.nextId)
      ensures users.keys == old(users.keys) && users.nextId == old(users.nextId)
    {
      var user := users.GetById(userId);
      if user.None? {
        return Err(NotFound(UserEntity));
      }
      var existing := sellers.GetByUserId(userId);
      if existing.Some? {
        return Err(SellerAlreadyExists);
      }
      var saved := sellers.Create(userId, storeName, description);
      var entity := new User.Load(user.value);
      entity.PromoteToSeller();
      var _ := users.Update(entity.Data());
      r := Ok(saved);
    }

    /** `get_seller`: the user's profile, or `None` when the user has none. */
    method GetSeller(userId: int) returns (r: Option<SellerModel.SellerData>)
      requires Valid()
      ensures r.None? <==> forall k :: k in sellers.data ==> sellers.data[k].userId != userId
      ensures r.Some? ==> r.value.id in sellers.data && sellers.data[r.value.id] == r.value && r.value.userId == userId
    {
      r := sellers.GetByUserId(userId);
      if r.Some? {
        var s := r.value;
        var j :| 0 <= j < |sellers.Sellers()| && sellers.Sellers()[j] == s;
        assert sellers.keys[j] in sellers.data;
      }
    }
  }

  /** After a registration the user has a profile, so a second registration of the same user
      is refused with SellerAlreadyExists, and the table still has one profile per user. */
  lemma RegisteredUserHasProfile(data: map<int, SellerModel.SellerData>, id: int, userId: int,
                                  storeName: string, description: Option<string>)
    requires id !in data && OneSellerPerUser(data)
    requires forall k :: k in data ==> data[k].userId != userId
    ensures var after := data[id := SellerModel.SellerData(id, userId, storeName, description)];
      && OneSellerPerUser(after)
      && (exists k :: k in after && after[k].userId == userId)
  {
    var after := data[id := SellerModel.SellerData(id, userId, storeName, description)];
    assert after[id].userId == userId;
  }
}
