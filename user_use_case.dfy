/** The user use cases over the user table: sign-up with a unique email, login, profile
    update and the switch to the seller role. Password hashing, password checking and token
    signing are function parameters standing for bcrypt and JWT. */
module UserUseCases {
  import opened Common
  import opened UserModel
  import FakeUserRepo

  /** No two stored users share an email. */
  ghost predicate UniqueEmails(data: map<int, UserData>)
  {
    forall a, b :: a in data && b in data && data[a].email == data[b].email ==> a == b
  }

  /** The password change `update_user` makes: only a given, non-empty password is hashed
      and stored. */
  function NewHash(current: string, password: Option<string>, hash: string -> string): (h: string)
    ensures password.None? || password.value == "" ==> h == current
    ensures password.Some? && password.value != "" ==> h == hash(password.value)
  {
    if password.Some? && password.value != "" then hash(password.value) else current
  }

  /** The login decision for the user found by email: InvalidCredentials for no user or a
      wrong password, which is checked before UserInactive; otherwise the token signed for
      the user's email. */
  function LoginDecision(found: Option<UserData>, password: string, verify: (string, string) -> bool,
                         sign: string -> string): (r: Result<string>)
    ensures r.Ok? <==> found.Some? && verify(password, found.value.hashedPassword) && found.value.isActive
    ensures found.None? || !verify(password, found.value.hashedPassword) ==> r == Err(InvalidCredentials)
    ensures found.Some? && verify(password, found.value.hashedPassword) && !found.value.isActive ==> r == Err(UserInactive)
    ensures r.Ok? ==> r.value == sign(found.value.email)
  {
    if found.None? || !verify(password, found.value.hashedPassword) then Err(InvalidCredentials)
    else if !found.value.isActive then Err(UserInactive)
    else Ok(sign(found.value.email))
  }

  /** An inactive account with a wrong password is reported as bad credentials, not as
      inactive: nothing about the account leaks before the password is checked. */
  lemma InactiveNeedsPassword(u: UserData, password: string, verify: (string, string) -> bool, sign: string -> string)
    requires !u.isActive
    ensures LoginDecision(Some(u), password, verify, sign).Err?
    ensures LoginDecision(Some(u), password, verify, sign) == Err(UserInactive) <==> verify(password, u.hashedPassword)
  {
  }

  class UserUseCase {
    const users: FakeUserRepo.FakeUserRepository

    /** The table is well-formed, its counter is ahead of its ids, and emails are unique. */
    ghost predicate Valid()
      reads this, users
    {
      users.Valid() && users.IdsBelowCounter() && UniqueEmails(users.data)
    }

    constructor (users: FakeUserRepo.FakeUserRepository)
      ensures this.users == users
    {
      this.users := users;
    }

    /** `create_user`: EmailAlreadyExists, adding no user, when the email is taken; otherwise
        an active buyer with the hash of the password is stored under the next id. */
    method CreateUser(email: string, fullName: Option<string>, password: string, hash: string -> string)
      returns (r: Result<UserData>)
      modifies users
      requires Valid()
      ensures Valid()
      ensures r.Err? <==> exists k :: k in old(users.data) && old(users.data)[k].email == email
      ensures r.Err? ==> r.error == EmailAlreadyExists && users.data == old(users.data) && users.nextId == old(users.nextId)
      ensures r.Err? ==> users.keys == old(users.keys)
      ensures r.Ok? ==>
        && r.value == UserData(Some(old(users.nextId)), email, fullName, hash(password), true, Buyer, None)
        && old(users.nextId) !in old(users.data)
        && users.data == old(users.data)[old(users.nextId) := r.value]
        && users.nextId == old(users.nextId) + 1
        && users.keys == old(users.keys) + [old(users.nextId)]
    {
      var existing := users.GetByEmail(email);
      if existing.Some? {
        var u := existing.value;
        var j :| 0 <= j < |users.Users()| && users.Users()[j] == u;
        assert users.keys[j] in users.data;
        return Err(EmailAlreadyExists);
      }
      var entity := new User.Build(NewUserData(email, fullName, "temp"));
      entity.SetPassword(password, hash);
      var created := users.Create(entity.Data());
      r := Ok(created);
    }

    /** `login_user`: the decision for the first user with that email. By the email
        uniqueness that is the only user with it. */
    method LoginUser(email: string, password: string, verify: (string, string) -> bool, sign: string -> string)
      returns (r: Result<string>)
      requires Valid()
      ensures var found := FirstWhere(users.Users(), FakeUserRepo.HasEmail(email));
        r == LoginDecision(found, password, verify, sign)
      ensures (forall k :: k in users.data ==> users.data[k].email != email) ==> r == Err(InvalidCredentials)
      ensures forall k :: k in users.data && users.data[k].email == email ==>
        r == LoginDecision(Some(users.data[k]), password, verify, sign)
    {
      var user := users.GetByEmail(email);
      if user.Some? {
        var u := user.value;
        var j :| 0 <= j < |users.Users()| && users.Users()[j] == u;
        assert users.keys[j] in users.data;
      }
      if user.None? || !verify(password, user.value.hashedPassword) {
        return Err(InvalidCredentials);
      }
      if !user.value.isActive {
        return Err(UserInactive);
      }
      r := Ok(sign(user.value.email));
    }

    /** `update_user`: UserNotFound for a missing user; otherwise the password is re-hashed only
        when a non-empty one is given, the full name is replaced only when one is given, and
        nothing else about the user changes. */
    method UpdateUser(userId: int, password: Option<string>, fullName: Option<string>, hash: string -> string)
      returns (r: Result<UserData>)
      modifies users
      requires Valid()
      ensures Valid()
      ensures userId !in old(users.data) <==> r == Err(NotFound(UserEntity))
      ensures r.Err? ==> users.data == old(users.data)
      ensures r.Ok? ==>
        var before := old(users.data)[userId];
        && r.value == before.(hashedPassword := NewHash(before.hashedPassword, password, hash),
                              fullName := if fullName.Some? then fullName else before.fullName)
        && users.data == old(users.data)[userId := r.value]
      ensures users.nextId == old(users.nextId) && users.keys == old(users.keys)
    {
      var user := users.GetById(userId);
      if user.None? {
        return Err(NotFound(UserEntity));
      }
      var entity := new User.Load(user.value);
      if password.Some? && password.value != "" {
        entity.SetPassword(password.value, hash);
      }
      entity.UpdateInfo(fullName);
      var updated := users.Update(entity.Data());
      r := Ok(updated);
    }

    /** `register_as_seller`: UserNotFound for a missing user, SellerAlreadyExists for a user
        who is already a seller; otherwise the role becomes SELLER and nothing else changes. */
    method RegisterAsSeller(userId: int) returns (r: Result<UserData>)
      modifies users
      requires Valid()
      ensures Valid()
      ensures userId !in old(users.data) ==> r == Err(NotFound(UserEntity))
      ensures userId in old(users.data) && old(users.data)[userId].role == Seller ==> r == Err(SellerAlreadyExists)
      ensures r.Ok? <==> userId in old(users.data) && old(users.data)[userId].role != Seller
      ensures r.Err? ==> users.data == old(users.data)
      ensures r.Ok? ==>
        && r.value == old(users.data)[userId].(role := Seller)
        && users.data == old(users.data)[userId := r.value]
      ensures users.nextId == old(users.nextId) && users.keys == old(users.keys)
    {
      var user := users.GetById(userId);
      if user.None? {
        return Err(NotFound(UserEntity));
      }
      var entity := new User.Load(user.value);
      if entity.IsSeller() {
        return Err(SellerAlreadyExists);
      }
      entity.PromoteToSeller();
      var updated := users.Update(entity.Data());
      r := Ok(updated);
    }
  }
}
