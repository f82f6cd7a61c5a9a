/** The user entity: role, activation and the seller profile, with the validator that makes a
    user with a seller profile a seller. Password hashing is a parameter. */
module UserModel {
  import opened Common
  import SellerModel

  datatype Role = Buyer | Seller | Admin

  datatype UserData = UserData(
    id: Option<int>,
    email: string,
    fullName: Option<string>,
    hashedPassword: string,
    isActive: bool,
    role: Role,
    seller: Option<SellerModel.SellerData>)

  /** What the model validator leaves after construction: a user that has a seller profile and
      is not yet a seller becomes one; every other user is kept as given. */
  function Validated(d: UserData): (r: UserData)
    ensures r.seller.Some? ==> r.role == Seller
    ensures r.seller.None? ==> r == d
    ensures r == d.(role := r.role)
  {
    if d.seller.Some? && d.role != Seller then d.(role := Seller) else d
  }

  /** A user built from the required fields alone: the defaults make it an active buyer with
      no id and no seller profile, which the validator leaves as it is. */
  function NewUserData(email: string, fullName: Option<string>, hashedPassword: string): (d: UserData)
    ensures d.id.None? && d.isActive && d.role == Buyer && d.seller.None?
    ensures d.email == email && d.fullName == fullName && d.hashedPassword == hashedPassword
    ensures Validated(d) == d
  {
    UserData(None, email, fullName, hashedPassword, true, Buyer, None)
  }

  /** Validation changes nothing the second time. */
  lemma ValidatedIdempotent(d: UserData)
    ensures Validated(Validated(d)) == Validated(d)
  {
  }

  /** The mutable user entity. */
  class User {
    var id: Option<int>
    var email: string
    var fullName: Option<string>
    var hashedPassword: string
    var isActive: bool
    var role: Role
    var seller: Option<SellerModel.SellerData>

    function Data(): UserData
      reads this
    {
      UserData(id, email, fullName, hashedPassword, isActive, role, seller)
    }

    /** `is_seller`: the role is SELLER. */
    predicate IsSeller()
      reads this
    {
      role == Seller
    }

    /** Building a user runs the validator. With the defaults (`is_active` true, role BUYER,
        no seller) the new user is an active buyer. */
    constructor Build(d: UserData)
      ensures Data() == Validated(d)
      ensures d.seller.Some? ==> IsSeller()
    {
      id, email, fullName, hashedPassword, isActive, role, seller :=
        d.id, d.email, d.fullName, d.hashedPassword, d.isActive, d.role, d.seller;
      new;
      if seller.Some? && role != Seller {
        role := Seller;
      }
    }

    /** A stored user loaded back, as it was saved. */
    constructor Load(d: UserData)
      ensures Data() == d
    {
      id, email, fullName, hashedPassword, isActive, role, seller :=
        d.id, d.email, d.fullName, d.hashedPassword, d.isActive, d.role, d.seller;
    }

    /** `None` keeps the full name; anything else replaces it. Nothing else changes. */
    method UpdateInfo(newFullName: Option<string>)
      modifies this
      ensures fullName == if newFullName.Some? then newFullName else old(fullName)
      ensures Data() == old(Data()).(fullName := fullName)
    {
      if newFullName.Some? {
        fullName := newFullName;
      }
    }

    /** Stores `hash(password)`; nothing else changes. The hash function stands for bcrypt
        with a fresh salt. */
    method SetPassword(password: string, hash: string -> string)
      modifies this
      ensures Data() == old(Data()).(hashedPassword := hash(password))
    {
      hashedPassword := hash(password);
    }

    /** Afterwards the user is a seller; a seller is left exactly as it was, so promoting twice
        is promoting once. Nothing but the role changes. */
    method PromoteToSeller()
      modifies this
      ensures IsSeller()
      ensures old(IsSeller()) ==> Data() == old(Data())
      ensures Data() == old(Data()).(role := Seller)
    {
      if !IsSeller() {
        role := Seller;
      }
    }
  }
}
