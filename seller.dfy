/** The seller profile attached to a user. */
module SellerModel {
  import opened Common

  datatype SellerData = SellerData(id: int, userId: int, storeName: string, description: Option<string>)

  /** The mutable seller entity. */
  class Seller {
    var id: int
    var userId: int
    var storeName: string
    var description: Option<string>

    function Data(): SellerData
      reads this
    {
      SellerData(id, userId, storeName, description)
    }

    constructor FromData(d: SellerData)
      ensures Data() == d
    {
      id, userId, storeName, description := d.id, d.userId, d.storeName, d.description;
    }

    /** Each given field replaces the stored one and each `None` keeps it, so a description,
        once set, can never be cleared; `id` and `user_id` never change. */
    method UpdateInfo(newStoreName: Option<string>, newDescription: Option<string>)
      modifies this
      ensures storeName == if newStoreName.Some? then newStoreName.value else old(storeName)
      ensures description == if newDescription.Some? then newDescription else old(description)
      ensures old(description).Some? ==> description.Some?
      ensures id == old(id) && userId == old(userId)
    {
      if newStoreName.Some? {
        storeName := newStoreName.value;
      }
      if newDescription.Some? {
        description := newDescription;
      }
    }
  }
}
