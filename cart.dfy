/** The cart row of a (user, product) pair and its quantity changes. */
module CartModel {
  import opened Common

  datatype CartItem = CartItem(id: Option<int>, userId: int, productId: int, quantity: int)

  /** The row constraint: a positive quantity. */
  predicate ItemValid(item: CartItem)
  {
    item.quantity > 0
  }

  /** `add_quantity(n)`: a non-positive `n` is InvalidDomain; otherwise the quantity grows by
      `n`. Only the quantity changes, so validity is kept. */
  function AddQuantity(item: CartItem, n: int): (r: Result<CartItem>)
    ensures r.Ok? <==> n > 0
    ensures r.Err? ==> r.error == InvalidDomain
    ensures r.Ok? ==> r.value == item.(quantity := item.quantity + n)
    ensures r.Ok? && ItemValid(item) ==> ItemValid(r.value)
  {
    if n <= 0 then Err(InvalidDomain) else Ok(item.(quantity := item.quantity + n))
  }

  /** `update_quantity(n)`: a non-positive `n` is InvalidDomain; otherwise the quantity becomes
      `n`, so the row is valid whatever it was before. */
  function UpdateQuantity(item: CartItem, n: int): (r: Result<CartItem>)
    ensures r.Ok? <==> n > 0
    ensures r.Err? ==> r.error == InvalidDomain
    ensures r.Ok? ==> r.value == item.(quantity := n) && ItemValid(r.value)
  {
    if n <= 0 then Err(InvalidDomain) else Ok(item.(quantity := n))
  }

  /** `add_quantity(n)` on the class as it is written: `CartItem` defines no such method, so
      the call raises AttributeError for every `n`, which is not InvalidDomain. */
  function AddQuantityAsWritten(item: CartItem, n: int): (r: Result<CartItem>)
    ensures r.Err? && r.error != InvalidDomain
  {
    Err(MissingAttribute)
  }

  /** `update_quantity(n)` on the class as it is written: likewise undefined. */
  function UpdateQuantityAsWritten(item: CartItem, n: int): (r: Result<CartItem>)
    ensures r.Err? && r.error != InvalidDomain
  {
    Err(MissingAttribute)
  }

  /** For every valid quantity the intended methods succeed, while the calls on the class as
      written fail with an error that `except InvalidDomainException` does not catch. */
  lemma QuantityMethodsMissing(item: CartItem, n: int)
    requires n > 0
    ensures AddQuantity(item, n).Ok? && AddQuantityAsWritten(item, n) == Err(MissingAttribute)
    ensures UpdateQuantity(item, n).Ok? && UpdateQuantityAsWritten(item, n) == Err(MissingAttribute)
    ensures MissingAttribute != InvalidDomain
  {
  }

  /** Adding twice is adding the sum once. */
  lemma AddQuantityTwice(item: CartItem, m: int, n: int)
    requires m > 0 && n > 0
    ensures AddQuantity(AddQuantity(item, m).value, n) == AddQuantity(item, m + n)
  {
  }

  /** Setting a quantity twice keeps the last one, and setting is idempotent. */
  lemma UpdateQuantityLastWins(item: CartItem, m: int, n: int)
    requires m > 0
    ensures UpdateQuantity(UpdateQuantity(item, m).value, n) == UpdateQuantity(item, n)
  {
  }
}
