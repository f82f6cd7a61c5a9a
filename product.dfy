/** The product entity: its stored snapshot, the guarded stock and price changes, and the
    partial update of its details. */
module ProductModel {
  import opened Common

  /** A product row. Prices are whole numbers in the model. */
  datatype ProductData = ProductData(
    id: Option<int>,
    name: string,
    description: Option<string>,
    price: int,
    stock: int,
    sellerId: int,
    version: int)

  /** The field constraints checked when a product is built: a positive price and a
      non-negative stock. */
  predicate Sound(d: ProductData)
  {
    d.price > 0 && d.stock >= 0
  }

  /** A product as first built: no id yet, and version 1. */
  function NewProductData(name: string, description: Option<string>, price: int, stock: int, sellerId: int): (d: ProductData)
    ensures d.id == None && d.version == 1
    ensures (d.name, d.description, d.price, d.stock, d.sellerId) == (name, description, price, stock, sellerId)
    ensures Sound(d) <==> price > 0 && stock >= 0
  {
    ProductData(None, name, description, price, stock, sellerId, 1)
  }

  /** The optional arguments of `update_details`; `None` means "leave as it is". */
  datatype ProductPatch = ProductPatch(
    name: Option<string>,
    description: Option<string>,
    price: Option<int>,
    stock: Option<int>)

  /** The fields `update_details` assigns, in order, before it stops: it sets the name and the
      description, then the price through `update_price`, then the stock, and raises at the
      first invalid price or stock, keeping the assignments already made. The result is the
      state it leaves behind and whether it raised. */
  function DetailsApplied(d: ProductData, p: ProductPatch): (ProductData, Outcome)
  {
    var d1 := d.(name := p.name.Or(d.name), description := if p.description.Some? then p.description else d.description);
    if p.price.Some? && p.price.value <= 0 then (d1, Fail(InvalidDomain))
    else
      var d2 := d1.(price := p.price.Or(d1.price));
      if p.stock.Some? && p.stock.value < 0 then (d2, Fail(InvalidDomain))
      else (d2.(stock := p.stock.Or(d2.stock)), Pass)
  }

  /** The patch is rejected exactly when it carries a non-positive price or a negative stock. */
  predicate PatchRejected(p: ProductPatch)
  {
    (p.price.Some? && p.price.value <= 0) || (p.stock.Some? && p.stock.value < 0)
  }

  /** On success every field the patch gives is taken from it, every other field is kept, and
      `id`, `seller_id` and `version` never change; on failure the error is InvalidDomain, the
      stock is untouched, and the price is untouched when the price was the invalid field. */
  lemma DetailsAppliedSpec(d: ProductData, p: ProductPatch)
    ensures var (e, o) := DetailsApplied(d, p);
      && (o.Fail? <==> PatchRejected(p))
      && (o.Fail? ==> o.error == InvalidDomain && e.stock == d.stock)
      && (o.Fail? && p.price.Some? && p.price.value <= 0 ==> e.price == d.price)
      && e.id == d.id && e.sellerId == d.sellerId && e.version == d.version
      && e.name == (if p.name.Some? then p.name.value else d.name)
      && e.description == (if p.description.Some? then p.description else d.description)
      && (o.Pass? ==> e.price == (if p.price.Some? then p.price.value else d.price))
      && (o.Pass? ==> e.stock == (if p.stock.Some? then p.stock.value else d.stock))
  {
  }

  /** An update whose every field is `None` changes nothing. */
  lemma EmptyPatchIsIdentity(d: ProductData)
    ensures DetailsApplied(d, ProductPatch(None, None, None, None)) == (d, Pass)
  {
  }

  /** Applying the same patch twice leaves the product as applying it once. */
  lemma DetailsIdempotent(d: ProductData, p: ProductPatch)
    requires DetailsApplied(d, p).1.Pass?
    ensures DetailsApplied(DetailsApplied(d, p).0, p) == DetailsApplied(d, p)
  {
  }

  /** Whether it raises or not, `update_details` keeps a sound product sound. */
  lemma DetailsKeepSound(d: ProductData, p: ProductPatch)
    requires Sound(d)
    ensures Sound(DetailsApplied(d, p).0)
  {
  }

  /** The mutable product entity. */
  class Product {
    var id: Option<int>
    var name: string
    var description: Option<string>
    var price: int
    var stock: int
    var sellerId: int
    var version: int

    function Data(): ProductData
      reads this
    {
      ProductData(id, name, description, price, stock, sellerId, version)
    }

    ghost predicate Valid()
      reads this
    {
      Sound(Data())
    }

    constructor FromData(d: ProductData)
      ensures Data() == d
    {
      id, name, description, price, stock, sellerId, version :=
        d.id, d.name, d.description, d.price, d.stock, d.sellerId, d.version;
    }

    /** Raises InsufficientStock exactly when the stock is below `quantity`; changes nothing. */
    method CheckStock(quantity: int) returns (o: Outcome)
      ensures o.Fail? <==> stock < quantity
      ensures o.Fail? ==> o.error == InsufficientStock
    {
      if stock < quantity {
        return Fail(InsufficientStock);
      }
      return Pass;
    }

    /** Raises PermissionDenied exactly when `seller` is not the product's seller; changes
        nothing. */
    method VerifyOwner(seller: int) returns (o: Outcome)
      ensures o.Fail? <==> sellerId != seller
      ensures o.Fail? ==> o.error == PermissionDenied
    {
      if sellerId != seller {
        return Fail(PermissionDenied);
      }
      return Pass;
    }

    /** A non-positive quantity is InvalidDomain, a quantity above the stock is
        InsufficientStock, and both leave the stock as it was; otherwise the stock drops by
        exactly `quantity` and stays non-negative. No other field changes. */
    method DecreaseStock(quantity: int) returns (o: Outcome)
      modifies this
      ensures quantity <= 0 ==> o == Fail(InvalidDomain)
      ensures quantity > 0 && old(stock) < quantity ==> o == Fail(InsufficientStock)
      ensures o.Fail? ==> stock == old(stock)
      ensures o.Pass? ==> stock == old(stock) - quantity >= 0
      ensures o.Pass? <==> 0 < quantity <= old(stock)
      ensures Data() == old(Data()).(stock := stock)
      ensures old(Valid()) ==> Valid()
    {
      if quantity <= 0 {
        return Fail(InvalidDomain);
      }
      o := CheckStock(quantity);
      if o.Fail? {
        return;
      }
      stock := stock - quantity;
    }

    /** A non-positive price is InvalidDomain and leaves the price; otherwise the price becomes
        `newPrice`. No other field changes. */
    method UpdatePrice(newPrice: int) returns (o: Outcome)
      modifies this
      ensures o.Fail? <==> newPrice <= 0
      ensures o.Fail? ==> o.error == InvalidDomain && price == old(price)
      ensures o.Pass? ==> price == newPrice
      ensures Data() == old(Data()).(price := price)
      ensures old(Valid()) ==> Valid()
    {
      if newPrice <= 0 {
        return Fail(InvalidDomain);
      }
      price := newPrice;
      o := Pass;
    }

    /** A non-positive quantity is InvalidDomain and leaves the stock; otherwise the stock grows
        by exactly `quantity`. No other field changes. */
    method AddStock(quantity: int) returns (o: Outcome)
      modifies this
      ensures o.Fail? <==> quantity <= 0
      ensures o.Fail? ==> o.error == InvalidDomain && stock == old(stock)
      ensures o.Pass? ==> stock == old(stock) + quantity
      ensures Data() == old(Data()).(stock := stock)
      ensures old(Valid()) ==> Valid()
    {
      if quantity <= 0 {
        return Fail(InvalidDomain);
      }
      stock := stock + quantity;
      o := Pass;
    }

    /** The partial update, field by field; see `DetailsApplied` and `DetailsAppliedSpec`. */
    method UpdateDetails(patch: ProductPatch) returns (o: Outcome)
      modifies this
      ensures (Data(), o) == DetailsApplied(old(Data()), patch)
      ensures old(Valid()) ==> Valid()
    {
      if patch.name.Some? {
        name := patch.name.value;
      }
      if patch.description.Some? {
        description := patch.description;
      }
      if patch.price.Some? {
        o := UpdatePrice(patch.price.value);
        if o.Fail? {
          return;
        }
      }
      if patch.stock.Some? {
        if patch.stock.value < 0 {
          return Fail(InvalidDomain);
        }
        stock := patch.stock.value;
      }
      o := Pass;
    }
  }
}
