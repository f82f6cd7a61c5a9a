/** The product use cases over the product table: creation with the caller as seller, lookup,
    the paged listing, and the owner-checked partial update retried on conflicts. */
module ProductUseCases {
  import opened Common
  import opened ProductModel
  import opened Retry
  import FakeProductRepo

  /** One run of the body of `update_product` against the table `data`: NotFound for a
      missing product, then PermissionDenied for another seller's product, then the
      InvalidDomain of a rejected patch; `conflict` says whether the write loses a race with
      a concurrent writer. On success the patched product is what gets written. */
  function Attempt(data: map<int, ProductData>, sellerId: int, productId: int, patch: ProductPatch, conflict: bool): Result<ProductData>
  {
    if productId !in data then Err(NotFound(ProductEntity))
    else if data[productId].sellerId != sellerId then Err(PermissionDenied)
    else
      var (d, o) := DetailsApplied(data[productId], patch);
      if o.Fail? then Err(o.error)
      else if conflict then Err(ConcurrentModification)
      else Ok(d)
  }

  /** The outcomes of successive runs, the `i`-th one losing its race when `conflicts(i)`. */
  function Attempts(data: map<int, ProductData>, sellerId: int, productId: int, patch: ProductPatch,
                    conflicts: nat -> bool): nat -> Result<ProductData>
  {
    (i: nat) => Attempt(data, sellerId, productId, patch, conflicts(i))
  }

  /** A run fails with NotFound, PermissionDenied or InvalidDomain in that order of priority,
      only a run that got past all three can conflict, and a successful run writes the stored
      product with the patch applied: only the fields the patch gives change. */
  lemma AttemptSpec(data: map<int, ProductData>, sellerId: int, productId: int, patch: ProductPatch, conflict: bool)
    ensures var r := Attempt(data, sellerId, productId, patch, conflict);
      && (productId !in data ==> r == Err(NotFound(ProductEntity)))
      && (productId in data && data[productId].sellerId != sellerId ==> r == Err(PermissionDenied))
      && (productId in data && data[productId].sellerId == sellerId && PatchRejected(patch) ==> r == Err(InvalidDomain))
      && (IsConflict(r) <==> productId in data && data[productId].sellerId == sellerId && !PatchRejected(patch) && conflict)
      && (r.Ok? <==> productId in data && data[productId].sellerId == sellerId && !PatchRejected(patch) && !conflict)
      && (r.Ok? ==>
            var s := data[productId];
            && r.value.id == s.id && r.value.sellerId == s.sellerId && r.value.version == s.version
            && r.value.name == patch.name.Or(s.name)
            && r.value.description == (if patch.description.Some? then patch.description else s.description)
            && r.value.price == patch.price.Or(s.price)
            && r.value.stock == patch.stock.Or(s.stock))
  {
    if productId in data {
      DetailsAppliedSpec(data[productId], patch);
    }
  }

  /** A missing product, another seller's product and a rejected patch are not retried: the
      first run raises and it is the only call. */
  lemma {:induction false} RefusalsAreNotRetried(data: map<int, ProductData>, sellerId: int, productId: int,
                                                 patch: ProductPatch, conflicts: nat -> bool, budget: int)
    requires budget >= 1
    requires productId !in data || data[productId].sellerId != sellerId || PatchRejected(patch)
    ensures var run := Run(Attempts(data, sellerId, productId, patch, conflicts), 0, budget, false);
      && run.1 == 1
      && run.0 == Some(Attempt(data, sellerId, productId, patch, false))
      && run.0.value.Err? && run.0.value.error != ConcurrentModification
  {
    AttemptSpec(data, sellerId, productId, patch, conflicts(0));
    AttemptSpec(data, sellerId, productId, patch, false);
    FirstSettledWins(Attempts(data, sellerId, productId, patch, conflicts), 0, budget, false, 0);
  }

  /** An accepted patch succeeds on the first run that does not lose its race, provided the
      budget reaches it, and the result is the stored product with the patch applied; when
      every run within the budget loses, the conflict is raised after `budget` calls. */
  lemma {:induction false} AcceptedPatchRetried(data: map<int, ProductData>, sellerId: int, productId: int,
                                                patch: ProductPatch, conflicts: nat -> bool, budget: int, k: nat)
    requires productId in data && data[productId].sellerId == sellerId && !PatchRejected(patch)
    ensures k < budget && (forall i :: 0 <= i < k ==> conflicts(i)) && !conflicts(k) ==>
      Run(Attempts(data, sellerId, productId, patch, conflicts), 0, budget, false)
        == (Some(Ok(DetailsApplied(data[productId], patch).0)), k + 1)
    ensures budget >= 1 && (forall i :: 0 <= i < budget ==> conflicts(i)) ==>
      Run(Attempts(data, sellerId, productId, patch, conflicts), 0, budget, false)
        == (Some(Err(ConcurrentModification)), budget)
  {
    var outcome := Attempts(data, sellerId, productId, patch, conflicts);
    DetailsAppliedSpec(data[productId], patch);
    if k < budget && (forall i :: 0 <= i < k ==> conflicts(i)) && !conflicts(k) {
      forall i | 0 <= i < k ensures IsConflict(outcome(i)) {
        AttemptSpec(data, sellerId, productId, patch, conflicts(i));
      }
      FirstSettledWins(outcome, 0, budget, false, k);
    }
    if budget >= 1 && (forall i :: 0 <= i < budget ==> conflicts(i)) {
      forall i | 0 <= i < budget ensures IsConflict(outcome(i)) {
        AttemptSpec(data, sellerId, productId, patch, conflicts(i));
      }
      AllConflictsReraise(outcome, 0, budget, false);
    }
  }

  class ProductUseCase {
    const products: FakeProductRepo.FakeProductRepository

    constructor (products: FakeProductRepo.FakeProductRepository)
      ensures this.products == products
    {
      this.products := products;
    }

    /** `create_product`: the request's fields with the caller as seller, stored under the
        next id with version 1. The request carries a positive price and a non-negative
        stock. */
    method CreateProduct(sellerId: int, name: string, description: Option<string>, price: int, stock: int)
      returns (created: ProductData)
      modifies products
      requires products.Valid() && products.IdsBelowCounter()
      requires price > 0 && stock >= 0
      ensures products.Valid() && products.IdsBelowCounter()
      ensures created == ProductData(Some(old(products.nextId)), name, description, price, stock, sellerId, 1)
      ensures Sound(created) && created.id.value !in old(products.data)
      ensures products.data == old(products.data)[created.id.value := created]
      ensures products.nextId == old(products.nextId) + 1
      ensures products.keys == old(products.keys) + [created.id.value]
    {
      created := products.Create(NewProductData(name, description, price, stock, sellerId));
    }

    /** `get_product_by_id`: the stored product, or NotFound. */
    function GetProductById(productId: int): (r: Result<ProductData>)
      reads this, products
      ensures r.Err? <==> productId !in products.data
      ensures r.Err? ==> r.error == NotFound(ProductEntity)
      ensures r.Ok? ==> r.value == products.data[productId]
    {
      match products.GetById(productId)
      case None => Err(NotFound(ProductEntity))
      case Some(p) => Ok(p)
    }

    /** `list_products`: the repository's page for the same offset, limit and seller. */
    function ListProducts(offset: int, limit: int, sellerId: Option<int>): (r: seq<ProductData>)
      reads this, products
      requires products.Valid()
      ensures r == FakeProductRepo.Listing(products.Products(), offset, limit, sellerId)
      ensures limit >= 0 ==> |r| <= limit
      ensures forall p :: p in r ==> p in products.data.Values && (sellerId.Some? ==> p.sellerId == sellerId.value)
    {
      products.List(offset, limit, sellerId)
    }

    /** `update_product` under `@retry_on_conflict()`: each run re-reads the product, checks it
        exists and belongs to the caller, applies the patch, and writes it back unless the
        write loses its race (`conflicts(i)` for run `i`). The result and the number of runs
        are those of the retry loop over these runs, with the configured budget; the table
        changes only when a run succeeds, and then only in that product. */
    method UpdateProduct(sellerId: int, productId: int, patch: ProductPatch, configured: int, conflicts: nat -> bool)
      returns (result: Option<Result<ProductData>>, calls: nat)
      modifies products
      requires products.Valid()
      ensures products.Valid()
      ensures (result, calls) == Run(Attempts(old(products.data), sellerId, productId, patch, conflicts), 0, EffectiveBudget(None, configured), false)
      ensures result.Some? && result.value.Ok? ==> products.data == old(products.data)[productId := result.value.value]
      ensures !(result.Some? && result.value.Ok?) ==> products.data == old(products.data)
      ensures products.keys == old(products.keys) && products.nextId == old(products.nextId)
    {
      ghost var outcome := Attempts(products.data, sellerId, productId, patch, conflicts);
      var budget := EffectiveBudget(None, configured);
      var lastConflict := false;
      var attempt: nat := 0;
      calls := 0;
      while attempt < budget
        invariant calls == attempt
        invariant lastConflict <==> attempt > 0
        invariant products.Valid() && products.data == old(products.data)
        invariant products.keys == old(products.keys) && products.nextId == old(products.nextId)
        invariant Run(outcome, 0, budget, false) == Run(outcome, attempt, budget, lastConflict)
        decreases budget - attempt
      {
        var r: Result<ProductData>;
        assert outcome(attempt) == Attempt(old(products.data), sellerId, productId, patch, conflicts(attempt));
        var found := products.GetById(productId);
        if found.None? {
          r := Err(NotFound(ProductEntity));
        } else {
          assert found.value == old(products.data)[productId];
          var product := new Product.FromData(found.value);
          var owner := product.VerifyOwner(sellerId);
          if owner.Fail? {
            r := Err(owner.error);
          } else {
            var o := product.UpdateDetails(patch);
            ghost var applied := DetailsApplied(found.value, patch);
            assert product.Data() == applied.0 && o == applied.1;
            if o.Fail? {
              r := Err(o.error);
            } else if conflicts(attempt) {
              r := Err(ConcurrentModification);
            } else {
              r := Ok(product.Data());
            }
          }
        }
        assert r == outcome(attempt);
        calls := calls + 1;
        if !IsConflict(r) {
          if r.Ok? {
            assert found.Some? && found.value.id == Some(productId);
            DetailsAppliedSpec(found.value, patch);
            var _ := products.Update(r.value);
          }
          return Some(r), calls;
        }
        lastConflict := true;
        attempt := attempt + 1;
      }
      if lastConflict {
        return Some(Err(ConcurrentModification)), calls;
      }
      return None, calls;
    }
  }
}
