/** The SQL product repository: the optimistic version check on update, and the filtered,
    paged listing. The database table is modelled as an id-keyed dictionary whose rows come
    back in insertion order. */
module SqlProductRepo {
  import opened Common
  import opened Tables
  import opened ProductModel
  import FakeProductRepo

  /** The stored row after the field copy: every field but `id` and `version` comes from the
      caller's product. */
  function CopyFields(stored: ProductData, p: ProductData): ProductData
  {
    p.(id := stored.id, version := stored.version)
  }

  /** `update(product)`: an id is required and must exist (both ValueError); a caller version
      other than the stored one is a conflict, and so is a row found stale when the change is
      flushed (`staleAtFlush`, an oracle for a concurrent writer). On success the row takes the
      copied fields and its version moves on by one. */
  function VersionedUpdate(rows: map<int, ProductData>, p: ProductData, staleAtFlush: bool): Result<ProductData>
  {
    if p.id.None? || p.id.value !in rows then Err(InvalidArgument)
    else if p.version != rows[p.id.value].version then Err(ConcurrentModification)
    else if staleAtFlush then Err(ConcurrentModification)
    else Ok(CopyFields(rows[p.id.value], p).(version := rows[p.id.value].version + 1))
  }

  /** The update succeeds exactly when the id exists, the versions agree and the flush finds
      the row current; a missing id is never reported as a conflict. A success keeps the id,
      takes every other field from the caller, and advances the version by one. */
  lemma VersionedUpdateSpec(rows: map<int, ProductData>, p: ProductData, staleAtFlush: bool)
    requires forall k :: k in rows ==> rows[k].id == Some(k)
    ensures var r := VersionedUpdate(rows, p, staleAtFlush);
      && (r.Ok? <==> p.id.Some? && p.id.value in rows && p.version == rows[p.id.value].version && !staleAtFlush)
      && (p.id.None? || p.id.value !in rows ==> r == Err(InvalidArgument))
      && (p.id.Some? && p.id.value in rows && p.version != rows[p.id.value].version ==> r == Err(ConcurrentModification))
      && (r.Ok? ==> r.value == p.(version := p.version + 1))
  {
    if p.id.Some? && p.id.value in rows {
      var k := p.id.value;
      assert rows[k].id == Some(k);
    }
  }

  /** SQL `OFFSET o LIMIT l` over the rows, for non-negative `o` and `l`. */
  function SqlPage<T>(s: seq<T>, offset: nat, limit: nat): (r: seq<T>)
  {
    if offset >= |s| then [] else s[offset..Min(offset + limit, |s|)]
  }

  /** For non-negative bounds, the SQL page is the Python slice the in-memory table takes. */
  lemma {:induction false} SqlPageIsWindow<T>(s: seq<T>, offset: nat, limit: nat)
    ensures SqlPage(s, offset, limit) == Window(s, offset, limit)
  {
    var a, b := SliceBound(offset, |s|), SliceBound(offset + limit, |s|);
    assert a == Min(offset, |s|) && b == Min(offset + limit, |s|);
  }

  class SqlProductRepository {
    var rows: map<int, ProductData>
    var keys: seq<int>

    ghost predicate Valid()
      reads this
    {
      InsertionOrdered(keys, rows) && forall k :: k in rows ==> rows[k].id == Some(k)
    }

    function Rows(): seq<ProductData>
      reads this
      requires Valid()
    {
      Values(keys, rows)
    }

    /** The version-checked update; the table changes only on success. */
    method Update(product: ProductData, staleAtFlush: bool) returns (r: Result<ProductData>)
      modifies this
      requires Valid()
      ensures Valid()
      ensures r == VersionedUpdate(old(rows), product, staleAtFlush)
      ensures r.Ok? ==> rows == old(rows)[product.id.value := r.value]
      ensures r.Err? ==> rows == old(rows)
      ensures keys == old(keys)
    {
      if product.id.None? {
        return Err(InvalidArgument);
      }
      var id := product.id.value;
      if id !in rows {
        return Err(InvalidArgument);
      }
      var stored := rows[id];
      if product.version != stored.version {
        return Err(ConcurrentModification);
      }
      var updated := CopyFields(stored, product);
      if staleAtFlush {
        return Err(ConcurrentModification);
      }
      updated := updated.(version := stored.version + 1);
      rows := rows[id := updated];
      return Ok(updated);
    }

    /** Filter by seller when one is given, then `OFFSET`/`LIMIT`: the same page the in-memory
        table returns. */
    function List(offset: nat, limit: nat, sellerId: Option<int>): (r: seq<ProductData>)
      reads this
      requires Valid()
      ensures r == FakeProductRepo.Listing(Rows(), offset, limit, sellerId)
      ensures |r| <= limit
    {
      SqlPageIsWindow(FakeProductRepo.OfSeller(Rows(), sellerId), offset, limit);
      FakeProductRepo.ListingShape(Rows(), offset, limit, sellerId);
      SqlPage(FakeProductRepo.OfSeller(Rows(), sellerId), offset, limit)
    }
  }

  /** Two writers read the same row and each applies a valid patch. The first write wins and
      moves the version on; the second, still carrying the old version, is a conflict and
      leaves the row as the first writer left it. Read again and patched again, the second
      write succeeds, keeps the first writer's changes where its own patch is silent, and the
      version has moved on twice. */
  lemma {:induction false} LostUpdatePrevented(rows: map<int, ProductData>, id: int, pa: ProductPatch, pb: ProductPatch)
    requires id in rows && rows[id].id == Some(id)
    requires !PatchRejected(pa) && !PatchRejected(pb)
    ensures var first := VersionedUpdate(rows, DetailsApplied(rows[id], pa).0, false);
      && first.Ok? && first.value.version == rows[id].version + 1
      && var rows1 := rows[id := first.value];
      && VersionedUpdate(rows1, DetailsApplied(rows[id], pb).0, false) == Err(ConcurrentModification)
      && var second := VersionedUpdate(rows1, DetailsApplied(rows1[id], pb).0, false);
      && second.Ok? && second.value.version == rows[id].version + 2
      && second.value.name == (if pb.name.Some? then pb.name.value else DetailsApplied(rows[id], pa).0.name)
      && second.value.price == (if pb.price.Some? then pb.price.value else DetailsApplied(rows[id], pa).0.price)
      && second.value.stock == (if pb.stock.Some? then pb.stock.value else DetailsApplied(rows[id], pa).0.stock)
  {
    DetailsAppliedSpec(rows[id], pa);
    var first := VersionedUpdate(rows, DetailsApplied(rows[id], pa).0, false);
    var rows1 := rows[id := first.value];
    DetailsAppliedSpec(rows[id], pb);
    DetailsAppliedSpec(rows1[id], pb);
  }
}
