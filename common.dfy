/** Shared vocabulary of the commerce backend model: optional values, the error kinds the
    use cases raise, results, and the two collection idioms the Python code relies on
    (slicing with `s[a:b]` and dictionaries that remember insertion order). */
module Common {

  datatype Option<+T> = None | Some(value: T) {
    /** `x if x is not None else default` */
    function Or(default: T): T {
      if Some? then value else default
    }
  }

  /** The entity a not-found error is about. */
  datatype Entity = ProductEntity | OrderEntity | UserEntity | CartItemEntity

  /** The failure kinds raised by the domain, the use cases and the repositories. */
  datatype Error =
    | NotFound(entity: Entity)     // ProductNotFound, UserNotFound, CartItemNotFound, HTTP 404
    | PermissionDenied             // PermissionDeniedException, HTTP 403 on a foreign order
    | InsufficientStock            // InsufficientStockException, HTTP 422 in the order use case
    | InvalidDomain                // InvalidDomainException
    | BadRequest                   // HTTP 400: cancelling a non-cancellable order, empty cart
    | ConcurrentModification       // optimistic version conflict
    | EmailAlreadyExists
    | SellerAlreadyExists
    | InvalidCredentials
    | UserInactive
    | InvalidArgument              // ValueError raised by the SQL product repository
    | MissingAttribute             // AttributeError: a call of a method the class does not define

  datatype Result<+T> = Ok(value: T) | Err(error: Error)

  /** The outcome of a guard that either passes or raises. */
  datatype Outcome = Pass | Fail(error: Error)

  function Max(a: int, b: int): int { if a < b then b else a }
  function Min(a: int, b: int): int { if a < b then a else b }

  /** Python's normalisation of one slice bound against a sequence of length `n`. */
  function SliceBound(i: int, n: nat): (b: nat)
    ensures b <= n
  {
    if i < 0 then Max(0, n + i) else Min(i, n)
  }

  /** Python's `s[start:stop]`, negative bounds included. */
  function PySlice<T>(s: seq<T>, start: int, stop: int): seq<T>
  {
    var a := SliceBound(start, |s|);
    var b := SliceBound(stop, |s|);
    if a <= b then s[a..b] else []
  }

  /** `s[offset : offset + limit]`, the pagination idiom of every listing. */
  function Window<T>(s: seq<T>, offset: int, limit: int): seq<T>
  {
    PySlice(s, offset, offset + limit)
  }

  /** `[x for x in s if keep(x)]`: the elements that pass, in their original order. */
  function Filter<T(!new)>(s: seq<T>, keep: T -> bool): (r: seq<T>)
    ensures |r| <= |s|
    ensures forall x :: x in r <==> x in s && keep(x)
  {
    if s == [] then [] else (if keep(s[0]) then [s[0]] else []) + Filter(s[1..], keep)
  }

  /** The first element that passes `keep`, as a `for ... : if ...: return` scan finds it. */
  function FirstWhere<T(!new)>(s: seq<T>, keep: T -> bool): (r: Option<T>)
    ensures r.None? <==> forall x :: x in s ==> !keep(x)
    ensures r.Some? ==> r.value in s && keep(r.value)
  {
    if s == [] then None else if keep(s[0]) then Some(s[0]) else FirstWhere(s[1..], keep)
  }

  /** The scan from position `i` on: an element that fails is skipped, and one that passes is
      the answer. */
  lemma FirstWhereStep<T(!new)>(s: seq<T>, keep: T -> bool, i: nat)
    requires i < |s|
    ensures FirstWhere(s[i..], keep) == if keep(s[i]) then Some(s[i]) else FirstWhere(s[i + 1..], keep)
  {
    assert s[i..][1..] == s[i + 1..];
  }

  /** A page never holds more than `limit` elements, and with a non-negative offset it is the
      contiguous run of `s` that starts at `offset`. */
  lemma WindowShape<T(!new)>(s: seq<T>, offset: int, limit: int)
    ensures limit >= 0 ==> |Window(s, offset, limit)| <= limit
    ensures forall x :: x in Window(s, offset, limit) ==> x in s
    ensures offset >= 0 && limit >= 0 ==>
      |Window(s, offset, limit)| == Max(0, Min(offset + limit, |s|) - offset) &&
      forall i :: 0 <= i < |Window(s, offset, limit)| ==> Window(s, offset, limit)[i] == s[offset + i]
  {
    var n := |s|;
    var a, b := SliceBound(offset, n), SliceBound(offset + limit, n);
    if limit >= 0 {
      if offset >= 0 {
        assert a == Min(offset, n) && b == Min(offset + limit, n);
      } else if offset + limit < 0 {
        assert a == Max(0, n + offset) && b == Max(0, n + offset + limit);
      } else {
        assert a == Max(0, n + offset) && b == Min(offset + limit, n);
      }
    }
  }
}
