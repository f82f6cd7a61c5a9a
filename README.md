# Commerce backend: inventory, orders, carts and accounts, in Dafny

This project models the core of the flynndev-commerce backend, a FastAPI shop service. The
model covers:

- the domain entities and their guarded mutations: product stock and price, the partial
  update of a product's details, cart quantities, and the user and seller profiles;
- the use cases: products, orders, carts, sellers and users;
- the `retry_on_conflict` decorator;
- the optimistic version check of the SQL product repository;
- the in-memory repositories that define the table semantics the use cases rely on.

## How the model is organised

- **Values and entities.** Stored rows are datatypes: `ProductData`, `Order`, `CartItem`,
  `UserData` and `SellerData`. The entities whose methods assign their own fields are classes
  built from a row: `Product`, `User` and `Seller`. Their methods are proved against the state
  before the call. A use case loads an entity, calls its methods, and writes `Data()` back.
- **Tables.** Each in-memory repository is a class with three fields:
  - `data: map<int, T>`, the dictionary;
  - `keys: seq<int>`, its insertion order, which Python's `dict.values()` follows;
  - `nextId`, the id counter.

  Listings, first-match scans and bulk deletions are proved against that order (module `Tables`).
- **Pure rules as functions.** The order module has two pure rules:
  - `Reserve`, the reservation pass of order creation: existence and stock checks, price
    snapshot, total and stock decrement, line by line;
  - `Restock`, the restocking pass of cancellation.

  The use case loops are proved to compute exactly these functions. Lemmas then prove:
  - the first failing line decides the error;
  - each product's stock drops by the total quantity requested for it;
  - the total is Σ price × quantity;
  - stocks stay non-negative;
  - cancelling a fresh order gives back the original table.
- **Retry.** `Retry.Run` is the reference definition of the decorator's loop. The wrapped call
  is an oracle: `outcome(i)` is what call `i` returns or raises. `UpdateProduct` inlines the
  decorator around the body of `update_product`; a lost race at the write is the oracle
  `conflicts(i)`.
- **Unit of work.** On an error inside `_create_order_core`, the product table is restored to
  its snapshot from before the call, and no order is saved.
- **External functions.** Password hashing (`hash`), password checking (`verify`) and token
  signing (`sign`) are function parameters. The retry budget configured in the settings
  (`configured`) is a parameter too.
- **Prices** are integers.

Where the code and its documentation differ, the model follows the code:
- `cancel_order` carries no `@retry_on_conflict`, unlike `update_product`.

One place where the code does not do what its tests assert is written up under "## Findings":
`CartItem` defines no `add_quantity` or `update_quantity`. `AddQuantity` and `UpdateQuantity`
are the behaviour the unit tests assert, and the cart use case is modelled with them; the
`...AsWritten` members model the class as it stands.

## Model

| member | source | states |
|---|---|---|
| `ProductModel.NewProductData` | app/domain/model/product.py:13-19 | a new product has no id and version 1, and it satisfies the field constraints exactly when the price is positive and the stock non-negative |
| `ProductModel.Product.CheckStock` | app/domain/model/product.py:32-35 | fails with InsufficientStock if and only if the stock is below the quantity; changes nothing |
| `ProductModel.Product.VerifyOwner` | app/domain/model/product.py:37-40 | fails with PermissionDenied if and only if the seller differs; changes nothing |
| `ProductModel.Product.DecreaseStock` | app/domain/model/product.py:23-30 | a non-positive quantity is InvalidDomain and a quantity above stock is InsufficientStock, both leaving the stock as it was; success exactly for 0 < q ≤ stock, leaving stock − q ≥ 0; no other field changes and the field constraints are kept |
| `ProductModel.Product.UpdatePrice` | app/domain/model/product.py:42-46 | a non-positive price is InvalidDomain with the price unchanged; otherwise it is the new price; nothing else changes |
| `ProductModel.Product.AddStock` | app/domain/model/product.py:48-52 | a non-positive quantity is InvalidDomain with the stock unchanged; otherwise stock + q; nothing else changes |
| `ProductModel.Product.UpdateDetails` | app/domain/model/product.py:54-77 | the new state and outcome are those of `DetailsApplied` on the old state, and the field constraints are kept |
| `ProductModel.DetailsAppliedSpec` | app/domain/model/product.py:54-77 | on success each field the patch gives is taken from it and every other field kept, with id, seller and version never changed; a non-positive price or negative stock is InvalidDomain, and the name and description assigned before the failure stay assigned |
| `ProductModel.EmptyPatchIsIdentity` | app/domain/model/product.py:65-77 | a patch of all `None` changes nothing and succeeds |
| `ProductModel.DetailsIdempotent` | app/domain/model/product.py:54-77 | applying an accepted patch twice is applying it once |
| `ProductModel.DetailsKeepSound` | app/domain/model/product.py:71-77 | a patch, accepted or not, never leaves a non-positive price or a negative stock |
| `OrderModel.NewOrder` | app/domain/model/order.py:27-36 | a new order is PENDING with no id and no items, and satisfies the total ≥ 0 constraint exactly when its total is non-negative |
| `OrderModel.TotalPositive` | app/domain/model/order.py:16-24 | items with positive price and quantity total at least 0, and more than 0 when there is one |
| `CartModel.AddQuantity` | tests/unit/domain/test_cart.py:8-32 | a positive n adds n to the quantity, keeping the row valid; a non-positive n is InvalidDomain |
| `CartModel.UpdateQuantity` | tests/unit/domain/test_cart.py:34-56 | a positive n becomes the quantity; a non-positive n is InvalidDomain |
| `CartModel.AddQuantityAsWritten` | app/domain/model/cart.py:6-14 | with no `add_quantity` on the class, every call fails with an error that the use case's `except InvalidDomainException` does not catch (not InvalidDomain) |
| `CartModel.UpdateQuantityAsWritten` | app/domain/model/cart.py:6-14 | with no `update_quantity` on the class, every call fails with an error other than InvalidDomain |
| `CartModel.QuantityMethodsMissing` | app/domain/model/cart.py:6-14 | for a positive n, the tested methods succeed while the class as written fails with MissingAttribute, which is not InvalidDomain |
| `CartModel.AddQuantityTwice` | tests/unit/domain/test_cart.py:8-20 | adding m then n is adding m + n |
| `CartModel.UpdateQuantityLastWins` | tests/unit/domain/test_cart.py:34-44 | of two quantity updates the last one wins |
| `UserModel.Validated` | app/domain/model/user.py:35-39 | a user with a seller profile ends with role SELLER; one without is left unchanged; only the role can change |
| `UserModel.ValidatedIdempotent` | app/domain/model/user.py:35-39 | validating again changes nothing |
| `UserModel.NewUserData` | app/domain/model/user.py:20-26 | the defaults make a new user an active buyer with no id and no seller profile, which validation keeps |
| `UserModel.User.Build` | app/domain/model/user.py:17-39 | a built user is the validated version of the given fields |
| `UserModel.User.UpdateInfo` | app/domain/model/user.py:41-44 | `None` keeps the full name and anything else replaces it; nothing else changes |
| `UserModel.User.SetPassword` | app/domain/model/user.py:50-53 | only the stored hash changes, to the hash of the password |
| `UserModel.User.PromoteToSeller` | app/domain/model/user.py:55-58 | afterwards the user is a seller; a seller is left exactly as it was, so promoting is idempotent; only the role changes |
| `SellerModel.Seller.UpdateInfo` | app/domain/model/seller.py:14-20 | `None` keeps the store name or the description and anything else replaces it; a description is never cleared; id and user id never change |
| `Retry.RetryOnConflict` | app/core/decorators.py:22-44 | the loop's result and call count are those of the reference `Run` from attempt 0 with the effective budget |
| `Retry.RunShape` | app/core/decorators.py:27-44 | every call but the last conflicted; the result is the last call's outcome; the count stays within the budget; a last conflict means the budget was spent; with no budget there is no call and no result |
| `Retry.CallsBounded` | app/core/decorators.py:27 | the operation runs at most `max(budget, 0)` times, and a non-positive budget gives the `None` result |
| `Retry.FirstSettledWins` | app/core/decorators.py:28-30 | the first outcome that is not a conflict is returned after exactly that many calls: a success or any other error propagates at once |
| `Retry.AllConflictsReraise` | app/core/decorators.py:30-43 | conflicts on every attempt give exactly `budget` calls, then ConcurrentModification |
| `Retry.TwoConflictsThenSuccess` | tests/v1/concurrency/test_retry.py:30-41 | two conflicts then a success give that success after 3 calls |
| `Retry.ZeroFallsBack` | app/core/decorators.py:24 | a budget of 0 falls back to the configured default, exactly as no budget does |
| `SqlProductRepo.VersionedUpdateSpec` | app/infrastructure/persistence/product_repository.py:42-83 | an update succeeds if and only if the id exists, the versions agree and the flush finds the row current; a missing id is InvalidArgument, a version mismatch ConcurrentModification; a success takes every field but id and version from the caller and advances the version by one |
| `SqlProductRepo.SqlProductRepository.Update` | app/infrastructure/persistence/product_repository.py:42-83 | the result is `VersionedUpdate` on the old rows; the row changes only on success; row order is kept |
| `SqlProductRepo.SqlPageIsWindow` | app/infrastructure/persistence/product_repository.py:32-40 | SQL `OFFSET`/`LIMIT` with non-negative bounds is the Python slice `[offset:offset+limit]` |
| `SqlProductRepo.SqlProductRepository.List` | app/infrastructure/persistence/product_repository.py:32-40 | filtering by seller and then paging gives the same page as the in-memory table, at most `limit` rows |
| `SqlProductRepo.LostUpdatePrevented` | app/infrastructure/persistence/product_repository.py:62-66 | of two writers starting from the same version, the first wins and the second gets ConcurrentModification without touching the row; re-read and re-applied, the second succeeds with the version advanced twice and keeps the first writer's fields it does not set |
| `FakeProductRepo.OfSeller` | tests/fakes/repositories/fake_product_repository.py:25-27 | exactly the products of the seller, or all products when none is given |
| `FakeProductRepo.ListingShape` | tests/fakes/repositories/fake_product_repository.py:24-29 | a listing has at most `limit` products, all of the requested seller; with non-negative bounds it is exactly the slice `[offset:offset+limit]` of the filtered products: its length is `max(0, min(offset + limit, n) − offset)` for `n` filtered products, and entry `i` is filtered product `offset + i` |
| `FakeProductRepo.FakeProductRepository.Create` | tests/fakes/repositories/fake_product_repository.py:12-19 | a product without id gets the counter's value, fresh in the table, and the counter moves on; one with an id keeps it; the product is stored under its id |
| `FakeProductRepo.FakeProductRepository.GetById` | tests/fakes/repositories/fake_product_repository.py:21-22 | the stored product, or `None` exactly when the id is absent |
| `FakeProductRepo.FakeProductRepository.List` | tests/fakes/repositories/fake_product_repository.py:24-29 | the listing of the stored products in insertion order for the same offset, limit and seller (the slice of `ListingShape`), at most `limit` of them, all stored and of the requested seller |
| `FakeProductRepo.FakeProductRepository.Update` | tests/fakes/repositories/fake_product_repository.py:31-34 | replaces the entry only for a present id, otherwise changes nothing; no version check and no conflict |
| `FakeOrderRepo.FakeOrderRepository.Save` | tests/fakes/repositories/fake_order_repository.py:10-17 | an order without id gets a fresh id from the counter; one with an id overwrites that entry |
| `FakeOrderRepo.FakeOrderRepository.FindById` | tests/fakes/repositories/fake_order_repository.py:19-20 | the stored order, or `None` exactly when absent |
| `FakeOrderRepo.FakeOrderRepository.FindAll` | tests/fakes/repositories/fake_order_repository.py:22-24 | the slice `[skip:skip+limit]` of the orders in insertion order |
| `FakeOrderRepo.FakeOrderRepository.FindByUserId` | tests/fakes/repositories/fake_order_repository.py:26-28 | only that user's orders, in insertion order, then the slice `[skip:skip+limit]` |
| `FakeUserRepo.FakeUserRepository.Create` | tests/fakes/repositories/fake_user_repository.py:10-17 | a user without id gets a fresh id from the counter and is stored under it |
| `FakeUserRepo.FakeUserRepository.GetByEmail` | tests/fakes/repositories/fake_user_repository.py:19-23 | the first user in insertion order with that email, and `None` exactly when no user has it |
| `FakeUserRepo.FakeUserRepository.GetById` | tests/fakes/repositories/fake_user_repository.py:25-26 | the stored user, or `None` exactly when absent |
| `FakeUserRepo.FakeUserRepository.Update` | tests/fakes/repositories/fake_user_repository.py:28-31 | replaces the entry only for an existing id |
| `FakeSellerRepo.FakeSellerRepository.GetByUserId` | tests/fakes/repositories/fake_seller_repository.py:10-14 | the first seller of that user in insertion order, and `None` exactly when the user has none |
| `FakeSellerRepo.FakeSellerRepository.Create` | tests/fakes/repositories/fake_seller_repository.py:16-25 | always uses the counter's id, fresh in the table, then moves the counter on; appends the seller to the listing even when the user already has one |
| `FakeSellerRepo.FakeSellerRepository.Update` | tests/fakes/repositories/fake_seller_repository.py:27-30 | replaces the entry only for a present id |
| `FakeCartRepo.FakeCartRepository.GetByUserAndProduct` | tests/fakes/repositories/fake_cart_repository.py:10-14 | the first row of that user and product, and `None` exactly when no row matches both |
| `FakeCartRepo.FakeCartRepository.GetAllByUserId` | tests/fakes/repositories/fake_cart_repository.py:16-17 | exactly that user's rows |
| `FakeCartRepo.FakeCartRepository.Save` | tests/fakes/repositories/fake_cart_repository.py:19-26 | a row without id gets a fresh id from the counter; one with an id overwrites that entry |
| `FakeCartRepo.FakeCartRepository.Delete` | tests/fakes/repositories/fake_cart_repository.py:28-30 | removes only that id, and does nothing when it is absent |
| `FakeCartRepo.FakeCartRepository.DeleteByUserAndProduct` | tests/fakes/repositories/fake_cart_repository.py:32-36 | removes the first row of that pair, if any, and nothing else |
| `FakeCartRepo.FakeCartRepository.CollectIds` | tests/fakes/repositories/fake_cart_repository.py:39-42 | the ids collected are exactly those of the rows that pass the filter |
| `FakeCartRepo.FakeCartRepository.DeleteEach` | tests/fakes/repositories/fake_cart_repository.py:44-46 | exactly the listed ids are gone, and the other rows keep their order |
| `FakeCartRepo.FakeCartRepository.DeleteItemsByUserId` | tests/fakes/repositories/fake_cart_repository.py:38-46 | removes exactly the user's rows whose product is listed; every other row stays |
| `FakeCartRepo.FakeCartRepository.DeleteAllByUserId` | tests/fakes/repositories/fake_cart_repository.py:48-52 | removes all and only the user's rows |
| `OrderRules.ReserveOutcome` | app/application/use_cases/order_use_case.py:37-49 | the pass succeeds if and only if every line passes in turn against the stock the earlier lines left, and a failure reports the first failing line's error: NotFound for a missing product, InsufficientStock for too little stock |
| `OrderRules.ReserveEffect` | app/application/use_cases/order_use_case.py:37-72 | after a successful pass, every line's product exists, the table keeps the same products, and each product changes only in its stock, which drops by exactly the total quantity requested for it; item i snapshots line i's product, price and quantity; the items hold each product's requested quantity; the total is Σ price × quantity of the items |
| `OrderRules.ReserveKeepsSound` | app/application/use_cases/order_use_case.py:45-64 | a successful pass never makes a stock negative |
| `OrderRules.ReserveItemsValid` | app/application/use_cases/order_use_case.py:55-61 | the items of a successful pass have positive prices and quantities, and the total is non-negative |
| `OrderRules.RestockEffect` | app/application/use_cases/order_use_case.py:144-148 | restocking keeps the set of products and adds to each stock exactly the quantity its items carry, skipping missing products |
| `OrderRules.RestockKeepsSound` | app/application/use_cases/order_use_case.py:144-148 | restocking valid items keeps every stock non-negative |
| `OrderRules.CancelRestoresStock` | app/application/use_cases/order_use_case.py:144-148 | restocking the items of a successful reservation gives back the table from before it |
| `OrderUseCases.OrderUseCase.CreateOrderCore` | app/application/use_cases/order_use_case.py:29-74 | on a failed reservation, the error, with neither table changed; otherwise the product table `Reserve` computes and one new PENDING order of the user, carrying the reserved items and total, stored under the next id, which no stored order had, and listed last; the product table keeps its key order and counter, and on failure the order table keeps its order and counter |
| `OrderUseCases.OrderUseCase.ReserveLines` | app/application/use_cases/order_use_case.py:37-65 | the reservation loop computes exactly `Reserve` on the table before the call: on success the reserved items and total with the decreased stocks, on the first failing line its error with the product table restored |
| `OrderUseCases.OrderUseCase.CreateOrder` | app/application/use_cases/order_use_case.py:76-91 | the core's effect; on success exactly this user's cart rows for the ordered products are deleted, the other rows keeping their order, and the new order is listed last; on failure no table changes, in contents, order or counter |
| `OrderUseCases.CartLines` | app/application/use_cases/order_use_case.py:172 | the order lines taken from the cart are its rows' products and quantities, one line per row, in row order |
| `OrderUseCases.OrderUseCase.CreateOrderFromCart` | app/application/use_cases/order_use_case.py:156-177 | an empty cart is BadRequest; otherwise the core runs on the cart rows in insertion order; the user's whole cart is cleared on success, the other users' rows keeping their order, and the new order is listed last; on failure no table changes, in contents, order or counter |
| `OrderUseCases.OrderUseCase.ListOrders` | app/application/use_cases/order_use_case.py:93-96 | the user's page of orders: only their orders, at most `limit` |
| `OrderUseCases.OrderUseCase.GetOrder` | app/application/use_cases/order_use_case.py:98-113 | NotFound for a missing order before PermissionDenied for another user's; success exactly for the user's own order |
| `OrderUseCases.OrderUseCase.CancelOrder` | app/application/use_cases/order_use_case.py:115-154 | errors as `GetOrder`, then BadRequest unless PENDING or PAID, with nothing changed; otherwise the table `Restock` computes and the order saved as CANCELLED; the order keeps its place in the listing, and neither table's key order or counter changes |
| `OrderUseCases.OrderUseCase.SecondCancelRejected` | app/application/use_cases/order_use_case.py:115-154 | calling `cancel_order` twice on one order: once the first call succeeds, the second is a bad request that changes neither table, so the stock is returned once and the order stays CANCELLED |
| `CartUseCases.CartUseCase.GetCart` | app/application/use_cases/cart_use_case.py:32-55 | the view is `View` of the user's rows against the current products; with positive quantities and prices its total is non-negative, and positive when a line is shown |
| `CartUseCases.CartUseCase.ViewTotalBound` | app/application/use_cases/cart_use_case.py:50-55 | with positive cart quantities and product prices, the cart total is at least 0, and more than 0 as soon as a line is shown |
| `CartUseCases.LinesShape` | app/application/use_cases/cart_use_case.py:37-52 | each line comes from a row whose product exists, with that product's name and price and the row's quantity; each such row has its line; rows of missing products are skipped; with no product missing the lines follow the rows one for one |
| `CartUseCases.LineSumPositive` | app/application/use_cases/cart_use_case.py:54-55 | the cart total is the sum of the line totals, at least 0 and positive as soon as a line is shown |
| `CartUseCases.CartUseCase.AddToCart` | app/application/use_cases/cart_use_case.py:57-85 | NotFound for a missing product, then InsufficientStock when the stock is below the quantity added (the quantity already in the cart is not counted); otherwise the pair's row grows by the quantity in place, or a new row is made under the next id and listed last; one row per pair is kept |
| `CartUseCases.CartUseCase.StoreAdded` | app/application/use_cases/cart_use_case.py:69-83 | the write of `add_to_cart`: the pair's row grows in place, or a new row goes last under the next id, keeping one row per pair |
| `CartUseCases.CartUseCase.UpdateItemQuantity` | app/application/use_cases/cart_use_case.py:87-110 | CartItemNotFound before ProductNotFound before InsufficientStock; otherwise the row takes the new quantity in place, and a non-positive one is swallowed with the row saved unchanged; the table's key order and counter never change |
| `CartUseCases.CartUseCase.AddToCartAsWritten` | app/application/use_cases/cart_use_case.py:57-85 | against the class as written: the same NotFound and InsufficientStock checks; a pair that already has a row fails with MissingAttribute and leaves the cart table, its key order and its counter unchanged; only a pair without a row succeeds, with a new row under the next id |
| `CartUseCases.CartUseCase.UpdateItemQuantityAsWritten` | app/application/use_cases/cart_use_case.py:87-110 | against the class as written: CartItemNotFound, ProductNotFound and InsufficientStock as before, and MissingAttribute for every call past those checks, so it never succeeds and changes nothing |
| `CartUseCases.CartUseCase.StoreQuantity` | app/application/use_cases/cart_use_case.py:102-108 | the write of `update_item_quantity`: the stored row takes the quantity, or stays as it was when the quantity is refused, keeping its place |
| `CartUseCases.CartUseCase.RemoveItem` | app/application/use_cases/cart_use_case.py:112-121 | CartItemNotFound for a missing row; otherwise only that row is deleted, the other rows keeping their order, and the user has no row left for the product |
| `CartUseCases.ReplaceKeepsPairs` | app/application/use_cases/cart_use_case.py:69-76 | rewriting the pair's own row keeps one row per pair |
| `CartUseCases.AddFreshKeepsPairs` | app/application/use_cases/cart_use_case.py:77-83 | a new row under a fresh id, for a pair without one, keeps one row per pair |
| `ProductUseCases.ProductUseCase.CreateProduct` | app/application/use_cases/product_use_case.py:18-23 | the request's fields, with the caller as seller and version 1, stored under a fresh id and listed last |
| `ProductUseCases.ProductUseCase.GetProductById` | app/application/use_cases/product_use_case.py:25-29 | the stored product, or NotFound exactly when absent |
| `ProductUseCases.ProductUseCase.ListProducts` | app/application/use_cases/product_use_case.py:31-33 | the repository's listing for the same offset, limit and seller |
| `ProductUseCases.AttemptSpec` | app/application/use_cases/product_use_case.py:36-52 | one attempt: NotFound before PermissionDenied before InvalidDomain; only an attempt past all three can conflict; success applies exactly the fields the patch gives |
| `ProductUseCases.RefusalsAreNotRetried` | app/application/use_cases/product_use_case.py:38-49 | a missing product, a foreign product or a rejected patch fails on the first call, which is the only call |
| `ProductUseCases.AcceptedPatchRetried` | app/application/use_cases/product_use_case.py:35-52 | an accepted patch succeeds on the first attempt that does not lose its race, after that many calls; if all attempts lose, ConcurrentModification after `budget` calls |
| `ProductUseCases.ProductUseCase.UpdateProduct` | app/application/use_cases/product_use_case.py:35-52 | result and call count are those of the decorator's `Run` over the attempts, with every attempt re-reading the product; the table changes only on success, and only in that product |
| `SellerUseCases.SellerUseCase.RegisterSeller` | app/application/use_cases/seller_use_case.py:19-43 | UserNotFound, then SellerAlreadyExists, with no change; otherwise the profile with the given store name and description under the next id, now the user's only one and listed last, and the user's role SELLER; the user table keeps its key order and counter |
| `SellerUseCases.SellerUseCase.GetSeller` | app/application/use_cases/seller_use_case.py:45-50 | the user's stored profile, or `None` exactly when the user has none |
| `SellerUseCases.RegisteredUserHasProfile` | app/application/use_cases/seller_use_case.py:28-37 | after a registration the user has a profile, so a second one is refused, and there is still one profile per user |
| `UserUseCases.UserUseCase.CreateUser` | app/application/use_cases/user_use_case.py:21-39 | EmailAlreadyExists, adding nothing, exactly when the email is taken; otherwise an active buyer with the password's hash under a fresh id, listed last, so earlier users keep their place in the email scan; emails stay unique |
| `UserUseCases.LoginDecision` | app/application/use_cases/user_use_case.py:44-52 | a token exactly for a known email with the right password on an active account; bad credentials are reported before inactivity |
| `UserUseCases.InactiveNeedsPassword` | app/application/use_cases/user_use_case.py:45-49 | an inactive account is reported as inactive only when the password is right |
| `UserUseCases.UserUseCase.LoginUser` | app/application/use_cases/user_use_case.py:41-52 | the login decision for the user with that email; an unknown email is InvalidCredentials |
| `UserUseCases.NewHash` | app/application/use_cases/user_use_case.py:66-73 | only a given, non-empty password replaces the stored hash |
| `UserUseCases.UserUseCase.UpdateUser` | app/application/use_cases/user_use_case.py:60-79 | UserNotFound exactly for a missing user; otherwise only the hash (for a non-empty password) and the full name (when given) change |
| `UserUseCases.UserUseCase.RegisterAsSeller` | app/application/use_cases/user_use_case.py:81-93 | UserNotFound, then SellerAlreadyExists for a seller, with no change; otherwise only the role changes, to SELLER |

## Left out

- HTTP routing, status codes and response rendering: errors are the `Error` kinds; the HTTP
  404, 403, 422 and 400 of the order use case are `NotFound`, `PermissionDenied`,
  `InsufficientStock` and `BadRequest`.
- Pydantic validation and the DTO classes: their field constraints are preconditions
  (positive quantities, a non-empty order, a positive price and a non-negative stock on
  creation) or invariants of the stored rows (each `Valid()`).
- `CartUseCases.CartUseCase.AddToCart`: requires a positive quantity, as the request does, so
  the swallowed InvalidDomain of `add_quantity` cannot arise there. A new row with a
  non-positive quantity would fail pydantic validation, which is not modelled.
- bcrypt and JWT are left out: `User.verify_password`, the salt and `create_access_token` are
  the parameters `verify`, `hash` and `sign`.
- `get_user_by_id` of the user use case is a plain lookup and is not modelled separately;
  `FakeUserRepository.GetById` is that lookup.
- Aliasing: the Python fakes store and return the same object, so mutating a fetched entity
  changes the stored one before `update` is called. The model copies rows, as the SQL
  repositories do with `model_validate`. One effect is not captured: in the fakes, a patch
  rejected halfway still leaves its name and description on the stored product.
- The fake unit of work does not roll back. The model follows the SQL unit of work, which
  restores the product table when order creation fails.
- Real concurrency and async interleaving: a lost race is the oracle `conflicts(i)` for the
  product update and `staleAtFlush` for the SQL repository.
- `OrderUseCases.OrderUseCase.CreateOrderCore` and `OrderUseCases.OrderUseCase.CancelOrder`:
  their stock writes go to the in-memory product table, which never conflicts. Against the SQL
  repository each write can raise ConcurrentModification. There is no retry, so the error then
  propagates after one attempt and the unit of work rolls the stock back. The model does not
  capture that path.
- `SqlProductRepo.VersionedUpdate`: the version bump by one on a successful flush is an
  assumption. The source leaves it to the ORM, and `ProductEntity` has no version column.
- `SqlProductRepo.SqlProductRepository.List`: assumes the database returns rows in insertion
  order; SQL without `ORDER BY` promises no order.
- The SQL repository's `create` and `get_by_id` are ORM session calls and are not modelled;
  the product use cases run against the in-memory table.
- `model_dump(exclude_unset=True)` in the SQL update copies only the fields that were set;
  the model copies every field but id and version, as for a fully loaded product.
- The SQL repositories for carts, orders, users and sellers, and the ORM entities, are not
  part of this model; the in-memory tables give their semantics.
- Timestamps (`created_at`, `updated_at`) and the id of an order item are not modelled.
- Prices are floats in the source and integers here, so float rounding in totals is not
  captured.
- The settings' `max_retry_count` is the parameter `configured`; the settings class does not
  define it.
- Explicit-id saves into the in-memory tables can collide with later counter ids. The
  use-case invariants keep ids below the counter, so the model never gets there.
- `ProductUseCases.ProductUseCase.UpdateProduct`: does not require the update request's
  bounds (positive price, non-negative stock), so the InvalidDomain path of
  `update_details` stays live.
- The wiring, configuration, logging of retries and the legacy service and repository
  variants are not part of this model.

## Findings

| source | as written | input that shows it | evidently intended | confidence | as-written member | corrected member |
|---|---|---|---|---|---|---|
| app/application/use_cases/cart_use_case.py:72 | `existing_item.add_quantity(...)` calls a method that `CartItem` (app/domain/model/cart.py:6-14) does not define; the AttributeError is not an `InvalidDomainException`, so it escapes and the unit of work leaves the cart unchanged | a user who already has a row for a product in stock adds a positive quantity of it | the row's quantity grows by the amount added (tests/unit/domain/test_cart.py:8-20) | not executed | `CartUseCases.CartUseCase.AddToCartAsWritten`, `CartModel.QuantityMethodsMissing` | `CartUseCases.CartUseCase.AddToCart` |
| app/application/use_cases/cart_use_case.py:103 | `item.update_quantity(...)` calls a method that `CartItem` does not define; the AttributeError escapes every call that passes the three checks | any stored row, its product in stock, and a quantity no larger than the stock | the row takes the new quantity (tests/unit/domain/test_cart.py:34-44) | not executed | `CartUseCases.CartUseCase.UpdateItemQuantityAsWritten`, `CartModel.QuantityMethodsMissing` | `CartUseCases.CartUseCase.UpdateItemQuantity` |
