# Shop cart: a Dafny model

This project models the per-user shopping cart of a small ASP.NET storefront.
The storefront keeps its data in a hosted Postgres database. The model covers:

- **The cart store** (`CartService`). It owns the `cart_items` table, held here as a
  sequence of rows in a class field. Its operations are:
  - add, with validation first and a merge when the (user, product) pair already has a row;
  - update-quantity, which writes the quantity and then reads the row back;
  - delete by id;
  - the per-user listing, newest first.

  The products table is a map from id to product that the service only reads. The
  store's id sequence and `DateTime.UtcNow` are two counters, `nextId` and `clock`.
  Each query the service sends to the database is a function over the rows. Each
  method assigns the table field the way its write does.
- **The cart controller** (`CartController`). Its actions check the user claim, the
  product's existence and the 1..100 quantity policy before calling the store.
  `BuildCartViewModel` (both overloads) joins cart rows with the products table and
  substitutes a placeholder product when a row's product is gone.
- **The cart line** (`CartItemViewModel`). Its `TotalPrice` is price × quantity,
  computed whenever it is read.
- **The cart badge** (`CartCount`). It shows the number of the user's rows as decimal
  text, or "0".
- **The account forms** (`RegisterModel`, `LoginModel`). Their validation attributes
  are written as predicates.

The store keeps three invariants over its table (`CartStore.TableInvariant`):

- at most one row per (user, product);
- positive quantities;
- rows in insertion order, so ids and creation stamps strictly increase.

Every store method preserves them. The lemmas prove the merge-on-add behaviour, the
"nothing else changes" properties of update and delete, and the order and contents of
the listing. The join is proved against a reference definition (`CartView`): one line
per row, in order, with the row's id and quantity and the catalogue's product or the
placeholder. Both `BuildCartViewModel` overloads are proved equal to that definition,
so they give the same page.

Behaviour of the code that the model keeps as written:

- C# `int` addition is unchecked. When an existing quantity plus the added quantity
  exceeds 2³¹−1, the sum wraps to a negative number. `UpdateQuantity` then rejects it
  with "Quantity must be positive", so the add fails and the table is unchanged
  (`CartStore.AddedRejectsOverflowingMerge`). Below that bound the merged quantity is
  not clamped to 100, and the `Add` action applies no 1..100 check.
- A merge keeps the row's original `createdAt`. Re-adding a product does not move it
  to the top of the newest-first listing.
- `Update` and `Remove` take a cart-row id and do not compare the row's owner with the
  signed-in user. The model's `Update` and `Remove` therefore act on any row.
- `Required` rejects null, empty and white-space-only strings, using `char.IsWhiteSpace`.
  `StringLength` counts UTF-16 code units, so a character beyond U+FFFF counts twice.

Choices the code makes that a reader might not expect:

- The service's add path requires only quantity > 0; the 1..100 range is checked only by the controller's `Update` action.
- The placeholder product is named "[Товар недоступен]", with price 0.
- `Shop/Models/CartItem.cs` gives `UserId` the type `Guid`, gives `Id` the type `long`
  and has no `CreatedAt`. The service compares `UserId` with a string, passes ids as
  `int` and sorts on `CreatedAt`. The model follows the service: the user id is a
  string, ids are integers and each row has a creation stamp.

## Model

| member | source | states |
|---|---|---|
| `ShopModels.WrapInt32` | Shop/Services/CartService.cs:49 | an unchecked 32-bit sum equals the exact sum when it fits and the sum minus 2³² when it overflows the positive range |
| `Identity.FindFirstValue` | Shop/Controllers/CartController.cs:160-163 | null exactly when no claim has the type; otherwise the value of the first claim of that type |
| `CartStore.WithQuantity` | Shop/Services/CartService.cs:131-135 | the quantity write keeps the number and order of rows, sets the quantity of every row with that id, and changes nothing else |
| `CartStore.Without` | Shop/Services/CartService.cs:87-90 | the delete leaves exactly the rows whose id differs, and never adds any |
| `CartStore.Updated` | Shop/Services/CartService.cs:127-148 | succeeds iff the quantity is positive and some row has the id; a failure is "Quantity must be positive" for quantity ≤ 0 and "Failed to get updated cart item" otherwise; on success the table keeps its size and the row read back has that id and the new quantity |
| `CartStore.Added` | Shop/Services/CartService.cs:26-66 | succeeds iff the user id is non-empty, the quantity positive, the product catalogued, and any existing row's quantity plus the added quantity lies in 1..2³¹−1; the failures come in that order, and an overflowing merge fails as "Quantity must be positive"; success grows the table by one row exactly when no row for the pair existed |
| `CartStore.Listed` | Shop/Services/CartService.cs:105-114 | fails, with "User ID cannot be empty", exactly on an empty user id; otherwise lists exactly the user's rows |
| `CartStore.RowForPair` | Shop/Services/CartService.cs:42-45 | finds a row of the table with that user and product, and is null exactly when the table has none |
| `CartStore.RowWithId` | Shop/Services/CartService.cs:138-141 | finds a row with that id, and is null exactly when no row has it |
| `CartStore.NewestFirst` | Shop/Services/CartService.cs:108-112 | the listing holds exactly the table's rows whose user id matches |
| `CartStore.NewestFirstIsOrdered` | Shop/Services/CartService.cs:111 | over a table in insertion order, the listing's creation stamps strictly decrease (newest first) |
| `CartStore.NewestFirstAppend` | Shop/Services/CartService.cs:63-66 | a newly inserted row heads its owner's listing, ahead of the rows listed before |
| `CartStore.WithQuantityTouchesOne` | Shop/Services/CartService.cs:131-135 | with unique ids, the quantity write changes exactly the row with that id, and every other row is unchanged |
| `CartStore.WithQuantityAbsent` | Shop/Services/CartService.cs:131-135 | a quantity write for an id no row has leaves the table unchanged |
| `CartStore.WithQuantityKeepsInvariant` | Shop/Services/CartService.cs:127-135 | writing a positive quantity keeps one row per pair, positive quantities and insertion order |
| `CartStore.WithoutRemovesOne` | Shop/Services/CartService.cs:87-90 | deleting by an id a row has removes exactly that row; the others stay, in order |
| `CartStore.WithoutAbsent` | Shop/Services/CartService.cs:87-90 | deleting an id no row has is a no-op |
| `CartStore.DropKeepsInvariant` | Shop/Services/CartService.cs:87-90 | removing a row keeps every table invariant |
| `CartStore.AppendKeepsInvariant` | Shop/Services/CartService.cs:54-66 | inserting a row for a new pair, with fresh id and stamp, keeps every table invariant |
| `CartStore.UpdatedExisting` | Shop/Services/CartService.cs:131-148 | updating an existing row's quantity rewrites that row alone and returns it with the new quantity |
| `CartStore.UpdatedSpec` | Shop/Services/CartService.cs:127-148 | update succeeds iff the quantity is positive and a row has the id; quantity ≤ 0 fails with "Quantity must be positive"; no row fails with "Failed to get updated cart item" and the table is unchanged; success changes only that row and returns it with Quantity = newQuantity |
| `CartStore.AddedKeepsInvariant` | Shop/Services/CartService.cs:42-66 | a successful add keeps at most one row per (user, product), positive quantities and insertion order |
| `CartStore.AddedInsertsNewRow` | Shop/Services/CartService.cs:54-66 | with no row for (user, product), a valid add appends exactly one row with that user, product and quantity, whatever the size of the quantity, and changes no existing row |
| `CartStore.AddedMergesIntoRow` | Shop/Services/CartService.cs:47-49 | with a row for (user, product), a valid add sets that row's quantity to old + added, unclamped, and inserts nothing |
| `CartStore.AddedRejectsOverflowingMerge` | Shop/Services/CartService.cs:49 | a merge whose sum exceeds the 32-bit range fails with "Quantity must be positive" |
| `CartStore.FirstAddListsOneRow` | Shop/Services/CartService.cs:54-66 | after the first add of a product, the user's listing has exactly one row for it, with that quantity, at its head |
| `CartStore.SecondAddMerges` | Shop/Services/CartService.cs:42-66 | two adds of the same product leave the table with one new row whose quantity is the sum |
| `CartStore.CartService.constructor` | Shop/Services/CartService.cs:16-20 | starts with an empty, valid cart table over the given products table |
| `CartStore.CartService.AddToCart` | Shop/Services/CartService.cs:22-81 | fails on an empty user id, then on quantity ≤ 0, then on an unknown product, each before any write and with the table unchanged; otherwise the new table is the merge or insert above; keeps the table invariants |
| `CartStore.CartService.RemoveFromCart` | Shop/Services/CartService.cs:83-99 | the new table is the old one without the rows with that id; keeps the table invariants |
| `CartStore.CartService.GetUserCart` | Shop/Services/CartService.cs:101-121 | fails exactly on an empty user id; otherwise returns exactly the user's rows, newest first |
| `CartStore.CartService.UpdateQuantity` | Shop/Services/CartService.cs:123-155 | writes and reads back as `Updated` says; on failure the table is unchanged; keeps the table invariants |
| `CartItemViewModels.TotalPrice` | Shop/Models/CartItemViewModel.cs:8 | the total, computed on each read from the line's product and quantity, is zero exactly when the price or the quantity is zero, and for a positive quantity is positive exactly when the price is |
| `CartItemViewModels.TotalPriceNonNegative` | Shop/Models/CartItemViewModel.cs:8 | a price ≥ 0 and a quantity > 0 give a total ≥ 0 |
| `CartControllers.GetCurrentUserId` | Shop/Controllers/CartController.cs:160-163 | null exactly when the user has no NameIdentifier claim; otherwise the value of such a claim |
| `CartControllers.ValidateQuantity` | Shop/Controllers/CartController.cs:175-178 | accepts exactly 1..100, so every quantity it lets through passes the service's positivity check |
| `CartControllers.Unavailable` | Shop/Controllers/CartController.cs:79-85 | the placeholder carries the row's product id and price 0, so any line showing it totals 0 |
| `CartControllers.FetchProduct` | Shop/Controllers/CartController.cs:63-69 | null exactly when the products table has no row with the id; otherwise that row, whose Id is the id asked for |
| `CartControllers.LineFor` | Shop/Controllers/CartController.cs:76-87 | the line copies the row's Id and Quantity, shows the product found if any, and its product id is the row's whenever the product found has that id or none was found |
| `CartControllers.SelectLines` | Shop/Controllers/CartController.cs:191-208 | one line per cart row, in order, each with the row's Id, Quantity and ProductId |
| `CartControllers.CartView` | Shop/Controllers/CartController.cs:72-88 | the reference join: one line per cart row, in order, each with the row's Id, Quantity and ProductId |
| `CartControllers.CartViewLineTotal` | Shop/Controllers/CartController.cs:72-88 | a page line's total is the catalogue price of the row's product times the row's quantity, or 0 when the product is gone |
| `CartControllers.AddTwiceRows` | Shop/Services/CartService.cs:42-66 | adding 2 then 3 of a product to an empty cart leaves one row of 2, then the same row with 5 |
| `CartControllers.Distinct` | Shop/Controllers/CartController.cs:57 | the de-duplicated ids are exactly the input's ids, each once |
| `CartControllers.FetchProducts` | Shop/Controllers/CartController.cs:186-189 | the batch query returns only catalogue rows whose id was asked for, and every catalogued product whose id was asked for |
| `CartControllers.FirstWithId` | Shop/Controllers/CartController.cs:74 | returns the first listed product with that id, and null exactly when none has it |
| `CartControllers.CartViewLines` | Shop/Controllers/CartController.cs:72-88 | one line per cart row, in order; each copies the row's Id and Quantity; the product is the catalogue's, or the placeholder with Id = ProductId, Price 0, the "unavailable" name and total 0 |
| `CartControllers.CartViewAppend` | Shop/Controllers/CartController.cs:72-88 | the join preserves order: joining a concatenation concatenates the pages |
| `CartControllers.SelectLinesIsJoin` | Shop/Controllers/CartController.cs:191-208 | looking products up in any fetched list of catalogue rows that covers the cart's products, in any order, gives the reference join |
| `CartControllers.CartViewTotalsNonNegative` | Shop/Models/CartItemViewModel.cs:8 | every line of a cart with positive quantities, over non-negative prices, has a total ≥ 0 |
| `CartControllers.AddTwiceShowsOneLine` | Shop/Services/CartService.cs:42-66 | adding 2 then 3 of a product to an empty cart shows one line of 2, then one line of 5 with total price × 5 |
| `CartControllers.CartController.constructor` | Shop/Controllers/CartController.cs:20-28 | the controller uses the given cart service |
| `CartControllers.CartController.ProductExists` | Shop/Controllers/CartController.cs:165-173 | true exactly when the products table has a row with that id |
| `CartControllers.CartController.BuildCartViewModel` | Shop/Controllers/CartController.cs:54-89 | the per-id fetch loop, then the Select, yields exactly the reference join |
| `CartControllers.CartController.BuildCartViewModelForUser` | Shop/Controllers/CartController.cs:180-209 | the batched fetch, then the Select, yields exactly the reference join, the same page as the first overload |
| `CartControllers.CartController.Index` | Shop/Controllers/CartController.cs:30-52 | no NameIdentifier claim gives Challenge; an empty claim value gives the error redirect home; otherwise the page is the join of the user's rows, newest first |
| `CartControllers.CartController.Add` | Shop/Controllers/CartController.cs:91-116 | no claim gives Challenge and no change; an unknown product gives an error and the service is not called; otherwise the table is what AddToCart gives for the quantity as posted, with no 1..100 check |
| `CartControllers.CartController.Update` | Shop/Controllers/CartController.cs:136-158 | a quantity outside 1..100 gives an error and leaves the table unchanged, without calling UpdateQuantity; otherwise the table is what UpdateQuantity gives |
| `CartControllers.CartController.Remove` | Shop/Controllers/CartController.cs:118-134 | deletes the row with that id, whoever owns it, and redirects to the cart |
| `CartBadge.DecimalString` | Shop/Components/CartItem.cs:26 | the rendering is decimal digits, with a leading '0' only for zero |
| `CartBadge.DecimalRoundTrip` | Shop/Components/CartItem.cs:26 | reading the rendered count back gives the count |
| `CartBadge.CartCount` | Shop/Components/CartItem.cs:17-32 | a missing or empty user id gives "0" without reading the cart; otherwise the decimal count of the rows GetUserCart returns; a read failure gives "0" |
| `CartBadge.CartCountCountsOwnRows` | Shop/Components/CartItem.cs:25-26 | the badge's number is the number of distinct rows of the user in the table |
| `DataAnnotations.Required` | Shop/Models/RegisterModel.cs:7 | an accepted value is present and non-empty; a value starting with a character that is not white space is accepted |
| `DataAnnotations.StringLength` | Shop/Models/RegisterModel.cs:13 | null passes; an accepted string has at most the maximum number of characters and at least half the minimum |
| `DataAnnotations.RequiredMeansVisible` | Shop/Models/RegisterModel.cs:7 | Required rejects null, empty and white-space-only strings, and accepts any string with another character |
| `DataAnnotations.Utf16LengthBounds` | Shop/Models/RegisterModel.cs:13 | the length StringLength checks lies between the character count and twice it, and equals it without characters beyond U+FFFF |
| `RegisterModels.RegisterModel.IsValid` | Shop/Models/RegisterModel.cs:7-27 | a valid form has an email that passes the address check, a username of 3..20 and a password of 6..100 UTF-16 units, and ConfirmPassword equal to Password |
| `RegisterModels.RegisterAccepted` | Shop/Models/RegisterModel.cs:7-27 | valid iff all four fields are present and not blank, the email passes the address check, the username is 3..20 and the password 6..100 UTF-16 units long, and ConfirmPassword equals Password |
| `RegisterModels.AcceptedUsernameCharacters` | Shop/Models/RegisterModel.cs:13-18 | an accepted username has 2..20 characters and an accepted password 3..100 |
| `LoginModels.LoginModel.IsValid` | Shop/Models/LoginModel.cs:7-15 | a valid form has a non-empty email that passes the address check and a non-empty password |
| `LoginModels.LoginAccepted` | Shop/Models/LoginModel.cs:7-15 | valid iff the email is present, not blank and passes the address check, and the password is present and not blank |
| `LoginModels.LoginIgnoresOptionalFields` | Shop/Models/LoginModel.cs:17-21 | RememberMe and ReturnUrl (which may be null) carry no validation attribute and never change validity |
| `LoginModels.LoginPasswordUnbounded` | Shop/Models/LoginModel.cs:12-15 | the password has no length bound: any non-blank password keeps an accepted form accepted |

## Left out

- Database failures are not modelled. `PostgrestException` and the "Database error occurred while updating cart" wrapper in `AddToCart` cannot arise from an in-memory table.
- `CartBadge.CartCount`: in the program, the catch branch is reached only by a store failure, because a null or empty id is filtered out before the call. The model has no store failures, so the `Failure` arm of `CartCount` is dead.
- A lookup that matches several rows is not modelled: the one-row-per-pair invariant and unique ids rule that case out.
- Asynchrony and concurrency are not modelled; the model is sequential. The read-then-write race in merge-on-add, and a delete between `UpdateQuantity`'s write and read-back, cannot happen here.
- Real clock values are replaced by a counter, and the store's identity column by another counter. Both only grow.
- `decimal` overflow is not modelled. Prices are exact reals, so a total that would overflow `decimal` has no counterpart.
- The email-address check lives in the framework library. The model takes it as the function parameter `isEmailAddress`.
- A principal with several identities is flattened to one ordered list of claims.
- `CartControllers.CartController.Update` / `Remove`: the request filters are not modelled. These are the class-level `[Authorize]` (Shop/Controllers/CartController.cs:13) and `[ValidateAntiForgeryToken]` (lines 92, 119 and 137). Both actions assume an authenticated request with a valid token. In the program, an unauthenticated request is challenged before either body runs. The model's `Update` and `Remove` take no principal and act for any caller.
- `CartStore.Added` / `CartStore.Listed` / `CartBadge.CartCount`: the user id is a non-null `string`. `string.IsNullOrEmpty` (Shop/Services/CartService.cs:26 and 105, Shop/Components/CartItem.cs:20) also rejects null, which the model cannot express. This is harmless, because every caller passes a non-null id: the controller checks the claim value for null first, and the badge's own check catches null.
- Identity.FindFirstValue: compares claim types exactly, where `ClaimsIdentity.FindFirst` ignores case. This is harmless here, because the sign-in code writes the NameIdentifier type verbatim. A claim type that differs only in case would give Challenge in the model and the user id in the program.
- The `quantity = 1` defaults of `CartService.AddToCart` (Shop/Services/CartService.cs:22) and of the `Add` action (Shop/Controllers/CartController.cs:93) are not modelled. Every caller in the model passes the quantity explicitly.
- Compare and EmailAddress have no contract of their own. Their meaning is stated through `RegisterModels.RegisterAccepted` and `LoginModels.LoginAccepted`.
- Logging, TempData message texts, views and redirect targets are reduced to the three-way `ActionResult`.
- `Shop/Services/AuthService.cs`, `Shop/Controllers/AccountController.cs`, `Shop/Program.cs`, `Shop/Services/SupabaseService.cs` and `Shop/Controllers/ProductsController.cs` are not part of this model. They forward to the hosted auth and database client or wire up the framework, whose behaviour is not visible.
