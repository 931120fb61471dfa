/**
 * The cart controller: the guards its actions put in front of the cart
 * service, and the join of cart rows with the products table that builds
 * the cart page (both overloads of BuildCartViewModel).
 */
module CartControllers {
  import opened Wrappers
  import opened ShopModels
  import opened Identity
  import opened CartStore
  import opened CartItemViewModels

  /** Where an action sends the browser. */
  datatype Page = HomeIndex | ProductsIndex | CartIndex

  /** The kind of TempData message an action leaves for the next page. */
  datatype Flash = SuccessFlash | ErrorFlash

  datatype ActionResult =
    | Challenge                                  // no NameIdentifier claim
    | CartPage(lines: seq<CartItemViewModel>)    // View(model)
    | RedirectTo(page: Page, flash: Flash)

  /** `User.FindFirst(ClaimTypes.NameIdentifier)?.Value`: null exactly when the user has no such claim. */
  function GetCurrentUserId(user: Principal): (r: Option<string>)
    ensures r.None? <==> forall c :: c in user.claims ==> c.claimType != NameIdentifier
    ensures r.Some? ==> Claim(NameIdentifier, r.value) in user.claims
  {
    CurrentUserId(user)
  }

  /**
   * The quantity policy of the Update action: 1 to 100. A quantity it
   * accepts always passes the service's own positivity check.
   */
  function ValidateQuantity(quantity: Int32): (ok: bool)
    ensures ok <==> 1 <= quantity <= 100
    ensures ok ==> quantity > 0
  {
    quantity > 0 && quantity <= 100
  }

  /** The product shown for a cart row whose product the catalogue no longer has. */
  function Unavailable(productId: int): (p: Product)
    ensures p.id == productId && p.price == 0.0
    ensures forall line: CartItemViewModel :: line.product == p ==> TotalPrice(line) == 0.0
  {
    Product(productId, "[Товар недоступен]", 0.0, "Этот товар был удален или временно недоступен")
  }

  // ------------------------------------------------------------------
  // The join, as the controller writes it
  // ------------------------------------------------------------------

  /** `cartItems.Select(i => i.ProductId)` */
  function ProductIds(cartItems: seq<CartItem>): seq<int>
  {
    seq(|cartItems|, i requires 0 <= i < |cartItems| => cartItems[i].productId)
  }

  /** `Distinct()`: each id once, at its first occurrence. */
  function Distinct(ids: seq<int>): (r: seq<int>)
    ensures forall x :: x in r <==> x in ids
    ensures forall i, j :: 0 <= i < j < |r| ==> r[i] != r[j]
  {
    if ids == [] then []
    else
      var rest := Distinct(ids[..|ids| - 1]);
      var last := ids[|ids| - 1];
      assert ids == ids[..|ids| - 1] + [last];
      if last in rest then rest else rest + [last]
  }

  /** `.From<Product>().Where(x => x.Id == id).Get().Model`: the product row with that id, or null. */
  function FetchProduct(catalogue: Catalogue, id: int): (r: Option<Product>)
    ensures r.None? <==> id !in catalogue
    ensures r.Some? ==> r.value.id == id && r.value == catalogue[id]
  {
    if id in catalogue then Some(catalogue[id]) else None
  }

  /** `.From<Product>().Where(p => productIds.Contains(p.Id)).Get().Models` */
  function FetchProducts(catalogue: Catalogue, ids: seq<int>): (r: seq<Product>)
    ensures FromCatalogue(r, catalogue)
    ensures forall p :: p in r ==> p.id in ids
    ensures forall id :: id in ids && id in catalogue ==> catalogue[id] in r
  {
    if ids == [] then []
    else
      var rest := FetchProducts(catalogue, ids[1..]);
      assert forall id :: id in ids && id != ids[0] ==> id in ids[1..];
      match FetchProduct(catalogue, ids[0])
      case Some(p) => [p] + rest
      case None => rest
  }

  /** `FirstOrDefault(x => x.Id == id)` */
  function FirstWithId(products: seq<Product>, id: int): (r: Option<Product>)
    ensures r.None? <==> forall p :: p in products ==> p.id != id
    ensures r.Some? ==>
      exists i :: 0 <= i < |products| && products[i] == r.value && r.value.id == id &&
        forall j :: 0 <= j < i ==> products[j].id != id
  {
    if products == [] then None
    else if products[0].id == id then Some(products[0])
    else
      assert forall p :: p in products && p != products[0] ==> p in products[1..];
      assert forall j :: 1 <= j < |products| ==> products[j] == products[1..][j - 1];
      FirstWithId(products[1..], id)
  }

  /** The line built for one cart row: its product, or the placeholder when there is none. */
  function LineFor(item: CartItem, product: Option<Product>): (line: CartItemViewModel)
    ensures line.id == item.id && line.quantity == item.quantity
    ensures product.Some? ==> line.product == product.value
    ensures (product.None? || product.value.id == item.productId) ==> line.product.id == item.productId
  {
    CartItemViewModel(item.id, if product.Some? then product.value else Unavailable(item.productId), item.quantity)
  }

  /** The `Select` over the cart rows, looking each product up in the fetched list. */
  function SelectLines(cartItems: seq<CartItem>, products: seq<Product>): (lines: seq<CartItemViewModel>)
    ensures |lines| == |cartItems|
    ensures forall i :: 0 <= i < |cartItems| ==>
      lines[i].id == cartItems[i].id && lines[i].quantity == cartItems[i].quantity &&
      lines[i].product.id == cartItems[i].productId
  {
    if cartItems == [] then []
    else [LineFor(cartItems[0], FirstWithId(products, cartItems[0].productId))] + SelectLines(cartItems[1..], products)
  }

  // ------------------------------------------------------------------
  // The join, as a reference definition over the products table
  // ------------------------------------------------------------------

  /** Every product in the list is the catalogue's row for its id. */
  ghost predicate FromCatalogue(products: seq<Product>, catalogue: Catalogue)
  {
    forall p :: p in products ==> p.id in catalogue && catalogue[p.id] == p
  }

  /** One line per cart row, in the same order, each joined with the catalogue directly. */
  function CartView(cartItems: seq<CartItem>, catalogue: Catalogue): (lines: seq<CartItemViewModel>)
    ensures |lines| == |cartItems|
    ensures forall i :: 0 <= i < |cartItems| ==>
      lines[i].id == cartItems[i].id && lines[i].quantity == cartItems[i].quantity &&
      lines[i].product.id == cartItems[i].productId
  {
    seq(|cartItems|, i requires 0 <= i < |cartItems| =>
      LineFor(cartItems[i], FetchProduct(catalogue, cartItems[i].productId)))
  }

  /**
   * The page keeps the cart's rows and their order; each line copies the
   * row's id and quantity and shows the catalogue's product, or a
   * placeholder with the row's product id, the "unavailable" name and price 0.
   */
  lemma CartViewLines(cartItems: seq<CartItem>, catalogue: Catalogue, i: int)
    requires 0 <= i < |cartItems|
    ensures |CartView(cartItems, catalogue)| == |cartItems|
    ensures var line := CartView(cartItems, catalogue)[i];
      line.id == cartItems[i].id && line.quantity == cartItems[i].quantity &&
      line.product == (if cartItems[i].productId in catalogue then catalogue[cartItems[i].productId]
                       else Unavailable(cartItems[i].productId))
    ensures cartItems[i].productId !in catalogue ==>
      var p := CartView(cartItems, catalogue)[i].product;
      p.id == cartItems[i].productId && p.price == 0.0 && p.name == "[Товар недоступен]" &&
      TotalPrice(CartView(cartItems, catalogue)[i]) == 0.0
  {
  }

  /**
   * A line's total on the page is the catalogue price of its row's product
   * times the row's quantity, or zero when the product is gone.
   */
  lemma CartViewLineTotal(cartItems: seq<CartItem>, catalogue: Catalogue, i: int)
    requires 0 <= i < |cartItems|
    ensures TotalPrice(CartView(cartItems, catalogue)[i]) ==
      (if cartItems[i].productId in catalogue then catalogue[cartItems[i].productId].price else 0.0) *
      cartItems[i].quantity as real
  {
    CartViewLines(cartItems, catalogue, i);
  }

  /** The join maps concatenated carts to concatenated pages. */
  lemma CartViewAppend(a: seq<CartItem>, b: seq<CartItem>, catalogue: Catalogue)
    ensures CartView(a + b, catalogue) == CartView(a, catalogue) + CartView(b, catalogue)
  {
  }

  /**
   * Looking products up in any list fetched from the catalogue that holds
   * every catalogued product the cart refers to, in whatever order, gives
   * the same page as the direct join.
   */
  lemma {:induction false} SelectLinesIsJoin(cartItems: seq<CartItem>, products: seq<Product>, catalogue: Catalogue)
    requires FromCatalogue(products, catalogue)
    requires forall i :: 0 <= i < |cartItems| && cartItems[i].productId in catalogue ==>
      catalogue[cartItems[i].productId] in products
    ensures SelectLines(cartItems, products) == CartView(cartItems, catalogue)
  {
    if cartItems != [] {
      var tail := cartItems[1..];
      assert forall i :: 0 <= i < |tail| ==> tail[i] == cartItems[i + 1];
      SelectLinesIsJoin(tail, products, catalogue);
      FoundIsFetched(products, catalogue, cartItems[0].productId);
      CartViewCons(cartItems, catalogue);
    }
  }

  /** The reference join of a non-empty cart: the first row's line, then the join of the rest. */
  lemma CartViewCons(cartItems: seq<CartItem>, catalogue: Catalogue)
    requires cartItems != []
    ensures CartView(cartItems, catalogue) ==
      [LineFor(cartItems[0], FetchProduct(catalogue, cartItems[0].productId))] + CartView(cartItems[1..], catalogue)
  {
    var view := CartView(cartItems, catalogue);
    var tail := cartItems[1..];
    assert forall k :: 0 <= k < |tail| ==> view[k + 1] == CartView(tail, catalogue)[k];
  }

  /** In a list fetched from the catalogue that holds the product, finding it by id gives the catalogue's row. */
  lemma FoundIsFetched(products: seq<Product>, catalogue: Catalogue, pid: int)
    requires FromCatalogue(products, catalogue)
    requires pid in catalogue ==> catalogue[pid] in products
    ensures FirstWithId(products, pid) == FetchProduct(catalogue, pid)
  {
    if pid in catalogue {
      assert catalogue[pid] in products;
    }
  }

  /** Lines of a cart whose rows have positive quantities, over non-negative prices, never total below zero. */
  lemma {:induction false} CartViewTotalsNonNegative(cartItems: seq<CartItem>, catalogue: Catalogue)
    requires PositiveQuantities(cartItems)
    requires forall id :: id in catalogue ==> catalogue[id].price >= 0.0
    ensures forall line :: line in CartView(cartItems, catalogue) ==> TotalPrice(line) >= 0.0
  {
    var view := CartView(cartItems, catalogue);
    forall line | line in view
      ensures TotalPrice(line) >= 0.0
    {
      var i :| 0 <= i < |view| && view[i] == line;
      CartViewLines(cartItems, catalogue, i);
      TotalPriceNonNegative(line);
    }
  }

  /**
   * A user adds 2 of a product to an empty cart: the page shows one line of
   * 2 at the product's price times 2. Adding 3 more still shows one line,
   * now of 5, under the first row's id.
   */
  lemma AddTwiceShowsOneLine(catalogue: Catalogue, userId: string, productId: int,
                             id1: int, t1: int, id2: int, t2: int)
    requires userId != "" && productId in catalogue
    ensures var first := Added([], catalogue, id1, t1, userId, productId, 2);
      first.Success? &&
      CartView(NewestFirst(first.value, userId), catalogue) == [CartItemViewModel(id1, catalogue[productId], 2)] &&
      var second := Added(first.value, catalogue, id2, t2, userId, productId, 3);
      second.Success? &&
      CartView(NewestFirst(second.value, userId), catalogue) == [CartItemViewModel(id1, catalogue[productId], 5)] &&
      TotalPrice(CartItemViewModel(id1, catalogue[productId], 5)) == catalogue[productId].price * 5.0
  {
    var item := CartItem(id1, userId, productId, 2, t1);
    var merged := item.(quantity := 5);
    AddTwiceRows(catalogue, userId, productId, id1, t1, id2, t2);
    OwnRowView(item, userId, catalogue);
    OwnRowView(merged, userId, catalogue);
  }

  /** A table holding one row of the user's shows that row alone, joined with its product. */
  lemma OwnRowView(item: CartItem, userId: string, catalogue: Catalogue)
    requires item.userId == userId && item.productId in catalogue
    ensures CartView(NewestFirst([item], userId), catalogue) ==
      [CartItemViewModel(item.id, catalogue[item.productId], item.quantity)]
  {
    assert NewestFirst([item], userId) == [item];
  }

  /** The cart rows behind the example above: one row of 2, then the same row with 5. */
  lemma AddTwiceRows(catalogue: Catalogue, userId: string, productId: int, id1: int, t1: int, id2: int, t2: int)
    requires userId != "" && productId in catalogue
    ensures Added([], catalogue, id1, t1, userId, productId, 2) == Success([CartItem(id1, userId, productId, 2, t1)])
    ensures Added([CartItem(id1, userId, productId, 2, t1)], catalogue, id2, t2, userId, productId, 3) ==
      Success([CartItem(id1, userId, productId, 5, t1)])
  {
    var empty: seq<CartItem> := [];
    assert empty + [CartItem(id1, userId, productId, 2, t1)] == [CartItem(id1, userId, productId, 2, t1)];
    assert empty + [CartItem(id1, userId, productId, 5, t1)] == [CartItem(id1, userId, productId, 5, t1)];
    AddedInsertsNewRow(empty, catalogue, id1, t1, userId, productId, 2);
    SecondAddMerges(empty, catalogue, id1, t1, id2, t2, userId, productId, 2, 3);
  }

  // ------------------------------------------------------------------
  // The controller
  // ------------------------------------------------------------------

  class CartController {
    const cartService: CartService

    constructor (cartService: CartService)
      ensures this.cartService == cartService
    {
      this.cartService := cartService;
    }

    /** The products table has a row with that id (`response.Models.Count > 0`). */
    method ProductExists(productId: int) returns (found: bool)
      ensures found <==> productId in cartService.products
    {
      var response := FetchProduct(cartService.products, productId);
      found := response.Some?;
    }

    /**
     * The first overload: fetch each distinct product with its own query,
     * keep those that exist, then build one line per cart row.
     */
    method BuildCartViewModel(cartItems: seq<CartItem>) returns (lines: seq<CartItemViewModel>)
      ensures lines == CartView(cartItems, cartService.products)
    {
      var catalogue := cartService.products;
      var productIds := Distinct(ProductIds(cartItems));
      var products: seq<Product> := [];
      for k := 0 to |productIds|
        invariant FromCatalogue(products, catalogue)
        invariant forall j :: 0 <= j < k && productIds[j] in catalogue ==> catalogue[productIds[j]] in products
      {
        var response := FetchProduct(catalogue, productIds[k]);
        if response.Some? {
          products := products + [response.value];
        }
      }
      assert forall i :: 0 <= i < |cartItems| ==> cartItems[i].productId in productIds by {
        forall i | 0 <= i < |cartItems|
          ensures cartItems[i].productId in productIds
        {
          assert ProductIds(cartItems)[i] == cartItems[i].productId;
        }
      }
      SelectLinesIsJoin(cartItems, products, catalogue);
      lines := SelectLines(cartItems, products);
    }

    /**
     * The second overload: fetch all distinct products with one query, then
     * build one line per cart row. It gives the same page as the first.
     */
    method BuildCartViewModelForUser(userId: string, cartItems: seq<CartItem>) returns (lines: seq<CartItemViewModel>)
      ensures lines == CartView(cartItems, cartService.products)
    {
      var productIds := Distinct(ProductIds(cartItems));
      var productsResponse := FetchProducts(cartService.products, productIds);
      assert forall i :: 0 <= i < |cartItems| ==> cartItems[i].productId in productIds by {
        forall i | 0 <= i < |cartItems|
          ensures cartItems[i].productId in productIds
        {
          assert ProductIds(cartItems)[i] == cartItems[i].productId;
        }
      }
      SelectLinesIsJoin(cartItems, productsResponse, cartService.products);
      lines := SelectLines(cartItems, productsResponse);
    }

    /** The cart page: no claim challenges; an empty id is the service's error; otherwise the user's lines, newest first. */
    method Index(user: Principal) returns (result: ActionResult)
      requires cartService.Valid()
      ensures GetCurrentUserId(user).None? ==> result == Challenge
      ensures GetCurrentUserId(user) == Some("") ==> result == RedirectTo(HomeIndex, ErrorFlash)
      ensures GetCurrentUserId(user).Some? && GetCurrentUserId(user).value != "" ==>
        result == CartPage(CartView(NewestFirst(cartService.cartItems, GetCurrentUserId(user).value), cartService.products))
    {
      var userId := GetCurrentUserId(user);
      if userId.None? {
        return Challenge;
      }
      var cartItems := cartService.GetUserCart(userId.value);
      if cartItems.Failure? {
        return RedirectTo(HomeIndex, ErrorFlash);
      }
      if cartItems.value == [] {
        return CartPage([]);
      }
      var model := BuildCartViewModel(cartItems.value);
      return CartPage(model);
    }

    /**
     * Add: no claim challenges and touches nothing; an unknown product is
     * reported and the service is not called; otherwise the service adds
     * the quantity as given, with no 1..100 check.
     */
    method Add(user: Principal, productId: int, quantity: Int32) returns (result: ActionResult)
      requires cartService.Valid()
      modifies cartService`cartItems, cartService`nextId, cartService`clock
      ensures cartService.Valid()
      ensures GetCurrentUserId(user).None? ==> result == Challenge && cartService.cartItems == old(cartService.cartItems)
      ensures GetCurrentUserId(user).Some? && productId !in cartService.products ==>
        result == RedirectTo(ProductsIndex, ErrorFlash) && cartService.cartItems == old(cartService.cartItems)
      ensures GetCurrentUserId(user).Some? && productId in cartService.products ==>
        var added := Added(old(cartService.cartItems), cartService.products, old(cartService.nextId), old(cartService.clock),
                           GetCurrentUserId(user).value, productId, quantity);
        if added.Success? then result == RedirectTo(CartIndex, SuccessFlash) && cartService.cartItems == added.value
        else result == RedirectTo(ProductsIndex, ErrorFlash) && cartService.cartItems == old(cartService.cartItems)
    {
      var userId := GetCurrentUserId(user);
      if userId.None? {
        return Challenge;
      }
      var productFound := ProductExists(productId);
      if !productFound {
        return RedirectTo(ProductsIndex, ErrorFlash);
      }
      var outcome := cartService.AddToCart(userId.value, productId, quantity);
      if outcome.Fail? {
        return RedirectTo(ProductsIndex, ErrorFlash);
      }
      return RedirectTo(CartIndex, SuccessFlash);
    }

    /** Update: a quantity outside 1..100 is reported and the service is not called. */
    method Update(cartItemId: int, quantity: Int32) returns (result: ActionResult)
      requires cartService.Valid()
      modifies cartService`cartItems
      ensures cartService.Valid()
      ensures !ValidateQuantity(quantity) ==>
        result == RedirectTo(CartIndex, ErrorFlash) && cartService.cartItems == old(cartService.cartItems)
      ensures ValidateQuantity(quantity) ==>
        match Updated(old(cartService.cartItems), cartItemId, quantity)
        case Success(written) => result == RedirectTo(CartIndex, SuccessFlash) && cartService.cartItems == written.0
        case Failure(_) => result == RedirectTo(CartIndex, ErrorFlash) && cartService.cartItems == old(cartService.cartItems)
    {
      if !ValidateQuantity(quantity) {
        return RedirectTo(CartIndex, ErrorFlash);
      }
      var updated := cartService.UpdateQuantity(cartItemId, quantity);
      if updated.Failure? {
        return RedirectTo(CartIndex, ErrorFlash);
      }
      return RedirectTo(CartIndex, SuccessFlash);
    }

    /** Remove: deletes the row with that id, whoever owns it. */
    method Remove(cartItemId: int) returns (result: ActionResult)
      requires cartService.Valid()
      modifies cartService`cartItems
      ensures cartService.Valid()
      ensures result == RedirectTo(CartIndex, SuccessFlash)
      ensures cartService.cartItems == Without(old(cartService.cartItems), cartItemId)
    {
      cartService.RemoveFromCart(cartItemId);
      return RedirectTo(CartIndex, SuccessFlash);
    }
  }
}
