/**
 * The cart store: the `cart_items` table and CartService's four operations
 * (AddToCart, RemoveFromCart, GetUserCart, UpdateQuantity).
 *
 * Each query the service sends to the store (`Where(...).Single()`,
 * `Where(...).Set(...).Update()`, `Where(...).Delete()`, `Order(...).Get()`)
 * is a function over the table's rows. The table itself is a field of the
 * CartService class, which the service methods reassign.
 */
module CartStore {
  import opened Wrappers
  import opened ShopModels

  /** The exceptions the service raises. */
  datatype CartError =
    | EmptyUserId                 // "User ID cannot be empty"
    | QuantityNotPositive         // "Quantity must be positive"
    | ProductNotFound(productId: int)
    | UpdatedItemMissing          // "Failed to get updated cart item"

  // ------------------------------------------------------------------
  // What the table keeps
  // ------------------------------------------------------------------

  /** Rows are kept in insertion order: ids and creation stamps strictly increase. */
  ghost predicate Chronological(rows: seq<CartItem>)
  {
    forall i, j :: 0 <= i < j < |rows| ==> rows[i].id < rows[j].id && rows[i].createdAt < rows[j].createdAt
  }

  /** At most one row per (user, product): merge-on-add keeps this, no unique index does. */
  ghost predicate OneRowPerPair(rows: seq<CartItem>)
  {
    forall i, j :: 0 <= i < j < |rows| ==>
      rows[i].userId != rows[j].userId || rows[i].productId != rows[j].productId
  }

  ghost predicate PositiveQuantities(rows: seq<CartItem>)
  {
    forall i :: 0 <= i < |rows| ==> rows[i].quantity > 0
  }

  ghost predicate TableInvariant(rows: seq<CartItem>)
  {
    Chronological(rows) && OneRowPerPair(rows) && PositiveQuantities(rows)
  }

  /** Every id and stamp in the table was handed out before the counters' current values. */
  ghost predicate StampsBelow(rows: seq<CartItem>, nextId: int, clock: int)
  {
    forall i :: 0 <= i < |rows| ==> rows[i].id < nextId && rows[i].createdAt < clock
  }

  /** Newest first: creation stamps strictly decrease along the sequence. */
  ghost predicate NewestToOldest(items: seq<CartItem>)
  {
    forall i, j :: 0 <= i < j < |items| ==> items[i].createdAt > items[j].createdAt
  }

  // ------------------------------------------------------------------
  // The store's queries
  // ------------------------------------------------------------------

  /** `Where(x => x.UserId == userId && x.ProductId == productId).Single()` */
  function RowForPair(rows: seq<CartItem>, userId: string, productId: int): (r: Option<CartItem>)
    ensures r.Some? ==> r.value in rows && r.value.userId == userId && r.value.productId == productId
    ensures r.None? <==> forall i :: 0 <= i < |rows| ==> rows[i].userId != userId || rows[i].productId != productId
  {
    if rows == [] then None
    else if rows[0].userId == userId && rows[0].productId == productId then Some(rows[0])
    else
      assert forall i :: 1 <= i < |rows| ==> rows[i] == rows[1..][i - 1];
      RowForPair(rows[1..], userId, productId)
  }

  /** `Where(x => x.Id == id).Single()` */
  function RowWithId(rows: seq<CartItem>, id: int): (r: Option<CartItem>)
    ensures r.Some? ==> r.value in rows && r.value.id == id
    ensures r.None? <==> forall i :: 0 <= i < |rows| ==> rows[i].id != id
  {
    if rows == [] then None
    else if rows[0].id == id then Some(rows[0])
    else
      assert forall i :: 1 <= i < |rows| ==> rows[i] == rows[1..][i - 1];
      RowWithId(rows[1..], id)
  }

  /**
   * `Where(x => x.Id == id).Set(x => x.Quantity, quantity).Update()`: the
   * rows with that id get the quantity; no row is added, removed, moved or
   * otherwise altered.
   */
  function WithQuantity(rows: seq<CartItem>, id: int, quantity: Int32): (r: seq<CartItem>)
    ensures |r| == |rows|
    ensures forall i :: 0 <= i < |rows| ==> r[i].(quantity := rows[i].quantity) == rows[i]
    ensures forall i :: 0 <= i < |rows| && rows[i].id == id ==> r[i].quantity == quantity
    ensures forall i :: 0 <= i < |rows| && rows[i].id != id ==> r[i] == rows[i]
  {
    seq(|rows|, i requires 0 <= i < |rows| =>
      if rows[i].id == id then rows[i].(quantity := quantity) else rows[i])
  }

  /** `Where(x => x.Id == id).Delete()`: the rows that survive, in their order. */
  function Without(rows: seq<CartItem>, id: int): (r: seq<CartItem>)
    ensures |r| <= |rows|
    ensures forall x :: x in r <==> x in rows && x.id != id
  {
    if rows == [] then []
    else (if rows[0].id == id then [] else [rows[0]]) + Without(rows[1..], id)
  }

  /**
   * `Where(x => x.UserId == userId).Order(x => x.CreatedAt, Descending).Get()`
   * over a table kept in insertion order: the user's rows, latest first.
   */
  function NewestFirst(rows: seq<CartItem>, userId: string): (r: seq<CartItem>)
    ensures forall x :: x in r <==> x in rows && x.userId == userId
  {
    if rows == [] then []
    else NewestFirst(rows[1..], userId) + (if rows[0].userId == userId then [rows[0]] else [])
  }

  // ------------------------------------------------------------------
  // The operations, as functions of the table before the call
  // ------------------------------------------------------------------

  /**
   * UpdateQuantity: reject a non-positive quantity, write it to every row
   * with that id, then read the row back; a missing row is an error.
   * On success, the table after the write and the row read back.
   */
  function Updated(rows: seq<CartItem>, id: int, newQuantity: Int32): (r: Result<(seq<CartItem>, CartItem), CartError>)
    ensures r.Success? <==> newQuantity > 0 && exists i :: 0 <= i < |rows| && rows[i].id == id
    ensures r.Failure? ==> r.error == (if newQuantity <= 0 then QuantityNotPositive else UpdatedItemMissing)
    ensures r.Success? ==>
      |r.value.0| == |rows| && r.value.1 in r.value.0 && r.value.1.id == id && r.value.1.quantity == newQuantity
  {
    if newQuantity <= 0 then Failure(QuantityNotPositive)
    else
      var written := WithQuantity(rows, id, newQuantity);
      match RowWithId(written, id)
      case None => Failure(UpdatedItemMissing)
      case Some(item) => Success((written, item))
  }

  /**
   * AddToCart: the three validation checks in order, then merge into the
   * user's row for the product (through UpdateQuantity, with C#'s 32-bit
   * sum) or append a new row with the given fresh id and stamp.
   */
  function Added(rows: seq<CartItem>, catalogue: Catalogue, newId: int, now: int,
                 userId: string, productId: int, quantity: Int32): (r: Result<seq<CartItem>, CartError>)
    ensures r.Success? <==>
      userId != "" && quantity > 0 && productId in catalogue &&
      (RowForPair(rows, userId, productId).Some? ==>
         0 < RowForPair(rows, userId, productId).value.quantity + quantity <= Int32Max)
    ensures r.Failure? ==>
      r.error == (if userId == "" then EmptyUserId
                  else if quantity <= 0 then QuantityNotPositive
                  else if productId !in catalogue then ProductNotFound(productId)
                  else QuantityNotPositive)
    ensures r.Success? ==> |r.value| == |rows| + (if RowForPair(rows, userId, productId).None? then 1 else 0)
  {
    if userId == "" then Failure(EmptyUserId)
    else if quantity <= 0 then Failure(QuantityNotPositive)
    else if productId !in catalogue then Failure(ProductNotFound(productId))
    else match RowForPair(rows, userId, productId)
      case Some(existing) =>
        (match Updated(rows, existing.id, WrapInt32(existing.quantity + quantity))
         case Success(written) => Success(written.0)
         case Failure(e) => Failure(e))
      case None => Success(rows + [CartItem(newId, userId, productId, quantity, now)])
  }

  /** GetUserCart: an empty user id is an error, not an empty cart. */
  function Listed(rows: seq<CartItem>, userId: string): (r: Result<seq<CartItem>, CartError>)
    ensures r.Success? <==> userId != ""
    ensures r.Failure? ==> r.error == EmptyUserId
    ensures r.Success? ==> forall x :: x in r.value <==> x in rows && x.userId == userId
  {
    if userId == "" then Failure(EmptyUserId) else Success(NewestFirst(rows, userId))
  }

  // ------------------------------------------------------------------
  // Properties of the queries
  // ------------------------------------------------------------------

  /** With unique ids, the quantity update changes exactly the row with that id. */
  lemma WithQuantityTouchesOne(rows: seq<CartItem>, i: int, quantity: Int32)
    requires Chronological(rows) && 0 <= i < |rows|
    ensures WithQuantity(rows, rows[i].id, quantity) == rows[i := rows[i].(quantity := quantity)]
  {
    var w := WithQuantity(rows, rows[i].id, quantity);
    forall k | 0 <= k < |rows| && k != i
      ensures w[k] == rows[k]
    {
      if k < i { assert rows[k].id < rows[i].id; } else { assert rows[i].id < rows[k].id; }
    }
  }

  /** An update whose id matches no row leaves the table as it was. */
  lemma WithQuantityAbsent(rows: seq<CartItem>, id: int, quantity: Int32)
    requires forall i :: 0 <= i < |rows| ==> rows[i].id != id
    ensures WithQuantity(rows, id, quantity) == rows
  {
  }

  /** Deleting by id removes exactly the row that has it, and no other. */
  lemma {:induction false} WithoutRemovesOne(rows: seq<CartItem>, i: int)
    requires Chronological(rows) && 0 <= i < |rows|
    ensures Without(rows, rows[i].id) == rows[..i] + rows[i + 1..]
  {
    var id := rows[i].id;
    var tail := rows[1..];
    if i == 0 {
      forall k | 0 <= k < |tail|
        ensures tail[k].id != id
      {
        assert tail[k] == rows[k + 1];
      }
      WithoutAbsent(tail, id);
      assert Without(rows, id) == Without(tail, id);
    } else {
      ChronologicalTail(rows);
      assert tail[i - 1] == rows[i];
      WithoutRemovesOne(tail, i - 1);
      assert Without(rows, id) == [rows[0]] + Without(tail, id) by {
        assert rows[0].id < id;
      }
      assert [rows[0]] + (tail[..i - 1] + tail[i..]) == rows[..i] + rows[i + 1..] by {
        assert tail[..i - 1] == rows[1..i] && tail[i..] == rows[i + 1..];
        assert [rows[0]] + rows[1..i] == rows[..i];
      }
    }
  }

  /** Dropping the oldest row of a table in insertion order leaves one in insertion order. */
  lemma ChronologicalTail(rows: seq<CartItem>)
    requires Chronological(rows) && rows != []
    ensures Chronological(rows[1..])
  {
    var tail := rows[1..];
    forall a, b | 0 <= a < b < |tail|
      ensures tail[a].id < tail[b].id && tail[a].createdAt < tail[b].createdAt
    {
      assert tail[a] == rows[a + 1] && tail[b] == rows[b + 1];
    }
  }

  /** Deleting an id that no row has is a no-op. */
  lemma {:induction false} WithoutAbsent(rows: seq<CartItem>, id: int)
    requires forall i :: 0 <= i < |rows| ==> rows[i].id != id
    ensures Without(rows, id) == rows
  {
    if rows != [] {
      WithoutAbsent(rows[1..], id);
      assert [rows[0]] + rows[1..] == rows;
    }
  }

  /** Dropping one row keeps every table invariant. */
  lemma DropKeepsInvariant(rows: seq<CartItem>, i: int, nextId: int, clock: int)
    requires TableInvariant(rows) && StampsBelow(rows, nextId, clock) && 0 <= i < |rows|
    ensures TableInvariant(rows[..i] + rows[i + 1..]) && StampsBelow(rows[..i] + rows[i + 1..], nextId, clock)
  {
    var r := rows[..i] + rows[i + 1..];
    assert forall a :: 0 <= a < |r| ==> r[a] == rows[if a < i then a else a + 1];
  }

  /** Listing the user's rows of a table in insertion order puts the newest first. */
  lemma {:induction false} NewestFirstIsOrdered(rows: seq<CartItem>, userId: string)
    requires Chronological(rows)
    ensures NewestToOldest(NewestFirst(rows, userId))
  {
    if rows != [] {
      var tail := rows[1..];
      NewestFirstIsOrdered(tail, userId);
      var older := NewestFirst(tail, userId);
      forall x | x in older
        ensures x.createdAt > rows[0].createdAt
      {
        var k :| 0 <= k < |tail| && tail[k] == x;
        assert rows[k + 1] == x;
      }
    }
  }

  /** Appending a row puts it at the head of its owner's newest-first listing. */
  lemma {:induction false} NewestFirstAppend(rows: seq<CartItem>, item: CartItem, userId: string)
    ensures NewestFirst(rows + [item], userId) ==
      (if item.userId == userId then [item] else []) + NewestFirst(rows, userId)
  {
    if rows == [] {
      assert [item][1..] == [];
    } else {
      assert (rows + [item])[1..] == rows[1..] + [item];
      NewestFirstAppend(rows[1..], item, userId);
    }
  }

  /** With one row per pair, two rows of the same pair are the same row. */
  lemma PairRowUnique(rows: seq<CartItem>, i: int, k: int)
    requires OneRowPerPair(rows) && 0 <= i < |rows| && 0 <= k < |rows|
    requires rows[i].userId == rows[k].userId && rows[i].productId == rows[k].productId
    ensures i == k
  {
  }

  /** In a chronological table, ids are unique. */
  lemma IdRowUnique(rows: seq<CartItem>, i: int, k: int)
    requires Chronological(rows) && 0 <= i < |rows| && 0 <= k < |rows| && rows[i].id == rows[k].id
    ensures i == k
  {
  }

  /** Writing a positive quantity keeps every table invariant. */
  lemma WithQuantityKeepsInvariant(rows: seq<CartItem>, id: int, quantity: Int32, nextId: int, clock: int)
    requires TableInvariant(rows) && StampsBelow(rows, nextId, clock) && quantity > 0
    ensures TableInvariant(WithQuantity(rows, id, quantity)) && StampsBelow(WithQuantity(rows, id, quantity), nextId, clock)
  {
    var w := WithQuantity(rows, id, quantity);
    assert forall a :: 0 <= a < |w| ==>
      w[a].id == rows[a].id && w[a].createdAt == rows[a].createdAt &&
      w[a].userId == rows[a].userId && w[a].productId == rows[a].productId && w[a].quantity > 0;
  }

  /** Appending a row for a new pair, stamped from the counters, keeps every table invariant. */
  lemma AppendKeepsInvariant(rows: seq<CartItem>, item: CartItem)
    requires TableInvariant(rows) && StampsBelow(rows, item.id, item.createdAt) && item.quantity > 0
    requires forall i :: 0 <= i < |rows| ==> rows[i].userId != item.userId || rows[i].productId != item.productId
    ensures TableInvariant(rows + [item]) && StampsBelow(rows + [item], item.id + 1, item.createdAt + 1)
  {
    var r := rows + [item];
    assert forall a :: 0 <= a < |rows| ==> r[a] == rows[a];
  }

  // ------------------------------------------------------------------
  // Properties of the operations
  // ------------------------------------------------------------------

  /** Updating a row that exists rewrites its quantity alone and reads back that row. */
  lemma UpdatedExisting(rows: seq<CartItem>, i: int, newQuantity: Int32)
    requires Chronological(rows) && 0 <= i < |rows| && newQuantity > 0
    ensures Updated(rows, rows[i].id, newQuantity) ==
      Success((rows[i := rows[i].(quantity := newQuantity)], rows[i].(quantity := newQuantity)))
  {
    WithQuantityTouchesOne(rows, i, newQuantity);
    var w := rows[i := rows[i].(quantity := newQuantity)];
    assert w[i].id == rows[i].id;
    assert Chronological(w) by {
      assert forall a :: 0 <= a < |w| ==> w[a].id == rows[a].id && w[a].createdAt == rows[a].createdAt;
    }
    var found := RowWithId(w, rows[i].id).value;
    var k :| 0 <= k < |w| && w[k] == found;
    IdRowUnique(w, i, k);
  }

  /**
   * UpdateQuantity succeeds exactly when the quantity is positive and a row
   * has the id; then it rewrites that row's quantity and nothing else, and
   * returns the row with the new quantity. A missing row is an error and the
   * write before it changed nothing.
   */
  lemma UpdatedSpec(rows: seq<CartItem>, id: int, newQuantity: Int32)
    requires Chronological(rows)
    ensures Updated(rows, id, newQuantity).Success? <==>
      (newQuantity > 0 && exists i :: 0 <= i < |rows| && rows[i].id == id)
    ensures newQuantity <= 0 ==> Updated(rows, id, newQuantity) == Failure(QuantityNotPositive)
    ensures newQuantity > 0 && (forall i :: 0 <= i < |rows| ==> rows[i].id != id) ==>
      Updated(rows, id, newQuantity) == Failure(UpdatedItemMissing) && WithQuantity(rows, id, newQuantity) == rows
    ensures forall i :: 0 <= i < |rows| && rows[i].id == id && newQuantity > 0 ==>
      Updated(rows, id, newQuantity) ==
        Success((rows[i := rows[i].(quantity := newQuantity)], rows[i].(quantity := newQuantity)))
  {
    if newQuantity > 0 {
      if i :| 0 <= i < |rows| && rows[i].id == id {
        UpdatedExisting(rows, i, newQuantity);
        forall j | 0 <= j < |rows| && rows[j].id == id
          ensures j == i
        {
          IdRowUnique(rows, i, j);
        }
      } else {
        WithQuantityAbsent(rows, id, newQuantity);
      }
    }
  }

  /** A successful add keeps the table invariant and stays below the advanced counters. */
  lemma AddedKeepsInvariant(rows: seq<CartItem>, catalogue: Catalogue, newId: int, now: int,
                            userId: string, productId: int, quantity: Int32)
    requires TableInvariant(rows) && StampsBelow(rows, newId, now)
    ensures var r := Added(rows, catalogue, newId, now, userId, productId, quantity);
      r.Success? ==> TableInvariant(r.value) && StampsBelow(r.value, newId + 1, now + 1)
  {
    if userId != "" && quantity > 0 && productId in catalogue {
      var found := RowForPair(rows, userId, productId);
      if found.Some? {
        var id, q := found.value.id, WrapInt32(found.value.quantity + quantity);
        var updated := Updated(rows, id, q);
        assert Added(rows, catalogue, newId, now, userId, productId, quantity) ==
          if updated.Success? then Success(updated.value.0) else Failure(updated.error);
        if q > 0 {
          assert updated.Success? ==> updated.value.0 == WithQuantity(rows, id, q);
          WithQuantityKeepsInvariant(rows, id, q, newId, now);
          WithQuantityKeepsInvariant(rows, id, q, newId + 1, now + 1);
        }
      } else {
        var item := CartItem(newId, userId, productId, quantity, now);
        assert Added(rows, catalogue, newId, now, userId, productId, quantity) == Success(rows + [item]);
        AppendKeepsInvariant(rows, item);
      }
    }
  }

  /**
   * With no row yet for (user, product), a valid add appends exactly one new
   * row with that user, product and quantity; there is no upper bound on
   * the quantity beyond the 32-bit range.
   */
  lemma AddedInsertsNewRow(rows: seq<CartItem>, catalogue: Catalogue, newId: int, now: int,
                           userId: string, productId: int, quantity: Int32)
    requires userId != "" && quantity > 0 && productId in catalogue
    requires forall i :: 0 <= i < |rows| ==> rows[i].userId != userId || rows[i].productId != productId
    ensures Added(rows, catalogue, newId, now, userId, productId, quantity) ==
      Success(rows + [CartItem(newId, userId, productId, quantity, now)])
  {
  }

  /**
   * With a row for (user, product), a valid add whose sum fits in 32 bits
   * sets that row's quantity to the sum, unclamped, and inserts nothing.
   */
  lemma AddedMergesIntoRow(rows: seq<CartItem>, catalogue: Catalogue, newId: int, now: int,
                           userId: string, productId: int, quantity: Int32, i: int)
    requires TableInvariant(rows)
    requires userId != "" && quantity > 0 && productId in catalogue
    requires 0 <= i < |rows| && rows[i].userId == userId && rows[i].productId == productId
    requires rows[i].quantity + quantity <= Int32Max
    ensures Added(rows, catalogue, newId, now, userId, productId, quantity) ==
      Success(rows[i := rows[i].(quantity := rows[i].quantity + quantity)])
  {
    var existing := RowForPair(rows, userId, productId).value;
    var k :| 0 <= k < |rows| && rows[k] == existing;
    PairRowUnique(rows, i, k);
    UpdatedExisting(rows, i, rows[i].quantity + quantity);
  }

  /**
   * A merge whose sum exceeds the 32-bit range wraps to a negative number,
   * which UpdateQuantity rejects: the add fails and nothing is written.
   */
  lemma AddedRejectsOverflowingMerge(rows: seq<CartItem>, catalogue: Catalogue, newId: int, now: int,
                                     userId: string, productId: int, quantity: Int32, i: int)
    requires TableInvariant(rows)
    requires userId != "" && quantity > 0 && productId in catalogue
    requires 0 <= i < |rows| && rows[i].userId == userId && rows[i].productId == productId
    requires rows[i].quantity + quantity > Int32Max
    ensures Added(rows, catalogue, newId, now, userId, productId, quantity) == Failure(QuantityNotPositive)
  {
    var existing := RowForPair(rows, userId, productId).value;
    var k :| 0 <= k < |rows| && rows[k] == existing;
    PairRowUnique(rows, i, k);
  }

  /**
   * The first add of a product lists exactly one row for it in the user's
   * cart, with the quantity added, at the head of the newest-first listing.
   */
  lemma FirstAddListsOneRow(rows: seq<CartItem>, catalogue: Catalogue, newId: int, now: int,
                            userId: string, productId: int, quantity: Int32)
    requires TableInvariant(rows) && StampsBelow(rows, newId, now)
    requires userId != "" && quantity > 0 && productId in catalogue
    requires forall i :: 0 <= i < |rows| ==> rows[i].userId != userId || rows[i].productId != productId
    ensures var r := Added(rows, catalogue, newId, now, userId, productId, quantity);
      r.Success? && Listed(r.value, userId).Success? &&
      var listed := Listed(r.value, userId).value;
      |listed| > 0 && listed[0] == CartItem(newId, userId, productId, quantity, now) &&
      forall x :: x in listed && x.productId == productId ==> x == listed[0]
  {
    var item := CartItem(newId, userId, productId, quantity, now);
    NewestFirstAppend(rows, item, userId);
    var listed := NewestFirst(rows + [item], userId);
    assert listed == [item] + NewestFirst(rows, userId);
  }

  /**
   * Adding the same product twice leaves one row with the sum of the two
   * quantities: the table grows by one row, not two.
   */
  lemma SecondAddMerges(rows: seq<CartItem>, catalogue: Catalogue, id1: int, t1: int, id2: int, t2: int,
                        userId: string, productId: int, q1: Int32, q2: Int32)
    requires TableInvariant(rows) && StampsBelow(rows, id1, t1)
    requires userId != "" && q1 > 0 && q2 > 0 && q1 + q2 <= Int32Max && productId in catalogue
    requires forall i :: 0 <= i < |rows| ==> rows[i].userId != userId || rows[i].productId != productId
    ensures var first := Added(rows, catalogue, id1, t1, userId, productId, q1);
      first.Success? &&
      Added(first.value, catalogue, id2, t2, userId, productId, q2) ==
        Success(rows + [CartItem(id1, userId, productId, q1 + q2, t1)])
  {
    var first := rows + [CartItem(id1, userId, productId, q1, t1)];
    AddedInsertsNewRow(rows, catalogue, id1, t1, userId, productId, q1);
    AddedKeepsInvariant(rows, catalogue, id1, t1, userId, productId, q1);
    AddedMergesIntoRow(first, catalogue, id2, t2, userId, productId, q2, |rows|);
    assert first[|rows| := first[|rows|].(quantity := q1 + q2)] == rows + [CartItem(id1, userId, productId, q1 + q2, t1)];
  }

  // ------------------------------------------------------------------
  // The service
  // ------------------------------------------------------------------

  /**
   * CartService over an in-memory `cart_items` table. `nextId` stands for the
   * store's id sequence and `clock` for DateTime.UtcNow; both only grow.
   */
  class CartService {
    const products: Catalogue
    var cartItems: seq<CartItem>
    var nextId: int
    var clock: int

    ghost predicate Valid()
      reads this
    {
      TableInvariant(cartItems) && StampsBelow(cartItems, nextId, clock)
    }

    constructor (catalogue: Catalogue)
      ensures Valid() && products == catalogue && cartItems == []
    {
      products := catalogue;
      cartItems := [];
      nextId, clock := 1, 0;
    }

    /**
     * Validation first (empty user, non-positive quantity, unknown product,
     * in that order, before any write), then merge into the existing row or
     * insert a new one.
     */
    method AddToCart(userId: string, productId: int, quantity: Int32) returns (res: Outcome<CartError>)
      requires Valid()
      modifies this`cartItems, this`nextId, this`clock
      ensures Valid()
      ensures userId == "" ==> res == Fail(EmptyUserId)
      ensures userId != "" && quantity <= 0 ==> res == Fail(QuantityNotPositive)
      ensures userId != "" && quantity > 0 && productId !in products ==> res == Fail(ProductNotFound(productId))
      ensures res.Fail? ==> cartItems == old(cartItems)
      ensures Added(old(cartItems), products, old(nextId), old(clock), userId, productId, quantity) ==
        if res.Pass? then Success(cartItems) else Failure(res.error)
      ensures old(nextId) <= nextId && old(clock) <= clock
    {
      if userId == "" {
        return Fail(EmptyUserId);
      }
      if quantity <= 0 {
        return Fail(QuantityNotPositive);
      }
      if productId !in products {
        return Fail(ProductNotFound(productId));
      }
      var existingItem := RowForPair(cartItems, userId, productId);
      if existingItem.Some? {
        ghost var before := cartItems;
        var newQuantity := WrapInt32(existingItem.value.quantity + quantity);
        assert Added(before, products, nextId, clock, userId, productId, quantity) ==
          match Updated(before, existingItem.value.id, newQuantity)
          case Success(written) => Success(written.0)
          case Failure(e) => Failure(e);
        var updated := UpdateQuantity(existingItem.value.id, newQuantity);
        res := if updated.Success? then Pass else Fail(updated.error);
      } else {
        var item := CartItem(nextId, userId, productId, quantity, clock);
        AppendKeepsInvariant(cartItems, item);
        cartItems := cartItems + [item];
        nextId, clock := nextId + 1, clock + 1;
        res := Pass;
      }
    }

    /** Deletes the row with that id, if any; every other row stays, in order. */
    method RemoveFromCart(cartItemId: int)
      requires Valid()
      modifies this`cartItems
      ensures Valid()
      ensures cartItems == Without(old(cartItems), cartItemId)
    {
      if i :| 0 <= i < |cartItems| && cartItems[i].id == cartItemId {
        WithoutRemovesOne(cartItems, i);
        DropKeepsInvariant(cartItems, i, nextId, clock);
      } else {
        WithoutAbsent(cartItems, cartItemId);
      }
      cartItems := Without(cartItems, cartItemId);
    }

    /** The user's rows, newest first; an empty user id is an error. */
    method GetUserCart(userId: string) returns (r: Result<seq<CartItem>, CartError>)
      requires Valid()
      ensures r == Listed(cartItems, userId)
      ensures r.Failure? <==> userId == ""
      ensures r.Success? ==>
        (forall x :: x in r.value <==> x in cartItems && x.userId == userId) && NewestToOldest(r.value)
    {
      if userId == "" {
        return Failure(EmptyUserId);
      }
      NewestFirstIsOrdered(cartItems, userId);
      return Success(NewestFirst(cartItems, userId));
    }

    /**
     * Rejects a non-positive quantity, writes the quantity to the row with
     * that id, and reads the row back; no row is an error.
     */
    method UpdateQuantity(cartItemId: int, newQuantity: Int32) returns (r: Result<CartItem, CartError>)
      requires Valid()
      modifies this`cartItems
      ensures Valid()
      ensures Updated(old(cartItems), cartItemId, newQuantity) ==
        if r.Success? then Success((cartItems, r.value)) else Failure(r.error)
      ensures r.Failure? ==> cartItems == old(cartItems)
    {
      if newQuantity <= 0 {
        return Failure(QuantityNotPositive);
      }
      WithQuantityKeepsInvariant(cartItems, cartItemId, newQuantity, nextId, clock);
      if forall i :: 0 <= i < |cartItems| ==> cartItems[i].id != cartItemId {
        WithQuantityAbsent(cartItems, cartItemId, newQuantity);
      }
      cartItems := WithQuantity(cartItems, cartItemId, newQuantity);
      var updatedItem := RowWithId(cartItems, cartItemId);
      if updatedItem.None? {
        return Failure(UpdatedItemMissing);
      }
      return Success(updatedItem.value);
    }
  }
}
