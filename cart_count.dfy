/**
 * The cart badge in the page header: the number of rows in the signed-in
 * user's cart, rendered as text, or "0" when there is no user or the cart
 * cannot be read. It only reads the table.
 */
module CartBadge {
  import opened Wrappers
  import opened ShopModels
  import opened Identity
  import opened CartStore

  predicate IsDigit(c: char)
  {
    '0' <= c <= '9'
  }

  /** `int.ToString()` of a non-negative count: decimal digits, no leading zero. */
  function DecimalString(n: nat): (s: string)
    ensures |s| >= 1 && forall i :: 0 <= i < |s| ==> IsDigit(s[i])
    ensures s[0] == '0' <==> n == 0
    ensures n == 0 ==> s == "0"
  {
    if n < 10 then ["0123456789"[n]]
    else DecimalString(n / 10) + ["0123456789"[n % 10]]
  }

  /** The number a string of decimal digits denotes. */
  function DecimalValue(s: string): nat
    requires forall i :: 0 <= i < |s| ==> IsDigit(s[i])
  {
    if s == [] then 0
    else
      assert IsDigit(s[|s| - 1]);
      DecimalValue(s[..|s| - 1]) * 10 + (s[|s| - 1] as int - '0' as int)
  }

  /** Reading the rendered count back gives the count. */
  lemma {:induction false} DecimalRoundTrip(n: nat)
    ensures DecimalValue(DecimalString(n)) == n
  {
    if n >= 10 {
      DecimalRoundTrip(n / 10);
      var s := DecimalString(n);
      assert s[..|s| - 1] == DecimalString(n / 10);
    }
  }

  /** `CartCount.InvokeAsync` over the current contents of the `cart_items` table. */
  function CartCount(user: Principal, cartItems: seq<CartItem>): (content: string)
    ensures var userId := CurrentUserId(user);
      userId.None? || userId.value == "" ==> content == "0"
    ensures var userId := CurrentUserId(user);
      userId.Some? && userId.value != "" ==> content == DecimalString(|NewestFirst(cartItems, userId.value)|)
  {
    var userId := CurrentUserId(user);
    if userId.None? || userId.value == "" then "0"
    else
      match Listed(cartItems, userId.value)
      case Success(items) => DecimalString(|items|)
      case Failure(_) => "0"
  }

  /** In a table with unique rows, a sequence without repeats has as many elements as its set. */
  lemma {:induction false} DistinctCardinality(s: seq<CartItem>)
    requires forall i, j :: 0 <= i < j < |s| ==> s[i] != s[j]
    ensures |set x | x in s| == |s|
  {
    if s != [] {
      var tail := s[1..];
      assert forall i, j :: 0 <= i < j < |tail| ==> tail[i] != tail[j] by {
        forall i, j | 0 <= i < j < |tail|
          ensures tail[i] != tail[j]
        {
          assert tail[i] == s[i + 1] && tail[j] == s[j + 1];
        }
      }
      DistinctCardinality(tail);
      assert s[0] !in tail by {
        forall k | 0 <= k < |tail|
          ensures tail[k] != s[0]
        {
          assert tail[k] == s[k + 1];
        }
      }
      assert (set x | x in s) == {s[0]} + (set x | x in tail);
    }
  }

  /**
   * The badge shows the number of distinct rows of the user's in the table,
   * in decimal.
   */
  lemma CartCountCountsOwnRows(user: Principal, cartItems: seq<CartItem>)
    requires Chronological(cartItems)
    requires CurrentUserId(user).Some? && CurrentUserId(user).value != ""
    ensures var own := set x | x in cartItems && x.userId == CurrentUserId(user).value;
      DecimalValue(CartCount(user, cartItems)) == |own|
  {
    var userId := CurrentUserId(user).value;
    var listed := NewestFirst(cartItems, userId);
    NewestFirstIsOrdered(cartItems, userId);
    DistinctCardinality(listed);
    assert (set x | x in listed) == (set x | x in cartItems && x.userId == userId);
    DecimalRoundTrip(|listed|);
  }
}
