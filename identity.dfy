/**
 * The claims of the signed-in principal, as far as the cart needs them:
 * `User.FindFirst(ClaimTypes.NameIdentifier)?.Value`.
 */
module Identity {
  import opened Wrappers

  datatype Claim = Claim(claimType: string, value: string)

  /** The request's principal, with its claims in the order the identity lists them. */
  datatype Principal = Principal(claims: seq<Claim>)

  const NameIdentifier: string := "http://schemas.xmlsoap.org/ws/2005/05/identity/claims/nameidentifier"

  /**
   * `FindFirst(claimType)?.Value`: the value of the first claim of that type,
   * or null. Claim types are compared exactly, not ignoring case.
   */
  function FindFirstValue(claims: seq<Claim>, claimType: string): (r: Option<string>)
    ensures r.None? <==> forall i :: 0 <= i < |claims| ==> claims[i].claimType != claimType
    ensures r.Some? ==>
      exists i :: 0 <= i < |claims| && claims[i] == Claim(claimType, r.value) &&
        forall j :: 0 <= j < i ==> claims[j].claimType != claimType
  {
    if claims == [] then None
    else if claims[0].claimType == claimType then Some(claims[0].value)
    else
      var r := FindFirstValue(claims[1..], claimType);
      assert forall j :: 1 <= j < |claims| ==> claims[j] == claims[1..][j - 1];
      r
  }

  /** The user id the cart code reads: the first NameIdentifier claim's value, if any. */
  function CurrentUserId(user: Principal): Option<string>
  {
    FindFirstValue(user.claims, NameIdentifier)
  }
}
