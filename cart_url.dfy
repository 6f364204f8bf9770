/**
 * The add-to-cart URL of a product (`Products::get_add_to_cart_url`): a
 * URL that points into the REST API is replaced by a query-string URL that
 * adds the product to the cart.
 */
module CartUrl {
  const RestPath := "/wp-json/wc/"
  const AddToCartQuery := "?add-to-cart="

  /** `t` occurs in `s` starting at position `i`. */
  predicate OccursAt(s: string, t: string, i: nat)
  {
    i + |t| <= |s| && s[i..i + |t|] == t
  }

  /** An occurrence at `i` is `t` being a prefix of the rest of `s` from `i` on. */
  lemma OccursAtIsPrefix(s: string, t: string)
    ensures forall i :: 0 <= i <= |s| ==> (OccursAt(s, t, i) <==> t <= s[i..])
  {
    forall i | 0 <= i <= |s| && t <= s[i..]
      ensures OccursAt(s, t, i)
    {
      assert s[i..i + |t|] == s[i..][..|t|];
    }
  }

  /** PHP's `strstr(s, t)` is truthy: `t` (here never empty) occurs in `s`. */
  predicate Contains(s: string, t: string): (r: bool)
    ensures r ==> |t| <= |s|
    ensures r <==> exists i :: 0 <= i <= |s| - |t| && t <= s[i..]
  {
    OccursAtIsPrefix(s, t);
    exists i: nat :: i <= |s| && OccursAt(s, t, i)
  }

  /** The number a string of decimal digits denotes, most significant digit first. */
  function DigitsValue(s: string): nat
    requires forall k :: 0 <= k < |s| ==> '0' <= s[k] <= '9'
  {
    if s == [] then 0
    else DigitsValue(s[..|s| - 1]) * 10 + (s[|s| - 1] as int - '0' as int)
  }

  /**
   * The decimal digits of a non-negative integer, as PHP writes it into a
   * string: they denote the integer, and there is no leading zero except in
   * "0" itself.
   */
  function DecimalString(n: nat): (s: string)
    ensures |s| > 0
    ensures forall k :: 0 <= k < |s| ==> '0' <= s[k] <= '9'
    ensures DigitsValue(s) == n
    ensures s[0] != '0' || s == "0"
  {
    var digit := ['0' + (n % 10) as char];
    if n < 10 then digit else DecimalString(n / 10) + digit
  }

  /** A string without a slash contains no REST path. */
  lemma NoSlashNoRestPath(s: string)
    requires forall k :: 0 <= k < |s| ==> s[k] != '/'
    ensures !Contains(s, RestPath)
  {
    forall i: nat | i + |RestPath| <= |s|
      ensures !OccursAt(s, RestPath, i)
    {
      assert s[i..i + |RestPath|][0] == s[i] != RestPath[0];
    }
  }

  /**
   * The add-to-cart URL: the product's own URL when it does not point into
   * the REST API, otherwise `?add-to-cart=` followed by the product id; the
   * result never points into the REST API.
   */
  function AddToCartUrl(url: string, productId: nat): (r: string)
    ensures !Contains(url, RestPath) ==> r == url
    ensures Contains(url, RestPath) ==>
              AddToCartQuery <= r && r[|AddToCartQuery|..] == DecimalString(productId)
    ensures !Contains(r, RestPath)
  {
    if Contains(url, RestPath) then
      var r := AddToCartQuery + DecimalString(productId);
      NoSlashNoRestPath(r);
      r
    else
      url
  }
}
