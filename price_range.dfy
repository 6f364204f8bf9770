/**
 * The price range of a product (`Products::get_price_range`): the lowest
 * and highest price over a variable product's variations or over a
 * grouped product's visible, priced children. Prices are integers in the
 * currency's minor unit.
 */
module PriceRange {
  import opened Wrappers

  /** The shop's tax display setting; any value other than `incl` reads as `Excl`. */
  datatype TaxDisplay = Incl | Excl

  /** A price as the platform computes it with tax included and with tax excluded. */
  datatype TaxedPrice = TaxedPrice(including: int, excluding: int)

  /** The price shown under a tax display setting. */
  function Displayed(p: TaxedPrice, mode: TaxDisplay): (r: int)
    ensures mode == Incl ==> r == p.including
    ensures mode == Excl ==> r == p.excluding
  {
    if mode == Incl then p.including else p.excluding
  }

  /**
   * A child of a grouped product: whether the platform's visibility filter
   * for grouped children keeps it, and its price (`None` when the child's
   * price is empty).
   */
  datatype GroupedChild = GroupedChild(visible: bool, price: Option<TaxedPrice>)

  /**
   * The product kinds the range distinguishes. A variable product carries
   * its variations' prices as displayed (tax already applied by the platform).
   */
  datatype PricedProduct =
    | Variable(variationPrices: seq<int>)
    | Grouped(children: seq<GroupedChild>)
    | OtherKind

  datatype Range = Range(minAmount: int, maxAmount: int)

  /** PHP's `min` over a non-empty list. */
  function Min(s: seq<int>): (m: int)
    requires |s| > 0
    ensures m in s
    ensures forall x :: x in s ==> m <= x
  {
    if |s| == 1 then s[0]
    else
      var rest := Min(s[1..]);
      assert s == [s[0]] + s[1..];
      if s[0] <= rest then s[0] else rest
  }

  /** PHP's `max` over a non-empty list. */
  function Max(s: seq<int>): (m: int)
    requires |s| > 0
    ensures m in s
    ensures forall x :: x in s ==> x <= m
  {
    if |s| == 1 then s[0]
    else
      var rest := Max(s[1..]);
      assert s == [s[0]] + s[1..];
      if s[0] >= rest then s[0] else rest
  }

  /** `r` spans exactly the prices: both ends are prices and every price lies between them. */
  predicate IsRangeOf(r: Range, prices: seq<int>)
  {
    r.minAmount in prices && r.maxAmount in prices &&
    forall x :: x in prices ==> r.minAmount <= x <= r.maxAmount
  }

  /** A grouped child that contributes to the range: visible and with a price. */
  predicate Contributes(c: GroupedChild)
  {
    c.visible && c.price.Some?
  }

  /** The displayed prices of the contributing children, in the children's order. */
  function ChildPrices(children: seq<GroupedChild>, mode: TaxDisplay): seq<int>
  {
    if children == [] then []
    else
      var last := children[|children| - 1];
      ChildPrices(children[..|children| - 1], mode) +
        (if Contributes(last) then [Displayed(last.price.value, mode)] else [])
  }

  /** The child prices are exactly the displayed prices of the contributing children. */
  lemma {:induction false} ChildPricesMembers(children: seq<GroupedChild>, mode: TaxDisplay, x: int)
    ensures x in ChildPrices(children, mode) <==>
              exists j :: 0 <= j < |children| && Contributes(children[j]) && Displayed(children[j].price.value, mode) == x
  {
    if children != [] {
      var front := children[..|children| - 1];
      ChildPricesMembers(front, mode, x);
      forall j | 0 <= j < |front| ensures front[j] == children[j] { }
    }
  }

  /** There are child prices exactly when some child contributes. */
  lemma ChildPricesEmpty(children: seq<GroupedChild>, mode: TaxDisplay)
    ensures ChildPrices(children, mode) == [] <==> forall j :: 0 <= j < |children| ==> !Contributes(children[j])
  {
    var prices := ChildPrices(children, mode);
    if prices != [] {
      ChildPricesMembers(children, mode, prices[0]);
    }
    forall j | 0 <= j < |children| && Contributes(children[j])
      ensures prices != []
    {
      ChildPricesMembers(children, mode, Displayed(children[j].price.value, mode));
    }
  }

  /**
   * What a price range promises. A variable product has one unless all its
   * variation prices are equal, and then it spans them; a grouped product
   * has one exactly when at least one child is visible and priced, and then
   * it spans those children's displayed prices; any other product has none.
   */
  predicate IsPriceRangeOf(range: Option<Range>, product: PricedProduct, mode: TaxDisplay)
  {
    && (range.Some? ==> range.value.minAmount <= range.value.maxAmount)
    && match product
       case Variable(prices) =>
         && (range.None? <==> forall x, y :: x in prices && y in prices ==> x == y)
         && (range.Some? ==> IsRangeOf(range.value, prices))
       case Grouped(children) =>
         && (range.None? <==> forall j :: 0 <= j < |children| ==> !Contributes(children[j]))
         && (range.Some? ==> IsRangeOf(range.value, ChildPrices(children, mode)))
       case OtherKind =>
         range.None?
  }

  /** The promise fixes the range: two ranges that both keep it are equal. */
  lemma PriceRangeDetermined(r1: Option<Range>, r2: Option<Range>, product: PricedProduct, mode: TaxDisplay)
    requires IsPriceRangeOf(r1, product, mode) && IsPriceRangeOf(r2, product, mode)
    ensures r1 == r2
  {
    if r1.Some? && r2.Some? {
      var prices := if product.Variable? then product.variationPrices else ChildPrices(product.children, mode);
      assert IsRangeOf(r1.value, prices) && IsRangeOf(r2.value, prices);
    }
  }

  /** The price range of a product (variation prices must not be empty). */
  method GetPriceRange(product: PricedProduct, mode: TaxDisplay) returns (range: Option<Range>)
    requires product.Variable? ==> |product.variationPrices| > 0
    ensures IsPriceRangeOf(range, product, mode)
  {
    if product.Variable? {
      var prices := product.variationPrices;
      assert prices[0] in prices;
      if Min(prices) != Max(prices) {
        return Some(Range(Min(prices), Max(prices)));
      }
    }

    if product.Grouped? {
      var children := product.children;
      var childPrices: seq<int> := [];
      var i := 0;
      while i < |children|
        invariant 0 <= i <= |children|
        invariant childPrices == ChildPrices(children[..i], mode)
      {
        assert children[..i + 1][..i] == children[..i];
        if children[i].visible && children[i].price.Some? {
          childPrices := childPrices + [Displayed(children[i].price.value, mode)];
        }
        i := i + 1;
      }
      assert children[..|children|] == children;
      ChildPricesEmpty(children, mode);
      if childPrices != [] {
        return Some(Range(Min(childPrices), Max(childPrices)));
      }
    }

    return None;
  }
  /** What a caller can conclude from GetPriceRange's contract alone. */
  method PriceRangeClient()
  {
    var uniform := GetPriceRange(Variable([1000, 1000, 1000]), Incl);
    assert uniform == None;

    var prices := [1000, 1500];
    var spread := GetPriceRange(Variable(prices), Incl);
    assert prices[0] in prices && prices[1] in prices;
    assert spread.Some?;
    assert spread.value == Range(1000, 1500);

    var children := [
      GroupedChild(true, Some(TaxedPrice(600, 500))),
      GroupedChild(true, None),
      GroupedChild(true, Some(TaxedPrice(900, 800))),
      GroupedChild(false, Some(TaxedPrice(100, 100)))];
    var grouped := GetPriceRange(Grouped(children), Excl);
    assert Contributes(children[0]);
    assert grouped.Some?;
    ChildPricesMembers(children, Excl, grouped.value.minAmount);
    ChildPricesMembers(children, Excl, grouped.value.maxAmount);
    ChildPricesMembers(children, Excl, 500);
    ChildPricesMembers(children, Excl, 800);
    assert grouped.value == Range(500, 800);

    var unpriced := GetPriceRange(Grouped([GroupedChild(true, None)]), Excl);
    assert unpriced == None;
  }
}
