/**
 * The price block of a product projection (`Products::get_prices`): the
 * currency formatting settings, the price prefix and suffix chosen by the
 * currency position setting, the three prices under the shop's tax display
 * setting, and the price range.
 */
module Prices {
  import opened Wrappers
  import opened PriceRange

  /** The shop's currency settings as read when the block is built. */
  datatype CurrencySettings = CurrencySettings(
    code: string,
    symbol: string,
    position: string,
    decimalSeparator: string,
    thousandSeparator: string,
    decimals: int,
    taxDisplay: TaxDisplay)

  /** The prices of a product as the platform computes them, and its kind for the range. */
  datatype ProductPrices = ProductPrices(
    price: TaxedPrice,
    regularPrice: TaxedPrice,
    salePrice: TaxedPrice,
    kind: PricedProduct)

  datatype PriceBlock = PriceBlock(
    currencyCode: string,
    decimalSeparator: string,
    thousandSeparator: string,
    decimals: int,
    pricePrefix: string,
    priceSuffix: string,
    price: int,
    regularPrice: int,
    salePrice: int,
    priceRange: Option<Range>)

  /**
   * The prefix and suffix for a currency position: the symbol goes before
   * the amount for `left` and `left_space`, after it for `right` and
   * `right_space`, the `_space` forms add one space between symbol and
   * amount, and any other position gives neither.
   */
  method CurrencyAffixes(position: string, symbol: string) returns (prefix: string, suffix: string)
    ensures position == "left_space" ==> prefix == symbol + " " && suffix == ""
    ensures position == "left" ==> prefix == symbol && suffix == ""
    ensures position == "right_space" ==> prefix == "" && suffix == " " + symbol
    ensures position == "right" ==> prefix == "" && suffix == symbol
    ensures position !in {"left_space", "left", "right_space", "right"} ==> prefix == "" && suffix == ""
    ensures prefix == "" || suffix == ""
  {
    prefix := "";
    suffix := "";
    if position == "left_space" {
      prefix := symbol + " ";
    } else if position == "left" {
      prefix := symbol;
    } else if position == "right_space" {
      suffix := " " + symbol;
    } else if position == "right" {
      suffix := symbol;
    }
  }

  /**
   * The price block. The three prices are all shown under the one tax
   * display setting, the prefix and suffix follow the currency position,
   * and the range is the product's price range.
   */
  method GetPrices(product: ProductPrices, settings: CurrencySettings) returns (block: PriceBlock)
    requires product.kind.Variable? ==> |product.kind.variationPrices| > 0
    ensures block.currencyCode == settings.code
    ensures block.decimalSeparator == settings.decimalSeparator
    ensures block.thousandSeparator == settings.thousandSeparator
    ensures block.decimals == settings.decimals
    ensures settings.position == "left_space" ==>
              block.pricePrefix == settings.symbol + " " && block.priceSuffix == ""
    ensures settings.position == "left" ==>
              block.pricePrefix == settings.symbol && block.priceSuffix == ""
    ensures settings.position == "right_space" ==>
              block.pricePrefix == "" && block.priceSuffix == " " + settings.symbol
    ensures settings.position == "right" ==>
              block.pricePrefix == "" && block.priceSuffix == settings.symbol
    ensures settings.position !in {"left_space", "left", "right_space", "right"} ==>
              block.pricePrefix == "" && block.priceSuffix == ""
    ensures block.pricePrefix == "" || block.priceSuffix == ""
    ensures settings.position in {"left_space", "left"} ==> block.priceSuffix == "" && settings.symbol <= block.pricePrefix
    ensures settings.position in {"right_space", "right"} ==>
              && block.pricePrefix == ""
              && |settings.symbol| <= |block.priceSuffix|
              && block.priceSuffix[|block.priceSuffix| - |settings.symbol|..] == settings.symbol
    ensures settings.taxDisplay == Incl ==>
              block.price == product.price.including &&
              block.regularPrice == product.regularPrice.including &&
              block.salePrice == product.salePrice.including
    ensures settings.taxDisplay == Excl ==>
              block.price == product.price.excluding &&
              block.regularPrice == product.regularPrice.excluding &&
              block.salePrice == product.salePrice.excluding
    ensures IsPriceRangeOf(block.priceRange, product.kind, settings.taxDisplay)
  {
    var prefix, suffix := CurrencyAffixes(settings.position, settings.symbol);
    var range := GetPriceRange(product.kind, settings.taxDisplay);
    block := PriceBlock(
      settings.code, settings.decimalSeparator, settings.thousandSeparator, settings.decimals,
      prefix, suffix,
      Displayed(product.price, settings.taxDisplay),
      Displayed(product.regularPrice, settings.taxDisplay),
      Displayed(product.salePrice, settings.taxDisplay),
      range);
  }
}
