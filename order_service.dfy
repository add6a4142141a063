/** The order service (PedidoService): validates an order, then chains the
    price calculator, the coupon adjustment and the product's final
    rounding rule. */
module OrderService {
  import opened Optional
  import opened Money
  import opened PriceCalculator

  /** An order as the caller hands it in; every key may be missing. */
  datatype Order = Order(
    customer: Option<string>,
    product: Option<string>,
    qty: Option<int>,
    coupon: Option<string>)

  /** The quantity of an order; a missing quantity counts as 0. */
  function Quantity(order: Order): int {
    match order.qty
    case None => 0
    case Some(q) => q
  }

  /** An order is processed only when it names a non-empty product and a
      positive quantity. */
  predicate IsAccepted(order: Order) {
    order.product.Some? && order.product.value != "" && Quantity(order) > 0
  }

  /** What a coupon does to a price: scale it, or subtract an amount when
      the order is for one given product. */
  datatype Adjustment =
    | Scale(factor: real)
    | SubtractFor(amount: real, onlyFor: string)

  /** The fixed coupon table. */
  const Coupons: map<string, Adjustment> :=
    map["MEGA10" := Scale(0.9), "NOVO5" := Scale(0.95), "LUB2" := SubtractFor(2.0, Lubrificante)]

  function Adjust(adjustment: Adjustment, price: real, product: string): real {
    match adjustment
    case Scale(factor) => price * factor
    case SubtractFor(amount, onlyFor) => if product == onlyFor then price - amount else price
  }

  /** _aplicar_cupom: an absent or empty coupon, or a code outside the
      table, leaves the price as it is; a known code applies its
      adjustment. Every coupon is a discount: a non-negative price never
      goes up, and only lubrificante can lose more than 10%. */
  function ApplyCoupon(price: real, coupon: Option<string>, product: string): (r: real)
    ensures r != price ==> coupon.Some? && coupon.value in Coupons
    ensures 0.0 <= price ==> r <= price
    ensures 0.0 <= price && product != Lubrificante ==> 0.9 * price <= r
  {
    if coupon.None? || coupon.value == "" then price
    else if coupon.value in Coupons then Adjust(Coupons[coupon.value], price, product)
    else price
  }

  /** _arredondar_valor: diesel rounds to whole reais, gasolina to the
      nearest cent, every other product truncates toward zero to cents.
      Whatever the product, the result is whole cents. */
  function FinalRounding(price: real, product: string): (r: real)
    ensures IsWholeCents(r)
    ensures product == Diesel ==> IsWhole(r) && -0.5 <= price - r <= 0.5
    ensures product == Gasolina ==> -0.005 <= price - r <= 0.005
    ensures product != Diesel && product != Gasolina && 0.0 <= price ==>
              0.0 <= r <= price < r + 0.01
  {
    if product == Diesel then
      var r := RoundUnits(price);
      WholeIsWholeCents(r);
      r
    else if product == Gasolina then RoundCents(price)
    else TruncCents(price)
  }

  /** processar_pedido, with the price calculator as a parameter: a
      rejected order is worth 0; an accepted one goes through the
      calculator, the coupon and the final rounding, in that order. The
      answer is always whole cents, whatever the calculator returns. */
  function ProcessOrder(order: Order, calculate: (string, int) -> real): (r: real)
    ensures !IsAccepted(order) ==> r == 0.0
    ensures IsWholeCents(r)
  {
    if !IsAccepted(order) then
      CentsAreWholeCents(0);
      0.0
    else
      var product := order.product.value;
      var price := calculate(product, Quantity(order));
      FinalRounding(ApplyCoupon(price, order.coupon, product), product)
  }

  /** The service as deployed, with the catalogue calculator. */
  function ProcessOrderWithCatalogue(order: Order): real {
    ProcessOrder(order, CalculatePrice)
  }

  /** A rejected order never consults the calculator: any two calculators
      give the same answer, 0. */
  lemma RejectedOrderIgnoresCalculator(order: Order, c1: (string, int) -> real, c2: (string, int) -> real)
    requires !IsAccepted(order)
    ensures ProcessOrder(order, c1) == ProcessOrder(order, c2) == 0.0
  {
  }

  /** An accepted order consults the calculator only at (product, quantity)
      and feeds its answer through the coupon and then the rounding rule. */
  lemma AcceptedOrderPipeline(order: Order, c1: (string, int) -> real, c2: (string, int) -> real)
    requires IsAccepted(order)
    requires c1(order.product.value, Quantity(order)) == c2(order.product.value, Quantity(order))
    ensures ProcessOrder(order, c1) == ProcessOrder(order, c2)
    ensures ProcessOrder(order, c1) ==
              FinalRounding(ApplyCoupon(c1(order.product.value, Quantity(order)), order.coupon, order.product.value),
                            order.product.value)
  {
  }

  /** MEGA10 and NOVO5 scale the price for every product. */
  lemma PercentCoupons(price: real, product: string)
    ensures ApplyCoupon(price, Some("MEGA10"), product) == price * 0.9
    ensures ApplyCoupon(price, Some("NOVO5"), product) == price * 0.95
  {
  }

  /** LUB2 takes 2.00 off if and only if the product is lubrificante, and
      otherwise leaves the price alone. */
  lemma Lub2OnlyForLubrificante(price: real, product: string)
    ensures ApplyCoupon(price, Some("LUB2"), product) == price - 2.0 <==> product == Lubrificante
    ensures product != Lubrificante ==> ApplyCoupon(price, Some("LUB2"), product) == price
  {
  }

  /** An absent, empty or unknown coupon is a no-op. */
  lemma UnknownCouponIsNoOp(price: real, code: string, product: string)
    requires code != "MEGA10" && code != "NOVO5" && code != "LUB2"
    ensures ApplyCoupon(price, None, product) == price
    ensures ApplyCoupon(price, Some(code), product) == price
  {
  }

  /** Applying the final rounding a second time changes nothing. */
  lemma FinalRoundingIdempotent(price: real, product: string)
    ensures FinalRounding(FinalRounding(price, product), product) == FinalRounding(price, product)
  {
    RoundingIdempotent(price);
  }

  /** With the catalogue calculator an order is worth something exactly
      when it is accepted and its product is in the catalogue; otherwise it
      is worth 0. */
  lemma CatalogueOrderPositiveIff(order: Order)
    ensures 0.0 <= ProcessOrderWithCatalogue(order)
    ensures 0.0 < ProcessOrderWithCatalogue(order) <==> IsAccepted(order) && order.product.value in Bases
  {
    if IsAccepted(order) {
      var product := order.product.value;
      var price := CalculatePrice(product, Quantity(order));
      var adjusted := ApplyCoupon(price, order.coupon, product);
      if product in Bases {
        CouponKeepsCataloguePricePositive(product, Quantity(order), order.coupon);
        FinalRoundingPositive(adjusted, product);
      } else {
        assert adjusted == 0.0;
      }
    }
  }

  /** A catalogue price for at least one unit stays above 2.00 after any
      coupon. */
  lemma CouponKeepsCataloguePricePositive(product: string, qty: int, coupon: Option<string>)
    requires product in Bases && 1 <= qty
    ensures 2.0 <= ApplyCoupon(CalculatePrice(product, qty), coupon, product)
  {
    var price := CalculatePrice(product, qty);
    assert 3.59 <= ListTotal(product, qty);
    if product == Lubrificante {
      LubrificanteHasNoDiscount(qty);
    }
  }

  /** An amount of at least 1.00 never rounds down to 0. */
  lemma FinalRoundingPositive(price: real, product: string)
    requires 1.0 <= price
    ensures 0.0 < FinalRounding(price, product)
  {
  }

  /** The rounding examples: diesel to whole reais, gasolina to cents,
      the others truncated (170.525 gives 170.52, 99.999 gives 99.99). */
  lemma RoundingExamples()
    ensures FinalRounding(3878.28, Diesel) == 3878.0
    ensures FinalRounding(3878.51, Diesel) == 3879.0
    ensures FinalRounding(1457.003, Gasolina) == 1457.00
    ensures FinalRounding(1457.996, Gasolina) == 1458.00
    ensures FinalRounding(170.525, Etanol) == 170.52
    ensures FinalRounding(99.999, Lubrificante) == 99.99
  {
    assert RoundHalfEven(3878.28) == 3878;
    assert RoundHalfEven(3878.51) == 3879;
    assert RoundHalfEven(1457.003 * 100.0) == 145700;
    assert RoundHalfEven(1457.996 * 100.0) == 145800;
    assert TruncateTowardZero(170.525 * 100.0) == 17052;
    assert TruncateTowardZero(99.999 * 100.0) == 9999;
  }

  /** The rejection examples: a missing product or a zero quantity gives 0. */
  lemma RejectedOrderExamples()
    ensures ProcessOrder(Order(Some("Teste"), None, Some(10), None), (p, q) => 100.0) == 0.0
    ensures ProcessOrder(Order(Some("Teste"), Some(Diesel), Some(0), None), (p, q) => 100.0) == 0.0
  {
  }

  /** The end-to-end example: with a calculator that answers 100.00, etanol
      x100 with NOVO5 comes to 95.00. With the catalogue calculator the same
      order is 348.23 * 0.95 = 330.8185, truncated to 330.81. */
  lemma OrderPipelineExample()
    ensures ProcessOrder(Order(Some("Teste"), Some(Etanol), Some(100), Some("NOVO5")), (p, q) => 100.0) == 95.00
    ensures ProcessOrderWithCatalogue(Order(Some("Teste"), Some(Etanol), Some(100), Some("NOVO5"))) == 330.81
  {
    assert TruncateTowardZero(95.0 * 100.0) == 9500;
    CalculatorExamples();
    assert ApplyCoupon(348.23, Some("NOVO5"), Etanol) == 330.8185;
    assert TruncateTowardZero(330.8185 * 100.0) == 33081;
  }
}
