/** The price calculator (PrecoCalculadora): catalogue lookup, the
    per-product quantity discount, and rounding to cents. */
module PriceCalculator {
  import opened Money

  const Diesel: string := "diesel"
  const Gasolina: string := "gasolina"
  const Etanol: string := "etanol"
  const Lubrificante: string := "lubrificante"

  /** The fixed catalogue of unit prices (BASES). */
  const Bases: map<string, real> :=
    map[Diesel := 3.99, Gasolina := 5.19, Etanol := 3.59, Lubrificante := 25.00]

  /** Diesel: 10% off above 1000 units, 5% off above 500, otherwise none. */
  function DieselDiscount(total: real, qty: int): (r: real)
    ensures 0.0 <= total ==> 0.9 * total <= r <= total
    ensures qty <= 500 ==> r == total
    ensures 0.0 < total && 500 < qty ==> r < total
  {
    if qty > 1000 then total * 0.9
    else if qty > 500 then total * 0.95
    else total
  }

  /** Gasolina: a flat 100.00 off above 200 units, otherwise none. */
  function GasolinaDiscount(total: real, qty: int): (r: real)
    ensures r <= total && total - r <= 100.0
    ensures qty <= 200 <==> r == total
  {
    if qty > 200 then total - 100.0 else total
  }

  /** Etanol: 3% off above 80 units, otherwise none. */
  function EtanolDiscount(total: real, qty: int): (r: real)
    ensures 0.0 <= total ==> 0.97 * total <= r <= total
    ensures qty <= 80 ==> r == total
    ensures 0.0 < total && 80 < qty ==> r < total
  {
    if qty > 80 then total * 0.97 else total
  }

  /** The undiscounted total, unit price times quantity. */
  function ListTotal(product: string, qty: int): real
    requires product in Bases
  {
    Bases[product] * qty as real
  }

  /** The total after the product's quantity discount, before rounding. */
  function DiscountedTotal(product: string, qty: int): real
    requires product in Bases
  {
    var total := ListTotal(product, qty);
    if product == Diesel then DieselDiscount(total, qty)
    else if product == Gasolina then GasolinaDiscount(total, qty)
    else if product == Etanol then EtanolDiscount(total, qty)
    else total
  }

  /** Every catalogue price is a whole number of cents, so is the
      undiscounted total of any whole quantity. */
  lemma ListTotalIsWholeCents(product: string, qty: int)
    requires product in Bases
    ensures IsWholeCents(ListTotal(product, qty))
  {
    var cents := if product == Diesel then 399
                 else if product == Gasolina then 519
                 else if product == Etanol then 359
                 else 2500;
    assert ListTotal(product, qty) == (cents * qty) as real / 100.0;
    CentsAreWholeCents(cents * qty);
  }

  /** A quantity discount takes at most 10% off a non-negative total and
      never adds to it. */
  lemma DiscountBounds(product: string, qty: int)
    requires product in Bases && 0 <= qty
    ensures 0.9 * ListTotal(product, qty) <= DiscountedTotal(product, qty) <= ListTotal(product, qty)
  {
  }

  /** calcular_preco: 0 for a product outside the catalogue; otherwise the
      discounted total rounded to cents. The result is whole cents, never
      above the undiscounted total and never more than 10% (plus half a
      cent) below it; a catalogue product ordered at least once costs
      something. */
  function CalculatePrice(product: string, qty: int): (r: real)
    ensures product !in Bases ==> r == 0.0
    ensures IsWholeCents(r)
    ensures product in Bases && 0 <= qty ==>
              0.9 * ListTotal(product, qty) - 0.005 <= r <= ListTotal(product, qty)
    ensures product in Bases && 1 <= qty ==> 0.0 < r
  {
    if product !in Bases then 0.0
    else
      var t := DiscountedTotal(product, qty);
      ListTotalIsWholeCents(product, qty);
      if 0 <= qty then
        DiscountBounds(product, qty);
        RoundCentsMonotone(t, ListTotal(product, qty));
        RoundCentsKeepsWholeCents(ListTotal(product, qty));
        RoundCents(t)
      else
        RoundCents(t)
  }

  /** Lubrificante has no quantity discount: the price is exactly 25.00 per
      unit. */
  lemma LubrificanteHasNoDiscount(qty: int)
    ensures CalculatePrice(Lubrificante, qty) == 25.00 * qty as real
  {
    ListTotalIsWholeCents(Lubrificante, qty);
    RoundCentsKeepsWholeCents(ListTotal(Lubrificante, qty));
  }

  /** Diesel tiers, with strict thresholds: up to 500 units the list total
      unchanged, up to 1000 units 95% of it, above that 90%. */
  lemma DieselTiers(qty: int)
    ensures qty <= 500 ==> CalculatePrice(Diesel, qty) == 3.99 * qty as real
    ensures 500 < qty <= 1000 ==> CalculatePrice(Diesel, qty) == RoundCents(3.99 * qty as real * 0.95)
    ensures 1000 < qty ==> CalculatePrice(Diesel, qty) == RoundCents(3.99 * qty as real * 0.9)
  {
    ListTotalIsWholeCents(Diesel, qty);
    RoundCentsKeepsWholeCents(ListTotal(Diesel, qty));
  }

  /** Gasolina: above 200 units exactly 100.00 less than the list total
      (no rounding is needed either way). */
  lemma GasolinaTiers(qty: int)
    ensures qty <= 200 ==> CalculatePrice(Gasolina, qty) == 5.19 * qty as real
    ensures 200 < qty ==> CalculatePrice(Gasolina, qty) == 5.19 * qty as real - 100.0
  {
    var total := ListTotal(Gasolina, qty);
    if qty <= 200 {
      ListTotalIsWholeCents(Gasolina, qty);
      RoundCentsKeepsWholeCents(total);
    } else {
      assert total - 100.0 == (519 * qty - 10000) as real / 100.0;
      CentsAreWholeCents(519 * qty - 10000);
      RoundCentsKeepsWholeCents(total - 100.0);
    }
  }

  /** Etanol: above 80 units 97% of the list total, otherwise the list total. */
  lemma EtanolTiers(qty: int)
    ensures qty <= 80 ==> CalculatePrice(Etanol, qty) == 3.59 * qty as real
    ensures 80 < qty ==> CalculatePrice(Etanol, qty) == RoundCents(3.59 * qty as real * 0.97)
  {
    ListTotalIsWholeCents(Etanol, qty);
    RoundCentsKeepsWholeCents(ListTotal(Etanol, qty));
  }

  /** The cheapest discounted gasolina order, 201 units, costs
      5.19 * 201 - 100 = 943.19; larger orders cost more. */
  lemma GasolinaDiscountedMinimum(qty: int)
    requires 200 < qty
    ensures 943.19 <= CalculatePrice(Gasolina, qty)
    ensures qty == 201 ==> CalculatePrice(Gasolina, qty) == 943.19
  {
    GasolinaTiers(qty);
  }

  /** The thresholds are strict: exactly 500, 200 or 80 units get no
      discount, one more unit does. Because of that, 501 litres of diesel
      cost less than 500, and 201 litres of gasolina less than 200. */
  lemma ThresholdsAreStrict()
    ensures CalculatePrice(Diesel, 500) == 1995.00
    ensures CalculatePrice(Diesel, 501) == 1899.04
    ensures CalculatePrice(Diesel, 1000) == 3790.50
    ensures CalculatePrice(Diesel, 1001) == 3594.59
    ensures CalculatePrice(Gasolina, 200) == 1038.00
    ensures CalculatePrice(Gasolina, 201) == 943.19
    ensures CalculatePrice(Etanol, 80) == 287.20
    ensures CalculatePrice(Etanol, 81) == 282.07
  {
    DieselTiers(500);
    DieselTiers(501);
    assert RoundHalfEven(3.99 * 501.0 * 0.95 * 100.0) == 189904;
    DieselTiers(1000);
    assert RoundHalfEven(3.99 * 1000.0 * 0.95 * 100.0) == 379050;
    DieselTiers(1001);
    assert RoundHalfEven(3.99 * 1001.0 * 0.9 * 100.0) == 359459;
    GasolinaTiers(200);
    GasolinaTiers(201);
    EtanolTiers(80);
    EtanolTiers(81);
    assert RoundHalfEven(3.59 * 81.0 * 0.97 * 100.0) == 28207;
  }

  /** The calculator's documented examples: an unknown product costs 0,
      10 lubrificante 250.00, and the diesel, gasolina and etanol tiers. */
  lemma CalculatorExamples()
    ensures CalculatePrice("agua", 10) == 0.0
    ensures CalculatePrice(Lubrificante, 10) == 250.00
    ensures CalculatePrice(Diesel, 800) == 3032.40
    ensures CalculatePrice(Diesel, 1200) == 4309.20
    ensures CalculatePrice(Gasolina, 300) == 1457.00
    ensures CalculatePrice(Etanol, 50) == 179.50
    ensures CalculatePrice(Etanol, 100) == 348.23
  {
    LubrificanteHasNoDiscount(10);
    DieselTiers(800);
    assert RoundHalfEven(3.99 * 800.0 * 0.95 * 100.0) == 303240;
    DieselTiers(1200);
    assert RoundHalfEven(3.99 * 1200.0 * 0.9 * 100.0) == 430920;
    GasolinaTiers(300);
    EtanolTiers(50);
    EtanolTiers(100);
    assert RoundHalfEven(3.59 * 100.0 * 0.97 * 100.0) == 34823;
  }
}
