# PetroBahia pricing and customer rules, in Dafny

This project models the core of the PetroBahia order service, refactored edition. It covers three parts:

- **Price calculator** (`PrecoCalculadora`). It looks a product up in the fixed catalogue (diesel 3.99, gasolina 5.19, etanol 3.59, lubrificante 25.00) and multiplies by the quantity. It then applies the product's quantity discount and rounds to cents. A product outside the catalogue costs 0.
- **Order service** (`PedidoService`). It rejects an order without a product or with a non-positive quantity, and the answer is then 0. Otherwise it chains three stages: the calculator, the coupon (MEGA10, NOVO5, LUB2) and the product's final rounding. Diesel rounds to whole reais, gasolina to cents, and every other product truncates to cents.
- **Customer service** (`ClienteService`). It checks that a record has `nome`, `email` and `cnpj`. It checks the email against `^[^\s@]+@[^\s@]+\.[^\s@]+$`. A complete record is appended to the customer store, whether or not its email passes.

Prices are exact `real`s. The three rounding rules are defined from `Floor` in `money.dfy`. Ties go to the even neighbour, which is what Python's `round` does on a value that is exactly halfway. Products and coupon codes stay strings, as in the source. The catalogue and the coupon table are `map` constants.

Files:
- `money.dfy`: module `Money`, the rounding rules.
- `optional.dfy`: module `Optional`.
- `price_calculator.dfy`: module `PriceCalculator`.
- `order_service.dfy`: module `OrderService`.
- `customer_service.dfy`: module `CustomerService`, with class `Registry` for the stateful part of `ClienteService`.

The order service takes its calculator as a function parameter of `ProcessOrder`, in place of the `calculadora` field. "Never consulted" is then stated as "the answer is the same for every calculator". "Consulted once, with (product, quantity)" is stated as "two calculators that agree at (product, quantity) give the same answer".

Two details of the code are followed exactly:
- The default rounding branch (`repo_petrobahia/src/refatorado/pedido_service.py:74-77`) uses Python's `int()`, which truncates toward zero. A floor would differ on negative amounts.
- The email check (`repo_petrobahia/src/refatorado/cliente_service.py:37-39`) is `re.match`, whose `$` also matches just before one final newline.

## Model

| member | source | states |
|---|---|---|
| `Money.RoundHalfEven` | repo_petrobahia/src/refatorado/pedido_service.py:71-73 | the result is an integer within 0.5 of x, and on an exact tie it is even (Python `round` on an exact half) |
| `Money.RoundHalfEvenUnique` | repo_petrobahia/src/refatorado/pedido_service.py:71-73 | those two properties determine the rounded value: any integer having them is RoundHalfEven(x) |
| `Money.RoundHalfEvenIsNearest` | repo_petrobahia/src/refatorado/pedido_service.py:71-73 | no integer is closer to x than the rounded value |
| `Money.RoundHalfEvenMonotone` | repo_petrobahia/src/refatorado/pedido_service.py:71-73 | rounding preserves order: x <= y implies round(x) <= round(y) |
| `Money.RoundUnits` | repo_petrobahia/src/refatorado/pedido_service.py:71 | `round(x, 0)` gives a whole value within 0.50 of x |
| `Money.RoundCents` | repo_petrobahia/src/refatorado/preco_calculadora.py:38 | `round(x, 2)` gives a whole number of cents within 0.005 of x |
| `Money.TruncateTowardZero` | repo_petrobahia/src/refatorado/pedido_service.py:77 | `int(y)` drops the fraction toward zero: for y >= 0 it is the largest integer <= y, for y <= 0 the smallest integer >= y |
| `Money.TruncCents` | repo_petrobahia/src/refatorado/pedido_service.py:74-77 | `int(x*100)/100` is whole cents; for x >= 0 it is <= x and less than one cent below it; symmetric for x <= 0 |
| `Money.RoundUnitsKeepsWhole` | repo_petrobahia/src/refatorado/pedido_service.py:71 | a whole value is unchanged by round-to-units |
| `Money.RoundCentsKeepsWholeCents` | repo_petrobahia/src/refatorado/preco_calculadora.py:38 | an amount already in whole cents is unchanged by round-to-cents |
| `Money.TruncCentsKeepsWholeCents` | repo_petrobahia/src/refatorado/pedido_service.py:77 | an amount already in whole cents is unchanged by truncation |
| `Money.RoundCentsMonotone` | repo_petrobahia/src/refatorado/preco_calculadora.py:38 | rounding to cents preserves order |
| `Money.RoundingIdempotent` | repo_petrobahia/src/refatorado/pedido_service.py:69-77 | each of the three rules applied twice gives the same as once |
| `Money.TruncCentsBelowRoundCents` | repo_petrobahia/src/refatorado/pedido_service.py:72-77 | for x >= 0, truncation is never above rounding to cents and at most one cent below it |
| `Money.TruncationIsNotRounding` | repo_petrobahia/src/refatorado/pedido_service.py:72-77 | 99.999 truncates to 99.99 but rounds to 100.00: the two rules really differ |
| `PriceCalculator.DieselDiscount` | repo_petrobahia/src/refatorado/preco_calculadora.py:41-47 | never above a non-negative total and at most 10% off it; no change up to 500 units; a strict cut above 500 |
| `PriceCalculator.GasolinaDiscount` | repo_petrobahia/src/refatorado/preco_calculadora.py:50-54 | never above the total and at most 100.00 off; unchanged exactly when the quantity is at most 200 |
| `PriceCalculator.EtanolDiscount` | repo_petrobahia/src/refatorado/preco_calculadora.py:57-61 | never above a non-negative total and at most 3% off; no change up to 80 units; a strict cut above 80 |
| `PriceCalculator.ListTotal` | repo_petrobahia/src/refatorado/preco_calculadora.py:25-26 | the catalogue unit price times the quantity, before any discount |
| `PriceCalculator.ListTotalIsWholeCents` | repo_petrobahia/src/refatorado/preco_calculadora.py:12-17 | every catalogue price times a whole quantity is a whole number of cents |
| `PriceCalculator.DiscountedTotal` | repo_petrobahia/src/refatorado/preco_calculadora.py:25-36 | the catalogue price times the quantity, through the product's own discount (none for lubrificante), before rounding; its bounds are DiscountBounds and its exact values the tier lemmas |
| `PriceCalculator.DiscountBounds` | repo_petrobahia/src/refatorado/preco_calculadora.py:28-36 | for a catalogue product and quantity >= 0, the discounted total lies between 90% of the list total and the list total |
| `PriceCalculator.CalculatePrice` | repo_petrobahia/src/refatorado/preco_calculadora.py:19-38 | an unknown product gives 0; the result is whole cents; for quantity >= 0 it lies between 90% of the list total (less half a cent) and the list total; a catalogue product with quantity >= 1 costs more than 0 |
| `PriceCalculator.LubrificanteHasNoDiscount` | repo_petrobahia/src/refatorado/preco_calculadora.py:35-36 | lubrificante costs exactly 25.00 x quantity |
| `PriceCalculator.DieselTiers` | repo_petrobahia/src/refatorado/preco_calculadora.py:41-47 | diesel: up to 500 units exactly 3.99 x q; from 501 to 1000 units, 95% of it rounded to cents; above 1000 units, 90% rounded to cents |
| `PriceCalculator.GasolinaTiers` | repo_petrobahia/src/refatorado/preco_calculadora.py:50-54 | gasolina: up to 200 units exactly 5.19 x q; above 200 units exactly 5.19 x q - 100.00 |
| `PriceCalculator.EtanolTiers` | repo_petrobahia/src/refatorado/preco_calculadora.py:57-61 | etanol: up to 80 units exactly 3.59 x q; above 80 units, 97% of it rounded to cents |
| `PriceCalculator.GasolinaDiscountedMinimum` | repo_petrobahia/src/refatorado/preco_calculadora.py:50-54 | a discounted gasolina order costs at least 943.19 (5.19 x 201 - 100), reached at 201 units |
| `PriceCalculator.ThresholdsAreStrict` | repo_petrobahia/src/refatorado/preco_calculadora.py:41-61 | exactly 500, 1000, 200 and 80 units stay in the lower tier, and one more unit moves up (1995.00/1899.04, 3790.50/3594.59, 1038.00/943.19, 287.20/282.07) |
| `PriceCalculator.CalculatorExamples` | repo_petrobahia/src/tests/test_preco_calculadora.py:12-63 | the calculator's test values: agua 0, lubrificante x10 250.00, diesel x800 3032.40, x1200 4309.20, gasolina x300 1457.00, etanol x50 179.50, x100 348.23 |
| `OrderService.Adjust` | repo_petrobahia/src/refatorado/pedido_service.py:53-58 | one entry of the coupon table `Coupons`: scale the price (MEGA10 x0.90, NOVO5 x0.95), or take 2.00 off only when the product is lubrificante (LUB2); its effects are pinned by PercentCoupons and Lub2OnlyForLubrificante |
| `OrderService.ApplyCoupon` | repo_petrobahia/src/refatorado/pedido_service.py:46-62 | only a known code changes the price; a non-negative price never goes up; for any product but lubrificante it loses at most 10% |
| `OrderService.PercentCoupons` | repo_petrobahia/src/refatorado/pedido_service.py:54-55 | MEGA10 multiplies by 0.90 and NOVO5 by 0.95, for every product |
| `OrderService.Lub2OnlyForLubrificante` | repo_petrobahia/src/refatorado/pedido_service.py:57 | LUB2 subtracts 2.00 if and only if the product is lubrificante, and otherwise leaves the price unchanged |
| `OrderService.UnknownCouponIsNoOp` | repo_petrobahia/src/refatorado/pedido_service.py:50-62 | no coupon, and any code other than the three known ones, leaves the price unchanged |
| `OrderService.FinalRounding` | repo_petrobahia/src/refatorado/pedido_service.py:65-77 | always whole cents; diesel a whole value within 0.50; gasolina within 0.005; for any other product and price >= 0, at most the price and less than one cent below it |
| `OrderService.FinalRoundingIdempotent` | repo_petrobahia/src/refatorado/pedido_service.py:65-77 | applying the final rounding again changes nothing, for every product |
| `OrderService.FinalRoundingPositive` | repo_petrobahia/src/refatorado/pedido_service.py:65-77 | an amount of at least 1.00 never rounds to 0 or below |
| `OrderService.Quantity` | repo_petrobahia/src/refatorado/pedido_service.py:23 | the order's quantity, 0 when the `qtd` key is missing |
| `OrderService.IsAccepted` | repo_petrobahia/src/refatorado/pedido_service.py:22-27 | an order goes ahead exactly when it names a non-empty product and its quantity is positive; every other order is rejected with 0 (RejectedOrderIgnoresCalculator) |
| `OrderService.ProcessOrder` | repo_petrobahia/src/refatorado/pedido_service.py:17-43 | a rejected order (no product, empty product, or quantity <= 0, a missing quantity counting as 0) gives 0; every answer is whole cents, whatever the calculator returns |
| `OrderService.ProcessOrderWithCatalogue` | repo_petrobahia/src/refatorado/pedido_service.py:14-15 | the service as constructed, whose calculator is the catalogue `CalculatePrice`; its values are bounded by CatalogueOrderPositiveIff |
| `OrderService.RejectedOrderIgnoresCalculator` | repo_petrobahia/src/refatorado/pedido_service.py:27-31 | for a rejected order every calculator gives the same answer, 0, so the calculator is never consulted |
| `OrderService.AcceptedOrderPipeline` | repo_petrobahia/src/refatorado/pedido_service.py:33-43 | an accepted order's answer is round(coupon(calc(product, qty))), and it depends on the calculator only through its value at (product, qty) |
| `OrderService.CouponKeepsCataloguePricePositive` | repo_petrobahia/src/refatorado/pedido_service.py:46-62 | after any coupon, the catalogue price of at least one unit is still at least 2.00 |
| `OrderService.CatalogueOrderPositiveIff` | repo_petrobahia/src/refatorado/pedido_service.py:17-43 | with the real calculator an order's value is never negative, and it is positive if and only if the order is accepted and its product is in the catalogue |
| `OrderService.RoundingExamples` | repo_petrobahia/src/tests/test_pedido_service.py:64-91 | 3878.28 to 3878 and 3878.51 to 3879 (diesel); 1457.003 to 1457.00 and 1457.996 to 1458.00 (gasolina); 170.525 to 170.52 (etanol) and 99.999 to 99.99 (lubrificante) |
| `OrderService.RejectedOrderExamples` | repo_petrobahia/src/tests/test_pedido_service.py:20-28 | an order without a product, or with quantity 0, gives 0 |
| `OrderService.OrderPipelineExample` | repo_petrobahia/src/tests/test_pedido_service.py:94-109 | etanol x100 with NOVO5 and a calculator answering 100.00 gives 95.00; with the real calculator it gives 330.81 |
| `CustomerService.HasFields` | repo_petrobahia/src/refatorado/cliente_service.py:35 | `all(campo in cliente ...)` holds exactly when every listed field is a key of the record |
| `CustomerService.HasRequiredFields` | repo_petrobahia/src/refatorado/cliente_service.py:33-35 | true if and only if `nome`, `email` and `cnpj` are all present |
| `CustomerService.IndexFrom` | repo_petrobahia/src/refatorado/cliente_service.py:14 | the first position at or after k holding c, or -1 when there is none |
| `CustomerService.NoSpaceFrom` | repo_petrobahia/src/refatorado/cliente_service.py:14 | true exactly when no character from position k on is Python whitespace (`\s`) |
| `CustomerService.HasEmailShape` | repo_petrobahia/src/refatorado/cliente_service.py:14 | the pattern read as conditions on the string: no whitespace; an '@' with something before it and no second '@'; after it a '.' that is neither the first character after '@' nor the last; equal to the pattern by ShapeIffPattern |
| `CustomerService.ShapeIffPattern` | repo_petrobahia/src/refatorado/cliente_service.py:14 | the shape conditions hold if and only if the string splits as [^\s@]+ '@' [^\s@]+ '.' [^\s@]+. The conditions are: no whitespace; one '@' with something before it; a '.' after it that is neither first nor last |
| `CustomerService.EmailValid` | repo_petrobahia/src/refatorado/cliente_service.py:37-39 | `_email_valido`: the address shape, or the shape followed by one final newline; equal to `re.match` with the pattern by EmailValidIffRegex |
| `CustomerService.EmailValidIffRegex` | repo_petrobahia/src/refatorado/cliente_service.py:37-39 | `_email_valido` accepts exactly what `re.match` accepts with the pattern, including the one final newline that `$` lets through |
| `CustomerService.ValidEmailHasOneAt` | repo_petrobahia/src/refatorado/cliente_service.py:14 | an accepted address contains exactly one '@' |
| `CustomerService.ShapeHasOneAt` | repo_petrobahia/src/refatorado/cliente_service.py:14 | a string with the address shape contains exactly one '@' |
| `CustomerService.JoinedWordsAreValid` | repo_petrobahia/src/refatorado/cliente_service.py:14 | any three non-empty words of [^\s@] joined as local@domain.suffix are accepted |
| `CustomerService.EmailExampleTwoPartDomain` | repo_petrobahia/src/tests/test_cliente_service.py:36-38 | "contato@empresa.com.br" is accepted |
| `CustomerService.EmailExamplePlain` | repo_petrobahia/src/tests/test_cliente_service.py:14-18 | "teste@valido.com" is accepted |
| `CustomerService.EmailExampleNoAt` | repo_petrobahia/src/tests/test_cliente_service.py:40-42 | "contatoempresa.com" is refused |
| `CustomerService.EmailExampleDoubleAt` | repo_petrobahia/src/tests/test_cliente_service.py:44-46 | "usuario@@dominio.com" and "teste@@invalido" are refused |
| `CustomerService.EmailExampleTrailingNewline` | repo_petrobahia/src/refatorado/cliente_service.py:14 | "a@b.c" followed by a newline is accepted, because `$` matches before a final newline; a trailing space is refused |
| `CustomerService.Registry.constructor` | repo_petrobahia/src/refatorado/cliente_service.py:16-17 | the service remembers its file name; the store starts as the records already there |
| `CustomerService.Registry.Save` | repo_petrobahia/src/refatorado/cliente_service.py:41-44 | appends exactly one record at the end of the store; earlier records are untouched |
| `CustomerService.Registry.Register` | repo_petrobahia/src/refatorado/cliente_service.py:19-31 | returns true if and only if the required fields are present; only then is the record appended, once; otherwise the store is unchanged; a warning is raised exactly for an accepted record whose email fails the check |

## Left out

- Console output (`print`) is not modelled. The one exception is the invalid-email warning, which `Registry.Register` returns as its `warned` result.
- File I/O in `_salvar_cliente` is not modelled: the `open` call, append mode and utf-8 encoding. The customer file is an abstract `seq` of records.
- The `str(dict)` text line written for each record is not modelled.
- Binary floating point is not modelled. Prices are exact reals, so a decimal that is not exact in binary can land on a different cent here than in Python. `round(2.675, 2)` is 2.67 in Python, because the float lies just below the tie, while `RoundCents(2.675)` is 2.68. `int(0.29 * 100)` is 28 in Python, because the product is 28.999999999999996, while `TruncCents(0.29)` is 0.29. Ties go to the even neighbour, which agrees with Python only on values that are exact ties in binary.
- Money.TruncCentsKeepsWholeCents: holds for exact values only. On Python floats, truncating an amount already in whole cents can lose a cent, as 0.29 does.
- Money.RoundingIdempotent: the truncation part holds for exact values only, for the same reason.
- OrderService.FinalRoundingIdempotent: holds for exact values only. For products other than diesel and gasolina, a second truncation in Python floats can lose a cent.
- CustomerService.Registry.constructor: takes the records already in the customer file as a parameter, with an empty file by default. `fileName` stands only for the file's name. Nothing reads or opens it.
- The dictionary of lambdas in `_aplicar_cupom` becomes an `Adjustment` datatype and a `map` constant. The `unittest.mock` patching of the calculator becomes a function parameter of `ProcessOrder`.
- A `qtd` key holding `None` or a string is not modelled. Python raises `TypeError` on these at `quantidade <= 0` (pedido_service.py:27) when the order names a non-empty product. Without one, the `or` rejects the order with 0.0 before the comparison, as `IsAccepted` does. `Order.qty` models only a missing key, which counts as 0.
- A float quantity such as 2.5 is not modelled, because `Order.qty` is an `int`. Python prices such an order without error.
- The `cliente` name only appears in log messages, so it has no effect on the result.
- `main_refatorado.py` is not part of this model: it is a demo driver with hard-coded data and printing.
