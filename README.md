# Sale and stock bookkeeping of a pharmacy point of sale

This project models the sale and stock logic of a small Electron/React point-of-sale
application, and proves properties of that model. The application serves a pharmacy and
keeps prices in quetzales. It has two halves:

- **The main process** (`main.mjs`) owns the SQLite table `inventario`, keyed by its unique
  `codigo`. IPC handlers change that table:
  - `updateStock` takes stock away only when enough is left;
  - `realizar-venta` validates a whole sale, totals it with a 6% card surcharge, and
    decrements every line;
  - `importar-excel` upserts the rows of a spreadsheet;
  - `insert-inventario` inserts and counts;
  - `update-inventario`, `delete-producto` and `delete-inventario` edit and delete.

  This part is module `Store`: a class `Database` with one `map` field and one method per
  handler, each tied to a pure function of the old table.
- **The renderer's screens**:
  - The cash register `Venta.jsx` (module `Venta`) fills a cart by scanned code. Its
    checkout calls `updateStock` once per line and stops at the first refusal.
  - The alternate sale screen `Ventas.jsx` (module `Ventas`) searches by substring, picks
    products in a dialog, and sends the whole cart to `realizar-venta`.
  - The shared inventory context `InventarioContext.jsx` (module `InventarioContext`) holds
    the list the screens read, and `descontarStock`.
  - The inventory screen `Inventario.jsx` (module `Inventario`) maps spreadsheet columns to
    records, and handles the new-product form and an exact-code search.
  - The price check `Consulta.jsx` (module `Consulta`) looks a product up by code,
    ignoring case and padding.

  Both sale screens share their cart updaters and their totals line for line; those live
  in module `Cart`.

Helper modules model the JavaScript primitives the code depends on:
- `Text`: `trim`, `toLowerCase` and `includes`.
- `Numbers`: `parseInt`, `parseFloat` and `toFixed(2)` text.
- `Money`: rounding to cents and the surcharge.
- `Catalog`: the inventory item and `Array.prototype.find`.

Modelling choices:
- Money is a whole number of cents.
- `main.mjs` computes an unrounded floating-point total; it is modelled as an exact `real`.
- A value that JavaScript would make `NaN` is `None`.
- An `await` on the main process is a call on the `Database` object, taken as one
  sequential step.
- Inputs the code reads from outside become parameters: the result of re-reading the
  inventory, and whether the preload bridge offers `printInvoice`.

The pieces do not agree with one another, and the model keeps each one as written. The
lemmas below prove the consequences:

- **Two surcharges.** `realizar-venta` charges 6% for card payments (`main.mjs:334`),
  while both screens charge 5% (`Venta.jsx:146`, `Ventas.jsx:197`). The rate is a
  parameter of `Store.SaleTotal` and a constant of `Cart`.
- **`Ventas.jsx` reaches no stock.**
  - `realizar-venta` reads each line's requested quantity from a `stock` field, but the
    screen sends `cantidad`. So validation passes whatever the stock, the total is `NaN`,
    and every decrement binds NULL, which the `NOT NULL` column refuses
    (`Ventas.RequestChangesNoStock`).
  - The screen then tests `resultado.success`, which the handler never returns, so every
    checkout ends in an error with the cart kept (`Ventas.VentasScreen.FinalizarVenta`).
- **`descontarStock` can never succeed.**
  - It reads `cantidad` from inventory items, which database rows do not have, so it
    stops at its second guard (`InventarioContext.DatabaseItemsAreRefused`).
  - Even with a `cantidad`, the record it sends lacks `nombre` and `precio`.
    `update-inventario` would then fail the `NOT NULL` constraint
    (`InventarioContext.StockRecordNeverStored`).
- **Duplicate lines overdraw.** `realizar-venta` checks each line against the stock before
  the sale, so the same code on two lines passes and can drive the stock below zero
  (`Store.RepeatedCodeOverdraws`). With distinct codes, stock stays non-negative
  (`Store.DistinctSaleKeepsStocksNonNegative`).
- **The `Venta.jsx` checkout is not atomic.** A refusal at a later line leaves the earlier
  lines decremented (`Venta.CheckoutIsNotAtomic`).
- **The `Venta.jsx` reset is skipped.** After a successful checkout the screen calls
  `window.electron.printInvoice`, which `preload.js` does not define. The `TypeError` is
  caught after the invoice is set, so the cart is not cleared and its message is shown
  (`Venta.VentaScreen.FinalizarVenta` with `printInvoiceExposed` false).
- **A non-numeric cash payment is accepted** (`Venta.NonNumericPaymentAccepted`).
  `parseFloat` gives `NaN`, and `NaN < total` is false.
- **Toggling a selected product twice reorders the selection** (`Ventas.ToggleTwiceReorders`).
  It does not restore the original order.
- **`Inventario.jsx` trims only the query.** Its `handleSearch` never finds a product whose
  stored code has padding (`Inventario.HandleSearchTrimsOnlyTheQuery`).

## Model

| member | source | states |
|---|---|---|
| Store.ImportKey | main.mjs:131 | a record is kept exactly when its `codigo` is truthy and not blank after `trim`, and it is kept under its untrimmed text |
| Store.StockDecremented | main.mjs:182-184 | the `UPDATE ... WHERE codigo = ? AND stock >= ?` changes only the named row, lowering its stock by `cantidad`, and only when the code exists with enough stock; otherwise the table is unchanged |
| Store.UpdateStockKeepsStocksNonNegative | main.mjs:182-184 | a non-negative `cantidad` never takes a stock below zero |
| Store.Database.UpdateStock | main.mjs:179-199 | the new table is the guarded decrement of the old one; the reply is "Stock actualizado con éxito" exactly when a row changed, else "No se encontró el producto o stock insuficiente" |
| Store.Subtotal | main.mjs:330 | the sum is `NaN` exactly when some line has no quantity, a single line sums to its price times its quantity, and the sum is non-negative for non-negative prices and quantities |
| Store.SubtotalAppend | main.mjs:330 | the sum over two runs of lines joined is the sum of their sums, `NaN` when either is; with the one-line case this makes the sum that of price times quantity |
| Store.SaleTotal | main.mjs:330-336 | the total is `NaN` exactly when the subtotal is; otherwise it is the subtotal, multiplied by `(100 + percent) / 100` for a card payment |
| Store.Change | main.mjs:338 | `vuelto` plus `total` equals the cash paid, and `vuelto` is `NaN` when either side is |
| Store.CardTotalAtLeastSubtotal | main.mjs:333-336 | a card sale never costs less than its subtotal |
| Store.ChangeCanBeNegative | main.mjs:338 | the change is not clamped: paying 10.00 against 10.60 gives -0.60 |
| Store.SaleLineApplied | main.mjs:341-355 | one unguarded decrement keeps the set of codes |
| Store.SaleApplied | main.mjs:347-356 | the decrements of a whole sale keep the set of codes |
| Store.SaleWithoutQuantitiesChangesNothing | main.mjs:325-356 | lines without a quantity leave every stock as it was and make the total `NaN` |
| Store.SaleAppliedSubtracts | main.mjs:341-356 | after a sale, each row's stock is lowered by exactly what the sale requested for its code, and nothing else in the row changes |
| Store.RequestedAbsent | main.mjs:347-356 | a code that no line names is requested zero times |
| Store.SaleLeavesOtherProducts | main.mjs:341-356 | a product the sale does not name is left exactly as it was |
| Store.RequestedWithinStock | main.mjs:309-328 | with distinct codes, a validated sale requests no more of a product than its stock |
| Store.DistinctSaleKeepsStocksNonNegative | main.mjs:309-356 | a validated sale with distinct codes keeps every stock non-negative |
| Store.RepeatedCodeOverdraws | main.mjs:309-356 | two lines of one unit each for a product with one unit pass validation and leave its stock at -1 |
| Store.SaleAvailable | main.mjs:309-328 | when no line carries a quantity, validation passes exactly when every line's code exists |
| Store.Database.RealizarVenta | main.mjs:304-368 | the sale is refused, with the table untouched and the generic message, exactly when some line's code is missing or its stock is below the line's quantity; otherwise the table is the decremented one and the reply carries the 6% total and the unclamped change |
| Store.Database.Comprobar | main.mjs:309-327 | the validation loop answers yes exactly when every line names a stored product whose stock covers the line's quantity (a line without a quantity needs only the product) |
| Store.Database.Descontar | main.mjs:340-355 | after the prepared `UPDATE` has run for every line, the table is the one with each line's quantity taken off its product, lines without a quantity or with an unknown code leaving it as it was |
| Store.Upserted | main.mjs:118-125 | an upsert never removes a code, and adds only the key of the record itself |
| Store.ImportAll | main.mjs:130-147 | the import never removes a code |
| Store.ImportAllCharacterized | main.mjs:118-147 | after an import, a code holds the row of the last complete record that names it, or else what it held before; a code is present exactly when it was before or some complete record names it |
| Store.ImportIdempotent | main.mjs:118-147 | importing the same records twice gives the same table as importing them once |
| Store.ImportCountsCoverInput | main.mjs:130-147 | `productosInsertados + productosOmitidos` equals the number of records |
| Store.Database.ImportarExcel | main.mjs:102-160 | the new table is the upsert of every record in order, and the two counters are the counts of kept and skipped records |
| Store.Inserted | main.mjs:382-401 | a record with a falsy or blank code only adds one to `productosOmitidos`; otherwise it is inserted exactly when it is complete and its code is new, the table gaining that one row, and counted as omitted with the table unchanged when not |
| Store.InsertAll | main.mjs:382-401 | the loop never removes a code and inserts at most one row per record |
| Store.InsertAllCounts | main.mjs:382-401 | the counters add up to the number of records, existing rows are never overwritten, and the table grows by exactly `productosInsertados` rows |
| Store.InsertAllCharacterized | main.mjs:382-401 | a code already in the table keeps its row; a new code is present exactly when some complete record names it, and holds the row of the first such record |
| Store.InsertAllOmitsSkipped | main.mjs:382-401 | every record whose code is falsy or blank is counted in `productosOmitidos`, so no more rows are inserted than records pass that guard |
| Store.Database.InsertInventario | main.mjs:371-414 | the new table and both counters are those of the plain `INSERT` loop |
| Store.Edited | main.mjs:419-430 | the update fails exactly when the code exists and a field is missing; otherwise the row with that code becomes the record's name, price and stock, no other row changes, and a missing code leaves the table as it was |
| Store.Database.UpdateInventario | main.mjs:417-434 | the handler rejects exactly when the update fails, leaving the table; otherwise it stores the edited table and says "No se encontró el producto" exactly when no row has the code; after "Producto actualizado correctamente" the row holds the record's name, price and stock |
| Store.Database.DeleteProducto | main.mjs:437-453 | only the named row is removed, and the reply says whether there was one |
| Store.Database.DeleteInventario | main.mjs:163-177 | the table becomes empty |
| Store.Database.constructor | main.mjs:37-44 | the table starts empty |
| Catalog.FindIndex | src/components/Venta.jsx:89 | `find` returns the first item whose key equals the target, or nothing when none does |
| Catalog.Find | src/components/InventarioContext.jsx:38 | the item found is in the list and has the key; one is found exactly when some item has it |
| Text.Trim | src/components/Venta.jsx:84 | the trimmed text is no longer than the input, neither starts nor ends with whitespace, and is empty exactly when the input is blank |
| Text.TrimShape | src/components/Venta.jsx:84 | the trimmed text is a slice of the input with only whitespace on either side |
| Text.TrimIdempotent | src/components/Inventario.jsx:124 | trimming twice is trimming once |
| Text.ToLower | src/components/Ventas.jsx:149 | lowercasing keeps the length and maps every character on its own |
| Text.ToLowerIdempotent | src/components/Ventas.jsx:149 | lowercasing twice is lowercasing once |
| Text.TrimLowerCommute | src/components/Consulta.jsx:14-17 | trimming and lowercasing commute |
| Text.NormalizeIdempotent | src/components/Inventario.jsx:107 | `trim().toLowerCase()` applied twice is applied once |
| Text.TrimContained | src/components/Ventas.jsx:149 | a text contains its own trimmed form |
| Text.ContainsLower | src/components/Ventas.jsx:149-150 | containment survives lowercasing both sides |
| Text.TrimPadded | src/components/Inventario.jsx:175 | padding a text with whitespace does not change its trimmed form |
| Text.NormalizeInsensitive | src/components/Consulta.jsx:14-19 | the normalized form ignores whitespace padding and letter case |
| Numbers.ParseInt | src/components/Inventario.jsx:126 | a blank text is `NaN`; with `ParseIntOfIntegerText`, an integer's text reads back as the integer |
| Numbers.ParseFloat | src/components/Venta.jsx:150 | a blank text is `NaN`; with `ParseFloatOfPointed`, a pointed decimal reads back exactly |
| Numbers.DigitsValueOfDigits | src/components/Inventario.jsx:126 | reading back the decimal digits of a number gives the number |
| Numbers.ParseIntOfIntegerText | src/components/Inventario.jsx:126 | `parseInt` of a number's text, followed by anything but a digit, gives the number |
| Numbers.ShiftIsProduct | src/components/Venta.jsx:150 | appending `places` zero digits to a number multiplies it by ten to the `places` |
| Numbers.ParseFloatOfPointed | src/components/Venta.jsx:150 | `parseFloat` of a signed decimal with a point gives that exact decimal |
| Numbers.ParseFloatOfFixedText | src/components/Venta.jsx:150 | `parseFloat` of a `toFixed(2)` text gives back the amount in cents |
| Money.RoundToCents | src/components/Venta.jsx:146 | `toFixed(2)` rounds to the nearest cent, halves away from zero |
| Money.Surcharged | src/components/Venta.jsx:146 | the rounded surcharged total is within half a cent of the exact one |
| Money.SurchargeBounds | src/components/Venta.jsx:146 | a surcharge never lowers a subtotal and adds at most the exact surcharge plus half a cent |
| Money.DecimalCents | src/components/Venta.jsx:152 | `toFixed(2)` of a parsed decimal is its nearest cent, halves away from zero |
| Money.DecimalCentsOfCents | src/components/Inventario.jsx:132 | an amount with two decimals is kept as it is |
| Money.DecimalCentsOfZero | src/components/Inventario.jsx:125 | a zero amount is zero cents, whatever its sign and number of places |
| Cart.FindLine | src/components/Venta.jsx:97 | the line found is the first line with the code, and none is found exactly when no line has it |
| Cart.Incremented | src/components/Venta.jsx:103-107 | the increment keeps the length and the code of every line |
| Cart.SameCodesSameFind | src/components/Venta.jsx:97 | carts with the same codes in the same places find the same lines |
| Cart.FindAfterAppend | src/components/Venta.jsx:97-109 | appending a line does not move the line `find` returns for an existing code |
| Cart.AddOne | src/components/Venta.jsx:96-110 | after adding, the cart has a line for the product, has one more line exactly when it had none before, and keeps every code it had |
| Cart.AddOneCounts | src/components/Venta.jsx:96-110 | adding a product keeps one line per code and gives its code one more unit, except at the stock limit where the cart is unchanged; no other code's quantity changes |
| Cart.WithQuantity | src/components/Venta.jsx:136-140 | setting a quantity keeps the length and the code of every line |
| Cart.WithQuantityCounts | src/components/Venta.jsx:136-140 | setting a quantity keeps one line per code, sets that code's quantity when it is in the cart, changes no other code's quantity, and is idempotent |
| Cart.Without | src/components/Ventas.jsx:191-193 | removing a code leaves exactly the lines with another code, and no line with that code |
| Cart.WithoutAppend | src/components/Ventas.jsx:192 | removal works piecewise, so the remaining lines keep their order |
| Cart.WithoutAbsent | src/components/Ventas.jsx:192 | removing a code that is not in the cart changes nothing |
| Cart.WithoutIdempotent | src/components/Ventas.jsx:192 | removing twice is removing once |
| Cart.Subtotal | src/components/Venta.jsx:145 | an empty cart sums to 0 and a one-line cart to its price times quantity (with `SubtotalAppend` this is the sum of price times quantity over the lines); the sum is non-negative for non-negative prices and quantities |
| Cart.SubtotalAppend | src/components/Ventas.jsx:196 | the sum over two carts joined is the sum of their sums |
| Cart.Total | src/components/Venta.jsx:144-147 | a cash total is the subtotal; a card total is within half a cent of the subtotal times 1.05 |
| Cart.TotalText | src/components/Venta.jsx:144-150 | `parseFloat` of the `calcularTotal()` text reads back exactly the total in cents |
| Cart.ChangeDue | src/components/Venta.jsx:149-153 | the change is never negative, and is zero when the payment does not cover the total or does not parse; when it covers, the change is `pago − total` to the nearest cent, halves up |
| Cart.ChangeOfShortPayment | src/components/Venta.jsx:149-153 | a payment with at most two decimals ("25", "25.5", "25.50") covers the total exactly when its cents do, and then gets back exactly `pago − total`, otherwise zero |
| Cart.ChangeOfCentsPayment | src/components/Ventas.jsx:200-204 | a payment of whole cents gets back exactly the difference when it covers the total, and zero otherwise |
| Venta.StockFailure | src/components/Venta.jsx:178 | the error message ends with the refused code |
| Venta.CashShort | src/components/Venta.jsx:161 | only a cash payment is ever refused, and a non-empty payment that does not parse never is |
| Venta.CashShortMeansBelowTotal | src/components/Venta.jsx:161 | a cash payment that parses is refused exactly when it is below the total, and then no change is due |
| Venta.NonNumericPaymentAccepted | src/components/Venta.jsx:161 | the payment "abc" passes the cash check, and its change is zero |
| Venta.UpdateStockLoop | src/components/Venta.jsx:173-180 | the checkout loop keeps the set of codes; what it decrements and where it stops is given by `UpdateStockLoopSubtracts` |
| Venta.UpdateStockLoopFrame | src/components/Venta.jsx:173-180 | the loop leaves every product outside the cart untouched, and reports the code of a cart line when it stops |
| Venta.UpdateStockLoopKeepsStocksNonNegative | src/components/Venta.jsx:173-180 | with non-negative quantities no stock goes below zero, whether or not the loop completes |
| Venta.UpdateStockLoopCompletes | src/components/Venta.jsx:173-180 | with one line per code, the loop completes exactly when every line's code exists with at least its quantity in stock |
| Venta.UpdateStockLoopSubtracts | src/components/Venta.jsx:173-180 | with one line per code, the loop stops at the first line that cannot be decremented and reports its code (none when every line can); every earlier line's product has lost exactly its quantity, and that line and the later ones keep their stock (no rollback, no further decrement) |
| Venta.CheckoutIsNotAtomic | src/components/Venta.jsx:173-180 | a refusal at B after A was decremented leaves A decremented |
| Venta.UpdateStockLines | src/components/Venta.jsx:173-180 | calling `updateStock` line by line gives the table and the refused code of the checkout loop |
| Venta.VentaScreen.constructor | src/components/Venta.jsx:8-18 | the screen starts with an empty cart, no payment, cash, no invoice and change "0.00" |
| Venta.VentaScreen.IniciarVenta | src/components/Venta.jsx:72-81 | the inventory is reloaded when the read succeeds, the sale is open, and the error is cleared |
| Venta.ScanCode | src/components/Venta.jsx:84-94 | a scan is blank exactly when the code is blank, unknown exactly when no item's trimmed code equals the trimmed code, and otherwise finds the first item with that trimmed code |
| Venta.VentaScreen.AgregarProducto | src/components/Venta.jsx:83-116 | a blank code only sets an error; an unknown code sets "Producto no encontrado." and clears the field; when the first matching item is out of stock only an error is set; otherwise one unit of it is added and the field is cleared |
| Venta.VentaScreen.ModificarCantidad | src/components/Venta.jsx:124-142 | a quantity below 1 or above the product's stock only sets an error; otherwise only that code's lines get the new quantity |
| Venta.VentaScreen.FinalizarVenta | src/components/Venta.jsx:155-204 | an empty cart or a short cash payment only sets an error; otherwise the change is computed and the stock loop runs; a refusal shows its code; a completed loop sets the invoice, and resets the screen only when `printInvoice` exists |
| Venta.VentaScreen.Cobrar | src/components/Venta.jsx:170-203 | the `try` block: the stock loop, then the invoice, then the reset or the `TypeError` message |
| Venta.VentaScreen.CerrarFactura | src/components/Venta.jsx:228-236 | the invoice is closed and the sale reset |
| Ventas.RemoteError | src/components/Ventas.jsx:233 | the rejection message ends with the handler's own message |
| Ventas.Matches | src/components/Ventas.jsx:148-151 | a blank query matches every product |
| Ventas.Search | src/components/Ventas.jsx:148-151 | no more products are found than the inventory holds |
| Ventas.SearchMembers | src/components/Ventas.jsx:148-151 | the products found are exactly the inventory products whose lowercased code or name contains the trimmed, lowercased query |
| Ventas.SearchAppend | src/components/Ventas.jsx:148-151 | the search filters piecewise, so the products found keep their inventory order |
| Ventas.SearchFindsCode | src/components/Ventas.jsx:148-151 | searching for a product's own code finds it |
| Ventas.SearchNormalized | src/components/Ventas.jsx:148-151 | the query's case and padding do not change what is found |
| Ventas.Removed | src/components/Ventas.jsx:298 | deselecting leaves exactly the other products |
| Ventas.RemovedAppend | src/components/Ventas.jsx:296-301 | the deselecting filter works piecewise, so the remaining products keep their selection order, which is the order `confirmarSeleccion` adds them in |
| Ventas.RemovedAbsent | src/components/Ventas.jsx:298 | deselecting a product that is not selected changes nothing |
| Ventas.Toggled | src/components/Ventas.jsx:295-303 | the toggle flips the product's membership and no other product's |
| Ventas.ToggleTwice | src/components/Ventas.jsx:295-303 | toggling an unselected product twice gives back the selection |
| Ventas.ToggleTwiceReorders | src/components/Ventas.jsx:295-303 | toggling a selected product twice moves it to the end |
| Ventas.AddError | src/components/Ventas.jsx:121-124 | adding a picked product leaves no error exactly when it has stock |
| Ventas.AddedIfInStock | src/components/Ventas.jsx:115-144 | a product without stock leaves the cart as it was; one with stock ends up with a line; no code is lost |
| Ventas.AddAll | src/components/Ventas.jsx:305-306 | after confirming, every selected product with stock has a line and no code of the cart is lost |
| Ventas.AddAllKeepsUniqueCodes | src/components/Ventas.jsx:305-306 | confirming a selection keeps one line per code |
| Ventas.RequestLines | src/components/Ventas.jsx:219-224 | each line sent keeps its code and carries no `stock` quantity |
| Ventas.Request | src/components/Ventas.jsx:218-231 | the request has no card flag and no cash payment, and its sum is `NaN` exactly when the cart is not empty |
| Ventas.RequestChangesNoStock | src/components/Ventas.jsx:218-233 | the request the screen sends changes no stock, and a non-empty cart gets a `NaN` total and change |
| Ventas.VentasScreen.constructor | src/components/Ventas.jsx:8-23 | the screen starts with an empty cart, no search, no selection, the dialog closed and no checkout in progress |
| Ventas.VentasScreen.IniciarVenta | src/components/Ventas.jsx:104-113 | the inventory is reloaded when the read succeeds, the sale is open, and the error is cleared |
| Ventas.VentasScreen.AgregarProducto | src/components/Ventas.jsx:115-144 | a missing product or one out of stock only sets an error; otherwise one unit is added and the search is cleared |
| Ventas.VentasScreen.BuscarProducto | src/components/Ventas.jsx:146-163 | a blank query does nothing; no match sets "Producto no encontrado." and clears the search; otherwise the matches are listed and the dialog opens |
| Ventas.VentasScreen.ModificarCantidad | src/components/Ventas.jsx:171-189 | a quantity below 1 or above the product's stock only sets an error; otherwise only that code's lines get the new quantity |
| Ventas.VentasScreen.EliminarProducto | src/components/Ventas.jsx:191-193 | the cart loses exactly the lines with the code |
| Ventas.VentasScreen.HandleProductoSeleccionado | src/components/Ventas.jsx:295-303 | the selection is toggled for the product |
| Ventas.VentasScreen.ConfirmarSeleccion | src/components/Ventas.jsx:305-309 | each selected product is added in turn, the error is that of the last one, and the selection is cleared and the dialog closed |
| Ventas.VentasScreen.AgregarCada | src/components/Ventas.jsx:306 | after `agregarProducto` has run for each product, the cart is the one with every product in stock added in order, the error is that of the last product, and the search is cleared exactly when some product had stock |
| Ventas.AnyInStockMeans | src/components/Ventas.jsx:306 | "some product of the selection clears the search" holds exactly when some product of the selection has stock |
| Ventas.VentasScreen.CerrarModal | src/components/Ventas.jsx:311-317 | the dialog closes and the search, matches, selection and error are cleared |
| Ventas.VentasScreen.FinalizarVenta | src/components/Ventas.jsx:206-261 | while a checkout is in progress nothing happens; otherwise no stock changes, the cart stays, the flag is cleared, and the error is the missing-`success` message when the handler accepts, or the handler's rejection |
| Ventas.VentasScreen.CerrarFactura | src/components/Ventas.jsx:285-293 | the invoice is closed and the sale reset |
| InventarioContext.NewStock | src/components/InventarioContext.jsx:38-61 | an unknown code, a missing or negative `cantidad`, or too small a `cantidad` gives its own message; otherwise the new amount is `cantidad - cantidadVendida`, never negative |
| InventarioContext.WithCantidad | src/components/InventarioContext.jsx:66-68 | only the items with the code change, and only in `cantidad` |
| InventarioContext.DiscountKeepsCantidadesNonNegative | src/components/InventarioContext.jsx:54-68 | a discount that passes the guards keeps every `cantidad` non-negative and changes nothing else |
| InventarioContext.DatabaseItemsAreRefused | src/components/InventarioContext.jsx:38-51 | with database rows, which have no `cantidad`, every discount is refused |
| InventarioContext.StockRecord | src/components/InventarioContext.jsx:71 | the record sent carries the code and the new stock and is never complete |
| InventarioContext.StockRecordNeverStored | src/components/InventarioContext.jsx:71 | the record `{ codigo, stock }` fails `NOT NULL` on an existing row and matches no row otherwise |
| InventarioContext.InventarioProvider.constructor | src/components/InventarioContext.jsx:8-9 | the list starts empty with no error |
| InventarioContext.InventarioProvider.CargarInventario | src/components/InventarioContext.jsx:12-21 | a successful read replaces the list; a failed one sets "No se pudo cargar el inventario." |
| InventarioContext.InventarioProvider.DescontarStock | src/components/InventarioContext.jsx:35-79 | a refused guard only sets its message; a discount that passes changes the list first, and the database never changes |
| Inventario.HeaderIndex | src/components/Inventario.jsx:107-121 | the column found is the first header equal to the chosen one once both are trimmed and lowercased, or -1 when there is none |
| Inventario.HeaderIndexNormalized | src/components/Inventario.jsx:107-121 | chosen columns that normalize alike find the same header |
| Inventario.PriceOf | src/components/Inventario.jsx:125 | a price that does not parse falls back to zero; otherwise it is rounded to cents |
| Inventario.StockOf | src/components/Inventario.jsx:126 | a stock that does not parse falls back to zero; otherwise it is the parsed integer |
| Inventario.CodeOf | src/components/Inventario.jsx:124 | a truthy cell gives its trimmed text, and the code is non-empty exactly when the cell passes the import guard, so a blank code cell gives "" |
| Inventario.MapRow | src/components/Inventario.jsx:123-136 | a row yields a record exactly when its name is truthy and its code non-empty, and that record holds the trimmed code and the parsed price and stock |
| Inventario.MapRows | src/components/Inventario.jsx:109-137 | no rows send nothing; one row sends its record when it yields one and nothing otherwise (with `MapRowsAppend` this fixes the whole list, in row order); never more records than rows |
| Inventario.SaveInventario | src/components/Inventario.jsx:101-137 | records are sent exactly when all four columns are chosen, and they are the rows mapped under the header indices of the chosen columns |
| Inventario.MapRowsSendable | src/components/Inventario.jsx:109-137 | every record sent is complete, under a trimmed code that `insert-inventario` does not skip |
| Inventario.MapRowSendable | src/components/Inventario.jsx:123-136 | a record made from one row has a trimmed, non-blank code, so `insert-inventario` does not skip it for its code (it may still be omitted as a duplicate) |
| Inventario.MapRowsAppend | src/components/Inventario.jsx:137 | rows map piecewise, so records keep the order of their rows |
| Inventario.MapRowOfTexts | src/components/Inventario.jsx:123-134 | a row of a name, a code, a two-decimal price and an integer stock yields exactly that record, with the code trimmed |
| Inventario.SaveNewProduct | src/components/Inventario.jsx:52-65 | a record is sent exactly when all four fields are filled; it keeps the name and the untrimmed code, and its price and stock are present exactly when they parse |
| Inventario.SaveNewProductComplete | src/components/Inventario.jsx:60-65 | numeric fields yield a complete record with that price and stock |
| Inventario.HandleSearch | src/components/Inventario.jsx:174-185 | the product found is the first whose code equals the trimmed search text, and one is found exactly when some code does |
| Inventario.HandleSearchTrimsOnlyTheQuery | src/components/Inventario.jsx:175 | padding the search text changes nothing, and a product whose stored code has padding is never found by that code |
| Consulta.HandleSearchProduct | src/components/Consulta.jsx:13-27 | with no match the state is unchanged; with a match the dialog opens on an inventory item whose normalized code equals the normalized query |
| Consulta.HandleSearchFindsFirst | src/components/Consulta.jsx:16-23 | when several items match, the first in inventory order is shown |
| Consulta.HandleSearchInsensitive | src/components/Consulta.jsx:14-19 | padding and letter case of the query do not change the result |
| Consulta.HandleSearchFindsOwnCode | src/components/Consulta.jsx:14-23 | searching for an item's own code, lowercased, opens the dialog on an item with that code |
| Consulta.CloseModal | src/components/Consulta.jsx:30-33 | no product is selected and the dialog is closed |

## Left out

- Row order and the `id` column of `inventario`: the table is a map keyed by `codigo`, so `read-inventario` order is not modelled.
- Binary floating point: prices, totals and change are exact decimals and whole cents. Rounding errors of `0.1 + 0.2` style are not reproduced.
- `parseFloat` and `parseInt` accept decimal digits with an optional sign and point. Exponents, `Infinity`, hexadecimal and leading zeros beyond their value are not modelled.
- `toLowerCase` maps ASCII and Latin-1 letters only; other Unicode case mappings are not modelled.
- Spreadsheet cells arrive as text or integers. Fractional numeric cells, dates and booleans are not modelled, and neither are non-string headers.
- XLSX reading (`main.mjs:103-112`, `Inventario.jsx:77-95`) is a foreign library: already-parsed rows are the input.
- Invoice HTML, PDF generation and printing (`main.mjs:201-301`, `Venta.jsx:206-226`, `Ventas.jsx:263-283`) are foreign calls. `realizar-venta` is modelled without its printing step. For `Venta.jsx` only whether `printInvoice` exists is a parameter.
- The invoice date (`new Date().toLocaleString()`) is a clock read and is left out of the invoice.
- The Electron bootstrap, window creation and `get-printers` are I/O plumbing.
- Async interleaving: each handler and each screen action is one sequential step, and the `setProductos` updater runs at once.
- `Venta.VentaScreen.AgregarProducto`: the message "No hay suficiente stock para agregar más." is set inside the state updater and then overwritten by the `setError("")` that follows, depending on React's scheduling. The model leaves the error empty at the stock limit.
- `Venta.VentaScreen.ModificarCantidad`: the quantity field is `parseInt` of the input, and its `NaN` case is not modelled; the quantity is an integer parameter.
- `Ventas.VentasScreen.HandleProductoSeleccionado`: React compares products by object identity. The model compares them by value, so two equal items are one product.
- `Ventas.AddError`: at the stock limit `Ventas.jsx` sets "No hay suficiente stock para agregar más." inside the `setProductos` updater, and the `setError("")` that follows may or may not overwrite it depending on React's scheduling. The model leaves the error empty.
- `Ventas.VentasScreen.AgregarProducto`: the same stock-limit message is not modelled; the error is left empty.
- `Ventas.VentasScreen.ConfirmarSeleccion`: the adds it queues run one after another, so a stock-limit message set by an updater is not modelled; the error is that of the last product, and empty for one with stock.
- `Ventas.VentasScreen.ModificarCantidad`: the quantity is `parseInt` of the input field, and its `NaN` case is not modelled; the quantity is an integer parameter.
- `Inventario.SaveNewProduct`: a price that does not parse is sent as the text "NaN", which SQLite stores in the `REAL` column as text. The model sends NULL instead.
- A failure of `stmt.finalize` in the two import handlers (rollback or rejection) is not modelled.
- Error texts a failed `readInventario` leaves in `Ventas.jsx` are overwritten straight away, and are modelled only as such.
- `guardarInventario` in `InventarioContext.jsx`, `handleEditProduct` and the delete confirmations in `Inventario.jsx`: these are UI passes to handlers that are modelled.
- React effects, focus handling, `localStorage`, the printer and business-name settings, and modal overflow toggling are UI state.
- `Cortes.jsx`, `App.jsx`, `Sidebar.jsx` and `vite.config.js` are outside the sale and stock core. The handlers `Cortes.jsx` calls do not exist in `main.mjs`.
- The argument checks of `preload.js` are modelled only where they decide an outcome: `updateInventario` refuses a falsy `codigo`.
