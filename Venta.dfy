/** The cash-register screen `Venta.jsx`: a cart filled by scanning codes, and a checkout that
    calls `updateStock` once per line, in cart order, stopping at the first line refused. */
module Venta {
  import opened Wrappers
  import opened Text
  import opened Numbers
  import opened Catalog
  import opened Cart
  import Store

  const EnterValidCode := "Por favor, ingresa un código válido."
  const EmptySale := "No hay productos en la venta."
  const InsufficientPayment := "La cantidad pagada es insuficiente."
  /** The message of the `TypeError` thrown by calling `window.electron.printInvoice`, a function
      the preload bridge does not expose. */
  const PrintInvoiceMissing := "window.electron.printInvoice is not a function"

  /** The message thrown when `updateStock` refuses a line. */
  function StockFailure(codigo: string): (r: string)
    ensures |r| > |codigo| && r[|r| - |codigo|..] == codigo
  {
    "Producto no encontrado o stock insuficiente: " + codigo
  }

  /** `String(item.codigo).trim()`, the key scanned codes are compared with. */
  function TrimmedCode(p: Product): string
  {
    Trim(p.codigo)
  }

  /** What `agregarProducto` finds for a scanned code: a blank code is not looked up; otherwise
      the first item whose trimmed code equals the trimmed scan, if any. */
  datatype Scan = Blank | Unknown | Found(p: Product)

  function ScanCode(inv: seq<Product>, codigo: string): (r: Scan)
    ensures r.Blank? <==> IsBlank(codigo)
    ensures r.Unknown? <==> !IsBlank(codigo) && forall j :: 0 <= j < |inv| ==> Trim(inv[j].codigo) != Trim(codigo)
    ensures r.Found? ==>
              exists i :: 0 <= i < |inv| && inv[i] == r.p && Trim(r.p.codigo) == Trim(codigo)
                          && forall j :: 0 <= j < i ==> Trim(inv[j].codigo) != Trim(codigo)
  {
    var key := Trim(codigo);
    if key == "" then Blank
    else
      match FindIndex(inv, TrimmedCode, key)
      case None => Unknown
      case Some(i) => Found(inv[i])
  }

  /** The invoice object built after a successful checkout; `total` and `vuelto` are the
      `toFixed(2)` strings. The date is not modelled. */
  datatype Invoice = Invoice(productos: seq<Line>, total: string, metodoPago: PaymentMethod, pago: string, vuelto: string)

  /** The guard that refuses a cash payment: `!pago || parseFloat(pago) < parseFloat(calcularTotal())`.
      A payment that does not parse (NaN) is not refused. */
  predicate CashShort(cart: seq<Line>, metodo: PaymentMethod, pago: string)
    ensures CashShort(cart, metodo, pago) ==> metodo == Efectivo
    ensures pago != "" && ParseFloat(pago).None? ==> !CashShort(cart, metodo, pago)
  {
    metodo == Efectivo && (pago == "" || PaysLess(ParseFloat(pago), Total(cart, metodo)))
  }

  /** Comparing against `parseFloat(calcularTotal())` is comparing against the total in cents: a
      cash payment that parses is refused exactly when it is below the total, and then no change
      is due. */
  lemma CashShortMeansBelowTotal(cart: seq<Line>, pago: string)
    requires pago != "" && ParseFloat(pago).Some?
    ensures CashShort(cart, Efectivo, pago) <==> !PaysAtLeast(ParseFloat(pago), Total(cart, Efectivo))
    ensures CashShort(cart, Efectivo, pago) ==> ChangeDue(pago, Total(cart, Efectivo)) == 0
  {
  }

  /** A payment that is not a number passes the cash check, and the invoice then shows no change. */
  lemma NonNumericPaymentAccepted(cart: seq<Line>)
    ensures !CashShort(cart, Efectivo, "abc")
    ensures ChangeDue("abc", Total(cart, Efectivo)) == 0
  {
    assert ParseFloat("abc") == None by {
      var s := "abc";
      assert SkipWhitespace(s, 0) == 0;
      assert AfterSign(s, 0) == 0;
      assert DigitRunEnd(s, 0) == 0;
    }
  }

  /** Where the checkout loop stands: the table, and the code of the line `updateStock` refused. */
  datatype StockRun = StockRun(table: Store.Table, failed: Option<string>)

  /** The checkout loop on the table `t`: each line is decremented by its `cantidad` in turn, and
      the loop stops at the first line whose code is missing or whose stock is below the quantity. */
  function UpdateStockLoop(t: Store.Table, lines: seq<Line>): (r: StockRun)
    ensures r.table.Keys == t.Keys
    decreases |lines|
  {
    if |lines| == 0 then StockRun(t, None)
    else if Store.CanDecrement(t, lines[0].codigo, lines[0].cantidad) then
      UpdateStockLoop(Store.StockDecremented(t, lines[0].codigo, lines[0].cantidad), lines[1..])
    else StockRun(t, Some(lines[0].codigo))
  }

  /** The loop reports the code of a line of the cart, and leaves alone every product whose
      code is in no line. */
  lemma {:induction false} UpdateStockLoopFrame(t: Store.Table, lines: seq<Line>, k: string)
    requires k in t && forall i :: 0 <= i < |lines| ==> lines[i].codigo != k
    ensures UpdateStockLoop(t, lines).table[k] == t[k]
    ensures UpdateStockLoop(t, lines).failed.Some? ==>
              exists i :: 0 <= i < |lines| && lines[i].codigo == UpdateStockLoop(t, lines).failed.value
    decreases |lines|
  {
    if |lines| > 0 && Store.CanDecrement(t, lines[0].codigo, lines[0].cantidad) {
      var t1 := Store.StockDecremented(t, lines[0].codigo, lines[0].cantidad);
      UpdateStockLoopFrame(t1, lines[1..], k);
      var r := UpdateStockLoop(t1, lines[1..]);
      if r.failed.Some? {
        var i :| 0 <= i < |lines[1..]| && lines[1..][i].codigo == r.failed.value;
        assert lines[i + 1].codigo == r.failed.value;
      }
    }
  }

  /** With non-negative quantities no stock goes below zero, whether the loop completes or not. */
  lemma {:induction false} UpdateStockLoopKeepsStocksNonNegative(t: Store.Table, lines: seq<Line>)
    requires Store.StocksNonNegative(t)
    requires forall i :: 0 <= i < |lines| ==> lines[i].cantidad >= 0
    ensures Store.StocksNonNegative(UpdateStockLoop(t, lines).table)
    decreases |lines|
  {
    if |lines| > 0 && Store.CanDecrement(t, lines[0].codigo, lines[0].cantidad) {
      Store.UpdateStockKeepsStocksNonNegative(t, lines[0].codigo, lines[0].cantidad);
      UpdateStockLoopKeepsStocksNonNegative(Store.StockDecremented(t, lines[0].codigo, lines[0].cantidad), lines[1..]);
    }
  }

  /** With one line per code, the loop completes exactly when every line's code is in the table
      with at least the line's quantity in stock. */
  lemma {:induction false} UpdateStockLoopCompletes(t: Store.Table, lines: seq<Line>)
    requires UniqueCodes(lines)
    ensures UpdateStockLoop(t, lines).failed.None?
            <==> forall i :: 0 <= i < |lines| ==> Store.CanDecrement(t, lines[i].codigo, lines[i].cantidad)
    decreases |lines|
  {
    if |lines| > 0 {
      var rest := lines[1..];
      var t1 := Store.StockDecremented(t, lines[0].codigo, lines[0].cantidad);
      RestOfUnique(lines);
      UpdateStockLoopCompletes(t1, rest);
      if Store.CanDecrement(t, lines[0].codigo, lines[0].cantidad) {
        forall i | 0 <= i < |rest|
          ensures Store.CanDecrement(t1, rest[i].codigo, rest[i].cantidad)
                  <==> Store.CanDecrement(t, rest[i].codigo, rest[i].cantidad)
        {
          assert rest[i] == lines[i + 1];
          assert rest[i].codigo != lines[0].codigo;
        }
        assert (forall i :: 0 <= i < |lines| ==> Store.CanDecrement(t, lines[i].codigo, lines[i].cantidad))
               <==> (forall i :: 0 <= i < |rest| ==> Store.CanDecrement(t, rest[i].codigo, rest[i].cantidad)) by {
          forall i | 0 <= i < |rest| ensures rest[i] == lines[i + 1] { }
        }
      }
    }
  }

  /** With one line per code, and `n` the index of the first line that cannot be decremented on
      `t` (or `|lines|` when there is none): the loop reports that line's code, every line before
      it has lost its quantity, and that line and the later ones keep their stock. */
  lemma {:induction false} UpdateStockLoopSubtracts(t: Store.Table, lines: seq<Line>, n: nat)
    requires UniqueCodes(lines) && n <= |lines|
    requires forall i :: 0 <= i < n ==> Store.CanDecrement(t, lines[i].codigo, lines[i].cantidad)
    requires n < |lines| ==> !Store.CanDecrement(t, lines[n].codigo, lines[n].cantidad)
    ensures UpdateStockLoop(t, lines).failed == if n == |lines| then None else Some(lines[n].codigo)
    ensures forall i :: 0 <= i < n && lines[i].codigo in t ==>
              UpdateStockLoop(t, lines).table[lines[i].codigo]
              == t[lines[i].codigo].(stock := t[lines[i].codigo].stock - lines[i].cantidad)
    ensures forall i :: n <= i < |lines| && lines[i].codigo in t ==>
              UpdateStockLoop(t, lines).table[lines[i].codigo] == t[lines[i].codigo]
    decreases |lines|
  {
    if n > 0 {
      var c := lines[0].codigo;
      var rest := lines[1..];
      var t1 := Store.StockDecremented(t, c, lines[0].cantidad);
      RestOfUnique(lines);
      forall i | 0 <= i < |rest|
        ensures rest[i].codigo != c && rest[i] == lines[i + 1]
      {
        assert lines[0].codigo != lines[i + 1].codigo;
      }
      UpdateStockLoopSubtracts(t1, rest, n - 1);
      UpdateStockLoopFrame(t1, rest, c);
      var r := UpdateStockLoop(t, lines);
      assert r == UpdateStockLoop(t1, rest);
      forall i | 0 <= i < n && lines[i].codigo in t
        ensures r.table[lines[i].codigo] == t[lines[i].codigo].(stock := t[lines[i].codigo].stock - lines[i].cantidad)
      {
        if i > 0 {
          assert lines[i] == rest[i - 1];
        }
      }
      forall i | n <= i < |lines| && lines[i].codigo in t
        ensures r.table[lines[i].codigo] == t[lines[i].codigo]
      {
        assert lines[i] == rest[i - 1];
      }
    }
  }

  /** The lines after the first of a cart with one line per code have one line per code. */
  lemma RestOfUnique(lines: seq<Line>)
    requires |lines| > 0 && UniqueCodes(lines)
    ensures UniqueCodes(lines[1..])
  {
    var rest := lines[1..];
    forall i, j | 0 <= i < j < |rest| ensures rest[i].codigo != rest[j].codigo {
      assert rest[i] == lines[i + 1] && rest[j] == lines[j + 1];
    }
  }

  /** The checkout is not atomic: with 5 units of A and none of B, a cart of two A and one B
      fails at B after A has already lost two units. */
  lemma CheckoutIsNotAtomic()
    ensures var t := map["A" := Store.Row("Aspirina", 100, 5), "B" := Store.Row("Bebida", 200, 0)];
            var cart := [Line("A", "Aspirina", 100, 5, 2), Line("B", "Bebida", 200, 0, 1)];
            UpdateStockLoop(t, cart) == StockRun(t["A" := Store.Row("Aspirina", 100, 3)], Some("B"))
  {
    var t := map["A" := Store.Row("Aspirina", 100, 5), "B" := Store.Row("Bebida", 200, 0)];
    var cart := [Line("A", "Aspirina", 100, 5, 2), Line("B", "Bebida", 200, 0, 1)];
    var t1 := t["A" := Store.Row("Aspirina", 100, 3)];
    assert Store.StockDecremented(t, "A", 2) == t1;
    assert cart[1..] == [cart[1]];
    assert !Store.CanDecrement(t1, "B", 1);
    assert [cart[1]][1..] == [];
  }

  /** The `for (const prod of productos)` loop of `finalizarVenta`: one `updateStock` call per line,
      stopping at the first reply `No se encontró el producto o stock insuficiente`; `refused` is the
      code of that line. */
  method UpdateStockLines(db: Store.Database, lines: seq<Line>) returns (refused: Option<string>)
    modifies db
    ensures db.inventario == UpdateStockLoop(old(db.inventario), lines).table
    ensures refused == UpdateStockLoop(old(db.inventario), lines).failed
  {
    ghost var t0 := db.inventario;
    refused := None;
    var i := 0;
    while i < |lines|
      invariant 0 <= i <= |lines|
      invariant UpdateStockLoop(db.inventario, lines[i..]) == UpdateStockLoop(t0, lines)
    {
      var message := db.UpdateStock(lines[i].codigo, lines[i].cantidad);
      if message == Store.NotFoundOrInsufficient {
        refused := Some(lines[i].codigo);
        return;
      }
      assert lines[i..][1..] == lines[i + 1..];
      i := i + 1;
    }
  }

  class VentaScreen {
    /** The inventory list of the shared context, as last read. */
    var inventario: seq<Product>
    var productos: seq<Line>
    var codigo: string
    var metodoPago: PaymentMethod
    var pago: string
    var factura: Option<Invoice>
    var ventaIniciada: bool
    var error: string
    var vuelto: string

    /** The initial state of the screen. */
    constructor (inventario: seq<Product>)
      ensures this.inventario == inventario
      ensures productos == [] && codigo == "" && metodoPago == Efectivo && pago == ""
      ensures factura == None && !ventaIniciada && error == "" && vuelto == "0.00"
    {
      this.inventario := inventario;
      productos := [];
      codigo := "";
      metodoPago := Efectivo;
      pago := "";
      factura := None;
      ventaIniciada := false;
      error := "";
      vuelto := "0.00";
    }

    /** `iniciarVenta`: reload the inventory (`leido` is `None` when the read fails, which keeps
        the list) and open the sale. */
    method IniciarVenta(leido: Option<seq<Product>>)
      modifies this
      ensures inventario == (if leido.Some? then leido.value else old(inventario))
      ensures ventaIniciada && error == ""
      ensures productos == old(productos) && codigo == old(codigo) && pago == old(pago)
      ensures metodoPago == old(metodoPago) && factura == old(factura) && vuelto == old(vuelto)
    {
      if leido.Some? {
        inventario := leido.value;
      }
      ventaIniciada := true;
      error := "";
    }

    /** `agregarProducto`: find the scanned code (both sides trimmed) and add one unit. */
    method AgregarProducto()
      modifies this`productos, this`error, this`codigo
      ensures ScanCode(old(inventario), old(codigo)).Blank? ==>
                error == EnterValidCode && productos == old(productos) && codigo == old(codigo)
      ensures ScanCode(old(inventario), old(codigo)).Unknown? ==>
                error == UnknownProduct && productos == old(productos) && codigo == ""
      ensures ScanCode(old(inventario), old(codigo)).Found? ==>
                var p := ScanCode(old(inventario), old(codigo)).p;
                (p.stock <= 0 ==> error == OutOfStock && productos == old(productos) && codigo == old(codigo))
                && (p.stock > 0 ==> error == "" && productos == AddOne(old(productos), p) && codigo == "")
    {
      match ScanCode(inventario, codigo)
      case Blank =>
        error := EnterValidCode;
      case Unknown =>
        error, codigo := UnknownProduct, "";
      case Found(p) =>
        if p.stock <= 0 {
          error := OutOfStock;
        } else {
          productos, error, codigo := AddOne(productos, p), "", "";
        }
    }

    /** `modificarCantidad`: set a line's quantity, refusing one below 1 or above the product's
        stock (a code missing from the inventory is not checked against any stock). */
    method ModificarCantidad(codigoLinea: string, nuevaCantidad: int)
      modifies this
      ensures inventario == old(inventario) && codigo == old(codigo) && metodoPago == old(metodoPago)
      ensures pago == old(pago) && factura == old(factura) && ventaIniciada == old(ventaIniciada)
      ensures vuelto == old(vuelto)
      ensures nuevaCantidad < 1 ==> error == BelowOne && productos == old(productos)
      ensures nuevaCantidad >= 1 && Find(inventario, Code, codigoLinea).Some?
              && nuevaCantidad > Find(inventario, Code, codigoLinea).value.stock ==>
                error == AboveStock && productos == old(productos)
      ensures nuevaCantidad >= 1 && (Find(inventario, Code, codigoLinea).None?
              || nuevaCantidad <= Find(inventario, Code, codigoLinea).value.stock) ==>
                error == "" && productos == WithQuantity(old(productos), codigoLinea, nuevaCantidad)
    {
      if nuevaCantidad < 1 {
        error := BelowOne;
        return;
      }
      var producto := Find(inventario, Code, codigoLinea);
      if producto.Some? && nuevaCantidad > producto.value.stock {
        error := AboveStock;
        return;
      }
      productos := WithQuantity(productos, codigoLinea, nuevaCantidad);
      error := "";
    }

    /** `finalizarVenta`. `printInvoiceExposed` says whether the bridge offers `printInvoice`; the
        preload script of this repository does not, so the call throws after the stock is taken
        and the invoice is set, and the reset of the screen is skipped. */
    method FinalizarVenta(db: Store.Database, printInvoiceExposed: bool)
      modifies this, db
      ensures inventario == old(inventario)
      ensures |old(productos)| == 0 ==>
                error == EmptySale && productos == old(productos) && vuelto == old(vuelto)
                && factura == old(factura) && db.inventario == old(db.inventario) && codigo == old(codigo)
                && pago == old(pago) && metodoPago == old(metodoPago) && ventaIniciada == old(ventaIniciada)
      ensures |old(productos)| > 0 && CashShort(old(productos), old(metodoPago), old(pago)) ==>
                error == InsufficientPayment && productos == old(productos) && vuelto == old(vuelto)
                && factura == old(factura) && db.inventario == old(db.inventario) && codigo == old(codigo)
                && pago == old(pago) && metodoPago == old(metodoPago) && ventaIniciada == old(ventaIniciada)
      ensures |old(productos)| > 0 && !CashShort(old(productos), old(metodoPago), old(pago)) ==>
                vuelto == FixedText(ChangeDue(old(pago), Total(old(productos), old(metodoPago))))
                && db.inventario == UpdateStockLoop(old(db.inventario), old(productos)).table
      ensures |old(productos)| > 0 && !CashShort(old(productos), old(metodoPago), old(pago))
              && UpdateStockLoop(old(db.inventario), old(productos)).failed.Some? ==>
                error == StockFailure(UpdateStockLoop(old(db.inventario), old(productos)).failed.value)
                && productos == old(productos) && factura == old(factura) && ventaIniciada == old(ventaIniciada)
                && codigo == old(codigo) && pago == old(pago) && metodoPago == old(metodoPago)
      ensures |old(productos)| > 0 && !CashShort(old(productos), old(metodoPago), old(pago))
              && UpdateStockLoop(old(db.inventario), old(productos)).failed.None? ==>
                factura == Some(Invoice(old(productos), FixedText(Total(old(productos), old(metodoPago))),
                                        old(metodoPago), old(pago), vuelto))
      ensures |old(productos)| > 0 && !CashShort(old(productos), old(metodoPago), old(pago))
              && UpdateStockLoop(old(db.inventario), old(productos)).failed.None? && printInvoiceExposed ==>
                error == "" && productos == [] && codigo == "" && pago == "" && metodoPago == Efectivo
                && !ventaIniciada
      ensures |old(productos)| > 0 && !CashShort(old(productos), old(metodoPago), old(pago))
              && UpdateStockLoop(old(db.inventario), old(productos)).failed.None? && !printInvoiceExposed ==>
                error == PrintInvoiceMissing && productos == old(productos) && codigo == old(codigo)
                && pago == old(pago) && metodoPago == old(metodoPago) && ventaIniciada == old(ventaIniciada)
    {
      if |productos| == 0 {
        error := EmptySale;
        return;
      }
      if CashShort(productos, metodoPago, pago) {
        error := InsufficientPayment;
        return;
      }
      var total := Total(productos, metodoPago);
      vuelto := FixedText(ChangeDue(pago, total));
      Cobrar(db, printInvoiceExposed, FixedText(total));
    }

    /** The `try` block of `finalizarVenta`: take the stock line by line, then build and print the
        invoice and reset the sale; `total` is the `calcularTotal()` text. */
    method Cobrar(db: Store.Database, printInvoiceExposed: bool, total: string)
      modifies this, db
      ensures inventario == old(inventario) && vuelto == old(vuelto)
      ensures db.inventario == UpdateStockLoop(old(db.inventario), old(productos)).table
      ensures UpdateStockLoop(old(db.inventario), old(productos)).failed.Some? ==>
                error == StockFailure(UpdateStockLoop(old(db.inventario), old(productos)).failed.value)
                && productos == old(productos) && factura == old(factura) && ventaIniciada == old(ventaIniciada)
                && codigo == old(codigo) && pago == old(pago) && metodoPago == old(metodoPago)
      ensures UpdateStockLoop(old(db.inventario), old(productos)).failed.None? ==>
                factura == Some(Invoice(old(productos), total, old(metodoPago), old(pago), vuelto))
      ensures UpdateStockLoop(old(db.inventario), old(productos)).failed.None? && printInvoiceExposed ==>
                error == "" && productos == [] && codigo == "" && pago == "" && metodoPago == Efectivo
                && !ventaIniciada
      ensures UpdateStockLoop(old(db.inventario), old(productos)).failed.None? && !printInvoiceExposed ==>
                error == PrintInvoiceMissing && productos == old(productos) && codigo == old(codigo)
                && pago == old(pago) && metodoPago == old(metodoPago) && ventaIniciada == old(ventaIniciada)
    {
      var refused := UpdateStockLines(db, productos);
      if refused.Some? {
        error := StockFailure(refused.value);
        return;
      }
      factura := Some(Invoice(productos, total, metodoPago, pago, vuelto));
      if !printInvoiceExposed {
        error := PrintInvoiceMissing;
        return;
      }
      ventaIniciada := false;
      productos := [];
      codigo := "";
      pago := "";
      metodoPago := Efectivo;
      error := "";
    }

    /** `cerrarFactura`: close the invoice and reset the sale. */
    method CerrarFactura()
      modifies this
      ensures factura == None && productos == [] && codigo == "" && pago == ""
      ensures metodoPago == Efectivo && !ventaIniciada && error == ""
      ensures inventario == old(inventario) && vuelto == old(vuelto)
    {
      factura := None;
      productos := [];
      codigo := "";
      pago := "";
      metodoPago := Efectivo;
      ventaIniciada := false;
      error := "";
    }
  }
}
