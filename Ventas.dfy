/** The sale screen `Ventas.jsx`: products are found by a text search and picked in a dialog, and
    the checkout sends the whole cart to the `realizar-venta` handler in one request. */
module Ventas {
  import opened Wrappers
  import opened Text
  import opened Catalog
  import opened Cart
  import Store

  const SelectValidProduct := "Por favor, selecciona un producto válido."
  const InventoryReadFailed := "Error al actualizar el inventario. Intenta nuevamente."
  /** Thrown by the screen when the reply of `realizar-venta` has no `success` field set. */
  const RegistrationFailed := "Error al registrar la venta en la base de datos."

  /** The message of the error an `ipcRenderer.invoke` call rejects with when the handler throws. */
  function RemoteError(message: string): (r: string)
    ensures |r| > |message| && r[|r| - |message|..] == message
  {
    "Error invoking remote method 'realizar-venta': Error: " + message
  }

  /** The search test: the lowercased code or name contains the trimmed, lowercased query. */
  predicate Matches(p: Product, query: string)
    ensures IsBlank(query) ==> Matches(p, query)
  {
    ContainsTrivial(ToLower(p.codigo));
    Contains(ToLower(p.codigo), Normalize(query)) || Contains(ToLower(p.nombre), Normalize(query))
  }

  /** `inventario.filter(item => ...)` with the search test. */
  function Search(inv: seq<Product>, query: string): (r: seq<Product>)
    ensures |r| <= |inv|
  {
    if |inv| == 0 then []
    else
      var last := inv[|inv| - 1];
      Search(inv[..|inv| - 1], query) + (if Matches(last, query) then [last] else [])
  }

  /** The products found are exactly the products of the inventory that pass the test. */
  lemma {:induction false} SearchMembers(inv: seq<Product>, query: string)
    ensures forall p :: p in Search(inv, query) <==> p in inv && Matches(p, query)
    decreases |inv|
  {
    if |inv| > 0 {
      var init := inv[..|inv| - 1];
      assert inv == init + [inv[|inv| - 1]];
      SearchMembers(init, query);
    }
  }

  /** The search filters piecewise, so the products found keep their inventory order. */
  lemma {:induction false} SearchAppend(a: seq<Product>, b: seq<Product>, query: string)
    ensures Search(a + b, query) == Search(a, query) + Search(b, query)
    decreases |b|
  {
    if |b| > 0 {
      var init := b[..|b| - 1];
      var last := b[|b| - 1];
      var tail := if Matches(last, query) then [last] else [];
      assert (a + b)[..|a + b| - 1] == a + init;
      assert (a + b)[|a + b| - 1] == last;
      assert Search(a + b, query) == Search(a + init, query) + tail;
      SearchAppend(a, init, query);
      assert Search(b, query) == Search(init, query) + tail;
      assert Search(a, query) + Search(init, query) + tail == Search(a, query) + (Search(init, query) + tail);
    } else {
      assert a + b == a;
    }
  }

  /** Searching for a product's own code finds it. */
  lemma SearchFindsCode(inv: seq<Product>, p: Product)
    requires p in inv
    ensures p in Search(inv, p.codigo)
  {
    TrimContained(p.codigo);
    ContainsLower(p.codigo, Trim(p.codigo));
    SearchMembers(inv, p.codigo);
  }

  /** Case and surrounding whitespace of the query do not matter: searching for the normalized
      query finds the same products. */
  lemma SearchNormalized(inv: seq<Product>, query: string)
    ensures Search(inv, Normalize(query)) == Search(inv, query)
  {
    NormalizeIdempotent(query);
    assert forall p :: Matches(p, Normalize(query)) == Matches(p, query);
    SearchSameTest(inv, Normalize(query), query);
  }

  lemma {:induction false} SearchSameTest(inv: seq<Product>, q1: string, q2: string)
    requires forall p :: Matches(p, q1) == Matches(p, q2)
    ensures Search(inv, q1) == Search(inv, q2)
    decreases |inv|
  {
    if |inv| > 0 {
      SearchSameTest(inv[..|inv| - 1], q1, q2);
    }
  }

  /** `prev.filter(p => p !== producto)`. */
  function Removed(sel: seq<Product>, p: Product): (r: seq<Product>)
    ensures |r| <= |sel|
    ensures forall q :: q in r <==> q in sel && q != p
  {
    if |sel| == 0 then []
    else
      var last := sel[|sel| - 1];
      Removed(sel[..|sel| - 1], p) + (if last == p then [] else [last])
  }

  /** The filter works piecewise, so the products left keep their order in the selection. */
  lemma {:induction false} RemovedAppend(a: seq<Product>, b: seq<Product>, p: Product)
    ensures Removed(a + b, p) == Removed(a, p) + Removed(b, p)
    decreases |b|
  {
    if |b| > 0 {
      var init := b[..|b| - 1];
      assert (a + b)[..|a + b| - 1] == a + init;
      RemovedAppend(a, init, p);
    } else {
      assert a + b == a;
    }
  }

  /** Removing a product that is not selected changes nothing. */
  lemma {:induction false} RemovedAbsent(sel: seq<Product>, p: Product)
    requires p !in sel
    ensures Removed(sel, p) == sel
    decreases |sel|
  {
    if |sel| > 0 {
      var init := sel[..|sel| - 1];
      assert sel == init + [sel[|sel| - 1]];
      RemovedAbsent(init, p);
    }
  }

  /** The `handleProductoSeleccionado` updater: deselect a selected product, select another. */
  function Toggled(sel: seq<Product>, p: Product): (r: seq<Product>)
    ensures p in r <==> p !in sel
    ensures forall q :: q != p ==> (q in r <==> q in sel)
  {
    if p in sel then Removed(sel, p) else sel + [p]
  }

  /** Toggling a product that was not selected twice gives back the selection. */
  lemma ToggleTwice(sel: seq<Product>, p: Product)
    requires p !in sel
    ensures Toggled(Toggled(sel, p), p) == sel
  {
    var once := sel + [p];
    assert p in once;
    assert once[..|once| - 1] == sel;
    RemovedAbsent(sel, p);
  }

  /** Toggling a selected product twice keeps the same products selected, but moves it to the end. */
  lemma ToggleTwiceReorders()
    ensures var a := Product("A1", "Aspirina", 100, 5, None);
            var b := Product("B2", "Bebida", 200, 3, None);
            Toggled(Toggled([a, b], a), a) == [b, a]
  {
    var a := Product("A1", "Aspirina", 100, 5, None);
    var b := Product("B2", "Bebida", 200, 3, None);
    assert a in [a, b];
    assert [a, b][..1] == [a];
    assert [a][..0] == [];
    assert Removed([a, b], a) == [b];
    assert a !in [b];
  }

  /** The cart after `agregarProducto(producto)` for a product that was picked: nothing when it
      has no stock, `AddOne` otherwise. */
  function AddedIfInStock(cart: seq<Line>, p: Product): (r: seq<Line>)
    ensures p.stock > 0 ==> HasCode(r, p.codigo)
    ensures p.stock <= 0 ==> r == cart
    ensures forall c :: HasCode(cart, c) ==> HasCode(r, c)
  {
    if p.stock <= 0 then cart else AddOne(cart, p)
  }

  /** The message `agregarProducto(producto)` leaves for a product that was picked. */
  function AddError(p: Product): (r: string)
    ensures r == "" <==> p.stock > 0
  {
    if p.stock <= 0 then OutOfStock else ""
  }

  /** Some product of `ps` has stock, so handing `ps` to `agregarProducto` one by one clears
      the search. */
  predicate AnyInStock(ps: seq<Product>)
  {
    |ps| > 0 && (ps[|ps| - 1].stock > 0 || AnyInStock(ps[..|ps| - 1]))
  }

  lemma {:induction false} AnyInStockMeans(ps: seq<Product>)
    ensures AnyInStock(ps) <==> exists i :: 0 <= i < |ps| && ps[i].stock > 0
    decreases |ps|
  {
    if |ps| > 0 {
      var q := ps[..|ps| - 1];
      AnyInStockMeans(q);
      if exists i :: 0 <= i < |q| && q[i].stock > 0 {
        var i :| 0 <= i < |q| && q[i].stock > 0;
        assert ps[i] == q[i];
      }
      if exists i :: 0 <= i < |ps| && ps[i].stock > 0 {
        var i :| 0 <= i < |ps| && ps[i].stock > 0;
        if i < |q| {
          assert q[i] == ps[i];
        }
      }
    }
  }

  lemma AnyInStockStep(ps: seq<Product>, p: Product)
    ensures AnyInStock(ps + [p]) <==> AnyInStock(ps) || p.stock > 0
  {
    assert (ps + [p])[..|ps|] == ps;
  }

  /** The cart after `productosSeleccionados.forEach(agregarProducto)`. */
  function AddAll(cart: seq<Line>, ps: seq<Product>): (r: seq<Line>)
    ensures forall i :: 0 <= i < |ps| && ps[i].stock > 0 ==> HasCode(r, ps[i].codigo)
    ensures forall c :: HasCode(cart, c) ==> HasCode(r, c)
  {
    if |ps| == 0 then cart else AddedIfInStock(AddAll(cart, ps[..|ps| - 1]), ps[|ps| - 1])
  }

  lemma AddAllStep(cart: seq<Line>, ps: seq<Product>, p: Product)
    ensures AddAll(cart, ps + [p]) == AddedIfInStock(AddAll(cart, ps), p)
  {
    assert (ps + [p])[..|ps|] == ps;
  }

  /** One more product of `sel` handed to `agregarProducto`. */
  lemma SelectionStep(cart: seq<Line>, sel: seq<Product>, i: nat)
    requires i < |sel|
    ensures AddAll(cart, sel[..i + 1]) == AddedIfInStock(AddAll(cart, sel[..i]), sel[i])
    ensures AnyInStock(sel[..i + 1]) <==> AnyInStock(sel[..i]) || sel[i].stock > 0
  {
    assert sel[..i + 1] == sel[..i] + [sel[i]];
    AnyInStockStep(sel[..i], sel[i]);
    AddAllStep(cart, sel[..i], sel[i]);
  }

  /** Confirming a selection keeps one line per code. */
  lemma {:induction false} AddAllKeepsUniqueCodes(cart: seq<Line>, ps: seq<Product>)
    requires UniqueCodes(cart)
    ensures UniqueCodes(AddAll(cart, ps))
    decreases |ps|
  {
    if |ps| > 0 {
      AddAllKeepsUniqueCodes(cart, ps[..|ps| - 1]);
      var last := ps[|ps| - 1];
      if last.stock > 0 {
        AddOneCounts(AddAll(cart, ps[..|ps| - 1]), last);
      }
    }
  }

  /** The lines the screen sends: code, name, quantity and price; `realizar-venta` reads the
      quantity from a `stock` field, which these lines do not have. */
  function RequestLines(cart: seq<Line>): (r: seq<Store.SaleLine>)
    ensures |r| == |cart|
    ensures forall i :: 0 <= i < |cart| ==> r[i].codigo == cart[i].codigo && r[i].stock.None?
  {
    seq(|cart|, i requires 0 <= i < |cart| => Store.SaleLine(cart[i].codigo, cart[i].precio, None))
  }

  /** The request the screen sends: no `pagoConTarjeta`, no `pagoConEfectivo`. */
  function Request(cart: seq<Line>): (r: Store.Sale)
    ensures Store.Subtotal(r.productos).None? <==> |cart| > 0
    ensures !r.pagoConTarjeta && r.pagoConEfectivo.None?
  {
    Store.Sale(RequestLines(cart), false, None)
  }

  /** Whatever the cart, the handler changes no stock for this request, and a non-empty cart
      gets a `NaN` total and change back. */
  lemma RequestChangesNoStock(t: Store.Table, cart: seq<Line>)
    ensures Store.SaleApplied(t, RequestLines(cart)) == t
    ensures |cart| > 0 ==> Store.SaleTotal(Request(cart), Store.MainSurchargePercent).None?
                           && Store.Change(None, Store.SaleTotal(Request(cart), Store.MainSurchargePercent)).None?
  {
    Store.SaleWithoutQuantitiesChangesNothing(t, RequestLines(cart));
  }

  class VentasScreen {
    var inventario: seq<Product>
    var productos: seq<Line>
    var busqueda: string
    var metodoPago: PaymentMethod
    var pago: string
    var factura: Option<Store.Sale>
    var ventaIniciada: bool
    var error: string
    var productosEncontrados: seq<Product>
    var productosSeleccionados: seq<Product>
    var modalIsOpen: bool
    /** `ventaEnProceso`, set while a checkout awaits the main process. */
    var ventaEnProceso: bool

    /** The initial state of the screen. */
    constructor (inventario: seq<Product>)
      ensures this.inventario == inventario && productos == [] && busqueda == "" && metodoPago == Efectivo
      ensures pago == "" && factura == None && !ventaIniciada && error == ""
      ensures productosEncontrados == [] && productosSeleccionados == [] && !modalIsOpen && !ventaEnProceso
    {
      this.inventario := inventario;
      productos := [];
      busqueda := "";
      metodoPago := Efectivo;
      pago := "";
      factura := None;
      ventaIniciada := false;
      error := "";
      productosEncontrados := [];
      productosSeleccionados := [];
      modalIsOpen := false;
      ventaEnProceso := false;
    }

    /** `iniciarVenta`: reload the inventory (`leido` is `None` when the read fails, which keeps
        the list) and open the sale; the error of a failed read is cleared straight away. */
    method IniciarVenta(leido: Option<seq<Product>>)
      modifies this
      ensures inventario == (if leido.Some? then leido.value else old(inventario))
      ensures ventaIniciada && error == ""
      ensures productos == old(productos) && busqueda == old(busqueda) && pago == old(pago)
      ensures metodoPago == old(metodoPago) && factura == old(factura) && modalIsOpen == old(modalIsOpen)
      ensures productosSeleccionados == old(productosSeleccionados) && ventaEnProceso == old(ventaEnProceso)
      ensures productosEncontrados == old(productosEncontrados)
    {
      if leido.Some? {
        inventario := leido.value;
      } else {
        error := InventoryReadFailed;
      }
      ventaIniciada := true;
      error := "";
    }

    /** `agregarProducto(producto)`, where `None` is a missing product. */
    method AgregarProducto(producto: Option<Product>)
      modifies this`productos, this`error, this`busqueda, this`productosEncontrados
      ensures producto.None? ==>
                error == SelectValidProduct && productos == old(productos) && busqueda == old(busqueda)
                && productosEncontrados == old(productosEncontrados)
      ensures producto.Some? ==>
                productos == AddedIfInStock(old(productos), producto.value) && error == AddError(producto.value)
                && busqueda == (if producto.value.stock > 0 then "" else old(busqueda))
                && productosEncontrados == (if producto.value.stock > 0 then [] else old(productosEncontrados))
    {
      if producto.None? {
        error := SelectValidProduct;
        return;
      }
      var p := producto.value;
      if p.stock <= 0 {
        error := OutOfStock;
        return;
      }
      productos := AddOne(productos, p);
      error := "";
      busqueda := "";
      productosEncontrados := [];
    }

    /** `buscarProducto`: a blank query does nothing; no match reports it and clears the search;
        otherwise the matches are listed in the dialog. */
    method BuscarProducto()
      modifies this
      ensures inventario == old(inventario) && productos == old(productos) && metodoPago == old(metodoPago)
      ensures pago == old(pago) && factura == old(factura) && ventaIniciada == old(ventaIniciada)
      ensures productosSeleccionados == old(productosSeleccionados) && ventaEnProceso == old(ventaEnProceso)
      ensures IsBlank(old(busqueda)) ==>
                busqueda == old(busqueda) && error == old(error) && productosEncontrados == old(productosEncontrados)
                && modalIsOpen == old(modalIsOpen)
      ensures !IsBlank(old(busqueda)) && |Search(inventario, old(busqueda))| == 0 ==>
                error == UnknownProduct && busqueda == "" && productosEncontrados == [] && modalIsOpen == old(modalIsOpen)
      ensures !IsBlank(old(busqueda)) && |Search(inventario, old(busqueda))| > 0 ==>
                productosEncontrados == Search(inventario, old(busqueda)) && modalIsOpen
                && busqueda == old(busqueda) && error == old(error)
    {
      if Trim(busqueda) == "" {
        return;
      }
      var encontrados := Search(inventario, busqueda);
      if |encontrados| == 0 {
        error := UnknownProduct;
        busqueda := "";
        productosEncontrados := [];
        return;
      }
      productosEncontrados := encontrados;
      modalIsOpen := true;
    }

    /** `modificarCantidad`, as on the other sale screen. */
    method ModificarCantidad(codigo: string, nuevaCantidad: int)
      modifies this
      ensures inventario == old(inventario) && busqueda == old(busqueda) && metodoPago == old(metodoPago)
      ensures pago == old(pago) && factura == old(factura) && ventaIniciada == old(ventaIniciada)
      ensures productosEncontrados == old(productosEncontrados) && modalIsOpen == old(modalIsOpen)
      ensures productosSeleccionados == old(productosSeleccionados) && ventaEnProceso == old(ventaEnProceso)
      ensures nuevaCantidad < 1 ==> error == BelowOne && productos == old(productos)
      ensures nuevaCantidad >= 1 && Find(inventario, Code, codigo).Some?
              && nuevaCantidad > Find(inventario, Code, codigo).value.stock ==>
                error == AboveStock && productos == old(productos)
      ensures nuevaCantidad >= 1 && (Find(inventario, Code, codigo).None?
              || nuevaCantidad <= Find(inventario, Code, codigo).value.stock) ==>
                error == "" && productos == WithQuantity(old(productos), codigo, nuevaCantidad)
    {
      if nuevaCantidad < 1 {
        error := BelowOne;
        return;
      }
      var producto := Find(inventario, Code, codigo);
      if producto.Some? && nuevaCantidad > producto.value.stock {
        error := AboveStock;
        return;
      }
      productos := WithQuantity(productos, codigo, nuevaCantidad);
      error := "";
    }

    /** `eliminarProducto`. */
    method EliminarProducto(codigo: string)
      modifies this
      ensures productos == Without(old(productos), codigo)
      ensures inventario == old(inventario) && busqueda == old(busqueda) && error == old(error)
      ensures factura == old(factura) && productosSeleccionados == old(productosSeleccionados)
      ensures metodoPago == old(metodoPago) && pago == old(pago) && ventaIniciada == old(ventaIniciada)
      ensures productosEncontrados == old(productosEncontrados) && modalIsOpen == old(modalIsOpen)
      ensures ventaEnProceso == old(ventaEnProceso)
    {
      productos := Without(productos, codigo);
    }

    /** `handleProductoSeleccionado`. */
    method HandleProductoSeleccionado(producto: Product)
      modifies this
      ensures productosSeleccionados == Toggled(old(productosSeleccionados), producto)
      ensures productos == old(productos) && error == old(error) && modalIsOpen == old(modalIsOpen)
      ensures inventario == old(inventario) && busqueda == old(busqueda) && metodoPago == old(metodoPago)
      ensures pago == old(pago) && factura == old(factura) && ventaIniciada == old(ventaIniciada)
      ensures productosEncontrados == old(productosEncontrados) && ventaEnProceso == old(ventaEnProceso)
    {
      productosSeleccionados := Toggled(productosSeleccionados, producto);
    }

    /** `confirmarSeleccion`: add each selected product in turn, then clear the selection and
        close the dialog. */
    method ConfirmarSeleccion()
      modifies this
      ensures productos == AddAll(old(productos), old(productosSeleccionados))
      ensures |old(productosSeleccionados)| > 0 ==>
                error == AddError(old(productosSeleccionados)[|old(productosSeleccionados)| - 1])
      ensures |old(productosSeleccionados)| == 0 ==> error == old(error)
      ensures productosSeleccionados == [] && !modalIsOpen
      ensures inventario == old(inventario) && factura == old(factura) && ventaEnProceso == old(ventaEnProceso)
      ensures metodoPago == old(metodoPago) && pago == old(pago) && ventaIniciada == old(ventaIniciada)
      ensures AnyInStock(old(productosSeleccionados)) ==> busqueda == "" && productosEncontrados == []
      ensures !AnyInStock(old(productosSeleccionados)) ==>
                busqueda == old(busqueda) && productosEncontrados == old(productosEncontrados)
    {
      AgregarCada(productosSeleccionados);
      productosSeleccionados := [];
      modalIsOpen := false;
    }

    /** The `forEach` of `confirmarSeleccion`: `agregarProducto` for each product of `sel`. */
    method AgregarCada(sel: seq<Product>)
      modifies this`productos, this`error, this`busqueda, this`productosEncontrados
      ensures productos == AddAll(old(productos), sel)
      ensures error == if |sel| == 0 then old(error) else AddError(sel[|sel| - 1])
      ensures busqueda == if AnyInStock(sel) then "" else old(busqueda)
      ensures productosEncontrados == if AnyInStock(sel) then [] else old(productosEncontrados)
    {
      var i := 0;
      while i < |sel|
        invariant i <= |sel|
        invariant AddedPrefix(sel, i, old(productos), old(error), old(busqueda), old(productosEncontrados))
      {
        AgregarSiguiente(sel, i, old(productos), old(error), old(busqueda), old(productosEncontrados));
        i := i + 1;
      }
      assert sel[..|sel|] == sel;
    }

    /** The screen once `agregarProducto` has seen `sel[..i]`, starting from the given values. */
    ghost predicate AddedPrefix(sel: seq<Product>, i: nat, productos0: seq<Line>, error0: string,
                                busqueda0: string, encontrados0: seq<Product>)
      requires i <= |sel|
      reads this
    {
      && productos == AddAll(productos0, sel[..i])
      && error == (if i == 0 then error0 else AddError(sel[i - 1]))
      && busqueda == (if AnyInStock(sel[..i]) then "" else busqueda0)
      && productosEncontrados == (if AnyInStock(sel[..i]) then [] else encontrados0)
    }

    /** One turn of the `forEach` of `confirmarSeleccion`. */
    method AgregarSiguiente(sel: seq<Product>, i: nat, ghost productos0: seq<Line>, ghost error0: string,
                            ghost busqueda0: string, ghost encontrados0: seq<Product>)
      requires i < |sel| && AddedPrefix(sel, i, productos0, error0, busqueda0, encontrados0)
      modifies this`productos, this`error, this`busqueda, this`productosEncontrados
      ensures AddedPrefix(sel, i + 1, productos0, error0, busqueda0, encontrados0)
    {
      SelectionStep(productos0, sel, i);
      AgregarProducto(Some(sel[i]));
    }

    /** `cerrarModal`. */
    method CerrarModal()
      modifies this
      ensures !modalIsOpen && busqueda == "" && productosEncontrados == [] && productosSeleccionados == []
      ensures error == "" && productos == old(productos) && inventario == old(inventario)
      ensures metodoPago == old(metodoPago) && pago == old(pago) && factura == old(factura)
      ensures ventaIniciada == old(ventaIniciada) && ventaEnProceso == old(ventaEnProceso)
    {
      modalIsOpen := false;
      busqueda := "";
      productosEncontrados := [];
      productosSeleccionados := [];
      error := "";
    }

    /** `finalizarVenta`. `leido` is the reloaded inventory (`None` when the read fails). The reply
        of `realizar-venta` never carries `success`, so the checkout always ends in an error, the
        cart stays, and, as the request has no quantities, no stock changes. */
    method FinalizarVenta(db: Store.Database, leido: Option<seq<Product>>)
      modifies this, db
      ensures busqueda == old(busqueda) && pago == old(pago) && metodoPago == old(metodoPago)
      ensures ventaIniciada == old(ventaIniciada) && productosEncontrados == old(productosEncontrados)
      ensures productosSeleccionados == old(productosSeleccionados) && modalIsOpen == old(modalIsOpen)
      ensures old(ventaEnProceso) ==>
                db.inventario == old(db.inventario) && inventario == old(inventario) && productos == old(productos)
                && error == old(error) && ventaEnProceso && factura == old(factura)
      ensures !old(ventaEnProceso) ==>
                db.inventario == old(db.inventario) && productos == old(productos) && factura == old(factura)
                && !ventaEnProceso && inventario == (if leido.Some? then leido.value else old(inventario))
                && error == (if Store.SaleAvailable(old(db.inventario), RequestLines(old(productos)))
                             then RegistrationFailed else RemoteError(Store.SaleFailed))
    {
      if ventaEnProceso {
        return;
      }
      ventaEnProceso := true;
      if leido.Some? {
        inventario := leido.value;
      } else {
        error := InventoryReadFailed;
      }
      var venta := Request(productos);
      RequestChangesNoStock(db.inventario, productos);
      var respuesta := db.RealizarVenta(venta);
      if respuesta.Err? {
        error := RemoteError(respuesta.error);
      } else {
        error := RegistrationFailed;
      }
      ventaEnProceso := false;
    }

    /** `cerrarFactura`. */
    method CerrarFactura()
      modifies this
      ensures factura == None && productos == [] && busqueda == "" && pago == "" && metodoPago == Efectivo
      ensures !ventaIniciada && error == "" && inventario == old(inventario)
      ensures productosEncontrados == old(productosEncontrados) && productosSeleccionados == old(productosSeleccionados)
      ensures modalIsOpen == old(modalIsOpen) && ventaEnProceso == old(ventaEnProceso)
    {
      factura := None;
      productos := [];
      busqueda := "";
      pago := "";
      metodoPago := Efectivo;
      ventaIniciada := false;
      error := "";
    }
  }
}
