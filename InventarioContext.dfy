/** The shared inventory context `InventarioContext.jsx`: the inventory list every screen reads,
    its last error, and `descontarStock`, which discounts a sold quantity from an item's
    `cantidad` and then asks the main process to store the new stock. */
module InventarioContext {
  import opened Wrappers
  import opened Catalog
  import Store

  const NotFound := "Producto no encontrado."
  const InvalidQuantity := "Cantidad no válida para descontar."
  const NotEnoughStock := "No hay suficiente stock."
  const DiscountFailed := "Error al descontar el stock."
  const LoadFailed := "No se pudo cargar el inventario."

  /** The guards of `descontarStock`: the first item with the code, a `cantidad` that is present
      and not negative, and enough of it for the quantity sold; the result is the new amount. */
  function NewStock(inv: seq<Product>, codigo: string, vendida: int): (r: Result<int, string>)
    ensures Find(inv, Code, codigo).None? ==> r == Err(NotFound)
    ensures Find(inv, Code, codigo).Some? ==>
              var c := Find(inv, Code, codigo).value.cantidad;
              (c.None? || c.value < 0 ==> r == Err(InvalidQuantity))
              && (c.Some? && c.value >= 0 && c.value < vendida ==> r == Err(NotEnoughStock))
              && (c.Some? && c.value >= 0 && c.value >= vendida ==> r == Ok(c.value - vendida))
    ensures r.Ok? ==> r.value >= 0
  {
    match Find(inv, Code, codigo)
    case None => Err(NotFound)
    case Some(p) =>
      if p.cantidad.None? || p.cantidad.value < 0 then Err(InvalidQuantity)
      else if p.cantidad.value - vendida < 0 then Err(NotEnoughStock)
      else Ok(p.cantidad.value - vendida)
  }

  /** The `setInventario` updater: every item with the code gets `cantidad: nuevo`. */
  function WithCantidad(inv: seq<Product>, codigo: string, nuevo: int): (r: seq<Product>)
    ensures |r| == |inv|
    ensures forall i :: 0 <= i < |inv| && inv[i].codigo != codigo ==> r[i] == inv[i]
    ensures forall i :: 0 <= i < |inv| && inv[i].codigo == codigo ==> r[i] == inv[i].(cantidad := Some(nuevo))
  {
    seq(|inv|, i requires 0 <= i < |inv| =>
      if inv[i].codigo == codigo then inv[i].(cantidad := Some(nuevo)) else inv[i])
  }

  predicate CantidadesNonNegative(inv: seq<Product>)
  {
    forall i :: 0 <= i < |inv| && inv[i].cantidad.Some? ==> inv[i].cantidad.value >= 0
  }

  /** A discount that passes the guards never makes a `cantidad` negative, and changes nothing
      but the `cantidad` of the items with that code. */
  lemma DiscountKeepsCantidadesNonNegative(inv: seq<Product>, codigo: string, vendida: int)
    requires CantidadesNonNegative(inv) && NewStock(inv, codigo, vendida).Ok?
    ensures CantidadesNonNegative(WithCantidad(inv, codigo, NewStock(inv, codigo, vendida).value))
    ensures forall i :: 0 <= i < |inv| ==>
              WithCantidad(inv, codigo, NewStock(inv, codigo, vendida).value)[i].(cantidad := inv[i].cantidad) == inv[i]
  {
  }

  /** Items read from the database have no `cantidad`, so `descontarStock` refuses every one of
      them: with such a list the discount never passes its guards. */
  lemma DatabaseItemsAreRefused(inv: seq<Product>, codigo: string, vendida: int)
    requires forall i :: 0 <= i < |inv| ==> inv[i].cantidad.None?
    ensures NewStock(inv, codigo, vendida) == Err(if Find(inv, Code, codigo).None? then NotFound else InvalidQuantity)
  {
    if Find(inv, Code, codigo).Some? {
      var i := FindIndex(inv, Code, codigo).value;
      assert Find(inv, Code, codigo).value == inv[i];
    }
  }

  /** The record `descontarStock` sends: `{ codigo, stock: nuevoStock }`, so `nombre` and
      `precio` are absent. */
  function StockRecord(codigo: string, nuevo: int): (r: Store.Record)
    ensures !Store.Complete(r) && Store.StoredKey(r.codigo) == Some(codigo) && r.stock == Some(nuevo)
  {
    Store.Record(None, Store.Text(codigo), None, Some(nuevo))
  }

  /** `update-inventario` never stores that record: an existing row fails the `NOT NULL`
      constraint on `nombre`, and a missing one matches no row. */
  lemma StockRecordNeverStored(t: Store.Table, codigo: string, nuevo: int)
    ensures Store.Edited(t, StockRecord(codigo, nuevo)) == if codigo in t then Err(Store.NotNullConstraintFailed) else Ok(t)
  {
  }

  class InventarioProvider {
    var inventario: seq<Product>
    /** `error`; `None` is `null`. */
    var error: Option<string>

    constructor ()
      ensures inventario == [] && error == None
    {
      inventario := [];
      error := None;
    }

    /** `cargarInventarioDesdeDB`; `leido` is `None` when the read fails. */
    method CargarInventario(leido: Option<seq<Product>>)
      modifies this
      ensures leido.Some? ==> inventario == leido.value && error == old(error)
      ensures leido.None? ==> inventario == old(inventario) && error == Some(LoadFailed)
    {
      if leido.Some? {
        inventario := leido.value;
      } else {
        error := Some(LoadFailed);
      }
    }

    /** `descontarStock(codigo, cantidadVendida)`, with `leido` the result of the reload that
        follows a stored update. The database is never changed. */
    method DescontarStock(db: Store.Database, codigo: string, vendida: int, leido: Option<seq<Product>>)
      modifies this, db
      ensures db.inventario == old(db.inventario)
      ensures NewStock(old(inventario), codigo, vendida).Err? ==>
                error == Some(NewStock(old(inventario), codigo, vendida).error) && inventario == old(inventario)
      ensures NewStock(old(inventario), codigo, vendida).Ok? && (codigo == "" || codigo in old(db.inventario)) ==>
                error == Some(DiscountFailed)
                && inventario == WithCantidad(old(inventario), codigo, NewStock(old(inventario), codigo, vendida).value)
      ensures NewStock(old(inventario), codigo, vendida).Ok? && codigo != "" && codigo !in old(db.inventario) ==>
                if leido.Some? then inventario == leido.value && error == old(error)
                else error == Some(LoadFailed)
                     && inventario == WithCantidad(old(inventario), codigo, NewStock(old(inventario), codigo, vendida).value)
    {
      var nuevo := NewStock(inventario, codigo, vendida);
      if nuevo.Err? {
        error := Some(nuevo.error);
        return;
      }
      inventario := WithCantidad(inventario, codigo, nuevo.value);
      if codigo == "" {
        // the bridge refuses a falsy `codigo` by throwing
        error := Some(DiscountFailed);
        return;
      }
      StockRecordNeverStored(db.inventario, codigo, nuevo.value);
      var respuesta := db.UpdateInventario(StockRecord(codigo, nuevo.value));
      if respuesta.Err? {
        error := Some(DiscountFailed);
        return;
      }
      CargarInventario(leido);
    }
  }
}
