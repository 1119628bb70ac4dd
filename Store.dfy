/** The main process (`main.mjs`): the SQLite `inventario` table and the IPC handlers that change it.
    The table is a map from `codigo` (the column is `UNIQUE`, so a map is exact) to the rest of the row.
    Each handler runs as one sequential step. */
module Store {
  import opened Wrappers
  import opened Text
  import opened Numbers

  /** A row of `inventario` apart from its `codigo` key and its rowid; `precio` in cents. */
  datatype Row = Row(nombre: string, precio: int, stock: int)

  type Table = map<string, Row>

  /** An error SQLite reports for a statement; the statement then changes nothing. */
  datatype SqlError = NotNullConstraintFailed | UniqueConstraintFailed

  /** A value the handlers receive from a spreadsheet cell or from the renderer:
      absent (`undefined`), a string, or an integral number. */
  datatype Cell = Missing | Text(text: string) | Number(number: int)

  /** A record `{ nombre, codigo, precio, stock }`; `None` is an absent field, which SQLite receives as NULL. */
  datatype Record = Record(nombre: Option<string>, codigo: Cell, precio: Option<int>, stock: Option<int>)

  const StockUpdated := "Stock actualizado con éxito"
  const NotFoundOrInsufficient := "No se encontró el producto o stock insuficiente"
  const SaleFailed := "Error al realizar la venta. Intenta nuevamente."
  const ProductUpdated := "Producto actualizado correctamente"
  const ProductNotFound := "No se encontró el producto"
  const ProductDeleted := "Producto eliminado con éxito"
  const InventoryDeleted := "Inventario eliminado con éxito"

  /** The surcharge `realizar-venta` applies to card payments, in percent (`total *= 1.06`). */
  const MainSurchargePercent := 6

  // ----- Text values of cells -----

  /** The text SQLite compares and stores for a cell bound to the TEXT column `codigo`;
      `None` for NULL. */
  function StoredKey(c: Cell): Option<string>
  {
    match c
    case Missing => None
    case Text(s) => Some(s)
    case Number(n) => Some(IntegerText(n))
  }

  /** JavaScript truthiness of a cell: not `undefined`, not `""` and not `0`. */
  predicate Truthy(c: Cell)
  {
    match c
    case Missing => false
    case Text(s) => s != ""
    case Number(n) => n != 0
  }

  /** The guard `producto.codigo && String(producto.codigo).trim() !== ''` of the two import loops:
      the key a record is written under, or `None` when the loop skips it. The key is not trimmed. */
  function ImportKey(c: Cell): (r: Option<string>)
    ensures r.Some? <==> Truthy(c) && !IsBlank(StoredKey(c).value)
    ensures r.Some? ==> r == StoredKey(c) && !IsBlank(r.value)
  {
    if Truthy(c) && !IsBlank(StoredKey(c).value) then StoredKey(c) else None
  }

  /** A record whose `nombre`, `precio` and `stock` are all present, so that none of the
      `NOT NULL` constraints fails. */
  predicate Complete(rec: Record)
  {
    rec.nombre.Some? && rec.precio.Some? && rec.stock.Some?
  }

  function RowOf(rec: Record): Row
    requires Complete(rec)
  {
    Row(rec.nombre.value, rec.precio.value, rec.stock.value)
  }

  // ----- updateStock -----

  /** The `WHERE codigo = ? AND stock >= ?` guard of `updateStock`. */
  predicate CanDecrement(t: Table, codigo: string, cantidad: int)
  {
    codigo in t && t[codigo].stock >= cantidad
  }

  /** The table after `UPDATE inventario SET stock = stock - cantidad WHERE codigo = ? AND stock >= cantidad`. */
  function StockDecremented(t: Table, codigo: string, cantidad: int): (r: Table)
    ensures r.Keys == t.Keys
    ensures forall k :: k in t && k != codigo ==> r[k] == t[k]
    ensures !CanDecrement(t, codigo, cantidad) ==> r == t
    ensures CanDecrement(t, codigo, cantidad) ==>
              r[codigo] == t[codigo].(stock := t[codigo].stock - cantidad)
  {
    if CanDecrement(t, codigo, cantidad) then
      t[codigo := t[codigo].(stock := t[codigo].stock - cantidad)]
    else
      t
  }

  predicate StocksNonNegative(t: Table)
  {
    forall k :: k in t ==> t[k].stock >= 0
  }

  /** A non-negative `cantidad` never takes a stock below zero through `updateStock`. */
  lemma UpdateStockKeepsStocksNonNegative(t: Table, codigo: string, cantidad: int)
    requires StocksNonNegative(t) && cantidad >= 0
    ensures StocksNonNegative(StockDecremented(t, codigo, cantidad))
  {
  }

  // ----- realizar-venta -----

  /** One line of a `realizar-venta` request. The handler reads the requested quantity from the
      line's `stock` field, which is `None` when the caller sent none. */
  datatype SaleLine = SaleLine(codigo: string, precio: int, stock: Option<int>)

  /** The request `venta`: its lines, `pagoConTarjeta`, and `pagoConEfectivo` in cents. */
  datatype Sale = Sale(productos: seq<SaleLine>, pagoConTarjeta: bool, pagoConEfectivo: Option<int>)

  /** The reply `{ total, vuelto }` in cents, unrounded; `None` stands for `NaN`. */
  datatype Receipt = Receipt(total: Option<real>, vuelto: Option<real>)

  /** The check of the validation loop: the code exists and, when the line has a quantity, the
      stored stock is not below it (`row.stock < undefined` is false, so a line without one passes). */
  predicate LineAvailable(t: Table, line: SaleLine)
  {
    line.codigo in t && (line.stock.Some? ==> t[line.codigo].stock >= line.stock.value)
  }

  predicate SaleAvailable(t: Table, lines: seq<SaleLine>)
    ensures (forall i :: 0 <= i < |lines| ==> lines[i].stock.None?) ==>
              (SaleAvailable(t, lines) <==> forall i :: 0 <= i < |lines| ==> lines[i].codigo in t)
  {
    forall i :: 0 <= i < |lines| ==> LineAvailable(t, lines[i])
  }

  /** `productos.reduce((acc, p) => acc + p.precio * p.stock, 0)`; one line without a quantity
      makes the sum `NaN`. */
  function Subtotal(lines: seq<SaleLine>): (r: Option<int>)
    ensures r.None? <==> exists i :: 0 <= i < |lines| && lines[i].stock.None?
    ensures r.Some? && (forall i :: 0 <= i < |lines| ==> lines[i].precio >= 0 && lines[i].stock.value >= 0) ==>
              r.value >= 0
    ensures |lines| == 1 ==> r == (if lines[0].stock.Some? then Some(lines[0].precio * lines[0].stock.value) else None)
  {
    if |lines| == 0 then Some(0)
    else
      var last := lines[|lines| - 1];
      match Subtotal(lines[..|lines| - 1])
      case None => None
      case Some(acc) =>
        if last.stock.None? then None else Some(acc + last.precio * last.stock.value)
  }

  /** The sum over two runs of lines joined is the sum of their sums, so with the one-line case
      of `Subtotal` it pins the sum to the lines' prices times quantities. */
  lemma {:induction false} SubtotalAppend(a: seq<SaleLine>, b: seq<SaleLine>)
    ensures Subtotal(a + b)
            == if Subtotal(a).Some? && Subtotal(b).Some? then Some(Subtotal(a).value + Subtotal(b).value) else None
    decreases |b|
  {
    if |b| == 0 {
      assert a + b == a;
    } else {
      SubtotalAppend(a, b[..|b| - 1]);
      assert (a + b)[..|a + b| - 1] == a + b[..|b| - 1];
    }
  }

  /** The total of a sale: the subtotal, times `(100 + percent) / 100` when paid by card. */
  function SaleTotal(sale: Sale, percent: int): (r: Option<real>)
    ensures r.None? <==> Subtotal(sale.productos).None?
    ensures r.Some? ==>
              r.value == if sale.pagoConTarjeta then (Subtotal(sale.productos).value * (100 + percent)) as real / 100.0
                         else Subtotal(sale.productos).value as real
  {
    match Subtotal(sale.productos)
    case None => None
    case Some(s) =>
      if sale.pagoConTarjeta then Some((s * (100 + percent)) as real / 100.0) else Some(s as real)
  }

  /** `pagoConEfectivo - total`, with no clamping; `NaN` when either side is. */
  function Change(pago: Option<int>, total: Option<real>): (r: Option<real>)
    ensures r.Some? <==> pago.Some? && total.Some?
    ensures r.Some? ==> total.value + r.value == pago.value as real
  {
    if pago.Some? && total.Some? then Some(pago.value as real - total.value) else None
  }

  /** A card sale of a non-negative subtotal costs at least the subtotal. */
  lemma CardTotalAtLeastSubtotal(sale: Sale, percent: int)
    requires sale.pagoConTarjeta && percent >= 0
    requires Subtotal(sale.productos).Some? && Subtotal(sale.productos).value >= 0
    ensures SaleTotal(sale, percent).value >= Subtotal(sale.productos).value as real
  {
    var s := Subtotal(sale.productos).value;
    assert s * (100 + percent) == 100 * s + s * percent;
    assert s * percent >= 0;
  }

  /** The change is not clamped: a payment below the total gives a negative `vuelto`. */
  lemma ChangeCanBeNegative()
    ensures Change(Some(1000), Some(1060.0)) == Some(-60.0)
  {
  }

  /** The effect of one `UPDATE inventario SET stock = stock - ? WHERE codigo = ?`. There is no
      stock guard; a line without a quantity binds NULL, `stock - NULL` violates `NOT NULL`,
      and that row is left as it is. */
  function SaleLineApplied(t: Table, line: SaleLine): (r: Table)
    ensures r.Keys == t.Keys
  {
    if line.stock.Some? && line.codigo in t then
      t[line.codigo := t[line.codigo].(stock := t[line.codigo].stock - line.stock.value)]
    else
      t
  }

  /** The decrements of a sale, applied line after line. */
  function SaleApplied(t: Table, lines: seq<SaleLine>): (r: Table)
    ensures r.Keys == t.Keys
  {
    if |lines| == 0 then t else SaleLineApplied(SaleApplied(t, lines[..|lines| - 1]), lines[|lines| - 1])
  }

  lemma SaleAppliedStep(t: Table, lines: seq<SaleLine>, i: nat)
    requires i < |lines|
    ensures SaleApplied(t, lines[..i + 1]) == SaleLineApplied(SaleApplied(t, lines[..i]), lines[i])
  {
    assert lines[..i + 1][..i] == lines[..i];
  }

  /** A sale whose lines carry no quantity (what the renderer of `Ventas.jsx` sends) changes no
      stock, and its total is `NaN` as soon as it has a line. */
  lemma {:induction false} SaleWithoutQuantitiesChangesNothing(t: Table, lines: seq<SaleLine>)
    requires forall i :: 0 <= i < |lines| ==> lines[i].stock.None?
    ensures SaleApplied(t, lines) == t
    ensures |lines| > 0 ==> Subtotal(lines).None?
    decreases |lines|
  {
    if |lines| > 0 {
      SaleWithoutQuantitiesChangesNothing(t, lines[..|lines| - 1]);
      assert lines[|lines| - 1].stock.None?;
    }
  }

  /** The total quantity the lines of a sale request for `codigo`. */
  function Requested(lines: seq<SaleLine>, codigo: string): int
  {
    if |lines| == 0 then 0
    else
      var last := lines[|lines| - 1];
      Requested(lines[..|lines| - 1], codigo)
        + (if last.codigo == codigo && last.stock.Some? then last.stock.value else 0)
  }

  /** After a sale, each row's stock is lowered by everything the sale requested for its code,
      and nothing else about any row changes. */
  lemma {:induction false} SaleAppliedSubtracts(t: Table, lines: seq<SaleLine>, k: string)
    requires k in t
    ensures SaleApplied(t, lines)[k] == t[k].(stock := t[k].stock - Requested(lines, k))
    decreases |lines|
  {
    if |lines| > 0 {
      SaleAppliedSubtracts(t, lines[..|lines| - 1], k);
    }
  }

  /** A code no line of the sale names is requested zero times. */
  lemma {:induction false} RequestedAbsent(lines: seq<SaleLine>, k: string)
    requires forall i :: 0 <= i < |lines| ==> lines[i].codigo != k
    ensures Requested(lines, k) == 0
    decreases |lines|
  {
    if |lines| > 0 {
      RequestedAbsent(lines[..|lines| - 1], k);
    }
  }

  /** A sale leaves every product it does not name exactly as it was. */
  lemma SaleLeavesOtherProducts(t: Table, lines: seq<SaleLine>, k: string)
    requires k in t
    requires forall i :: 0 <= i < |lines| ==> lines[i].codigo != k
    ensures SaleApplied(t, lines)[k] == t[k]
  {
    SaleAppliedSubtracts(t, lines, k);
    RequestedAbsent(lines, k);
  }

  /** Codes that appear at most once in a sale. */
  predicate DistinctCodes(lines: seq<SaleLine>)
  {
    forall i, j :: 0 <= i < j < |lines| ==> lines[i].codigo != lines[j].codigo
  }

  /** With distinct codes, what a validated sale requests of a product is at most its stock. */
  lemma {:induction false} RequestedWithinStock(t: Table, lines: seq<SaleLine>, k: string)
    requires k in t && t[k].stock >= 0
    requires DistinctCodes(lines) && SaleAvailable(t, lines)
    ensures Requested(lines, k) <= t[k].stock
    decreases |lines|
  {
    if |lines| > 0 {
      var init := lines[..|lines| - 1];
      var last := lines[|lines| - 1];
      assert SaleAvailable(t, init) by {
        forall i | 0 <= i < |init| ensures LineAvailable(t, init[i]) {
          assert init[i] == lines[i];
        }
      }
      if last.codigo == k {
        RequestedAbsent(init, k);
      } else {
        RequestedWithinStock(t, init, k);
      }
    }
  }

  /** A validated sale whose codes are distinct keeps every stock non-negative. */
  lemma DistinctSaleKeepsStocksNonNegative(t: Table, lines: seq<SaleLine>)
    requires StocksNonNegative(t) && DistinctCodes(lines) && SaleAvailable(t, lines)
    ensures StocksNonNegative(SaleApplied(t, lines))
  {
    forall k | k in SaleApplied(t, lines) ensures SaleApplied(t, lines)[k].stock >= 0 {
      SaleAppliedSubtracts(t, lines, k);
      RequestedWithinStock(t, lines, k);
    }
  }

  /** Validation checks each line on its own against the stock before the sale, so the same code
      on two lines can pass it and still drive the stock below zero. */
  lemma RepeatedCodeOverdraws()
    ensures var t := map["A" := Row("Aspirina", 100, 1)];
            var lines := [SaleLine("A", 100, Some(1)), SaleLine("A", 100, Some(1))];
            SaleAvailable(t, lines) && SaleApplied(t, lines)["A"].stock == -1
  {
    var t := map["A" := Row("Aspirina", 100, 1)];
    var lines := [SaleLine("A", 100, Some(1)), SaleLine("A", 100, Some(1))];
    assert lines[..1] == [lines[0]];
    assert lines[..1][..0] == [];
  }

  // ----- importar-excel -----

  /** One pass of the `importar-excel` loop: `INSERT ... ON CONFLICT(codigo) DO UPDATE SET nombre,
      precio, stock`. A record with a NULL field fails `NOT NULL` and changes nothing. */
  function Upserted(t: Table, rec: Record): (r: Table)
    ensures t.Keys <= r.Keys
    ensures forall k :: k in r && k !in t ==> ImportKey(rec.codigo) == Some(k)
  {
    match ImportKey(rec.codigo)
    case None => t
    case Some(k) => if Complete(rec) then t[k := RowOf(rec)] else t
  }

  /** The table after the `importar-excel` loop over `recs`. */
  function ImportAll(t: Table, recs: seq<Record>): (r: Table)
    ensures t.Keys <= r.Keys
  {
    if |recs| == 0 then t else Upserted(ImportAll(t, recs[..|recs| - 1]), recs[|recs| - 1])
  }

  /** Importing one more record is one more upsert. */
  lemma ImportAllStep(t: Table, recs: seq<Record>, rec: Record)
    ensures ImportAll(t, recs + [rec]) == Upserted(ImportAll(t, recs), rec)
  {
    assert (recs + [rec])[..|recs|] == recs;
  }

  /** The row the last complete record for `k` writes, if any. */
  function LastImported(recs: seq<Record>, k: string): Option<Row>
  {
    if |recs| == 0 then None
    else
      var last := recs[|recs| - 1];
      if ImportKey(last.codigo) == Some(k) && Complete(last) then Some(RowOf(last))
      else LastImported(recs[..|recs| - 1], k)
  }

  /** Upsert semantics: after the import a code holds the row of the last complete record that
      names it, or else what it held before; no other code appears. */
  lemma {:induction false} ImportAllCharacterized(t: Table, recs: seq<Record>, k: string)
    ensures k in ImportAll(t, recs) <==> k in t || LastImported(recs, k).Some?
    ensures k in ImportAll(t, recs) ==>
              ImportAll(t, recs)[k] == (if LastImported(recs, k).Some? then LastImported(recs, k).value else t[k])
    decreases |recs|
  {
    if |recs| > 0 {
      ImportAllCharacterized(t, recs[..|recs| - 1], k);
    }
  }

  /** Importing the same file twice gives the same table as importing it once. */
  lemma ImportIdempotent(t: Table, recs: seq<Record>)
    ensures ImportAll(ImportAll(t, recs), recs) == ImportAll(t, recs)
  {
    var once := ImportAll(t, recs);
    var twice := ImportAll(once, recs);
    forall k ensures (k in twice <==> k in once) && (k in once ==> twice[k] == once[k]) {
      ImportAllCharacterized(t, recs, k);
      ImportAllCharacterized(once, recs, k);
    }
  }

  /** The records the import loop counts in `productosInsertados`. */
  function ImportedCount(recs: seq<Record>): nat
  {
    if |recs| == 0 then 0
    else ImportedCount(recs[..|recs| - 1]) + (if ImportKey(recs[|recs| - 1].codigo).Some? then 1 else 0)
  }

  /** The records the import loop counts in `productosOmitidos`. */
  function SkippedCount(recs: seq<Record>): nat
  {
    if |recs| == 0 then 0
    else SkippedCount(recs[..|recs| - 1]) + (if ImportKey(recs[|recs| - 1].codigo).None? then 1 else 0)
  }

  lemma CountsStep(recs: seq<Record>, rec: Record)
    ensures ImportedCount(recs + [rec]) == ImportedCount(recs) + (if ImportKey(rec.codigo).Some? then 1 else 0)
    ensures SkippedCount(recs + [rec]) == SkippedCount(recs) + (if ImportKey(rec.codigo).None? then 1 else 0)
  {
    assert (recs + [rec])[..|recs|] == recs;
  }

  /** Every record is counted exactly once, as inserted or as skipped. */
  lemma {:induction false} ImportCountsCoverInput(recs: seq<Record>)
    ensures ImportedCount(recs) + SkippedCount(recs) == |recs|
    decreases |recs|
  {
    if |recs| > 0 {
      ImportCountsCoverInput(recs[..|recs| - 1]);
    }
  }

  // ----- insert-inventario -----

  /** The table and the counters `productosInsertados` / `productosOmitidos` of `insert-inventario`. */
  datatype Batch = Batch(table: Table, insertados: nat, omitidos: nat)

  /** One pass of the `insert-inventario` loop: a plain `INSERT`, which fails (and is counted as
      omitted) on a NULL field or on a code already in the table. */
  function Inserted(b: Batch, rec: Record): (r: Batch)
    ensures r.insertados + r.omitidos == b.insertados + b.omitidos + 1
    ensures ImportKey(rec.codigo).None? ==> r == b.(omitidos := b.omitidos + 1)
    ensures ImportKey(rec.codigo).Some? ==>
              (r.insertados == b.insertados + 1 <==> Complete(rec) && ImportKey(rec.codigo).value !in b.table)
    ensures r.insertados == b.insertados + 1 ==> r.table == b.table[ImportKey(rec.codigo).value := RowOf(rec)]
    ensures r.insertados == b.insertados ==> r.table == b.table
  {
    match ImportKey(rec.codigo)
    case None => b.(omitidos := b.omitidos + 1)
    case Some(k) =>
      if Complete(rec) && k !in b.table then
        Batch(b.table[k := RowOf(rec)], b.insertados + 1, b.omitidos)
      else
        b.(omitidos := b.omitidos + 1)
  }

  /** The outcome of the `insert-inventario` loop over `recs`, from empty counters. */
  function InsertAll(t: Table, recs: seq<Record>): (r: Batch)
    ensures t.Keys <= r.table.Keys
    ensures r.insertados <= |recs|
  {
    if |recs| == 0 then Batch(t, 0, 0) else Inserted(InsertAll(t, recs[..|recs| - 1]), recs[|recs| - 1])
  }

  /** The counters add up to the number of records, rows already in the table are never
      overwritten, and the table grows by exactly the rows counted as inserted. */
  lemma {:induction false} InsertAllCounts(t: Table, recs: seq<Record>)
    ensures var r := InsertAll(t, recs);
            && r.insertados + r.omitidos == |recs|
            && (forall k :: k in t ==> k in r.table && r.table[k] == t[k])
            && |r.table| == |t| + r.insertados
    decreases |recs|
  {
    if |recs| > 0 {
      InsertAllCounts(t, recs[..|recs| - 1]);
    }
  }

  /** The row the first complete record for `k` would insert, if any. */
  function FirstInserted(recs: seq<Record>, k: string): Option<Row>
  {
    if |recs| == 0 then None
    else
      var prev := FirstInserted(recs[..|recs| - 1], k);
      var last := recs[|recs| - 1];
      if prev.Some? then prev
      else if ImportKey(last.codigo) == Some(k) && Complete(last) then Some(RowOf(last))
      else None
  }

  /** Insert semantics, the counterpart of the upsert's: a code already in the table keeps its
      row, and a new code holds the row of the first complete record that names it, later ones
      failing on the unique constraint. */
  lemma {:induction false} InsertAllCharacterized(t: Table, recs: seq<Record>, k: string)
    ensures k in InsertAll(t, recs).table <==> k in t || FirstInserted(recs, k).Some?
    ensures k in t ==> InsertAll(t, recs).table[k] == t[k]
    ensures k !in t && FirstInserted(recs, k).Some? ==> InsertAll(t, recs).table[k] == FirstInserted(recs, k).value
    decreases |recs|
  {
    if |recs| > 0 {
      InsertAllCharacterized(t, recs[..|recs| - 1], k);
    }
  }

  /** Every record the import would skip for its code is omitted here too, and so is every
      incomplete or repeated one: no more rows are inserted than records are kept. */
  lemma {:induction false} InsertAllOmitsSkipped(t: Table, recs: seq<Record>)
    ensures InsertAll(t, recs).omitidos >= SkippedCount(recs)
    ensures InsertAll(t, recs).insertados <= ImportedCount(recs)
    decreases |recs|
  {
    if |recs| > 0 {
      InsertAllOmitsSkipped(t, recs[..|recs| - 1]);
    }
  }

  /** Inserting one more record is one more pass of the loop. */
  lemma InsertAllStep(t: Table, recs: seq<Record>, rec: Record)
    ensures InsertAll(t, recs + [rec]) == Inserted(InsertAll(t, recs), rec)
  {
    assert (recs + [rec])[..|recs|] == recs;
  }

  // ----- update-inventario -----

  /** `UPDATE inventario SET nombre = ?, precio = ?, stock = ? WHERE codigo = ?`. */
  function Edited(t: Table, rec: Record): (r: Result<Table, SqlError>)
    ensures r.Err? <==> StoredKey(rec.codigo).Some? && StoredKey(rec.codigo).value in t && !Complete(rec)
    ensures r.Ok? ==> r.value.Keys == t.Keys
    ensures r.Ok? ==> forall k :: k in t && Some(k) != StoredKey(rec.codigo) ==> r.value[k] == t[k]
    ensures StoredKey(rec.codigo).None? || StoredKey(rec.codigo).value !in t ==> r == Ok(t)
    ensures r.Ok? && StoredKey(rec.codigo).Some? && StoredKey(rec.codigo).value in t ==>
              Complete(rec) && r.value[StoredKey(rec.codigo).value] == RowOf(rec)
  {
    match StoredKey(rec.codigo)
    case None => Ok(t)
    case Some(k) =>
      if k !in t then Ok(t)
      else if !Complete(rec) then Err(NotNullConstraintFailed)
      else Ok(t[k := RowOf(rec)])
  }

  class Database {
    /** The `inventario` table. */
    var inventario: Table

    constructor ()
      ensures inventario == map[]
    {
      inventario := map[];
    }

    /** The `updateStock` handler. */
    method UpdateStock(codigo: string, cantidad: int) returns (message: string)
      modifies this
      ensures inventario == StockDecremented(old(inventario), codigo, cantidad)
      ensures message == (if CanDecrement(old(inventario), codigo, cantidad) then StockUpdated
                          else NotFoundOrInsufficient)
    {
      if codigo in inventario && inventario[codigo].stock >= cantidad {
        inventario := inventario[codigo := inventario[codigo].(stock := inventario[codigo].stock - cantidad)];
        message := StockUpdated;
      } else {
        message := NotFoundOrInsufficient;
      }
    }

    /** The `realizar-venta` handler, printing aside: validate every line, compute the total and
        the change, then decrement line by line. */
    method RealizarVenta(sale: Sale) returns (r: Result<Receipt, string>)
      modifies this
      ensures r.Err? <==> !SaleAvailable(old(inventario), sale.productos)
      ensures r.Err? ==> r.error == SaleFailed && inventario == old(inventario)
      ensures r.Ok? ==> inventario == SaleApplied(old(inventario), sale.productos)
      ensures r.Ok? ==> r.value.total == SaleTotal(sale, MainSurchargePercent)
                        && r.value.vuelto == Change(sale.pagoConEfectivo, r.value.total)
    {
      var disponible := Comprobar(sale.productos);
      if !disponible {
        return Err(SaleFailed);
      }
      var total := SaleTotal(sale, MainSurchargePercent);
      var vuelto := Change(sale.pagoConEfectivo, total);
      Descontar(sale.productos);
      r := Ok(Receipt(total, vuelto));
    }

    /** The first loop of `realizar-venta`: every line must name a stored product whose stock
        covers the requested quantity. */
    method Comprobar(lines: seq<SaleLine>) returns (disponible: bool)
      ensures disponible <==> SaleAvailable(inventario, lines)
    {
      var i := 0;
      while i < |lines|
        invariant 0 <= i <= |lines|
        invariant forall j :: 0 <= j < i ==> LineAvailable(inventario, lines[j])
      {
        var line := lines[i];
        if line.codigo !in inventario {
          return false;
        }
        if line.stock.Some? && inventario[line.codigo].stock < line.stock.value {
          return false;
        }
        i := i + 1;
      }
      return true;
    }

    /** The prepared `UPDATE` of `realizar-venta`, run once per line. */
    method Descontar(lines: seq<SaleLine>)
      modifies this
      ensures inventario == SaleApplied(old(inventario), lines)
    {
      var i := 0;
      while i < |lines|
        invariant 0 <= i <= |lines|
        invariant inventario == SaleApplied(old(inventario), lines[..i])
      {
        var line := lines[i];
        if line.stock.Some? && line.codigo in inventario {
          inventario := inventario[line.codigo := inventario[line.codigo].(stock := inventario[line.codigo].stock - line.stock.value)];
        }
        SaleAppliedStep(old(inventario), lines, i);
        i := i + 1;
      }
      assert lines[..|lines|] == lines;
    }

    /** The `importar-excel` handler on already-parsed spreadsheet rows. */
    method ImportarExcel(recs: seq<Record>) returns (insertados: nat, omitidos: nat)
      modifies this
      ensures inventario == ImportAll(old(inventario), recs)
      ensures insertados == ImportedCount(recs) && omitidos == SkippedCount(recs)
    {
      ghost var before := inventario;
      insertados, omitidos := 0, 0;
      var i := 0;
      while i < |recs|
        invariant 0 <= i <= |recs|
        invariant inventario == ImportAll(before, recs[..i])
        invariant insertados == ImportedCount(recs[..i]) && omitidos == SkippedCount(recs[..i])
      {
        var rec := recs[i];
        assert recs[..i + 1] == recs[..i] + [rec];
        ImportAllStep(before, recs[..i], rec);
        CountsStep(recs[..i], rec);
        var key := ImportKey(rec.codigo);
        if key.Some? {
          if Complete(rec) {
            inventario := inventario[key.value := RowOf(rec)];
          }
          insertados := insertados + 1;
        } else {
          omitidos := omitidos + 1;
        }
        i := i + 1;
      }
      assert recs[..|recs|] == recs;
    }

    /** The `insert-inventario` handler. */
    method InsertInventario(recs: seq<Record>) returns (insertados: nat, omitidos: nat)
      modifies this
      ensures Batch(inventario, insertados, omitidos) == InsertAll(old(inventario), recs)
    {
      ghost var before := inventario;
      insertados, omitidos := 0, 0;
      var i := 0;
      while i < |recs|
        invariant 0 <= i <= |recs|
        invariant Batch(inventario, insertados, omitidos) == InsertAll(before, recs[..i])
      {
        var rec := recs[i];
        assert recs[..i + 1] == recs[..i] + [rec];
        InsertAllStep(before, recs[..i], rec);
        var key := ImportKey(rec.codigo);
        if key.Some? {
          if Complete(rec) && key.value !in inventario {
            inventario := inventario[key.value := RowOf(rec)];
            insertados := insertados + 1;
          } else {
            omitidos := omitidos + 1;
          }
        } else {
          omitidos := omitidos + 1;
        }
        i := i + 1;
      }
      assert recs[..|recs|] == recs;
    }

    /** The `update-inventario` handler: a rejection on a SQL error, otherwise a message. */
    method UpdateInventario(rec: Record) returns (r: Result<string, SqlError>)
      modifies this
      ensures r.Err? <==> Edited(old(inventario), rec).Err?
      ensures Edited(old(inventario), rec).Err? ==> r == Err(NotNullConstraintFailed) && inventario == old(inventario)
      ensures Edited(old(inventario), rec).Ok? ==> inventario == Edited(old(inventario), rec).value
      ensures r.Ok? ==> r.value == (if StoredKey(rec.codigo).None? || StoredKey(rec.codigo).value !in old(inventario)
                                    then ProductNotFound else ProductUpdated)
      ensures r == Ok(ProductUpdated) ==> Complete(rec) && inventario[StoredKey(rec.codigo).value] == RowOf(rec)
    {
      var key := StoredKey(rec.codigo);
      if key.None? || key.value !in inventario {
        return Ok(ProductNotFound);
      }
      if !Complete(rec) {
        return Err(NotNullConstraintFailed);
      }
      inventario := inventario[key.value := RowOf(rec)];
      r := Ok(ProductUpdated);
    }

    /** The `delete-producto` handler. */
    method DeleteProducto(codigo: string) returns (message: string)
      modifies this
      ensures inventario == old(inventario) - {codigo}
      ensures message == (if codigo in old(inventario) then ProductDeleted else ProductNotFound)
    {
      if codigo in inventario {
        inventario := inventario - {codigo};
        message := ProductDeleted;
      } else {
        message := ProductNotFound;
      }
    }

    /** The `delete-inventario` handler: `DELETE FROM inventario`. */
    method DeleteInventario() returns (message: string)
      modifies this
      ensures inventario == map[]
      ensures message == InventoryDeleted
    {
      inventario := map[];
      message := InventoryDeleted;
    }
  }
}
