/** The inventory screen `Inventario.jsx`: turning the rows of a spreadsheet into records for
    `insert-inventario` under a user-chosen column mapping, the new-product form, and the
    exact-code search. Spreadsheet cells arrive already parsed. */
module Inventario {
  import opened Wrappers
  import opened Text
  import opened Numbers
  import opened Money
  import opened Catalog
  import opened Store

  /** `columnMapping`: the header chosen for each field; `""` when none is chosen. */
  datatype ColumnMapping = ColumnMapping(nombre: string, codigo: string, precio: string, stock: string)

  predicate MappingComplete(m: ColumnMapping)
  {
    m.nombre != "" && m.codigo != "" && m.precio != "" && m.stock != ""
  }

  /** `headers.findIndex(header => normalizeHeader(header) === normalizeHeader(column))`:
      the first header equal to `column` once both are trimmed and lowercased, or -1. */
  function HeaderIndex(headers: seq<string>, column: string): (r: int)
    ensures -1 <= r < |headers|
    ensures r == -1 <==> forall j :: 0 <= j < |headers| ==> Normalize(headers[j]) != Normalize(column)
    ensures r >= 0 ==> Normalize(headers[r]) == Normalize(column)
                       && forall j :: 0 <= j < r ==> Normalize(headers[j]) != Normalize(column)
  {
    HeaderIndexFrom(headers, Normalize, Normalize(column), 0)
  }

  /** The first index from `i` on whose header has the `key` sought, or -1. */
  function HeaderIndexFrom(headers: seq<string>, key: string -> string, target: string, i: nat): (r: int)
    requires i <= |headers|
    requires forall j :: 0 <= j < i ==> key(headers[j]) != target
    ensures -1 <= r < |headers|
    ensures r == -1 <==> forall j :: 0 <= j < |headers| ==> key(headers[j]) != target
    ensures r >= 0 ==> i <= r && key(headers[r]) == target
                       && forall j :: 0 <= j < r ==> key(headers[j]) != target
    decreases |headers| - i
  {
    if i == |headers| then -1
    else if key(headers[i]) == target then i
    else HeaderIndexFrom(headers, key, target, i + 1)
  }

  /** Header matching ignores case and surrounding whitespace on both sides: a chosen column
      that normalizes like a header finds the same column as that header. */
  lemma HeaderIndexNormalized(headers: seq<string>, a: string, b: string)
    requires Normalize(a) == Normalize(b)
    ensures HeaderIndex(headers, a) == HeaderIndex(headers, b)
  {
  }

  /** `row[i]`: `undefined` outside the row, including at index -1. */
  function CellAt(row: seq<Cell>, i: int): Cell
  {
    if 0 <= i < |row| then row[i] else Missing
  }

  /** `parseFloat(cell)`: a number is itself, a string is parsed, `undefined` is NaN. */
  function CellFloat(c: Cell): Option<Decimal>
  {
    match c
    case Missing => None
    case Text(s) => ParseFloat(s)
    case Number(n) => Some(Decimal(n < 0, if n < 0 then -n else n, 0))
  }

  /** `parseInt(cell)`: a number is itself, a string is parsed, `undefined` is NaN. */
  function CellInt(c: Cell): Option<int>
  {
    match c
    case Missing => None
    case Text(s) => ParseInt(s)
    case Number(n) => Some(n)
  }

  /** `parseFloat(cell) || 0.0`, then `toFixed(2)`, in cents. NaN and zero both fall back to 0. */
  function PriceOf(c: Cell): (r: int)
    ensures CellFloat(c).None? ==> r == 0
    ensures CellFloat(c).Some? ==> r == DecimalCents(CellFloat(c).value)
  {
    match CellFloat(c)
    case None => 0
    case Some(d) =>
      DecimalCentsOfZero(d.negative, d.places);
      if d.mantissa == 0 then 0 else DecimalCents(d)
  }

  /** `parseInt(cell) || 0`. */
  function StockOf(c: Cell): (r: int)
    ensures r == (if CellInt(c).Some? then CellInt(c).value else 0)
  {
    match CellInt(c)
    case None => 0
    case Some(n) => if n == 0 then 0 else n
  }

  /** `row[codigoIndex] ? row[codigoIndex].toString().trim() : ""`. */
  function CodeOf(c: Cell): (r: string)
    ensures r == Trim(r)
    ensures r != "" ==> Truthy(c)
    ensures r != "" <==> ImportKey(c).Some?
    ensures Truthy(c) ==> r == Trim(StoredKey(c).value)
  {
    if Truthy(c) then
      TrimIdempotent(StoredKey(c).value);
      Trim(StoredKey(c).value)
    else ""
  }

  /** One row under the column indices: the record it yields, or `None` when its name or its
      code is empty. */
  function MapRow(row: seq<Cell>, ni: int, ci: int, pi: int, si: int): (r: Option<Record>)
    ensures r.Some? <==> Truthy(CellAt(row, ni)) && CodeOf(CellAt(row, ci)) != ""
    ensures r.Some? ==> r.value == Record(StoredKey(CellAt(row, ni)), Text(CodeOf(CellAt(row, ci))),
                                           Some(PriceOf(CellAt(row, pi))), Some(StockOf(CellAt(row, si))))
  {
    var nombre := CellAt(row, ni);
    var codigo := CodeOf(CellAt(row, ci));
    if Truthy(nombre) && codigo != "" then
      Some(Record(StoredKey(nombre), Text(codigo), Some(PriceOf(CellAt(row, pi))), Some(StockOf(CellAt(row, si)))))
    else None
  }

  /** `inventario.map(...).filter(product => product !== null)`. */
  function MapRows(rows: seq<seq<Cell>>, ni: int, ci: int, pi: int, si: int): (r: seq<Record>)
    ensures |r| <= |rows|
    ensures |rows| == 0 ==> r == []
    ensures |rows| == 1 ==>
              r == (if MapRow(rows[0], ni, ci, pi, si).Some? then [MapRow(rows[0], ni, ci, pi, si).value] else [])
  {
    if |rows| == 0 then []
    else
      var last := MapRow(rows[|rows| - 1], ni, ci, pi, si);
      MapRows(rows[..|rows| - 1], ni, ci, pi, si) + (if last.Some? then [last.value] else [])
  }

  /** `saveInventario`: the records sent to `insert-inventario`, or `None` when a column is not
      chosen and nothing is sent. */
  function SaveInventario(m: ColumnMapping, headers: seq<string>, rows: seq<seq<Cell>>): (r: Option<seq<Record>>)
    ensures r.Some? <==> MappingComplete(m)
    ensures r.Some? ==> r.value == MapRows(rows, HeaderIndex(headers, m.nombre), HeaderIndex(headers, m.codigo),
                                           HeaderIndex(headers, m.precio), HeaderIndex(headers, m.stock))
  {
    if !MappingComplete(m) then None
    else
      Some(MapRows(rows, HeaderIndex(headers, m.nombre), HeaderIndex(headers, m.codigo),
                   HeaderIndex(headers, m.precio), HeaderIndex(headers, m.stock)))
  }

  /** A record the import sends: complete, under a trimmed code that `insert-inventario` does not
      skip. */
  predicate Sendable(rec: Record)
  {
    Complete(rec) && rec.codigo.Text? && rec.codigo.text == Trim(rec.codigo.text)
    && ImportKey(rec.codigo) == Some(rec.codigo.text)
  }

  /** The record one row yields, if any, is sendable. */
  lemma MapRowSendable(row: seq<Cell>, ni: int, ci: int, pi: int, si: int)
    ensures MapRow(row, ni, ci, pi, si).Some? ==> Sendable(MapRow(row, ni, ci, pi, si).value)
  {
    var r := MapRow(row, ni, ci, pi, si);
    if r.Some? {
      var k := r.value.codigo.text;
      assert k != "" && k == Trim(k);
      assert !IsBlank(k);
    }
  }

  /** Every record of an import is sendable, so `insert-inventario` omits one only when its code
      is already in the table. */
  lemma {:induction false} MapRowsSendable(rows: seq<seq<Cell>>, ni: int, ci: int, pi: int, si: int)
    ensures forall i :: 0 <= i < |MapRows(rows, ni, ci, pi, si)| ==> Sendable(MapRows(rows, ni, ci, pi, si)[i])
    decreases |rows|
  {
    if |rows| > 0 {
      var init := rows[..|rows| - 1];
      MapRowsSendable(init, ni, ci, pi, si);
      MapRowSendable(rows[|rows| - 1], ni, ci, pi, si);
      var prev := MapRows(init, ni, ci, pi, si);
      var last := MapRow(rows[|rows| - 1], ni, ci, pi, si);
      var r := MapRows(rows, ni, ci, pi, si);
      assert r == prev + (if last.Some? then [last.value] else []);
      forall i | 0 <= i < |r|
        ensures Sendable(r[i])
      {
        if i < |prev| {
          assert r[i] == prev[i];
        }
      }
    }
  }

  /** The import maps rows piecewise, so the records keep the order of their rows. */
  lemma {:induction false} MapRowsAppend(a: seq<seq<Cell>>, b: seq<seq<Cell>>, ni: int, ci: int, pi: int, si: int)
    ensures MapRows(a + b, ni, ci, pi, si) == MapRows(a, ni, ci, pi, si) + MapRows(b, ni, ci, pi, si)
    decreases |b|
  {
    if |b| > 0 {
      assert (a + b)[..|a + b| - 1] == a + b[..|b| - 1];
      MapRowsAppend(a, b[..|b| - 1], ni, ci, pi, si);
    } else {
      assert a + b == a;
    }
  }

  /** A row whose cells are a name, a code, a price written with two decimals and a stock written
      as an integer yields exactly that record, with the code trimmed. */
  lemma MapRowOfTexts(nombre: string, codigo: string, cents: nat, stock: int)
    requires nombre != "" && !IsBlank(codigo)
    ensures MapRow([Text(nombre), Text(codigo), Text(FixedText(cents)), Text(IntegerText(stock))], 0, 1, 2, 3)
            == Some(Record(Some(nombre), Text(Trim(codigo)), Some(cents as int), Some(stock)))
  {
    var row := [Text(nombre), Text(codigo), Text(FixedText(cents)), Text(IntegerText(stock))];
    assert CellAt(row, 0) == Text(nombre) && CellAt(row, 1) == Text(codigo);
    assert CellAt(row, 2) == Text(FixedText(cents)) && CellAt(row, 3) == Text(IntegerText(stock));
    PriceOfFixedText(cents);
    StockOfIntegerText(stock);
  }

  lemma PriceOfFixedText(cents: nat)
    ensures PriceOf(Text(FixedText(cents))) == cents
  {
    ParseFloatOfFixedText(cents);
    DecimalCentsOfCents(false, cents);
  }

  lemma StockOfIntegerText(stock: int)
    ensures StockOf(Text(IntegerText(stock))) == stock
  {
    ParseIntOfIntegerText(stock, "");
    assert IntegerText(stock) + "" == IntegerText(stock);
  }

  /** The new-product form: the four fields as typed. */
  datatype NewProduct = NewProduct(nombre: string, codigo: string, precio: string, stock: string)

  /** `saveNewProduct`: `None` when a field is empty (nothing is sent); otherwise the one record
      sent to `insert-inventario`, the code untrimmed, the price `parseFloat(precio).toFixed(2)`
      in cents and the stock `parseInt(stock)`; a field that does not parse is sent as NULL. */
  function SaveNewProduct(p: NewProduct): (r: Option<Record>)
    ensures r.Some? <==> p.nombre != "" && p.codigo != "" && p.precio != "" && p.stock != ""
    ensures r.Some? ==> r.value.nombre == Some(p.nombre) && r.value.codigo == Text(p.codigo)
    ensures r.Some? ==> (r.value.precio.Some? <==> ParseFloat(p.precio).Some?)
                        && (r.value.stock.Some? <==> ParseInt(p.stock).Some?)
  {
    if p.nombre == "" || p.codigo == "" || p.precio == "" || p.stock == "" then None
    else
      var precio := match ParseFloat(p.precio) case None => None case Some(d) => Some(DecimalCents(d));
      Some(Record(Some(p.nombre), Text(p.codigo), precio, ParseInt(p.stock)))
  }

  /** A form whose fields are all blank-free numbers sends a complete record. */
  lemma SaveNewProductComplete(nombre: string, codigo: string, cents: nat, stock: int)
    requires nombre != "" && codigo != ""
    ensures var r := SaveNewProduct(NewProduct(nombre, codigo, FixedText(cents), IntegerText(stock)));
            r.Some? && Complete(r.value) && r.value.precio == Some(cents as int) && r.value.stock == Some(stock)
  {
    ParseFloatOfFixedText(cents);
    DecimalCentsOfCents(false, cents);
    ParseIntOfIntegerText(stock, "");
    assert IntegerText(stock) + "" == IntegerText(stock);
  }

  /** `handleSearch`: the first item whose code equals the trimmed search text; `None` means the
      search field is cleared. */
  function HandleSearch(inv: seq<Product>, searchCode: string): (r: Option<Product>)
    ensures r.Some? <==> exists j :: 0 <= j < |inv| && inv[j].codigo == Trim(searchCode)
    ensures r.Some? ==> r == Some(inv[FindIndex(inv, Code, Trim(searchCode)).value])
                        && r.value.codigo == Trim(searchCode)
  {
    Find(inv, Code, Trim(searchCode))
  }

  /** The search is exact on the stored code: padding the search text changes nothing, and a code
      stored with padding is never found. */
  lemma HandleSearchTrimsOnlyTheQuery(inv: seq<Product>, searchCode: string)
    ensures HandleSearch(inv, " " + searchCode + " ") == HandleSearch(inv, searchCode)
    ensures forall p :: p in inv && p.codigo != Trim(p.codigo) ==> HandleSearch(inv, p.codigo) != Some(p)
  {
    TrimPadded(" ", searchCode, " ");
    forall p | p in inv && p.codigo != Trim(p.codigo)
      ensures HandleSearch(inv, p.codigo) != Some(p)
    {
      TrimIdempotent(p.codigo);
    }
  }
}
