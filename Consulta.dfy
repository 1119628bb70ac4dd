/** The price-check screen `Consulta.jsx`: look a product up by its code, ignoring case and
    surrounding whitespace, and show it in a dialog. */
module Consulta {
  import opened Wrappers
  import opened Text
  import opened Catalog

  /** `String(item.codigo).trim().toLowerCase()`. */
  function NormalizedCode(p: Product): string
  {
    Normalize(p.codigo)
  }

  /** The screen's state: `productoEncontrado` and `isModalOpen`. */
  datatype ConsultaState = ConsultaState(productoEncontrado: Option<Product>, isModalOpen: bool)

  /** `handleSearchProduct`: the first item whose normalised code equals the normalised query is
      shown in the open dialog; with no match the state stays as it was. */
  function HandleSearchProduct(inv: seq<Product>, st: ConsultaState, codigoBuscar: string): (r: ConsultaState)
    ensures (forall j :: 0 <= j < |inv| ==> Normalize(inv[j].codigo) != Normalize(codigoBuscar)) ==> r == st
    ensures (exists j :: 0 <= j < |inv| && Normalize(inv[j].codigo) == Normalize(codigoBuscar)) ==>
              r.isModalOpen && r.productoEncontrado.Some?
              && r.productoEncontrado.value in inv
              && Normalize(r.productoEncontrado.value.codigo) == Normalize(codigoBuscar)
  {
    match Find(inv, NormalizedCode, Normalize(codigoBuscar))
    case None => st
    case Some(p) => ConsultaState(Some(p), true)
  }

  /** When several items match, the first in inventory order is shown. */
  lemma HandleSearchFindsFirst(inv: seq<Product>, st: ConsultaState, codigoBuscar: string, i: nat)
    requires i < |inv| && Normalize(inv[i].codigo) == Normalize(codigoBuscar)
    requires forall j :: 0 <= j < i ==> Normalize(inv[j].codigo) != Normalize(codigoBuscar)
    ensures HandleSearchProduct(inv, st, codigoBuscar) == ConsultaState(Some(inv[i]), true)
  {
    var r := FindIndex(inv, NormalizedCode, Normalize(codigoBuscar));
    assert NormalizedCode(inv[i]) == Normalize(codigoBuscar);
    assert r.Some?;
  }

  /** The lookup ignores the case and the surrounding whitespace of the query. */
  lemma HandleSearchInsensitive(inv: seq<Product>, st: ConsultaState, codigoBuscar: string, x: string, y: string)
    requires IsBlank(x) && IsBlank(y)
    ensures HandleSearchProduct(inv, st, x + codigoBuscar + y) == HandleSearchProduct(inv, st, codigoBuscar)
    ensures HandleSearchProduct(inv, st, ToLower(codigoBuscar)) == HandleSearchProduct(inv, st, codigoBuscar)
  {
    NormalizeInsensitive(x, codigoBuscar, y);
  }

  /** Searching for an item's own code, in any case and with any padding, shows an item with the
      same normalised code. */
  lemma HandleSearchFindsOwnCode(inv: seq<Product>, st: ConsultaState, p: Product)
    requires p in inv
    ensures var r := HandleSearchProduct(inv, st, ToLower(p.codigo));
            r.isModalOpen && r.productoEncontrado.Some? && Normalize(r.productoEncontrado.value.codigo) == Normalize(p.codigo)
  {
    NormalizeInsensitive("", p.codigo, "");
    var j :| 0 <= j < |inv| && inv[j] == p;
    assert Normalize(inv[j].codigo) == Normalize(ToLower(p.codigo));
  }

  /** `closeModal`. */
  function CloseModal(st: ConsultaState): (r: ConsultaState)
    ensures r.productoEncontrado.None? && !r.isModalOpen
  {
    ConsultaState(None, false)
  }
}
