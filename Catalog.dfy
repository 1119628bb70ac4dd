/** An item of the renderer's inventory list: a row of `read-inventario` (`SELECT * FROM inventario`),
    with the price in cents. Rows read from the database carry no `cantidad`; the field is there
    because `descontarStock` reads it. */
module Catalog {
  import opened Wrappers

  datatype Product = Product(codigo: string, nombre: string, precio: int, stock: int, cantidad: Option<int>)

  /** `inventario.find(item => key(item) === target)`, as the index of the item found. */
  function FindIndex(inv: seq<Product>, key: Product -> string, target: string): (r: Option<nat>)
    ensures r.None? <==> forall j :: 0 <= j < |inv| ==> key(inv[j]) != target
    ensures r.Some? ==> r.value < |inv| && key(inv[r.value]) == target
                        && forall j :: 0 <= j < r.value ==> key(inv[j]) != target
  {
    FindIndexFrom(inv, key, target, 0)
  }

  function FindIndexFrom(inv: seq<Product>, key: Product -> string, target: string, i: nat): (r: Option<nat>)
    requires i <= |inv|
    requires forall j :: 0 <= j < i ==> key(inv[j]) != target
    ensures r.None? <==> forall j :: 0 <= j < |inv| ==> key(inv[j]) != target
    ensures r.Some? ==> i <= r.value < |inv| && key(inv[r.value]) == target
                        && forall j :: 0 <= j < r.value ==> key(inv[j]) != target
    decreases |inv| - i
  {
    if i == |inv| then None
    else if key(inv[i]) == target then Some(i)
    else FindIndexFrom(inv, key, target, i + 1)
  }

  /** The item `find` returns, if any. */
  function Find(inv: seq<Product>, key: Product -> string, target: string): (r: Option<Product>)
    ensures r.Some? <==> exists j :: 0 <= j < |inv| && key(inv[j]) == target
    ensures r.Some? ==> r.value in inv && key(r.value) == target
  {
    match FindIndex(inv, key, target)
    case None => None
    case Some(i) => Some(inv[i])
  }

  function Code(p: Product): string
  {
    p.codigo
  }
}
