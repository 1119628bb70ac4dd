/** The cart of the sale screens: the state updaters and totals that `Venta.jsx` and `Ventas.jsx`
    share line for line. A cart line is the inventory item spread with its own `cantidad`. */
module Cart {
  import opened Wrappers
  import opened Catalog
  import opened Numbers
  import opened Money

  /** `{ ...producto, cantidad }`. */
  datatype Line = Line(codigo: string, nombre: string, precio: int, stock: int, cantidad: int)

  function LineOf(p: Product, cantidad: int): Line
  {
    Line(p.codigo, p.nombre, p.precio, p.stock, cantidad)
  }

  datatype PaymentMethod = Efectivo | Tarjeta

  /** The surcharge the sale screens add for card payments, in percent (`total * 1.05`). */
  const CardSurchargePercent := 5

  /** Messages both sale screens show. */
  const OutOfStock := "Stock insuficiente para este producto."
  const UnknownProduct := "Producto no encontrado."
  const BelowOne := "La cantidad no puede ser menor que 1."
  const AboveStock := "No hay suficiente stock para esta cantidad."

  predicate HasCode(cart: seq<Line>, codigo: string)
  {
    exists i :: 0 <= i < |cart| && cart[i].codigo == codigo
  }

  /** At most one line per code. */
  predicate UniqueCodes(cart: seq<Line>)
  {
    forall i, j :: 0 <= i < j < |cart| ==> cart[i].codigo != cart[j].codigo
  }

  /** `cart.find(prod => prod.codigo === codigo)`, as the index of the line found. */
  function FindLine(cart: seq<Line>, codigo: string): (r: Option<nat>)
    ensures r.None? <==> !HasCode(cart, codigo)
    ensures r.Some? ==> r.value < |cart| && cart[r.value].codigo == codigo
                        && forall j :: 0 <= j < r.value ==> cart[j].codigo != codigo
  {
    FindFrom(cart, codigo, 0)
  }

  function FindFrom(cart: seq<Line>, codigo: string, i: nat): (r: Option<nat>)
    requires i <= |cart|
    requires forall j :: 0 <= j < i ==> cart[j].codigo != codigo
    ensures r.None? <==> !HasCode(cart, codigo)
    ensures r.Some? ==> i <= r.value < |cart| && cart[r.value].codigo == codigo
                        && forall j :: 0 <= j < r.value ==> cart[j].codigo != codigo
    decreases |cart| - i
  {
    if i == |cart| then None
    else if cart[i].codigo == codigo then Some(i)
    else FindFrom(cart, codigo, i + 1)
  }

  /** How many units of `codigo` a cart with unique codes holds. */
  function QuantityOf(cart: seq<Line>, codigo: string): int
  {
    match FindLine(cart, codigo)
    case None => 0
    case Some(i) => cart[i].cantidad
  }

  /** `prev.map(prod => prod.codigo === codigo ? { ...prod, cantidad: prod.cantidad + 1 } : prod)`. */
  function Incremented(cart: seq<Line>, codigo: string): (r: seq<Line>)
    ensures |r| == |cart|
    ensures forall i :: 0 <= i < |cart| ==> r[i].codigo == cart[i].codigo
  {
    seq(|cart|, i requires 0 <= i < |cart| =>
      if cart[i].codigo == codigo then cart[i].(cantidad := cart[i].cantidad + 1) else cart[i])
  }

  /** The `setProductos` updater of `agregarProducto`: a new code is appended with one unit; an
      existing code gains one unit unless its first line already holds `p.stock` or more. */
  function AddOne(cart: seq<Line>, p: Product): (r: seq<Line>)
    ensures HasCode(r, p.codigo)
    ensures |r| == |cart| + (if HasCode(cart, p.codigo) then 0 else 1)
    ensures forall c :: HasCode(cart, c) ==> HasCode(r, c)
  {
    match FindLine(cart, p.codigo)
    case None =>
      var r := cart + [LineOf(p, 1)];
      assert r[|cart|].codigo == p.codigo;
      assert forall i :: 0 <= i < |cart| ==> r[i] == cart[i];
      r
    case Some(i) => if cart[i].cantidad >= p.stock then cart else Incremented(cart, p.codigo)
  }

  /** Whether `AddOne` refuses because the line is at the product's stock. */
  predicate AtStockLimit(cart: seq<Line>, p: Product)
  {
    HasCode(cart, p.codigo) && cart[FindLine(cart, p.codigo).value].cantidad >= p.stock
  }

  /** Two carts with the same codes in the same places find the same lines. */
  lemma SameCodesSameFind(a: seq<Line>, b: seq<Line>, codigo: string)
    requires |a| == |b| && forall i :: 0 <= i < |a| ==> a[i].codigo == b[i].codigo
    ensures FindLine(a, codigo) == FindLine(b, codigo)
  {
    if HasCode(a, codigo) {
      var i := FindLine(a, codigo).value;
      assert b[i].codigo == codigo;
    }
  }

  /** Appending a line does not move the lines `find` sees first. */
  lemma FindAfterAppend(cart: seq<Line>, l: Line, codigo: string)
    ensures FindLine(cart + [l], codigo)
            == if HasCode(cart, codigo) then FindLine(cart, codigo)
               else if l.codigo == codigo then Some(|cart|) else None
  {
    var c := cart + [l];
    if HasCode(cart, codigo) {
      var i := FindLine(cart, codigo).value;
      assert c[i].codigo == codigo;
    } else if l.codigo == codigo {
      assert c[|cart|].codigo == codigo;
    } else {
      assert !HasCode(c, codigo) by {
        forall i | 0 <= i < |c| ensures c[i].codigo != codigo {
          if i < |cart| { assert c[i] == cart[i]; }
        }
      }
    }
  }

  /** Adding a product keeps one line per code, gives its code one more unit unless it is at the
      stock limit, and leaves every other code's quantity as it was. */
  lemma AddOneCounts(cart: seq<Line>, p: Product)
    requires UniqueCodes(cart)
    ensures UniqueCodes(AddOne(cart, p))
    ensures QuantityOf(AddOne(cart, p), p.codigo)
            == if AtStockLimit(cart, p) then QuantityOf(cart, p.codigo) else QuantityOf(cart, p.codigo) + 1
    ensures forall c :: c != p.codigo ==> QuantityOf(AddOne(cart, p), c) == QuantityOf(cart, c)
  {
    var r := AddOne(cart, p);
    if !HasCode(cart, p.codigo) {
      assert r == cart + [LineOf(p, 1)];
      forall c ensures FindLine(r, c) == if HasCode(cart, c) then FindLine(cart, c)
                                         else if c == p.codigo then Some(|cart|) else None {
        FindAfterAppend(cart, LineOf(p, 1), c);
      }
      assert UniqueCodes(r) by {
        forall i, j | 0 <= i < j < |r| ensures r[i].codigo != r[j].codigo {
          if j == |cart| {
            assert r[i] == cart[i];
          } else {
            assert r[i] == cart[i] && r[j] == cart[j];
          }
        }
      }
    } else if !AtStockLimit(cart, p) {
      forall c ensures FindLine(r, c) == FindLine(cart, c) {
        SameCodesSameFind(r, cart, c);
      }
    }
  }

  /** The `modificarCantidad` updater: every line with `codigo` gets `cantidad`. */
  function WithQuantity(cart: seq<Line>, codigo: string, cantidad: int): (r: seq<Line>)
    ensures |r| == |cart|
    ensures forall i :: 0 <= i < |cart| ==> r[i].codigo == cart[i].codigo
  {
    seq(|cart|, i requires 0 <= i < |cart| =>
      if cart[i].codigo == codigo then cart[i].(cantidad := cantidad) else cart[i])
  }

  /** Setting a quantity keeps one line per code, sets that code's quantity (when it is in the
      cart) and changes no other code's quantity; setting it again changes nothing. */
  lemma WithQuantityCounts(cart: seq<Line>, codigo: string, cantidad: int)
    requires UniqueCodes(cart)
    ensures UniqueCodes(WithQuantity(cart, codigo, cantidad))
    ensures QuantityOf(WithQuantity(cart, codigo, cantidad), codigo) == if HasCode(cart, codigo) then cantidad else 0
    ensures forall c :: c != codigo ==> QuantityOf(WithQuantity(cart, codigo, cantidad), c) == QuantityOf(cart, c)
    ensures WithQuantity(WithQuantity(cart, codigo, cantidad), codigo, cantidad) == WithQuantity(cart, codigo, cantidad)
  {
    var r := WithQuantity(cart, codigo, cantidad);
    forall c ensures FindLine(r, c) == FindLine(cart, c) {
      SameCodesSameFind(r, cart, c);
    }
  }

  /** The `eliminarProducto` updater: `prev.filter(prod => prod.codigo !== codigo)`. */
  function Without(cart: seq<Line>, codigo: string): (r: seq<Line>)
    ensures |r| <= |cart|
    ensures !HasCode(r, codigo)
    ensures forall l :: l in r <==> l in cart && l.codigo != codigo
  {
    if |cart| == 0 then []
    else
      var last := cart[|cart| - 1];
      Without(cart[..|cart| - 1], codigo) + (if last.codigo == codigo then [] else [last])
  }

  /** Removing works piecewise, so the lines that stay keep their order. */
  lemma {:induction false} WithoutAppend(a: seq<Line>, b: seq<Line>, codigo: string)
    ensures Without(a + b, codigo) == Without(a, codigo) + Without(b, codigo)
    decreases |b|
  {
    if |b| > 0 {
      var init := b[..|b| - 1];
      assert (a + b)[..|a + b| - 1] == a + init;
      WithoutAppend(a, init, codigo);
    } else {
      assert a + b == a;
    }
  }

  /** Removing a code that is not in the cart changes nothing, and removing twice is removing once. */
  lemma {:induction false} WithoutAbsent(cart: seq<Line>, codigo: string)
    requires !HasCode(cart, codigo)
    ensures Without(cart, codigo) == cart
    decreases |cart|
  {
    if |cart| > 0 {
      var init := cart[..|cart| - 1];
      AbsentFromInit(cart, codigo);
      WithoutAbsent(init, codigo);
      InitAndLast(cart);
    }
  }

  lemma InitAndLast(cart: seq<Line>)
    requires |cart| > 0
    ensures cart[..|cart| - 1] + [cart[|cart| - 1]] == cart
  {
  }

  lemma AbsentFromInit(cart: seq<Line>, codigo: string)
    requires |cart| > 0 && !HasCode(cart, codigo)
    ensures !HasCode(cart[..|cart| - 1], codigo) && cart[|cart| - 1].codigo != codigo
  {
    var init := cart[..|cart| - 1];
    forall i | 0 <= i < |init| ensures init[i].codigo != codigo {
      assert init[i] == cart[i];
    }
  }

  lemma WithoutIdempotent(cart: seq<Line>, codigo: string)
    ensures Without(Without(cart, codigo), codigo) == Without(cart, codigo)
  {
    WithoutAbsent(Without(cart, codigo), codigo);
  }

  /** `productos.reduce((sum, prod) => sum + prod.precio * prod.cantidad, 0)`, in cents. */
  function Subtotal(cart: seq<Line>): (r: int)
    ensures (forall i :: 0 <= i < |cart| ==> cart[i].precio >= 0 && cart[i].cantidad >= 0) ==> r >= 0
    ensures |cart| == 0 ==> r == 0
    ensures |cart| == 1 ==> r == cart[0].precio * cart[0].cantidad
  {
    if |cart| == 0 then 0
    else Subtotal(cart[..|cart| - 1]) + cart[|cart| - 1].precio * cart[|cart| - 1].cantidad
  }

  /** The sum over a concatenation is the sum of the sums. */
  lemma {:induction false} SubtotalAppend(a: seq<Line>, b: seq<Line>)
    ensures Subtotal(a + b) == Subtotal(a) + Subtotal(b)
    decreases |b|
  {
    if |b| > 0 {
      assert (a + b)[..|a + b| - 1] == a + b[..|b| - 1];
      SubtotalAppend(a, b[..|b| - 1]);
    } else {
      assert a + b == a;
    }
  }

  /** `calcularTotal`, in cents: the subtotal, with the card surcharge rounded to cents. */
  function Total(cart: seq<Line>, metodo: PaymentMethod): (r: int)
    ensures metodo == Efectivo ==> r == Subtotal(cart)
    ensures metodo == Tarjeta ==> -50 <= Subtotal(cart) * (100 + CardSurchargePercent) - 100 * r <= 50
  {
    if metodo == Tarjeta then Surcharged(Subtotal(cart), CardSurchargePercent) else Subtotal(cart)
  }

  /** `calcularTotal()` itself, the string `toFixed(2)` produces. `parseFloat` of it reads back
      the total in cents, so comparing against it compares against the rounded total. */
  function TotalText(cart: seq<Line>, metodo: PaymentMethod): (r: string)
    ensures var t := Total(cart, metodo);
            ParseFloat(r) == Some(Decimal(t < 0, if t < 0 then -t else t, 2))
  {
    ParseFloatOfFixedText(Total(cart, metodo));
    FixedText(Total(cart, metodo))
  }

  /** The signed numerator of a decimal. */
  function Numerator(d: Decimal): int
  {
    if d.negative then -(d.mantissa as int) else d.mantissa
  }

  /** `parseFloat(pago) >= total` for a total in cents, compared exactly; NaN compares false. */
  predicate PaysAtLeast(pago: Option<Decimal>, totalCents: int)
  {
    pago.Some? && Numerator(pago.value) * 100 >= totalCents * Pow10(pago.value.places)
  }

  /** `parseFloat(pago) < total` for a total in cents, compared exactly; NaN compares false. */
  predicate PaysLess(pago: Option<Decimal>, totalCents: int)
  {
    pago.Some? && Numerator(pago.value) * 100 < totalCents * Pow10(pago.value.places)
  }

  /** `calcularVuelto`, in cents: `(pago - total).toFixed(2)` when the payment covers the total,
      and `"0.00"` otherwise. With `p` the power of ten of the payment's decimal places, the exact
      change is `diff / p` cents, and the result is that amount to the nearest cent, halves up. */
  function ChangeDue(pago: string, totalCents: int): (r: int)
    ensures r >= 0
    ensures !PaysAtLeast(ParseFloat(pago), totalCents) ==> r == 0
    ensures PaysAtLeast(ParseFloat(pago), totalCents) ==>
              var d := ParseFloat(pago).value;
              var p: int := Pow10(d.places);
              var diff := Numerator(d) * 100 - totalCents * p;
              -p <= 2 * diff - 2 * p * r < p
  {
    var d := ParseFloat(pago);
    if PaysAtLeast(d, totalCents) then
      var p: int := Pow10(d.value.places);
      var diff := Numerator(d.value) * 100 - totalCents * p;
      ChangeRounded(diff, p, d.value.places)
    else 0
  }

  /** `DecimalCents` of `diff / (100 p)`, read back as `diff / p` cents rounded half up. */
  function ChangeRounded(diff: nat, p: int, places: nat): (r: nat)
    requires p == Pow10(places)
    ensures -p <= 2 * diff - 2 * p * r < p
  {
    var q: int := Pow10(places + 2);
    assert q == 100 * p by {
      assert Pow10(places + 2) == 10 * Pow10(places + 1);
      assert Pow10(places + 1) == 10 * Pow10(places);
    }
    var c := DecimalCents(Decimal(false, diff, places + 2));
    assert -q <= 2 * 100 * diff - 2 * q * c < q;
    assert 2 * q * c == 100 * (2 * p * c);
    c
  }

  /** The payment in cents, when it has at most two decimal places. */
  function PaidCents(d: Decimal): int
    requires d.places <= 2
  {
    Numerator(d) * Pow10(2 - d.places)
  }

  /** A payment with at most two decimal places ("25", "25.5", "25.50") covers the total exactly
      when its cents do, and then gets back exactly the difference; otherwise nothing. */
  lemma ChangeOfShortPayment(pago: string, totalCents: int)
    requires ParseFloat(pago).Some? && ParseFloat(pago).value.places <= 2
    ensures PaysAtLeast(ParseFloat(pago), totalCents) <==> PaidCents(ParseFloat(pago).value) >= totalCents
    ensures ChangeDue(pago, totalCents) ==
              var paid := PaidCents(ParseFloat(pago).value);
              if paid >= totalCents then paid - totalCents else 0
  {
    ShortPaymentChange(ParseFloat(pago).value, totalCents, ChangeDue(pago, totalCents));
  }

  /** The step of `ChangeOfShortPayment` on the parsed decimal: a change rounded from `diff / p`
      cents is exact, since `diff` is a multiple of `p`. */
  lemma ShortPaymentChange(d: Decimal, totalCents: int, r: int)
    requires d.places <= 2
    requires !PaysAtLeast(Some(d), totalCents) ==> r == 0
    requires PaysAtLeast(Some(d), totalCents) ==>
               var p: int := Pow10(d.places);
               -p <= 2 * (Numerator(d) * 100 - totalCents * p) - 2 * p * r < p
    ensures PaysAtLeast(Some(d), totalCents) <==> PaidCents(d) >= totalCents
    ensures r == if PaidCents(d) >= totalCents then PaidCents(d) - totalCents else 0
  {
    var p: int := Pow10(d.places);
    var q: int := Pow10(2 - d.places);
    assert p * q == 100 by {
      assert Pow10(2) == 100 && Pow10(1) == 10;
    }
    var x := PaidCents(d) - totalCents;
    Distribute(p, q, Numerator(d), totalCents);
    ScaledOrder(p, x);
    if PaysAtLeast(Some(d), totalCents) {
      RoundedExact(p, x, r);
    }
  }

  /** A payment of `n / p` less a total of `t` cents, counted in `1 / (100 p)`, is `p` times the
      difference in cents `n q - t`, when `p q` is a hundred. */
  lemma Distribute(p: int, q: int, n: int, t: int)
    requires p * q == 100
    ensures n * 100 - t * p == p * (n * q - t)
  {
    assert p * (n * q - t) == p * (n * q) - p * t;
    assert p * (n * q) == (p * q) * n;
  }

  /** An amount `x` that is already whole, rounded from `x p / p`, is `x`. */
  lemma RoundedExact(p: int, x: int, r: int)
    requires p >= 1 && -p <= 2 * (p * x) - 2 * p * r < p
    ensures r == x
  {
    var k := x - r;
    assert 2 * p * k == 2 * (p * x) - 2 * p * r;
    ScaledZero(p, k);
  }

  /** Multiplying by a positive factor keeps the sign, and a non-zero product is at least `p`
      away from zero. */
  lemma {:induction false} ScaledOrder(p: int, x: int)
    requires p >= 1
    ensures x >= 0 ==> p * x >= 0
    ensures x >= 1 ==> p * x >= p
    ensures x < 0 ==> p * x <= -p
    decreases if x < 0 then -x else x
  {
    if x > 0 {
      assert p * x == p * (x - 1) + p;
      ScaledOrder(p, x - 1);
    } else if x < 0 {
      assert p * x == p * (x + 1) - p;
      ScaledOrder(p, x + 1);
    }
  }

  /** Only zero, scaled by `2 p`, lies in `[-p, p)`. */
  lemma ScaledZero(p: int, k: int)
    requires p >= 1 && -p <= 2 * p * k < p
    ensures k == 0
  {
    ScaledOrder(2 * p, k);
  }
}
