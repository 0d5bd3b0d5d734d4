/**
 * The shopping cart of the script: the global `carrito` array of
 * `{nombre, precio, cantidad}` lines, one per product name.  Adding a name
 * already present raises that line's quantity (script.js:262-264),
 * removing splices one line out (script.js:168-169), the badge shows the
 * sum of quantities (script.js:139-142), the cart listing and the order
 * message sum `precio * cantidad` over the lines (script.js:153-164,
 * 288-306), and sending the order empties the cart (script.js:320).
 */
module Cart {
  import opened JsNumber

  /** One cart line; `precio` is NaN when the card's price did not parse. */
  datatype Linea = Linea(nombre: string, precio: Number, cantidad: nat)

  /** One line of the cart listing or of the order message: name,
      quantity and `precio * cantidad`. */
  datatype Detalle = Detalle(nombre: string, cantidad: nat, subtotal: Number)

  /** `p.precio * p.cantidad`: a number exactly when the price parsed, and
      zero for an empty line. */
  function Subtotal(l: Linea): (r: Number)
    ensures r.Some? <==> l.precio.Some?
    ensures l.cantidad == 0 && l.precio.Some? ==> r == Some(0.0)
  {
    Times(l.precio, l.cantidad)
  }

  /** No two lines share a name. */
  predicate NombresDistintos(lineas: seq<Linea>) {
    forall i, j | 0 <= i < j < |lineas| :: lineas[i].nombre != lineas[j].nombre
  }

  /** The cart invariant: one line per name, every quantity at least 1. */
  predicate Bien(lineas: seq<Linea>) {
    NombresDistintos(lineas) && forall i | 0 <= i < |lineas| :: lineas[i].cantidad >= 1
  }

  /** The index `carrito.find(p => p.nombre === nombre)` stops at, or -1. */
  function Buscar(lineas: seq<Linea>, nombre: string): (k: int)
    ensures -1 <= k < |lineas|
    ensures k >= 0 ==> lineas[k].nombre == nombre
    ensures k >= 0 ==> forall j | 0 <= j < k :: lineas[j].nombre != nombre
    ensures k < 0 ==> forall j | 0 <= j < |lineas| :: lineas[j].nombre != nombre
  {
    if |lineas| == 0 then -1
    else if lineas[0].nombre == nombre then 0
    else
      var k := Buscar(lineas[1..], nombre);
      if k < 0 then -1 else k + 1
  }

  /** The cart after a click on "Agregar al carrito" for `nombre`. */
  function Agregado(lineas: seq<Linea>, nombre: string, precio: Number): (r: seq<Linea>)
    ensures |lineas| <= |r| <= |lineas| + 1
    ensures exists j | 0 <= j < |r| :: r[j].nombre == nombre && r[j].cantidad >= 1
  {
    var k := Buscar(lineas, nombre);
    if k >= 0 then
      var r := lineas[k := lineas[k].(cantidad := lineas[k].cantidad + 1)];
      assert r[k].nombre == nombre;
      r
    else
      var r := lineas + [Linea(nombre, precio, 1)];
      assert r[|lineas|].nombre == nombre;
      r
  }

  /** `carrito.splice(idx, 1)`: a negative index counts from the end, and
      an index past the end removes nothing. */
  function Eliminado(lineas: seq<Linea>, idx: int): (r: seq<Linea>)
    ensures |lineas| - 1 <= |r| <= |lineas|
    ensures forall i | 0 <= i < |r| :: r[i] in lineas
  {
    var n := |lineas|;
    var start := if idx < 0 then (if n + idx < 0 then 0 else n + idx)
                 else (if idx > n then n else idx);
    if start < n then lineas[..start] + lineas[start + 1..] else lineas
  }

  /** `carrito.reduce((acc, p) => acc + p.cantidad, 0)`. */
  function Cantidad(lineas: seq<Linea>): (r: nat)
    ensures forall i | 0 <= i < |lineas| :: lineas[i].cantidad <= r
  {
    if |lineas| == 0 then 0
    else Cantidad(lineas[..|lineas| - 1]) + lineas[|lineas| - 1].cantidad
  }

  /** The running `total += p.precio * p.cantidad`, left to right. */
  function Total(lineas: seq<Linea>): (r: Number)
    ensures r.Some? <==> forall i | 0 <= i < |lineas| :: lineas[i].precio.Some?
  {
    if |lineas| == 0 then Some(0.0)
    else Plus(Total(lineas[..|lineas| - 1]), Subtotal(lineas[|lineas| - 1]))
  }

  /** The global cart. */
  class Carrito {
    var lineas: seq<Linea>

    ghost predicate Valid()
      reads this
    {
      Bien(lineas)
    }

    constructor ()
      ensures Valid() && lineas == []
    {
      lineas := [];
    }

    /** The "agregar-carrito" branch of the click handler. */
    method Agregar(nombre: string, precio: Number)
      requires Valid()
      modifies this
      ensures Valid()
      ensures lineas == Agregado(old(lineas), nombre, precio)
    {
      var k := 0;
      while k < |lineas| && lineas[k].nombre != nombre
        invariant 0 <= k <= |lineas|
        invariant forall j | 0 <= j < k :: lineas[j].nombre != nombre
      {
        k := k + 1;
      }
      if k < |lineas| {
        lineas := lineas[k := lineas[k].(cantidad := lineas[k].cantidad + 1)];
      } else {
        lineas := lineas + [Linea(nombre, precio, 1)];
      }
      AgregarBien(old(lineas), nombre, precio);
    }

    /** `eliminarProducto(idx)`. */
    method EliminarProducto(idx: int)
      requires Valid()
      modifies this
      ensures Valid()
      ensures lineas == Eliminado(old(lineas), idx)
    {
      var n := |lineas|;
      var start := if idx < 0 then (if n + idx < 0 then 0 else n + idx)
                   else (if idx > n then n else idx);
      if start < n {
        lineas := lineas[..start] + lineas[start + 1..];
      }
    }

    /** The cart listing of `actualizarCarrito`: one entry per line, in
        order, and the running total. */
    method Resumen() returns (detalle: seq<Detalle>, total: Number)
      ensures |detalle| == |lineas|
      ensures forall i | 0 <= i < |lineas| ::
        detalle[i] == Detalle(lineas[i].nombre, lineas[i].cantidad, Subtotal(lineas[i]))
      ensures total == Total(lineas)
    {
      detalle := [];
      total := Some(0.0);
      for i := 0 to |lineas|
        invariant |detalle| == i
        invariant forall j | 0 <= j < i ::
          detalle[j] == Detalle(lineas[j].nombre, lineas[j].cantidad, Subtotal(lineas[j]))
        invariant total == Total(lineas[..i])
      {
        assert lineas[..i + 1][..i] == lineas[..i];
        var subtotal := Times(lineas[i].precio, lineas[i].cantidad);
        total := Plus(total, subtotal);
        detalle := detalle + [Detalle(lineas[i].nombre, lineas[i].cantidad, subtotal)];
      }
      assert lineas[..|lineas|] == lineas;
    }

    /** The submit handler: the order lines and total of the message, then
        the cart is emptied. */
    method EnviarPedido() returns (detalle: seq<Detalle>, total: Number)
      requires Valid()
      modifies this
      ensures Valid() && lineas == []
      ensures |detalle| == |old(lineas)|
      ensures forall i | 0 <= i < |old(lineas)| ::
        detalle[i] == Detalle(old(lineas)[i].nombre, old(lineas)[i].cantidad, Subtotal(old(lineas)[i]))
      ensures total == Total(old(lineas))
    {
      detalle, total := Resumen();
      lineas := [];
    }
  }

  // ---------------------------------------------------------------------
  // reference definitions
  // ---------------------------------------------------------------------

  /** The lines whose name is not `nombre`, in order. */
  function Sin(lineas: seq<Linea>, nombre: string): seq<Linea> {
    if |lineas| == 0 then []
    else
      var l := lineas[|lineas| - 1];
      Sin(lineas[..|lineas| - 1], nombre) + (if l.nombre != nombre then [l] else [])
  }

  /** Every line has a price that parsed. */
  predicate PreciosDefinidos(lineas: seq<Linea>) {
    forall i | 0 <= i < |lineas| :: lineas[i].precio.Some?
  }

  /** Sum of `precio * cantidad` from the right, over defined prices. */
  function SumaReal(lineas: seq<Linea>): real
    requires PreciosDefinidos(lineas)
  {
    if |lineas| == 0 then 0.0
    else lineas[0].precio.value * lineas[0].cantidad as real + SumaReal(lineas[1..])
  }

  // ---------------------------------------------------------------------
  // properties
  // ---------------------------------------------------------------------

  /** The running total is the sum of the subtotals when every price parsed,
      and NaN as soon as one did not. */
  lemma {:induction false} TotalSuma(lineas: seq<Linea>)
    ensures PreciosDefinidos(lineas) ==> Total(lineas) == Some(SumaReal(lineas))
    ensures !PreciosDefinidos(lineas) ==> Total(lineas) == None
  {
    if |lineas| > 0 {
      var n := |lineas| - 1;
      TotalSuma(lineas[..n]);
      if PreciosDefinidos(lineas) {
        assert PreciosDefinidos(lineas[..n]);
        var l := lineas[n];
        SumaRealSnoc(lineas[..n], l);
        assert lineas[..n] + [l] == lineas;
        var sub := l.precio.value * l.cantidad as real;
        assert Subtotal(l).value == sub;
        assert Total(lineas).value == SumaReal(lineas[..n]) + sub;
      } else if PreciosDefinidos(lineas[..n]) {
        assert lineas[n].precio.None?;
      }
    }
  }

  lemma {:induction false} SumaRealSnoc(lineas: seq<Linea>, l: Linea)
    requires PreciosDefinidos(lineas) && l.precio.Some?
    ensures PreciosDefinidos(lineas + [l])
    ensures SumaReal(lineas + [l]) == SumaReal(lineas) + l.precio.value * l.cantidad as real
  {
    if |lineas| > 0 {
      assert (lineas + [l])[1..] == lineas[1..] + [l];
      SumaRealSnoc(lineas[1..], l);
    }
  }

  /** Changing one line changes the count by the difference of quantities. */
  lemma {:induction false} CantidadUpdate(lineas: seq<Linea>, k: int, l: Linea)
    requires 0 <= k < |lineas|
    ensures Cantidad(lineas[k := l]) + lineas[k].cantidad == Cantidad(lineas) + l.cantidad
  {
    var n := |lineas| - 1;
    if k < n {
      assert lineas[k := l][..n] == lineas[..n][k := l];
      CantidadUpdate(lineas[..n], k, l);
    } else {
      assert lineas[k := l][..n] == lineas[..n];
    }
  }

  lemma {:induction false} CantidadConcat(a: seq<Linea>, b: seq<Linea>)
    ensures Cantidad(a + b) == Cantidad(a) + Cantidad(b)
  {
    if |b| == 0 {
      assert a + b == a;
    } else {
      var n := |b| - 1;
      assert (a + b)[..|a + b| - 1] == a + b[..n];
      CantidadConcat(a, b[..n]);
    }
  }

  /** Changing one line changes the total by the difference of subtotals. */
  lemma {:induction false} TotalUpdate(lineas: seq<Linea>, k: int, l: Linea)
    requires 0 <= k < |lineas|
    ensures Plus(Total(lineas[k := l]), Subtotal(lineas[k])) == Plus(Total(lineas), Subtotal(l))
  {
    var n := |lineas| - 1;
    if k < n {
      assert lineas[k := l][..n] == lineas[..n][k := l];
      TotalUpdate(lineas[..n], k, l);
    } else {
      assert lineas[k := l][..n] == lineas[..n];
    }
  }

  /** Lines with another name are untouched by a change to a line named
      `nombre`. */
  lemma {:induction false} SinUpdate(lineas: seq<Linea>, k: int, l: Linea, nombre: string)
    requires 0 <= k < |lineas| && lineas[k].nombre == nombre && l.nombre == nombre
    ensures Sin(lineas[k := l], nombre) == Sin(lineas, nombre)
  {
    var n := |lineas| - 1;
    if k < n {
      assert lineas[k := l][..n] == lineas[..n][k := l];
      SinUpdate(lineas[..n], k, l, nombre);
    } else {
      assert lineas[k := l][..n] == lineas[..n];
    }
  }

  /** Adding keeps one line per name and quantities at least 1. */
  lemma AgregarBien(lineas: seq<Linea>, nombre: string, precio: Number)
    requires Bien(lineas)
    ensures Bien(Agregado(lineas, nombre, precio))
  {
  }

  /** Adding a name already in the cart raises that line's quantity by one
      and changes nothing else, order included. */
  lemma AgregarExistente(lineas: seq<Linea>, nombre: string, precio: Number)
    requires Bien(lineas)
    requires exists j | 0 <= j < |lineas| :: lineas[j].nombre == nombre
    ensures var r := Agregado(lineas, nombre, precio);
      && |r| == |lineas|
      && forall j | 0 <= j < |lineas| ::
           && r[j].nombre == lineas[j].nombre
           && r[j].precio == lineas[j].precio
           && r[j].cantidad == lineas[j].cantidad + (if lineas[j].nombre == nombre then 1 else 0)
  {
  }

  /** Adding a new name appends a line with quantity 1 at the end. */
  lemma AgregarNuevo(lineas: seq<Linea>, nombre: string, precio: Number)
    requires forall j | 0 <= j < |lineas| :: lineas[j].nombre != nombre
    ensures Agregado(lineas, nombre, precio) == lineas + [Linea(nombre, precio, 1)]
  {
  }

  /** Every add raises the item count by exactly one and leaves the lines
      of other names as they were, in order. */
  lemma AgregarCuenta(lineas: seq<Linea>, nombre: string, precio: Number)
    ensures Cantidad(Agregado(lineas, nombre, precio)) == Cantidad(lineas) + 1
    ensures Sin(Agregado(lineas, nombre, precio), nombre) == Sin(lineas, nombre)
  {
    var r := Agregado(lineas, nombre, precio);
    var k := Buscar(lineas, nombre);
    if k >= 0 {
      var l' := lineas[k].(cantidad := lineas[k].cantidad + 1);
      CantidadUpdate(lineas, k, l');
      SinUpdate(lineas, k, l', nombre);
    } else {
      CantidadConcat(lineas, [Linea(nombre, precio, 1)]);
      assert [Linea(nombre, precio, 1)][..0] == [];
      assert r[..|lineas|] == lineas;
      assert Sin(r, nombre) == Sin(lineas, nombre) + [];
    }
  }

  /** Every add raises the total by the unit price of the line it touched:
      the existing line's price, or the new one's. */
  lemma AgregarTotal(lineas: seq<Linea>, nombre: string, precio: Number)
    ensures var k := Buscar(lineas, nombre);
      Total(Agregado(lineas, nombre, precio)) == Plus(Total(lineas), if k >= 0 then lineas[k].precio else precio)
  {
    var k := Buscar(lineas, nombre);
    if k >= 0 {
      IncrementoTotal(lineas, k);
    } else {
      NuevaLineaTotal(lineas, Linea(nombre, precio, 1));
    }
  }

  /** Appending a line of quantity 1 adds its unit price to the total. */
  lemma NuevaLineaTotal(lineas: seq<Linea>, l: Linea)
    requires l.cantidad == 1
    ensures Total(lineas + [l]) == Plus(Total(lineas), l.precio)
  {
    assert (lineas + [l])[..|lineas|] == lineas;
    assert Total(lineas + [l]) == Plus(Total(lineas), Subtotal(l));
    if l.precio.Some? {
      assert Subtotal(l).value == l.precio.value;
    }
  }

  /** Raising the quantity of line `k` by one adds its unit price to the
      total. */
  lemma IncrementoTotal(lineas: seq<Linea>, k: int)
    requires 0 <= k < |lineas|
    ensures Total(lineas[k := lineas[k].(cantidad := lineas[k].cantidad + 1)]) == Plus(Total(lineas), lineas[k].precio)
  {
    var l := lineas[k];
    var l' := l.(cantidad := l.cantidad + 1);
    var r := lineas[k := l'];
    TotalUpdate(lineas, k, l');
    if l.precio.Some? {
      TimesSucc(l.precio, l.cantidad);
    } else {
      assert r[k].precio.None?;
    }
  }

  /** Removing an index inside the cart takes out exactly that line, keeps
      the others in order and lowers the count by its quantity; a negative
      index counts from the end (clamped to the first line); an index past
      the end changes nothing. */
  lemma EliminarSpec(lineas: seq<Linea>, idx: int)
    ensures 0 <= idx < |lineas| ==>
      && Eliminado(lineas, idx) == lineas[..idx] + lineas[idx + 1..]
      && Cantidad(Eliminado(lineas, idx)) + lineas[idx].cantidad == Cantidad(lineas)
    ensures -|lineas| <= idx < 0 ==>
      Eliminado(lineas, idx) == lineas[..|lineas| + idx] + lineas[|lineas| + idx + 1..]
    ensures idx >= |lineas| ==> Eliminado(lineas, idx) == lineas
    ensures idx < -|lineas| && lineas != [] ==> Eliminado(lineas, idx) == lineas[1..]
    ensures |Eliminado(lineas, idx)| == if lineas == [] then 0 else |lineas| - 1 + (if idx >= |lineas| then 1 else 0)
  {
    if 0 <= idx < |lineas| {
      CantidadSinLinea(lineas, idx);
    }
  }

  /** Taking line `k` out lowers the count by its quantity. */
  lemma CantidadSinLinea(lineas: seq<Linea>, k: int)
    requires 0 <= k < |lineas|
    ensures Cantidad(lineas[..k] + lineas[k + 1..]) + lineas[k].cantidad == Cantidad(lineas)
  {
    CantidadConcat(lineas[..k], lineas[k + 1..]);
    CantidadConcat(lineas[..k], [lineas[k]] + lineas[k + 1..]);
    CantidadConcat([lineas[k]], lineas[k + 1..]);
    assert lineas == lineas[..k] + ([lineas[k]] + lineas[k + 1..]);
    assert [lineas[k]][..0] == [];
  }

  /** Removing a line keeps the cart invariant. */
  lemma EliminarBien(lineas: seq<Linea>, idx: int)
    requires Bien(lineas)
    ensures Bien(Eliminado(lineas, idx))
  {
    var r := Eliminado(lineas, idx);
    var n := |lineas|;
    var start := if idx < 0 then (if n + idx < 0 then 0 else n + idx)
                 else (if idx > n then n else idx);
    if start < n {
      forall i | 0 <= i < |r| ensures r[i] == lineas[if i < start then i else i + 1] {
      }
    }
  }

  /** The empty cart: nothing to remove, no items, total 0. */
  lemma CarritoVacio(idx: int)
    ensures Eliminado([], idx) == [] && Cantidad([]) == 0 && Total([]) == Some(0.0)
  {
  }

  /** Adding "Widget" at 9.99 twice gives one line of quantity 2 and a
      total of 19.98. */
  lemma DosWidgets()
    ensures Agregado(Agregado([], "Widget", Some(9.99)), "Widget", Some(9.99)) == [Linea("Widget", Some(9.99), 2)]
    ensures Total([Linea("Widget", Some(9.99), 2)]) == Some(19.98)
  {
    assert [Linea("Widget", Some(9.99), 2)][..0] == [];
  }
}
