/**
 * The filter of `aplicarFiltros` (script.js:108-130): a product stays when
 * its name or description contains the search text (both lower-cased),
 * its category is the chosen one (or the choice is "todas"), and its
 * price is within the optional bounds.  A bound that does not parse is
 * unset; a price that does not parse fails every set bound.
 */
module Filters {
  import opened JsText
  import opened JsNumber
  import opened Catalog

  /** The four form values read at script.js:109-113, as typed. */
  datatype Criterios = Criterios(buscador: string, categoria: string, precioMin: string, precioMax: string)

  /** The catch-all category of the category selector. */
  const Todas: string := "todas"

  predicate CoincideTexto(p: Product, texto: string) {
    Includes(ToLower(p["Nombre"]), texto) || Includes(ToLower(p["Descripcion"]), texto)
  }

  predicate CoincideCategoria(p: Product, categoria: string) {
    categoria == Todas || p["Categoria"] == categoria
  }

  /** `isNaN(min) || precio >= min`: a comparison with NaN is false. */
  predicate CoincidePrecioMin(precio: Number, min: Number) {
    min.None? || (precio.Some? && precio.value >= min.value)
  }

  /** `isNaN(max) || precio <= max`. */
  predicate CoincidePrecioMax(precio: Number, max: Number) {
    max.None? || (precio.Some? && precio.value <= max.value)
  }

  /** The callback given to `productos.filter` at script.js:115-130. */
  predicate Coincide(p: Product, c: Criterios) {
    var precio := ParseFloat(p["Precio"]);
    && CoincideTexto(p, ToLower(c.buscador))
    && CoincideCategoria(p, c.categoria)
    && CoincidePrecioMin(precio, ParseFloat(c.precioMin))
    && CoincidePrecioMax(precio, ParseFloat(c.precioMax))
  }

  /** `Array.prototype.filter`: the elements `keep` accepts, in order. */
  function Filter<T>(s: seq<T>, keep: T -> bool): (r: seq<T>)
    ensures |r| <= |s|
    ensures forall i | 0 <= i < |r| :: keep(r[i])
    ensures forall x | x in s && keep(x) :: x in r
  {
    if |s| == 0 then []
    else
      var rest := Filter(s[1..], keep);
      if keep(s[0]) then [s[0]] + rest else rest
  }

  /** `productos.filter(...)`: the products that match, in catalogue order. */
  function AplicarFiltros(productos: seq<Product>, c: Criterios): (r: seq<Product>)
    ensures |r| <= |productos|
    ensures forall i | 0 <= i < |r| :: Coincide(r[i], c)
    ensures forall p | p in productos && Coincide(p, c) :: p in r
  {
    Filter(productos, p => Coincide(p, c))
  }

  /** `a` is `b` with some elements left out and the rest in order. */
  predicate IsSubsequence<T(==)>(a: seq<T>, b: seq<T>) {
    if |a| == 0 then true
    else if |b| == 0 then false
    else if a[0] == b[0] then IsSubsequence(a[1..], b[1..])
    else IsSubsequence(a, b[1..])
  }

  // ---------------------------------------------------------------------
  // properties of `filter`, for any callback
  // ---------------------------------------------------------------------

  /** The filter keeps elements in their original order. */
  lemma {:induction false} FilterIsSubsequence<T>(s: seq<T>, keep: T -> bool)
    ensures IsSubsequence(Filter(s, keep), s)
  {
    if |s| > 0 {
      FilterIsSubsequence(s[1..], keep);
    }
  }

  /** Each element appears in the result as often as in the input when the
      callback accepts it, and not at all otherwise. */
  lemma {:induction false} FilterCount<T>(s: seq<T>, keep: T -> bool, x: T)
    ensures multiset(Filter(s, keep))[x] == if keep(x) then multiset(s)[x] else 0
  {
    if |s| > 0 {
      FilterCount(s[1..], keep, x);
      assert s == [s[0]] + s[1..];
    }
  }

  /** Filtering distributes over concatenation. */
  lemma {:induction false} FilterConcat<T>(a: seq<T>, b: seq<T>, keep: T -> bool)
    ensures Filter(a + b, keep) == Filter(a, keep) + Filter(b, keep)
  {
    if |a| == 0 {
      assert a + b == b;
    } else {
      assert (a + b)[1..] == a[1..] + b;
      FilterConcat(a[1..], b, keep);
    }
  }

  /** An input whose every element is accepted passes unchanged. */
  lemma {:induction false} FilterAllMatch<T>(s: seq<T>, keep: T -> bool)
    requires forall i | 0 <= i < |s| :: keep(s[i])
    ensures Filter(s, keep) == s
  {
    if |s| > 0 {
      FilterAllMatch(s[1..], keep);
    }
  }

  /** Two callbacks that agree on every element filter alike. */
  lemma {:induction false} FilterSameCallback<T>(s: seq<T>, keep: T -> bool, keep': T -> bool)
    requires forall x | x in s :: keep(x) == keep'(x)
    ensures Filter(s, keep) == Filter(s, keep')
  {
    if |s| > 0 {
      assert forall x | x in s[1..] :: x in s;
      FilterSameCallback(s[1..], keep, keep');
    }
  }

  // ---------------------------------------------------------------------
  // properties of the catalogue filter
  // ---------------------------------------------------------------------

  /** The filter keeps products in catalogue order. */
  lemma FiltrarIsSubsequence(productos: seq<Product>, c: Criterios)
    ensures IsSubsequence(AplicarFiltros(productos, c), productos)
  {
    FilterIsSubsequence(productos, p => Coincide(p, c));
  }

  /** Each product appears in the result as often as in the catalogue when
      it matches, and not at all otherwise. */
  lemma FiltrarCount(productos: seq<Product>, c: Criterios, p: Product)
    ensures multiset(AplicarFiltros(productos, c))[p] ==
      if Coincide(p, c) then multiset(productos)[p] else 0
  {
    FilterCount(productos, q => Coincide(q, c), p);
  }

  /** Filtering distributes over concatenation of catalogues. */
  lemma FiltrarConcat(a: seq<Product>, b: seq<Product>, c: Criterios)
    ensures AplicarFiltros(a + b, c) == AplicarFiltros(a, c) + AplicarFiltros(b, c)
  {
    FilterConcat(a, b, p => Coincide(p, c));
  }

  /** Filtering twice with the same form values is filtering once. */
  lemma FiltrarIdempotent(productos: seq<Product>, c: Criterios)
    ensures AplicarFiltros(AplicarFiltros(productos, c), c) == AplicarFiltros(productos, c)
  {
    FilterAllMatch(AplicarFiltros(productos, c), p => Coincide(p, c));
  }

  /** The search ignores case: typing the search text in capitals filters
      exactly as typing it in small letters. */
  lemma BusquedaSinMayusculas(productos: seq<Product>, c: Criterios)
    ensures AplicarFiltros(productos, c.(buscador := ToUpper(c.buscador))) == AplicarFiltros(productos, c)
  {
    var c' := c.(buscador := ToUpper(c.buscador));
    LowerOfUpper(c.buscador);
    FilterSameCallback(productos, p => Coincide(p, c'), p => Coincide(p, c));
  }

  /** An empty search, "todas" and two unparsable bounds show the whole
      catalogue. */
  lemma FiltrarSinCriterios(productos: seq<Product>, c: Criterios)
    requires c.buscador == "" && c.categoria == Todas
    requires ParseFloat(c.precioMin).None? && ParseFloat(c.precioMax).None?
    ensures AplicarFiltros(productos, c) == productos
  {
    forall i | 0 <= i < |productos| ensures Coincide(productos[i], c) {
      IncludesEmpty(ToLower(productos[i]["Nombre"]));
    }
    FilterAllMatch(productos, p => Coincide(p, c));
  }

  /** A product whose price does not parse passes the price test exactly
      when neither bound is set. */
  lemma PrecioNaN(p: Product, c: Criterios)
    requires ParseFloat(p["Precio"]).None?
    ensures Coincide(p, c) <==>
      CoincideTexto(p, ToLower(c.buscador)) && CoincideCategoria(p, c.categoria)
      && ParseFloat(c.precioMin).None? && ParseFloat(c.precioMax).None?
  {
  }

  /** Tighter bounds (`d`'s lower bound set and at least `c`'s, when `c`
      has one; likewise for the upper bound) never let more products
      through. */
  lemma FiltrarNarrowing(productos: seq<Product>, c: Criterios, d: Criterios, p: Product)
    requires d.buscador == c.buscador && d.categoria == c.categoria
    requires CoincidePrecioMin(ParseFloat(d.precioMin), ParseFloat(c.precioMin))
    requires CoincidePrecioMax(ParseFloat(d.precioMax), ParseFloat(c.precioMax))
    requires p in AplicarFiltros(productos, d)
    ensures p in AplicarFiltros(productos, c)
  {
    FiltrarCount(productos, d, p);
    assert p in productos;
    CoincideNarrowing(p, c, d);
  }

  /** A product that matches the tighter criteria matches the looser ones. */
  lemma CoincideNarrowing(p: Product, c: Criterios, d: Criterios)
    requires d.buscador == c.buscador && d.categoria == c.categoria
    requires CoincidePrecioMin(ParseFloat(d.precioMin), ParseFloat(c.precioMin))
    requires CoincidePrecioMax(ParseFloat(d.precioMax), ParseFloat(c.precioMax))
    ensures Coincide(p, d) ==> Coincide(p, c)
  {
  }
}
