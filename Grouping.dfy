/**
 * The grouping step of `mostrarCatalogo` (script.js:62-68): the visible
 * products of a list are put into one group per category, groups in the
 * order their category is first met, products in list order inside each
 * group.  `agrupados` is a plain object, so a category named after a
 * member it inherits makes the loop throw.
 */
module Grouping {
  import opened JsText
  import opened JsNumber
  import opened Catalog

  /** One entry of the `agrupados` object: a category and its products. */
  datatype Grupo = Grupo(categoria: string, productos: seq<Product>)

  /** The position of the group for category `c`, or -1 when there is none
      (`agrupados[c]` is undefined). */
  function IndiceGrupo(grupos: seq<Grupo>, c: string): (k: int)
    ensures -1 <= k < |grupos|
    ensures k >= 0 ==> grupos[k].categoria == c
    ensures k < 0 ==> forall j | 0 <= j < |grupos| :: grupos[j].categoria != c
  {
    if |grupos| == 0 then -1
    else if grupos[|grupos| - 1].categoria == c then |grupos| - 1
    else IndiceGrupo(grupos[..|grupos| - 1], c)
  }

  /** The members every object inherits from `Object.prototype`.  For
      such a category `agrupados[c]` is the inherited member, which is
      truthy, so no array is created and `agrupados[c].push(p)` throws a
      TypeError. */
  const Heredadas: set<string> := {"constructor", "__proto__", "hasOwnProperty", "isPrototypeOf",
    "propertyIsEnumerable", "toString", "toLocaleString", "valueOf", "__defineGetter__",
    "__defineSetter__", "__lookupGetter__", "__lookupSetter__"}

  /** One step of the `forEach`: a visible product joins the group of its
      category, which is created at the end when it does not exist yet;
      `None` when the step throws. */
  function Agregar(grupos: seq<Grupo>, p: Product): (r: Option<seq<Grupo>>)
    ensures r.None? <==> IsVisible(p) && p["Categoria"] in Heredadas
    ensures r.Some? ==> |grupos| <= |r.value| <= |grupos| + 1
  {
    if !IsVisible(p) then Some(grupos)
    else
      var c := p["Categoria"];
      if c in Heredadas then None
      else
        var k := IndiceGrupo(grupos, c);
        if k < 0 then Some(grupos + [Grupo(c, [p])])
        else Some(grupos[k := Grupo(c, grupos[k].productos + [p])])
  }

  /** The `agrupados` object after the whole `forEach`, in the order the
      groups were created, or `None` when some step throws (later products
      are then not read). */
  function Agrupar(lista: seq<Product>): (r: Option<seq<Grupo>>)
    ensures r.Some? ==> |r.value| <= |lista|
  {
    if |lista| == 0 then Some([])
    else
      var prev := Agrupar(lista[..|lista| - 1]);
      if prev.None? then None else Agregar(prev.value, lista[|lista| - 1])
  }

  // ---------------------------------------------------------------------
  // reference definitions
  // ---------------------------------------------------------------------

  /** The visible products of `lista` with category `c`, in list order. */
  function DeCategoria(lista: seq<Product>, c: string): seq<Product> {
    if |lista| == 0 then []
    else
      var p := lista[|lista| - 1];
      DeCategoria(lista[..|lista| - 1], c) + (if IsVisible(p) && p["Categoria"] == c then [p] else [])
  }

  /** The categories of the visible products of `lista`, each once, in the
      order of their first appearance. */
  function PrimerasCategorias(lista: seq<Product>): seq<string> {
    if |lista| == 0 then []
    else
      var prev := PrimerasCategorias(lista[..|lista| - 1]);
      var p := lista[|lista| - 1];
      if IsVisible(p) && p["Categoria"] !in prev then prev + [p["Categoria"]] else prev
  }

  /** Some visible product of `lista` has a category named after an
      inherited member. */
  predicate Hereda(lista: seq<Product>) {
    exists i | 0 <= i < |lista| :: IsVisible(lista[i]) && lista[i]["Categoria"] in Heredadas
  }

  predicate Distinct(s: seq<string>) {
    forall i, j | 0 <= i < j < |s| :: s[i] != s[j]
  }

  /** Some visible product of `lista` has category `c`. */
  predicate Aparece(lista: seq<Product>, c: string) {
    exists i | 0 <= i < |lista| :: IsVisible(lista[i]) && lista[i]["Categoria"] == c
  }

  /** The first-appearance list has no repeats and holds exactly the
      categories of the visible products. */
  lemma {:induction false} PrimerasCategoriasSpec(lista: seq<Product>)
    ensures Distinct(PrimerasCategorias(lista))
    ensures forall c :: c in PrimerasCategorias(lista) <==> Aparece(lista, c)
  {
    if |lista| > 0 {
      var n := |lista| - 1;
      var prefix := lista[..n];
      PrimerasCategoriasSpec(prefix);
      forall c ensures Aparece(lista, c) <==> Aparece(prefix, c) || (IsVisible(lista[n]) && lista[n]["Categoria"] == c) {
        if Aparece(lista, c) {
          var i :| 0 <= i < |lista| && IsVisible(lista[i]) && lista[i]["Categoria"] == c;
          if i < n {
            assert prefix[i] == lista[i];
          }
        }
        if Aparece(prefix, c) {
          var i :| 0 <= i < |prefix| && IsVisible(prefix[i]) && prefix[i]["Categoria"] == c;
          assert lista[i] == prefix[i];
        }
      }
    }
  }

  /** A category no visible product has collects no products. */
  lemma {:induction false} DeCategoriaAusente(lista: seq<Product>, c: string)
    requires !Aparece(lista, c)
    ensures DeCategoria(lista, c) == []
  {
    if |lista| > 0 {
      var n := |lista| - 1;
      assert !Aparece(lista[..n], c);
      DeCategoriaAusente(lista[..n], c);
    }
  }

  /** The grouping throws exactly when some visible product has a
      category named after an inherited member. */
  lemma {:induction false} AgruparFalla(lista: seq<Product>)
    ensures Agrupar(lista).None? <==> Hereda(lista)
  {
    if |lista| > 0 {
      var n := |lista| - 1;
      AgruparFalla(lista[..n]);
      if Hereda(lista[..n]) {
        var i :| 0 <= i < n && IsVisible(lista[..n][i]) && lista[..n][i]["Categoria"] in Heredadas;
        assert lista[i] == lista[..n][i];
      }
      if Hereda(lista) && !(IsVisible(lista[n]) && lista[n]["Categoria"] in Heredadas) {
        var i :| 0 <= i < |lista| && IsVisible(lista[i]) && lista[i]["Categoria"] in Heredadas;
        assert lista[..n][i] == lista[i];
      }
    }
  }

  /** When it does not throw, the groups are the first-appearance
      categories, in that order, and each holds exactly the visible
      products of its category in list order. */
  lemma {:induction false} AgruparSpec(lista: seq<Product>)
    ensures Agrupar(lista).Some? <==> !Hereda(lista)
    ensures Agrupar(lista).Some? ==>
      var g := Agrupar(lista).value;
      && |g| == |PrimerasCategorias(lista)|
      && forall k | 0 <= k < |g| ::
           g[k].categoria == PrimerasCategorias(lista)[k]
           && g[k].productos == DeCategoria(lista, g[k].categoria)
  {
    AgruparFalla(lista);
    if |lista| > 0 && Agrupar(lista).Some? {
      var n := |lista| - 1;
      var prefix := lista[..n];
      var p := lista[n];
      AgruparSpec(prefix);
      PrimerasCategoriasSpec(prefix);
      var g := Agrupar(prefix).value;
      var cats := PrimerasCategorias(prefix);
      assert forall k | 0 <= k < |g| :: g[k].categoria == cats[k];
      if IsVisible(p) {
        var c := p["Categoria"];
        var k := IndiceGrupo(g, c);
        if k < 0 {
          assert c !in cats;
          DeCategoriaAusente(prefix, c);
        } else {
          assert c in cats;
          forall j | 0 <= j < |g| && j != k
            ensures g[j].categoria != c
          {
            assert cats[j] != cats[k];
          }
        }
      }
    }
  }

  /** When it does not throw, no two groups share a category, every group
      is non-empty, and a category has a group exactly when some visible
      product carries it. */
  lemma AgruparGroups(lista: seq<Product>, c: string)
    ensures Agrupar(lista).Some? ==>
      var g := Agrupar(lista).value;
      && Distinct(seq(|g|, k requires 0 <= k < |g| => g[k].categoria))
      && (forall k | 0 <= k < |g| :: |g[k].productos| > 0)
      && ((exists k | 0 <= k < |g| :: g[k].categoria == c) <==> Aparece(lista, c))
  {
    AgruparSpec(lista);
    PrimerasCategoriasSpec(lista);
    if Agrupar(lista).Some? {
      var g := Agrupar(lista).value;
      forall k | 0 <= k < |g| ensures |g[k].productos| > 0 {
        if |g[k].productos| == 0 {
          assert g[k].categoria in PrimerasCategorias(lista);
          DeCategoriaPresente(lista, g[k].categoria);
        }
      }
      if Aparece(lista, c) {
        assert c in PrimerasCategorias(lista);
        var k :| 0 <= k < |g| && PrimerasCategorias(lista)[k] == c;
        assert g[k].categoria == c;
      }
    }
  }

  /** A category some visible product has collects at least that product. */
  lemma {:induction false} DeCategoriaPresente(lista: seq<Product>, c: string)
    requires Aparece(lista, c)
    ensures |DeCategoria(lista, c)| > 0
  {
    var n := |lista| - 1;
    var p := lista[n];
    if !(IsVisible(p) && p["Categoria"] == c) {
      assert Aparece(lista[..n], c) by {
        var i :| 0 <= i < |lista| && IsVisible(lista[i]) && lista[i]["Categoria"] == c;
        assert lista[..n][i] == lista[i];
      }
      DeCategoriaPresente(lista[..n], c);
    }
  }
}
