/**
 * The product feed parser of `cargarProductos` (script.js:15-32) and the
 * catalogue it fills: the text is cut into lines, each line into
 * comma-separated fields (no quoting), the trimmed first line names the
 * columns, rows shorter than the header are skipped, and only rows whose
 * `Visible` field reads "TRUE" in any case become products.
 */
module Catalog {
  import opened JsText
  import opened JsNumber

  /** The columns the rest of the script reads from every product. */
  const CoreColumns: set<string> := {"Nombre", "Descripcion", "Categoria", "Precio", "Visible"}

  /** A product: the fields of one row keyed by column name, as the
      JavaScript object built at script.js:24-27. */
  type Product = p: map<string, string> | CoreColumns <= p.Keys
    witness map k | k in CoreColumns :: ""

  /** `p.Visible.toUpperCase() === "TRUE"`: the field spells "true" in
      any mix of cases, and nothing else. */
  predicate IsVisible(p: map<string, string>): (b: bool)
    requires "Visible" in p
    ensures var v := p["Visible"];
      b <==> |v| == 4 && v[0] in "tT" && v[1] in "rR" && v[2] in "uU" && v[3] in "eE"
  {
    UpperIsTrue(p["Visible"]);
    ToUpper(p["Visible"]) == "TRUE"
  }

  predicate HasCoreColumns(headers: seq<string>) {
    forall c | c in CoreColumns :: c in headers
  }

  /** `data.split("\n").map(r => r.split(","))`: one row per line, each
      row a non-empty list of comma-free fields that joined back with
      commas give the line. */
  function Filas(data: string): (filas: seq<seq<string>>)
    ensures |filas| == |Split(data, '\n')| >= 1
    ensures forall i | 0 <= i < |filas| ::
      |filas[i]| >= 1 && Join(filas[i], ',') == Split(data, '\n')[i]
    ensures forall i, j | 0 <= i < |filas| && 0 <= j < |filas[i]| :: ',' !in filas[i][j]
  {
    var lines := Split(data, '\n');
    var filas := seq(|lines|, i requires 0 <= i < |lines| => Split(lines[i], ','));
    assert forall i | 0 <= i < |filas| :: Join(filas[i], ',') == lines[i] by {
      forall i | 0 <= i < |filas| ensures Join(filas[i], ',') == lines[i] {
        JoinSplit(lines[i], ',');
      }
    }
    filas
  }

  /** The trimmed fields of the first line: name `j` is field `j` with
      only white space cut from its two ends, and no name has white space
      at either end. */
  function Encabezados(data: string): (headers: seq<string>)
    ensures |headers| == |Filas(data)[0]| >= 1
    ensures forall j | 0 <= j < |headers| :: SpaceCut(Filas(data)[0][j], headers[j])
    ensures forall j | 0 <= j < |headers| ::
      headers[j] == [] || (!IsJsSpace(headers[j][0]) && !IsJsSpace(headers[j][|headers[j]| - 1]))
    ensures forall j | 0 <= j < |headers| :: Trim(headers[j]) == headers[j]
  {
    var first := Filas(data)[0];
    var headers := seq(|first|, j requires 0 <= j < |first| => Trim(first[j]));
    forall j | 0 <= j < |headers|
      ensures SpaceCut(first[j], headers[j])
      ensures headers[j] == [] || (!IsJsSpace(headers[j][0]) && !IsJsSpace(headers[j][|headers[j]| - 1]))
      ensures Trim(headers[j]) == headers[j]
    {
      TrimSpec(first[j]);
      TrimIdempotent(first[j]);
    }
    headers
  }

  /** No later column has the same name as column `j`. */
  predicate LastNamed(headers: seq<string>, j: int)
    requires 0 <= j < |headers|
  {
    forall k | j < k < |headers| :: headers[k] != headers[j]
  }

  /** The object built from one long-enough row: every column name maps to
      the trimmed field in its position, and where a name repeats the
      rightmost column wins, as successive assignments do. */
  function Registro(headers: seq<string>, fila: seq<string>): (p: map<string, string>)
    requires |fila| >= |headers|
    ensures forall k :: k in p <==> k in headers
  {
    if |headers| == 0 then map[]
    else
      var n := |headers| - 1;
      var prev := Registro(headers[..n], fila);
      assert forall k :: k in headers <==> k in headers[..n] || k == headers[n];
      prev[headers[n] := Trim(fila[n])]
  }

  /** Every column maps to the trimmed field in its position, unless a
      later column has the same name (the rightmost one wins). */
  lemma {:induction false} RegistroFields(headers: seq<string>, fila: seq<string>, j: int)
    requires |fila| >= |headers|
    requires 0 <= j < |headers| && LastNamed(headers, j)
    ensures Registro(headers, fila)[headers[j]] == Trim(fila[j])
  {
    var n := |headers| - 1;
    if j < n {
      assert headers[j] != headers[n];
      assert LastNamed(headers[..n], j) by {
        forall k | j < k < n ensures headers[..n][k] != headers[..n][j] {
          assert headers[k] != headers[j];
        }
      }
      RegistroFields(headers[..n], fila, j);
      assert headers[..n][j] == headers[j];
    }
  }

  /** Row `fila` yields product `p`: it is long enough, `p` is its object
      and `p` is visible. */
  predicate Emits(headers: seq<string>, fila: seq<string>, p: map<string, string>) {
    |fila| >= |headers| && Registro(headers, fila) == p && "Visible" in p && IsVisible(p)
  }

  /** The products the loop at script.js:21-32 pushes for the rows `filas`
      (the lines after the header), in the order it pushes them. */
  function Visibles(headers: seq<string>, filas: seq<seq<string>>): (r: seq<Product>)
    requires HasCoreColumns(headers)
    ensures |r| <= |filas|
    ensures forall i | 0 <= i < |r| :: IsVisible(r[i])
  {
    if |filas| == 0 then []
    else
      var prev := Visibles(headers, filas[..|filas| - 1]);
      var fila := filas[|filas| - 1];
      if |fila| < |headers| then prev
      else
        var p := Registro(headers, fila);
        if IsVisible(p) then prev + [p] else prev
  }

  /** The products of the feed text `data`. */
  function Productos(data: string): (r: seq<Product>)
    requires HasCoreColumns(Encabezados(data))
    ensures |r| < |Split(data, '\n')|
    ensures forall i | 0 <= i < |r| :: IsVisible(r[i])
  {
    Visibles(Encabezados(data), Filas(data)[1..])
  }

  /** The `categorias` set: exactly the categories some product has, at
      most one per product. */
  function Categorias(productos: seq<Product>): (r: set<string>)
    ensures |r| <= |productos|
    ensures forall c :: c in r <==> TieneCategoria(productos, c)
  {
    CategoriasBound(productos);
    set p | p in productos :: p["Categoria"]
  }

  /** Adding the products' categories one at a time makes a set no larger
      than the list. */
  lemma {:induction false} CategoriasBound(productos: seq<Product>)
    ensures |set p | p in productos :: p["Categoria"]| <= |productos|
  {
    if |productos| > 0 {
      var n := |productos| - 1;
      CategoriasBound(productos[..n]);
      assert (set p | p in productos :: p["Categoria"]) ==
        (set p | p in productos[..n] :: p["Categoria"]) + {productos[n]["Categoria"]} by {
        assert productos == productos[..n] + [productos[n]];
      }
    }
  }

  /** Some product of `productos` has category `c`. */
  predicate TieneCategoria(productos: seq<Product>, c: string) {
    exists i | 0 <= i < |productos| :: productos[i]["Categoria"] == c
  }

  /** The global catalogue state: `productos` and `categorias`. */
  class Catalogo {
    var productos: seq<Product>
    var categorias: set<string>

    ghost predicate Valid()
      reads this
    {
      && (forall i | 0 <= i < |productos| :: IsVisible(productos[i]))
      && categorias == Categorias(productos)
    }

    constructor ()
      ensures Valid() && productos == [] && categorias == {}
    {
      productos := [];
      categorias := {};
    }

    /** Parse the feed text and replace the catalogue with its visible
        products and their categories.  A header without a `Visible`
        column makes the first long-enough row throw (`prod.Visible` is
        undefined), which the `catch` swallows: the catalogue is left
        empty, as it is when no row is long enough. */
    method CargarProductos(data: string)
      requires "Visible" in Encabezados(data) ==> HasCoreColumns(Encabezados(data))
      modifies this
      ensures Valid()
      ensures "Visible" in Encabezados(data) ==> productos == Productos(data)
      ensures "Visible" !in Encabezados(data) ==> productos == [] && categorias == {}
    {
      productos := [];
      categorias := {};
      var headers := Encabezados(data);
      if "Visible" !in headers {
        return;
      }
      productos, categorias := LeerFilas(headers, Filas(data));
    }
  }

  /** The row loop of script.js:21-32: the products and categories read
      from the rows after the header. */
  method LeerFilas(headers: seq<string>, filas: seq<seq<string>>) returns (productos: seq<Product>, categorias: set<string>)
    requires HasCoreColumns(headers) && |filas| >= 1
    ensures productos == Visibles(headers, filas[1..])
    ensures categorias == Categorias(productos)
  {
    productos := [];
    categorias := {};
    var i := 1;
    assert filas[1..i] == [];
    while i < |filas|
      invariant 1 <= i <= |filas|
      invariant productos == Visibles(headers, filas[1..i])
      invariant categorias == Categorias(productos)
    {
      var fila := filas[i];
      assert filas[1..i + 1] == filas[1..i] + [fila];
      VisiblesSnoc(headers, filas[1..i], fila);
      var prod := LeerFila(headers, fila);
      if prod.Some? {
        CategoriasSnoc(productos, prod.value);
        productos := productos + [prod.value];
        categorias := categorias + {prod.value["Categoria"]};
      }
      i := i + 1;
    }
    assert filas[1..i] == filas[1..];
  }

  /** One pass of the loop body of script.js:22-31: the product the row
      pushes, if any. */
  method LeerFila(headers: seq<string>, fila: seq<string>) returns (prod: Option<Product>)
    requires HasCoreColumns(headers)
    ensures prod.Some? <==> |fila| >= |headers| && IsVisible(Registro(headers, fila))
    ensures prod.Some? ==> prod.value == Registro(headers, fila)
  {
    if |fila| < |headers| {
      return None;
    }
    var p := ConstruirRegistro(headers, fila);
    RegistroIsProduct(headers, fila);
    if ToUpper(p["Visible"]) == "TRUE" {
      return Some(p);
    }
    return None;
  }

  /** The `headers.forEach` of script.js:25-27: assign each column's
      trimmed field in header order. */
  method ConstruirRegistro(headers: seq<string>, fila: seq<string>) returns (prod: map<string, string>)
    requires |fila| >= |headers|
    ensures prod == Registro(headers, fila)
  {
    prod := map[];
    var idx := 0;
    while idx < |headers|
      invariant 0 <= idx <= |headers|
      invariant prod == Registro(headers[..idx], fila)
    {
      assert headers[..idx + 1][..idx] == headers[..idx];
      prod := prod[headers[idx] := Trim(fila[idx])];
      idx := idx + 1;
    }
    assert headers[..|headers|] == headers;
  }

  /** Reading one more row appends at most its product. */
  lemma VisiblesSnoc(headers: seq<string>, filas: seq<seq<string>>, fila: seq<string>)
    requires HasCoreColumns(headers)
    ensures Visibles(headers, filas + [fila]) ==
      if |fila| >= |headers| && IsVisible(Registro(headers, fila))
      then Visibles(headers, filas) + [Registro(headers, fila)] else Visibles(headers, filas)
  {
    assert (filas + [fila])[..|filas|] == filas;
  }

  lemma CategoriasSnoc(productos: seq<Product>, p: Product)
    ensures Categorias(productos + [p]) == Categorias(productos) + {p["Categoria"]}
  {
  }

  /** The object of a long-enough row has every core column. */
  lemma RegistroIsProduct(headers: seq<string>, fila: seq<string>)
    requires HasCoreColumns(headers) && |fila| >= |headers|
    ensures CoreColumns <= Registro(headers, fila).Keys
  {
  }

  // ---------------------------------------------------------------------
  // properties of the parser
  // ---------------------------------------------------------------------

  /** Each row contributes independently and in place: the products of a
      concatenation of rows are the products of the parts, in order. */
  lemma {:induction false} VisiblesConcat(headers: seq<string>, a: seq<seq<string>>, b: seq<seq<string>>)
    requires HasCoreColumns(headers)
    ensures Visibles(headers, a + b) == Visibles(headers, a) + Visibles(headers, b)
  {
    if |b| == 0 {
      assert a + b == a;
    } else {
      var n := |b| - 1;
      assert (a + b)[..|a + b| - 1] == a + b[..n];
      VisiblesConcat(headers, a, b[..n]);
    }
  }

  /** One row yields its object when it is long enough and visible, and
      nothing otherwise. */
  lemma VisiblesSingle(headers: seq<string>, fila: seq<string>)
    requires HasCoreColumns(headers)
    ensures Visibles(headers, [fila]) ==
      if |fila| >= |headers| && IsVisible(Registro(headers, fila))
      then [Registro(headers, fila)] else []
  {
    assert [fila][..0] == [];
  }

  /** A row shorter than the header is skipped and the rows after it are
      still read. */
  lemma ShortRowSkipped(headers: seq<string>, a: seq<seq<string>>, fila: seq<string>, b: seq<seq<string>>)
    requires HasCoreColumns(headers)
    requires |fila| < |headers|
    ensures Visibles(headers, a + [fila] + b) == Visibles(headers, a) + Visibles(headers, b)
  {
    VisiblesConcat(headers, a + [fila], b);
    VisiblesConcat(headers, a, [fila]);
    VisiblesSingle(headers, fila);
  }

  /** A product is emitted exactly when some row yields it. */
  lemma {:induction false} VisiblesMembers(headers: seq<string>, filas: seq<seq<string>>, p: Product)
    requires HasCoreColumns(headers)
    ensures p in Visibles(headers, filas) <==>
      exists i | 0 <= i < |filas| :: Emits(headers, filas[i], p)
  {
    if |filas| > 0 {
      var n := |filas| - 1;
      VisiblesMembers(headers, filas[..n], p);
      if p in Visibles(headers, filas) {
        if p in Visibles(headers, filas[..n]) {
          var i :| 0 <= i < n && Emits(headers, filas[..n][i], p);
          assert Emits(headers, filas[i], p);
        } else {
          assert Emits(headers, filas[n], p);
        }
      } else {
        forall i | 0 <= i < |filas|
          ensures !Emits(headers, filas[i], p)
        {
          if i < n {
            assert filas[..n][i] == filas[i];
          }
        }
      }
    }
  }

  /** Row `fila` is emitted with category `c`. */
  predicate Contributes(headers: seq<string>, fila: seq<string>, c: string)
    requires HasCoreColumns(headers)
  {
    |fila| >= |headers| && IsVisible(Registro(headers, fila)) && Registro(headers, fila)["Categoria"] == c
  }

  /** A category is listed exactly when some row is emitted with it: no
      hidden or short row contributes a category. */
  lemma CategoriasFromRows(headers: seq<string>, filas: seq<seq<string>>, c: string)
    requires HasCoreColumns(headers)
    ensures c in Categorias(Visibles(headers, filas)) <==>
      exists i | 0 <= i < |filas| :: Contributes(headers, filas[i], c)
  {
    var ps := Visibles(headers, filas);
    if c in Categorias(ps) {
      var p :| p in ps && p["Categoria"] == c;
      VisiblesMembers(headers, filas, p);
      var i :| 0 <= i < |filas| && Emits(headers, filas[i], p);
      assert Contributes(headers, filas[i], c);
    }
    if exists i | 0 <= i < |filas| :: Contributes(headers, filas[i], c) {
      var i :| 0 <= i < |filas| && Contributes(headers, filas[i], c);
      RegistroIsProduct(headers, filas[i]);
      var p: Product := Registro(headers, filas[i]);
      assert Emits(headers, filas[i], p);
      VisiblesMembers(headers, filas, p);
      assert p in ps;
    }
  }

  /** A header naming the core columns has at least two of them. */
  lemma HeaderAtLeastTwo(headers: seq<string>)
    requires HasCoreColumns(headers)
    ensures |headers| >= 2
  {
    assert "Visible" in headers && "Nombre" in headers;
    var i :| 0 <= i < |headers| && headers[i] == "Visible";
    var j :| 0 <= j < |headers| && headers[j] == "Nombre";
    assert i != j;
  }

  /** A trailing newline adds an empty last line, which is one field long
      and so skipped: the catalogue does not change. */
  lemma TrailingNewline(data: string)
    requires HasCoreColumns(Encabezados(data))
    ensures Encabezados(data + "\n") == Encabezados(data)
    ensures Productos(data + "\n") == Productos(data)
  {
    SplitTrailingSep(data, '\n');
    var lines := Split(data, '\n');
    assert Split(data + "\n", '\n') == lines + [""];
    assert Filas(data + "\n")[0] == Filas(data)[0];
    var headers := Encabezados(data);
    assert Encabezados(data + "\n") == headers;
    var empty := Filas(data + "\n")[|lines|];
    assert empty == Split("", ',') == [""];
    assert Filas(data + "\n")[1..] == Filas(data)[1..] + [empty];
    HeaderAtLeastTwo(headers);
    VisiblesConcat(headers, Filas(data)[1..], [empty]);
    VisiblesSingle(headers, empty);
  }
}
