# Catalogue storefront core, modelled in Dafny

A model of the logic in `script.js` of a small storefront. The page shows a product catalogue published as a CSV sheet, lets the visitor filter it and keeps a shopping cart. The cart is sent as an order message. The model covers:

- **Feed parser** (`cargarProductos`). The feed text is split into lines and each line into comma-separated fields, with no quoting. The trimmed first line names the columns. Rows shorter than the header are skipped. A row becomes a product only when its `Visible` field, upper-cased, is `"TRUE"`. The catalogue keeps the visible products in feed order and the set of their categories. Modelled in `Catalog.dfy`, as the class `Catalogo`, the loops `LeerFilas` and `ConstruirRegistro`, and the specification function `Productos`.
- **Filter** (`aplicarFiltros`). A product stays when all of these hold:
  - its lower-cased name or description contains the lower-cased search text;
  - its category is the selected one, or the selection is `"todas"`;
  - its parsed price lies within the bounds. Each bound is parsed with `parseFloat`. An unparsable bound is unset, and an unparsable price fails every set bound.

  Modelled in `Filters.dfy`, on top of a generic `Filter` that plays the role of `Array.prototype.filter`.
- **Grouping** (`mostrarCatalogo`). The visible products are grouped by category, in order of first appearance. Modelled in `Grouping.dfy`.
- **Exclusive accordion** (`habilitarAcordeon`). Drawing the sections closes all of them. A click closes every section and reopens the clicked one unless it was already open. Modelled in `Accordion.dfy`, as a class over an `array<bool>` of "abierta" flags.
- **Cart** (`carrito`). Adding a product:
  - raises the quantity of the line with the same name;
  - or appends a new line with quantity 1.

  Removing a line is `splice(idx, 1)`. The badge shows the sum of the quantities. The listing and the order message sum `precio * cantidad` from left to right. Sending the order empties the cart. Modelled in `Cart.dfy`, as the class `Carrito` and the specification functions `Agregado`, `Eliminado`, `Cantidad` and `Total`.
- **JavaScript primitives** used by the above. `JsText.dfy` has `split`/`join`, `trim` (with the ECMAScript white-space set), ASCII `toUpperCase`/`toLowerCase` and `includes`. `JsNumber.dfy` has `parseFloat`, plus `+` and `*` with NaN (`None`) absorbing.

Prices are exact reals. NaN is `None`, and every operation involving NaN yields NaN, as in JavaScript.

Three behaviours of the code worth noting:

- Removing a cart line with an invalid index is not an error. `splice` clamps the index: negative indices count from the end, and an index past the end changes nothing.
- The parser keeps no list of row errors. Short rows are skipped silently.
- `agrupados` is a plain object. A category named after a member every object inherits, such as `constructor`, `toString` or `__proto__`, finds that member at script.js:65. No array is created, and the `push` at script.js:66 throws a TypeError. The model's grouping returns `None` in that case.

## Model

| member | source | states |
|---|---|---|
| Catalog.Filas | script.js:15 | There is one row per line. Each row is a non-empty list of comma-free fields, and joining them back with commas restores the line. |
| Catalog.Encabezados | script.js:16 | There is one column name per field of the first line. Name j is field j with only white space cut from its two ends, and no name has white space at either end. |
| Catalog.IsVisible | script.js:28 | A row is visible if and only if its `Visible` field spells "true" in any mix of cases. The grouping at script.js:64 applies the same test. |
| Catalog.Catalogo.constructor | script.js:4-5 | The catalogue starts with no products and no categories. |
| Catalog.Catalogo.CargarProductos | script.js:15-32 | The catalogue becomes exactly the visible products of the feed, in feed order, and `categorias` becomes exactly their categories. When the header has no `Visible` column, the catalogue is left empty: the first long row throws inside the `try`, or every row is skipped as shorter than the header. |
| Catalog.LeerFilas | script.js:21-32 | The row loop yields `Visibles` of the rows after the header, and the set of their categories. |
| Catalog.LeerFila | script.js:22-31 | One loop pass pushes a product if and only if the row is as long as the header and visible. The product pushed is the row's object. |
| Catalog.ConstruirRegistro | script.js:24-27 | The `headers.forEach` loop builds the row's object `Registro(headers, fila)`. |
| Catalog.Registro | script.js:24-27 | The object of a row has exactly the header names as keys. |
| Catalog.RegistroFields | script.js:25-27 | Each column's key holds the trimmed field at its position. When a name repeats, the rightmost column wins. |
| Catalog.Visibles | script.js:21-31 | The row loop pushes at most one product per row, and every product it pushes is visible. |
| Catalog.Productos | script.js:15-31 | The feed yields fewer products than it has lines, because the header line yields none. Every product is visible. |
| Catalog.Categorias | script.js:30 | The category set holds exactly the categories some product has, and it is no larger than the product list. |
| Catalog.VisiblesConcat | script.js:21-32 | The row loop is compositional: the products of two runs of rows are the concatenation of each run's products, in order. |
| Catalog.VisiblesSingle | script.js:23-31 | One row yields its object exactly when it is as long as the header and visible. Otherwise it yields nothing. |
| Catalog.ShortRowSkipped | script.js:21-23 | A row shorter than the header contributes nothing, and the rows after it are still read. |
| Catalog.VisiblesMembers | script.js:21-31 | A product is in the catalogue if and only if some row is long enough, builds it and is visible. |
| Catalog.CategoriasFromRows | script.js:28-31 | A category is listed if and only if some long, visible row carries it. Hidden and short rows add no category. |
| Catalog.TrailingNewline | script.js:15-23 | A trailing newline in the feed changes neither the header nor the products. |
| JsText.Split | script.js:15 | `split` gives at least one piece, and no piece contains the separator. |
| JsText.JoinSplit | script.js:15 | Joining the pieces of `split` back with the separator restores the text. |
| JsText.SplitJoin | script.js:15 | Splitting a join of separator-free pieces gives those pieces back. |
| JsText.SplitTrailingSep | script.js:15 | A text that ends with the separator splits into one extra, empty, last piece. |
| JsText.Trim | script.js:26 | `trim` never lengthens a field. TrimSpec gives the full specification. |
| JsText.TrimSpec | script.js:16 | `trim` keeps one contiguous slice of the text. Only white space lies outside it, and the slice neither starts nor ends with white space. |
| JsText.ToUpper | script.js:28 | No lower-case letter is left. Each one becomes the capital that lower-cases back to it, and every other character is kept. |
| JsText.UpperIsTrue | script.js:28 | The visibility test accepts exactly the 16 spellings of "true" in any case. |
| JsText.ToLower | script.js:117-118 | No capital is left. Each one becomes the letter that upper-cases back to it, and every other character is kept. |
| JsText.LowerOfUpper | script.js:109 | Lower-casing forgets the case a text was typed in: the upper-cased text lower-cases to the same result. |
| JsText.Includes | script.js:117-118 | `includes` holds when the searched text occurs at some position. IncludesOccurs relates it to a reference search. |
| JsText.IncludesOccurs | script.js:117-118 | `includes` agrees, in both directions, with a position-by-position reference search. |
| JsText.IncludesEmpty | script.js:117 | Every text includes the empty text, so an empty search matches every product. |
| JsNumber.ParseFloat | script.js:123 | `parseFloat` is NaN if and only if, after white space and one sign, the text starts neither with a digit nor with a point followed by a digit. |
| JsNumber.ParseFloatEmpty | script.js:112 | An empty price box parses to NaN, which leaves the bound unset. |
| JsNumber.ParseFloatNatString | script.js:123 | A plain decimal numeral parses to the number it denotes. |
| JsNumber.DigitsValueNatString | script.js:123 | Reading a numeral back gives the number it was written from. |
| JsNumber.Plus | script.js:156 | A sum is a number if and only if both operands are numbers: NaN absorbs. Also used for the order total at script.js:302. |
| JsNumber.Times | script.js:156 | A price times a count is a number if and only if the price is. Also used for the order at script.js:301. |
| JsNumber.TimesSucc | script.js:301 | `precio * (cantidad + 1)` equals `precio * cantidad + precio`. NaN stays NaN. |
| Filters.Coincide | script.js:116-129 | The filter callback: the text, category, lower-bound and upper-bound tests all hold. AplicarFiltros, PrecioNaN and FiltrarNarrowing state its consequences. |
| Filters.Filter | script.js:115 | `filter` returns no more elements than its input. Every element it returns is accepted. Every accepted element of the input is returned. |
| Filters.AplicarFiltros | script.js:115-130 | The filtered list holds only products matching all four criteria, and it holds every catalogue product that matches them. |
| Filters.FilterCount | script.js:115 | Each element occurs in the result as often as in the input when the callback accepts it, and not at all otherwise. |
| Filters.FiltrarIsSubsequence | script.js:115-130 | The filtered list is a subsequence of the catalogue, so catalogue order is kept. |
| Filters.FiltrarCount | script.js:115-130 | Multiplicities: a matching product occurs as often as in the catalogue, and a non-matching one never. |
| Filters.FiltrarConcat | script.js:115-130 | Filtering distributes over concatenation of catalogues. |
| Filters.FiltrarIdempotent | script.js:115-130 | Filtering twice with the same form values is the same as filtering once. |
| Filters.BusquedaSinMayusculas | script.js:109-118 | The search ignores case: a search text typed in capitals filters exactly as the same text in small letters. |
| Filters.FiltrarSinCriterios | script.js:108-130 | With an empty search, "todas" and both price boxes unparsable, the whole catalogue is shown. |
| Filters.PrecioNaN | script.js:123-125 | A product with an unparsable price matches if and only if it passes the text and category tests and neither bound is set. |
| Filters.FiltrarNarrowing | script.js:112-129 | Tightening the price bounds never lets a product through that the looser bounds rejected. |
| Grouping.IndiceGrupo | script.js:65 | For a category that is not an inherited member, the lookup `agrupados[c]` finds the group of `c` if one exists, and reports its absence otherwise. |
| Grouping.Agregar | script.js:64-66 | One `forEach` step throws if and only if the product is visible and its category names an inherited member. Otherwise it adds at most one group. |
| Grouping.Agrupar | script.js:62-68 | When the loop does not throw, there are no more groups than products. |
| Grouping.AgruparFalla | script.js:62-68 | The grouping throws if and only if some visible product's category names an inherited member. |
| Grouping.AgruparSpec | script.js:62-68 | The grouping succeeds exactly when no visible category is an inherited member. It then follows the categories of the visible products in order of first appearance, and each group holds exactly the visible products of its category, in list order. |
| Grouping.AgruparGroups | script.js:62-68 | When the grouping succeeds, no two groups share a category and no group is empty. A category then has a group if and only if some visible product carries it. |
| Grouping.PrimerasCategoriasSpec | script.js:62-68 | The first-appearance category list has no repeats and holds exactly the categories of the visible products. |
| Accordion.Transicion | script.js:185-197 | A click flips the clicked section and leaves every other section closed. |
| Accordion.Acordeon.constructor | script.js:179-181 | Every section starts closed. |
| Accordion.Acordeon.Clic | script.js:183-198 | After a click, all flags are cleared, and the clicked one is set only if it was clear before. At most one section is open. |
| Accordion.ClicAbiertas | script.js:183-198 | After any click, no section is open if the clicked one was open, and exactly one is open otherwise. |
| Accordion.ClicToggle | script.js:185-197 | Clicking the open section closes everything. Clicking a closed section leaves exactly that section open. |
| Accordion.ClicSequence | script.js:183-198 | Clicking A and then a different B leaves only B open. Clicking A twice restores the all-closed state, or leaves only A open if A was open at the start. |
| Cart.Buscar | script.js:262 | `carrito.find` stops at the first line with the name, or reports that no line has it. |
| Cart.Agregado | script.js:262-264 | An add grows the cart by at most one line, and afterwards some line carries the name with a quantity of at least 1. |
| Cart.Eliminado | script.js:169 | `splice(idx, 1)` removes at most one line and introduces none. |
| Cart.Cantidad | script.js:139-142 | The badge count is at least the quantity of every line. |
| Cart.Subtotal | script.js:301 | A line's subtotal is a number if and only if its price parsed, and a line of quantity 0 contributes 0. TimesSucc relates consecutive quantities. |
| Cart.Total | script.js:153-156 | The total is a number, not NaN, if and only if every line's price parsed. |
| Cart.Carrito.constructor | script.js:6 | The cart starts empty and satisfies the cart invariant: one line per name, every quantity at least 1. |
| Cart.Carrito.Agregar | script.js:262-264 | The loop finds the line and the cart becomes `Agregado(old cart, nombre, precio)`, keeping the invariant. |
| Cart.Carrito.EliminarProducto | script.js:168-169 | The cart becomes `Eliminado(old cart, idx)`, keeping the invariant. |
| Cart.Carrito.Resumen | script.js:153-164 | The listing has one entry per line, in order, each with name, quantity and `precio * cantidad`. The running total is `Total` of the cart. |
| Cart.Carrito.EnviarPedido | script.js:288-320 | The order lists every line, in order, with its subtotal and the total of the cart before sending. The cart is then empty. |
| Cart.AgregarBien | script.js:262-264 | Adding keeps one line per name and every quantity at least 1. |
| Cart.AgregarExistente | script.js:262-263 | Adding a name already in the cart raises that line's quantity by one and changes no other line, order included. |
| Cart.AgregarNuevo | script.js:262-264 | Adding a new name appends a line with that price and quantity 1 at the end. |
| Cart.AgregarCuenta | script.js:139-142 | Every add raises the badge count by exactly one and leaves the lines of other names as they were. |
| Cart.AgregarTotal | script.js:262-264 | Every add raises the total by the unit price of the line it touched: the existing line's price, or the new one's. |
| Cart.EliminarSpec | script.js:168-169 | `splice(idx, 1)` has three cases. An index inside the cart removes exactly that line and lowers the count by its quantity. A negative index counts from the end, clamped to the first line. An index past the end changes nothing. |
| Cart.EliminarBien | script.js:168-169 | Removing keeps the cart invariant. |
| Cart.TotalSuma | script.js:300-306 | The running total equals the sum of the subtotals when every price parsed, and is NaN as soon as one did not. |
| Cart.CarritoVacio | script.js:320 | The empty cart has nothing to remove, count 0 and total 0. |
| Cart.DosWidgets | script.js:262-264 | Adding "Widget" at 9.99 twice gives one line of quantity 2 and a total of 19.98. |

## Left out

- Fetching the sheet and the surrounding `try`/`catch` (script.js:11-14, 36-38) are left out. The feed text is a parameter. A failed fetch leaves the previous catalogue, which is outside the model.
- DOM rendering is not modelled: the category selector (script.js:44-53), the product cards (script.js:70-102), the modal windows and the event wiring (script.js:145-148, 245-281). The accordion works on one flag per section instead of CSS classes.
- `habilitarLeerMas` (script.js:205-240) is left out. It only truncates descriptions on screen.
- The WhatsApp link is left out: `encodeURIComponent`, the phone number and `window.open` (script.js:310-317).
- The text layout of the cart listing and the order message is not modelled (script.js:158-164, 291-307). This includes the customer fields and `toFixed(2)`. The model keeps their content: names, quantities, subtotals and total.
- Floating-point rounding is not modelled. Prices, subtotals and totals are exact reals, so 9.99 * 2 is exactly 19.98.
- `parseFloat` of `"Infinity"` is read as NaN instead of infinity. The hexadecimal and other non-decimal forms it rejects are rejected too.
- `toUpperCase` and `toLowerCase` map only ASCII letters. Full Unicode case mapping is not modelled.
- The price of the card clicked to add to the cart (script.js:257-261, `textContent.replace("$", "")` then `parseFloat`) is taken as an input of `Agregar`.
- The ordering of `for (let cat in agrupados)` (script.js:70) is not modelled. JavaScript lists integer-like keys first, in ascending order. The model keeps first-appearance order for all categories.
- Catalog.Catalogo.CargarProductos requires that a header with a `Visible` column also names `Nombre`, `Descripcion`, `Categoria` and `Precio`. Without them the script builds objects whose missing fields are `undefined`, and the model has no such values.
- Column names that are special object properties are not modelled. A column called `__proto__` is treated as an ordinary key, whereas the assignment at script.js:26 does not store a string under that name: it is silently dropped. Category values that name inherited members are modelled; see the grouping above.
- After the grouping throws, the script either swallows the error in the `catch` of `cargarProductos` or leaves it uncaught in the `aplicarFiltros` listener. Which path is taken, and the partial page it leaves, are not modelled. The grouping result is `None`.
