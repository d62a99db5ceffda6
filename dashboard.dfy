/** The warehouse dashboard: which prompt each operation of the sidebar sends to
    the warehouse agent, and where the agent routes it. */
module Dashboard {
  import opened Text
  import opened Queries
  import opened BodegaAgent

  // The operations of the sidebar, in the order they are offered.
  const ViewInventory := "Ver inventario completo"
  const SearchProduct := "Buscar producto por código"
  const RegisterEntry := "Registrar entrada de productos"
  const RegisterExit := "Registrar salida de productos"
  const LowStockAlerts := "Alertas de stock bajo"
  const MovementReport := "Generar reporte de movimientos"

  const Operations := [ViewInventory, SearchProduct, RegisterEntry, RegisterExit, LowStockAlerts, MovementReport]

  /** The characters `str(x)` can produce for a non-negative float `x`: digits, the
      point, an exponent, and the words `inf` and `nan`. */
  predicate PriceChars(s: string) {
    forall i | 0 <= i < |s| :: '0' <= s[i] <= '9' || s[i] in ".e+-infa"
  }

  /** The price as the form renders it, already turned into text. */
  type PriceText = s: string | PriceChars(s) witness "0.0"

  /** What the user typed into the entry form. */
  datatype EntryForm = EntryForm(
    codigo: string, nombre: string, categoria: string, precio: PriceText,
    stock: int, stockMin: int, ubicacion: string, motivo: string)

  /** One `label: value` line of the entry prompt. */
  datatype Field = Field(caption: string, value: string)

  /** The indentation the triple-quoted prompt keeps on every line: twelve spaces. */
  const Indent := "            "

  /** One line of a form: a new line, the indentation, the caption, `: ` and the value. */
  function Line(fd: Field): (r: string)
    ensures |r| > |fd.value| && r[0] == '\n'
    ensures r[|r| - |fd.value|..] == fd.value
  {
    "\n" + Indent + fd.caption + ": " + fd.value
  }

  /** The lines of a form, each one starting a new line. */
  function Lines(fs: seq<Field>): (r: string)
    ensures fs != [] ==> |r| > 0 && r[0] == '\n'
  {
    if fs == [] then "" else Line(fs[0]) + Lines(fs[1..])
  }

  const Labels := ["Código", "Nombre", "Categoría", "Precio", "Stock", "Stock mínimo", "Ubicación", "Motivo"]

  /** The fields of the entry prompt, in order; the two quantities are printed with `str`. */
  function EntryFields(f: EntryForm): (fs: seq<Field>)
    ensures |fs| == |Labels| && forall i | 0 <= i < |fs| :: fs[i].caption == Labels[i]
    ensures fs[0].value == f.codigo && fs[1].value == f.nombre && fs[2].value == f.categoria
    ensures fs[3].value == f.precio && fs[6].value == f.ubicacion && fs[7].value == f.motivo
    ensures fs[4].value == IntToString(f.stock) && fs[5].value == IntToString(f.stockMin)
  {
    [ Field(Labels[0], f.codigo), Field(Labels[1], f.nombre), Field(Labels[2], f.categoria),
      Field(Labels[3], f.precio), Field(Labels[4], IntToString(f.stock)),
      Field(Labels[5], IntToString(f.stockMin)), Field(Labels[6], f.ubicacion),
      Field(Labels[7], f.motivo) ]
  }

  const EntryTitle := "Registrar entrada de producto: "
  const EntryHeader := "\n" + Indent + EntryTitle
  const EntryTrailer := "\n" + Indent

  /** The prompt of "Registrar entrada de productos". */
  function EntryPrompt(f: EntryForm): (r: string)
    ensures |r| >= |EntryHeader| + |EntryTrailer|
    ensures r[..|EntryHeader|] == EntryHeader && r[|r| - |EntryTrailer|..] == EntryTrailer
  {
    EntryHeader + Lines(EntryFields(f)) + EntryTrailer
  }

  const SearchHead := "Buscar producto con código"

  /** The prompt of "Buscar producto por código". */
  function SearchPrompt(codigo: string): (r: string)
    ensures |r| == |SearchHead| + 1 + |codigo| && r[|SearchHead| + 1..] == codigo
  {
    SearchHead + " " + codigo
  }

  /** The prompt the dashboard sends for an operation; every operation without a form
      sends its own label. */
  function PromptFor(operation: string, codigo: string, form: EntryForm): (r: string)
    ensures operation == SearchProduct ==> r == SearchPrompt(codigo)
    ensures operation == RegisterEntry ==> r == EntryPrompt(form)
    ensures operation in Operations && operation != SearchProduct && operation != RegisterEntry ==> r == operation
  {
    if operation == SearchProduct then SearchPrompt(codigo)
    else if operation == RegisterEntry then EntryPrompt(form)
    else operation
  }

  /** The request the warehouse agent hands on for an operation. */
  function Submit(operation: string, codigo: string, form: EntryForm): (r: Request)
    ensures r.connection == Mysql
    ensures r.prompt == Translate(PromptFor(operation, codigo, form))
  {
    Run(map["prompt" := PromptFor(operation, codigo, form)])
  }

  /** Some field the user types in contains keyword `k`, once lowercased. */
  predicate TypedContains(f: EntryForm, k: string) {
    || Contains(Lower(f.codigo), k) || Contains(Lower(f.nombre), k)
    || Contains(Lower(f.categoria), k) || Contains(Lower(f.ubicacion), k)
    || Contains(Lower(f.motivo), k)
  }

  // ---- The fixed-label operations ----

  /** "Ver inventario completo" asks for the products in stock. */
  lemma ViewInventoryRouting()
    ensures Classify(ViewInventory) == Inventory
    ensures Translate(ViewInventory) == InventorySql
  {
    PresentAt(Lower(ViewInventory), InventoryKeyword, 4);
  }

  /** "Alertas de stock bajo" asks for the products below their minimum. */
  lemma LowStockAlertsRouting()
    ensures Classify(LowStockAlerts) == LowStock
    ensures Translate(LowStockAlerts) == LowStockSql
  {
    assert Avoids(LowStockAlerts, "vV");
    AbsentLetter(LowStockAlerts, InventoryKeyword, 2, "vV");
    PresentAt(Lower(LowStockAlerts), LowStockKeyword, 11);
  }

  /** "Registrar salida de productos" contains no keyword and is passed through. */
  lemma RegisterExitRouting()
    ensures Classify(RegisterExit) == Fallback
    ensures Translate(RegisterExit) == RegisterExit
  {
    var cs := "vVjJnN";
    assert Avoids(RegisterExit, cs);
    AbsentLetter(RegisterExit, InventoryKeyword, 2, cs);
    AbsentLetter(RegisterExit, LowStockKeyword, 8, cs);
    AbsentLetter(RegisterExit, EntryKeyword, 1, cs);
  }

  // The words of "Generar reporte de movimientos".
  const Word1 := "Generar"
  const Word2 := "reporte"
  const Word3 := "de"
  const Word4 := "movimientos"

  lemma MovementWords()
    ensures MovementReport == Word1 + " " + (Word2 + " " + (Word3 + " " + Word4))
    ensures Avoids(Word1, "vVtT") && Avoids(Word2, "vVnN") && Avoids(Word3, "vVnN")
    ensures Avoids(Word4, "aA")
  {
  }

  /** A keyword without spaces occurs in "Generar reporte de movimientos" only inside a word. */
  lemma MovementSearch(k: string)
    requires |k| > 0 && ' ' !in k
    ensures Contains(Lower(MovementReport), k) <==>
      Contains(Lower(Word1), k) || Contains(Lower(Word2), k) || Contains(Lower(Word3), k) || Contains(Lower(Word4), k)
  {
    MovementWords();
    SpaceSplit(Word3, Word4, k);
    SpaceSplit(Word2, Word3 + " " + Word4, k);
    SpaceSplit(Word1, Word2 + " " + (Word3 + " " + Word4), k);
  }

  /** "Generar reporte de movimientos" contains no keyword and is passed through: neither
      "inventario" nor "entrada" fits in one of its words, and it has no `j`. */
  lemma MovementReportRouting()
    ensures Classify(MovementReport) == Fallback
    ensures Translate(MovementReport) == MovementReport
  {
    MovementKeywords();
  }

  /** The three keywords are absent from "Generar reporte de movimientos". */
  lemma MovementKeywords()
    ensures !Contains(Lower(MovementReport), InventoryKeyword)
    ensures !Contains(Lower(MovementReport), LowStockKeyword)
    ensures !Contains(Lower(MovementReport), EntryKeyword)
  {
    MovementLacksLowStock();
    MovementLacks(InventoryKeyword, 2, 2, 2, 6);
    MovementLacks(EntryKeyword, 2, 1, 1, 4);
  }

  /** "stock bajo" needs a `j`, which "Generar reporte de movimientos" lacks. */
  lemma MovementLacksLowStock()
    ensures !Contains(Lower(MovementReport), LowStockKeyword)
  {
    assert Avoids(MovementReport, "jJ");
    AbsentLetter(MovementReport, LowStockKeyword, 8, "jJ");
  }

  /** A keyword without spaces is absent when each word lacks one of its letters: the
      letter at `j1` for the first word, and so on. */
  lemma MovementLacks(k: string, j1: int, j2: int, j3: int, j4: int)
    requires |k| > 0 && ' ' !in k
    requires 0 <= j1 < |k| && 'a' <= k[j1] <= 'z' && k[j1] in "vVtT" && UpperChar(k[j1]) in "vVtT"
    requires 0 <= j2 < |k| && 'a' <= k[j2] <= 'z' && k[j2] in "vVnN" && UpperChar(k[j2]) in "vVnN"
    requires 0 <= j3 < |k| && 'a' <= k[j3] <= 'z' && k[j3] in "vVnN" && UpperChar(k[j3]) in "vVnN"
    requires 0 <= j4 < |k| && 'a' <= k[j4] <= 'z' && k[j4] in "aA" && UpperChar(k[j4]) in "aA"
    ensures !Contains(Lower(MovementReport), k)
  {
    MovementWords();
    MovementSearch(k);
    AbsentLetter(Word1, k, j1, "vVtT");
    AbsentLetter(Word2, k, j2, "vVnN");
    AbsentLetter(Word3, k, j3, "vVnN");
    AbsentLetter(Word4, k, j4, "aA");
  }

  /** Each operation without a form sends its label, with these results. */
  lemma FixedOperationsRouting(codigo: string, form: EntryForm)
    ensures Submit(ViewInventory, codigo, form) == Request(InventorySql, Mysql)
    ensures Submit(LowStockAlerts, codigo, form) == Request(LowStockSql, Mysql)
    ensures Submit(RegisterExit, codigo, form) == Request(RegisterExit, Mysql)
    ensures Submit(MovementReport, codigo, form) == Request(MovementReport, Mysql)
  {
    assert |ViewInventory| != |SearchProduct| && |ViewInventory| != |RegisterEntry|;
    assert |LowStockAlerts| != |SearchProduct| && |LowStockAlerts| != |RegisterEntry|;
    assert |RegisterExit| != |SearchProduct| && |RegisterExit| != |RegisterEntry|;
    assert |MovementReport| != |SearchProduct| && MovementReport[0] != RegisterEntry[0];
    ViewInventoryRouting();
    LowStockAlertsRouting();
    RegisterExitRouting();
    MovementReportRouting();
  }

  // ---- The search operation ----

  /** The fixed words of the search prompt hold no keyword, and none straddles them and the code. */
  lemma SearchKeywords(codigo: string)
    ensures Contains(Lower(SearchPrompt(codigo)), InventoryKeyword) <==> Contains(Lower(codigo), InventoryKeyword)
    ensures Contains(Lower(SearchPrompt(codigo)), LowStockKeyword) <==> Contains(Lower(codigo), LowStockKeyword)
    ensures Contains(Lower(SearchPrompt(codigo)), EntryKeyword) <==> Contains(Lower(codigo), EntryKeyword)
  {
    SearchTextKeywords(codigo);
  }

  /** `SearchKeywords` on the spelled-out prompt. */
  lemma SearchTextKeywords(codigo: string)
    ensures Contains(Lower(SearchHead + " " + codigo), InventoryKeyword) <==> Contains(Lower(codigo), InventoryKeyword)
    ensures Contains(Lower(SearchHead + " " + codigo), LowStockKeyword) <==> Contains(Lower(codigo), LowStockKeyword)
    ensures Contains(Lower(SearchHead + " " + codigo), EntryKeyword) <==> Contains(Lower(codigo), EntryKeyword)
  {
    var rest := " " + codigo;
    assert SearchHead + " " + codigo == SearchHead + rest;
    // "inventario" and "entrada" have no space: cut at the last one of the fixed words.
    SearchLetters();
    AbsentLetter(SearchHead, InventoryKeyword, 2, "vVeE");
    AbsentLetter(SearchHead, EntryKeyword, 0, "vVeE");
    Barrier(SearchHead, rest, InventoryKeyword);
    Barrier(SearchHead, rest, EntryKeyword);
    DropPrefix(" ", codigo, InventoryKeyword, "iIeE");
    DropPrefix(" ", codigo, EntryKeyword, "iIeE");
    // "stock bajo" has a space but no `ó`: cut there instead.
    var before, after := SearchBefore, SearchAfter;
    assert SearchHead + " " + codigo == before + (after + codigo);
    AbsentLetter(before, LowStockKeyword, 8, "jJ");
    Barrier(before, after + codigo, LowStockKeyword);
    DropPrefix(after, codigo, LowStockKeyword, "sS");
  }

  const SearchBefore := "Buscar producto con c"
  const SearchAfter := "ódigo "

  lemma SearchLetters()
    ensures Avoids(SearchHead, "vVeE") && Avoids(" ", "iIeE")
    ensures Avoids(SearchBefore, "jJ") && Avoids(SearchAfter, "sS")
  {
  }

  /** A search takes the branch its code takes, and otherwise goes through verbatim. */
  lemma SearchRouting(codigo: string)
    ensures Classify(SearchPrompt(codigo)) == Classify(codigo)
    ensures Translate(SearchPrompt(codigo)) ==
      match Classify(codigo)
      case Inventory => InventorySql
      case LowStock => LowStockSql
      case _ => SearchPrompt(codigo)
  {
    SearchKeywords(codigo);
  }

  /** The search operation: the sentence with the code goes through verbatim unless the
      code itself names a query keyword. */
  lemma SearchOperation(codigo: string, form: EntryForm)
    ensures PromptFor(SearchProduct, codigo, form) == "Buscar producto con código " + codigo
    ensures Submit(SearchProduct, codigo, form) == Request(
      match Classify(codigo)
      case Inventory => InventorySql
      case LowStock => LowStockSql
      case _ => "Buscar producto con código " + codigo,
      Mysql)
  {
    SearchPromptWords(codigo);
    SearchRouting(codigo);
  }

  /** The search prompt spelled out. */
  lemma SearchPromptWords(codigo: string)
    ensures SearchPrompt(codigo) == "Buscar producto con código " + codigo
  {
  }

  // ---- The entry form ----

  /** Text made of characters below the letters: line breaks, spaces, colons. */
  predicate Unlettered(s: string) {
    forall i | 0 <= i < |s| :: s[i] < 'A'
  }

  lemma UnletteredAvoids(s: string, c: char)
    requires Unlettered(s) && 'a' <= c <= 'z'
    ensures Avoids(s, [c, UpperChar(c)])
  {
  }

  /** A line shows a keyword exactly when its value does, provided its label does not. */
  lemma LineContains(fd: Field, k: string)
    requires |k| > 0 && 'a' <= k[0] <= 'z' && ':' !in k
    requires !Contains(Lower(fd.caption), k)
    ensures Contains(Lower(Line(fd)), k) <==> Contains(Lower(fd.value), k)
  {
    var lead, cs := "\n" + Indent, [k[0], UpperChar(k[0])];
    assert Unlettered(lead) && Unlettered(": ");
    UnletteredAvoids(lead, k[0]);
    UnletteredAvoids(": ", k[0]);
    assert Line(fd) == lead + (fd.caption + (": " + fd.value));
    DropPrefix(lead, fd.caption + (": " + fd.value), k, cs);
    Barrier(fd.caption, ": " + fd.value, k);
    DropPrefix(": ", fd.value, k, cs);
  }

  /** Some value of `fs` contains `k`, once lowercased. */
  predicate SomeValueContains(fs: seq<Field>, k: string) {
    exists i | 0 <= i < |fs| :: Contains(Lower(fs[i].value), k)
  }

  lemma SomeValueCons(fs: seq<Field>, k: string)
    requires fs != []
    ensures SomeValueContains(fs, k) <==> Contains(Lower(fs[0].value), k) || SomeValueContains(fs[1..], k)
  {
    if SomeValueContains(fs, k) {
      var i :| 0 <= i < |fs| && Contains(Lower(fs[i].value), k);
      if i > 0 {
        assert Contains(Lower(fs[1..][i - 1].value), k);
      }
    }
    if SomeValueContains(fs[1..], k) {
      var i :| 0 <= i < |fs[1..]| && Contains(Lower(fs[1..][i].value), k);
      assert Contains(Lower(fs[i + 1].value), k);
    }
  }

  /** The lines of a form, followed by text that starts a new line, show a keyword
      exactly when that text or one of the values does. */
  lemma {:induction false} LinesContain(fs: seq<Field>, t: string, k: string)
    requires |k| > 0 && 'a' <= k[0] <= 'z' && ':' !in k && '\n' !in k
    requires forall i | 0 <= i < |fs| :: !Contains(Lower(fs[i].caption), k)
    requires t == [] || t[0] == '\n'
    ensures Contains(Lower(Lines(fs) + t), k) <==> Contains(Lower(t), k) || SomeValueContains(fs, k)
    decreases |fs|
  {
    if fs == [] {
      assert Lines(fs) + t == t;
    } else {
      LinesContain(fs[1..], t, k);
      LinesCons(fs, t);
      LineThenContains(fs[0], Lines(fs[1..]) + t, k);
      SomeValueCons(fs, k);
    }
  }

  /** The first line of a block, then the rest, which again starts a new line unless empty. */
  lemma LinesCons(fs: seq<Field>, t: string)
    requires fs != []
    requires t == [] || t[0] == '\n'
    ensures Lines(fs) + t == Line(fs[0]) + (Lines(fs[1..]) + t)
    ensures var u := Lines(fs[1..]) + t; u == [] || u[0] == '\n'
  {
  }

  /** A line followed by text that starts a new line shows a keyword exactly when the
      line's value or that text does. */
  lemma LineThenContains(fd: Field, u: string, k: string)
    requires |k| > 0 && 'a' <= k[0] <= 'z' && ':' !in k && '\n' !in k
    requires !Contains(Lower(fd.caption), k)
    requires u == [] || u[0] == '\n'
    ensures Contains(Lower(Line(fd) + u), k) <==> Contains(Lower(fd.value), k) || Contains(Lower(u), k)
  {
    Barrier(Line(fd), u, k);
    LineContains(fd, k);
  }

  /** Letters of the keywords that the labels lack. */
  lemma LabelLetters()
    ensures forall i | 0 <= i < 7 :: Avoids(Labels[i], "vVjJ")
    ensures Avoids(Labels[7], "nNjJ")
  {
    FirstLabelLetters();
    LastLabelLetters();
  }

  lemma FirstLabelLetters()
    ensures Avoids(Labels[0], "vVjJ") && Avoids(Labels[1], "vVjJ")
    ensures Avoids(Labels[2], "vVjJ") && Avoids(Labels[3], "vVjJ")
  {
  }

  lemma LastLabelLetters()
    ensures Avoids(Labels[4], "vVjJ") && Avoids(Labels[5], "vVjJ")
    ensures Avoids(Labels[6], "vVjJ") && Avoids(Labels[7], "nNjJ")
  {
  }

  /** No label of the entry form contains "inventario" or "stock bajo". */
  lemma LabelsLackQueryKeywords()
    ensures forall i | 0 <= i < |Labels| ::
      !Contains(Lower(Labels[i]), InventoryKeyword) && !Contains(Lower(Labels[i]), LowStockKeyword)
  {
    LabelLetters();
    forall i | 0 <= i < |Labels|
      ensures !Contains(Lower(Labels[i]), InventoryKeyword) && !Contains(Lower(Labels[i]), LowStockKeyword)
    {
      if i < 7 {
        AbsentLetter(Labels[i], InventoryKeyword, 2, "vVjJ");
        AbsentLetter(Labels[i], LowStockKeyword, 8, "vVjJ");
      } else {
        AbsentLetter(Labels[i], InventoryKeyword, 1, "nNjJ");
        AbsentLetter(Labels[i], LowStockKeyword, 8, "nNjJ");
      }
    }
  }

  /** A rendered price holds neither "inventario" nor "stock bajo". */
  lemma PriceHoldsNoQueryKeyword(p: PriceText)
    ensures !Contains(Lower(p), InventoryKeyword) && !Contains(Lower(p), LowStockKeyword)
  {
    forall i | 0 <= i < |p| ensures p[i] !in "vVjJ" {
    }
    AbsentLetter(p, InventoryKeyword, 2, "vVjJ");
    AbsentLetter(p, LowStockKeyword, 8, "vVjJ");
  }

  /** A printed integer holds neither "inventario" nor "stock bajo". */
  lemma IntHoldsNoQueryKeyword(n: int)
    ensures !Contains(Lower(IntToString(n)), InventoryKeyword)
    ensures !Contains(Lower(IntToString(n)), LowStockKeyword)
  {
    var s := IntToString(n);
    forall i | 0 <= i < |s| ensures s[i] !in "vVjJ" {
      assert i == 0 && n < 0 ==> s[i] == '-';
    }
    AbsentLetter(s, InventoryKeyword, 2, "vVjJ");
    AbsentLetter(s, LowStockKeyword, 8, "vVjJ");
  }

  /** The fixed text of the entry prompt: its title contains "entrada" and neither
      query keyword. */
  lemma EntryHeaderKeywords()
    ensures Contains(Lower(EntryHeader), EntryKeyword)
    ensures !Contains(Lower(EntryHeader), InventoryKeyword) && !Contains(Lower(EntryHeader), LowStockKeyword)
  {
    var lead, cs := "\n" + Indent, "vVjJ";
    assert Unlettered(lead);
    assert Avoids(lead, cs);
    TitleLetters();
    AvoidsConcat(lead, EntryTitle, cs);
    AbsentLetter(EntryHeader, InventoryKeyword, 2, cs);
    AbsentLetter(EntryHeader, LowStockKeyword, 8, cs);
    LowerConcat(lead, EntryTitle);
    PresentAt(Lower(EntryTitle), EntryKeyword, 10);
    ContainsInside(Lower(lead), Lower(EntryTitle), [], EntryKeyword);
    assert Lower(lead) + Lower(EntryTitle) + [] == Lower(EntryHeader);
  }

  lemma TitleLetters()
    ensures Avoids(EntryTitle, "vVjJ")
  {
  }

  /** Of the values of the entry prompt, only the typed ones can hold a query keyword. */
  lemma EntryValues(f: EntryForm, k: string)
    requires k == InventoryKeyword || k == LowStockKeyword
    ensures SomeValueContains(EntryFields(f), k) <==> TypedContains(f, k)
  {
    var fs := EntryFields(f);
    PriceHoldsNoQueryKeyword(f.precio);
    IntHoldsNoQueryKeyword(f.stock);
    IntHoldsNoQueryKeyword(f.stockMin);
    if SomeValueContains(fs, k) {
      var i :| 0 <= i < |fs| && Contains(Lower(fs[i].value), k);
      assert i != 3 && i != 4 && i != 5;
    }
    if TypedContains(f, k) {
      if Contains(Lower(f.codigo), k) {
        assert Contains(Lower(fs[0].value), k);
      } else if Contains(Lower(f.nombre), k) {
        assert Contains(Lower(fs[1].value), k);
      } else if Contains(Lower(f.categoria), k) {
        assert Contains(Lower(fs[2].value), k);
      } else if Contains(Lower(f.ubicacion), k) {
        assert Contains(Lower(fs[6].value), k);
      } else {
        assert Contains(Lower(fs[7].value), k);
      }
    }
  }

  /** A query keyword shows in the entry prompt exactly when the user typed it into a field. */
  lemma EntryKeywords(f: EntryForm, k: string)
    requires k == InventoryKeyword || k == LowStockKeyword
    ensures Contains(Lower(EntryPrompt(f)), k) <==> TypedContains(f, k)
  {
    EntryTextKeywords(f, k);
  }

  /** `EntryKeywords` on the spelled-out prompt. */
  lemma EntryTextKeywords(f: EntryForm, k: string)
    requires k == InventoryKeyword || k == LowStockKeyword
    ensures Contains(Lower(EntryHeader + Lines(EntryFields(f)) + EntryTrailer), k) <==> TypedContains(f, k)
  {
    var fs := EntryFields(f);
    var body := Lines(fs) + EntryTrailer;
    assert EntryHeader + Lines(EntryFields(f)) + EntryTrailer == EntryHeader + body;
    EntryHeaderKeywords();
    Barrier(EntryHeader, body, k);
    EntryBodyKeywords(f, k);
  }

  /** The lines of the form and the closing line show a query keyword exactly when a
      typed field holds it. */
  lemma EntryBodyKeywords(f: EntryForm, k: string)
    requires k == InventoryKeyword || k == LowStockKeyword
    ensures Contains(Lower(Lines(EntryFields(f)) + EntryTrailer), k) <==> TypedContains(f, k)
  {
    CaptionsLackQueryKeywords(f, k);
    TrailerKeywords(k);
    LinesContain(EntryFields(f), EntryTrailer, k);
    EntryValues(f, k);
  }

  /** No caption of the entry form holds a query keyword. */
  lemma CaptionsLackQueryKeywords(f: EntryForm, k: string)
    requires k == InventoryKeyword || k == LowStockKeyword
    ensures forall i | 0 <= i < |EntryFields(f)| :: !Contains(Lower(EntryFields(f)[i].caption), k)
  {
    LabelsLackQueryKeywords();
  }

  /** The closing line is blank: it holds no letter. */
  lemma TrailerKeywords(k: string)
    requires k == InventoryKeyword || k == LowStockKeyword
    ensures !Contains(Lower(EntryTrailer), k)
  {
    assert Unlettered(EntryTrailer);
    UnletteredAvoids(EntryTrailer, k[0]);
    AbsentLetter(EntryTrailer, k, 0, [k[0], UpperChar(k[0])]);
  }

  /** The entry prompt always mentions "entrada", so it is forwarded verbatim unless the
      user typed "inventario" or "stock bajo" into one of the text fields. */
  lemma EntryRouting(f: EntryForm)
    ensures Classify(EntryPrompt(f)) ==
      if TypedContains(f, InventoryKeyword) then Inventory
      else if TypedContains(f, LowStockKeyword) then LowStock
      else Entry
    ensures Translate(EntryPrompt(f)) ==
      if TypedContains(f, InventoryKeyword) then InventorySql
      else if TypedContains(f, LowStockKeyword) then LowStockSql
      else EntryPrompt(f)
  {
    EntryKeywords(f, InventoryKeyword);
    EntryKeywords(f, LowStockKeyword);
    EntryHeaderKeywords();
    var body := Lines(EntryFields(f)) + EntryTrailer;
    assert EntryPrompt(f) == EntryHeader + body;
    LowerConcat(EntryHeader, body);
    ContainsInside([], Lower(EntryHeader), Lower(body), EntryKeyword);
    assert [] + Lower(EntryHeader) + Lower(body) == Lower(EntryPrompt(f));
  }
}
