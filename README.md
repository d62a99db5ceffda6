# Warehouse agent: keyword routing, dashboard prompts and low-stock warnings

This project models the core of a small warehouse ("bodega") inventory system in Dafny:

- **`BodegaAgent.run`.** It reads the `prompt` of its input, which defaults to the empty string.
- **The keyword test.** It lowercases the prompt and tests three keywords in a fixed order, first match wins:
  - `"inventario"` selects `SELECT * FROM productos WHERE stock_actual > 0`;
  - `"stock bajo"` selects `SELECT * FROM productos WHERE stock_actual < stock_minimo`;
  - `"entrada"`, and every other prompt, send the prompt on unchanged, with its original case.
- **The hand-off.** The chosen statement goes to the database agent together with the fixed connection `{"type": "mysql", "database": "bodega_inventory"}`. The database agent is outside the model, so `BodegaAgent.Run` returns the request it would receive.
- **`get_options`.** It returns the single string option `prompt`.
- **The dashboard's prompts.** This is the prompt each sidebar operation sends:
  - a search sends `Buscar producto con código <code>`;
  - the entry form sends a multi-line, indented text built from its eight fields;
  - every other operation sends its own label.
- **The dashboard's warnings.** After an operation without a form, the dashboard loops over the returned `results`. It shows one warning for each record whose `stock_actual` is below its `stock_minimo`, with a missing field counting as 0.

Modules:

- `Text`: ASCII `str.lower`, the substring test `k in s`, and `str(n)` for integers.
- `Values`: the Python values that come back from the database layer, `dict.get`, truthiness and Python's `<`.
- `Queries`: the two fixed statements and the `WHERE` condition of the low-stock query.
- `BodegaAgent`: the routing.
- `Dashboard`: the prompts of the operations and where they are routed.
- `Alerts`: the warning loop. `Alerts.ShowAlerts` is the loop; it is proved equal to the pure `Alerts.WarningStep`, and that function's properties are proved as lemmas.

The model follows the code's names: table `productos`, columns `stock_actual` and `stock_minimo`.

One detail the code implies is stated exactly. The low-stock statement is produced when the low-stock branch is taken, and also when the prompt *is* that statement: it contains no keyword, so it passes through unchanged. `BodegaAgent.LowStockBranchIff` states both cases.

## Model

| member | source | states |
|---|---|---|
| `Text.Lower` | agent_modules/bodega_agent/agent.py:23 | `prompt.lower()` keeps the length and lowercases each character on its own (ASCII A-Z only) |
| `Text.LowerIdempotent` | agent_modules/bodega_agent/agent.py:23 | lowercasing twice is lowercasing once |
| `Text.Contains` | agent_modules/bodega_agent/agent.py:23 | `k in s`: a key longer than the text never occurs, and the empty key occurs in every text |
| `Text.NatToString` | main_bodega.py:54-55 | `str(n)` of a natural number is a non-empty run of decimal digits |
| `Text.NatToStringDigits` | main_bodega.py:54-55 | those digits read back as `n`, and they start with `0` only when `n` is 0, in which case the text is the single digit `0` |
| `Text.IntToString` | main_bodega.py:54-55 | `str(n)` is non-empty, starts with `-` exactly when `n` is negative, and is all digits after that sign |
| `Text.IntToStringRoundTrip` | main_bodega.py:54-55 | `str(n)` is the canonical decimal text of `n`: only digits and a leading minus sign, no leading zero except the single `0` that `str(0)` is, and it reads back as `n` |
| `Values.Get` | main_bodega.py:71 | `d.get(key, default)` is the stored value when the key is present, the default otherwise |
| `Values.Truthy` | main_bodega.py:69 | a value is false exactly when it is `None`, `False`, `0`, `""`, `[]` or `{}` |
| `Values.Less` | main_bodega.py:71 | Python's `<` compares two integers as integers and two strings in string order, and raises (`None`) when either side is `None` or a string meets an integer |
| `BodegaAgent.Translate` | agent_modules/bodega_agent/agent.py:22-30 | the statement sent is always one of the two fixed SELECTs or the prompt itself |
| `BodegaAgent.Run` | agent_modules/bodega_agent/agent.py:18-35 | the connection is always mysql / bodega_inventory, whatever the prompt, and the statement is a fixed SELECT or the input's prompt |
| `BodegaAgent.GetOptions` | agent_modules/bodega_agent/agent.py:37-40 | exactly one option, named `prompt`, of type `string` |
| `BodegaAgent.PromptOf` | agent_modules/bodega_agent/agent.py:20 | the prompt is the input's `prompt` entry when there is one, and `""` otherwise |
| `BodegaAgent.Classify` | agent_modules/bodega_agent/agent.py:23-30 | the if/elif chain is first-match-wins over the rules inventario, stock bajo, entrada, in that order, on the lowercased prompt |
| `BodegaAgent.InventoryWins` | agent_modules/bodega_agent/agent.py:23-24 | a prompt containing "inventario" (any case) gets the stock > 0 query, whatever other keywords it has |
| `BodegaAgent.LowStockBranchIff` | agent_modules/bodega_agent/agent.py:25-26 | the low-stock branch is taken iff "stock bajo" occurs and "inventario" does not; the low-stock query is sent iff that branch is taken or the prompt is the query itself |
| `BodegaAgent.EntryIsPassthrough` | agent_modules/bodega_agent/agent.py:27-30 | the entrada branch is taken iff only "entrada" of the three keywords occurs; it and the fallback both send the prompt unchanged |
| `BodegaAgent.InventorySqlIsFallback` | agent_modules/bodega_agent/agent.py:24 | the stock > 0 query contains none of the keywords |
| `BodegaAgent.LowStockSqlIsFallback` | agent_modules/bodega_agent/agent.py:26 | the low-stock query contains none of the keywords |
| `BodegaAgent.FixedStatementsAreFallback` | agent_modules/bodega_agent/agent.py:24-26 | both fixed statements fall into the fallback branch |
| `BodegaAgent.PassthroughIff` | agent_modules/bodega_agent/agent.py:22-30 | the prompt comes back unchanged iff it takes the entrada or the fallback branch |
| `BodegaAgent.TranslateIdempotent` | agent_modules/bodega_agent/agent.py:22-30 | routing the routed statement again changes nothing |
| `BodegaAgent.CaseInsensitive` | agent_modules/bodega_agent/agent.py:23-27 | prompts with the same lowercase form take the same branch; the fixed statements are shared and passed-through prompts keep their own case |
| `BodegaAgent.ClassifyLower` | agent_modules/bodega_agent/agent.py:23-27 | a prompt and its lowercase form take the same branch |
| `BodegaAgent.MissingPrompt` | agent_modules/bodega_agent/agent.py:20-35 | an input without `prompt` is treated as `""`, which falls back and is sent as `""` |
| `Dashboard.Line` | main_bodega.py:50-57 | a form line starts on a new line and ends with the value typed |
| `Dashboard.Lines` | main_bodega.py:48-58 | every non-empty block of form lines starts with a line break |
| `Dashboard.EntryFields` | main_bodega.py:50-57 | the eight fields carry the labels in the prompt's order; the text fields and the price keep what was entered, and the two quantities are their `str` |
| `Dashboard.EntryPrompt` | main_bodega.py:48-58 | the entry prompt opens with the indented title line and closes with a new, indented line |
| `Dashboard.SearchPrompt` | main_bodega.py:31 | the search prompt ends with the code exactly as typed, after as many characters as the fixed words and a space (the words themselves are stated by `Dashboard.SearchOperation`) |
| `Dashboard.PromptFor` | main_bodega.py:28-65 | a search sends the search prompt, the entry form sends the entry prompt, and every other offered operation sends its own label |
| `Dashboard.Submit` | main_bodega.py:28-65 | every operation reaches the database agent with the MySQL connection and the agent's routing of the operation's prompt |
| `Dashboard.ViewInventoryRouting` | main_bodega.py:18 | "Ver inventario completo" takes the inventario branch and gets the stock > 0 query |
| `Dashboard.RegisterExitRouting` | main_bodega.py:21 | "Registrar salida de productos" contains no keyword and is sent unchanged |
| `Dashboard.LowStockAlertsRouting` | main_bodega.py:22 | "Alertas de stock bajo" takes the low-stock branch and gets the low-stock query |
| `Dashboard.MovementReportRouting` | main_bodega.py:23 | "Generar reporte de movimientos" contains no keyword and is sent unchanged |
| `Dashboard.MovementKeywords` | main_bodega.py:23 | "Generar reporte de movimientos" contains none of the three keywords, once lowercased |
| `Dashboard.MovementLacksLowStock` | main_bodega.py:23 | "Generar reporte de movimientos" has no `j`, so it cannot contain "stock bajo" |
| `Dashboard.MovementLacks` | main_bodega.py:23 | a keyword without spaces is absent from "Generar reporte de movimientos" when each of its words lacks one of the keyword's letters |
| `Dashboard.FixedOperationsRouting` | main_bodega.py:62-65 | each operation without a form sends its label, and the agent hands on the stock > 0 query, the low-stock query, or the label, always with the MySQL connection |
| `Dashboard.SearchKeywords` | main_bodega.py:31 | the search prompt contains each keyword exactly when the typed code does: the fixed words hold none, and none straddles them and the code |
| `Dashboard.SearchTextKeywords` | main_bodega.py:31 | the same, stated on the spelled-out search prompt |
| `Dashboard.SearchRouting` | main_bodega.py:31 | a search takes the branch of its code, and is sent unchanged unless the code names a query keyword |
| `Dashboard.SearchPromptWords` | main_bodega.py:31 | the search prompt is the f-string `"Buscar producto con código {codigo}"` spelled out |
| `Dashboard.SearchOperation` | main_bodega.py:28-31 | the prompt of the search operation is exactly `"Buscar producto con código " + codigo`, whatever the code; the agent replaces it by a fixed query only when the code itself takes the inventario or low-stock branch |
| `Dashboard.LineContains` | main_bodega.py:50-57 | a `label: value` line contains a keyword exactly when its value does, provided its label does not |
| `Dashboard.LinesContain` | main_bodega.py:48-58 | a block of form lines followed by a new line contains a keyword exactly when the following text or some value does |
| `Dashboard.LinesCons` | main_bodega.py:48-58 | a block of form lines is its first line followed by the rest, which again starts a new line unless empty |
| `Dashboard.LineThenContains` | main_bodega.py:50-58 | a form line followed by text starting a new line contains a keyword exactly when the line's value or that text does |
| `Dashboard.LabelsLackQueryKeywords` | main_bodega.py:50-57 | no label of the entry form contains "inventario" or "stock bajo" |
| `Dashboard.CaptionsLackQueryKeywords` | main_bodega.py:50-57 | no caption of the entry prompt contains a query keyword |
| `Dashboard.PriceHoldsNoQueryKeyword` | main_bodega.py:53 | a rendered price contains neither query keyword |
| `Dashboard.IntHoldsNoQueryKeyword` | main_bodega.py:54-55 | a printed quantity contains neither query keyword |
| `Dashboard.EntryHeaderKeywords` | main_bodega.py:49 | the title line contains "entrada" and neither query keyword |
| `Dashboard.EntryValues` | main_bodega.py:50-57 | some value of the entry prompt contains a query keyword iff one of the five typed text fields does |
| `Dashboard.EntryKeywords` | main_bodega.py:48-58 | the entry prompt contains a query keyword exactly when the user typed it into a text field |
| `Dashboard.EntryTextKeywords` | main_bodega.py:48-58 | the same, stated on the spelled-out entry prompt |
| `Dashboard.EntryBodyKeywords` | main_bodega.py:50-58 | the form lines and the closing line contain a query keyword exactly when a typed text field does |
| `Dashboard.TrailerKeywords` | main_bodega.py:58 | the closing line of the entry prompt is blank and contains no query keyword |
| `Dashboard.EntryRouting` | main_bodega.py:47-59 | the entry prompt always takes the entrada branch and is sent verbatim, unless a typed field contains "inventario" (stock > 0 query) or else "stock bajo" (low-stock query) |
| `Alerts.ItemStep` | main_bodega.py:71-72 | an item is warned about iff it is a record and `stock_actual < stock_minimo` holds with 0 for a missing field; the comparison raises iff Python's `<` does on those values; the warning carries the name (or "N/A") and the stock; any other item is skipped |
| `Alerts.Filter` | main_bodega.py:70-72 | at most one warning per item |
| `Alerts.FirstRaise` | main_bodega.py:71 | the position of the first item whose comparison raises, or the length when none does |
| `Alerts.ShowAlerts` | main_bodega.py:69-72 | the loop shows exactly the warnings, and raises exactly when, the pure description says |
| `Alerts.FilterSnoc` | main_bodega.py:70-72 | one more item adds its own warning, if any, at the end |
| `Alerts.FilterStep` | main_bodega.py:70-72 | one pass of the loop: the warnings of the first i + 1 items are those of the first i, then item i's own |
| `Alerts.FilterAppend` | main_bodega.py:70-72 | warnings keep the order of the items: the filter of a concatenation is the concatenation of the filters |
| `Alerts.FilterMembership` | main_bodega.py:70-72 | a warning is shown iff some item produces it |
| `Alerts.FilterAllWarn` | main_bodega.py:70-72 | items that all warn give their warnings one by one, in order |
| `Alerts.MissingBoth` | main_bodega.py:71 | a record with neither stock field compares 0 with 0 and is never warned about |
| `Alerts.MissingMinimum` | main_bodega.py:71 | a record without `stock_minimo` is warned about iff its stock is negative |
| `Alerts.WarnIffLowStockWhere` | main_bodega.py:71 | on integer columns the dashboard's test is the WHERE condition of the low-stock query, in both directions |
| `Alerts.NoResults` | main_bodega.py:69 | no warning and no exception when `results` is missing or empty |
| `Alerts.AlertsOf` | main_bodega.py:70-72 | over a list, the loop raises iff some item's comparison raises; when it raises it has shown the warnings of the items before the first raising one, and otherwise the filter of all items, at most one per item |
| `Alerts.WarningStep` | main_bodega.py:69-72 | nothing happens when `results` is falsy; a list is looped over; a truthy string or dictionary yields no warning and no exception; a truthy integer or boolean raises |
| `Alerts.LowStockRowsAllFlagged` | agent_modules/bodega_agent/agent.py:26 | every row the low-stock query selects gets exactly one warning with its name (or "N/A") and stock, in row order, and the loop runs to the end |

## Left out

- `DBAgent.run` is not part of this model: executing SQL and the shape of what it returns are outside the modelled code. `BodegaAgent.Run` returns the request, and the warning step takes the returned dictionary as a parameter.
- `BaseAgent`, `ProviderManager`, `config/settings.yaml` and the LLM providers are not part of this model. The routing never consults them.
- The Streamlit widgets, buttons, page reruns and the displays `st.write`/`st.success`/`st.warning` are not modelled.
  - `Alerts.ShowAlerts` returns the warnings instead of drawing them.
  - A warning keeps the two values the message shows (name and current stock), not the formatted text with its emoji.
- The price is a float widget. `Dashboard.EntryForm` holds it already rendered as text (`Dashboard.PriceText`: digits, `.`, exponent signs, `inf`, `nan`). Float formatting itself is not modelled.
- The widget minimum of 1 for the two quantities is not enforced. The entry lemmas hold for every integer.
- Lowercasing covers ASCII A-Z only. Python's full Unicode `str.lower` is not modelled, e.g. KELVIN SIGN becoming `k`. The keywords are ASCII, but a non-ASCII character that lowercases to an ASCII letter could, in Python, complete a keyword that this model does not see. The labels' accented letters are taken in composed form.
- The prompt value is modelled as a string. A non-string `prompt` in the input dictionary, which would make `.lower()` fail, is not modelled.
- Values.Less: orders integers, booleans and strings as Python does, and treats every other pair as an exception. Python also orders two lists (lexicographically, using `==` on the items), and a record may hold lists in its stock fields: a record with `stock_actual` `[]` and `stock_minimo` `[1]` is warned about by Python but raises in this model. Floats, `Decimal`s and tuples are not values of this model.
- A `result` that is not a dictionary, where `result.get` would fail, is not modelled: `Alerts.WarningStep` takes a map. An exception is reported as a `raised` flag with the warnings shown before it, not propagated.
- `Queries.LowStockWhere` models the WHERE condition on integer columns only. A NULL or missing column is not selected; MySQL's other types and its coercions are not modelled.
- backend/api.py is not part of this model. It is HTTP plumbing, and `get_productos` there has no body.
- frontend/config/api.js is not part of this model. It is network I/O with a duplicated export.
- scripts/init_bodega_db.py is not part of this model. It only hands a schema definition to the database agent.
- providers/base_provider.py is not part of this model. It is a single abstract method.
- The code has no entry or exit transaction, stock-update statement, non-negativity guard or movement ledger, so nothing about them is stated.
- The agent's `name`, `description` and `capabilities` are plain constants (`BodegaAgent.Name`, `BodegaAgent.Description`, `BodegaAgent.Capabilities`) with nothing to prove about them.
