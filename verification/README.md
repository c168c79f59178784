# Gestão-E accounting core in Dafny

This project models the accounting core of Gestão-E, a small point-of-sale
web app for a shop, and proves properties about it. The core works on
three lists:

- the **product catalogue** (stock, prices, minimum stock);
- the **transaction ledger** (sales, expenses, incomes and production
  logs, soft-cancelled but never deleted);
- the **cash-register sessions**.

The model covers:

- the store's handlers, as a class with those three lists as fields
  (`App.AppState`);
- the point-of-sale cart, as a class (`Pos.Cart`), and checkout;
- the cash-register session totals, as a loop proved against folds;
- inventory: summary figures, saving, deleting, the stock form and
  search;
- the reports: daily sales, the per-method chart and table with the
  average ticket, the top-five ranking, and the CSV import loop;
- the CSV and PDF export values;
- the dashboard's daily figures.

Modelling choices:

- Money is integer cents. The source's add, subtract and multiply each
  round to two decimals, so on cents they are exact integer operations.
- Timestamps are integers.
- Values the program gets from outside are parameters:
  - the locale's day key, date and time renderings;
  - currency formatting;
  - fresh identifiers;
  - the current time;
  - parsed numbers (`Option<int>`, where `None` stands for NaN).

Modules, in dependency order:

| module | file | what it holds |
|---|---|---|
| `Types` | types.dfy | records of `types.ts`, identifier lookups |
| `Seqs` | seqs.dfy | filter and sum folds and their algebra |
| `Text` | text.dfy | case mapping, trim, split/join, number rendering |
| `Money` | money.dfy | cent arithmetic, ticket rounding, decimal comma |
| `Stock` | stock.dfy | stock increase and per-line restoration |
| `Ledger` | ledger.dfy | cancellation and the append-only ledger relation |
| `Inventory` | inventory.dfy | inventory screen |
| `App` | app.dfy | the store state and its handlers |
| `Pos` | pos.dfy | catalogue, cart, checkout |
| `CashRegister` | cash_register.dfy | session window, totals, drawer, forms |
| `Grouping` | grouping.dfy | group-by-key accumulation loop |
| `Sorting` | sorting.dfy | stable descending sort, top-n |
| `Reports` | reports.dfy | charts, tables, ranking, CSV import |
| `Export` | export.dfy | CSV file and PDF values |
| `Dashboard` | dashboard.dfy | today's figures |
| `Reconciliation` | reconciliation.dfy | sale-then-cancel stock conservation |

The datatypes of `Types` encode the shape the source declares:

- a transaction kind is exactly one of SALE, EXPENSE, INCOME and
  PRODUCTION;
- a method column holds one of the five payment methods or the 'N/A'
  marker;
- status and line items are optional, and only an explicit CANCELLED
  makes an entry inactive (`Types.IsActive`);
- a session has two states, with optional closing time, final amount and
  counted amount.

Caller guards of the handlers are stated as preconditions:

- a second session cannot be opened while one is OPEN
  (components/CashRegister.tsx:133);
- a cancel reason must be non-blank (components/CashRegister.tsx:103);
- a cart line stays within the product's stock (components/POS.tsx:30,42).

Behaviour of the code worth noting:

- The session window is every transaction dated at or after the opening
  time. There is no upper bound at the closing time.
- Handlers that cannot act return silently rather than reporting an
  error: closing without an open session, and a stock entry or
  cancellation for an unknown id.
- A production stock entry posts a PRODUCTION log of amount 0 with method
  'N/A'.
- The opening float is an INCOME paid in cash. It is in the drawer but
  excluded from revenue by its description.
- The open handler itself does not refuse a second open session; only
  the screen does.
- The CSV export writes productions as "Entrada", while the PDF writes
  "Produção".
- CSV import recognises an expense only by the unaccented word SAIDA, so
  a type field spelled "Saída" imports as income
  (`Reports.AccentedIsNotExpense`).

## Model

| member | source | states |
|---|---|---|
| Types.MethodName | types.ts:1-7 | each payment method has its stored display value; the value is 'N/A' exactly for the production marker |
| Types.MethodNameInjective | types.ts:1-7 | distinct methods are stored distinctly |
| Types.FindTransaction | App.tsx:165 | the first ledger index with the id; none exactly when no entry has it |
| Types.FindProduct | App.tsx:141 | the first catalogue index with the id; none exactly when no product has it |
| Money.AddCommutative | utils.ts:7 | add on cents is commutative |
| Money.SubtractUndoesAdd | utils.ts:7-8 | subtract(add(a, b), b) == a |
| Money.MultiplyStep | utils.ts:9 | one more (or one fewer) unit adds (or subtracts) one price; the cart uses it when a unit is added to a line |
| Money.MultiplyDistributes | utils.ts:9 | price times (a + b) is the sum of the two products |
| Money.RoundDiv | components/Reports.tsx:67 | the quotient rounded to the nearest cent, half away from zero: within half a cent of the exact average, never on the wrong side of zero |
| Money.DecimalComma | utils.ts:26 | the amount with a comma before the last two digits and a leading minus exactly for negative amounts |
| Money.DecimalCommaDigits | utils.ts:26 | every character other than the sign and the comma is a decimal digit |
| Money.DecimalCommaReadsBack | utils.ts:26 | the digits before the comma read as the whole units of the magnitude and the two after it as the remaining cents |
| Money.DecimalCommaRoundTrip | utils.ts:26 | reading the rendered text back gives the amount |
| Text.TrimEmptyIffBlank | components/CashRegister.tsx:103 | a trimmed text is empty exactly when every character is white space or a line terminator, as `trim()` counts them |
| Text.SplitJoin | utils.ts:30-33 | splitting a join of separator-free pieces gives the pieces back |
| Text.JoinSplit | components/Reports.tsx:138 | joining a split with its separator gives the text back |
| Text.NatToStringValue | utils.ts:26 | the decimal digits of a number read back as the number |
| Text.Lower | components/Inventory.tsx:100-101 | keeps the length; each character is mapped as `toLowerCase` maps ASCII and Latin-1 capitals, any other character is kept |
| Text.Upper | components/Reports.tsx:152 | each sharp s becomes "SS" and makes the text one character longer; without one, each character is mapped as `toUpperCase` maps ASCII and Latin-1 |
| Text.Trim | components/Reports.tsx:143 | the text is the result with only white space before and after it, and the result neither starts nor ends with white space |
| Text.Split | components/Reports.tsx:147 | at least one piece, none holding a separator; the pieces are fixed by Text.SplitUnify and Text.JoinSplitAny |
| Text.Unify | components/Reports.tsx:147 | the same length, each ';' or ',' (any character of the separator set) replaced by the one separator and every other character kept |
| Text.SplitUnify | components/Reports.tsx:147 | splitting on ';' or ',' gives the same pieces as splitting on ';' alone once every ',' is turned into ';' |
| Text.JoinSplitAny | components/Reports.tsx:147 | joining the fields of a ';'/',' split with ';' gives the line back with every separator written as ';' |
| Ledger.Active | components/Reports.tsx:23 | only non-cancelled entries are kept |
| Ledger.CancelMatching | App.tsx:168-170 | keeps the length and every id; entries with another id are unchanged; each entry with the id becomes CANCELLED with the reason, its other fields kept |
| Ledger.CancelUnique | App.tsx:168-170 | with distinct ids, cancelling touches exactly the found entry, which becomes CANCELLED with the reason |
| Ledger.CancelExtends | App.tsx:164-171 | a cancellation of an active entry keeps every entry in place, unchanged or cancelled; nothing is removed, reordered or re-valued |
| Ledger.CancelLeavesCancelled | App.tsx:164-166 | after a cancellation the first entry with that id is CANCELLED, so a repeat finds nothing to do |
| Ledger.CancelLowersActiveCount | App.tsx:164-171 | cancelling an active entry keeps the length and lowers the active count by one |
| Ledger.CancelActivity | App.tsx:168-170 | an entry is active after cancelling id exactly when it was active and has another id |
| Ledger.CancelEachCount | App.tsx:164-171 | N distinct active entries with M distinct of them cancelled: N stay, N - M active, the active ones exactly those not cancelled |
| Ledger.CancelEachActivity | App.tsx:164-171 | cancelling a list of ids on a ledger of active entries leaves active exactly the entries whose id is not in the list |
| Ledger.FindAppended | App.tsx:135-138 | an entry recorded under a fresh id is found at the end of the ledger |
| Ledger.ExtendsByAppend | App.tsx:185-187 | appending keeps the ledger as a prefix |
| Ledger.ExtendsTransitive | App.tsx:93-187 | the append-only relation composes over successive handler calls |
| Stock.Restocked | App.tsx:144-146 | the products with the id gain exactly the quantity in stock; every other product, and every other field, is unchanged; order and length are kept |
| Stock.RestoreStock | App.tsx:173-182 | keeps the length and every product's id; the change in stock is stated by Stock.RestoreStockEffect |
| Stock.RestoreStockEffect | App.tsx:173-182 | with distinct ids, each product's stock rises by exactly the quantity the restored lines carry for it; nothing else changes |
| Stock.RestoreUnknownLines | App.tsx:176-179 | lines naming no listed product are skipped |
| App.ActiveSessionOf | App.tsx:91 | the active session is an OPEN session of the list; none exactly when no session is OPEN |
| App.FindOpen | App.tsx:91 | the index of the first OPEN session, none exactly when none is OPEN |
| App.OpeningFloat | App.tsx:106-114 | an active cash INCOME of the float, described 'Abertura de Caixa', dated now, without items |
| App.CloseMatching | App.tsx:118-133 | keeps the length; a session with the id becomes CLOSED with the closing time and counted amount, keeping its id, opening, float and final amount; every other session is unchanged |
| App.CloseLeavesNoneOpen | App.tsx:118-133 | closing the active session leaves no OPEN session and every final amount untouched |
| App.StockEntryLog | App.tsx:149-159 | a purchase logs a cash EXPENSE of its cost; a production logs a PRODUCTION of 0 with 'N/A'; both COMPLETED without items |
| App.AppState.constructor | App.tsx:23-25 | the store starts from the given lists |
| App.AppState.OpenSession | App.tsx:93-116 | appends exactly one OPEN session and one COMPLETED cash INCOME 'Abertura de Caixa' of the float; products unchanged; the new session is the active one |
| App.AppState.CloseSession | App.tsx:118-133 | no-op without an OPEN session; otherwise only that session becomes CLOSED with closing time and counted amount; nothing is OPEN afterwards |
| App.AppState.CompleteSale | App.tsx:135-138 | appends the sale with status forced to COMPLETED and replaces the product list; earlier entries keep their order |
| App.AppState.StockEntry | App.tsx:140-162 | unknown product: nothing changes; otherwise only that product's stock rises by the quantity and one log entry is appended |
| App.AppState.CancelTransaction | App.tsx:164-183 | missing or already cancelled id: nothing changes; otherwise the entry is cancelled with the reason and, for a sale with items, its lines are given back to stock |
| App.AppState.RestoreLines | App.tsx:173-182 | the loop over the sold lines, working on a copy of the product list, leaves the products of the line-by-line restoration |
| App.AppState.ImportTransactions | App.tsx:185-187 | appends the imported entries after the existing ones |
| App.AppState.AddTransaction | App.tsx:223 | appends the entry with status COMPLETED |
| App.AppState.SaveProduct | components/Inventory.tsx:57-70 | the product list becomes the saved list, or stays when the form is refused |
| App.AppState.DeleteProduct | components/Inventory.tsx:72-76 | the product list loses the products with that id |
| Pos.FindEntry | components/POS.tsx:28 | the first cart line for the product, none exactly when no line has it |
| Pos.Matching | components/POS.tsx:21-23 | exactly the in-stock products whose name contains the term ignoring case |
| Pos.MatchingInOrder | components/POS.tsx:21-23 | matches keep the catalogue order: a product added at the end is listed after the earlier matches exactly when it matches |
| Pos.Catalogue | components/POS.tsx:21-25 | with all shown, every match; otherwise the first four matches, or all of them when there are fewer, in catalogue order |
| Pos.AddedToCart | components/POS.tsx:27-36 | a product without a line gets a new last line of one unit, otherwise the length is kept; no line changes product and lines of other products are unchanged |
| Pos.UpdatedQuantity | components/POS.tsx:38-46 | keeps the length and each line's product; lines of other products are unchanged; a changed line moved by exactly the delta to a quantity within 1..stock |
| Pos.RemovedFromCart | components/POS.tsx:48-50 | keeps exactly the lines of other products |
| Pos.Total | components/POS.tsx:52 | never negative when no line has a negative price or quantity |
| Pos.AddToCartKeepsInvariant | components/POS.tsx:27-36 | adding keeps one line per product with quantities in 1..stock |
| Pos.AddToCartEffect | components/POS.tsx:27-36 | the product's quantity rises by one exactly while below its stock; other products' quantities are unchanged; the total rises by the price exactly when a unit was added |
| Pos.BumpedSingle | components/POS.tsx:31 | with one line per product, the increment changes only the found line |
| Pos.ReplaceLine | components/POS.tsx:31 | replacing a product's line with another quantity within stock keeps the invariant and the line positions, changes only that product's quantity, and moves the total by the difference of the two line totals |
| Pos.AppendLine | components/POS.tsx:34-35 | a first line for a product gives it the line's quantity, leaves every other product's quantity alone and adds the line total |
| Pos.UpdateQuantityKeepsInvariant | components/POS.tsx:38-46 | updating keeps the invariant and never touches other products |
| Pos.UpdateQuantityApplies | components/POS.tsx:38-46 | a new quantity in 1..stock is applied and the total moves by price times the change |
| Pos.UpdateQuantityRejected | components/POS.tsx:38-46 | a new quantity outside 1..stock leaves the cart unchanged |
| Pos.RemoveFromCartEffect | components/POS.tsx:48-50 | removing keeps the invariant, leaves no units of the product and lowers the total by exactly its line |
| Pos.RemovedSingle | components/POS.tsx:48-50 | the cart without the product's line, the others in order |
| Pos.Cart.constructor | components/POS.tsx:13 | the cart starts empty |
| Pos.Cart.AddToCart | components/POS.tsx:27-36 | the cart becomes the added cart and keeps its invariant |
| Pos.Cart.UpdateQuantity | components/POS.tsx:38-46 | the cart becomes the updated cart and keeps its invariant |
| Pos.Cart.RemoveFromCart | components/POS.tsx:48-50 | the cart becomes the cart without the product and keeps its invariant |
| Pos.Cart.Clear | components/POS.tsx:107 | the cart is emptied after checkout |
| Pos.Change | components/POS.tsx:54-58 | never negative; total plus change is the amount received when it covers the total; 0 when nothing parsable was received or it does not exceed the total |
| Pos.CheckoutSale | components/POS.tsx:60-104 | refused exactly when no method is chosen, when cash is chosen with no open session, or when cash received is missing or below the total; otherwise a SALE of the total with the chosen method, the SaleDescription text and one snapshot per line, and the decremented products |
| Pos.SaleItemsSumToTotal | components/POS.tsx:82-94 | the snapshots' price times quantity sum to the sale amount |
| Pos.Decremented | components/POS.tsx:98-104 | keeps the length; each product's stock falls by its cart quantity and nothing else changes |
| Pos.SaleDescription | components/POS.tsx:67-80 | starts with 'Venda PDV - ', the number of cart lines in decimal digits and ' itens'; more follows exactly for a cash sale with a received amount or a term sale with a non-blank note |
| Pos.CheckoutKeepsStockNonNegative | components/POS.tsx:98-104 | with cart lines bounded by stock, no stock becomes negative |
| CashRegister.SessionTransactions | components/CashRegister.tsx:32-34 | empty without a session; otherwise exactly the transactions dated at or after the opening |
| CashRegister.SessionActiveIsOneFilter | components/CashRegister.tsx:32-36 | the session's active transactions are one filter on date and status |
| CashRegister.ComputeTotals | components/CashRegister.tsx:39-67 | the accumulation loop gives cash in, cash out and revenue as sums over the entries; a method has a key exactly when some revenue entry was paid with it, holding the sum of its revenue |
| CashRegister.Accumulate | components/CashRegister.tsx:39-62 | one reducer step: a cash sale or income raises cash in, a cash expense raises cash out, and a sale or an income other than the opening float, paid with a real method, adds its amount to revenue and to its method's entry |
| CashRegister.MethodTotalsBreakdown | components/CashRegister.tsx:53-58 | the per-method map built entry by entry has a key exactly for the methods some revenue entry was paid with, each holding the sum of their revenue |
| CashRegister.NoRevenueSumsToZero | components/CashRegister.tsx:55-56 | a method without revenue entries contributes nothing |
| CashRegister.RevenueIsSumOverMethods | components/CashRegister.tsx:53-58 | total revenue equals the sum of revenue over the five methods |
| CashRegister.DrawerBalance | components/CashRegister.tsx:70-72 | 0 without a session; otherwise the sum over the ledger of cash in less cash out of the active entries dated from the opening |
| CashRegister.ShiftRevenue | components/CashRegister.tsx:53-58 | 0 without a session; otherwise the sum over the ledger of the revenue of the active entries dated from the opening |
| CashRegister.DrawerAfterAppend | components/CashRegister.tsx:39-72 | a new entry moves the drawer by its cash effect and revenue by its revenue when active and in the session, and by nothing otherwise |
| CashRegister.OpeningShowsFloat | components/CashRegister.tsx:39-72 | right after opening, the drawer shows exactly the float and revenue is 0 |
| CashRegister.FirstInShift | components/CashRegister.tsx:32-72 | when every earlier entry predates the opening, the first entry of the session alone makes the drawer and the revenue |
| CashRegister.NothingBeforeOpening | components/CashRegister.tsx:32-72 | entries dated before the opening count neither in the drawer nor in revenue |
| CashRegister.DrawerAfterCancel | components/CashRegister.tsx:36 | cancelling a session entry takes its cash effect and revenue out of the figures |
| CashRegister.ExpenseEntry | components/CashRegister.tsx:84-97 | no entry exactly when the description is empty or the amount is not a number; otherwise a COMPLETED cash EXPENSE of the amount |
| CashRegister.ExpenseLowersDrawer | components/CashRegister.tsx:84-97 | a recorded expense lowers the drawer by its amount and leaves revenue alone |
| CashRegister.ConfirmCancel | components/CashRegister.tsx:102-108 | proceeds exactly with a chosen id and a reason with a non-space character, passing the reason untrimmed |
| CashRegister.UnicodeBlankReasonRefused | components/CashRegister.tsx:103 | a reason made only of the ideographic space, or of the line separator and an em space, is refused |
| Inventory.LowStockCount | components/Inventory.tsx:35 | the number of products at or below their minimum stock; hence at most the number of products, 0 exactly when none is low and all exactly when all are |
| Inventory.TotalUnits | components/Inventory.tsx:36 | never negative when no stock is negative |
| Inventory.StockEntryRaisesUnits | components/Inventory.tsx:36 | a stock entry for a listed product raises total units by its quantity, otherwise by nothing |
| Inventory.Saved | components/Inventory.tsx:57-70 | refused exactly when the name is empty or the sell price missing or 0; editing replaces only the product with that id by the form's values and keeps ids and count; creating appends exactly the form's product under the new id |
| Inventory.SaveKeepsIdsUnique | components/Inventory.tsx:57-70 | saving with a fresh id keeps product ids distinct |
| Inventory.Deleted | components/Inventory.tsx:72-76 | keeps exactly the products with another id |
| Inventory.DeleteRemovesOne | components/Inventory.tsx:72-76 | with distinct ids, exactly the found product is removed, the rest in order, and total units fall by its stock |
| Inventory.StockSubmission | components/Inventory.tsx:87-95 | submitted exactly with a chosen product, a quantity above 0 and, for a purchase, a numeric cost; a production passes cost 0 |
| Inventory.Search | components/Inventory.tsx:99-102 | exactly the products whose name or category contains the term ignoring case |
| Inventory.SearchInOrder | components/Inventory.tsx:99-102 | the listed products keep the catalogue order: a product added at the end is listed after the others exactly when it matches |
| Inventory.EmptySearchListsAll | components/Inventory.tsx:99-102 | an empty term lists the whole catalogue |
| Grouping.GroupSums | components/Reports.tsx:28-36 | the accumulation loop yields the grouped list: distinct keys, one group exactly for each key that occurs |
| Grouping.GroupedKeys | components/Reports.tsx:40-50 | groups have distinct keys, exist exactly for the keys present, and count at least one pair |
| Grouping.GroupedTotals | components/Reports.tsx:53-64 | a group's total and count are the sum and number of the pairs with its key |
| Grouping.GroupedTotalsAt | components/Reports.tsx:28-36 | every group's total is the sum of the amounts paired with its key |
| Grouping.SuffixGroups | components/Reports.tsx:37 | the groups kept by taking the last ones stay distinct, in first-appearance order, each with its key's total |
| Grouping.GroupedSums | components/Reports.tsx:53-64 | group counts sum to the number of pairs, and group totals to the sum of all amounts |
| Grouping.GroupedInFirstAppearanceOrder | components/Reports.tsx:28-36 | groups appear in the order their keys first occur |
| Grouping.GroupedAt | components/Reports.tsx:53-64 | each group's total and count are those of its key |
| Grouping.OneGroupPerKey | components/Reports.tsx:53-64 | each key has exactly one group when it occurs and none otherwise |
| Sorting.SortDescPermutes | components/Reports.tsx:69 | the sort yields a non-increasing permutation of its input |
| Sorting.SortDescMembers | components/Reports.tsx:69 | the sort neither loses nor invents an element |
| Sorting.InsertSorted | components/Reports.tsx:69 | insertion keeps the order and adds exactly the element |
| Sorting.SortDescStable | components/Reports.tsx:85 | elements with equal keys keep their relative order |
| Sorting.SortDescSum | components/Reports.tsx:69 | sorting does not change any sum over the elements |
| Sorting.TopCorrect | components/Reports.tsx:85-86 | the first n are sorted, drawn from the input, and no element left out ranks above the last kept |
| Reports.Sales | components/Reports.tsx:23-27 | only active sales |
| Reports.SalesIsOneFilter | components/Reports.tsx:23-27 | active-then-sale filtering is one filter on both conditions |
| Reports.SalesSumAfterAppend | components/Reports.tsx:23 | a new entry changes report sums exactly when it is an active sale |
| Reports.SalesSumAfterCancel | components/Reports.tsx:23 | cancelling an active sale takes its contribution out of every report sum |
| Reports.KeyedPairsSum | components/Reports.tsx:40-50 | the (key, amount) pairs carry the sales' total |
| Reports.SalesByDay | components/Reports.tsx:26-37 | sums per day of sale amounts, days distinct and in first-appearance order, the last seven of the grouped list |
| Reports.PaymentData | components/Reports.tsx:40-50 | one slice for each method used, each the sum of its sales; slices sum to all sales |
| Reports.PaymentDetailed | components/Reports.tsx:53-69 | one row per method used, non-increasing by total; each row's total, count and rounded ticket are those of its sales; counts sum to the number of active sales and totals to their amount |
| Reports.RowsDescribeGroups | components/Reports.tsx:53-67 | each row carries its method's sale total and count, at least one, and the ticket rounded from them |
| Reports.RowsPerMethod | components/Reports.tsx:53-64 | exactly one row for each method used and none for the others |
| Reports.RowsSums | components/Reports.tsx:53-64 | row counts sum to the number of sales and row totals to their amount |
| Reports.FindItem | components/Reports.tsx:79 | the first line for the product, none exactly when no line has it |
| Reports.Revenue | components/Reports.tsx:76-82 | 0 for a product that no sale has a line for |
| Reports.Ranking | components/Reports.tsx:74-83 | every catalogue product, in order, paired with its revenue |
| Reports.TopProducts | components/Reports.tsx:74-86 | at most five entries, five when the catalogue has that many |
| Reports.TopProductsCorrect | components/Reports.tsx:74-86 | listed products come from the catalogue with the revenue of their first matching lines over active sales, non-increasing, and none left out earned more than the last listed |
| Reports.RevenueAfterCancel | components/Reports.tsx:76-82 | cancelling a sale takes what it earned from a product out of that product's revenue |
| Reports.ParseLine | components/Reports.tsx:143-157 | a line gives an entry exactly when it is non-blank with at least three fields split on ';' or ',' |
| Reports.ParseLineFields | components/Reports.tsx:149-156 | an accepted line is an EXPENSE exactly when the upper-cased third field contains SAIDA, an INCOME otherwise; its amount is the magnitude of the parsed fourth field, or 0 when that field is missing or not a number; its description is 'Importado: ' followed by the second field, or by 'CSV Item' when that field is empty |
| Reports.ImportCsv | components/Reports.tsx:137-165 | the loop over the lines after the header gives one transaction per accepted line, paid cash and COMPLETED; no result exactly when no line was accepted |
| Reports.ParsedLinesKinds | components/Reports.tsx:149-156 | every imported line is an EXPENSE or INCOME with a non-negative amount |
| Reports.UnaccentedIsExpense | components/Reports.tsx:152 | "saida" in any case marks an expense |
| Reports.AccentedIsNotExpense | components/Reports.tsx:152 | the accented spelling "Saída" is not recognised as an expense |
| Reports.EszettSaidaIsExpense | components/Reports.tsx:152 | a type field "ßaida" upper-cases to "SSAIDA" and so marks an expense |
| Export.Quote | utils.ts:23 | the field starts and ends with a double quote |
| Export.UnquoteQuote | utils.ts:23 | reading a written field back gives the original text |
| Export.QuoteInjective | utils.ts:23 | distinct descriptions are written distinctly |
| Export.CsvKindLabel | utils.ts:22 | SALE is Venda, EXPENSE is Despesa, INCOME and PRODUCTION are Entrada |
| Export.CsvStatusLabel | utils.ts:24 | CANCELADO exactly for cancelled entries, ATIVO exactly for the others |
| Export.CsvRow | utils.ts:18-27 | eight fields: the id, the quoted description that reads back as the original, CANCELADO exactly when cancelled, and the decimal-comma amount |
| Export.CsvLines | utils.ts:30-33 | the header line first and then the transactions' lines, one per transaction, cancelled ones included, in order |
| Export.CsvContentLines | utils.ts:30-33 | with no line break in any field, the file splits into the header plus exactly one line per transaction |
| Export.PdfSummary | utils.ts:65-75 | income and expenses partition the active amounts, and the balance is the signed sum of the active entries |
| Export.SummaryIgnoresCancelled | utils.ts:65 | the summary of the ledger is the summary of its active part |
| Export.SummaryAfterCancel | utils.ts:65-75 | cancelling an active entry takes its signed amount out of the balance |
| Export.PdfKindLabel | utils.ts:125 | SALE is Venda, EXPENSE is Despesa, PRODUCTION is Produção and INCOME is Entrada, each exactly; every label is shorter than the cancelled suffix |
| Export.PdfRow | utils.ts:120-135 | the type cell starts with the kind's label and ends with ' (CANCELADO)' exactly for a cancelled entry; the method cell is '-' exactly for 'N/A'; the hidden cell marks cancelled entries |
| Export.PdfRows | utils.ts:120-135 | one row per transaction, cancelled ones included, in order |
| Export.CancelledRows | utils.ts:120-135 | the rows marked cancelled are as many as the entries the summary leaves out |
| Dashboard.TodaysTransactions | components/Dashboard.tsx:29-32 | exactly the ledger's non-cancelled entries whose day key is today's |
| Dashboard.TodaysSales | components/Dashboard.tsx:34-36 | the sum over the ledger of the amounts of the active sales whose day key is today's |
| Dashboard.SalesCount | components/Dashboard.tsx:38 | the number of active sales of the day, at most the ledger's length |
| Dashboard.FiguresAfterAppend | components/Dashboard.tsx:29-38 | a new entry raises total and count exactly when it is an active sale of the day |
| Dashboard.FiguresAfterCancel | components/Dashboard.tsx:29-38 | cancelling a sale of the day takes it out of both the total and the count |
| Reconciliation.QuantityForSaleItems | components/POS.tsx:89-94 | a sale's lines carry, per product, exactly the cart quantity |
| Reconciliation.SaleThenCancelRestoresStock | App.tsx:173-182 | selling a cart and cancelling the sale leaves every product exactly as before |
| Reconciliation.SellThenCancel | App.tsx:135-183 | through the store's own handlers, a sale followed by its cancellation restores the products and leaves the sale in the ledger, cancelled |

## Left out

- Persistence in the browser's local storage, the per-user keys and the
  login screen: storage I/O with no accounting logic.
- Rendering, navigation, modals and React state wiring. Each screen's
  state is a class field or a function argument instead.
- Batching of React state updates. Each handler is modelled as one atomic
  state step.
- The external AI analysis service, which only builds a prompt.
- The mocked PDF import branch, the asynchronous file read and the
  artificial delay. The CSV import takes the file's text as a parameter.
- The file download and all PDF drawing and styling. Only the CSV text,
  the PDF summary figures and the PDF table rows are modelled.
- Binary floating point: `toFixed`, `parseFloat` and `parseInt`. Money is
  integer cents, and parsed user input is an optional integer.
- Date parsing and the locale's date, time and currency rendering, which
  are function parameters. So is the dashboard's clock.
- Random identifiers, which are parameters the caller guarantees to be
  fresh.
- `alert` and `confirm`. The delete confirmation is taken as given.
- App.AppState.CancelTransaction: the source updates product records in
  place through shared references. The model gives the lines back on a
  copy of the list, so aliasing between old and new lists is not
  represented.
- Text.Upper and Text.Lower: case mapping follows the browser on ASCII
  and Latin-1, sharp s to "SS" included, but keeps every character beyond
  Latin-1 as it is, where the browser applies the full Unicode tables
  (Greek and Cyrillic letters, or a dotted capital I that lower-cases to
  two characters). Pos.Matching, Inventory.Search and the expense test of
  Reports.ParseLineFields rely on them.
- Reports.TopProducts: states the length of the list only. Its ordering,
  origin and maximality are proved in Reports.TopProductsCorrect.
- Export.CsvContentLines: is stated only for fields without line breaks,
  because a description holding a line break spans several physical
  lines of the file.
