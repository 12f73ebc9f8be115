# Fiscal declarations of the DFC portal, in Dafny

This project models the fiscal-declaration logic of the portal's front end.
Three pages are covered:

- **Creation page** (`nouvelle-declaration`). There are six tables:
  - receipts (*encaissement*);
  - VAT on fixed assets;
  - VAT on goods and services;
  - stamp duty;
  - turnover taxes at 7 % and 1 % (two bases, `b12` and `b13`);
  - the TAP statement.

  The page covers adding, removing and editing rows, and the footer totals of
  each table. `handleSave` checks the direction, the month, the year and every
  cell of the active table. It then builds a record that carries the active
  table only, and puts that record in front of the list kept in browser
  storage.
- **History page** (`historique`). The page:
  - loads the stored list;
  - infers each record's type from the first group it fills;
  - filters by month, year, direction, type and amount range;
  - shows one record's table;
  - deletes records by id.
- **"My declarations" page** (`mes-declarations`). It lists records of one
  tax type, narrowed by a search over reference, declarant and period that
  ignores case.

Modules, one concept each:

| file | module | what it holds |
|---|---|---|
| `wrappers.dfy` | `Wrappers` | `Option` |
| `text.dfy` | `Text` | `trim`, `toLowerCase` and `includes`, over the character sets listed below |
| `numbers.dfy` | `Numbers` | `parseFloat` and `Number` on decimal text, and the page helper `num` |
| `seqs.dfy` | `Seqs` | `filter` and the adding `reduce` |
| `declaration.dfy` | `Declaration` | the four row types, the stored record, the tab table |
| `rows.dfy` | `RowEditing` | the row operations every table shares |
| `tabs.dfy` | `Tabs` | each table's derived amounts and its row operations |
| `store.dfy` | `Store` | the `fiscal_declarations` storage entry, as a class |
| `new_declaration.dfy` | `NewDeclaration` | the form, the save checks, the record built, `handleSave` |
| `history.dfy` | `History` | the classifier, the amount, the filter, the record view, deletion, the page's state |
| `my_declarations.dfy` | `MyDeclarations` | the tax-type tabs and the search filter |

Amounts are Dafny `real`s, so the rates 1.19, 0.07 and 0.01 are exact.

`num` is `parseFloat(v) || 0`. It is modelled concretely:
- JavaScript's decimal prefix parse applies: an optional sign, digits, an
  optional fraction and an optional exponent, after leading white space.
- The result is 0 when no number can be read.

`Number(bound)` is modelled the same way. It reads the whole trimmed text
(empty text gives 0), and `None` stands for `NaN`.

Browser storage is the value `Absent | Corrupt | Saved(list)`.
- The two pages read it differently:
  - the history page treats a missing or unreadable entry as the empty list;
  - the creation page stores nothing when the entry is unreadable, because the
    parse error is caught and swallowed.
- A refused write, such as one over quota, is a `writable` parameter.
- The clock readings that give a record its `id` and `createdAt` are
  parameters of `HandleSave`.

Three behaviours of the source are easy to miss:
- On the history page a record that fills no group is shown under the key
  `"encaissement"` (`historique/page.tsx:550`), yet the type filter for that
  key does not find it (`historique/page.tsx:306`, `UndefinedNotUnderItsKey`).
- A corrupt storage entry is read as the empty list when the history page
  loads. `handleSave` on the creation page swallows the parse error and skips
  the write instead (`nouvelle-declaration/page.tsx:927-930`).
- The "my declarations" page is unreachable. Its module first exports a
  redirect to the history page (`mes-declarations/page.tsx:1-4`). The filter
  it would compute is modelled as written, over a list that may be any list.
  The placeholder list the page shows is empty (`MockListsNothing`).

`filter` keeps duplicates: a value that passes keeps every copy it had, and a
value that fails keeps none (`Seqs.FilterMultiplicity`). Deleting by id
therefore keeps every copy of every record with another id
(`History.DeleteKeepsCopies`).

## Model

| member | source | states |
|---|---|---|
| Numbers.NumBlank | frontend/app/fisca/nouvelle-declaration/page.tsx:89 | `num` of empty or all-blank text is 0 |
| Numbers.NumNatRoundTrip | frontend/app/fisca/nouvelle-declaration/page.tsx:89 | `num` and `Number` both read a rendered natural number back as that number |
| Numbers.ParseFloatAfterTrim | frontend/app/fisca/nouvelle-declaration/page.tsx:89 | `parseFloat` skips leading white space: it reads the literal at the start of the left-trimmed text |
| Numbers.NumNegative | frontend/app/fisca/historique/page.tsx:62 | `num("-" + s)` is `-num(s)` when `s` starts with neither white space nor a sign; text that does not read as a number gives 0 both ways |
| Numbers.ScanAllDigits | frontend/app/fisca/nouvelle-declaration/page.tsx:89 | a run made only of digits parses, in full, as its decimal value |
| Text.TrimStart | frontend/app/fisca/nouvelle-declaration/page.tsx:829 | the result is a suffix of the input that starts with a non-blank character, and every character dropped is blank |
| Text.TrimEnd | frontend/app/fisca/nouvelle-declaration/page.tsx:829 | the result is a prefix of the input that ends with a non-blank character, and every character dropped is blank |
| Text.BlankIff | frontend/app/fisca/nouvelle-declaration/page.tsx:829 | text trims to "" exactly when every character in it is blank |
| Text.Lower | frontend/app/fisca/historique/page.tsx:302 | lower-casing keeps the length and maps each character on its own |
| Text.LowerIdempotent | frontend/app/fisca/mes-declarations/page.tsx:85-87 | lower-casing twice is lower-casing once |
| Text.ContainsIff | frontend/app/fisca/historique/page.tsx:302 | `includes` holds exactly when the needle occurs at some position of the text |
| Seqs.Filter | frontend/app/fisca/historique/page.tsx:294 | `filter` keeps only elements that pass, drawn from the input, and keeps every input element that passes |
| Seqs.FilterMultiplicity | frontend/app/fisca/historique/page.tsx:294 | after `filter`, a passing value occurs as often as in the input and a failing value not at all |
| Seqs.FilterIsSubsequence | frontend/app/fisca/historique/page.tsx:294-339 | `filter` gives an order-preserving subsequence of its input |
| Seqs.SumAppend | frontend/app/fisca/nouvelle-declaration/page.tsx:109 | the adding `reduce` of a concatenation is the sum of the two parts' reduces |
| Declaration.EncRow.With | frontend/app/fisca/nouvelle-declaration/page.tsx:106 | `{ ...r, [field]: val }` sets the named field and leaves the other field as it was |
| Declaration.TvaRow.With | frontend/app/fisca/nouvelle-declaration/page.tsx:204 | the same, for the nine fields of a VAT row |
| Declaration.TimbreRow.With | frontend/app/fisca/nouvelle-declaration/page.tsx:293 | the same, for a stamp-duty row |
| Declaration.TapRow.With | frontend/app/fisca/nouvelle-declaration/page.tsx:449 | the same, for a TAP row |
| Declaration.TabKeyInjective | frontend/app/fisca/nouvelle-declaration/page.tsx:572-579 | the six tab keys are pairwise distinct |
| RowEditing.AddRow | frontend/app/fisca/nouvelle-declaration/page.tsx:103 | adding a row keeps the existing rows and appends exactly one empty row |
| RowEditing.RemoveRow | frontend/app/fisca/nouvelle-declaration/page.tsx:104 | removing row `i` gives the rows before `i` followed by the rows after it; an index out of range changes nothing |
| RowEditing.UpdateRow | frontend/app/fisca/nouvelle-declaration/page.tsx:105-106 | editing row `i` keeps the length and every other row |
| RowEditing.RemoveUndoesAdd | frontend/app/fisca/nouvelle-declaration/page.tsx:103-104 | removing the row just added gives back the table as it was |
| RowEditing.RemoveAfterUpdate | frontend/app/fisca/nouvelle-declaration/page.tsx:104-106 | editing a row and then removing it is the same as removing it |
| RowEditing.EditsKeepARow | frontend/app/fisca/nouvelle-declaration/page.tsx:151 | with the remove button disabled on the last row, no edit can empty a table |
| RowEditing.AddRowKeepsTotal | frontend/app/fisca/nouvelle-declaration/page.tsx:103-109 | an added empty row leaves a column total unchanged |
| RowEditing.RemoveRowTotal | frontend/app/fisca/nouvelle-declaration/page.tsx:104-109 | removing a row takes exactly its amount off a column total |
| RowEditing.UpdateRowTotal | frontend/app/fisca/nouvelle-declaration/page.tsx:105-109 | editing a row changes a column total by the row's new amount minus its old one |
| Tabs.Ht | frontend/app/fisca/nouvelle-declaration/page.tsx:110 | HT is the amount that, taxed at 19 %, gives the TTC |
| Tabs.Tva | frontend/app/fisca/nouvelle-declaration/page.tsx:111 | HT plus VAT is the TTC, and both lie between 0 and the TTC when the TTC is non-negative |
| Tabs.EncTotalsOf | frontend/app/fisca/nouvelle-declaration/page.tsx:108-112 | footer HT plus VAT equals the footer TTC, HT times 1.19 is the TTC, and the VAT lies within [0, TTC] when every entry is non-negative |
| Tabs.RowColumnsSumToTotals | frontend/app/fisca/nouvelle-declaration/page.tsx:663-664 | the sums of the per-row HT and VAT columns equal the HT and VAT of the total |
| Tabs.UpdateEnc | frontend/app/fisca/nouvelle-declaration/page.tsx:105-106 | `update(i, f, v)` sets field `f` of row `i` to `v`; every other field of that row, and every other row, is unchanged |
| Tabs.AddEncRowKeepsTotals | frontend/app/fisca/nouvelle-declaration/page.tsx:103-112 | adding a row leaves all three receipt totals unchanged |
| Tabs.UpdateEncTotals | frontend/app/fisca/nouvelle-declaration/page.tsx:105-112 | editing a TTC shifts the total by the difference; editing a label leaves all totals unchanged |
| Tabs.UpdateTva | frontend/app/fisca/nouvelle-declaration/page.tsx:203-204 | a VAT-table edit changes only field `f` of row `i` |
| Tabs.RemoveTvaRowTotals | frontend/app/fisca/nouvelle-declaration/page.tsx:202-207 | removing a VAT row takes its HT and its deductible VAT off the two totals |
| Tabs.UpdateTimbre | frontend/app/fisca/nouvelle-declaration/page.tsx:292-293 | a stamp-duty edit changes only field `f` of row `i` |
| Tabs.UpdateTap | frontend/app/fisca/nouvelle-declaration/page.tsx:448-449 | a TAP edit changes only field `f` of row `i` |
| Tabs.FixedRatesOnHundred | frontend/app/fisca/nouvelle-declaration/page.tsx:360-361 | the two turnover rates give 7 and 1 on a base of 100 |
| Tabs.CaTotalsOfWholeBases | frontend/app/fisca/nouvelle-declaration/page.tsx:360-404 | for bases typed as whole numbers, the base total is their sum and the tax total is 7 % of the first plus 1 % of the second |
| Tabs.CaEmptyBase | frontend/app/fisca/nouvelle-declaration/page.tsx:360-404 | an empty base adds nothing to either turnover total |
| Store.Listed | frontend/app/fisca/historique/page.tsx:279-284 | a missing or unreadable entry lists as empty; a saved list lists as itself |
| Store.Existing | frontend/app/fisca/nouvelle-declaration/page.tsx:928 | the creation page's read fails exactly on an unreadable entry, and otherwise agrees with the history page's read |
| Store.AfterPrepend | frontend/app/fisca/nouvelle-declaration/page.tsx:927-930 | a successful write stores the new record followed by the existing list; a parse failure or a refused write leaves the entry as it was |
| Store.PrependThenList | frontend/app/fisca/nouvelle-declaration/page.tsx:928-929 | after a save, the list is one longer, its first element is the new record, and the old records follow in order |
| Store.DeclarationStore.Load | frontend/app/fisca/historique/page.tsx:279-284 | loading returns the listed collection and changes nothing |
| Store.DeclarationStore.ReadExisting | frontend/app/fisca/nouvelle-declaration/page.tsx:928 | the read returns the creation page's view of the entry |
| Store.DeclarationStore.Write | frontend/app/fisca/historique/page.tsx:361 | a write replaces the entry when the browser accepts it and is swallowed otherwise |
| NewDeclaration.InitialRowsPresent | frontend/app/fisca/nouvelle-declaration/page.tsx:811-817 | the page opens with one row in every table |
| NewDeclaration.PickWilaya | frontend/app/fisca/nouvelle-declaration/page.tsx:508 | picking a wilaya sets that row's code and empties its commune; its TAP amount and every other row are unchanged |
| NewDeclaration.Apply | frontend/app/fisca/nouvelle-declaration/page.tsx:103-106 | an action changes only its own table: the other four tables, the tab, direction, period and both bases are unchanged; an add makes the table one row longer, a trash press one row shorter when the row exists and is not the last, and a cell edit or wilaya pick keeps its length |
| NewDeclaration.RowsPresentKept | frontend/app/fisca/nouvelle-declaration/page.tsx:151 | every action on every table (add, trash under the last-row guard, cell edit, wilaya pick) keeps at least one row in each of the five tables |
| NewDeclaration.ReachableRowsPresent | frontend/app/fisca/nouvelle-declaration/page.tsx:811-817 | any sequence of row actions from a form with a row in every table keeps one in every table |
| NewDeclaration.WilayaClearsCommune | frontend/app/fisca/nouvelle-declaration/page.tsx:508 | after a wilaya is picked, that row's commune is empty, so a save from the TAP tab is refused |
| NewDeclaration.ValidateIff | frontend/app/fisca/nouvelle-declaration/page.tsx:827-883 | a save passes exactly when the direction holds text, the month and year are set and the active table is complete; each earlier failed check is the reason reported |
| NewDeclaration.SavedEncRowsFilled | frontend/app/fisca/nouvelle-declaration/page.tsx:846 | every row of a saved receipts table has a label with text and a TTC |
| NewDeclaration.CheckActiveTable | frontend/app/fisca/nouvelle-declaration/page.tsx:843-881 | `validationError` is set exactly when some row of the active table has an empty required cell (on tab 5: when a base is empty) |
| NewDeclaration.BuildKeepsOnlyActiveTab | frontend/app/fisca/nouvelle-declaration/page.tsx:889-925 | the record copies the period, direction, id and date and the active table, and every other group is empty |
| NewDeclaration.SavedRecordHasOneGroup | frontend/app/fisca/nouvelle-declaration/page.tsx:889-925 | a record saved from a valid form fills exactly the group of its tab |
| NewDeclaration.HandleSave | frontend/app/fisca/nouvelle-declaration/page.tsx:827-930 | an invalid form is rejected with its first failing check and storage is untouched; a valid one yields the built record, and storage becomes `AfterPrepend` of the old entry: the record followed by the existing list when the entry is readable and the write succeeds, unchanged otherwise |
| History.TypeOfFirstFilled | frontend/app/fisca/historique/page.tsx:543-549 | the type shown is the first filled group in tab order, with that tab's key, label and colour |
| History.TypeOfNoGroup | frontend/app/fisca/historique/page.tsx:550 | a record with no group filled shows as "Non défini" in grey under the key "encaissement" |
| History.UndefinedNotUnderItsKey | frontend/app/fisca/historique/page.tsx:307 | such a record is not found by the type filter set to the key it is shown under |
| History.HasTypeIff | frontend/app/fisca/historique/page.tsx:305-313 | the type filter accepts a record exactly when the filter value is the key of a tab whose group the record fills |
| History.TypeFilterAgreesWithType | frontend/app/fisca/historique/page.tsx:305-313 | for a record filling one group, the type filter accepts exactly the key the classifier shows |
| History.SavedRecordType | frontend/app/fisca/historique/page.tsx:543-551 | a record saved by the creation page shows as the tab it was saved from, and the type filter accepts exactly that tab's key |
| History.RecordTotalFirstFilled | frontend/app/fisca/historique/page.tsx:316-332 | the amount filtered on is the total of the first filled group: TTC, HT, HT, stamp duty, 7 % of b12 plus 1 % of b13, or TAP |
| History.RecordTotalNoGroup | frontend/app/fisca/historique/page.tsx:318 | a record with no group filled has amount 0 |
| History.SavedRecordTotal | frontend/app/fisca/historique/page.tsx:316-332 | a saved record's amount is the footer total its tab showed when it was saved |
| History.KeepIff | frontend/app/fisca/historique/page.tsx:294-339 | a record is kept exactly when every set filter accepts it: month by equality with "all" as no filter, year by equality, direction as a case-insensitive substring, type by its group, and min ≤ amount ≤ max for each bound that reads as a number |
| History.FilterKeepsOrder | frontend/app/fisca/historique/page.tsx:294 | the filtered list is an order-preserving subsequence of the records, all of which pass |
| History.NoFilterListsAll | frontend/app/fisca/historique/page.tsx:294-339 | with every filter field empty (or month and type on "all") every record is listed |
| History.FilterTwice | frontend/app/fisca/historique/page.tsx:294-339 | filtering the filtered list again changes nothing |
| History.OneLineTotals | frontend/app/fisca/historique/page.tsx:320-331 | the amount of a one-line receipt record or TAP record is the number on its line |
| History.MinimumExample | frontend/app/fisca/historique/page.tsx:334 | a minimum amount keeps a record at or above it and rejects one below |
| History.TypeExample | frontend/app/fisca/historique/page.tsx:312 | the type "etat_tap" keeps a record with TAP lines and rejects one without |
| History.TwoRecordExample | frontend/app/fisca/historique/page.tsx:294-339 | of a receipt of n and a TAP line of m < k ≤ n, the minimum k lists only the receipt, and the type "etat_tap" lists only the TAP record |
| History.ViewShowsSavedTable | frontend/app/fisca/historique/page.tsx:217-224 | opening a saved record under the type it shows displays exactly the table it was saved from |
| History.DeleteProperties | frontend/app/fisca/historique/page.tsx:358-359 | deletion leaves no record with the id and every other record in order; it is a no-op when the id is absent, and a second deletion changes nothing |
| History.DeleteKeepsCopies | frontend/app/fisca/historique/page.tsx:358-359 | every record with another id keeps all of its copies, and none with the id is left |
| History.DeleteThenList | frontend/app/fisca/historique/page.tsx:358-361 | once the deletion is written back, loading finds no record with that id |
| History.HistoryPage.LoadDeclarations | frontend/app/fisca/historique/page.tsx:279-284 | the page's list becomes the stored collection, or empty when the entry is missing or unreadable |
| History.HistoryPage.HandleDelete | frontend/app/fisca/historique/page.tsx:358-361 | the page's list loses the records with the id, and storage holds the new list unless the write is refused |
| MyDeclarations.FindTab | frontend/app/fisca/mes-declarations/page.tsx:90 | `find` returns the first entry of the table with the wanted value, and finds nothing only when none has it |
| MyDeclarations.ActiveTabInfoFound | frontend/app/fisca/mes-declarations/page.tsx:40-46 | every tax type has its entry in the tab table, so the non-null assertion on the lookup holds |
| MyDeclarations.MatchesIff | frontend/app/fisca/mes-declarations/page.tsx:81-88 | a record is listed exactly when it has the active type and the search text occurs, ignoring case, in its reference, declarant or period |
| MyDeclarations.FilteredProperties | frontend/app/fisca/mes-declarations/page.tsx:81-88 | the result is an order-preserving subsequence with only the active type, and holds every matching record |
| MyDeclarations.EmptySearchListsType | frontend/app/fisca/mes-declarations/page.tsx:84 | with an empty search, as after a tab switch, the result is every record of the active type, in order |
| MyDeclarations.SearchIgnoresCase | frontend/app/fisca/mes-declarations/page.tsx:85-87 | searching for the lower-cased text lists the same records |
| MyDeclarations.MockListsNothing | frontend/app/fisca/mes-declarations/page.tsx:50 | over the empty placeholder list, nothing is listed |

## Left out

- Numbers.Num: `parseFloat` is modelled on decimal text only. It does not read `Infinity`. Floating-point rounding is not modelled, because amounts are exact reals.
- Numbers.JsNumber: `Number` does not read `Infinity` or hexadecimal, octal or binary literals. Those give `None` here, not a value.
- Text.IsSpace: the white space that `trim` removes is limited to space, tab, line feed, vertical tab, form feed, carriage return, no-break space and the byte-order mark. The other Unicode space separators are not included.
- Text.LowerChar: `toLowerCase` is modelled for ASCII and Latin-1 capitals only. Other scripts are left as they are.
- Optional fields of a stored record (`encRows?`, `b12?`, …) are always present here; a missing one is the empty list or text, as the `?? []` and `?? ""` reads make it.
- Stored text that parses to something other than a list, such as `null`, is counted as `Corrupt`. That counts as an unreadable entry, not as a crash of the page.
- The history page's own VAT row type, with fields such as `fournisseur` and `nif`, does not match the rows the creation page saves. Only `montantHT`, which both have, is used here.
- Locale number and date formatting (`fmt`, `toLocaleString`, `toLocaleDateString`): foreign formatting calls.
- The region fetch on the creation page: network I/O.
- The 400 ms delay, toasts, `router.push`, the `isSubmitting` flag and the authentication gate: user-interface effects with no bearing on the stored data.
- Print zones, `window.print`, the JSX tables, the `WILAYAS` and `MONTHS` lookup tables and the status badges of "my declarations": presentation only.
- The creation page's `activeTab` is one of the six tabs (the `Tab` datatype), as its tab buttons set it; the history page's type filter stays free text.
- The JSON encoding of the storage entry: storage holds the list of records itself.
