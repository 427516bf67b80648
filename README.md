# Expense tracker: a verified model of its record store, listing and add form

This project models the core of a small Remix expense tracker. Expenses are records
`{id, description, amount, category, date}` kept in one JSON document. The model has three
parts:

- **The record store** (`app/lib/db.server.ts`). Every operation loads the whole document,
  transforms it and writes it back. `Store.ExpenseStore` is a class whose `doc: seq<Expense>`
  field is that document:
  - `addExpense` appends a record stamped with the clock.
  - `getExpenseById` is a `find`.
  - `updateExpense` is a `map` with a shallow merge.
  - `deleteExpense` is a `filter`.
- **The expense list page** (`app/routes/_index.tsx`).
  - The loader filters by an optional date range and category, then sums the amounts.
  - The delete action only deletes when an id was posted.
  - The pie chart's per-category totals are a fold over the listed records. The object it
    builds is `Listing.Chart`: its keys in insertion order and a map from key to number.
- **The add form** (`app/routes/add.tsx`).
  - The submit action validates the four fields and stores the amount normalised to two
    decimals.
  - The keystroke handler filters what may be typed and clears errors as fields are filled.

Supporting modules:
- `Common`: `Option`, JavaScript string truthiness, and `Array.filter` with its laws.
- `Text`: the character classes the regular expressions use, decimal digit strings and
  lexicographic order.
- `Dates`: `YYYY-MM-DD` dates. Their string order is proved to be the calendar order.
- `Amounts`: the two amount patterns, `parseFloat` on them (in whole cents), and `toFixed(2)`.

Amounts are integers counting cents. Dates are the `YYYY-MM-DD` strings the date input
produces. `Date.now()` is a parameter (`now`). The id given to the store is the number that
`Number(id)` yields.

## Model

| member | source | states |
|---|---|---|
| Store.ExpenseStore.constructor | app/lib/db.server.ts:6-9 | the store holds the loaded document as it is |
| Store.ExpenseStore.GetExpenses | app/lib/db.server.ts:6-9 | reading the store returns the whole document unchanged |
| Store.ExpenseStore.AddExpense | app/lib/db.server.ts:11-17 | the returned record is the draft stamped with the clock, and the document becomes the old one with exactly that record appended |
| Store.Stamp | app/lib/db.server.ts:13 | `{ id: now, ...expense }`, where a spread id wins; StampIds states its id and fields |
| Store.StampIds | app/lib/db.server.ts:13 | the new record's id is the clock value unless the input carries an id, which wins; every other field is the input's |
| Store.AddKeepsIdsUnique | app/lib/db.server.ts:13 | adding a record whose id is new keeps all ids distinct |
| Store.SameTickCollides | app/lib/db.server.ts:13 | two adds on the same clock tick produce a duplicate id: the code does not ensure freshness |
| Store.AddThenFind | app/lib/db.server.ts:13-14 | a record added with a fresh id is what a later lookup by that id finds |
| Store.AddThenDelete | app/lib/db.server.ts:14 | deleting the id of a freshly added record restores the previous document |
| Store.FirstIndex | app/lib/db.server.ts:21 | the position found holds the id and no earlier position does; there is none exactly when no record has the id |
| Store.FindById | app/lib/db.server.ts:21 | `find` by id; FindByIdFirst states that it is the first record with the id, and absent exactly when none has it |
| Store.ExpenseStore.GetExpenseById | app/lib/db.server.ts:19-22 | the lookup is absent exactly when no record has the id, and otherwise returns a stored record with that id |
| Store.FindByIdFirst | app/lib/db.server.ts:21 | the record found is the first one with the id; absent exactly when no record has it |
| Store.UpdateAll | app/lib/db.server.ts:26-28 | the length is kept; each record with the id becomes its shallow merge with the data, and every other record is unchanged |
| Store.Merge | app/lib/db.server.ts:27 | `{ ...e, ...data }`, each field the data carries winning; MergeIdempotent and UpdateAll state its effect |
| Store.ExpenseStore.UpdateExpense | app/lib/db.server.ts:24-30 | the document becomes the old one with exactly the matching records merged |
| Store.UpdateAbsentIsNoOp | app/lib/db.server.ts:26-29 | updating an id nobody has writes back the same document |
| Store.MergeIdempotent | app/lib/db.server.ts:27 | merging the same data twice gives the result of merging it once |
| Store.UpdateIdempotent | app/lib/db.server.ts:26-28 | repeating an update changes nothing more |
| Store.UpdateKeepsIdsUnique | app/lib/db.server.ts:27 | an update whose data carries no other id keeps all ids distinct |
| Store.UpdateCanDuplicateIds | app/lib/db.server.ts:27 | data carrying another record's id makes two records share an id |
| Store.ExpenseStore.DeleteExpense | app/lib/db.server.ts:32-36 | the document becomes the old one without the records of that id |
| Store.Without | app/lib/db.server.ts:34 | `filter` on a different id; DeleteKeepsOthersInOrder states what it keeps |
| Store.DeleteKeepsOthersInOrder | app/lib/db.server.ts:34 | a record survives a delete exactly when it was stored under another id, every copy of it survives (two identical records stay two), and the survivors keep their order |
| Common.FilterCount | app/lib/db.server.ts:34 | `filter` keeps every copy of each element that passes and no copy of any other |
| Store.DeleteThenFindNone | app/lib/db.server.ts:34 | after deleting an id, looking it up (line 21) finds nothing |
| Store.DeleteAbsentIsNoOp | app/lib/db.server.ts:34-35 | deleting an id nobody has leaves the document as it was |
| Store.DeleteIdempotent | app/lib/db.server.ts:34 | deleting the same id twice is deleting it once |
| Store.DeleteKeepsIdsUnique | app/lib/db.server.ts:34 | deleting keeps distinct ids distinct |
| Dates.NotAfterIsCalendarOrder | app/routes/_index.tsx:19-20 | for well-formed dates, the string comparison used for the date bounds is the order by year, then month, then day |
| Dates.BeforeIsStrict | app/routes/_index.tsx:16 | the strict comparison used for the inverted-range test is the non-strict one without equality |
| Listing.Total | app/routes/_index.tsx:26 | the reduce that sums the amounts from 0; TotalOfOne and TotalAppend state its value |
| Listing.TotalOfOne | app/routes/_index.tsx:26 | the total of one record is its amount, an unparseable one counting 0 |
| Listing.TotalAppend | app/routes/_index.tsx:26 | the sum over two lists placed end to end is the sum of their sums |
| Listing.Loader | app/routes/_index.tsx:8-28 | an inverted range gives no records and total 0 whatever is stored; the total is always the sum of the listed records' amounts, with unparseable ones counting 0 |
| Listing.Inverted | app/routes/_index.tsx:16 | the inverted-range test; InvertedRangeAdmitsNothing and Loader state its effect |
| Listing.Admits | app/routes/_index.tsx:19-23 | the three filters as one test of a record; LoaderSelects and LoaderRetains state that it is what the filters keep |
| Listing.AmountOrZero | app/routes/_index.tsx:26 | `parseFloat(amount) || 0` in cents; ExampleTotals and TotalOfOne state it on concrete and single records |
| Listing.LoaderSelects | app/routes/_index.tsx:18-24 | the start, end and category filters in turn select exactly what one filter checking all three would |
| Listing.LoaderRetains | app/routes/_index.tsx:19-24 | a record is listed exactly when it is stored, the range is not inverted, its date lies on or between the given bounds, and its category equals the given one; the list is a subsequence of the stored order |
| Listing.NoParametersListsAll | app/routes/_index.tsx:16-22 | missing or empty parameters apply no filter: the whole document is listed with its full total |
| Listing.LoaderIdempotent | app/routes/_index.tsx:19-24 | running the loader over its own output returns it unchanged |
| Listing.InvertedRangeAdmitsNothing | app/routes/_index.tsx:16-20 | when the end is before the start, the date filters alone would also keep nothing, so the shortcut agrees with them |
| Listing.NumberOf | app/routes/_index.tsx:34 | `Number` of a posted id is a non-negative number or NaN; NumberOfRoundTrip states which number |
| Listing.NumberOfRoundTrip | app/routes/_index.tsx:34 | an id rendered in decimal reads back as that id, so the action deletes the records of the id that was posted |
| Listing.DeleteAction | app/routes/_index.tsx:30-37 | without a non-empty id nothing changes; with one, the records of its numeric value are removed; a non-numeric id removes nothing |
| Listing.CategoryTotals | app/routes/_index.tsx:50-53 | the chart's object is the left-to-right fold of the listed records from the empty object; it is well formed, and its keys are exactly the categories that occur |
| Listing.Tally | app/routes/_index.tsx:50-53 | the reduce from `{}` over the listed records; TallyKeys, TallyValue and TallySumsToTotal state its result |
| Listing.BumpKeys | app/routes/_index.tsx:51 | one write keeps the object well formed; its keys are the old ones, with the written key appended last if it was new |
| Listing.Bump | app/routes/_index.tsx:51 | the reduce callback's write `acc[c] = (acc[c] || 0) + amount`; BumpKeys, BumpFrame, BumpValue and BumpSum state its effect |
| Listing.BumpFrame | app/routes/_index.tsx:51 | a write under one key leaves the value of every other key as it was, finite, NaN or missing |
| Listing.BumpValue | app/routes/_index.tsx:51 | writing a finite amount under a key moves that key's finite value, or nothing for a new key, by the amount |
| Listing.BumpSum | app/routes/_index.tsx:51 | writing a finite amount under a key adds that amount to a finite sum of the values |
| Listing.TallyKeys | app/routes/_index.tsx:50-53 | whatever amounts are read, the object's keys are distinct and are exactly the listed records' categories |
| Listing.TallySumsToTotal | app/routes/_index.tsx:50-53 | when every amount is read as the total on line 26 reads it, the values add up to the total |
| Listing.CategorySumIsFilteredTotal | app/routes/_index.tsx:26 | a category's part of the sum, with amounts read as the total reads them, is the total of the records a filter on that category keeps |
| Listing.TallyValue | app/routes/_index.tsx:50-53 | when every amount is read as a finite number, each category's value is the sum of that category's amounts |
| Listing.CategoryTotalsSumWhenAllParse | app/routes/_index.tsx:50-53 | as written, when every listed amount parses, the chart's values add up to the total of line 26 |
| Listing.ExampleTotals | app/routes/_index.tsx:26 | the total reads an unparseable amount as 0: "5.00" and "abc" total 5.00, and adding "2" gives 7.00 |
| Listing.CategoryTotalsNaNSlice | app/routes/_index.tsx:50-53 | as written, "5.00" then "abc" in one category make that category's value NaN, while the total is 5.00 |
| Listing.CategoryTotalsRestart | app/routes/_index.tsx:50-53 | as written, a further "2" in that category restarts its value from zero at 2.00, while the total is 7.00 |
| Listing.FixedCategoryTotals | app/routes/_index.tsx:50-53 | with the amount read as the total reads it: one key per listed category, each value that category's part of the total (the total of its records), and the values add up to the total |
| Amounts.DotAt | app/routes/add.tsx:21 | finds the first decimal point of an amount, or reports that there is none |
| Amounts.SubmitAmount | app/routes/add.tsx:21 | the submit pattern; AmountPatternExamples and SubmitAmountIsKeystrokeAmount state what it admits |
| Amounts.KeystrokeAmount | app/routes/add.tsx:57 | the keystroke pattern; KeystrokeAmountPrefixClosed and AmountPatternExamples state what it admits |
| Amounts.ParseCents | app/routes/add.tsx:34 | every amount accepted on submit has a value, and only strings of the keystroke pattern have one |
| Amounts.ToFixed2 | app/routes/add.tsx:34 | the rendering is accepted on submit and ends in a point followed by two digits |
| Amounts.ToFixed2RoundTrip | app/routes/add.tsx:34 | reading a rendered amount gives back the cents it was rendered from |
| Amounts.Normalize | app/routes/add.tsx:32-35 | an accepted amount is stored with exactly two decimals and the same value |
| Amounts.NormalizeIdempotent | app/routes/add.tsx:34 | normalising a normalised amount changes nothing |
| Amounts.NormalizeExample1 | app/routes/add.tsx:34 | "3.5" is stored as "3.50" |
| Amounts.NormalizeExample2 | app/routes/add.tsx:34 | "12" is stored as "12.00" |
| Amounts.NormalizeExample3 | app/routes/add.tsx:34 | "007" is stored as "7.00" |
| Amounts.SubmitAmountIsKeystrokeAmount | app/routes/add.tsx:57 | every amount accepted on submit (line 21) passes the keystroke pattern |
| Amounts.KeystrokeAmountPrefixClosed | app/routes/add.tsx:57 | the keystroke pattern admits every prefix of what it admits |
| Amounts.AmountTypeable | app/routes/add.tsx:57-58 | an amount valid on submit (line 21) can be typed one character at a time without the filter refusing a keystroke |
| Amounts.AmountPatternExamples | app/routes/add.tsx:21 | against the submit pattern and the keystroke pattern of line 57: "3." and ".5" can be typed but are rejected on submit; "1.234" is refused by both; the empty field can be typed but not submitted |
| AddRoute.Validate | app/routes/add.tsx:11-26 | the errors report exactly the failing fields, each message saying whether the field was missing or malformed, and no message is empty |
| AddRoute.SubmitDescription | app/routes/add.tsx:15 | the description pattern on submit; DescriptionTypeable states its link to the keystroke pattern |
| AddRoute.KeystrokeDescription | app/routes/add.tsx:55 | the description pattern every keystroke keeps; DescriptionTypeable states that it admits every prefix of a valid description |
| AddRoute.Action | app/routes/add.tsx:7-39 | the submission is rejected exactly when a field fails; then the errors go back with the submitted values, they report exactly the failing fields with their messages, none empty, and nothing is stored; otherwise the formatted record is appended to the store |
| AddRoute.Formatted | app/routes/add.tsx:32-35 | the submitted fields with the amount normalised; StoredAmountNormalised states that the stored amount has two decimals and the submitted value |
| AddRoute.StoredAmountNormalised | app/routes/add.tsx:32-37 | the stored record's amount has two decimals and the submitted value, and its id is the clock value |
| AddRoute.DescriptionTypeable | app/routes/add.tsx:55 | every description accepted on submit (line 15), and each of its prefixes, passes the keystroke filter |
| AddRoute.AddForm.constructor | app/routes/add.tsx:44-51 | when the page is mounted with a rejected submission's answer, the form starts from the values and errors sent back, an empty date giving way to today; otherwise it starts empty with today's date and no errors |
| AddRoute.AddForm.HandleChange | app/routes/add.tsx:53-72 | a description keystroke failing its filter changes nothing; an amount keystroke updates the field only if it passes its filter and never touches the errors; any other change sets the field and removes its error when the new value is not blank |
| AddRoute.Put | app/routes/add.tsx:63 | `{ ...prev, [name]: value }`; HandleChange states which field it sets |
| AddRoute.ErrorClearing | app/routes/add.tsx:65-71 | typing a non-blank value that passes the filter into description, category or date removes that field's error and keeps the others |
| AddRoute.RejectThenCorrect | app/routes/add.tsx:28-71 | a rejected submission stores nothing; when its answer mounts the form afresh, the form shows its errors, and a non-blank, accepted keystroke then clears that field's error while the other failing fields keep theirs |

## Left out

- File I/O and JSON: `fs.readFile`, `fs.writeFile`, the fixed `dbPath`, `JSON.parse` and `JSON.stringify`. The document is the `doc` field. Loading and saving are taken as the identity on it.
- `Date.now()` is the parameter `now` of `AddExpense` and `Action`. `new Date()` for today's date is the parameter `today` of the form's constructor.
- Concurrency: the overlapping async handlers and the lost update they allow. Each operation is one atomic step.
- Floating point: amounts are whole cents. `toFixed(2)` is exact for them only while the value stays below about 2^53 hundredths. Rounding of amounts with more decimals and the exponential form of `toFixed` for very large values are not modelled.
- Amounts.ParseCents: reads only the strings of the keystroke pattern. Other forms that `parseFloat` accepts are read as NaN. These are a sign, an exponent, leading spaces and a number followed by other text. Only the total and the chart read stored amounts, and every amount stored through the add form has the submit pattern.
- Listing.NumberOf: reads only plain decimal digits. Other forms that `Number` accepts are read as NaN. These are surrounding spaces, a sign, a point, an exponent, hexadecimal and "Infinity".
- Listing.DeleteAction: with a non-numeric id the source still calls `deleteExpense(NaN)`. That rewrites the same document, and the model leaves the document unchanged instead.
- Dates that are not `YYYY-MM-DD`: `new Date` of such a string is not modelled. For well-formed dates, comparing dates is comparing strings, and `Dates.NotAfterIsCalendarOrder` proves that this is the calendar order. Time zones are not modelled.
- Form fields other than the four inputs: `...data` would copy them into the stored record. A posted `id` would also override the clock. `Store.Draft` keeps the `id` override, and `AddRoute.Action` always passes none.
- Stored records that lack a field: every `Expense` has all five.
- AddRoute.AddForm.constructor, AddRoute.RejectThenCorrect: the constructor models the first mount only, as after a full-page submission. A `<Form>` submission handled on the client keeps the mounted form, and `useState` does not read its initial values again. The form then keeps its `fields` and `errors`, so the action's errors do not reach `errors`, and the messages next to the inputs do not appear. The model does not capture that path.
- React and Remix plumbing: `useState`, `useEffect`, `useLoaderData`, `useSearchParams`, `json` and `redirect` (these last two become the `ActionResult` value). Rendering, Chart.js, the submitting flags and the URL and form-data parsing are not modelled either.
- JavaScript objects list integer-like keys first. `Listing.Chart` keeps keys in insertion order, which is the order for every other category name. That the keys come in the order of each category's first record is built into `Listing.Bump` but not stated as a lemma.
- Listing.Bump: on a fresh `{}` a category named like an `Object.prototype` member (`toString`, `constructor`, `__proto__`) reads the inherited member instead of a missing key, and the model starts every new key at 0. The add form offers categories from a fixed list.
- `app/constant/category`, `tailwind.config.ts` and the delete-confirmation route `app/routes/delete.$id.tsx` are not part of this model.

## Findings

| source | as written | input that shows it | evidently intended | confidence | as-written member | corrected member |
|---|---|---|---|---|---|---|
| app/routes/_index.tsx:51 | The previous value falls back to 0, but the parsed amount has no such fallback. An unparseable amount makes the category NaN, and the next amount of that category restarts from 0. | Listed records Food "5.00" then Food "abc": the chart shows Food = NaN while the total is 5.00. Adding Food "2" shows Food = 2 while the total is 7.00. | each category's value is its share of the total, reading an unparseable amount as 0 as the total does (line 26) | high, not executed | Listing.CategoryTotalsNaNSlice, Listing.CategoryTotalsRestart | Listing.FixedCategoryTotals |
