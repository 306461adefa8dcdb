# Record tables of the product/category admin panel, in Dafny

The admin panel keeps two lists in the browser's local storage: categories
(`id`, `name`, `created_at`) and products (`id`, `title`, `description`,
`price`, `category`, `created_at`, where `category` is the id of a category).
Each list has its own page, `src/page/Categories.tsx` and
`src/page/Products.tsx`. Both pages are built the same way:

- a table over the list (`tableData`), with a range indicator
  "N tadan A dan B gacha." ("of N, from A to B") under it;
- a modal form that creates a record, or edits the record whose id is in
  `editId`, once the form's schema accepts the input;
- a confirmed delete per row.

Every change computes a new list, writes it to storage with `setData` and
makes it the table's data. Create puts the new record first. Update removes
every record with the edited id and puts the rebuilt record first, with a new
`created_at`. Delete keeps the records whose id differs.

## Layout

- `outcomes.dfy`: module `Outcomes` holds `Option` (for `undefined`/`null`)
  and `Result` (validated values or field errors).
- `record_list.dfy`: module `RecordList` holds the generic `Record<V>` and
  the list operations both pages share. `Create`, `Update`, `WithoutId`
  (the filter of delete and update) and `Find` (the `find` of the edit
  button and of the category label) are here, with their lemmas: order
  preservation, "nothing else changes", membership, counts, idempotence and
  create/delete round trips. Products are `Record<ProductValues>` and
  categories are `Record<CategoryValues>`.
- `parse_int.dfy`: module `ParseInt` holds `parseInt(s, 10)` as section
  19.2.5 of ECMA-262 defines it (`Number.parseInt`, section 21.1.2.13, is
  the same function), which the price check relies on. It
  proves that the result is NaN exactly outside the grammar "white space,
  optional sign, a digit", and that parsing a decimal numeral gives its value
  back.
- `page_range.dfy`: module `PageRange` holds the range indicator arithmetic.
- `categories.dfy`: module `Categories` holds the category schema and the
  class `CategoriesPage` (storage, `tableData`, `editId`, `open`, the form).
- `products.dfy`: module `Products` holds the product schema, the category
  label and the class `ProductsPage`. That class also has the module-level
  `data` list and the `categoriesData` snapshot. The module ends with two
  client walkthroughs of the classes (`CategoryWalkthrough` and
  `CreateWalkthrough`/`EditWalkthrough`). They go through creating a
  category and a product, deleting the category, and editing the price to
  "abc" (refused) and to "0" (accepted).

Each page class has a `Valid()` invariant that every handler keeps. For
products it says the module variable, the stored list and `tableData` are
the same list. For categories it says the stored list and `tableData` are
the same list. For both it says a closed dialog holds no edit session and
the form's default values.

Behaviour taken from the code where a plain reading would differ:

- `onSubmit` tests `editId` for JavaScript truthiness. An edit of a record
  whose id is the empty string therefore takes the create path: the old
  record stays and a new one with a fresh id is prepended (`Outcomes.Truthy`).
- The add button only opens the dialog. It neither clears `editId` nor
  resets the form. The `Valid()` invariant shows why this does no harm: the
  dialog can only be closed by cancel or by a successful submit, and both
  clear the session.
- The edit button of a product copies its description only when that
  description is not empty. Otherwise the form keeps its current
  description, which is "" whenever the dialog was closed before.
- The price check uses `parseInt`, so "12.50" and "12abc" are accepted
  (`TruncatedPriceAccepted`).
- The products page reads the category list once, when the module loads.
  Labels shown there do not change when a category is deleted until the
  module is loaded again (`CategoryWalkthrough`).

## Model

| member | source | states |
|---|---|---|
| `ParseInt.ParseIntNaNIff` | src/page/Products.tsx:100 | `parseInt(price, 10)` is not NaN exactly when the string is white space, at most one `+`/`-`, then a decimal digit |
| `ParseInt.ParseInt` | src/page/Products.tsx:100 | no contract of its own: `parseInt(val, 10)` with NaN as `None`; see `ParseIntNaNIff`, `ParseIntDecimal`, `ParseIntStopsAtNonDigit`, `ParseIntNegative` and `ParseIntNaN` |
| `ParseInt.TrimStartSpec` | src/page/Products.tsx:100 | parseInt's trimming drops exactly the leading ECMAScript white space and line terminators and keeps the rest of the string |
| `ParseInt.DigitPrefix` | src/page/Products.tsx:100 | the digits parseInt reads form the longest all-digit prefix of what follows the sign |
| `ParseInt.ParseIntStopsAtNonDigit` | src/page/Products.tsx:100 | parseInt of digits followed by a non-digit is the value of the digits alone; the rest is ignored |
| `ParseInt.ParseIntNegative` | src/page/Products.tsx:100 | a leading `-` negates the value parseInt reads |
| `ParseInt.ParseIntDecimal` | src/page/Products.tsx:100 | round trip: parseInt of the decimal numeral of n is n |
| `ParseInt.ParseIntNaN` | src/page/Products.tsx:100 | a string starting with anything but white space, sign or digit is NaN |
| `RecordList.Find` | src/page/Products.tsx:162 | `find` by id is undefined exactly when no record has the id, and otherwise returns a record of the list with that id |
| `RecordList.FindFirst` | src/page/Categories.tsx:124-126 | `find` returns the first record with the id |
| `Outcomes.Truthy` | src/page/Products.tsx:231 | no contract of its own: the test `editId ? … : …` of onSubmit (also Categories.tsx:192), false for null and for the empty string; the page handlers' `OnSubmit` contracts branch on it |
| `RecordList.Create` | src/page/Products.tsx:236-239 | no contract of its own: the create path of onSubmit (also Categories.tsx:197-200); see `CreateSpec` and `DeleteUndoesCreate` |
| `RecordList.Update` | src/page/Products.tsx:231-235 | no contract of its own: the update path of onSubmit (also Categories.tsx:192-196); see `UpdateSpec`, `UpdateIdempotent` and `UpdateThenDelete` |
| `RecordList.WithoutId` | src/page/Products.tsx:194-196 | no contract of its own: the `filter` by id of delete and update (also Categories.tsx:155-157); see the `WithoutId…` lemmas and `FindAfterDelete` |
| `RecordList.CreateSpec` | src/page/Products.tsx:236-239 | create adds one record at the head (found by its id), keeps the old list unchanged behind it, grows the list by one and the count of its id by one |
| `RecordList.UpdateSpec` | src/page/Products.tsx:231-235 | after update exactly one record has the edited id, it is the rebuilt one with the new time and is what `find` returns; the rest is a subsequence of the old list holding every record with another id; length is old length minus the id's count plus one |
| `RecordList.WithoutIdMembers` | src/page/Products.tsx:194-196 | delete keeps every record whose id differs and no record with the deleted id |
| `RecordList.WithoutIdLength` | src/page/Categories.tsx:155-157 | delete shortens the list by the number of records with the id |
| `RecordList.WithoutIdIsSubsequence` | src/page/Categories.tsx:155-157 | delete keeps the order of the remaining records |
| `RecordList.WithoutIdAbsent` | src/page/Products.tsx:194-196 | deleting an id no record has changes nothing |
| `RecordList.WithoutIdAppend` | src/page/Products.tsx:194-196 | the filter works piecewise over a concatenation |
| `RecordList.WithoutIdIdempotent` | src/page/Categories.tsx:155-157 | deleting the same id twice equals deleting it once |
| `RecordList.DeleteUndoesCreate` | src/page/Categories.tsx:197-200 | creating a record with an id no other record has and then deleting that id gives back the old list |
| `RecordList.UpdateIdempotent` | src/page/Categories.tsx:192-196 | submitting the same edit twice gives the same list as once |
| `RecordList.UpdateThenDelete` | src/page/Products.tsx:231-235 | an update changes nothing but the records of the edited id |
| `RecordList.FindAfterDelete` | src/page/Categories.tsx:155-157 | after deleting an id every lookup of it misses, and lookups of other ids are unchanged |
| `PageRange.RangeEnd` | src/page/Products.tsx:431-435 | the upper bound is the minimum of the end of the page and the filtered count, so it never exceeds the filtered count |
| `PageRange.RangeStart` | src/page/Products.tsx:430 | no contract of its own: the lower bound `pageIndex * pageSize` (also Categories.tsx:331); see `RangeIsPage` |
| `PageRange.RangeIsPage` | src/page/Categories.tsx:330-337 | when the start is within the filtered count, start ≤ end, end − start ≤ page size, and the end is the filtered count exactly on the last page |
| `Categories.Validate` | src/page/Categories.tsx:77-79 | the schema accepts exactly a name of length ≥ 1, passes it through, and otherwise reports the name error |
| `Categories.Message` | src/page/Categories.tsx:78 | no contract of its own: the text of the name error |
| `Categories.FormOf` | src/page/Categories.tsx:129 | no contract of its own: the form the edit button fills from a category; see `ResubmitUnchanged` and `CategoriesPage.StartEdit` |
| `Categories.ResubmitUnchanged` | src/page/Categories.tsx:128-129 | the form filled from a category validates back to that category's values, and reports the name error exactly when the stored name is empty |
| `Categories.CategoriesPage.constructor` | src/page/Categories.tsx:82-94 | mounting: table and storage hold the loaded list, no edit session, dialog closed, default form |
| `Categories.CategoriesPage.SetData` | src/page/Categories.tsx:73-75 | setData overwrites the stored list and nothing else |
| `Categories.CategoriesPage.OpenCreate` | src/page/Categories.tsx:215 | the add button opens the dialog and changes nothing else |
| `Categories.CategoriesPage.StartEdit` | src/page/Categories.tsx:123-131 | no-op when no category has the id; otherwise sets `editId`, copies the first match's name into the form, opens the dialog |
| `Categories.CategoriesPage.Cancel` | src/page/Categories.tsx:241-245 | close: form reset, dialog closed, `editId` null |
| `Categories.CategoriesPage.OnSubmit` | src/page/Categories.tsx:191-207 | the table becomes update or create of the old table as `editId` is truthy or not, storage equals the table, session ended |
| `Categories.CategoriesPage.Submit` | src/page/Categories.tsx:224 | an empty name changes nothing and reports the error; otherwise onSubmit runs on the validated values |
| `Categories.CategoriesPage.Delete` | src/page/Categories.tsx:154-159 | the table and storage become the categories whose id differs; products are not touched |
| `Products.Validate` | src/page/Products.tsx:93-104 | the schema accepts exactly title length ≥ 1, a price parseInt does not map to NaN, category length ≥ 1 (description free), returns those values, and otherwise reports each failing field |
| `Products.Message` | src/page/Products.tsx:94-103 | no contract of its own: the texts of the four field errors; see `MessagesDistinct` |
| `Products.MessagesDistinct` | src/page/Products.tsx:94-103 | two errors show the same text exactly when they are the same error, so the message tells which rule failed |
| `Products.FormOf` | src/page/Products.tsx:165-168 | no contract of its own: the form the edit button fills from a product when the dialog was closed; see `ResubmitUnchanged` and `ProductsPage.StartEdit` |
| `Products.TitleErrors` | src/page/Products.tsx:94 | the title error is reported exactly for an empty title |
| `Products.PriceErrors` | src/page/Products.tsx:96-102 | an absent price reports "required"; a present one reports the number error exactly when parseInt gives NaN |
| `Products.CategoryErrors` | src/page/Products.tsx:103 | the category error is reported exactly for an empty category id |
| `Products.ResubmitUnchanged` | src/page/Products.tsx:161-170 | the form filled from a valid product validates back to that product's values |
| `Products.DigitPriceAccepted` | src/page/Products.tsx:100 | a price of decimal digits such as "199" or "0" passes |
| `Products.TruncatedPriceAccepted` | src/page/Products.tsx:100 | a price such as "12.50" or "12abc" passes, because parseInt reads its leading digits |
| `Products.LetterPriceRefused` | src/page/Products.tsx:100-102 | the price "abc" is refused with the number error alone |
| `Products.DefaultFormRefused` | src/page/Products.tsx:113-120 | the untouched form reports title, price and category errors, in schema order |
| `Products.CategoryLabel` | src/page/Products.tsx:137 | the label is undefined exactly when no category has the product's category id, and otherwise the name of a category with that id |
| `Products.CategoryLabelIsFirstMatch` | src/page/Products.tsx:137 | the label is the name of the first category with the id |
| `Products.CategoryLabelAfterDelete` | src/page/Products.tsx:137 | deleting a category leaves products that refer to it without a label and keeps every other label |
| `Products.ProductsPage.constructor` | src/page/Products.tsx:84-120 | module load and mount: `data`, storage and table hold the stored list, the category snapshot is taken, no session, dialog closed, default form |
| `Products.ProductsPage.SetData` | src/page/Products.tsx:88-91 | setData writes the list to storage and to the module variable |
| `Products.ProductsPage.OpenCreate` | src/page/Products.tsx:254 | the add button opens the dialog and changes nothing else |
| `Products.ProductsPage.StartEdit` | src/page/Products.tsx:161-170 | no-op when no product has the id; otherwise sets `editId`, copies title, price and category of the first match, the description only when non-empty, and opens the dialog |
| `Products.ProductsPage.Cancel` | src/page/Products.tsx:340-344 | close: form reset, dialog closed, `editId` null |
| `Products.ProductsPage.OnSubmit` | src/page/Products.tsx:230-246 | the table becomes update or create of the old table as `editId` is truthy or not; module variable, storage and table agree; session ended |
| `Products.ProductsPage.Submit` | src/page/Products.tsx:263 | invalid input changes nothing and reports the schema's errors; valid input runs onSubmit on the validated values |
| `Products.ProductsPage.Delete` | src/page/Products.tsx:193-198 | module variable, storage and table become the products whose id differs, the edit session is untouched |

## Left out

- Every storage write is assumed to succeed. A `localStorage.setItem` that
  throws (a full quota, say) inside `setData` is not modelled. In the source
  onSubmit would then stop after its toast, leaving the list, the table and
  the open edit session as they were, and delete would change nothing.
  `SetData`, `OnSubmit` and `Delete` cannot fail in the model.
- Local storage and JSON: the stored list is a field that `setData`
  overwrites. Reading it at load time is the constructor's argument. The
  round trip turns `created_at` into a string, and that is not modelled.
- The `useLocalStorage` hook of the categories page is not part of this
  model. The constructor assumes it returns the stored list.
- `Math.random().toString(16).slice(2)` and `new Date()` are the `newId`
  and `now` parameters of submit. Nothing assumes ids are unique, because
  the code never checks. `Timestamp` is an integer standing for the `Date`.
- Sorting, column filtering, column visibility and the pagination row
  model live in the table library and are not part of this model. Only the
  range indicator's arithmetic is, with the page index, page size and
  filtered count as inputs.
- zod and react-hook-form are reduced to the schema predicates, the
  resulting error list and the rule that a submit with errors changes
  nothing. The error messages are kept as text.
- JSX rendering, toasts, date formatting, dialogs, select widgets, routing,
  layout, theme and the error page are not modelled.
- A product's `description` may be `undefined` when loaded from storage.
  It is modelled as the empty string: both are falsy for the edit button
  and both render as nothing.
- `ParseInt.ParseInt` returns the exact integer. The conversion to a
  double (rounding above 2^53, and `-0`) only matters for the value, never
  for the NaN test the schema uses. JavaScript strings are UTF-16, but the
  model uses Unicode scalar values. No white space or digit lies outside
  the Basic Multilingual Plane, so the difference does not show.
- Typing into a form field is a direct assignment to the page's `form` in
  the walkthroughs. It is not a handler of the source.
