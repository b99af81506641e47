# InvoiceThing core in Dafny

InvoiceThing is an invoicing app. Its backend is a set of Convex queries and
mutations over six tables: users, clients, invoices, lineItems, claims and
settings. Its dashboard folds the user's invoice list into charts. This
project models the following parts and proves what they promise:

- **Invoice store** (`convex/invoices.ts`):
  - `create` and `update` price the lines, number the lines and claims, and
    compute subtotal, tax and total. They then write the child rows.
  - `get` joins an invoice with its client and its rows, sorted by `order`.
  - `updateStatus` and `updateStatusBulk` set the status.
  - `remove` and `removeMany` cascade a delete to the children.
  - `getStats` computes the dashboard figures.
- **Settings and the invoice-number allocator** (`convex/settings.ts`):
  - `get` falls back to defaults when the user has no row.
  - `upsert` patches the row or inserts one.
  - `getNextInvoiceNumber` implements `split`, `parseInt` and `padStart` as
    JavaScript defines them.
- **Users** (`convex/users.ts`): `store` upserts a user by Clerk id, and
  `getCurrentUser` looks one up.
- **Address formatter** (`src/lib/utils.ts`): `formatAddressParts`.
- **Dashboard**:
  - `src/app/dashboard/page.tsx`: the status histogram, paid revenue per
    month, and the top five clients by billed value.
  - `src/components/dashboard-charts.tsx`: paid and billed revenue per week,
    and the status histogram.
  - `src/components/recent-invoices-table.tsx`: the five most recently issued
    invoices.

Modules and files:

| module | file | what it holds |
|---|---|---|
| `Wrappers` | `wrappers.dfy` | the `Option` type |
| `Schema` | `schema.dfy` | the table rows and their key projections |
| `Tables` | `tables.dfy` | index queries (`Children`), deletion of a parent's rows (`Without`), and unique lookups (`Find`, `Lookup`) |
| `Sorting` | `sorting.dfy` | the stable sort JavaScript's `Array.prototype.sort` performs: `SortBy` on values, and `SortInPlace` on an array |
| `JsStrings` | `js_strings.dfy` | `trim`, `split`, `join`, `padStart`, `String(n)` and `parseInt(s, 10)` |
| `Totals` | `totals.dfy` | line pricing, claim numbering, and the subtotal/tax/total formula |
| `Integrity` | `integrity.dfy` | the consistency invariant linking invoices to their rows |
| `InvoiceStats` | `stats.dfy` | the `getStats` fold |
| `Queries` | `queries.dfy` | the read side of the backend |
| `InvoiceNumbers` | `invoice_number.dfy` | the allocator's string logic |
| `Backend` | `store.dfy` | the `Store` class: the six tables, the id counter and every mutation |
| `Address` | `address.dfy` | `formatAddressParts` |
| `DashboardRows` | `dashboard_rows.dfy` | the joined invoice rows the dashboard reads, status counting and bucketed paid revenue |
| `DashboardPage` | `dashboard_page.dfy` | the dashboard page's three folds |
| `DashboardCharts` | `dashboard_charts.dfy` | the charts component |
| `RecentInvoices` | `recent_invoices.dfy` | the recent-invoices table |

Modelling choices:

- **Money** is an exact `real`. The backend applies no rounding, so the
  model's arithmetic is the formula the code writes down.
- **Ids** are `nat`s drawn from one counter, `nextId`, shared by all tables.
  Every stored id is below it.
- **`Date.now()`** is a parameter `now`, fixed for the duration of a mutation.
- **Failed mutations.** A Convex mutation whose `patch` or `delete` targets a
  missing document throws, and the mutation rolls back. The model returns
  `ok == false` and the tables are unchanged.
- **Tables** are sequences in insertion order. That is the order an index
  query returns.
- **The invoice-number allocator** reads the user's most recently *created*
  invoice: the `by_user` index in descending order, `take(1)`
  (`convex/settings.ts:89-93`), not the one with the latest issue date.

## Model

| member | source | states |
|---|---|---|
| `Totals.PriceLines` | convex/invoices.ts:41-51 | each priced line carries the input's description, quantity and unit price, has `total == quantity * unitPrice` and `order` equal to its position; the accumulated subtotal is the sum of the line totals |
| `Totals.NumberClaims` | convex/invoices.ts:53-61 | each claim keeps its fields and gets `order` equal to its position; the accumulated sum is the sum of the claim amounts |
| `Totals.AmountsMeaning` | convex/invoices.ts:63-65 | the stored subtotal is the line sum plus the claim sum; total is subtotal plus tax; without a rate the tax is 0 and total equals subtotal; with a rate r the total is subtotal × (1 + r) |
| `Totals.TotalCoversSubtotal` | convex/invoices.ts:261-264 | with non-negative sums and rate, the total is never below the subtotal |
| `Totals.LinesValueAppend` | convex/invoices.ts:42-45 | the line sum of two lists is the sum of their line sums |
| `Integrity.LineRows` | convex/invoices.ts:84-93 | one stored line row per priced line |
| `Integrity.ClaimRows` | convex/invoices.ts:96-105 | one stored claim row per numbered claim |
| `Integrity.LineRowsSum` | convex/invoices.ts:84-93 | the stored line rows' totals add up to the line subtotal the invoice was given |
| `Integrity.ClaimRowsSum` | convex/invoices.ts:96-105 | the stored claim rows' amounts add up to the claims total the invoice was given |
| `Integrity.LinesInOrder` | convex/invoices.ts:155 | rows inserted with `order` equal to their position are already in the order the `get` sort produces |
| `Integrity.ClaimsInOrder` | convex/invoices.ts:156 | the same for claims |
| `Integrity.ConsistentAfterCreate` | convex/invoices.ts:68-105 | inserting an invoice with a fresh id and its new rows keeps ids unique, every row attached to an existing invoice, line totals equal to quantity × price, and each invoice's subtotal equal to its rows' sums |
| `Integrity.ConsistentAfterUpdate` | convex/invoices.ts:267-322 | patching the invoice, deleting its old rows and inserting new ones keeps the same invariant |
| `Integrity.ConsistentAfterDelete` | convex/invoices.ts:349-370 | deleting an invoice with all its rows keeps the invariant |
| `Integrity.ConsistentAfterPatch` | convex/invoices.ts:179-182 | changing fields other than the id and the figures keeps the invariant |
| `Integrity.WithoutKeepsUnique` | convex/invoices.ts:369 | deleting an invoice removes exactly its id from the set of ids |
| `Tables.ChildrenSpec` | convex/invoices.ts:144-147 | an index query returns exactly the rows with the key, and no more rows than the table holds |
| `Tables.WithoutSpec` | convex/invoices.ts:353-367 | the cascade keeps exactly the rows of other parents |
| `Tables.ChildrenWithoutPartition` | convex/invoices.ts:353-367 | the deleted rows and the kept rows together are the table, as a multiset |
| `Tables.ChildrenAfterDelete` | convex/invoices.ts:355-359 | deleting one invoice's rows leaves every other invoice's rows as they were |
| `Tables.ChildrenAppend` | convex/invoices.ts:84-93 | inserting rows adds the new rows with the key after the old ones |
| `Tables.Find` | convex/users.ts:13-16 | a `unique()` index lookup: the first position holding the key, or none exactly when no row holds it |
| `Tables.Lookup` | convex/invoices.ts:143 | a document lookup: a row with the key, or none exactly when no row has it |
| `Sorting.SortByPermutes` | convex/invoices.ts:155-156 | sorting keeps every element, as a multiset |
| `Sorting.SortBySorted` | convex/invoices.ts:155-156 | the sorted list is ascending by the key |
| `Sorting.SortByOfSorted` | convex/invoices.ts:155-156 | sorting an already ascending list leaves it unchanged (the sort is stable) |
| `Sorting.InsertAt` | src/components/recent-invoices-table.tsx:93 | one insertion step of the in-place sort moves `a[i]` into the sorted prefix |
| `Sorting.SortInPlace` | src/components/recent-invoices-table.tsx:93 | sorts the array in place into `SortBy` of its old contents |
| `InvoiceStats.PaidAtMostAll` | convex/invoices.ts:397-398 | `paidInvoices <= totalInvoices` |
| `InvoiceStats.StatsOfOneMore` | convex/invoices.ts:381-398 | one more invoice counts toward `totalInvoices`; its total adds to earnings if it is paid, to outstanding if it is sent or overdue, and to neither otherwise |
| `InvoiceStats.DraftsCountOnly` | convex/invoices.ts:381-387 | a draft changes only `totalInvoices` |
| `InvoiceStats.MoneyWithinTotals` | convex/invoices.ts:381-387 | with non-negative totals, earnings and outstanding are non-negative and together no more than the sum of all totals |
| `Queries.SortedChildren` | convex/invoices.ts:144-156 | an index query then a sort gives exactly the rows with the key, each once, in ascending order |
| `Queries.Detail` | convex/invoices.ts:139-163 | `get` is null exactly for an unknown id; otherwise it holds that invoice, exactly its line and claim rows (as multisets), each list sorted by `order` |
| `Queries.DetailAt` | convex/invoices.ts:140-163 | what `get` returns for a stored invoice: the invoice, its client looked up by `clientId`, and its sorted rows |
| `Queries.StatsFor` | convex/invoices.ts:376-400 | `totalInvoices` counts the user's invoices and `activeClients` the user's clients |
| `Queries.StatsAfterInsert` | convex/invoices.ts:376-400 | a new invoice changes its owner's figures by its status and total, and leaves other users' figures unchanged |
| `Queries.SettingsFor` | convex/settings.ts:8-25 | the stored row exactly when the user has one; otherwise prefix "INV", start 1, due days 14 and tax rate 0 |
| `Queries.LatestNoneIff` | convex/settings.ts:89-95 | the query finds no invoice exactly when the user has none |
| `Queries.LatestSomeIsLast` | convex/settings.ts:89-93 | otherwise it is the number of the user's last-inserted invoice |
| `Queries.NextNumberFor` | convex/settings.ts:80-115 | the suggestion starts with the prefix and "-", followed by at least four characters |
| `Queries.FirstNumberForUser` | convex/settings.ts:95-99 | a user without invoices is offered the start number formatted under the prefix |
| `Queries.NewUserGetsFirstNumber` | convex/settings.ts:86-98 | a user with no settings and no invoices is offered "INV-0001" |
| `Queries.NextNumberAfterInsert` | convex/settings.ts:89-114 | once an invoice numbered prefix-n is created, the next suggestion is n + 1 under the user's current prefix, whatever came before |
| `Queries.NextNumberIgnoresOthers` | convex/settings.ts:89-93 | another user's invoice does not change this user's suggestion |
| `Queries.CurrentUser` | convex/users.ts:42-50 | a user with the Clerk id, or none exactly when no user has it |
| `InvoiceNumbers.Format` | convex/settings.ts:98 | the result begins with the prefix and "-", and is at least four characters longer than that |
| `InvoiceNumbers.LastNumberText` | convex/settings.ts:103-104 | the last `-` segment, or "0" when it is empty; never empty and never containing "-" |
| `InvoiceNumbers.NextInvoiceNumber` | convex/settings.ts:95-114 | every suggestion begins with the prefix and "-" and has a number part of at least four characters |
| `InvoiceNumbers.FirstInvoiceUsesStart` | convex/settings.ts:95-99 | with no previous invoice the start number is used |
| `InvoiceNumbers.DefaultFirstNumber` | convex/settings.ts:86-98 | the default prefix and start give "INV-0001" |
| `InvoiceNumbers.ReadsLeadingDigits` | convex/settings.ts:103-114 | a last segment that begins with digits ds yields value(ds) + 1, whatever follows the digits |
| `InvoiceNumbers.NextAfterIssued` | convex/settings.ts:101-114 | after a number the allocator itself formatted with n, it suggests n + 1 |
| `InvoiceNumbers.IncrementExample` | convex/settings.ts:101-114 | under any prefix p and start number, "p-0007" is followed by "p-0008" |
| `InvoiceNumbers.NonNumericRestarts` | convex/settings.ts:107-111 | a last segment `parseInt` rejects falls back to the start number |
| `InvoiceNumbers.NonNumericExample` | convex/settings.ts:107-111 | under any prefix p, "p-ABC" is followed by the start number |
| `InvoiceNumbers.TrailingDashGivesOne` | convex/settings.ts:104 | a number ending in "-" is read as 0 and yields prefix-0001, whatever the start number |
| `InvoiceNumbers.WideNumbersAreKept` | convex/settings.ts:114 | padding never truncates: a number of four or more digits is written in full |
| `InvoiceNumbers.WideNumberExample` | convex/settings.ts:114 | 12345 is written as "p-12345" under any prefix p |
| `InvoiceNumbers.FormatDigitText` | convex/settings.ts:98 | a one-digit number is padded with three zeros |
| `JsStrings.Trim` | src/lib/utils.ts:23-26 | the result has no leading or trailing whitespace; it is empty exactly when the input is all whitespace |
| `JsStrings.TrimmedIsFixed` | src/lib/utils.ts:23-26 | trimming a trimmed string changes nothing |
| `JsStrings.TrimStartDropsSpace` | src/lib/utils.ts:23-26 | what the front trim removes is all white space |
| `JsStrings.TrimEndDropsSpace` | src/lib/utils.ts:23-26 | what the end trim removes is all white space |
| `JsStrings.Split` | convex/settings.ts:103 | `split` yields at least one part, and no part contains the separator |
| `JsStrings.SplitThenJoin` | convex/settings.ts:103 | joining the parts with the separator gives back the string |
| `JsStrings.JoinThenSplit` | src/lib/utils.ts:45 | splitting a join of separator-free parts gives back the parts |
| `JsStrings.LastSegmentAfterSeparator` | convex/settings.ts:103-104 | the last part is what follows the last separator |
| `JsStrings.PadStart` | convex/settings.ts:98 | the result has the requested width or the input's length if longer, ends with the input and is filled in front |
| `JsStrings.NatToString` | convex/settings.ts:98 | `String(n)` gives at least one decimal digit, with no leading zero unless n is 0 |
| `JsStrings.NatToStringValue` | convex/settings.ts:98 | the digits of `String(n)` denote n |
| `JsStrings.ParseIntUnsigned` | convex/settings.ts:105 | without leading white space or sign, `parseInt` reads the leading digits, and gives NaN when there are none |
| `JsStrings.LeadingDigits` | convex/settings.ts:105 | the longest prefix made of digits |
| `JsStrings.ParseIntDigitPrefix` | convex/settings.ts:105 | `parseInt` of digits followed by a non-digit is the digits' value |
| `JsStrings.ParseIntNonNumeric` | convex/settings.ts:105-108 | a string starting with a character that is not a digit, sign or space parses to NaN |
| `JsStrings.ParseIntOfIntToString` | convex/settings.ts:105 | `parseInt(String(i))` is i, for every integer |
| `JsStrings.ParseIntOfPadded` | convex/settings.ts:98-105 | a zero-padded number parses back to itself |
| `Address.Trimmed` | src/lib/utils.ts:23-26 | the trimmed field is empty exactly when the field is absent or whitespace only |
| `Address.Segments` | src/lib/utils.ts:32-35 | one segment each for a non-empty building and a non-empty unit |
| `Address.BuildingUnitLine` | src/lib/utils.ts:32-38 | the building and "Unit " + unit joined by ", ", or whichever one is present; trimmed and non-empty |
| `Address.Lines` | src/lib/utils.ts:28-43 | street first, then building/unit, then "Postal Code " + postal, each only when present |
| `Address.AddressLines` | src/lib/utils.ts:21-43 | at most three lines, each trimmed and non-empty; none exactly when all four fields are blank |
| `Address.PostalLine` | src/lib/utils.ts:41-43 | "Postal Code " followed by the trimmed code |
| `Address.FormatAddress` | src/lib/utils.ts:45 | undefined exactly when all four fields are absent or whitespace only |
| `Address.FormattedLinesSplitBack` | src/lib/utils.ts:28-45 | splitting the text on newlines gives back the lines in order (for fields without newlines) |
| `Address.LinesHaveNoNewline` | src/lib/utils.ts:28-43 | no line contains a newline when no field does |
| `Address.TrimmedHasNoNewline` | src/lib/utils.ts:23-26 | trimming adds no newline |
| `Backend.DeleteChildren` | convex/invoices.ts:353-367 | the scan-and-delete loop leaves exactly `Without` of the table |
| `Backend.WithStatus` | convex/invoices.ts:201-206 | the status patch keeps the number of invoices |
| `Backend.Store.constructor` | convex/schema.ts:4-82 | a database holding the given clients and no other rows |
| `Backend.Store.InsertLines` | convex/invoices.ts:84-93 | appends one line row per priced line, with fresh ids |
| `Backend.Store.InsertClaims` | convex/invoices.ts:96-105 | appends one claim row per numbered claim, with fresh ids |
| `Backend.Store.Create` | convex/invoices.ts:40-108 | appends exactly one invoice, with a fresh id and the computed figures; appends one line row per input line and one claim row per input claim, all pointing at it; keeps the invariant |
| `Backend.Store.Revise` | convex/invoices.ts:267-322 | for an existing invoice: its patch, the deletion of exactly its old rows and the insertion of the new ones, keeping the invariant |
| `Backend.Store.PatchInvoice` | convex/invoices.ts:239-280 | the patch writes the recomputed figures and the arguments' fields, and only to that invoice |
| `Backend.Store.Update` | convex/invoices.ts:239-325 | fails, changing nothing, exactly for an unknown invoice; otherwise patches the invoice's fields and figures but not its id, status or creation time, removes all its old rows and appends the new ones; keeps the invariant |
| `Backend.Store.UpdateStatus` | convex/invoices.ts:178-183 | fails, changing nothing, exactly for an unknown invoice; otherwise only that invoice's status and `updatedAt` change |
| `Backend.Store.UpdateStatusBulk` | convex/invoices.ts:196-207 | an empty list changes nothing; otherwise succeeds exactly when every listed invoice exists, and then only the listed invoices' status and `updatedAt` change |
| `Backend.Store.PatchStatus` | convex/invoices.ts:179-182 | the patch succeeds exactly for an existing invoice, and changes only its status and `updatedAt` |
| `Backend.Store.PatchEach` | convex/invoices.ts:201-206 | the patches in turn succeed exactly when every listed invoice exists, and then only the listed invoices change |
| `Backend.Store.BulkStatusPatch` | convex/invoices.ts:202-205 | one patch succeeds exactly when its invoice existed, and adds its id to those patched |
| `Backend.Store.Remove` | convex/invoices.ts:329-370 | fails, changing nothing, exactly for an unknown invoice; otherwise deletes the invoice and exactly its line and claim rows; keeps the invariant |
| `Backend.Store.RemoveMany` | convex/invoices.ts:336-347 | succeeds exactly when the listed ids are existing and distinct, and then deletes each with its rows; otherwise changes nothing |
| `Backend.Store.DeleteEach` | convex/invoices.ts:343-345 | the deletes in turn succeed exactly when the listed ids exist and are distinct, and then each is deleted with its rows |
| `Backend.Store.UpsertSettings` | convex/settings.ts:39-74 | an existing row keeps its id and has its five fields replaced; otherwise one row is inserted with defaults for omitted fields; either way the user's only row has the returned id, and other users' settings are unchanged |
| `Backend.Store.StoreUser` | convex/users.ts:12-38 | an existing Clerk id keeps its id, Clerk id and creation time and gets the new email, name and image; an unknown one gets exactly one new row; `getCurrentUser` then returns it; other Clerk ids are unaffected |
| `Backend.Store.StoreUserTwice` | convex/users.ts:13-50 | storing twice returns the same id, adds at most one row, leaves one user for the Clerk id, and `getCurrentUser` returns it |
| `Backend.FoundIffListed` | convex/invoices.ts:140-141 | an invoice is found exactly when some invoice has the id |
| `Backend.NewRows` | convex/invoices.ts:60-105 | the rows `create` and `update` insert belong to the invoice, are numbered by position, sum to the subtotal and take ids below the advanced counter |
| `Backend.NewLineRows` | convex/invoices.ts:84-93 | the inserted line rows belong to the invoice, are numbered by position, priced, sum to the lines' value and take ids below the counter |
| `Backend.NewClaimRows` | convex/invoices.ts:96-105 | the inserted claim rows belong to the invoice, are numbered by position, sum to the claims' value and take ids below the counter |
| `Backend.CreateKeepsValid` | convex/invoices.ts:68-105 | `create`'s writes keep every table invariant, and the new id is unused |
| `Backend.CreateReadsBack` | convex/invoices.ts:68-107 | after `create`, `get` on the new id returns the new invoice with exactly the requested lines and claims, in input order |
| `Backend.OnlyNewChildren` | convex/invoices.ts:84-105 | rows for an id that had none, inserted with `order` equal to position, read back sorted as inserted |
| `Backend.UpdateKeepsValid` | convex/invoices.ts:267-322 | `update`'s writes keep every table invariant |
| `Backend.UpdateReadsBack` | convex/invoices.ts:267-322 | after `update`, `get` returns exactly the new lines and claims, none of the old ones |
| `Backend.StatusKeepsValid` | convex/invoices.ts:179-182 | a status patch keeps every table invariant |
| `Backend.WithStatusAt` | convex/invoices.ts:179-182 | patching the one invoice with the id is `WithStatus` of that id |
| `Backend.WithStatusKeepsUnique` | convex/invoices.ts:201-206 | a status patch keeps the invoice ids distinct |
| `Backend.WithStatusTwice` | convex/invoices.ts:201-206 | patching a then b is patching their union |
| `Backend.BulkStatusStep` | convex/invoices.ts:201-206 | each loop step adds one id to the set already patched |
| `Backend.WithStatusNone` | convex/invoices.ts:197-199 | an empty id set changes nothing |
| `Backend.SpliceIsWithout` | convex/invoices.ts:369 | deleting the document at its position is deleting by id |
| `Backend.RemoveKeepsValid` | convex/invoices.ts:349-370 | the cascade keeps every table invariant |
| `Backend.RemoveManyFails` | convex/invoices.ts:343-345 | an id that is missing or already deleted makes the whole request fail |
| `Backend.RemoveManyStep` | convex/invoices.ts:343-345 | a successful step extends the listed, distinct prefix by one |
| `Backend.DeleteStep` | convex/invoices.ts:343-345 | after one more successful delete, the ids deleted so far are known, distinct and gone |
| `Backend.WithoutAllStep` | convex/invoices.ts:343-345 | deleting the ids one at a time is cumulative |
| `Backend.SettingsReplaced` | convex/settings.ts:53-59 | patching the user's row keeps the invariant; the row is still found, and other users' settings are unchanged |
| `Backend.SettingsAppended` | convex/settings.ts:60-72 | inserting the first row for a user keeps the invariant, and it is the one found |
| `Backend.UserReplaced` | convex/users.ts:18-25 | patching an existing user keeps the invariant; `getCurrentUser` returns the patched row, and other Clerk ids are unaffected |
| `Backend.UserAppended` | convex/users.ts:28-37 | inserting a user with a new Clerk id keeps the invariant; `getCurrentUser` returns it, and other Clerk ids are unaffected |
| `DashboardRows.CountStatuses` | src/app/dashboard/page.tsx:104-116 | the `forEach` tallies each status's count of invoices |
| `DashboardRows.CountsCoverAll` | src/app/dashboard/page.tsx:111-116 | the four counts add up to the number of invoices |
| `DashboardRows.Rank` | src/app/dashboard/page.tsx:118 | each status's position in draft, sent, paid, overdue |
| `DashboardRows.StatusData` | src/app/dashboard/page.tsx:118-125 | entries in the order draft, sent, paid, overdue, each with its label and count; a status appears exactly when its count is non-zero; the counts add up to the tallies' sum |
| `DashboardRows.NonEmptyMembers` | src/app/dashboard/page.tsx:125 | the filter keeps exactly the entries with a non-zero count |
| `DashboardRows.NonEmptyTotal` | src/app/dashboard/page.tsx:125 | the filter does not change the sum of the counts |
| `DashboardRows.NonEmptyOrdered` | src/app/dashboard/page.tsx:118-125 | the filter keeps the order |
| `DashboardRows.NonEmptyAbove` | src/app/dashboard/page.tsx:125 | the filter keeps a lower bound on ranks |
| `DashboardRows.AllSlicesFacts` | src/app/dashboard/page.tsx:118-124 | the unfiltered map lists the four statuses in order, with labels and counts, summing to the tallies |
| `DashboardRows.NoRowsNoSlices` | src/components/dashboard-charts.tsx:96 | no invoice gives no entry |
| `DashboardRows.PaidRevenueSplit` | src/app/dashboard/page.tsx:84 | buckets are half-open: the revenue of [a, c) is that of [a, b) plus that of [b, c) |
| `DashboardRows.PaidRevenueBounded` | src/app/dashboard/page.tsx:77-94 | with non-negative totals, a bucket's revenue lies between 0 and the total of all paid invoices |
| `DashboardRows.PaidRevenueOfOneMore` | src/app/dashboard/page.tsx:84-93 | one more invoice adds its total exactly when it is paid and `start <= issueDate < end` |
| `DashboardPage.StatusBreakdown` | src/app/dashboard/page.tsx:103-126 | the histogram of the invoices, with counts adding up to their number |
| `DashboardPage.MonthlyRevenue` | src/app/dashboard/page.tsx:59-100 | one figure per month |
| `DashboardPage.MonthlyRevenueAddsUp` | src/app/dashboard/page.tsx:77-94 | over consecutive months the figures add up to the paid revenue of the whole span, each invoice counted once |
| `DashboardPage.ClientTotals` | src/app/dashboard/page.tsx:129-140 | the `forEach` builds `Groups`: distinct keys, each value the sum of its key's invoice totals |
| `DashboardPage.GroupsSpec` | src/app/dashboard/page.tsx:129-140 | one entry per key an invoice has (its client id, or its own id without one), each with the sum of totals for the key and the name from the key's first invoice, else "Unnamed Client" |
| `DashboardPage.AccumulateShape` | src/app/dashboard/page.tsx:137-139 | a key already in the map has its value raised by the invoice total; a new one is appended |
| `DashboardPage.KeyTotalZero` | src/app/dashboard/page.tsx:137 | a key with no invoice sums to zero |
| `DashboardPage.TopSpec` | src/app/dashboard/page.tsx:142-144 | min(5, n) entries of the map, none taken twice (a sub-multiset), in non-increasing value, and none left out has a larger value than one shown |
| `DashboardPage.TopClientsData` | src/app/dashboard/page.tsx:142-148 | at most five points, in non-increasing value |
| `DashboardPage.TopClientsShown` | src/app/dashboard/page.tsx:128-148 | the points are for distinct keys, each with its first-invoice name and its total |
| `DashboardPage.TopClientsLeftOut` | src/app/dashboard/page.tsx:128-148 | no key left out sums to more than a shown point |
| `DashboardCharts.WeekTotals` | src/components/dashboard-charts.tsx:62-85 | the loop sums paid invoices issued in [start, end) into `paid`, and non-draft invoices issued in [start, end) into `total` |
| `DashboardCharts.WeeklyRevenue` | src/components/dashboard-charts.tsx:52-92 | nothing without invoices; otherwise exactly eight points, in week order, each with its week's paid and billed revenue |
| `DashboardCharts.PaidWithinBilled` | src/components/dashboard-charts.tsx:78-82 | with non-negative totals, 0 <= paid <= total in every week |
| `DashboardCharts.BilledOfOneMore` | src/components/dashboard-charts.tsx:76-84 | one more invoice adds to a week only when it is issued in [start, end); a draft adds to neither figure |
| `DashboardCharts.ChartStatusData` | src/components/dashboard-charts.tsx:95-119 | nothing without invoices; otherwise the same histogram as the page, with counts adding up to the number of invoices |
| `RecentInvoices.ToTableRow` | src/components/recent-invoices-table.tsx:95-106 | keeps the invoice's id, status, total and dates; a missing client shows as "Unknown client" with no email or contact |
| `RecentInvoices.FirstRows` | src/components/recent-invoices-table.tsx:94-106 | the first min(5, n) invoices, each mapped to a row |
| `RecentInvoices.RecentInvoicesTable` | src/components/recent-invoices-table.tsx:90-108 | sorts the caller's array in place, newest issue date first (a permutation of the old contents), and returns the rows of its first five |
| `RecentInvoices.RecentFromList` | src/components/recent-invoices-table.tsx:92-106 | min(5, n) rows, each showing an invoice of the list |
| `RecentInvoices.RecentNewestFirst` | src/components/recent-invoices-table.tsx:93-94 | the rows are in non-increasing issue date |
| `RecentInvoices.RecentLeavesOutOlder` | src/components/recent-invoices-table.tsx:93-94 | no invoice left out was issued later than one shown |

## Left out

- Floating point: money is exact, so the IEEE rounding of JavaScript numbers is not modelled. Neither is the display rounding `Number(x.toFixed(2))` on the dashboard figures (`src/app/dashboard/page.tsx:98`, `:147`, `src/components/dashboard-charts.tsx:89-90`).
- Calendar arithmetic: the month and week bounds computed with `Date` in local time are parameters (`months`, `weeks`), as are the format labels (`format(start, "MMM dd")`).
- DashboardCharts.WeeklyRevenue: requires exactly eight week bounds, because the eight buckets come from the calendar code that is not part of this model.
- DashboardPage.MonthlyRevenue: takes the six month bounds as a parameter of any length, for the same reason.
- `getByUser` (`convex/invoices.ts:112-134`) is not modelled as a query. The dashboard's `Row` list stands for its output: each invoice with its client joined, or no client when it was deleted.
- `convex/clients.ts` is not part of this model; the clients table is given to `Store`'s constructor and read by `getStats` and `get`. Its `address` argument (`convex/clients.ts:10`) does not match the schema's four address fields.
- `users.getUser` (`convex/users.ts:53-58`) is a plain document read and is not modelled separately.
- Schema validation is not modelled. Two consequences:
  - The model lets `settings.upsert` insert `paymentInstructions`, a field `convex/schema.ts:73-81` does not declare.
  - Patching a required field to `undefined` removes it in the model. Settings rows therefore keep their five patchable fields as `Option`.
- Storage ids of claim receipts (`imageStorageId`) and timestamps other than `now` are carried as plain values, and no storage is modelled.
- InvoiceNumbers.Format: the start number is an integer, while `v.optional(v.number())` (`convex/settings.ts:34`) and `v.number()` (`convex/schema.ts:76`) accept any number; a fractional start such as 1.5, which `String()` would print with its decimal point, is not modelled.
- Backend.Store.UpsertSettings: `invoiceNumberStart` and `dueDateDays` are integers (`convex/settings.ts:34-35`, `convex/schema.ts:76-77`), so fractional values the schema would accept are not modelled.
- JsStrings.ParseInt: integers are unbounded, so precision loss above 2^53 is not modelled, nor is the exponent notation `String(n)` uses from 1e21 up.
- The unknown-status guard `counts[status] !== undefined` (`src/app/dashboard/page.tsx:113`) is dead code here: the schema restricts the status to the four values, and `Status` is that enum.
- Convex transactions, concurrency, reactivity and authorization: each mutation is one sequential method, and the code checks no ownership.
- `roundToIncrement` (`src/app/settings/index.tsx:31-34`), the UI pages and components, PDF generation, image handling, Clerk and HTTP calls are outside the core.
