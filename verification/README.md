# Nexus Stock ledger in Dafny

This project models the inventory ledger of the Nexus Stock console. The
console is a React single-page application. Its state is one immutable
snapshot (`AppState`) holding the catalogue of products, categories,
suppliers, the append-only transaction history, the signed-in user and an
audit trail. Every user command is a pure transition from one snapshot to the
next:

- recording a stock movement (inbound, outbound, adjustment);
- creating, editing and deleting a product (deleting is for administrators only);
- onboarding a supplier;
- exporting a report.

Each command that changes the state writes one audit entry; a delete that is denied, finds no product or is cancelled writes none. Every command's contract fixes the new entry's id and timestamp (the supplied random id and clock reading), its action, its user and its details. The trail keeps the 100 newest entries.
The screens derive read-only views from the snapshot:

- the low-stock badge;
- the dashboard figures, the category histogram, the recent-activity feed and
  the low-stock monitor;
- the filtered and sorted catalogue and history.

The modules follow the source files:

| module | models |
|---|---|
| `Types` | the records of `types.ts` (dates as millisecond integers, prices as exact reals) |
| `App` | `addLog`, `lowStockCount` and the initial snapshot of `App.tsx`, and the export (both CSV buttons) |
| `Transactions` | the movement form, the history filter and sort, the header totals |
| `Inventory` | the role-gated delete, the create/update form, the catalogue filter, the row status |
| `Suppliers` | supplier onboarding with positional ids |
| `Dashboard` | the headline figures, the category histogram, the recent feed, the low-stock monitor |
| `Ledger` | the per-movement quantity step, product lookup by id, folds and replays of the history |
| `Seqs` | `slice`, `filter`, sums, and the stable descending sort |
| `Text` | ASCII `toLowerCase`, `includes`, decimal rendering of naturals |

The handlers draw some values from outside. These become parameters of the
model:

- the random ids (`Math.random`);
- the clock (`new Date()`, one reading per handler);
- the year and the random draw of a batch number;
- the answer to the confirmation dialog.

Three behaviours of the code are worth stating plainly, because a reader
might expect otherwise:

- The movement handler does not check that the product exists. It records
  the transaction and the audit entry even for an unknown id, and the
  catalogue is then unchanged (`Transactions.ApplyMovement`,
  `Dashboard.MovementOnMissingProduct`).
- The recent-activity feed takes the first five stored transactions and sorts
  only those. It is guaranteed to be the newest five when the history is
  stored newest first (`Dashboard.RecentIsNewestWhenHistoryOrdered`).
  Otherwise it can miss the newest transaction
  (`Dashboard.RecentCanMissNewest`). The seeded
  history is itself stored oldest first (`App.InitialStateFacts`).
- Delete filters the catalogue by id, so it removes every product carrying
  that id, not only the one whose row was clicked.

## Model

| member | source | states |
|---|---|---|
| `Transactions.ApplyMovement` | components/Transactions.tsx:74-91 | Catalogue length and order are kept. Only products with the movement's id change: inbound adds, outbound subtracts with no floor, an adjustment overwrites. All other fields of those products stay, and lastUpdated is refreshed. An unknown id leaves the catalogue as it was. The transaction is put in front of the old history, which is kept whole. Categories, suppliers, user and trail are untouched |
| `Transactions.RecordMovement` | components/Transactions.tsx:56-95 | The movement handler: the state transition above plus exactly one TRANSACTION audit entry naming the kind and the product ("undefined" when the id is unknown) |
| `Transactions.FoldConsistency` | components/Transactions.tsx:75-84 | After any run of movements, each product's stock is the left fold of (+q, -q, :=q) over the movements aimed at it, starting from its old stock |
| `Transactions.StockIsLogReplay` | components/Transactions.tsx:74-91 | After any run of movements, the old history sits untouched behind the new transactions. Each product's stock equals its old stock replayed through the new part of the history, oldest entry first |
| `Transactions.LaptopScenario` | components/Transactions.tsx:77-80 | From the seeded laptop at 12: inbound 5 gives 17, outbound 20 gives -3, adjustment 8 gives exactly 8. Each step adds one transaction and one audit entry |
| `Transactions.MovementOnUniqueProduct` | components/Transactions.tsx:75-84 | When exactly one product has the id, the catalogue becomes the old one with that single position replaced |
| `Transactions.MovementKeepsHistoryOrdered` | components/Transactions.tsx:89 | If the clock does not run backwards, prepending keeps a newest-first history sorted by date |
| `Transactions.MovementUpdatesTotals` | components/Transactions.tsx:130-152 | Recording a movement raises only the header total of its own kind, by its quantity. It raises the adjustment count only for an adjustment |
| `Transactions.FilteredTransactions` | components/Transactions.tsx:28-38 | The result is sorted by date, newest first, and transactions of equal date keep their stored order. Each transaction appears exactly as often as in the history when it matches, and not at all otherwise. A transaction is shown iff its product's name or SKU, or its note, contains the active search term, ignoring case. A transaction whose product is gone is shown only through its note |
| `Transactions.EmptySearchShowsAll` | components/Transactions.tsx:29-36 | With both search boxes empty, every transaction is shown |
| `Transactions.AssetLabel` | components/Transactions.tsx:188-195 | A transaction whose product no longer exists shows "Deleted Asset". Otherwise it shows the first matching product's name, or "Deleted Asset" if that name is empty |
| `Ledger.FindProduct` | components/Transactions.tsx:32 | Lookup by id finds nothing iff no product has the id. Otherwise it returns the first product with that id |
| `Ledger.ReplayWithoutAdjustments` | components/Transactions.tsx:77-80 | For a log of that product's transactions alone, without adjustments, the replayed stock is its start plus all inbound volume minus all outbound volume |
| `Ledger.TypeVolumeIsFilterSum` | components/Transactions.tsx:130 | Each header total (inbound at line 130, outbound at 141) and the dashboard's outbound figure is the sum of the quantities of the transactions of that kind, as the screen's filter-then-add computes it |
| `Ledger.AdjustmentCountIsFilterLength` | components/Transactions.tsx:152 | The adjustment total is the number of transactions the adjustment filter keeps |
| `Ledger.AdjustmentForgetsHistory` | components/Transactions.tsx:80 | Once a product's history contains an adjustment, its replayed stock does not depend on the starting stock |
| `App.AddLog` | App.tsx:148-157 | Only the trail changes. The new entry, attributed to the current user, comes first and older entries shift back by one. The length grows by one below 100 and stays at 100 once full. A trail of at most 100 stays within 100 |
| `App.RecordAllIsCappedPrefix` | App.tsx:156 | After any non-empty run of audit calls, the trail is the new entries, newest first, followed by the old trail, cut to 100 |
| `App.AuditCapAfterManyActions` | App.tsx:156 | After 100 or more audit calls, the trail holds exactly 100 entries, from the latest call back to the 100th latest |
| `App.LowStockCount` | App.tsx:168-170 | The badge count is at most the catalogue size. It is zero iff no product has quantity at or below its reorder level |
| `App.InitialStateFacts` | App.tsx:28-55 | In the seeded snapshot the trail is empty, the user is an administrator and two products are low. The seeded history is not sorted newest first |
| `Inventory.RemoveProduct` | components/Inventory.tsx:80 | A product survives removal iff its id differs. Removal is the identity iff no product carries the id |
| `Inventory.RemoveKeepsOrder` | components/Inventory.tsx:80 | Removal distributes over concatenation and keeps a single product iff its id differs, so the survivors keep their order |
| `Inventory.DeleteProduct` | components/Inventory.tsx:67-85 | A non-administrator is denied. A missing id, or a cancelled confirmation, changes nothing. A confirmed delete by an administrator leaves exactly the id-filtered catalogue, so every product with that id goes and the others stay in order. It leaves the history and every other field untouched and writes one DELETE_PRODUCT entry naming the first product with that id and its SKU. Each outcome is stated in both directions |
| `Inventory.DeleteLeavesDanglingHistory` | components/Inventory.tsx:79-82 | After a delete, the transactions about the removed product remain and are labelled "Deleted Asset" |
| `Inventory.UpdateProduct` | components/Inventory.tsx:99-108 | Products with the edited id get the form's name, sku, category, quantity, reorder level, price, cost and a fresh lastUpdated. They keep id, supplier, unit, batch and expiry. Other products are unchanged. Exactly one UPDATE_PRODUCT entry is written |
| `Inventory.CreateProduct` | components/Inventory.tsx:109-130 | One product is appended after the unchanged old ones, with the form's fields and unit "pcs". Its supplier is the first supplier's id, or "s1" when there is none or that id is empty. It gets the generated batch number and no expiry. Exactly one CREATE_PRODUCT entry is written |
| `Inventory.CreateUpdatesLowStockCount` | components/Inventory.tsx:125-128 | Creating a product raises the low-stock count by one iff the new product is low |
| `Inventory.FilteredProducts` | components/Inventory.tsx:39-47 | A product is listed iff its name or SKU contains the active search term, ignoring case, and the filter is "all" or matches its category. A listed product appears exactly as often as in the catalogue |
| `Inventory.FilteredProductsKeepOrder` | components/Inventory.tsx:39-47 | The filter distributes over concatenation and keeps a single product iff it matches, so listed rows keep their catalogue order |
| `Inventory.NoFilterShowsAll` | components/Inventory.tsx:40-46 | With empty search boxes and "all", the listing is the whole catalogue in order |
| `Inventory.Status` | components/Inventory.tsx:203-204 | "Out of Stock" iff the quantity is 0. Otherwise "Reorder Required" iff the quantity is at or below the reorder level, else "Stable Supply". A row needs attention iff it is empty or low, and negative stock reads as "Reorder Required" when the reorder level is not negative |
| `App.Export` | components/Inventory.tsx:49-65 | Either export (the catalogue here, the history in the same-shaped handler at components/Transactions.tsx:40-54) changes nothing but the trail, which gains one EXPORT entry reading "Generated inventory CSV report" or "Generated transaction history report" respectively |
| `Suppliers.OnboardSupplier` | components/Suppliers.tsx:15-32 | One supplier is appended after the unchanged old ones, with id "s" followed by the old count plus one. Nothing else changes but the trail, which gains one SUPPLIER entry naming the partner |
| `Suppliers.OnboardKeepsPositionalIds` | components/Suppliers.tsx:19-29 | If every supplier's id is "s" followed by its position plus one, this still holds after onboarding |
| `Suppliers.InitialSuppliersArePositional` | App.tsx:41-44 | The seeded suppliers s1 and s2 are positional |
| `Suppliers.PositionalIdsAreDistinct` | components/Suppliers.tsx:19 | Positional ids never collide |
| `Text.NatToStringInjective` | components/Suppliers.tsx:19 | Distinct numbers render as distinct decimal strings |
| `Text.Contains` | components/Inventory.tsx:42-43 | `includes` holds iff the needle occurs at some position of the haystack |
| `Dashboard.ValuationExample` | components/Dashboard.tsx:36-38 | Three units at 10 plus four at 2.5 are worth 40, and make 7 items |
| `Dashboard.StatsFollowMovement` | components/Dashboard.tsx:35-44 | A movement on a uniquely identified product changes the items figure by that product's stock change. It changes the low-stock figure by the change in that product's status, and the outbound figure by the amount of an outbound movement |
| `Dashboard.ValueFollowsMovement` | components/Dashboard.tsx:36 | The same movement changes the stock value by the stock change times the product's price |
| `Dashboard.ValueAfterUpdate` | components/Dashboard.tsx:36 | Changing one product's stock changes the summed value by the quantity change times its price |
| `Dashboard.ItemsAfterUpdate` | components/Dashboard.tsx:38 | Replacing one product changes the item total by its quantity change |
| `Dashboard.LowStockAfterUpdate` | components/Dashboard.tsx:37 | Replacing one product changes the low-stock figure by whether it was low and whether it is low |
| `Dashboard.MovementOnMissingProduct` | components/Dashboard.tsx:39-41 | A movement on an unknown id leaves value, items and low-stock alone. An outbound one still adds to the all-time outbound figure |
| `Dashboard.CategoryData` | components/Dashboard.tsx:46-51 | There is one bar per category, in category order, with that category's name and product count, zero included |
| `Dashboard.CountInCategoryIsFilterLength` | components/Dashboard.tsx:49 | A bar's count is the number of products the category-id filter keeps |
| `Dashboard.HistogramCoversCatalogue` | components/Dashboard.tsx:46-51 | With distinct category ids, the bars sum to the catalogue size minus the products of unknown category |
| `Dashboard.RecentTransactions` | components/Dashboard.tsx:55-57 | The feed has min(5, n) entries. It is a permutation of the first min(5, n) stored transactions, sorted by date, newest first, with equal dates in stored order |
| `Dashboard.HeadlineFigures` | components/Dashboard.tsx:35-44 | The outbound figure is the quantity of the outbound transactions the filter keeps. The low-stock figure is at most the catalogue size and zero iff nothing is low. With no negative stock the units are not negative, and with no negative stock or price the value is not negative |
| `Dashboard.RecentIsNewestWhenHistoryOrdered` | components/Dashboard.tsx:55-57 | For a history stored newest first, the feed is its first five entries, and no entry of the feed is older than any stored after them |
| `Dashboard.RecentCanMissNewest` | components/Dashboard.tsx:55-57 | A transaction stored sixth that is newer than each of the first five is left out of the feed |
| `Dashboard.LowStockMonitor` | components/Dashboard.tsx:203 | The monitor holds min(5, low-stock count) products. All of them are low catalogue members, and they are the first low products in catalogue order |
| `Seqs.FilterCount` | components/Inventory.tsx:41 | An array filter keeps each passing element exactly as often as it occurs in the input, and drops every failing one |
| `Seqs.SortDesc` | components/Transactions.tsx:37 | The date sort returns a permutation of its input, sorted by key in descending order |
| `Seqs.SortDescIsStable` | components/Transactions.tsx:37 | The sort is stable: elements with equal keys keep their relative order |

## Left out

- Rendering, styling and charts: all JSX, recharts, and the progress-bar width arithmetic. These are presentation and floating-point display.
- Persistence through localStorage and JSON (App.tsx:128-146). This is I/O.
- The login screen and the authentication flag. These are UI and I/O.
- The CSV text of the two exports, including `encodeURI` and the download anchor. These are browser I/O with locale and float formatting. The model keeps only the single EXPORT audit entry.
- `alert`, `window.confirm` and the `openInventoryModal` event. The confirmation answer is a boolean parameter, and the alert is the `Denied` outcome.
- `Math.random` and `new Date()`. Ids, clock readings, the batch year and the random draw are parameters. All clock reads within one handler share one reading. Timestamps are integers in milliseconds. The seeded ISO dates are converted by hand.
- `Number(...)` parsing of form fields (NaN, fractional quantities). Quantities are integers and prices are exact reals, so floating-point rounding in the valuation sum is not modelled.
- `toLowerCase` beyond ASCII letters. Unicode case mapping is not modelled.
- services/gemini.ts, components/Insights.tsx and components/Settings.tsx. These are an external network call and display-only screens.
- Browser form validation (`required`, `min="1"`). It is not enforced by the handlers, so no operation requires positive quantities.
- The transaction's `type` field is named `kind` in the model, because `type` is a Dafny keyword.
- React's asynchronous batching of the two state updates per handler is modelled as their sequential composition. The handler's closure values (current user, old supplier count, old product name) are read from the snapshot before the command.
