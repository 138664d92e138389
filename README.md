# TPV — a verified model of the point-of-sale core

This project models the core of a bar and restaurant point-of-sale (TPV) web application in Dafny and proves properties of the model. The core covers:

- **The POS screen.** A waiter picks a zone (terrace or bar), optionally a table, and taps product tiles. Each tap adds a line to a draft order or bumps the line's quantity. The summary panel's buttons change quantities or remove lines. Completing the order stores it in the global store and releases the table.
- **The order summary panel.** It shows subtotal, 10 % VAT and total, plus the table/zone header.
- **The global store reducer.** Fourteen actions over the current user, products, categories, tables, orders and users, plus an initial-data merge.
- **The product selector and the table view.** Category buttons, the search/category/active filter, zone filtering, status colours and texts, and table highlighting.
- **The category manager.** The flat category list becomes a parent/child tree. It also keeps the expand/collapse map, the "new category" form and the parent-option list.
- **The product manager.** The search filter, product deletion, the initial form data, the final price and the saved record.
- **The reports panel.** Today's completed orders, the per-product and per-waiter tallies, the top-five products, the average ticket and the daily close.

## How the model is organised

- **Values.** Money is an exact `real`. Timestamps are `int`. Ids and names are `string`. The records of `project/src/types/index.ts` and `project/src/types/category.ts` are datatypes in module `Domain`. A category's `parentId` has three values: `NullParent`, `NoParent` and `ParentId(id)`. Three are needed because the tree builder compares with strict `=== null`: a missing `parentId` is not a root. A table status is one of the three declared values or `OtherStatus(raw)`, where `raw` ranges over the strings other than those three (`Domain.UnknownStatus`). So every raw string has exactly one reading (`Domain.StatusOf`).
- **The active flag.** A product's `active` is `Domain.Flag`: a boolean or a number, as the API delivers it (0/1 from the database). The selector filters on its JavaScript truthiness (`Domain.Truthy`). The product form tests `!== false`, so a numeric 0 reads as active there. A saved record always carries a boolean.
- **Generic list operations.** Modules `Lists` and `Text` hold filter, find, map-where, remove/replace by key, dedupe, sums and counts, ASCII lower-casing and substring search. They are defined once and shared by every component.
- **The POS screen state.** The three pieces of screen state are the fields of class `POSSystem.PosSession`. Its handlers are methods proved against the pure draft operations in `OrderLines`.
- **The store.** The global store is the value `AppContext.AppState`, and `AppContext.Reduce` is the reducer. `completeOrder` takes the store and returns it after its dispatches.
- **The reports loops.** The reports panel's `forEach` loops over a `Map` are `while` loops. `ReportsPanel.TallyProducts`, `ReportsPanel.TallyLines` and `ReportsPanel.TallyWaiters` are proved equal to a left fold (`ReportsPanel.Fold`). Lemmas connect the fold to per-key sums and counts, and so to the report rows.
- **Parameters.** The clock and the order id (`Date.now()`, `new Date()`, the ISO day key) are parameters of the operations that use them.

## Model

| member | source | states |
|---|---|---|
| OrderLines.LookUp | project/src/components/POS/POSSystem.tsx:15 | the catalog lookup finds nothing iff no product has the id; otherwise a catalog product with that id |
| OrderLines.AddToOrder | project/src/components/POS/POSSystem.tsx:14-38 | unknown product → draft unchanged; product without a line → one new line (quantity 1, unit price and total = final price) appended, earlier lines kept; product with a line → same length, that line's quantity +1 and total recomputed, other lines untouched |
| OrderLines.InactiveProductIsAdded | project/src/components/POS/POSSystem.tsx:15-16 | a product the catalog marks inactive is still added: the draft then has a line for it, one more line iff it had none |
| OrderLines.UpdateQuantity | project/src/components/POS/POSSystem.tsx:40-52 | no line for the product → unchanged; quantity ≤ 0 → an order-preserving subsequence keeping exactly the lines of other products; quantity > 0 → same length, the product's line gets the new quantity and total, other lines untouched |
| OrderLines.SubsequenceMembers | project/src/components/POS/POSSystem.tsx:42 | every line of a filtered draft was a line of the original draft |
| OrderLines.SubsequenceWellFormed | project/src/components/POS/POSSystem.tsx:42 | removing lines keeps the draft invariant (one line per product, total = quantity × unit price, quantity ≥ 1) |
| OrderLines.AddToOrderWellFormed | project/src/components/POS/POSSystem.tsx:14-38 | adding a product keeps the draft invariant |
| OrderLines.UpdateQuantityWellFormed | project/src/components/POS/POSSystem.tsx:40-52 | changing a quantity keeps the draft invariant |
| OrderLines.ApplyAllWellFormed | project/src/components/POS/POSSystem.tsx:14-52 | any sequence of add/set-quantity operations keeps the draft invariant |
| OrderLines.AddTwiceMerges | project/src/components/POS/POSSystem.tsx:18-36 | tapping the same product twice on an empty draft yields one line of quantity 2 and twice the price |
| OrderSummary.Subtotal | project/src/components/POS/OrderSummary.tsx:20 | the `reduce` over line totals; no contract of its own, its value is stated by OrderSummary.ComputeTotals, OrderSummary.SubtotalRecomputed and OrderSummary.TotalsConcat |
| OrderSummary.ComputeTotals | project/src/components/POS/OrderSummary.tsx:20-22 | subtotal is the sum of line totals; total = subtotal × 1.1 and total − VAT = subtotal; an empty order shows all zeros |
| OrderSummary.HiddenCheckoutIsZero | project/src/components/POS/OrderSummary.tsx:90-114 | the checkout block is hidden exactly when the order is empty, and then all totals are zero |
| OrderSummary.SubtotalRecomputed | project/src/components/POS/OrderSummary.tsx:20 | for a well-formed draft the subtotal equals the sum of quantity × unit price |
| OrderSummary.TotalsConcat | project/src/components/POS/OrderSummary.tsx:20-22 | subtotal, VAT and total are additive over a split of the order |
| OrderSummary.LineIndex | project/src/components/POS/POSSystem.tsx:18-27 | in a well-formed draft a product id identifies exactly one line |
| OrderSummary.AddNewRaisesSubtotal | project/src/components/POS/POSSystem.tsx:28-36 | adding a product not yet in the draft raises the subtotal by its final price |
| OrderSummary.AddExistingRaisesSubtotal | project/src/components/POS/POSSystem.tsx:18-27 | adding a product already in the draft bumps exactly that line and raises the subtotal by its unit price |
| OrderSummary.BumpAddsUnitPrice | project/src/components/POS/POSSystem.tsx:24 | a line total recomputed for quantity + 1 grows by exactly the unit price |
| OrderSummary.AddExistingBumps | project/src/components/POS/POSSystem.tsx:21-27 | adding an existing product equals updating only its own line to the bumped line |
| OrderSummary.SetQuantityMovesSubtotal | project/src/components/POS/POSSystem.tsx:44-50 | setting a positive quantity changes only that line, and the subtotal by (new − old) × unit price |
| OrderSummary.RemoveOnlyLine | project/src/components/POS/POSSystem.tsx:41-42 | quantity 0 removes exactly the product's line and keeps the others in order |
| OrderSummary.TrashQuantity | project/src/components/POS/OrderSummary.tsx:52 | the quantity the trash button passes; no contract of its own, its effect is stated by OrderSummary.TrashRemovesLine |
| OrderSummary.MinusQuantity | project/src/components/POS/OrderSummary.tsx:62 | the quantity the minus button passes; no contract of its own, its effect is stated by OrderSummary.MinusButton |
| OrderSummary.PlusQuantity | project/src/components/POS/OrderSummary.tsx:69 | the quantity the plus button passes; no contract of its own, its effect is stated by OrderSummary.PlusButtonIsAdd |
| OrderSummary.TrashRemovesLine | project/src/components/POS/OrderSummary.tsx:52 | the trash button removes exactly that line |
| OrderSummary.MinusButton | project/src/components/POS/OrderSummary.tsx:62 | minus on a quantity-1 line removes it; on a larger quantity it decrements and recomputes only that line |
| OrderSummary.PlusButtonIsAdd | project/src/components/POS/OrderSummary.tsx:69 | the plus button has the same effect as tapping the product tile again |
| OrderSummary.CoffeeScenario | project/src/components/POS/OrderSummary.tsx:20-22 | a 1.32 product tapped twice is one line of 2 (2.64); set to 5 it totals 6.60 + 0.66 VAT = 7.26 |
| OrderSummary.ZoneLabel | project/src/components/POS/OrderSummary.tsx:30 | the zone word of the header; no contract of its own, stated through OrderSummary.HeaderShape and OrderSummary.HeaderLabel |
| OrderSummary.IntToString | project/src/components/POS/OrderSummary.tsx:30 | `{table.number}` rendered: digits only for a non-negative number, a minus sign then digits for a negative one |
| OrderSummary.NatToString | project/src/components/POS/OrderSummary.tsx:30 | a table number renders as a non-empty string of decimal digits |
| OrderSummary.NatToStringRoundTrip | project/src/components/POS/OrderSummary.tsx:30 | reading the rendered digits back gives the table number |
| OrderSummary.HeaderShape | project/src/components/POS/OrderSummary.tsx:30 | a table header starts with "Mesa ", holds exactly the number between that and " - <zone>", and ends with the zone label of its own zone and not the other's |
| OrderSummary.HeaderLabel | project/src/components/POS/OrderSummary.tsx:28-36 | with a table, "Mesa " then the table's number then " - Barra" iff the zone is the bar and " - Terraza" iff the terrace; without one, "Barra" or "Para llevar" |
| OrderSummary.HeaderNumberReadsBack | project/src/components/POS/OrderSummary.tsx:30 | the text between "Mesa " and the zone reads back as the table's number (digits, with a leading minus sign for a negative number) |
| AppContext.Reduce | project/src/contexts/AppContext.tsx:111-170 | `appReducer`; no contract of its own, its effect is stated by AppContext.AddAppends, AppContext.UpdateReplaces, AppContext.DeleteRemoves, AppContext.Frame, AppContext.AtMostOneField, AppContext.SetUserChangesOnlyUser, AppContext.LoadOverwritesCarried, AppContext.EmptyLoadIsIdentity, AppContext.UnknownIsIdentity and AppContext.UpdateDeleteIdempotent |
| AppContext.Merge | project/src/contexts/AppContext.tsx:165-166 | each store field takes the patch's value when the patch carries it, else keeps the old one |
| AppContext.AddAppends | project/src/contexts/AppContext.tsx:115-159 | every ADD_ action appends the payload at the end of its list, earlier entries unchanged |
| AppContext.UpdateReplaces | project/src/contexts/AppContext.tsx:117-164 | every UPDATE_ action keeps the list's length, replaces each entry with the payload's id, leaves the others |
| AppContext.DeleteRemoves | project/src/contexts/AppContext.tsx:122-150 | every DELETE_ action keeps, in order, exactly the entries whose id differs |
| AppContext.Frame | project/src/contexts/AppContext.tsx:111-169 | an action leaves every store field it does not write unchanged |
| AppContext.AtMostOneField | project/src/contexts/AppContext.tsx:113-164 | apart from the initial-data load, an action writes and changes at most one store field |
| AppContext.SetUserChangesOnlyUser | project/src/contexts/AppContext.tsx:113-114 | SET_USER sets the current user and nothing else |
| AppContext.LoadOverwritesCarried | project/src/contexts/AppContext.tsx:165-166 | the initial-data load overwrites exactly the fields the payload carries |
| AppContext.EmptyLoadIsIdentity | project/src/contexts/AppContext.tsx:165-166 | loading an empty payload leaves the store unchanged |
| AppContext.UnknownIsIdentity | project/src/contexts/AppContext.tsx:167-168 | an unknown action type leaves the store unchanged |
| AppContext.UpdateDeleteIdempotent | project/src/contexts/AppContext.tsx:117-164 | dispatching the same UPDATE_ or DELETE_ action twice equals dispatching it once |
| POSSystem.Released | project/src/components/POS/POSSystem.tsx:81 | the released table is available with no current order, and keeps id, number, zone and seats |
| POSSystem.TableRef | project/src/components/POS/POSSystem.tsx:63 | the order's table id is present iff a table is selected, and is then that table's id |
| POSSystem.BuildOrder | project/src/components/POS/POSSystem.tsx:57-74 | the stored order carries the draft, the selected table and zone, status completed, the signed-in waiter and the clock reading |
| POSSystem.StoredTotalsAreDisplayed | project/src/components/POS/POSSystem.tsx:57-59 | the totals stored with the order are the totals the summary panel displayed |
| POSSystem.Finalize | project/src/components/POS/POSSystem.tsx:54-83 | the store after completeOrder's `ADD_ORDER` and `UPDATE_TABLE` dispatches; no contract of its own, its effect is stated by POSSystem.FinalizeEmptyDraft, POSSystem.FinalizeAppendsOrder, POSSystem.FinalizeReleasesTable and POSSystem.FinalizeFrame |
| POSSystem.FinalizeEmptyDraft | project/src/components/POS/POSSystem.tsx:55 | completing an empty draft dispatches nothing |
| POSSystem.FinalizeAppendsOrder | project/src/components/POS/POSSystem.tsx:61-76 | completing a non-empty draft appends exactly one completed order with the draft, the displayed totals, the table, zone and waiter; earlier orders unchanged |
| POSSystem.FinalizeReleasesTable | project/src/components/POS/POSSystem.tsx:78-83 | the selected table (every entry with its id) is replaced by its released copy, other tables unchanged; no table selected → tables untouched |
| POSSystem.FinalizeFrame | project/src/components/POS/POSSystem.tsx:76-83 | completing an order touches only the order and table lists of the store |
| POSSystem.PosSession.constructor | project/src/components/POS/POSSystem.tsx:10-12 | the screen starts with an empty draft, no table and the terrace zone |
| POSSystem.PosSession.AddToOrder | project/src/components/POS/POSSystem.tsx:14-38 | the draft becomes `OrderLines.AddToOrder` of the old draft; table and zone unchanged; the draft invariant is kept |
| POSSystem.PosSession.UpdateQuantity | project/src/components/POS/POSSystem.tsx:40-52 | the draft becomes `OrderLines.UpdateQuantity` of the old draft; table and zone unchanged; invariant kept |
| POSSystem.PosSession.SelectTable | project/src/components/POS/POSSystem.tsx:122 | the clicked table becomes the selection; draft and zone unchanged |
| POSSystem.PosSession.SetZone | project/src/components/POS/POSSystem.tsx:95-105 | the zone buttons set the active zone; draft and table unchanged |
| POSSystem.PosSession.CompleteOrder | project/src/components/POS/POSSystem.tsx:54-87 | empty draft → nothing changes; otherwise the store becomes the dispatched state, and draft and table selection are cleared; zone unchanged |
| ProductSelector.Categories | project/src/components/POS/ProductSelector.tsx:14 | "all" first, then each product category exactly once, and only those, in the order the catalog first uses them |
| ProductSelector.CategoryList | project/src/components/POS/ProductSelector.tsx:14 | the catalog's categories, one per product, position by position |
| ProductSelector.CategoriesFirstSeen | project/src/components/POS/ProductSelector.tsx:14 | two products of different categories give "all", then the first's category, then the second's |
| ProductSelector.AllButtonRepeats | project/src/components/POS/ProductSelector.tsx:14 | a product whose category is literally "all" produces a second "all" button |
| ProductSelector.Shown | project/src/components/POS/ProductSelector.tsx:17-19 | the filter's test on one product; no contract of its own, stated through ProductSelector.FilteredProducts and ProductSelector.EmptySearchShowsActive |
| ProductSelector.FilteredProducts | project/src/components/POS/ProductSelector.tsx:16-20 | an order-preserving subsequence of the products matching name search, category and a truthy active flag |
| ProductSelector.EmptySearchShowsActive | project/src/components/POS/ProductSelector.tsx:16-20 | with an empty search and "all", exactly the products whose active flag is truthy are shown |
| ProductSelector.SearchIgnoresCase | project/src/components/POS/ProductSelector.tsx:17 | lower-casing the search term does not change the result |
| ProductSelector.CategoryNarrows | project/src/components/POS/ProductSelector.tsx:18 | choosing a category only removes products from the "all" result |
| ProductSelector.TileClick | project/src/components/POS/ProductSelector.tsx:57 | a tile click passes the product's id, which every catalog holding the product resolves back to that product's id |
| ProductSelector.TileClickAddsLine | project/src/components/POS/ProductSelector.tsx:57 | clicking a shown tile always finds the product and leaves a line for it (one more line iff it was not in the draft) |
| TableView.ZoneTables | project/src/components/POS/TableView.tsx:14 | an order-preserving subsequence holding exactly the zone's tables |
| TableView.ZonesPartition | project/src/components/POS/TableView.tsx:14 | the bar and terrace views split the tables: the counts add up and each table is in one of them |
| TableView.ZonesCount | project/src/components/POS/TableView.tsx:14 | the two zone views together have as many tables as the store |
| TableView.StatusColor | project/src/components/POS/TableView.tsx:16-27 | green/red/yellow classes for available/occupied/reserved, grey for anything else |
| TableView.StatusText | project/src/components/POS/TableView.tsx:29-40 | Disponible/Ocupada/Reservada, and the raw status text otherwise |
| TableView.KnownStatusesDiffer | project/src/components/POS/TableView.tsx:16-40 | distinct known statuses get distinct colours and distinct texts |
| Domain.StatusOf | project/src/types/index.ts:28 | each raw status string has exactly one reading: the three declared strings are the three named statuses, and any other string is an unknown status carrying that string |
| TableView.StatusOfRaw | project/src/components/POS/TableView.tsx:16-40 | switching on the raw status string: "available", "occupied" and "reserved" get their colour and caption, any other string the grey classes and itself as caption |
| TableView.Highlighted | project/src/components/POS/TableView.tsx:54 | `selectedTable?.id === table.id`; no contract of its own, stated through TableView.ClickTable and TableView.ClickHighlights |
| TableView.ClickTable | project/src/components/POS/TableView.tsx:52 | clicking a table selects it, and afterwards exactly the tables with its id are highlighted |
| TableView.ClickHighlights | project/src/components/POS/TableView.tsx:52-54 | after a click, a table of the zone is highlighted iff it has the clicked id; with no selection nothing is |
| CategoryManager.Items | project/src/components/Products/CategoryManager.tsx:30-33 | the categories of a forest level, in order |
| CategoryManager.BuildTree | project/src/components/Products/CategoryManager.tsx:35 | `buildTree(data)` from a null parent; no contract of its own, its result is stated by CategoryManager.RootsAreNullParent, CategoryManager.BuildLinked, CategoryManager.BuildComplete and CategoryManager.TreeIsReachable |
| CategoryManager.Build | project/src/components/Products/CategoryManager.tsx:27-34 | each tree level holds exactly the items whose parent is the requested one, in list order |
| CategoryManager.RootsAreNullParent | project/src/components/Products/CategoryManager.tsx:27-35 | the roots are exactly the items with a null parent; an item with a missing parent is not a root |
| CategoryManager.BuildNode | project/src/components/Products/CategoryManager.tsx:30-33 | the i-th node is the i-th matching item with its own children subtree |
| CategoryManager.BuildLinked | project/src/components/Products/CategoryManager.tsx:27-34 | every node of the tree is an item whose parent id is the node above |
| CategoryManager.LinkOne | project/src/components/Products/CategoryManager.tsx:30-33 | one node is an item with the level's parent and a linked subtree |
| CategoryManager.SubtreeLinked | project/src/components/Products/CategoryManager.tsx:32 | a node's children subtree is linked to the node |
| CategoryManager.BuildAt | project/src/components/Products/CategoryManager.tsx:30-33 | a node at a level is an item with that parent whose children are built one level deeper |
| CategoryManager.ChildrenInOrder | project/src/components/Products/CategoryManager.tsx:32 | a node's children are exactly its child items in list order |
| CategoryManager.ChainTail | project/src/components/Products/CategoryManager.tsx:27-34 | the tail of a parent chain is a parent chain from its head |
| CategoryManager.LinkedSound | project/src/components/Products/CategoryManager.tsx:27-34 | every category in a linked forest is reached by a parent chain from the forest's parent |
| CategoryManager.BuildSound | project/src/components/Products/CategoryManager.tsx:27-34 | every category in the tree is reached by a parent chain from its root |
| CategoryManager.BuildHead | project/src/components/Products/CategoryManager.tsx:28-33 | every item with the level's parent appears at that level with its own subtree |
| CategoryManager.BuildCovers | project/src/components/Products/CategoryManager.tsx:27-34 | the tree contains, level by level, every item whose parent chain fits in the depth |
| CategoryManager.CoverOne | project/src/components/Products/CategoryManager.tsx:28-33 | one child item appears at its level with a covering subtree |
| CategoryManager.CoversComplete | project/src/components/Products/CategoryManager.tsx:27-34 | a covering forest contains the end of every parent chain from its parent that fits in the depth |
| CategoryManager.BuildComplete | project/src/components/Products/CategoryManager.tsx:27-34 | every category at the end of a parent chain from the root that fits in the depth is in the tree |
| CategoryManager.ChainNoRepeat | project/src/components/Products/CategoryManager.tsx:27-34 | with distinct ids a chain from the root never repeats a category |
| CategoryManager.DistinctNoLonger | project/src/components/Products/CategoryManager.tsx:27-34 | a repetition-free chain of items is no longer than the item list |
| CategoryManager.TreeIsReachable | project/src/components/Products/CategoryManager.tsx:27-35 | with distinct ids, a category is in the tree iff a parent chain from a null-parent root reaches it |
| CategoryManager.IsExpanded | project/src/components/Products/CategoryManager.tsx:134 | a category never toggled is collapsed; otherwise its stored flag |
| CategoryManager.Toggle | project/src/components/Products/CategoryManager.tsx:125-130 | the toggled id's flag becomes the negation of its displayed state; other entries keep theirs |
| CategoryManager.ToggleFlips | project/src/components/Products/CategoryManager.tsx:125-134 | a toggle flips the displayed state of that category and of no other |
| CategoryManager.ToggleTwice | project/src/components/Products/CategoryManager.tsx:125-134 | toggling twice restores every displayed state (and the map itself when the id was present) |
| CategoryManager.ParentOptions | project/src/components/Products/CategoryManager.tsx:294-300 | while editing a category every top-level category except itself is offered; otherwise all of them |
| CategoryManager.HandleAddNew | project/src/components/Products/CategoryManager.tsx:115-123 | a new-category form has no id, empty name and description, active, and the given parent |
| CategoryManager.AddNewOffersEveryRoot | project/src/components/Products/CategoryManager.tsx:115-123 | a new-category form offers every top-level category as parent |
| CategoryManager.EditedNotOffered | project/src/components/Products/CategoryManager.tsx:295 | a category being edited is never offered as its own parent |
| ProductManager.Searchable | project/src/components/Products/ProductManager.tsx:36-38 | an absent optional field searches as "", a present one as its lower-cased text |
| ProductManager.Matches | project/src/components/Products/ProductManager.tsx:33-40 | the search test on one product; no contract of its own, stated through ProductManager.FilteredProducts, ProductManager.EmptySearchKeepsAll and ProductManager.SkuIsSearched |
| ProductManager.FilteredProducts | project/src/components/Products/ProductManager.tsx:32-41 | an order-preserving subsequence of the products whose name, description, SKU, barcode or category name contains the term |
| ProductManager.EmptySearchKeepsAll | project/src/components/Products/ProductManager.tsx:32-41 | an empty search shows the whole product list |
| ProductManager.SkuIsSearched | project/src/components/Products/ProductManager.tsx:37 | a product whose SKU contains the term (ignoring case) is shown |
| ProductManager.DeleteProduct | project/src/components/Products/ProductManager.tsx:54 | an order-preserving subsequence keeping exactly the products with another id |
| ProductManager.DeleteKeepsOthers | project/src/components/Products/ProductManager.tsx:54 | every product with another id keeps its multiplicity, and deleting twice equals deleting once |
| ProductManager.InitialFormData | project/src/components/Products/ProductManager.tsx:207-221 | a blank form for a new product; for an existing one each field is copied, with the falsy-value fallbacks (VAT 10, "Sin categoría", empty text, zero); the form is active unless the delivered flag is exactly `false`, so a numeric 0 opens active |
| ProductManager.FormStartsWithRateAndCategory | project/src/components/Products/ProductManager.tsx:210-212 | the form never starts with a zero VAT rate or an empty category name |
| ProductManager.FinalPrice | project/src/components/Products/ProductManager.tsx:223 | the final price exceeds the base price by base × rate / 100; rate 0 gives the base price; non-negative inputs never lower it |
| ProductManager.SaveRecord | project/src/components/Products/ProductManager.tsx:227-234 | the saved record takes the form's fields and final price, keeps the product's id, keeps a non-empty creation date or stamps now, and stamps the update date now |
| ProductManager.SavedPriceIsConsistent | project/src/components/Products/ProductManager.tsx:223-230 | every saved record's final price agrees with its own base price and VAT rate |
| ProductManager.InactiveRowReactivated | project/src/components/Products/ProductManager.tsx:207-234 | a product delivered with active 0 is inactive, opens in the form as active, and saving the untouched form stores it active |
| ProductManager.SaveUnchangedForm | project/src/components/Products/ProductManager.tsx:207-234 | saving an existing product's form untouched keeps its id, name, category, prices and stock, except that a zero VAT rate becomes 10; a boolean active flag is kept, and every numeric flag (0 included) is saved as `true` |
| ReportsPanel.Step | project/src/components/Reports/ReportsPanel.tsx:28-37 | one `get` with its zero default, then `set`; no contract of its own, its effect is stated by ReportsPanel.Record, ReportsPanel.StepAddsAmount and ReportsPanel.StepAddsCount |
| ReportsPanel.Fold | project/src/components/Reports/ReportsPanel.tsx:25-59 | the `forEach` tally as a left fold of steps; no contract of its own, its result is stated by ReportsPanel.FoldOk, ReportsPanel.FoldKeys, ReportsPanel.FoldSums, ReportsPanel.FoldName and ReportsPanel.FoldConserves |
| ReportsPanel.Record | project/src/components/Reports/ReportsPanel.tsx:28-37 | one map update: the key's count and amount grow by the item's, a new key is appended, and the tally invariant is kept |
| ReportsPanel.FoldOk | project/src/components/Reports/ReportsPanel.tsx:25-39 | the key list of a tally has no repeats and names exactly the map's keys |
| ReportsPanel.FoldAppend | project/src/components/Reports/ReportsPanel.tsx:27-38 | tallying one more element is one more update step |
| ReportsPanel.KeysOf | project/src/components/Reports/ReportsPanel.tsx:28 | the key of each element, position by position |
| ReportsPanel.FoldKeys | project/src/components/Reports/ReportsPanel.tsx:25-44 | the tally's keys are the distinct keys in first-appearance order (the order of a JavaScript `Map`) |
| ReportsPanel.FoldSums | project/src/components/Reports/ReportsPanel.tsx:25-59 | each key's count and amount are the sums over the elements with that key; an absent key has no elements |
| ReportsPanel.FoldName | project/src/components/Reports/ReportsPanel.tsx:30-36 | each key's name is the one of its last element |
| ReportsPanel.StepAddsAmount | project/src/components/Reports/ReportsPanel.tsx:29-37 | one update raises the sum of all amounts by the element's amount |
| ReportsPanel.StepAddsCount | project/src/components/Reports/ReportsPanel.tsx:29-37 | one update raises the sum of all counts by the element's count |
| ReportsPanel.FoldConserves | project/src/components/Reports/ReportsPanel.tsx:25-59 | a tally's amounts and counts add up to the totals over all elements |
| ReportsPanel.LinesAppend | project/src/components/Reports/ReportsPanel.tsx:26-27 | the lines of one more order are the earlier lines followed by its items |
| ReportsPanel.TallyProducts | project/src/components/Reports/ReportsPanel.tsx:25-39 | the nested loop builds exactly the fold of all order lines by product |
| ReportsPanel.TallyLines | project/src/components/Reports/ReportsPanel.tsx:27-38 | the inner loop extends a fold of the earlier lines to a fold including this order's lines |
| ReportsPanel.TallyWaiters | project/src/components/Reports/ReportsPanel.tsx:47-59 | the loop builds exactly the fold of the orders by waiter |
| ReportsPanel.CountedOn | project/src/components/Reports/ReportsPanel.tsx:16-19 | the `todayOrders` test on one order; no contract of its own, stated through ReportsPanel.TodayOrders |
| ReportsPanel.TodayOrders | project/src/components/Reports/ReportsPanel.tsx:15-19 | an order-preserving subsequence of exactly the completed orders created today |
| ReportsPanel.ProductEntries | project/src/components/Reports/ReportsPanel.tsx:41-42 | one product row per tally key, in key order, with its name, quantity and revenue |
| ReportsPanel.WaiterEntries | project/src/components/Reports/ReportsPanel.tsx:61-62 | one waiter row per tally key, in key order, with its name, orders and sales |
| ReportsPanel.WaiterEntriesSum | project/src/components/Reports/ReportsPanel.tsx:61-62 | the waiter rows' sales and order counts add up to the tally's |
| ReportsPanel.HeadIsMax | project/src/components/Reports/ReportsPanel.tsx:43 | the first entry of a revenue-sorted list has the largest revenue |
| ReportsPanel.ConsByRevenue | project/src/components/Reports/ReportsPanel.tsx:43 | an entry no smaller than a sorted list can head it |
| ReportsPanel.Insert | project/src/components/Reports/ReportsPanel.tsx:43 | inserting keeps the list sorted by decreasing revenue and adds exactly that entry |
| ReportsPanel.InsertPermutes | project/src/components/Reports/ReportsPanel.tsx:43 | insertion adds the entry and loses nothing (multiset) |
| ReportsPanel.SortByRevenue | project/src/components/Reports/ReportsPanel.tsx:43 | sorted by decreasing revenue and a permutation of the input |
| ReportsPanel.DistinctTail | project/src/components/Reports/ReportsPanel.tsx:43 | the rest of a list with distinct products has distinct products, none of them the head's |
| ReportsPanel.ConsDistinct | project/src/components/Reports/ReportsPanel.tsx:43 | a new product in front of a distinct list keeps products distinct |
| ReportsPanel.InsertDistinct | project/src/components/Reports/ReportsPanel.tsx:43 | inserting a new product keeps products distinct |
| ReportsPanel.SortDistinct | project/src/components/Reports/ReportsPanel.tsx:43 | sorting keeps products distinct |
| ReportsPanel.SortLength | project/src/components/Reports/ReportsPanel.tsx:43 | sorting keeps the number of rows |
| ReportsPanel.TopFive | project/src/components/Reports/ReportsPanel.tsx:43-44 | sort by revenue, then `slice(0, 5)`; no contract of its own, its result is stated by ReportsPanel.TopFiveShape, ReportsPanel.TopFiveHas, ReportsPanel.TopFiveLargest and ReportsPanel.TopFiveDistinct |
| ReportsPanel.TopFiveShape | project/src/components/Reports/ReportsPanel.tsx:43-44 | at most five rows (fewer only when there are fewer products), sorted by revenue, all taken from the input |
| ReportsPanel.TopFiveHas | project/src/components/Reports/ReportsPanel.tsx:43-44 | the kept rows are the first rows of the sorted list |
| ReportsPanel.TopFiveLargest | project/src/components/Reports/ReportsPanel.tsx:43-44 | no row left out earns more than any row kept |
| ReportsPanel.TopFiveDistinct | project/src/components/Reports/ReportsPanel.tsx:43-44 | the top list never shows a product twice |
| ReportsPanel.ProductIds | project/src/components/Reports/ReportsPanel.tsx:41-42 | the product id of each row, position by position |
| ReportsPanel.WaiterIds | project/src/components/Reports/ReportsPanel.tsx:61-62 | the waiter id of each row, position by position |
| ReportsPanel.ProductRows | project/src/components/Reports/ReportsPanel.tsx:25-42 | product rows are the distinct sold products, each with its total quantity and revenue and the product name of its last line |
| ReportsPanel.ProductRow | project/src/components/Reports/ReportsPanel.tsx:25-42 | one product row carries the total quantity and revenue of its product, and the name on the product's last line |
| ReportsPanel.WaiterRows | project/src/components/Reports/ReportsPanel.tsx:47-62 | waiter rows are the distinct waiters, each with their order count and sales and the waiter name on their last order |
| ReportsPanel.WaiterRow | project/src/components/Reports/ReportsPanel.tsx:47-62 | one waiter row carries that waiter's order count and sales, and the waiter name on their last order |
| ReportsPanel.WaiterRowsConserve | project/src/components/Reports/ReportsPanel.tsx:47-62 | the waiter rows' orders add up to the number of orders and their sales to the total sales |
| ReportsPanel.CountOnes | project/src/components/Reports/ReportsPanel.tsx:52 | counting one per order gives the number of orders |
| ReportsPanel.TopRowsKept | project/src/components/Reports/ReportsPanel.tsx:41-44 | every top row is a sold product with its true quantity and revenue and the name on its last line |
| ReportsPanel.TopRowsLeftOut | project/src/components/Reports/ReportsPanel.tsx:41-44 | a sold product missing from the top list earns no more than any product in it |
| ReportsPanel.TopProductsFromLines | project/src/components/Reports/ReportsPanel.tsx:25-44 | the top-products list built from the lines meets the report's top-products property |
| ReportsPanel.GenerateSalesReport | project/src/components/Reports/ReportsPanel.tsx:14-71 | dated today; total sales and order count over today's completed orders; top products and waiter rows as above, each named as the last line or order with its id names it, with waiter rows adding up to the report totals |
| ReportsPanel.AverageTicket | project/src/components/Reports/ReportsPanel.tsx:156 | with orders, average × order count = total sales; with none, 0 |
| ReportsPanel.DailyCloseAsWritten | project/src/components/Reports/ReportsPanel.tsx:272-281 | the daily close as the panel computes it: gross = total sales, and VAT + net = gross |
| ReportsPanel.DailyCloseAsWrittenOverstatesVat | project/src/components/Reports/ReportsPanel.tsx:277-281 | for one order of subtotal 10 (VAT 1) the panel shows VAT 1.1 and net 9.9 |
| ReportsPanel.DailyCloseOf | project/src/components/Reports/ReportsPanel.tsx:272-281 | the corrected close: gross = net × 1.1, VAT = net × 0.1, VAT + net = gross |
| ReportsPanel.BuiltOrderHasStoredTotals | project/src/components/POS/POSSystem.tsx:57-74 | every order the POS stores has VAT = 10 % of the subtotal and total = subtotal + VAT |
| ReportsPanel.StoredSums | project/src/components/Reports/ReportsPanel.tsx:21 | over such orders, the VAT sum is 10 % of the subtotal sum and the total sum is their sum |
| ReportsPanel.DailyCloseMatchesOrders | project/src/components/Reports/ReportsPanel.tsx:272-281 | the corrected close's VAT and net equal the sums of the orders' own VAT and subtotals |
| Lists.Filter | project/src/components/POS/ProductSelector.tsx:16-20 | an order-preserving subsequence holding exactly the elements the predicate keeps |
| Lists.FilterMultiset | project/src/contexts/AppContext.tsx:122-126 | kept elements keep their multiplicity, dropped ones vanish |
| Lists.FilterKeepsAll | project/src/components/Products/ProductManager.tsx:32-41 | a predicate true on every element keeps the whole list |
| Lists.FilterIdempotent | project/src/contexts/AppContext.tsx:122-126 | filtering twice equals filtering once |
| Lists.FilterConcat | project/src/components/Reports/ReportsPanel.tsx:16-19 | filtering distributes over concatenation |
| Lists.FilterAgree | project/src/components/POS/ProductSelector.tsx:16-20 | predicates agreeing on the list filter it alike |
| Lists.FilterCons | project/src/components/POS/POSSystem.tsx:42 | filtering a non-empty list keeps or drops its head and filters the rest |
| Lists.FilterDropsOne | project/src/components/POS/POSSystem.tsx:42 | a predicate false at exactly one position removes exactly that element |
| Lists.MapWhere | project/src/components/POS/POSSystem.tsx:22-26 | same length; each element is transformed iff it matches, the rest are kept |
| Lists.RemoveByKey | project/src/contexts/AppContext.tsx:122-126 | an order-preserving subsequence holding exactly the elements with another key; unchanged if no element has the key |
| Lists.RemoveByKeyCounts | project/src/contexts/AppContext.tsx:122-126 | elements with another key keep their multiplicity |
| Lists.RemoveByKeyOne | project/src/components/POS/POSSystem.tsx:42 | when one element has the key, exactly it is removed |
| Lists.RemoveByKeyIdempotent | project/src/contexts/AppContext.tsx:122-126 | removing by a key twice equals once |
| Lists.ReplaceByKey | project/src/contexts/AppContext.tsx:117-121 | same length; elements with the payload's key become the payload, the rest are kept |
| Lists.ReplaceByKeyIdempotent | project/src/contexts/AppContext.tsx:117-121 | replacing twice equals once |
| Lists.Find | project/src/components/POS/POSSystem.tsx:15-18 | none iff no element has the key; otherwise the first element with it |
| Lists.FirstIndex | project/src/components/POS/ProductSelector.tsx:14 | the position of the first occurrence |
| Lists.Dedupe | project/src/components/POS/ProductSelector.tsx:14 | the distinct elements, each once, in first-appearance order (the order of a JavaScript `Set`) |
| Lists.SumConcat | project/src/components/POS/OrderSummary.tsx:20 | a sum over a concatenation is the sum of the two sums |
| Lists.SumUpdate | project/src/components/POS/OrderSummary.tsx:20 | replacing one element moves the sum by the difference |
| Lists.SumAgree | project/src/components/POS/OrderSummary.tsx:20 | functions agreeing on the list give the same sum |
| Lists.SumBump | project/src/components/Reports/ReportsPanel.tsx:29-37 | raising one distinct key's value by d raises the sum by d |
| Lists.CountConcat | project/src/components/Reports/ReportsPanel.tsx:52 | a count over a concatenation is the sum of the two counts |
| Lists.CountAgree | project/src/components/Reports/ReportsPanel.tsx:52 | functions agreeing on the list give the same count |
| Lists.CountBump | project/src/components/Reports/ReportsPanel.tsx:29-37 | raising one distinct key's count by d raises the total by d |
| Lists.Take | project/src/components/Reports/ReportsPanel.tsx:44 | the first n elements, or all of them when there are fewer |
| Text.LowerChar | project/src/components/POS/ProductSelector.tsx:17 | upper-case ASCII letters map to lower case, every other character to itself |
| Text.Lower | project/src/components/POS/ProductSelector.tsx:17 | same length, each character lower-cased |
| Text.LowerIdempotent | project/src/components/POS/ProductSelector.tsx:17 | lower-casing twice equals once |
| Text.Includes | project/src/components/POS/ProductSelector.tsx:17 | `String.prototype.includes`; no contract of its own, stated through Text.IncludesEmpty and Text.IncludesAt |
| Text.IncludesEmpty | project/src/components/Products/ProductManager.tsx:35-39 | every string includes the empty string |
| Text.IncludesAt | project/src/components/Products/ProductManager.tsx:35-39 | a string includes another iff it occurs at some position |

## Left out

- Network I/O: the `fetch` calls to the REST API, their loaders and error messages, and the server under `project/api/` are not part of this model. Lists arrive as parameters.
- Rendering: JSX, CSS and modals beyond the mappings above (status colours and texts, highlighting, header text, option lists).
- Floating point: money is an exact `real`, so binary rounding and `toFixed(2)` formatting are not modelled.
- Text.Lower: lower-cases only ASCII letters, unlike `toLowerCase`, which folds all of Unicode.
- CategoryManager.Build: the recursion takes a depth bound of the list length. JavaScript recursion would not terminate on data whose parent links form a cycle. Completeness (`BuildComplete`, `TreeIsReachable`) is proved for chains within the bound, which covers every chain when ids are distinct.
- The category tree rebuilt after save and delete (the copies of `buildTree` in `handleSaveCategory` and `handleDelete`) is the same `Build`. The PUT/POST/DELETE requests and `handleEdit`'s form hand-off are not modelled.
- POSSystem.PosSession.AddToOrder: React's functional state updates are treated as one atomic step on the current draft. Stale closures between two taps inside one render are not modelled.
- POSSystem.BuildOrder: `createdAt` and `completedAt` come from one clock reading, although the source calls `new Date()` twice.
- POSSystem.PosSession.CompleteOrder: requires a signed-in user, which the source asserts with `!`.
- AppContext.Merge: a payload field that is present but `undefined` is modelled as absent.
- ReportsPanel.ProductEntries: the `...data` spread also copies `name`, `quantity` and `revenue` keys into each row; only the declared row fields are modelled.
- ReportsPanel.SortByRevenue: proved sorted and a permutation. That it is stable, as `Array.prototype.sort` is, is not proved.
- ProductManager.SaveRecord: a new product's missing id is modelled as the empty string, and so is its missing category (the null spread leaves `category` undefined in the source). One clock reading `now` stamps both `createdAt` (for a new product) and `updatedAt`, where the source calls `new Date().toISOString()` twice. The contract does not list the optional text fields (description, SKU, barcode, image, cost, minimum stock), which the record takes from the form in the same way.
- Other store effects in `project/src/contexts/AppContext.tsx` (fetching the initial data and the context provider) are not part of this model.

## Findings

| source | as written | input that shows it | evidently intended | confidence | as-written member | corrected member |
|---|---|---|---|---|---|---|
| project/src/components/Reports/ReportsPanel.tsx:277-281 | the daily close shows VAT = total sales × 0.1 and net = total sales × 0.9, though the totals already include 10 % VAT | one order of subtotal 10 (VAT 1, total 11): the close shows VAT 1.1 and net 9.9 | net = total / 1.1 and VAT = total − net, i.e. the sums of the orders' own VAT and subtotals (1 and 10) | medium, not executed | ReportsPanel.DailyCloseAsWrittenOverstatesVat | ReportsPanel.DailyCloseMatchesOrders |
