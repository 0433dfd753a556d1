# ShopEasy order core in Dafny

This project models the service layer of ShopEasy, a small web shop, and proves properties of the model. It covers:

- **The order lifecycle.** A fixed table `AllowedTransitions` lists the statuses one step away from each status. `CanTransition` parses two status names case-insensitively and looks the pair up in that table.
- **Order creation.** All requested products are fetched in one batch. If any id is missing, the request is rejected with the list of missing ids. Otherwise each line's unit price is snapshotted, the total is accumulated line by line, and each product's stock is decremented in place. A `Pending` order is then stored and returned projected to its DTO.
- **Status update.** The target name is checked against the table. The stored order's status is set only when the check succeeds.
- **Order queries.** There is a lookup by id, the orders of one customer newest first, and all orders newest first. All three go through one projection `MapToDto`. It names a missing product or customer `"Unknown"`.
- **Catalog and customer reads.** These are active-product listing, lookup by id, case-insensitive category filter, the distinct sorted category list, customer lookup by id and the customer list sorted by name.

The database is modelled as in-memory tables:

- `seq<Product>`, `seq<Customer>` and `seq<Order>`, each with unique primary keys;
- two identity counters, for order ids and order-item ids.

These fields live in the class `OrderService.Shop`. Its `CreateOrder` and `UpdateOrderStatus` methods change them under `modifies this`.

Conventions:

- **Money.** `decimal(10,2)` money is an exact `int` of cents.
- **Clock.** The clock (`DateTime.UtcNow`, `ShopEasy.Domain/Entities/Order.cs:15`) is a `now` parameter.
- **Case folding.** The store is SQLite (`ShopEasy.WebApi/Program.cs:19`). In the category filter (`ProductService.cs:78`) the column's `p.Category.ToLower()` runs in SQLite, whose `lower()` folds ASCII letters only. The argument's `category.ToLower()` runs in .NET, with culture-aware Unicode folding, before the query is sent. The model folds both sides by ASCII rules, so it agrees with the code on categories and arguments made of ASCII text, under a culture without Turkic casing. Under a Turkish or Azeri culture .NET lowers "I" to "ı", so even ASCII arguments containing `I` differ.
- **Sorting.** SQLite's default BINARY collation compares the UTF-8 bytes of two strings with `memcmp`. A Dafny `char` is a Unicode scalar value, and UTF-8 byte order is code-point order, so that collation is the lexicographic order `Text.StrLe` on characters. Every `OrderBy` here becomes SQL `ORDER BY`, which fixes no order among ties. So the contracts promise sorted output and a permutation of the input, and nothing about ties.
- **C# `int`.** Stock and quantities are C# `int`. They are the subset type `Domain.Int32`. The unchecked `product.StockQuantity -= itemDto.Quantity` (`OrderService.cs:121`) is `Domain.Wrap32` of the exact difference, which wraps around modulo 2^32 as two's-complement arithmetic does.

Modules:

- `Wrappers`: `Option` and `Result`.
- `Text`: ASCII case folding; the ordinal string order and its order laws.
- `Sorting`: an insertion sort over any total preorder; `SeqMap`; duplicate-freedom.
- `Domain`: entities; the C# `int` range and its wrap-around; `LineTotal`; primary-key lookups.
- `Dtos`: the DTO records.
- `OrderLifecycle`: the transition table, the parse and `CanTransition`.
- `OrderProjection`: `MapToDto` and the three order queries.
- `OrderService`: the creation path split into specification functions and methods, the stock laws, and the `Shop` class.
- `ProductService` and `CustomerService`: the catalog and customer reads.

Where the interface doc-comments (`ShopEasy.Application/Interfaces/IOrderService.cs:12,16-17`) and the code disagree, the model follows the code:

- `CreateOrderAsync` does not check that the customer exists. A missing customer is shown as `"Unknown"`.
- It does not check stock, so stock can go negative.
- It accepts soft-deleted products, since the fetch has no `IsActive` filter.
- It accepts an empty item list and any quantity.

## Model

| member | source | states |
|---|---|---|
| Domain.Wrap32 | ShopEasy.Application/Services/OrderService.cs:121 | unchecked `int` arithmetic: the result is an `int`, equal to the exact value modulo 2^32, and equal to it whenever the exact value is an `int` |
| Domain.Wrap32Sub | ShopEasy.Application/Services/OrderService.cs:121 | two wrapped subtractions in a row equal one wrapped subtraction of the sum, so the order of wrap-arounds does not matter |
| Domain.StatusName | ShopEasy.Application/Services/OrderService.cs:157 | `order.Status.ToString()` (also `OrderService.cs:265`); no contract of its own: `OrderLifecycle.ParseStatusName` parses it back to the status, `OrderLifecycle.StatusNamesDistinct` keeps the five names apart even ignoring case |
| Domain.OrderItem.LineTotal | ShopEasy.Domain/Entities/OrderItem.cs:26 | the derived total of a line: 0 for quantity 0, the unit price for quantity 1, at least the unit price for a positive quantity and price; it reads only the item's own fields |
| Domain.SumLineTotals | ShopEasy.Application/Services/OrderService.cs:98-124 | the order's total as the sum of its items' line totals; no contract of its own: `OrderService.ItemsTotal` and `OrderService.NewOrderTotal` equate it with the loop's running total, `OrderProjection.SumLineTotalsProjected` with the projected line totals |
| Domain.FindProduct | ShopEasy.Application/Services/OrderService.cs:102 | the product with that id from the table, or None exactly when no row has it |
| Domain.FindCustomer | ShopEasy.Application/Services/OrderService.cs:132-134 | the customer with that id, or None exactly when no row has it |
| Domain.FindProductUnique | ShopEasy.Application/Services/OrderService.cs:102 | with unique ids, looking up a row's id returns that row |
| Domain.FindCustomerUnique | ShopEasy.Application/Services/OrderService.cs:132-134 | with unique ids, looking up a row's id returns that row |
| Text.LowerChar | ShopEasy.Application/Services/ProductService.cs:78 | the result is never an upper-case ASCII letter, and it is a lower-case letter exactly when the input is an ASCII letter of either case |
| Text.ToLower | ShopEasy.Application/Services/ProductService.cs:78 | same length, and no upper-case ASCII letter is left |
| Text.ToLowerFixedPoints | ShopEasy.Application/Services/ProductService.cs:78 | folding leaves a string unchanged exactly when it holds no upper-case ASCII letter |
| Text.LowerCharAlike | ShopEasy.Application/Services/ProductService.cs:78 | two characters fold alike exactly when they are equal or are one ASCII letter in its two cases |
| Text.EqualsIgnoreCase | ShopEasy.Application/Services/ProductService.cs:78 | the category comparison `p.Category.ToLower() == category.ToLower()`; no contract of its own: `Text.EqualsIgnoreCaseCharacterized` states when it holds, and `ProductService.ActiveInCategory` uses it |
| Text.EqualsIgnoreCaseCharacterized | ShopEasy.Application/Services/ProductService.cs:78 | the category comparison holds exactly when both strings have the same length and match position by position, a character matching itself and its other-case ASCII letter only |
| Text.ToLowerIdempotent | ShopEasy.Application/Services/ProductService.cs:78 | folding twice is folding once |
| Text.StrLe | ShopEasy.Application/Services/ProductService.cs:23 | the BINARY string order behind every string `OrderBy` (also `ProductService.cs:79,107` and `CustomerService.cs:47`); no contract of its own: `Text.StrLeReflexive`, `Text.StrLeAntisymmetric`, `Text.StrLeTransitive` and `Text.StrLeTotal` make it a total order |
| Text.StrLeReflexive | ShopEasy.Application/Services/ProductService.cs:23 | the name order is reflexive |
| Text.StrLeTotal | ShopEasy.Application/Services/ProductService.cs:23 | any two names are comparable |
| Text.StrLeAntisymmetric | ShopEasy.Application/Services/ProductService.cs:23 | names ordered both ways are equal |
| Text.StrLeTransitive | ShopEasy.Application/Services/ProductService.cs:23 | the name order is transitive |
| Sorting.SeqMap | ShopEasy.Application/Services/ProductService.cs:28-36 | a `Select`: same length, element i is f of input i |
| Sorting.Insert | ShopEasy.Application/Services/ProductService.cs:23 | the insertion adds exactly the one element |
| Sorting.SortBy | ShopEasy.Application/Services/ProductService.cs:23 | `OrderBy` returns a permutation of its input |
| Sorting.InsertSorted | ShopEasy.Application/Services/ProductService.cs:23 | inserting into a sorted sequence keeps it sorted |
| Sorting.SortBySorted | ShopEasy.Application/Services/ProductService.cs:23 | the result of `OrderBy` is sorted by the key order |
| Sorting.SeqMapAppend | ShopEasy.Application/Services/ProductService.cs:28-36 | projecting a concatenation concatenates the projections |
| Sorting.SeqMapContains | ShopEasy.Application/Services/ProductService.cs:28-36 | y is projected exactly when some input projects to it |
| Sorting.SeqMapPermutation | ShopEasy.Application/Services/ProductService.cs:28-36 | projecting permutations gives permutations, so sorting before or after projecting lists the same DTOs |
| Sorting.NoDuplicatesCount | ShopEasy.Application/Services/ProductService.cs:106 | a duplicate-free sequence holds each value at most once |
| Sorting.RepeatedCount | ShopEasy.Application/Services/ProductService.cs:106 | a value at two positions occurs at least twice |
| Sorting.PermutationKeepsNoDuplicates | ShopEasy.Application/Services/ProductService.cs:106-107 | sorting a distinct list keeps it distinct |
| ProductService.ToProductDto | ShopEasy.Application/Services/ProductService.cs:29-35 | the `new ProductDTO(...)` projection (also `ProductService.cs:59-65,84-90`); no contract of its own: `ProductService.GetProductByIdOfRow` and `ProductService.GetProductById` state it copies the row's fields |
| ProductService.NameLe | ShopEasy.Application/Services/ProductService.cs:23 | `OrderBy(p => p.Name)` (also `ProductService.cs:79`); no contract of its own: `ProductService.NameLeIsTotalPreorder` makes it a total preorder, and `ProductService.GetAllProducts` and `ProductService.GetProductsByCategory` sort by it |
| ProductService.ActiveProducts | ShopEasy.Application/Services/ProductService.cs:21-22 | exactly the active rows |
| ProductService.NameLeIsTotalPreorder | ShopEasy.Application/Services/ProductService.cs:23 | ordering products by name is a total preorder |
| ProductService.GetAllProducts | ShopEasy.Application/Services/ProductService.cs:18-39 | a permutation of the DTOs of the active products, sorted ascending by name |
| ProductService.ActiveDtoCount | ShopEasy.Application/Services/ProductService.cs:21-36 | with unique ids, the DTO of a product that agrees with its id's row occurs once among the active DTOs if it is an active row, and never otherwise |
| ProductService.GetAllProductsListsEachActiveOnce | ShopEasy.Application/Services/ProductService.cs:21-22 | each product is listed once if active and not at all if soft-deleted |
| ProductService.GetProductById | ShopEasy.Application/Services/ProductService.cs:45-68 | None exactly when no active row has that id; otherwise the DTO copying every field of such a row |
| ProductService.GetProductByIdOfRow | ShopEasy.Application/Services/ProductService.cs:48-65 | a row's own id yields its DTO if active and None if soft-deleted |
| ProductService.InCategory | ShopEasy.Application/Services/ProductService.cs:78 | the `Where` test of the category filter; no contract of its own: `ProductService.ActiveInCategory` keeps exactly the rows it accepts, `ProductService.ActiveInCategoryIgnoresCase` shows it depends only on the argument's fold |
| ProductService.ActiveInCategory | ShopEasy.Application/Services/ProductService.cs:78 | exactly the active rows whose category matches ignoring case |
| ProductService.GetProductsByCategory | ShopEasy.Application/Services/ProductService.cs:74-94 | a permutation of the DTOs of the active rows whose category matches ignoring case, sorted by name |
| ProductService.ActiveInCategoryIgnoresCase | ShopEasy.Application/Services/ProductService.cs:78 | two arguments equal ignoring case filter the same rows |
| ProductService.GetProductsByCategoryIgnoresCase | ShopEasy.Application/Services/ProductService.cs:77-79 | "Electronics" and "electronics" give the same answer |
| ProductService.ActiveCategories | ShopEasy.Application/Services/ProductService.cs:103-105 | a category is listed exactly when some active row has it |
| ProductService.Distinct | ShopEasy.Application/Services/ProductService.cs:106 | the same elements, without duplicates |
| ProductService.StrLeIsTotalPreorder | ShopEasy.Application/Services/ProductService.cs:107 | the string order is a total preorder |
| ProductService.GetCategories | ShopEasy.Application/Services/ProductService.cs:100-112 | each category of an active product exactly once, none only on soft-deleted products, strictly ascending |
| CustomerService.ToCustomerDto | ShopEasy.Application/Services/CustomerService.cs:31-35 | the `new CustomerDTO(...)` projection (also `CustomerService.cs:49-53`); no contract of its own: `CustomerService.GetCustomerByIdOfRow` states it copies id, full name, email and creation time |
| CustomerService.GetCustomerById | ShopEasy.Application/Services/CustomerService.cs:17-38 | None exactly when no row has the id; otherwise the DTO of such a row |
| CustomerService.GetCustomerByIdOfRow | ShopEasy.Application/Services/CustomerService.cs:20-35 | with unique ids, a row's id yields the DTO copying id, full name, email and creation time |
| CustomerService.FullNameLeIsTotalPreorder | ShopEasy.Application/Services/CustomerService.cs:47 | ordering customers by full name is a total preorder |
| CustomerService.FullNameLe | ShopEasy.Application/Services/CustomerService.cs:47 | `OrderBy(c => c.FullName)`; no contract of its own: `CustomerService.FullNameLeIsTotalPreorder` makes it a total preorder, and `CustomerService.GetAllCustomers` sorts by it |
| CustomerService.GetAllCustomers | ShopEasy.Application/Services/CustomerService.cs:43-57 | one DTO per customer, none dropped or duplicated, sorted ascending by full name |
| OrderLifecycle.ParseStatus | ShopEasy.Application/Services/OrderService.cs:40-41 | the status whose name matches ignoring case, or None exactly when no name matches |
| OrderLifecycle.StatusNamesDistinct | ShopEasy.Application/Services/OrderService.cs:40-41 | no two status names are equal ignoring case, so the parse is unambiguous |
| OrderLifecycle.ParseStatusExactly | ShopEasy.Application/Services/OrderService.cs:40-41 | a name parses to s exactly when it equals s's name ignoring case |
| OrderLifecycle.ParseStatusName | ShopEasy.Application/Services/OrderService.cs:157-158 | a status's own name parses back to it |
| OrderLifecycle.ParseStatusIgnoresCase | ShopEasy.Application/Services/OrderService.cs:40-41 | names equal ignoring case parse alike |
| OrderLifecycle.TableMatchesLifecycle | ShopEasy.Application/Services/OrderService.cs:21-28 | of the constant `OrderLifecycle.AllowedTransitions`: every status has an entry, and the table lists exactly the five lifecycle steps |
| OrderLifecycle.CanTransition | ShopEasy.Application/Services/OrderService.cs:35-54 | parse both names, refuse if either fails, else look the target up in the table row of the current status; no contract of its own: `OrderLifecycle.CanTransitionCharacterized`, `OrderLifecycle.CanTransitionOnNames`, `OrderLifecycle.CanTransitionFromNames`, `OrderLifecycle.TerminalIsAbsorbing`, `OrderLifecycle.TransitionsMoveForward` and `OrderLifecycle.CanTransitionExamples` state what it answers |
| OrderLifecycle.CanTransitionOnNames | ShopEasy.Application/Services/OrderService.cs:50-53 | on status names, true exactly for Pending to Confirmed or Cancelled, Confirmed to Shipped or Cancelled, and Shipped to Delivered |
| OrderLifecycle.CanTransitionFromNames | ShopEasy.Application/Services/OrderService.cs:40-53 | names in any letter case behave like the statuses they denote |
| OrderLifecycle.CanTransitionCharacterized | ShopEasy.Application/Services/OrderService.cs:35-54 | for any strings: true exactly when both denote statuses one step apart, so an unknown name on either side gives false |
| OrderLifecycle.TerminalIsAbsorbing | ShopEasy.Application/Services/OrderService.cs:26-27 | from Delivered or Cancelled no target, known or not, is allowed |
| OrderLifecycle.TransitionsMoveForward | ShopEasy.Application/Services/OrderService.cs:21-28 | an allowed transition parses both names and strictly increases the enum's underlying value (`Domain.Ordinal`, the values 0..4 of `ShopEasy.Domain/Enums/OrderStatus.cs:14-34`) |
| OrderLifecycle.CanTransitionExamples | ShopEasy.Application/Services/OrderService.cs:35-54 | "pending" to "CONFIRMED" is allowed; Pending to itself and the unknown "Paid" are refused |
| OrderProjection.MapToDto | ShopEasy.Application/Services/OrderService.cs:249-270 | the order projection; no contract of its own: `OrderProjection.MapToDtoFields` states every field, `OrderProjection.ProjectionIgnoresLivePrices` and `OrderProjection.ProjectedTotalMatchesLines` its prices and total |
| OrderProjection.ItemDtos | ShopEasy.Application/Services/OrderService.cs:252-258 | the `Select` over the order's items; no contract of its own: `OrderProjection.MapToDtoFields` gives one DTO per item in order, and `OrderProjection.SumLineTotalsProjected` keeps the line-total sum |
| OrderProjection.ItemToDto | ShopEasy.Application/Services/OrderService.cs:253-257 | one item's DTO; no contract of its own: `OrderProjection.MapToDtoFields` states its name, quantity, unit price and line total |
| OrderProjection.ProductNameOrUnknown | ShopEasy.Application/Services/OrderService.cs:254 | `item.Product?.Name ?? "Unknown"`; no contract of its own: `OrderProjection.MapToDtoFields` gives the row's name or "Unknown", and `OrderProjection.ProductNameSameTables` says it depends only on ids and names |
| OrderProjection.CustomerNameOrUnknown | ShopEasy.Application/Services/OrderService.cs:132-136 | `customer?.FullName ?? "Unknown"`; no contract of its own: `OrderProjection.GetOrderByIdOfRow` shows it is the customer's full name whenever the row exists |
| OrderProjection.MapToDtoFields | ShopEasy.Application/Services/OrderService.cs:249-270 | copies the header, shows the status by name, and gives one item per line in order with its quantity, unit price, quantity times price and the product's name or "Unknown" |
| OrderProjection.ProductNameSameTables | ShopEasy.Application/Services/OrderService.cs:254 | the shown product name depends only on the ids and names in the table |
| OrderProjection.ProjectionIgnoresLivePrices | ShopEasy.Application/Services/OrderService.cs:252-258 | repricing or restocking products never changes a projected order: line totals use the snapshot |
| OrderProjection.SumLineTotalsProjected | ShopEasy.Application/Services/OrderService.cs:257 | the projected line totals add up to the stored items' line totals |
| OrderProjection.ProjectedTotalMatchesLines | ShopEasy.Application/Services/OrderService.cs:266 | for an order whose total is its lines' sum, the DTO's total is the sum of its shown line totals |
| OrderProjection.OrderViewer | ShopEasy.Application/Services/OrderService.cs:199 | `MapToDto(o, o.Customer.FullName)` (also `OrderService.cs:217,235`), with the "Unknown" fallback for a missing customer row; no contract of its own: `OrderProjection.GetOrderByIdOfRow` shows it carries the real full name whenever the row exists, and `OrderProjection.GetOrdersByCustomer` and `OrderProjection.GetAllOrders` apply it to each order |
| OrderProjection.FindOrderIndex | ShopEasy.Application/Services/OrderService.cs:186-191 | the first position holding that order id, or None exactly when no order has it |
| OrderProjection.FindOrderIndexUnique | ShopEasy.Application/Services/OrderService.cs:186-191 | with unique ids, a stored order's id finds its own position |
| OrderProjection.GetOrderById | ShopEasy.Application/Services/OrderService.cs:181-200 | None exactly for an unknown id; otherwise the projection of an order with that id |
| OrderProjection.GetOrderByIdOfStored | ShopEasy.Application/Services/OrderService.cs:194-199 | with unique ids, a stored order's id yields that order's projection |
| OrderProjection.GetOrderByIdOfRow | ShopEasy.Application/Services/OrderService.cs:199 | when the customer row exists, the projection carries the customer's real full name |
| OrderProjection.OrdersOfCustomer | ShopEasy.Application/Services/OrderService.cs:207 | exactly the orders of that customer; none for a customer with no orders |
| OrderProjection.NewestFirst | ShopEasy.Application/Services/OrderService.cs:211 | `OrderByDescending(o => o.OrderDate)` (also `OrderService.cs:230`); no contract of its own: `OrderProjection.NewestFirstIsTotalPreorder` makes it a total preorder, and `OrderProjection.GetOrdersByCustomer` and `OrderProjection.GetAllOrders` sort by it |
| OrderProjection.NewestFirstIsTotalPreorder | ShopEasy.Application/Services/OrderService.cs:211 | descending by order date is a total preorder |
| OrderProjection.GetOrdersByCustomer | ShopEasy.Application/Services/OrderService.cs:203-221 | a permutation of the projections of that customer's orders, newest first; empty for a customer with no orders |
| OrderProjection.GetOrdersByCustomerContents | ShopEasy.Application/Services/OrderService.cs:206-218 | a DTO is listed exactly when it projects one of that customer's orders |
| OrderProjection.GetAllOrders | ShopEasy.Application/Services/OrderService.cs:224-239 | one projection per stored order, a permutation, newest first |
| OrderService.RequestedProductIds | ShopEasy.Application/Services/OrderService.cs:64-66 | `dto.Items.Select(item => item.ProductId)`; no contract of its own: `OrderService.MissingProductIdsAreUnknownIds` and `OrderService.FoundExample` use it |
| OrderService.FetchProducts | ShopEasy.Application/Services/OrderService.cs:70-72 | the batch fetch: exactly the rows, active or not, whose id was requested |
| OrderService.UnknownProductIds | ShopEasy.Application/Services/OrderService.cs:75-76 | reference for the missing ids: empty exactly when every line's product exists; an id is listed exactly when some line names it and no row has it |
| OrderService.FoundIds | ShopEasy.Application/Services/OrderService.cs:75 | the set of fetched ids; no contract of its own: `OrderService.MissingProductIdsAreUnknownIds` shows that filtering the requested ids by it gives the reference list `OrderService.UnknownProductIds` |
| OrderService.MissingIds | ShopEasy.Application/Services/OrderService.cs:76 | the `Where` over the requested ids by the found set; no contract of its own: `OrderService.MissingIdsPerLine` gives the reference list for every found set that agrees with the table |
| OrderService.MissingIdsPerLine | ShopEasy.Application/Services/OrderService.cs:75-76 | filtering the requested ids by a found set that agrees with the table gives the reference list |
| OrderService.MissingProductIds | ShopEasy.Application/Services/OrderService.cs:64-76 | the code's fetch-then-filter list of missing ids; no contract of its own: `OrderService.MissingProductIdsAreUnknownIds` equates it with the reference `OrderService.UnknownProductIds`, and `OrderService.NoMissingMeansAllFound` says an empty list means every line's product was fetched |
| OrderService.MissingProductIdsAreUnknownIds | ShopEasy.Application/Services/OrderService.cs:64-76 | the fetch-then-filter list of the code equals the reference list: every missing id, in request order, duplicates kept |
| OrderService.NoMissingMeansAllFound | ShopEasy.Application/Services/OrderService.cs:78-82 | passing the check means every line's product exists |
| OrderService.ProductLookup | ShopEasy.Application/Services/OrderService.cs:86 | `ToDictionary`: every key maps to the row with that id; every found requested id is a key |
| OrderService.DecrementOne | ShopEasy.Application/Services/OrderService.cs:121 | one line's wrapped decrement keeps the table's size |
| OrderService.StockAfter | ShopEasy.Application/Services/OrderService.cs:100-122 | all lines' decrements keep the table's size |
| OrderService.StockAfterPerProduct | ShopEasy.Application/Services/OrderService.cs:100-122 | each row's stock becomes its old stock minus the summed quantity of every line naming it, duplicates counted each time, wrapped once into the `int` range; the drop is exact, with no lower bound, whenever that difference is an `int`; rows no line names and all other fields are unchanged |
| OrderService.NothingOrderedOfUnnamed | ShopEasy.Application/Services/OrderService.cs:100-122 | lines none of which names a product order nothing of it |
| OrderService.UnnamedRowUnchanged | ShopEasy.Application/Services/OrderService.cs:100-122 | a row whose product no line names comes out of the order unchanged, stock included |
| OrderService.StockAfterKeepsIds | ShopEasy.Application/Services/OrderService.cs:121 | decrementing keeps every row's id in place, so the ids stay unique |
| OrderService.OrderedOfRowsLast | ShopEasy.Application/Services/OrderService.cs:100-122 | with unique ids, the last line adds its quantity to the row-by-row sum once if its product has a row, and nothing otherwise |
| OrderService.OrderedOfRowsTotal | ShopEasy.Application/Services/OrderService.cs:100-122 | with unique ids and every line found, summing the ordered quantities row by row counts every line exactly once |
| OrderService.NothingOrderedOfRows | ShopEasy.Application/Services/OrderService.cs:100-122 | no lines order nothing of any row |
| OrderService.StockAfterRows | ShopEasy.Application/Services/OrderService.cs:100-122 | every row of the decremented table holds its old stock minus the quantity the lines order of it, wrapped into the `int` range |
| OrderService.TotalStockCongruent | ShopEasy.Application/Services/OrderService.cs:121 | a table whose rows hold the wrapped decremented stocks totals, modulo 2^32, to the old total minus the row-by-row ordered sum |
| OrderService.TotalStockExact | ShopEasy.Application/Services/OrderService.cs:121 | a table whose rows hold the exact decremented stocks totals to exactly the old total minus the row-by-row ordered sum |
| OrderService.StockConservedModulo | ShopEasy.Application/Services/OrderService.cs:100-122 | when all lines are found, total stock drops by the total quantity ordered modulo 2^32, wrap-arounds included |
| OrderService.StockConserved | ShopEasy.Application/Services/OrderService.cs:100-122 | when all lines are found and no product's stock leaves the `int` range, total stock drops by exactly the total quantity ordered |
| OrderService.DecrementOneAt | ShopEasy.Application/Services/OrderService.cs:121 | with unique ids, a line changes only its product's row, by its quantity with wrap-around |
| OrderService.OrderItemsFor | ShopEasy.Application/Services/OrderService.cs:100-115 | one item per line |
| OrderService.OrderItemsForLine | ShopEasy.Application/Services/OrderService.cs:108-115 | item j stands for line j: the next item id plus j, the order's id, the line's product and quantity, and the price of that product's row at creation |
| OrderService.NewOrder | ShopEasy.Application/Services/OrderService.cs:89-124 | the Pending order the creation path builds; no contract of its own: `OrderService.NewOrderTotal` states its total, `OrderService.OrderItemsForLine` its items, `OrderService.BuildOrderLines` and `OrderService.PlaceOrder` that the loop produces it, and `OrderService.CreateOrderExample` a worked case |
| OrderService.NewOrderTotal | ShopEasy.Application/Services/OrderService.cs:98-124 | the created order's total is the sum over the lines of quantity times the product's price |
| OrderService.ItemsTotal | ShopEasy.Application/Services/OrderService.cs:118 | the built items' line totals add up to that sum |
| OrderService.OrderItemsForStep | ShopEasy.Application/Services/OrderService.cs:115 | each loop pass appends exactly the item of its line |
| OrderService.PriceOf | ShopEasy.Application/Services/OrderService.cs:102-106 | the unit price a line snapshots (the contract only says a found id is priced at its row); `OrderService.PriceOfRow` gives a row's id its row's price under unique ids, and `OrderService.OrderItemsForLine` puts it in the item |
| OrderService.PriceOfRow | ShopEasy.Application/Services/OrderService.cs:102-106 | with unique ids, a row's id is found and priced at that row's price |
| OrderService.StockStep | ShopEasy.Application/Services/OrderService.cs:121 | the in-place decrement of the found row is one more line of the stock function |
| OrderService.LoopStep | ShopEasy.Application/Services/OrderService.cs:100-122 | one loop pass, from the dictionary row, keeps items, running total and stock equal to their specifications over the lines done so far |
| OrderService.BuildOrderLines | ShopEasy.Application/Services/OrderService.cs:98-122 | the loop: the items are one per line with snapshotted prices, the accumulator ends at their line totals' sum, and the stock is the table after every line's decrement |
| OrderService.PlaceOrder | ShopEasy.Application/Services/OrderService.cs:86-124 | builds the lookup and runs the loop, giving the Pending order of the specification and the decremented table |
| OrderService.AppendOrderKeepsKeys | ShopEasy.Application/Services/OrderService.cs:127 | an order stored under the next identity value keeps order ids unique |
| OrderService.FoundExample | ShopEasy.Application/Services/OrderService.cs:75-78 | two lines naming existing products report nothing missing |
| OrderService.CreateOrderExample | ShopEasy.Application/Services/OrderService.cs:89-124 | two of a 10.00 product and one of a 5.00 product: Pending, prices 1000 and 500 cents, total 2500 cents |
| OrderService.StockExample | ShopEasy.Application/Services/OrderService.cs:121 | the same order takes the two stocks from 10 to 8 and to 9 |
| OrderService.StockWrapsExample | ShopEasy.Application/Services/OrderService.cs:121 | a quantity of -2147483648 against stock 10 wraps the stock to -2147483638, as unchecked C# `int` subtraction does |
| OrderService.MissingProductExample | ShopEasy.Application/Services/OrderService.cs:75-81 | a request naming a known and an unknown product reports exactly the unknown id |
| OrderService.Shop.CreateOrder | ShopEasy.Application/Services/OrderService.cs:61-139 | on missing ids, fails listing them and changes nothing; otherwise stores the Pending order, sets the table to the decremented stock with `int` wrap-around, advances both counters and returns the projection, with "Unknown" for a missing customer |
| OrderService.Shop.UpdateOrderStatus | ShopEasy.Application/Services/OrderService.cs:142-174 | not found; or a refused transition naming both statuses, with nothing changed; or the status set to the parsed target and nothing else changed. Terminal orders are never changed, and every change is one lifecycle step |

## Left out

- HTTP controllers, the Blazor client, dependency injection and hosting are not part of this model. The services are modelled directly.
- The EF Core context, schema configuration and seed data are replaced by in-memory tables whose primary keys are unique. The examples use small hand-made tables.
- Foreign keys are not modelled. In particular SQLite would reject saving an order for an unknown customer. The model follows the service code, which only labels that customer "Unknown".
- Navigation properties (`order.Customer`, `item.Product`) are replaced by id lookups into the current tables. Where the code dereferences `order.Customer.FullName` directly (`OrderService.cs:173,199,217,235`), the model uses the same "Unknown" fallback as creation. `OrderProjection.GetOrderByIdOfRow` shows it gives the real name whenever the customer row exists, which a foreign key guarantees.
- Async calls, `SaveChangesAsync` atomicity and concurrent requests are out. Each service call is one atomic step.
- `DateTime.UtcNow` is the `now` parameter of `Shop.CreateOrder`.
- Identity columns are the `nextOrderId` and `nextOrderItemId` counters. The database's real key values are not modelled.
- The loop of `CreateOrderAsync` runs in `OrderService.BuildOrderLines` over value copies: the item list, the running total and the product table. `Shop.CreateOrder` then assigns the results to its fields. Tracked entities and the aliasing between dictionary entries and table rows are not modelled.
- Error results are the structured `OrderError` values carrying the interpolated data. The exception types and exact message texts are not modelled.
- `OrderLifecycle.ParseStatus`: matches the five names ignoring ASCII case only. `Enum.TryParse` (`OrderService.cs:40-41`) also accepts numeric strings, surrounding whitespace and comma lists, and `Enum.Parse` (`OrderService.cs:168`) does too. So in the code a defined number such as "1" as the target moves a Pending order to Confirmed, and " Confirmed " is accepted too; the model refuses both. An undefined number such as "7" as the target only makes `Contains` (`OrderService.cs:53`) return false, which the model matches. As the current status it would make the table lookup at `OrderService.cs:50` throw. `UpdateOrderStatusAsync` always passes a member name as the current status, so only a direct caller of `CanTransition` can reach that throw, and the model returns false instead.
- `Text.ToLower`: ASCII folding only. The code folds the argument (`ProductService.cs:78`) with .NET's culture-aware `ToLower`, which also folds non-ASCII letters, but the column with SQLite's ASCII-only `lower()`. So for a category "Élec" and the argument "Élec", the code compares "Élec" with "élec" and returns nothing, while the model returns the row. Model and code agree on ASCII text only, and only under a culture without Turkic casing: under a Turkish or Azeri culture the argument "BIKES" becomes "bıkes" and matches no category "Bikes".
- `Text.StrLe`: the ordinal order of SQLite's BINARY collation. Other collations are out.
- Decimal overflow and rounding are out. Money is exact integer cents.
- `OrderService.PriceOf`: gives 0 for an id with no row. The creation path never reaches that case, because the missing-id check runs first.
- `OrderProjection.GetOrdersByCustomer` and `OrderProjection.GetAllOrders`: they promise descending order dates, not strictly descending ones. Orders with equal dates are allowed, as in the code. SQL `ORDER BY` fixes no order among them, and the contracts promise none. The model's sort happens to keep table order among ties, which the database need not do.
- Identity values, order totals and line totals are unbounded integers. C# `decimal` arithmetic and the database's identity columns do not wrap. Only stock and quantities, which are C# `int`, wrap around.
