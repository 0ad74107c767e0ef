# HappyShop customer model in Dafny

This project models the customer client of HappyShop, a small point-of-sale
application. A customer searches the catalogue by product id and adds the
selected product to a trolley, one unit at a time. The trolley keeps one line
per product id, sorted by id. At checkout the trolley is re-grouped by id and
offered to the stock database. A checkout ends in one of four ways:

- `EmptyTrolley`: the trolley has no lines, so no stock call is made;
- `Committed`: every line has enough stock, an order is made from the trolley and the trolley is cleared;
- `Rejected`: some lines are short of stock, the trolley is left alone and the selection is dropped;
- `PurchaseFailed`: the stock call throws an `SQLException`, and nothing changes.

The modules are:

- `JavaLang` (`java_lang.dfy`): the parts of the Java platform the client relies on.
  - 32-bit `int` addition with wrap-around.
  - `Math.max`.
  - `String.compareTo`, the ordering used to sort the trolley.
  - `String.trim`.
- `Catalogue` (`catalogue.dfy`): a product line as a value, holding id, description, image name, price, stock and ordered quantity.
- `Storage` (`storage.dfy`): the two database calls, `searchByProductId` and `purchaseStocks`.
  - Each is a function-typed parameter.
  - Each returns either an answer or `SqlError`, which stands for a thrown `SQLException`.
- `TrolleyLines` (`trolley_lines.dfy`): specification functions on sequences of lines, and lemmas about them.
  - Specification functions: add-or-merge, the stable sort by id, and the grouping fold.
  - Lemmas: uniqueness per id, sortedness, permutation, stability, idempotence and per-id quantity sums.
- `Customer` (`customer_model.dfy`): the `CustomerModel` class.
  - Fields: `theProduct`, `trolley`, and the three view texts (search label, trolley text, receipt text).
  - Its methods update those fields in place.
  - The trolley methods are proved against the `TrolleyLines` functions.
  - The class keeps the invariant "one line per id, sorted by id".
  - `GroupProductsById` is a loop over the trolley that fills a map.

The two inputs from outside the class are modelled as follows:

- The text the customer typed is a parameter of `Search`.
- The database replies come from the oracle parameters.

## Model

| member | source | states |
|---|---|---|
| JavaLang.AddInt32 | src/main/java/ci553/happyshop/client/customer/CustomerModel.java:128 | Java `int` addition: the exact sum whenever it fits in 32 bits, and always congruent to the sum modulo 2^32 |
| JavaLang.ToInt32 | src/main/java/ci553/happyshop/client/customer/CustomerModel.java:128 | narrowing to `int` is the identity on the 32-bit range and otherwise congruent modulo 2^32 |
| JavaLang.ToInt32OfSum | src/main/java/ci553/happyshop/client/customer/CustomerModel.java:124-128 | wrapping a running sum at each step gives the same `int` as wrapping the total once |
| JavaLang.Max | src/main/java/ci553/happyshop/client/customer/CustomerModel.java:184 | `Math.max` is an upper bound of both arguments and equals one of them |
| JavaLang.CompareToZero | src/main/java/ci553/happyshop/client/customer/CustomerModel.java:204 | `JavaLang.CompareTo`, the model of `String.compareTo` (first differing character, else length), is zero exactly when the two ids are equal |
| JavaLang.CompareToAntisymmetric | src/main/java/ci553/happyshop/client/customer/CustomerModel.java:204 | swapping the ids negates `compareTo` |
| JavaLang.CompareToTransitive | src/main/java/ci553/happyshop/client/customer/CustomerModel.java:204 | the order by id is transitive, so sorting by it is well defined |
| JavaLang.Trim | src/main/java/ci553/happyshop/client/customer/CustomerModel.java:39-40 | the trimmed id is empty exactly when every typed character is at or below U+0020; otherwise it starts and ends with a character above U+0020 |
| JavaLang.TrimIsSlice | src/main/java/ci553/happyshop/client/customer/CustomerModel.java:39 | the trimmed id is a slice of the typed text, and everything cut off before and after it is at or below U+0020 |
| TrolleyLines.FindId | src/main/java/ci553/happyshop/client/customer/CustomerModel.java:182-183 | the first line with the id, if any; no line has it when none is found |
| TrolleyLines.QtyOf | src/main/java/ci553/happyshop/client/customer/CustomerModel.java:173-177 | the total ordered quantity of an id is 0 when no line has that id and non-negative when all quantities are |
| TrolleyLines.AddOrMergeExisting | src/main/java/ci553/happyshop/client/customer/CustomerModel.java:182-187 | `TrolleyLines.AddOrMerge` (with `TrolleyLines.Bumped`, lines 184-185): with a line of that id present, its first such line becomes `max(0, old) + 1`; the length and every other line are unchanged |
| TrolleyLines.AddOrMergeFresh | src/main/java/ci553/happyshop/client/customer/CustomerModel.java:191-199 | `TrolleyLines.AddOrMerge` (with `TrolleyLines.NewLine`, lines 191-198): with no line of that id, exactly one line is appended, copying id, description, image, price and stock, with quantity 1; the existing lines are unchanged |
| TrolleyLines.AddOrMergeUnique | src/main/java/ci553/happyshop/client/customer/CustomerModel.java:173-177 | adding keeps at most one line per product id |
| TrolleyLines.AddOrMergeQuantity | src/main/java/ci553/happyshop/client/customer/CustomerModel.java:173-199 | adding raises the total quantity of the product by exactly 1 (old quantities non-negative and below the `int` maximum) and leaves every other id's total alone |
| TrolleyLines.AddTimesOneLine | src/main/java/ci553/happyshop/client/customer/CustomerModel.java:178-199 | adding a new product n times (n within `int` range) yields the old lines plus one line with quantity n |
| TrolleyLines.SortById | src/main/java/ci553/happyshop/client/customer/CustomerModel.java:202-205 | the sorted trolley has as many lines as before |
| TrolleyLines.SortByIdPermutes | src/main/java/ci553/happyshop/client/customer/CustomerModel.java:202-205 | sorting is a permutation of the lines (same multiset) |
| TrolleyLines.SortByIdSorted | src/main/java/ci553/happyshop/client/customer/CustomerModel.java:202-205 | after sorting the lines are non-decreasing by id under `compareTo` |
| TrolleyLines.SortByIdOfSorted | src/main/java/ci553/happyshop/client/customer/CustomerModel.java:202-205 | sorting lines already in order leaves them as they are |
| TrolleyLines.SortByIdIdempotent | src/main/java/ci553/happyshop/client/customer/CustomerModel.java:202-205 | sorting twice is the same as sorting once |
| TrolleyLines.SortByIdStable | src/main/java/ci553/happyshop/client/customer/CustomerModel.java:204 | the sort is stable: the lines of any one id keep their relative order |
| TrolleyLines.SortByIdQuantity | src/main/java/ci553/happyshop/client/customer/CustomerModel.java:202-205 | sorting leaves every id's total quantity unchanged |
| TrolleyLines.SortByIdUnique | src/main/java/ci553/happyshop/client/customer/CustomerModel.java:202-205 | sorting keeps one line per id |
| TrolleyLines.AddThenSortQuantity | src/main/java/ci553/happyshop/client/customer/CustomerModel.java:64-69 | `TrolleyLines.AddThenSort`, the trolley after lines 67-68 (merge, then sort): the product's total quantity has risen by exactly 1 and every other id's total is unchanged |
| TrolleyLines.GroupedConsolidates | src/main/java/ci553/happyshop/client/customer/CustomerModel.java:123-141 | `TrolleyLines.Grouped`, the fold of `TrolleyLines.GroupStep` over the lines (the loop at 124-140): the map it builds has exactly the input's ids as keys, and each entry is the first line with that id carrying the 32-bit sum of that id's quantities |
| TrolleyLines.ConsolidationOfUnique | src/main/java/ci553/happyshop/client/customer/CustomerModel.java:81-82 | grouping lines that already have one line per id returns exactly those lines in some order, so re-grouping a grouped list changes nothing |
| Customer.GroupProductsById | src/main/java/ci553/happyshop/client/customer/CustomerModel.java:122-143 | one line per distinct input id (as many lines as ids), each the first input line of its id with the summed quantity; on input with distinct ids, the input lines rearranged |
| Customer.ValuesOf | src/main/java/ci553/happyshop/client/customer/CustomerModel.java:142 | the values of the map, each once, in an unspecified order |
| Customer.AddThenSortKeepsInvariant | src/main/java/ci553/happyshop/client/customer/CustomerModel.java:64-69 | merge-then-sort keeps the trolley with one line per id, sorted by id |
| Customer.CustomerModel.constructor | src/main/java/ci553/happyshop/client/customer/CustomerModel.java:28-35 | no selection, an empty trolley, the `NothingSearched` label and empty text areas; `Customer.SearchLabel.Text` gives that label the literal "No Product was searched yet" (line 33) and `Customer.TrolleyText.Text` gives `Blank` the empty string (line 34) |
| Customer.CustomerModel.Search | src/main/java/ci553/happyshop/client/customer/CustomerModel.java:38-60 | a blank id clears the selection with "Please type ProductID"; a product found with stock above 0 becomes the selection and its details are shown; otherwise the selection is cleared with "No Product was found with ID"; a database error changes nothing; the literal label texts of lines 53 and 58 are those of `Customer.SearchLabel.Text` for `NoProductFound` and `TypeProductId` |
| Customer.CustomerModel.AddToTrolley | src/main/java/ci553/happyshop/client/customer/CustomerModel.java:64-77 | with a selection the trolley becomes merge-then-sort of the old one and is listed; without one the trolley is unchanged and the "search first" label is shown (`SearchFirst`, whose `Customer.SearchLabel.Text` is the literal of line 72); the receipt is cleared either way; the trolley invariant is kept |
| Customer.CustomerModel.CheckOut | src/main/java/ci553/happyshop/client/customer/CustomerModel.java:79-116 | an empty trolley makes no stock call and shows `TrolleyEmptyNotice`, whose `Customer.TrolleyText.Text` is "Your trolley is empty" (line 112); otherwise the purchase is asked for the consolidated trolley; no shortfall commits an order of the old trolley, clears the trolley, blanks its text (`Blank`, the empty string of line 89) and shows the receipt; shortfalls leave the trolley exactly as it was and drop the selection; a database error changes nothing |
| Customer.CustomerModel.Cancel | src/main/java/ci553/happyshop/client/customer/CustomerModel.java:145-149 | the trolley is emptied and its text cleared |
| Customer.CustomerModel.CloseReceipt | src/main/java/ci553/happyshop/client/customer/CustomerModel.java:151-153 | the receipt text is cleared |
| Customer.CustomerModel.AddOrMergeToTrolley | src/main/java/ci553/happyshop/client/customer/CustomerModel.java:178-200 | the loop leaves the trolley equal to the add-or-merge specification of the old trolley |
| Customer.CustomerModel.SortTrolleyById | src/main/java/ci553/happyshop/client/customer/CustomerModel.java:202-205 | the trolley becomes sorted by id and is a permutation of the old one |

`checkOut` passes the trolley itself, not the grouped list, to
`OrderHub.newOrder` (`CustomerModel.java:87`), and `CheckOut` reports
`Committed(old(trolley))`. The trolley always has one line per id, so the
trolley and the grouped list hold the same lines, possibly in a different
order.

## Left out

- `updateView`, the image name and its URI, the `cusView` fields and every `System.out.println`: these are presentation and file-system concerns.
- The formatted texts are kept as values, not as strings: the product details label, the trolley listing, the receipt and the shortfall message built with `StringBuilder`. They rely on `String.format` and floating-point rendering of the price, and on `ProductListFormatter.buildString`, which is not part of this model.
- `OrderHub.getOrderHub()` and `newOrder` are left out: the order id, its timestamp, the process-wide singleton and concurrency. The model only records which lines the order receives, and that it happens before the trolley is cleared.
- `Customer.CustomerModel.CheckOut` does not model an `IOException` from `newOrder`. That exception would leave the trolley uncleared.
- The bodies of `searchByProductId` and `purchaseStocks` are left out: the database I/O and the check and decrement of stock, whose atomicity cannot be seen from the client. They appear only as oracles whose replies are parameters.
- `getTrolley` is left out because it is a test-only accessor.
- `Product` objects are values, not shared objects. No `Product` is shared between the selection, the trolley and the grouping map: each trolley line and each grouped entry is a fresh copy (`CustomerModel.java:131-139`, `191-198`).
- `Customer.CustomerModel.CheckOut`: the list given to `newOrder` is the `trolley` list itself, which is cleared at `CustomerModel.java:88` before the receipt reads `theOrder.getProductList()` at line 94. `OrderHub` is not part of this model. The model assumes `newOrder` keeps its own copy of the list, so `Committed` and `Receipt` carry the trolley as it was before the clear. Without that copy, the order and its receipt would list nothing.
- `unitPrice` is a Dafny `real`, not a `double`. It is only copied, never computed with.
- `JavaLang.CompareTo` compares Unicode code points, where Java compares UTF-16 code units. The two orders differ only for characters outside the Basic Multilingual Plane.
- `HashMap` iteration order is left open: `Customer.ValuesOf` picks the keys in an arbitrary order. The properties of the grouped list are therefore stated per id, not per position.
- `TrolleyLines.AddOrMergeQuantity`: the quantity lemmas assume that no quantity reaches the `int` maximum. At that point the Java addition wraps to a negative number; `TrolleyLines.AddOrMerge` models the wrap itself.
