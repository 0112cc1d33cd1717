# Shipment status dashboard — a Dafny model

This project models the two components of a small shipment-tracking dashboard.

- **The dashboard controller** (`ShipmentDashboard.jsx`) owns six pieces of state: the loaded records, the visible records, a loading flag, an error, the status filter and the sort order.
  - It loads the dataset once, validates it and ends either in the error state or with data.
  - It derives the visible list from the records, the filter and the order: it copies the list, keeps only the records of one status unless the filter is "All", and sorts stably by estimated delivery for "asc" or "desc".
  - It offers "All" plus the distinct statuses as filter options.
  - It shows exactly one of three views: loading, error or data.
- **The shipment card** (`ShipmentCard.jsx`) renders one record.
  - A header holds the tracking number and a status badge. The badge text is the raw status; its style comes from a five-entry table that falls back to Pending.
  - Four labelled rows follow, always in the same order.

The project has three modules:

- `ShipmentCard` (`shipment_card.dfy`): the record datatype, the treatment table and the card.
- `VisibleList` (`visible_list.dfy`): the derivation, as specification functions with their lemmas, and as the imperative code the dashboard runs. That code is a filter loop over a copy, then an in-place stable insertion sort of an array.
- `ShipmentDashboard` (`shipment_dashboard.dfy`): the controller as a class whose methods update its fields, plus the view selection.

Modelling choices:

- **Timestamps.** `estimatedDelivery` is an integer timestamp. The sort comparator is the difference of two timestamps, as in the source.
- **Date formatting.** The card takes the date formatter as a parameter `formatDate: int -> string`.
- **Stability.** "Stable" is stated as `SameTies`: for every timestamp, the records due at that time keep their relative order. `OrderedTiesUnique` proves that an ordered list with the same ties as the input is unique. So every stable sort by this comparator returns `StableSorted`, including the engine's `Array.prototype.sort`, which section 23.1.3.30 of ECMA-262 (2023 edition) requires to be stable. That is why the array insertion sort stands in for the engine's sort.
- **Sort order.** `sortOrder` is a string, because any value other than "asc" and "desc" keeps the filtered order.
- **Load payload.** The payload is `Missing`, `NotAnArray` or `Records(items)`. An empty array passes the source's validation, because `[]` is truthy. `Records` holds well-formed records only; see "## Left out" for arrays with other elements.
- **Error check.** The view tests the error by JavaScript truthiness (`ErrorShown`), so an empty message would not select the error view. The source only ever sets "Invalid data format".
- **Aliasing.** In the source, after a load `shipments` and `filteredShipments` refer to the same array, and the derivation copies it (`[...shipments]`) before sorting in place, so that sorting never reorders the loaded records. In the model both fields are values (`seq`), so they cannot alias. `ComputeVisible` still copies the value into a fresh array and sorts that array in place, but the reason `Recompute` leaves `shipments` unchanged is value semantics, not the copy.
- **Effects.** React runs the derivation effect after the records, the filter or the order change. Here that effect is the method `Recompute`, which a caller runs after `Load`, `SetFilter` or `SetSort`. `Load` sets the visible list to the payload, as the source does, and `Load`'s contract shows this already agrees with the derivation under the initial filter "All" and order "none".

## Model

| member | source | states |
|---|---|---|
| ShipmentCard.StatusTreatment | src/components/ShipmentCard/ShipmentCard.jsx:30-39 | Each of "Delivered", "In Transit", "Out for Delivery" and "Cancelled" is exactly the status its own treatment comes from. Pending is what "Pending" and every string outside the five keys get. The mapping is total. |
| ShipmentCard.CanonicalStatusRoundTrip | src/components/ShipmentCard/ShipmentCard.jsx:31-37 | Every treatment is reached, by its own key, and that key is in the table. |
| ShipmentCard.UnknownStatusIsPending | src/components/ShipmentCard/ShipmentCard.jsx:35-38 | An unknown status gets the same treatment as "Pending". |
| ShipmentCard.RenderCard | src/components/ShipmentCard/ShipmentCard.jsx:41-69 | The header shows the tracking number and a badge whose text is the raw status and whose style is its treatment. The body has exactly the rows From/sender, To/receiver, Last Location/last location and Estimated Delivery/formatted date, in that order. |
| ShipmentCard.CardLayoutIsFixed | src/components/ShipmentCard/ShipmentCard.jsx:50-69 | Any two cards have four rows with the same labels, whatever the field contents and the formatter. |
| ShipmentCard.CardShowsExactly | src/components/ShipmentCard/ShipmentCard.jsx:43-69 | Two records give the same card if and only if they agree on tracking number, status, sender, receiver, last location and formatted date. |
| ShipmentCard.UnknownStatusShownVerbatim | src/components/ShipmentCard/ShipmentCard.jsx:45-47 | An unknown status is shown verbatim on the badge while styled as Pending. |
| VisibleList.WithStatus | src/components/ShipmentDashboard/ShipmentDashboard.jsx:56 | Every kept record has the filter's status, and the result is no longer than the input. |
| VisibleList.WithStatusCount | src/components/ShipmentDashboard/ShipmentDashboard.jsx:56 | Each record with the filter's status is kept as many times as it occurs, and no other record is kept. |
| VisibleList.WithStatusIsSubsequence | src/components/ShipmentDashboard/ShipmentDashboard.jsx:56 | The filtered list keeps the records' original relative order. |
| VisibleList.FilteredSpec | src/components/ShipmentDashboard/ShipmentDashboard.jsx:52-57 | "All" returns the records unchanged. Any other value returns exactly the records with that status, with their multiplicities, in their original order. |
| VisibleList.WithStatusOfUniform | src/components/ShipmentDashboard/ShipmentDashboard.jsx:56 | Filtering a list whose records all have the filter's status changes nothing. |
| VisibleList.TiesArePermutation | src/components/ShipmentDashboard/ShipmentDashboard.jsx:60-68 | A list with the same ties as another is a permutation of it. |
| VisibleList.SwapKeepsTies | src/components/ShipmentDashboard/ShipmentDashboard.jsx:61-67 | Swapping two neighbours with different timestamps keeps every tie group's order. |
| VisibleList.Insert | src/components/ShipmentDashboard/ShipmentDashboard.jsx:61-67 | One insertion step of the stable sort adds exactly the inserted record to the multiset. |
| VisibleList.StableSorted | src/components/ShipmentDashboard/ShipmentDashboard.jsx:61-67 | The stable sort is a permutation of its input. |
| VisibleList.InsertOrdered | src/components/ShipmentDashboard/ShipmentDashboard.jsx:61-67 | Inserting into an ordered list keeps it ordered by the comparator. |
| VisibleList.InsertKeepsTies | src/components/ShipmentDashboard/ShipmentDashboard.jsx:61-67 | Inserting never reorders records that tie: the result has the same ties as appending. |
| VisibleList.StableSortedOrdered | src/components/ShipmentDashboard/ShipmentDashboard.jsx:60-68 | The sorted list is ordered by the comparator: timestamps increase for ascending order and decrease for descending order. |
| VisibleList.StableSortedKeepsTies | src/components/ShipmentDashboard/ShipmentDashboard.jsx:60-68 | The sort is stable: records with equal timestamps keep their input order. |
| VisibleList.OrderedTiesUnique | src/components/ShipmentDashboard/ShipmentDashboard.jsx:60-68 | Two ordered lists with the same ties are equal. So every stable sort by this comparator gives the same result. |
| VisibleList.SortedBySpec | src/components/ShipmentDashboard/ShipmentDashboard.jsx:59-68 | The sort step returns a permutation of its input that keeps the order within ties. Under "asc" neighbouring timestamps never decrease, and under "desc" they never increase. Any other order value returns the list unchanged. |
| VisibleList.VisibleIdempotent | src/components/ShipmentDashboard/ShipmentDashboard.jsx:51-71 | Deriving again from the visible list, with the same filter and order, returns the same list. |
| VisibleList.InitialViewIsIdentity | src/components/ShipmentDashboard/ShipmentDashboard.jsx:16-17 | Under the initial filter "All" and order "none", the visible list is the loaded list. |
| VisibleList.FirstSeen | src/components/ShipmentDashboard/ShipmentDashboard.jsx:74 | The distinct statuses: no duplicates, exactly the values of the input, and no more of them than the input has. |
| VisibleList.FirstSeenInOrder | src/components/ShipmentDashboard/ShipmentDashboard.jsx:74 | The distinct statuses come in first-occurrence order. |
| VisibleList.StatusOptionsSpec | src/components/ShipmentDashboard/ShipmentDashboard.jsx:74 | The options start with "All". Then comes each status of the records exactly once, in first-occurrence order, and nothing else. There are at most one more options than records. |
| VisibleList.InsertionSort | src/components/ShipmentDashboard/ShipmentDashboard.jsx:60-68 | Sorting the array in place leaves exactly the stable sort of its old contents. |
| VisibleList.SameTiesCommonSuffix | src/components/ShipmentDashboard/ShipmentDashboard.jsx:61-67 | Two lists with the same ties and the same suffix have the same ties in the part before it. |
| VisibleList.InsertLast | src/components/ShipmentDashboard/ShipmentDashboard.jsx:61-67 | One pass makes the first i+1 records ordered. Those records are a tie-preserving rearrangement of the old first i+1, every tie group keeps its order, and the records after position i are unchanged. |
| VisibleList.FilterCopy | src/components/ShipmentDashboard/ShipmentDashboard.jsx:52-57 | The loop over the copy computes the filter step. |
| VisibleList.ComputeVisible | src/components/ShipmentDashboard/ShipmentDashboard.jsx:51-71 | The copy, filter and in-place sort return the visible list of the records, the filter and the order. |
| ShipmentDashboard.Dashboard.constructor | src/components/ShipmentDashboard/ShipmentDashboard.jsx:12-17 | The initial state: no records, loading, no error, filter "All", order "none", and a settled visible list. |
| ShipmentDashboard.Dashboard.Load | src/components/ShipmentDashboard/ShipmentDashboard.jsx:20-48 | A missing or non-array payload ends with error "Invalid data format", loading false and the records untouched. Otherwise the records and the visible list become the payload, with no error and loading false. The view afterwards is the error view exactly when the payload was invalid, and the data view otherwise. |
| ShipmentDashboard.Dashboard.SetFilter | src/components/ShipmentDashboard/ShipmentDashboard.jsx:120-123 | Only the filter changes. |
| ShipmentDashboard.Dashboard.SetSort | src/components/ShipmentDashboard/ShipmentDashboard.jsx:138-141 | Only the sort order changes. |
| ShipmentDashboard.Dashboard.Recompute | src/components/ShipmentDashboard/ShipmentDashboard.jsx:51-71 | The visible list becomes the derivation of the records, the filter and the order. Nothing else changes, the records included. Running it twice therefore gives the same list. |
| ShipmentDashboard.Dashboard.View | src/components/ShipmentDashboard/ShipmentDashboard.jsx:76-168 | Loading wins over the error, which wins over the data. The data view carries the options, both control values and the count of visible records. It shows the empty-state message exactly when no record is visible, and otherwise one card per visible record, in order. |
| ShipmentDashboard.EmptyDatasetView | src/components/ShipmentDashboard/ShipmentDashboard.jsx:151-161 | An empty dataset shows count 0, only the "All" option and the empty-state message. |
| ShipmentDashboard.DeliveredScenario | src/components/ShipmentDashboard/ShipmentDashboard.jsx:51-71 | Records due at 3, 1 and 2 with statuses Delivered, Pending and Delivered, filtered on "Delivered" and sorted ascending, give the third record and then the first. The client method `DeliveredEarliestFirst` runs the whole lifecycle on these records: constructor, `Load`, `SetFilter("Delivered")`, `SetSort("asc")` and `Recompute`. It asserts that the visible list is then these two records and that the view's count is 2. |

## Left out

- Date parsing and formatting (`new Date`, millisecond subtraction, `toLocaleDateString`): a locale-dependent library. Timestamps are integers and the formatter is a parameter of `RenderCard`.
- Unparseable dates: the source's comparator then returns NaN and the order is implementation-defined. Every timestamp in the model is a valid integer.
- The simulated network delay, React's effect scheduling and its batching of state setters. `Load` models the load step from the arrival of the data on, and the caller runs `Recompute` where React would run the effect. The transient loading view during the delay appears only as the constructor's initial state.
- `window.location.reload()` behind the retry button, `console.error`, and the JSON import of the bundled dataset. The dataset is the `Payload` argument of `Load`.
- Markup, CSS module class names and React `key` props. The treatments are a datatype, not class names.
- The object-literal lookup also matching inherited keys such as "constructor": the table is an exact five-key map.
- The engine's sort algorithm. The model sorts by insertion, and `OrderedTiesUnique` shows that every stable sort by this comparator gives the same list.
- Uniqueness of record ids: nothing in the core depends on it.
- Concurrent or repeated loads: the model's methods run one after another.
- Malformed array elements: the source checks only that the payload is an array and stores whatever it holds. An element that is `null` or `undefined` makes the status lookup for the filter options throw on the next render, before the loading check. Under a filter other than "All" the filter step throws too, and so does the comparator under "asc" or "desc". Other non-record elements, and records whose fields are not strings, are also possible in the source. The model assumes every element is a well-formed `Shipment`, so `Load` does not model these crashes.
