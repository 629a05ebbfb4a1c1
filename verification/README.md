# Cargo traffic page — a Dafny model

This project models the client-side record logic of the cargo-traffic page. The page fetches a batch of cargo
records once and keeps it as `initialCargos`. It shows a list (`cargos`) that starts as the batch. The user can:

- search all six text fields for the text in the search box;
- search the arrival date (`dateTo`) only;
- reset the list with either "X" button;
- sort the list by clicking a column header.

The page also shows the record count and a bar chart. The chart has seven bars, one per day of the last week,
oldest first. Each bar counts the fetched records whose arrival date is exactly that day's `YYYY-MM-DD` label.

Modules:

- `Strings` models `String.prototype.includes` and JavaScript's `<` on strings, which is lexicographic.
- `Seqs` models `filter`, `reverse` and the order-preserving subsequence relation.
- `Cargos` models the record and the two search filters.
- `CargoSort` models the header sort as a stable insertion sort. It also proves that every stable sort ascending
  under the page's comparator gives the same list, so the model agrees with `Array.prototype.sort`, which is
  stable.
- `DateFormat` models the day labels.
- `Gist` models the seven-day histogram.
- `CargoPage` models the page as a state machine. Its state is the batch, the list on screen and the query. Each
  handler is one event.
- `SharedArrayPage` models the page with the array sharing the code really has (see "## Findings").

The clock is an input. The histogram takes the seven calendar days (year, month, day), with index 0 as today. It
does not read `Date.now`.

## Model

| member | source | states |
|---|---|---|
| Strings.IncludesIsSubstring | src/pages/cargo-traffic/cargo-traffic.tsx:51 | `includes` holds exactly when the query occurs at some offset of the field, so the empty query is in every field |
| Strings.Includes | src/pages/cargo-traffic/cargo-traffic.tsx:51 | defined by its body: `s.includes(sub)` tries each starting offset from the left and holds as soon as `sub` is a prefix of what remains; the empty query is a prefix of everything |
| Strings.Compare | src/pages/cargo-traffic/cargo-traffic.tsx:43-45 | the header comparator returns 1, -1 or 0; 0 exactly for equal keys, 1 exactly when the second key is smaller, -1 exactly when the first is smaller |
| Strings.Less | src/pages/cargo-traffic/cargo-traffic.tsx:43-44 | defined by its body: JavaScript's `<` on strings, comparing character by character from the left, with a proper prefix smaller than the longer string |
| Strings.CompareAntisymmetric | src/pages/cargo-traffic/cargo-traffic.tsx:43-45 | swapping the two keys negates the comparator's verdict |
| Strings.LeqTransitive | src/pages/cargo-traffic/cargo-traffic.tsx:43-45 | "does not compare greater" is transitive on keys |
| Strings.LeqTotal | src/pages/cargo-traffic/cargo-traffic.tsx:43-45 | any two keys are ordered one way or the other |
| Seqs.Filter | src/pages/cargo-traffic/cargo-traffic.tsx:50-56 | defined by its body: `filter` walks the list from the front and keeps each element the predicate accepts, dropping the others |
| Seqs.FilterProperties | src/pages/cargo-traffic/cargo-traffic.tsx:50 | `filter` returns an order-preserving subsequence that keeps each element meeting the predicate exactly as often as the input has it, and no other element |
| Seqs.FilterAppend | src/pages/cargo-traffic/cargo-traffic.tsx:50 | filtering a concatenation filters each part |
| Seqs.Reverse | src/pages/cargo-traffic/cargo-traffic.tsx:89 | `reverse` keeps the length and puts element `i` at position `n-1-i` |
| Seqs.SubMultisetSize | src/pages/cargo-traffic/cargo-traffic.tsx:132 | a collection drawn from another, counting repeats, is no larger |
| Cargos.Key | src/pages/cargo-traffic/cargo-traffic.tsx:43-44 | defined by its body: `a[value]` is the record's text in the clicked column, one case per column |
| Cargos.MatchesAny | src/pages/cargo-traffic/cargo-traffic.tsx:51 | defined by its body: the query is included in the name, content, departure city, arrival city, departure date or arrival date |
| Cargos.ArrivalMatches | src/pages/cargo-traffic/cargo-traffic.tsx:57 | defined by its body: the query is included in the arrival date |
| Cargos.SearchCargos | src/pages/cargo-traffic/cargo-traffic.tsx:49-53 | the search shows the batch records in which some text field contains the query, in batch order, each as often as in the batch, and no other record |
| Cargos.SearchCargosByDateTo | src/pages/cargo-traffic/cargo-traffic.tsx:55-59 | the arrival-date search shows the batch records whose `dateTo` contains the query, in batch order, with their multiplicity, and no other record |
| Cargos.EmptyQueryKeepsBatch | src/pages/cargo-traffic/cargo-traffic.tsx:49-59 | with an empty query both searches return the whole batch unchanged |
| Cargos.ByDateToWithinSearch | src/pages/cargo-traffic/cargo-traffic.tsx:55-59 | the arrival-date search result is an order-preserving subsequence of the all-fields search result for the same query |
| CargoSort.SortBy | src/pages/cargo-traffic/cargo-traffic.tsx:41-47 | the sorted list is ascending under the comparator and is a permutation of the list on screen |
| CargoSort.SortedInputIsUnchanged | src/pages/cargo-traffic/cargo-traffic.tsx:41-47 | a list already ascending in that column is left exactly as it is |
| CargoSort.SortIdempotent | src/pages/cargo-traffic/cargo-traffic.tsx:41-47 | sorting twice by one column gives the same list as sorting once |
| CargoSort.SortStable | src/pages/cargo-traffic/cargo-traffic.tsx:42-46 | records with equal keys keep their relative order |
| CargoSort.StableSortIsSortBy | src/pages/cargo-traffic/cargo-traffic.tsx:42-46 | any ascending list that keeps the order of each key's records equals the model's sort, so every stable sort agrees with it |
| DateFormat.Decimal | src/pages/cargo-traffic/cargo-traffic.tsx:68-78 | defined by its body: JavaScript's text for a non-negative number, the text of `n / 10` followed by the digit `n % 10`, a single digit below 10 |
| DateFormat.IntString | src/pages/cargo-traffic/cargo-traffic.tsx:68 | defined by its body: JavaScript's text for any integer, as `yyyy + '-'` converts the year: a minus sign before the text of a negative number's magnitude |
| DateFormat.DecimalFacts | src/pages/cargo-traffic/cargo-traffic.tsx:68 | a number's decimal text is all digits, reads back as the number, has no leading zero, and has one to four digits below 10000 |
| DateFormat.DecimalLength | src/pages/cargo-traffic/cargo-traffic.tsx:68 | in general, a number in [10^k, 10^(k+1)) has exactly `k + 1` decimal digits |
| DateFormat.Pad2 | src/pages/cargo-traffic/cargo-traffic.tsx:69-79 | defined by its body: a month or day below 10 gets a "0" in front of its decimal text, any other is its decimal text |
| DateFormat.FormatDate | src/pages/cargo-traffic/cargo-traffic.tsx:68-79 | defined by its body: year + "-" + Pad2(month) + "-" + Pad2(day) |
| DateFormat.Pad2Facts | src/pages/cargo-traffic/cargo-traffic.tsx:69-79 | a month or day label is two digits, starts with "0" exactly when the number is below 10, and reads back as the number |
| DateFormat.FormatDateShape | src/pages/cargo-traffic/cargo-traffic.tsx:65-79 | a valid day's label has ten characters, dashes at offsets 4 and 7 and digits elsewhere: year, month and day in that order |
| DateFormat.FormatDateRoundTrip | src/pages/cargo-traffic/cargo-traffic.tsx:65-79 | reading a valid day's label back gives the day |
| DateFormat.FormatDateInjective | src/pages/cargo-traffic/cargo-traffic.tsx:65-79 | different valid days get different labels |
| Gist.DayCount | src/pages/cargo-traffic/cargo-traffic.tsx:80-86 | a day's count is the number of batch positions whose `dateTo` equals the label, so at most the batch size |
| Gist.Pushed | src/pages/cargo-traffic/cargo-traffic.tsx:63-88 | defined by its body: entry `i` is `{date, count}` for `days[i]`, in the order the outer loop pushes them, today first |
| Gist.Histogram | src/pages/cargo-traffic/cargo-traffic.tsx:61-90 | the chart has `DAYS` = 7 bars; bar `k` is labelled with day `6-k` (oldest first) and its count is the number of records arriving exactly on its label |
| Gist.HistogramLabelsShaped | src/pages/cargo-traffic/cargo-traffic.tsx:65-79 | with valid days every bar label is `YYYY-MM-DD` |
| Gist.HistogramLabelsDistinct | src/pages/cargo-traffic/cargo-traffic.tsx:63-88 | with seven distinct valid days no two bars share a label |
| Gist.DayCountIsFilterLength | src/pages/cargo-traffic/cargo-traffic.tsx:80-86 | the counting loop counts the same records as filtering the batch on the arrival date |
| Gist.DayCountPermutation | src/pages/cargo-traffic/cargo-traffic.tsx:80-86 | reordering the batch changes no day's count |
| Gist.HistogramIgnoresOrder | src/pages/cargo-traffic/cargo-traffic.tsx:61-90 | the chart depends only on which records the batch holds, not their order |
| Gist.HistogramExample | src/pages/cargo-traffic/cargo-traffic.tsx:61-90 | for two records due 2024-01-05 and one due 2024-01-04, with today 2024-01-05, the bars are 0 five times, then 1, then 2, with the oldest day first |
| CargoPage.Step | src/pages/cargo-traffic/cargo-traffic.tsx:35-129 | only the fetch replaces the batch; only typing changes the query; typing leaves the list alone; every event keeps the list drawn from the batch |
| CargoPage.ViewCount | src/pages/cargo-traffic/cargo-traffic.tsx:132 | defined by its body: the number shown is the length of the list on screen |
| CargoPage.ViewOnlyKeepsBatchAndQuery | src/pages/cargo-traffic/cargo-traffic.tsx:41-59 | searches, sorts and clears change neither the batch nor the query |
| CargoPage.SearchReadsOnlyBatch | src/pages/cargo-traffic/cargo-traffic.tsx:49-59 | after any searches, sorts and clears, a search shows exactly its result on the batch with the current query |
| CargoPage.SearchTwice | src/pages/cargo-traffic/cargo-traffic.tsx:49-59 | pressing either search button twice leaves the page as pressing it once does |
| CargoPage.ClearRestoresBatch | src/pages/cargo-traffic/cargo-traffic.tsx:125-132 | after any searches, sorts and clears, "X" shows the batch in fetched order, and the count is the batch size |
| CargoPage.EmptySearchIsClear | src/pages/cargo-traffic/cargo-traffic.tsx:49-59 | with a blank search box both search buttons do what "X" does |
| CargoPage.ByDateToShowsLess | src/pages/cargo-traffic/cargo-traffic.tsx:49-59 | the arrival-date search shows an order-preserving subsequence of what the all-fields search shows |
| CargoPage.SortTwice | src/pages/cargo-traffic/cargo-traffic.tsx:41-47 | clicking the same header twice leaves the page as one click does |
| CargoPage.RunKeepsViewFromBatch | src/pages/cargo-traffic/cargo-traffic.tsx:35-59 | once the list is drawn from the batch it stays so under every event sequence |
| CargoPage.ReachableViewFromBatch | src/pages/cargo-traffic/cargo-traffic.tsx:132 | from mount on, every record shown is a batch record, and the count never exceeds the batch size |
| CargoPage.ChartFollowsBatchOnly | src/pages/cargo-traffic/cargo-traffic.tsx:61-90 | events other than the fetch leave the chart as it was |
| SharedArrayPage.StepAgrees | src/pages/cargo-traffic/cargo-traffic.tsx:35-59 | one event keeps the shared-array page and the value model holding the same records, with the same query |
| SharedArrayPage.RunAgrees | src/pages/cargo-traffic/cargo-traffic.tsx:35-59 | under any event sequence the shared-array page's batch and list are permutations of the value model's |
| SharedArrayPage.Step | src/pages/cargo-traffic/cargo-traffic.tsx:35-129 | the handlers as written: while the screen is the batch array, a sort also reorders the batch; apart from the fetch the batch is only reordered; a shared screen stays equal to the batch |
| SharedArrayPage.ChartAndCountUnaffected | src/pages/cargo-traffic/cargo-traffic.tsx:61-132 | array sharing never changes the chart or the record count |
| SharedArrayPage.SearchAfterSortIsReordered | src/pages/cargo-traffic/cargo-traffic.tsx:35-53 | fetching "b", "a", sorting by name and searching with a blank box shows "a", "b" as written, but "b", "a" in the value model |
| SharedArrayPage.ClearAfterSortIsReordered | src/pages/cargo-traffic/cargo-traffic.tsx:35-47 | fetching "b", "a", sorting by name and pressing "X" shows "a", "b" as written, but "b", "a" in the value model |

## Left out

- The fetch itself is not modelled: the HTTP request, the bearer token from local storage and the redirect to the
  login page on failure. The answer arrives as the `Fetched` event.
- Navigation to the create page and to a record's page is not modelled. It changes no state of this page.
- The chart's rendering is not modelled: Chart.js registration, the dataset colours and the JSX table. The model
  stops at the list of `{date, count}` bars.
- The clock is not modelled: `Date.now`, the millisecond arithmetic and local-time `getFullYear`, `getMonth` and
  `getDate`. The seven calendar days are an input.
- Gist.Histogram: it does not state that the seven days are consecutive calendar days. That needs calendar and
  time-zone arithmetic, which is outside the model.
- React's scheduling is not modelled: batching and the order of effects and re-renders. Each handler is one
  atomic event, and the chart is a function of the batch.
- Optional chaining (`?.`) is not modelled. Fields are non-null strings, as the record interface declares. A
  record with a missing field, which the backend could send, is not modelled.
- Strings.Less, Strings.Compare: they order strings by Unicode scalar values. JavaScript's `<` and `>` compare
  UTF-16 code units, and the two orders differ only for characters outside the Basic Multilingual Plane: "\uFFFF"
  is below U+1F600 here but above it in JavaScript.
- Headers exist only for the six text columns, so the model never sorts by `id`.
- CargoPage leaves out the in-place mutation of the shared array. SharedArrayPage models it.

## Findings

| source | as written | input that shows it | evidently intended | confidence | as-written member | corrected member |
|---|---|---|---|---|---|---|
| src/pages/cargo-traffic/cargo-traffic.tsx:42 | the header click calls `state.sort` in place. Right after the fetch or "X", `state` is the batch array itself, so the click also reorders `initialCargos` | fetch the records "b", "a"; click the name header; press search with a blank box, or press "X". The page shows "a", "b" | the searches and "X" start from the batch in fetched order, as their copies (`[...initialCargos.filter(...)]`) suggest | not executed | SharedArrayPage.SearchAfterSortIsReordered | CargoPage.SearchReadsOnlyBatch |
