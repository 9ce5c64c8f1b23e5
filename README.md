# University finder: search and filter pipeline

A Dafny model of the `UniversityFinder` class of a small web page that looks
up universities by country in a public directory service. It covers the
following:

- the search handler: reject a blank query, ask the directory by country and
  fall back to asking by name, then pick a message;
- the state/province facets offered in the drop-down;
- the two-pass result filter, by state and by public/private category;
- the results-count line;
- the name-based type classifier.

Modules:

- `Text`: the string operations the page uses. These are `trim`, ASCII
  `toLowerCase`, `includes` and the default order of `Array.prototype.sort`,
  over `seq<char>`.
- `Records`: the directory's university record.
- `Classifier`: `detectUniversityType`.
- `Facets`: the state list built in `populateStateFilter`. The model gives
  its reference characterisation: sorted, without repeats, exactly the
  non-blank states listed.
- `Filters`: the criteria of `applyFilters` and `Keep`, a model of
  `Array.filter`. The whole selection is also written as one reference
  criterion, with the properties of the filtered view.
- `Directory`: `fetchUniversities`. The directory service is an oracle
  `api: Query -> Reply`.
- `Finder`: the `UniversityFinder` class. Its fields are the fetched list,
  the filtered view, the category, the chosen state, the drop-down options,
  the message, the results-count line and the log of queries sent. Its
  methods are the handlers that update them.

Two behaviours of the code are worth stating, and the model keeps them:

- A new search keeps the public/private category in force. It only empties
  the state drop-down (script.js:68, 54-56).
- There is no counter that discards a stale answer: `handleSearch` stores
  whatever its awaited fetch returns (script.js:72, 80).

## Model

`Text.Lower` (ASCII `toLowerCase`), `Text.Contains` (`includes`) and
`Text.Less` (the default `sort` order) are definitions without contracts of
their own; the rows below for `Text` state what is proved about them.

| member | source | states |
|---|---|---|
| Text.Trim | script.js:59 | The trimmed query is no longer than the input and neither starts nor ends with whitespace; with `Text.TrimCutsOnlyOuterWhitespace` this is exactly `s.trim()`. |
| Text.TrimCutsOnlyOuterWhitespace | script.js:59 | The trimmed query is a slice of the input with only whitespace before and after it; with the ensures of `Text.Trim`, that slice neither starts nor ends with whitespace. |
| Text.TrimEmptyIffBlank | script.js:59-60 | The trimmed query is empty exactly when the input holds only whitespace, in either direction. |
| Text.LowerConcat | script.js:226 | Lower-casing a concatenation lower-cases each part. |
| Text.ContainsSuffix | script.js:226 | `includes` finds every suffix of a string in it. |
| Text.MissingCharRulesOut | script.js:233-239 | A string lacking one of the characters of a word does not include that word. |
| Text.LessIrreflexive | script.js:190 | No string sorts before itself. |
| Text.LessTransitive | script.js:190 | The sort order is transitive. |
| Text.LessTotal | script.js:190 | Of two different strings, one sorts before the other, so the order is total. |
| Classifier.DetectUniversityType | script.js:385-396 | The result is public if and only if some public keyword occurs in the lower-cased name. It is private if and only if no public keyword occurs and some private keyword does. It is unknown if and only if neither occurs. |
| Classifier.TieBreakGoesToPublic | script.js:390-394 | A name holding both public and private keywords ("State Private Institute") is classified public. |
| Facets.StateValues | script.js:187-189 | A string is among the mapped-and-filtered values exactly when some record lists it as a present, non-blank state. |
| Facets.Insert | script.js:190 | Inserting into a sorted list gives a sorted list with the same elements plus the new one. |
| Facets.Sort | script.js:190 | The result is sorted ascending and is a permutation of the input. |
| Facets.SortKeepsValues | script.js:190 | Sorting keeps exactly the same set of values. |
| Facets.Dedup | script.js:187 | The result holds exactly the values of the input, each once. |
| Facets.DedupOfSorted | script.js:187-191 | Removing repeats from a sorted list leaves a strictly ascending list. |
| Facets.DeriveStates | script.js:187-191 | The drop-down's states are strictly ascending and without repeats. None of them is blank. A string is among them exactly when some record lists it as its state. |
| Facets.StrictlySortedUnique | script.js:190-191 | Two strictly ascending lists with the same values are equal. |
| Facets.DeriveStatesCharacterized | script.js:187-191 | A list is the drop-down's state list if and only if it is strictly ascending and holds exactly the states the records list. |
| Facets.FacetsDependOnlyOnStates | script.js:187-191 | Two result lists whose records list the same states give the same options, whatever their order or repetitions. |
| Filters.SubsequenceBounds | script.js:224-241 | An order-preserving subsequence is no longer than its source, and each of its elements is in the source. |
| Filters.Keep | script.js:224-227 | The records kept form an order-preserving subsequence of the input. A record is kept exactly when it is in the input and meets the criterion. When every record meets it, the input comes back whole. |
| Filters.KeepCounts | script.js:224-241 | A matching record is kept as many times as it occurs in the input, and a failing one not at all, so the count line reports every copy. |
| Filters.KeepEquivalent | script.js:224-241 | Two criteria that agree on every record keep the same records. |
| Filters.TwoPassesAreOneSelection | script.js:219-242 | The state pass (skipped when no state is chosen) followed by the category pass (skipped under `all`) keeps what one pass with the whole selection keeps. |
| Filters.KeepTwice | script.js:219-242 | Filtering by one criterion and then by a second keeps the same list as one pass with their conjunction. |
| Filters.NoSelectionShowsAll | script.js:219-231 | With no state chosen and the `all` category, the filtered view is the fetched list, in the same order. |
| Filters.FilteredIsSelectedSubsequence | script.js:219-244 | The filtered view is an order-preserving subsequence of the fetched list, so it is never longer. A record is in it exactly when it is fetched and meets the selected state and category. |
| Filters.StateChoiceKeepsOnlyThatState | script.js:223-227 | With a state chosen, each shown record has a present state whose lower-cased form contains the lower-cased choice. Records without a state are never shown. |
| Filters.ChosenStateShowsEndings | script.js:223-227 | With a state chosen and the `all` category, every record whose state ends with the choice is shown. This includes that state itself and, for example, "West Virginia" for "Virginia". |
| Filters.PublicPrivatePartition | script.js:231-241 | Each record goes to exactly one of the public pass and the private pass. On any input the two passes split the records between them, as multisets and in length. |
| Filters.NarrowingNeverAdds | script.js:219-244 | Adding a category to a state choice, or a state choice to a category, shows a subsequence of what was shown before. |
| Filters.FilterPublicIsClassifiedPublic | script.js:234-236 | Every name the filter's public pass keeps is one the classifier labels public. |
| Filters.ClassifiedPrivateIsFilterPrivate | script.js:237-239 | Every record the classifier labels private is kept by the filter's private pass. |
| Filters.FederalAcademyIsClassifiedPublic | script.js:385-393 | The classifier labels "Federal Academy" public, by its keyword "federal". |
| Filters.FederalAcademyIsFilterPrivate | script.js:237-239 | The filter's private pass keeps "Federal Academy": the filter knows only four public words, so it and the classifier disagree here. |
| Directory.FetchUniversities | script.js:159-182 | The country query is always sent first. The name query is sent, second and last, exactly when the country query answered without records. The result is what the last answer yields: its records, an empty list when its data is absent, or the error it failed with. |
| Directory.CountryRecordsWin | script.js:167-169 | When the country query returns records, those records are the result and no name query is sent. |
| Directory.EmptyOnlyWhenBothEmpty | script.js:171-177 | An empty list is returned only after both queries were sent and neither produced records. |
| Finder.FailureNotice | script.js:93-99 | A 404 status gives the not-found message for the country. Otherwise a `NETWORK_ERROR` code or an offline browser gives the check-connection message. Anything else gives the service-unavailable message. Each holds in both directions. |
| Finder.ResultsCount | script.js:361-375 | The count line reads "ready" exactly when nothing was fetched, and "found N" exactly when all fetched records are shown. Otherwise it reads "showing shown of total". |
| Finder.CountLineAfterFiltering | script.js:244-246 | After filtering, "showing" always means fewer shown than fetched. With no selection, a non-empty list reads "found N". |
| Finder.UniversityFinder.constructor | script.js:2-10 | The finder starts with no records, an empty view, the `all` category, no state chosen, an empty drop-down, no message, no count line and no queries sent. |
| Finder.UniversityFinder.ApplyFilters | script.js:218-247 | The state pass and then the category pass leave in `filteredUniversities` the one-pass reference view of the whole selection. The count line shows its length against the fetched total. The fetched list is not modified. |
| Finder.UniversityFinder.HandleFilterClick | script.js:249-264 | A category button sets the category and filters again, whether or not anything was fetched. |
| Finder.UniversityFinder.SelectState | script.js:38-42 | Choosing a drop-down option filters again only when records have been fetched. Otherwise the view and the count line stay as they were. |
| Finder.UniversityFinder.ClearStateFilter | script.js:54-56 | The drop-down is left with only its "All" option, and nothing is chosen. |
| Finder.UniversityFinder.PopulateStateFilter | script.js:184-191 | The drop-down lists the derived states of the fetched list, and nothing is chosen. |
| Finder.UniversityFinder.ShowFetched | script.js:80-82 | A non-empty answer becomes the fetched list. Its states fill the drop-down, and it is filtered with the category still in force; under `all` the view is the whole list. |
| Finder.UniversityFinder.HandleSearch | script.js:58-104 | A blank query shows the enter-a-country message and changes nothing else; nothing is sent. Any other query empties the drop-down and logs exactly the queries the fetch sends. A non-empty answer replaces the fetched list, lists its states, filters it and reports the count found. An error or an empty answer leaves the fetched list, the view and the count line as they were. It shows the failure message or the none-found message. |

## Left out

- Page rendering is not modelled. This covers `initializeElements`, `bindEvents`, `displayUniversities`, the university cards, `showLoading`, `clearError` and the `filtersContainer` display. The model keeps only the values the page would show: the options, the message kind and the count-line kind.
- The messages are constructors of `Notice` and `CountText`, not the rendered texts.
- Finder.UniversityFinder.HandleSearch: `notice` is the last message written, not everything the message area holds. `clearError` only hides the area, so an earlier error stays in it; a later success message is added beside it, and the old error is still shown after the success message is removed three seconds later. The model does not track the area's children.
- Animations, `setTimeout` and style changes are left out because they are cosmetic.
- The real HTTP requests and the 10-second timeout are replaced by the oracle `api`, which gives the reply to each query.
- `navigator.onLine` is the parameter `online`.
- `console` logging is left out.
- The injected CSS, the keyboard shortcut, the `PerformanceObserver` and `addSearchSuggestions` are left out because they do not touch the data.
- Each handler is modelled as one atomic step. In the page, `handleSearch` yields at each `await` (script.js:72, 162, 172), so a category click or a second search can run in between. Such a click re-filters the old list after the drop-down was emptied, and whichever answer arrives last wins. These interleavings are not captured.
- Text.Lower maps only the ASCII letters. `toLowerCase` also maps other Unicode letters.
- Text.Less orders strings by code point. The default `sort` compares UTF-16 code units, which differs for characters outside the Basic Multilingual Plane.
- Finder.UniversityFinder.ApplyFilters takes `currentFilter` from the three categories only. The page could set another value from a button's `data-filter`, which would make the category pass drop every record.
- Directory.FetchUniversities models `response.data` as an absent value or a list of records. Other JSON shapes, such as a non-array value or a record without a string `name`, are not modelled.
- Finder.UniversityFinder.ShowFetched briefly empties the filtered view before filtering again. This keeps the class invariant during the update; the final state is the same as the code's.
