# Autocomplete and dropdown widget for the lending form

A Dafny model of the client-side script `src/main/webapp/library.js`. The script decorates
the book and borrower inputs of a book-lending form once their candidate strings have
arrived. It does one of three things:

- **locks** the input when `extractData` throws: the payload is not JSON, is not an array, or has an entry the extractor cannot read;
- **replaces** it with a native `<select>` when there are 1 to 9 candidates;
- otherwise **wires an autocomplete popup**. The popup is a "searchbox" container placed
  under the field. It lists at most five candidates that contain the typed text.

The model has six modules:

- `Wrappers` (`wrappers.dfy`): `Option`, for values the script tests against null or undefined.
- `Suggestions` (`suggestions.dfy`): the suggestion filter.
  - `Includes` is `String.prototype.includes`: case-sensitive substring containment.
  - `Matches` is `data.filter(...)`.
  - `Filter` is the filter followed by `.slice(0, 5)`.
  - `AddFilteredData` is the loop that appends the suggestions to a list.
  - The lemmas show four things. The matches are a subsequence of the data. They are the
    only subsequence that keeps every matching occurrence and nothing else. Every item
    that contains the query is a candidate. The suggestions are the earliest matches.
- `Page` (`page.dfy`): the input element as a class with `value`, `placeholder` and
  `disabled`, plus `lockInput`.
- `Dropdown` (`dropdown.dfy`): the option list `addDropdown` builds, and the method that
  builds it with a loop. The lemmas show that the user can pick exactly the items, in
  order. The only preselected option is the hidden "Choose here" placeholder, and it
  cannot be picked.
- `Popup` (`popup.dfy`): the popup controller `AutoComplete`.
  - `searchbox` is `None` when the container `id + "_searchbox"` is absent. Otherwise it
    holds the texts listed in the container.
  - Its methods are the event handlers: keyup or click on the field, Escape keydown, blur,
    a click anywhere on the page, and a click on a listed item.
  - `Valid()` is the invariant every handler keeps: an open box lists
    `Filter(data, query)` for the non-empty text it was opened with.
  - Element lookups go through the id conventions `id + "_searchbox"` and
    `id + "_searchlist"`.
- `Decorator` (`decorator.dfy`): the three-way decision of `betterUserExperienceForInput`,
  and the method that applies it to a field.

Consequences of the code as written:

- **An empty data array gets the autocomplete, not a locked field.** The lock branch tests
  `receivedData == null`, and an empty array is not null. The dropdown branch needs
  `length > 0`.
- **An open searchbox is never re-filtered.** When the box already exists,
  `openAutoComplete` fills a new list but never attaches it. The items shown are fixed
  when the box is created (`AutoComplete.OpenAutoComplete`).
- **Every click on the page closes the searchbox.** The outside-click handler compares the
  target with the element whose id is `id + "searchbox"`, without the underscore. No
  element has that id, so the comparison is always unequal. This includes a click on the
  box itself (`AutoComplete.OnDocumentClick`, `OwnIdsDistinct`).
- **Matching is by substring anywhere in the text.** Filtering by "D" keeps "Moby Dick"
  (capital D in "Dick") as well as "Dune" and "Dracula" (`CapitalInsideTitleMatches`).
- **A field with no `name` attribute gives a dropdown named `"null"`.** `getAttribute`
  returns null, and `setAttribute` turns null into the string "null" (`NameAttribute`).

## Model

| member | source | states |
|---|---|---|
| `Suggestions.Includes` | src/main/webapp/library.js:175 | `text.includes(q)`: q is a prefix of text or of one of its suffixes. The empty query occurs in every text, and a text shorter than q never includes it. |
| `Suggestions.IncludesHasOccurrence` | src/main/webapp/library.js:175 | A text that includes q has q at some position: the returned index is an occurrence. |
| `Suggestions.OccurrenceIncludes` | src/main/webapp/library.js:175 | An occurrence of q at any position makes the text include q. |
| `Suggestions.IncludesIffOccurs` | src/main/webapp/library.js:175 | `Includes(text, q)` holds exactly when `q` occurs in `text` as a contiguous run at some position, so it is substring containment. |
| `Suggestions.Matches` | src/main/webapp/library.js:174-175 | The matches are no more than the data, and every match contains the typed text. |
| `Suggestions.Filter` | src/main/webapp/library.js:173-176 | The suggestions number at most 5, and each contains the typed text. They are a prefix of the matches, of length min(5, number of matches). |
| `Suggestions.MatchesIsSubsequence` | src/main/webapp/library.js:174-175 | The matches keep the data's relative order: they form a subsequence of the data. |
| `Suggestions.MatchesCounts` | src/main/webapp/library.js:175 | Each string occurs among the matches as often as in the data if it contains the query, and never otherwise. |
| `Suggestions.MatchesUnique` | src/main/webapp/library.js:174-175 | Any subsequence of the data that keeps every matching occurrence and nothing else equals `Matches`. |
| `Suggestions.MatchingItemIsCandidate` | src/main/webapp/library.js:175 | A data item that contains the query is among the matches. This includes an item that starts with the query. |
| `Suggestions.MatchesAppend` | src/main/webapp/library.js:175 | Filtering a concatenation gives the concatenation of the filtered parts. |
| `Suggestions.FilterIsSubsequence` | src/main/webapp/library.js:174-176 | The suggestions are a subsequence of the data, and each of them is a data item. |
| `Suggestions.FilterIgnoresLaterData` | src/main/webapp/library.js:174-176 | Once a prefix of the data holds five matches, later data never changes the suggestions: they are the earliest matches. |
| `Suggestions.FewMatchesAllShown` | src/main/webapp/library.js:174-176 | With at most five matches, every matching data item is suggested. |
| `Suggestions.CapitalInsideTitleMatches` | src/main/webapp/library.js:174-176 | Filtering ["Moby Dick", "Dune", "Dracula"] by "D" keeps all three, in order. |
| `Suggestions.AddFilteredData` | src/main/webapp/library.js:172-184 | The list is returned with the suggestions appended in order: at most 5 new entries, each containing the typed text. |
| `Page.InputField.LockInput` | src/main/webapp/library.js:190-194 | The placeholder becomes "locked - no data", the field becomes disabled, and its text is kept. |
| `Dropdown.DropdownOptions` | src/main/webapp/library.js:69-79 | One option per item, value and text both the item, then the "Choose here" option that is selected, disabled and hidden: n+1 options with the placeholder last. |
| `Dropdown.NameAttribute` | src/main/webapp/library.js:61-66 | The select's name attribute: the field's name, or the string "null" when the field has none, as `setAttribute("name", null)` stores it. |
| `Dropdown.AddDropdown` | src/main/webapp/library.js:59-82 | The select keeps the field's id and name. It has n+1 options: option k has value and text items[k], and the placeholder comes last. |
| `Dropdown.DropdownOffersItems` | src/main/webapp/library.js:69-79 | The values a user can pick from the dropdown are exactly the items, in the given order. |
| `Dropdown.DropdownSelection` | src/main/webapp/library.js:74-79 | Of the n+1 options, only the last ("Choose here") is selected, only it is disabled, and only it is hidden. |
| `Popup.SearchBoxId` | src/main/webapp/library.js:52-57 | `SearchBoxId(id)` is `id + "_searchbox"`: the field id followed by ten more characters. |
| `Popup.SearchListId` | src/main/webapp/library.js:42-46 | `SearchListId(id)` is `id + "_searchlist"`: the field id followed by eleven more characters. |
| `Popup.OutsideClickLookupId` | src/main/webapp/library.js:117 | `OutsideClickLookupId(id)` is `id + "searchbox"`, without the underscore: the field id followed by nine more characters. |
| `Popup.SearchIdsInjective` | src/main/webapp/library.js:42-57 | Different field ids give different container ids and different list ids. |
| `Popup.OwnIdsDistinct` | src/main/webapp/library.js:116-120 | The field, container and list ids are pairwise distinct. The id the outside-click handler looks up is none of them. |
| `Popup.AutoComplete.ElementById` | src/main/webapp/library.js:33 | `document.getElementById` over the field's own elements: it finds the input by the field id, and the container and the list by their ids exactly when the searchbox is open. |
| `Popup.AutoComplete.constructor` | src/main/webapp/library.js:90-124 | Wiring the popup leaves the searchbox absent and the invariant established. |
| `Popup.AutoComplete.ShownSuggestions` | src/main/webapp/library.js:140-152 | An open searchbox lists at most 5 data items, in data order, each containing the text it was opened with. |
| `Popup.AutoComplete.DeleteSearchBox` | src/main/webapp/library.js:32-37 | Afterwards the searchbox is absent. When it was already absent nothing changes, so a second call is a no-op. |
| `Popup.AutoComplete.OpenAutoComplete` | src/main/webapp/library.js:126-155 | An Escape key changes nothing, and empty text closes the box. Non-empty text with no box creates one listing `Filter(data, text)`. With a box already open, it is left unchanged. |
| `Popup.AutoComplete.OnKeyDown` | src/main/webapp/library.js:98-102 | Escape closes the searchbox, and any other key leaves it as it was. |
| `Popup.AutoComplete.OnBlur` | src/main/webapp/library.js:104-114 | Blur with no related target changes nothing. Blur to any element closes the searchbox. |
| `Popup.AutoComplete.OnDocumentClick` | src/main/webapp/library.js:116-120 | A click anywhere, on the searchbox itself included, closes the searchbox. |
| `Popup.AutoComplete.OnItemClick` | src/main/webapp/library.js:20-27 | A click on an item listed in the open searchbox sets the field to that item's text and closes the searchbox. The new value is a data item containing the text the box was opened with. |
| `Decorator.Decide` | src/main/webapp/library.js:246-255 | Absent data locks. 1 to 9 items give a dropdown. An empty array or 10 or more items give the autocomplete. |
| `Decorator.BetterUserExperienceForInput` | src/main/webapp/library.js:246-255 | The field is locked, replaced by the dropdown of the items, or given a fresh controller with the searchbox closed, as `Decide` says. Nothing else about the field changes. |

## Left out

- `talk` and the page-load requests for books and borrowers (`library.js:202-218`, `235-244`) are left out: network I/O and promises. The decorator takes the payload's outcome as its input.
- `extractData` (`library.js:225-232`) is left out: `JSON.parse`, the extractor and `Array.prototype.sort` are library calls. When `extractData` throws (the payload is not JSON, is not an array, or has an entry the extractor cannot read) the input is `None`; otherwise it is the already sorted `seq<string>`. The model assumes every extracted value is a string: records that lack the field or carry a non-string in it, which give `undefined` or number items, are not represented.
- DOM node construction and placement are left out. This covers `createItemForList`'s `data` attribute and text node, the `searchbox` class, `insertAdjacentElement`, and `addDropdown`'s removal of the field and appending of the select as the parent's last child. A listed item is modelled by its text, and the dropdown by the `SelectElement` value that replaces the field.
- Listener registration and event dispatch are left out. Each handler is one atomic method, and the caller orders them. In a browser, a click on the field runs `OpenAutoComplete` and then bubbles to `OnDocumentClick`, which closes the box again. A click on an item likewise bubbles after `OnItemClick`.
- `AutoComplete.OnItemClick`: the field receives the item's data string, while the page writes the `<li>`'s rendered `innerText`. Rendering collapses whitespace and applies any CSS text transform, so the two agree only for items without leading, trailing or repeated whitespace.
- User typing is not a handler of the script. The caller models it by assigning `field.value` between events.
- `AutoComplete.ElementById` sees only the field's own elements. Another element on the page that happens to carry the id `id + "searchbox"` is not modelled. One example is the container of a field whose id is `id` without its trailing underscore.
- Several decorated fields on one page, each with its own page-wide listeners, are modelled as independent controllers.
- `integration_tests` and `unit_tests` (`library.js:259-306`) are manual harnesses and are left out. Their id assertions are what `SearchBoxId` and `SearchListId` state.
