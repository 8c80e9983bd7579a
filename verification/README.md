# Prompt Manager store — a Dafny model

This project models the core of a browser-extension popup that keeps
short text "prompts" in the extension's local storage. The core is
`PromptStorage` in `js/storage.js`, plus two pure rules of `js/popup.js`.

`PromptStorage` owns an ordered collection of prompt records and a
version counter. The records have `id`, `title`, `content`, `category`,
`createdAt` and `updatedAt`. Its operations are:

- create-or-update of a prompt;
- delete by id;
- listing the distinct categories;
- search by query and category;
- export and import of a `{version, prompts, exportedAt}` document.

The two popup rules are the submit handler, which trims and validates the
form before saving, and the title auto-completion.

The model is functional. The store is `Store(prompts, version)`, and every
storage call is a pure function of it. The generated id
(`crypto.randomUUID()`) and the current time (`new Date().toISOString()`)
are parameters.

Modules:

- `Options` (`options.dfy`): the optional value used for absent keys, an
  unset form attribute and a failed parse.
- `Sequences` (`sequences.dfy`): the order-preserving `Filter` and the
  first-occurrence `Dedup` (what `[...new Set(xs)]` yields). It also holds
  the subsequence, first-index and distinctness notions used to state
  them. The key lemma is `FilterUnique`: the contract of `Filter`
  determines its result.
- `Text` (`text.dfy`): lower-casing, substring search (`includes`) and
  `trim`. The trim uses the exact ECMAScript whitespace and line-terminator
  set.
- `Storage` (`storage.dfy`): `PromptStorage`.
- `Popup` (`popup.dfy`): the submit rule and the suggestion box.
- `Scenarios` (`scenarios.dfy`): one worked scenario. It saves "Greet",
  finds it with "greet", sees the category "chat", then deletes it.

Behaviours of the code worth knowing, all modelled as written:

- **An update does not keep `createdAt`.** The code stores
  `{...prompt, updatedAt}` built from the caller's fields only, and the
  popup passes `{id, title, content, category}`. An updated record
  therefore has no `createdAt`, which the model writes as `None`.
- **Unknown id on update.** The collection is left as it is, and the
  version is still bumped.
- **Category order.** Categories come back in the order of the first
  record carrying each, and the model proves that order.
- **No shape check on import.** Import does not validate the parsed
  document's shape. A parse that throws, or one that yields `null` (whose
  `parsed.prompts` read throws inside the same `try`), returns false and
  writes nothing. Any other successful parse replaces both keys.

## Model

| member | source | states |
|---|---|---|
| Storage.GetPrompts | js/storage.js:7-10 | a missing prompts key reads as an empty collection, a present one as stored |
| Storage.GetCurrentVersion | js/storage.js:76-79 | a missing version key reads as 0, a present one as stored |
| Storage.IncrementVersion | js/storage.js:81-86 | the counter grows by exactly one and the collection is left alone |
| Storage.FreshInstall | js/storage.js:7-27 | on a store with neither key, the first save leaves the counter at 1 |
| Storage.FindIndex | js/storage.js:15 | returns the first position holding the id; returns None exactly when no record holds it |
| Storage.SavePrompt | js/storage.js:12-27 | empty id: exactly one record appended with the fresh id, createdAt equal to updatedAt, earlier records untouched. Non-empty id: same length, only the first record with that id is replaced by the caller's fields plus the new updatedAt, and an unmatched id changes nothing. The counter always goes up by one |
| Storage.SaveKeepsIdsUnique | js/storage.js:12-27 | saving keeps ids unique, provided a create gets an id no record holds |
| Storage.DeletePrompt | js/storage.js:29-34 | no record with the id remains; the rest is an order-preserving subsequence keeping every other record with its multiplicity; an absent id leaves the collection as is; the counter goes up by one |
| Storage.DeleteUnchangedIffAbsent | js/storage.js:29-34 | the collection is unchanged by a delete if and only if no record carries the id |
| Storage.DeleteKeepsIdsUnique | js/storage.js:29-34 | deleting keeps ids unique |
| Storage.SubsequenceKeepsIdsUnique | js/storage.js:31 | any order-preserving selection from a collection with unique ids has unique ids |
| Storage.GetCategories | js/storage.js:36-39 | exactly the non-empty categories in use, no duplicates, ordered by the first record carrying each |
| Storage.SearchPrompts | js/storage.js:41-50 | an order-preserving subsequence of the store; every result meets the condition; every matching record is kept as often as it is stored |
| Storage.SearchMembership | js/storage.js:43-49 | a record is found if and only if it is stored and its title or content contains the query ignoring case (or the query is empty), and its category equals the category argument (or that is empty) |
| Storage.SearchEmptyIffNoMatch | js/storage.js:41-50 | the search comes back empty if and only if no stored record meets the condition |
| Storage.SearchDeterminedByContract | js/storage.js:41-50 | any order-preserving selection of exactly the matching records equals the search result |
| Storage.SearchUnconstrained | js/storage.js:41-50 | an empty query and an empty category return the whole collection in store order |
| Storage.SearchIgnoresQueryCase | js/storage.js:44-46 | searching for a query and for its lower-cased form gives the same result |
| Storage.ExportPrompts | js/storage.js:52-60 | the document carries the current collection, the current counter and the export time |
| Storage.ImportPrompts | js/storage.js:62-74 | true if and only if parsing yielded a document (a throwing parse or `null` gives false); on failure the store is untouched; on success collection and counter are replaced wholesale by the document's |
| Storage.ImportExportRoundTrip | js/storage.js:52-74 | importing an export restores the exported collection and counter, whatever the store held before |
| Storage.VersionCountsMutations | js/storage.js:25-32 | after any sequence of saves and deletes the counter has grown by exactly their number |
| Sequences.Filter | js/storage.js:31 | the result is an order-preserving subsequence of kept elements, each kept element occurring as often as in the input |
| Sequences.FilterUnique | js/storage.js:43-49 | the filter's contract determines its result uniquely |
| Sequences.Dedup | js/storage.js:38 | the result has the same elements as the input and no duplicates |
| Sequences.DedupFirstOccurrenceOrder | js/storage.js:38 | the result lists elements in the order of their first occurrence in the input |
| Sequences.FilterKeepsFirstOccurrenceOrder | js/storage.js:38 | filtering out empty categories keeps the relative order of first occurrences of the others |
| Text.Lower | js/storage.js:45-46 | the result has the input's length and lower-cases each character on its own, mapping A-Z to a-z and leaving every other character as it is |
| Text.Contains | js/storage.js:45-46 | true if and only if the needle occurs as a contiguous block of the haystack |
| Text.Trim | js/popup.js:15-17 | the result is the block of the input left after cutting whitespace from both ends; it is empty if and only if the input is all whitespace |
| Text.TrimIdempotent | js/popup.js:15-17 | trimming a trimmed string changes nothing |
| Popup.DraftOf | js/popup.js:13-18 | the draft's title, content and category are the trimmed form fields; its id is the form's prompt id, and "" exactly when that id is unset or empty |
| Popup.Submit | js/popup.js:13-26 | rejected if and only if the title or the content is blank after trimming, and then the store is unchanged; otherwise the trimmed draft is saved |
| Popup.SubmitWithoutIdCreates | js/popup.js:13-26 | with no prompt id, a valid submit appends one record with the fresh id and the trimmed fields; a blank category is stored as "" |
| Popup.CategoryNeverBlocksSubmit | js/popup.js:17-23 | the category field never decides whether a submit is accepted |
| Popup.SavedFieldsAreTrimmed | js/popup.js:13-23 | an accepted submit saves a non-empty title and content with no surrounding whitespace |
| Popup.ShowAutoComplete | js/popup.js:51-77 | a non-empty list shows the box with its first five entries; an empty list only hides the box |
| Popup.OnTitleInput | js/popup.js:41-48 | under two characters the box is untouched; from two on, the box is shown if and only if some stored record matches the query, and it holds at most five titles, each of a matching record |
| Popup.SuggestionsAreFirstFiveMatches | js/popup.js:44-64 | the shown entries are exactly the first five titles of the search for the query in every category, in store order |
| Popup.SelectSuggestion | js/popup.js:68-73 | choosing an entry puts its text in the title field and hides the box |
| Popup.Dismiss | js/popup.js:80-87 | a click outside hides the box and keeps its entries |
| Scenarios.GreetIsFound | js/storage.js:41-50 | a saved prompt titled "Greet" is found by the query "greet" |
| Scenarios.GreetCategory | js/storage.js:36-39 | after that save the only category listed is "chat" |
| Scenarios.GreetIsDeleted | js/storage.js:29-39 | deleting it leaves an empty collection, no categories and a counter two above the start |

## Left out

- Asynchronous `chrome.storage.local` access is not modelled. Each call is one atomic transition. The source writes the version before the collection in two separate writes (js/storage.js:25-26), and the window between them is not modelled.
- Storage read/write failures are not modelled. So the popup's catch branch (js/popup.js:31-34) is left out.
- `crypto.randomUUID()` is not modelled; the id is a parameter. Its freshness is a hypothesis of `Storage.SaveKeepsIdsUnique`, not something proved.
- `new Date().toISOString()` is not modelled; the time is a parameter. So "updatedAt strictly advances" is not stated.
- `JSON.stringify` and `JSON.parse` are not modelled. Export yields the document value. Import takes the parse outcome, with `None` for a parse that throws.
- Storage.ImportPrompts: a parsed document that lacks `version` or `prompts`, or holds values of other types, is not modelled. Apart from `null`, the source writes such values unchecked, and the model covers only well-shaped documents. The model's `None` stands both for a parse that throws and for a parse that yields `null`.
- Text.Lower: maps only the ASCII letters A-Z, whereas JavaScript's `toLowerCase` applies full Unicode case mapping. Search is therefore case-insensitive only for ASCII letters in the model.
- Popup.OnTitleInput: measures the query in Unicode scalar values. JavaScript's `length` counts UTF-16 code units, so the two differ for characters outside the Basic Multilingual Plane.
- The version counter is an unbounded integer. JavaScript numbers lose integer precision above 2^53, and non-numeric or falsy stored values (`NaN`, `null`) are not modelled.
- Overlapping asynchronous `input` events of the title field are not modelled.
- Popup.ShowAutoComplete: entries are modelled as plain-text titles. The source writes titles into `innerHTML` unescaped and reads the selected entry back as `textContent`, so a title holding HTML markup or entities is outside the model: `a&amp;b` would show and select as `a&b`, and a title containing `</div><div class="suggestion">` would add entries beyond five. The same holds for `Popup.OnTitleInput` and `Popup.SelectSuggestion`.
- The DOM work of the popup is not modelled: creating the suggestion box, writing titles into `innerHTML`, hiding the modal and resetting the form after a save.
- `js/ui.js` is not part of this model. It covers list rendering, the category drop-down, the edit modal, confirmation dialogs, file download and upload, and the theme toggle. Its second, untrimmed submit listener (js/ui.js:48-51) is excluded too, so the validation properties hold for the popup.js handler only.
- `generate-icons.js` is a build-time asset script with no runtime logic, and is left out.
