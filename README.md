# What Happened When — verified model of the timeline app's core

"What Happened When" is a single-page React app. The user enters several
subjects (companies, empires, people). The app fetches an encyclopedia
article for each subject and asks a language model, either Google Gemini or
an OpenAI-compatible endpoint, for a merged chronological list of events. It
then shows the events on one horizontal timeline, with one colour per subject
and a filter bar to hide subjects.

This project models in Dafny the rules behind that flow:

- **Session state** (`App`, app.dfy). A class `AppState` holds the
  component's state fields. It covers the generate, back, toggle and
  settings handlers and a settings store modelled as a `map<string,string>`.
  - The search history is recent-first and capped at 50. It is deduplicated
    by the JSON text of the sorted subjects. This key is proved equivalent to
    multiset equality.
  - The hidden-subject set is toggled.
  - Each subject gets a configuration: colour `i % 8`, visible unless hidden.
- **Search form** (`InputArea`, input_area.dfy).
  - A class `InputAreaState` holds the subject tags and the text field: add,
    remove by index, load sample, generate.
  - The suggestion list is built by a loop that keeps the first search of
    each key.
- **Display selection** (`TimelineView`, timeline_view.dfy): the visibility
  filter, the colour lookup with its slate fallback, the top/bottom row rule
  and the "no events visible" placeholder.
- **Both timeline services** (`SourceMaterial`, `GeminiService`,
  `OpenAIService`).
  - The API-key check comes first.
  - A loop builds one source section per subject, with the article text cut
    to the context limit.
  - Each service picks its default model and context limit.
  - An in-place insertion sort orders the returned events by year.
- **Settings dialog** (`ApiKeyModal`, api_key_modal.dfy): a class for the
  form fields, the required-key check on submit, error clearing and the
  submit-disabled condition.
- **Shared helpers.**
  - `Types`: the event record, the palette size and Option/Result.
  - `Strings`: JavaScript `trim`, `toLowerCase`, `join` and the default
    string `sort`.
  - `Seqs`: `Array.prototype.filter` and subsequences.

Inputs the model cannot see become parameters:

- The encyclopedia fetch is a function `string -> Option<WikiArticle>`.
- The language model's parsed reply is an `LlmReply`: the call failed, or
  the reply parsed with or without an `events` field.
- Browser storage is the `storage` map.
- The localised sample searches are the `samples` parameter.
- An absent optional string (`undefined`) is modelled as `""` where the
  source only tests the value for truthiness: the services' `modelName` and
  the string fields of the application and of the settings dialog. Where
  the absent case is passed on as such, it is `None`: the base URL handed
  to the OpenAI-compatible client (the result of `App.EndpointOverride`)
  and the optional model name and base URL of `handleSaveApiKey`.

## Model

| member | source | states |
|---|---|---|
| Strings.Trim | components/ApiKeyModal.tsx:40 | `trim` yields a contiguous piece of the input, empty exactly when the input is all whitespace |
| Strings.TrimStrips | components/ApiKeyModal.tsx:40 | only whitespace is dropped: the result lies between a blank prefix and a blank suffix of the input |
| Strings.TrimEnds | components/ApiKeyModal.tsx:40 | a non-empty trimmed value neither starts nor ends with whitespace |
| Strings.TrimIdempotent | components/ApiKeyModal.tsx:44 | trimming a trimmed value changes nothing |
| Strings.Lower | components/InputArea.tsx:61 | `toLowerCase` keeps the length and lowers each character independently |
| Strings.Join | components/InputArea.tsx:61 | `join` puts the parts in order with one separator between neighbours: no parts give `''`, one part is the result itself, the first part starts the result, and the length is the parts' lengths plus one separator per gap |
| Strings.JoinSnoc | components/InputArea.tsx:61 | appending a part appends the separator and that part; with the empty and one-part cases this fixes the joined string for every list of parts |
| Strings.LessEq | App.tsx:75 | the default sort order on strings puts a prefix first, and otherwise the first differing character decides |
| Strings.LessEqAtFirstDifference | App.tsx:75 | for two strings that agree up to a position and differ there, the first comes first exactly when its character at that position is smaller |
| Strings.LessEqProperPrefix | App.tsx:75 | a string never sorts before one of its proper prefixes |
| Strings.Sort | App.tsx:75 | `[...items].sort()` is a sorted permutation of the items |
| Strings.SortEqualIff | App.tsx:75-76 | two sorted copies are equal iff the inputs hold the same strings with the same multiplicities |
| Seqs.Filter | components/TimelineView.tsx:14-16 | `filter` keeps only passing elements from the input and loses no passing element |
| Seqs.FilterIsSubsequence | components/TimelineView.tsx:14-16 | the filtered list is an order-preserving subsequence of the input |
| Seqs.FilterCount | App.tsx:76 | filtering keeps each passing value exactly as often as it occurs and drops each failing value entirely |
| TimelineView.FindIndex | components/TimelineView.tsx:83 | `findIndex` returns the first position with that name, or -1 exactly when no configuration has it |
| TimelineView.IsVisible | components/TimelineView.tsx:15 | an event is visible iff the first configuration with its entity's name exists and is visible |
| TimelineView.VisibleEvents | components/TimelineView.tsx:14-16 | at most as many events as given; an event is kept iff it is among the events and visible |
| TimelineView.VisibleEventsSpec | components/TimelineView.tsx:14-16 | the visible events are a subsequence of the events; an event is kept iff the first configuration for its entity is visible, so an event with no configuration is dropped; multiplicities are kept |
| TimelineView.EntityColor | components/TimelineView.tsx:18-21 | the colour of the first configuration with that name, or slate when none matches |
| TimelineView.IsTopRow | components/TimelineView.tsx:80-88 | with several configurations, an event of a configured entity is on top exactly when the index of the entity's first configuration is even; with at most one configuration, or for an entity with no configuration, the event is on top exactly when its position in the visible list is even |
| TimelineView.SingleEntityAlternates | components/TimelineView.tsx:80-88 | with at most one configuration, position `i` is on the top row iff `i` is even |
| TimelineView.MultiEntityGroups | components/TimelineView.tsx:82-87 | with several configurations, all events of one configured entity share a row, whatever their position |
| TimelineView.Render | components/TimelineView.tsx:48-54 | the placeholder is shown iff no event is visible; otherwise there is one card per visible event, in order |
| TimelineView.RenderedCards | components/TimelineView.tsx:74-88 | every card comes from the events, belongs to a configured visible entity and carries its colour; with several configurations a card is on top exactly when its entity's configuration index is even (so cards of one entity share a side), and with one configuration the cards alternate starting on top |
| SourceMaterial.Truncate | services/geminiService.ts:32 | `slice(0, limit)` is a prefix of the content of length min(length, limit) |
| SourceMaterial.RenderSection | services/geminiService.ts:31-35 | each subject's block ends with a newline, and an article's block ends with the article text followed by that newline |
| SourceMaterial.RenderSections | services/geminiService.ts:30-36 | the rendered blocks are empty exactly when there is no section |
| SourceMaterial.BuildContext | services/geminiService.ts:29-36 | the loop yields exactly one section per subject, in order: an article section (title, text a prefix within the limit) iff the fetch found one, the placeholder otherwise; the prompt context is the header followed by the rendered sections |
| SourceMaterial.SortByYear | services/geminiService.ts:88 | the in-place sort leaves the array ordered by non-decreasing year and a permutation of its old contents |
| SourceMaterial.SortedEvents | services/geminiService.ts:86-91 | a reply with events yields them sorted by year as a permutation; a reply without events yields `[]` |
| GeminiService.ModelFor | services/geminiService.ts:58 | the caller's model name, or `gemini-2.5-flash` when none is given |
| GeminiService.GenerateTimeline | services/geminiService.ts:5-92 | an empty key fails with the missing-key error before sections are built; a failed call fails; otherwise the request uses the chosen model and a context of one section per subject cut at 1,000,000 characters, sent through the Gemini client, and the result is the sorted events (or `[]`) |
| OpenAIService.ContextLimit | services/openaiService.ts:30 | 1,000,000 exactly when a model name is given, and 1,500,000 for the default model |
| OpenAIService.ModelFor | services/openaiService.ts:65 | the caller's model name; otherwise `qwen-plus` with a non-empty base URL and `gpt-5-mini` without one |
| OpenAIService.GenerateTimeline | services/openaiService.ts:5-82 | same outcome as the Gemini service, with the model-dependent context limit and model choice, and the request goes through an OpenAI-compatible client on the given base URL |
| App.HistoryKeyIff | App.tsx:75-76 | two searches have the same history key iff they name the same subjects with the same multiplicities, in any order |
| App.HistoryKey | App.tsx:75 | the key of a search is its subjects in sorted order, a permutation of them |
| App.OtherSearches | App.tsx:76 | the older entries whose key differs from the new search's, in their old order: a subsequence of the history holding exactly those entries |
| App.UpdateHistory | App.tsx:74-79 | the new search is first, the history holds 1 to 50 entries, and no later entry has the same multiset of subjects |
| App.OtherSearchesByMultiset | App.tsx:76 | dropping entries by key is dropping entries with the same multiset of subjects |
| App.UpdateHistoryTail | App.tsx:76-78 | after the head come the first of the other older searches, in their old order |
| App.UpdateHistoryLength | App.tsx:78 | the new history holds the new search plus as many other older searches as the cap of 50 leaves room for, so a full history stays full |
| App.UpdateHistoryKeepsOrder | App.tsx:76-78 | the surviving older entries are a subsequence of the old history |
| App.UpdateHistoryBelowCap | App.tsx:76-78 | below the cap every older search for other subjects survives; only the colliding entry is removed |
| App.RepeatedSearchDoesNotGrow | App.tsx:75-78 | repeating a search in any order only replaces the head, so the history does not grow |
| App.UpdateHistoryKeepsDistinct | App.tsx:74-79 | a history without two searches for the same subjects keeps that property |
| App.Toggle | App.tsx:93-101 | exactly the toggled name changes membership |
| App.ToggleTwice | App.tsx:93-101 | toggling twice restores the set |
| App.EntityConfigs | App.tsx:104-110 | one configuration per entity, in order: its name, palette colour `i % 8`, visible iff not hidden |
| App.ViewOfEntityConfigs | App.tsx:104-110 | with these configurations an event is visible iff its entity was searched and is not hidden, and is coloured by its entity's first position |
| App.StorageKeysDistinct | App.tsx:51-54 | the four storage keys of one provider are pairwise different |
| App.ApiKeyStorageKey | App.tsx:30 | the key entry of a provider is stored under a name that extends the provider's name |
| App.ModelNameStorageKey | App.tsx:31 | the model name entry likewise |
| App.BaseUrlStorageKey | App.tsx:32 | the base URL entry likewise |
| App.ProviderStorageKeysDistinct | App.tsx:30-32 | the key, model name and base URL entries of one provider are never an entry of another provider or the current-provider entry |
| App.OtherProviderUntouched | App.tsx:43-57 | saving one provider's settings leaves the stored settings of every other provider as they were |
| App.StoredOrEmpty | App.tsx:36-37 | a storage read yields `''` exactly when the entry is missing or empty, and otherwise the stored value |
| App.SavedStorage | App.tsx:46-54 | saving writes exactly the key, provider, model name and base URL entries; every other entry is unchanged |
| App.StartupProvider | App.tsx:26-28 | the stored provider, or `gemini` when none is stored |
| App.StoredCredentials | App.tsx:30-40 | no stored key opens the dialog; otherwise the key, the model name and the base URL are loaded, absent ones as `''` |
| App.StartupAfterSave | App.tsx:25-57 | settings saved with a non-empty key come back at the next startup; a saved empty key makes the next startup ask again |
| App.AppState.constructor | App.tsx:13-23 | the initial state: no events, subjects or history, provider `gemini`, dialog closed |
| App.AppState.LoadSettings | App.tsx:25-41 | the mount effect: pick the provider, then load its settings or open the dialog |
| App.AppState.HandleSaveApiKey | App.tsx:43-57 | adopt the settings, write them to storage (absent model name or URL as `''`) and close the dialog |
| App.AppState.OpenSettings | App.tsx:129 | the settings button opens the dialog and changes nothing else |
| App.AppState.CloseSettings | App.tsx:119 | the dialog's close action closes it and changes nothing else |
| App.EndpointOverride | App.tsx:67 | an empty stored base URL gives no override, any other is passed on unchanged, and the service sees a custom endpoint exactly when the stored URL is non-empty |
| App.AppState.RequestTimeline | App.tsx:64-70 | `openai` uses the OpenAI-compatible service, with its model choice and context limit, through a client on the stored base URL (an empty one standing for none); any other provider uses the Gemini service and client with its own model choice and limit; the call succeeds exactly when a key is set and the reply parsed, a missing key is the missing-key error, and a success carries the sections, the context and the reply's events sorted by year (none when the reply held none) |
| App.AppState.AdoptTimeline | App.tsx:71-79 | a successful generation shows the subjects and the events and records the search; nothing else changes |
| App.AppState.RecordSearch | App.tsx:73-78 | the history becomes the updated history, stays within its cap and free of repeated subject sets; nothing else changes |
| App.AppState.HandleGenerate | App.tsx:59-86 | hidden set cleared and loading over either way; on success the subjects, the sorted events and the updated history are adopted with no error; on failure events, subjects and history stay and the fixed message is set; the history invariant is kept |
| App.AppState.HandleBack | App.tsx:88-91 | events and subjects are cleared; nothing else changes |
| App.AppState.ToggleEntityVisibility | App.tsx:93-101 | the hidden set becomes its toggled copy; nothing else changes |
| InputArea.RemoveAt | components/InputArea.tsx:41-43 | an index in range removes exactly that element and keeps the rest in order; any other index changes nothing |
| InputArea.RemoveAtCount | components/InputArea.tsx:41-43 | removal drops exactly one occurrence of the removed subject |
| InputArea.RemoveAtDistinct | components/InputArea.tsx:41-43 | a list without repeats stays without repeats and loses the removed subject |
| InputArea.SuggestionKey | components/InputArea.tsx:61 | an empty search has the empty key, and a one-subject search is keyed by its lowercased subject |
| InputArea.SuggestionKeyOrderInsensitive | components/InputArea.tsx:61 | the suggestion key ignores the order of the subjects |
| InputArea.SingleSubjectKeyIgnoresCase | components/InputArea.tsx:61 | for one-subject searches the key ignores letter case |
| InputArea.MixedCaseSearchesKeyedApart | components/InputArea.tsx:61 | `["a","B"]` and `["A","b"]` get different keys, because sorting happens before lowercasing |
| InputArea.FirstWithKey | components/InputArea.tsx:60-66 | the first search with a key: None iff no search has it; otherwise a search with that key preceded by none |
| InputArea.FirstOfEachKey | components/InputArea.tsx:57-67 | the loop's result is a subsequence of its input with pairwise different keys; it covers every key, and each entry is the first search with its key, taken in the order in which those first occurrences appear |
| InputArea.FirstOccurrencesKeep | components/InputArea.tsx:61-65 | keeping a search whose key no earlier search has extends the first occurrences, in order, by its position |
| InputArea.DisplaySuggestions | components/InputArea.tsx:55-68 | the same, over the recent searches followed by the samples, with the suggestion key |
| InputArea.InputAreaState.constructor | components/InputArea.tsx:23-24 | the form starts with the default subjects and an empty field |
| InputArea.InputAreaState.SetInputValue | components/InputArea.tsx:102 | typing replaces the field text |
| InputArea.InputAreaState.AddItem | components/InputArea.tsx:33-39 | a non-blank trimmed value not yet listed is appended and the field is cleared; otherwise subjects and field are unchanged; no repeats are introduced |
| InputArea.InputAreaState.HandleKeyDown | components/InputArea.tsx:27-31 | Enter on a non-blank field adds as `addItem` does; anything else changes nothing |
| InputArea.InputAreaState.RemoveItem | components/InputArea.tsx:41-43 | the subject at the index is removed |
| InputArea.InputAreaState.LoadSample | components/InputArea.tsx:51-53 | the subjects become the sample |
| InputArea.InputAreaState.HandleGenerate | components/InputArea.tsx:45-49 | the subjects are handed over iff the list is non-empty |
| ApiKeyModal.ApiKeyForm.constructor | components/ApiKeyModal.tsx:23-27 | the fields start from the initial values with no error |
| ApiKeyModal.ApiKeyForm.SyncProps | components/ApiKeyModal.tsx:29-34 | new initial values overwrite all four fields |
| ApiKeyModal.ApiKeyForm.EditApiKey | components/ApiKeyModal.tsx:98-101 | editing the key replaces it and clears the error |
| ApiKeyModal.ApiKeyForm.SelectProvider | components/ApiKeyModal.tsx:66-87 | the provider buttons set `gemini` or `openai` |
| ApiKeyModal.ApiKeyForm.EditModelName | components/ApiKeyModal.tsx:141 | editing the model name replaces it |
| ApiKeyModal.ApiKeyForm.EditBaseURL | components/ApiKeyModal.tsx:126 | editing the base URL replaces it |
| ApiKeyModal.ApiKeyForm.SubmitDisabled | components/ApiKeyModal.tsx:162 | the save button is disabled iff the key is blank |
| ApiKeyModal.ApiKeyForm.HandleSubmit | components/ApiKeyModal.tsx:38-46 | a blank key sets "API Key is required" and saves nothing; otherwise the trimmed key, the provider and the trimmed model name and base URL are handed over and the error is cleared |
| ApiKeyModal.SubmittedKeyIsTrimmed | components/ApiKeyModal.tsx:44 | a handed-over key is non-empty and has no whitespace at either end |

## Left out

- services/wikiService.ts is not part of this model: the network fetch and the HTML stripping are I/O and DOM work. Their result is the `wiki` parameter.
- The language-model calls and the `JSON.parse` of their replies are foreign calls. Their outcome is the abstract `LlmReply`.
- The prompt's instruction prose and the subject list in it are left out. Only the source-material sections are rendered.
- `Promise.all` and all async sequencing. The model builds the sections one subject after another.
- GeminiService.GenerateTimeline: "before any fetch" is not observable here. The fetch is a pure parameter, so the contract only says that no sections are built on the missing-key path.
- OpenAIService.GenerateTimeline: the same holds for the missing-key path.
- SourceMaterial.SortByYear: the stability of the engine's sort for equal years is not modelled. Only order and permutation are proved.
- The year comparator `a.year - b.year` is read on integers. Non-integer or non-numeric years from the model are not modelled.
- App.AppState.HandleGenerate: the intermediate `isLoading == true` state during the awaited call is not observable in a sequential method. Only its final value is stated.
- components/FilterBar.tsx, the JSX markup, CSS and animations, the wheel-scroll handler and the progress bar are rendering or DOM effects.
- Strings.Lower: only ASCII letters are mapped. Other alphabets, which `toLowerCase` would also map, are left unchanged.
- String lengths and the string sort are by Dafny characters (code points). JavaScript counts and compares UTF-16 code units, which differs only outside the Basic Multilingual Plane.
- The translations module (the i18n file) is not part of this model. The sample searches are the `samples` parameter.
- The dialog's `isOpen` early return: the form handlers are modelled as if the dialog is open.
- `localStorage` is the `storage` map. Browser persistence across sessions is the map being passed to the next `AppState` constructor.
