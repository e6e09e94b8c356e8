/** The application's session state: the generated timeline, the search
    history, the hidden entities and the settings kept in browser storage. */
module App {
  import opened Types
  import opened Seqs
  import Strings
  import TimelineView
  import opened SourceMaterial
  import GeminiService
  import OpenAIService

  // ---------------------------------------------------------------------
  // Search history

  const HistoryLimit: nat := 50

  /** `JSON.stringify([...items].sort())`. The serialisation is injective
      on arrays of strings, so comparing keys is comparing sorted copies. */
  function HistoryKey(items: seq<string>): (key: seq<string>)
    ensures Strings.Sorted(key) && multiset(key) == multiset(items)
  {
    Strings.Sort(items)
  }

  /** Two searches collide in the history exactly when they name the same
      subjects the same number of times, in whatever order. */
  lemma HistoryKeyIff(a: seq<string>, b: seq<string>)
    ensures HistoryKey(a) == HistoryKey(b) <==> multiset(a) == multiset(b)
  {
    Strings.SortEqualIff(a, b);
  }

  /** The older entries that survive a new search: those whose key differs. */
  function OtherSearches(history: seq<seq<string>>, items: seq<string>): (r: seq<seq<string>>)
    ensures |r| <= |history|
    ensures forall e :: e in r <==> e in history && HistoryKey(e) != HistoryKey(items)
    ensures IsSubsequence(r, history)
  {
    var key := HistoryKey(items);
    var keep := entry => HistoryKey(entry) != key;
    FilterIsSubsequence(history, keep);
    Filter(history, keep)
  }

  /** `[items, ...filtered].slice(0, 50)`: the new search first, then the
      older entries whose key differs, at most 50 in all. */
  function UpdateHistory(history: seq<seq<string>>, items: seq<string>): (r: seq<seq<string>>)
    ensures 1 <= |r| <= HistoryLimit
    ensures r[0] == items
    ensures forall j :: 1 <= j < |r| ==> multiset(r[j]) != multiset(items)
  {
    var all := [items] + OtherSearches(history, items);
    var r := if |all| <= HistoryLimit then all else all[..HistoryLimit];
    assert forall j :: 1 <= j < |r| ==> r[j] in OtherSearches(history, items);
    HistoryKeysDiffer(r, items);
    r
  }

  lemma HistoryKeysDiffer(r: seq<seq<string>>, items: seq<string>)
    requires forall j :: 1 <= j < |r| ==> HistoryKey(r[j]) != HistoryKey(items)
    ensures forall j :: 1 <= j < |r| ==> multiset(r[j]) != multiset(items)
  {
    forall j | 1 <= j < |r| ensures multiset(r[j]) != multiset(items) {
      HistoryKeyIff(r[j], items);
    }
  }

  /** The test "names other subjects than `items`", as a multiset comparison. */
  function DiffersFrom(items: seq<string>): seq<string> -> bool {
    entry => multiset(entry) != multiset(items)
  }

  /** Dropping by key is dropping by multiset of subjects. */
  lemma OtherSearchesByMultiset(history: seq<seq<string>>, items: seq<string>)
    ensures OtherSearches(history, items) == Filter(history, DiffersFrom(items))
  {
    var key := HistoryKey(items);
    var byKey := entry => HistoryKey(entry) != key;
    forall e | e in history ensures byKey(e) == DiffersFrom(items)(e) {
      HistoryKeyIff(e, items);
    }
    FilterCongruent(history, byKey, DiffersFrom(items));
  }

  /** Cutting `[x] + rest` to `cap` entries keeps `x` and the first of `rest`. */
  lemma CappedCons<T>(x: T, rest: seq<T>, cap: nat)
    requires cap >= 1
    ensures var all := [x] + rest;
      var r := if |all| <= cap then all else all[..cap];
      |r| == Min(1 + |rest|, cap) && r[1..] == rest[..|r| - 1]
  {
    var all := [x] + rest;
    if |all| > cap {
      assert all[..cap][1..] == rest[..cap - 1];
    } else {
      assert all[1..] == rest;
    }
  }

  /** The new history holds the new search and as many of the other older
      searches as the cap leaves room for. */
  lemma UpdateHistoryLength(history: seq<seq<string>>, items: seq<string>)
    ensures |UpdateHistory(history, items)| == Min(1 + |OtherSearches(history, items)|, HistoryLimit)
  {
    CappedCons(items, OtherSearches(history, items), HistoryLimit);
  }

  /** The older entries after the head are the first of the other older
      searches, in their old order. */
  lemma UpdateHistoryTail(history: seq<seq<string>>, items: seq<string>)
    ensures var r := UpdateHistory(history, items);
      r[1..] == OtherSearches(history, items)[..|r| - 1]
  {
    CappedCons(items, OtherSearches(history, items), HistoryLimit);
  }

  /** The survivors keep their old relative order: the new history after
      its head is a subsequence of the old history. */
  lemma UpdateHistoryKeepsOrder(history: seq<seq<string>>, items: seq<string>)
    ensures IsSubsequence(UpdateHistory(history, items)[1..], history)
  {
    var r := UpdateHistory(history, items);
    UpdateHistoryTail(history, items);
    SubsequencePrefix(OtherSearches(history, items), history, |r| - 1);
  }

  /** Below the cap only the colliding entry is dropped: every older search
      for other subjects survives. */
  lemma UpdateHistoryBelowCap(history: seq<seq<string>>, items: seq<string>)
    requires |history| < HistoryLimit
    ensures forall e :: e in history && multiset(e) != multiset(items) ==> e in UpdateHistory(history, items)[1..]
  {
    var r := UpdateHistory(history, items);
    var others := OtherSearches(history, items);
    UpdateHistoryTail(history, items);
    UpdateHistoryLength(history, items);
    assert r[1..] == others;
    forall e | e in history && multiset(e) != multiset(items) ensures e in r[1..] {
      HistoryKeyIff(e, items);
    }
  }

  /** Repeating a search, in any order, replaces its entry at the head and
      leaves the rest alone: the history does not grow. */
  lemma RepeatedSearchDoesNotGrow(history: seq<seq<string>>, a: seq<string>, b: seq<string>)
    requires multiset(a) == multiset(b)
    ensures UpdateHistory(UpdateHistory(history, a), b) == [b] + UpdateHistory(history, a)[1..]
    ensures |UpdateHistory(UpdateHistory(history, a), b)| == |UpdateHistory(history, a)|
  {
    var once := UpdateHistory(history, a);
    HistoryKeyIff(a, b);
    var keep := entry => HistoryKey(entry) != HistoryKey(b);
    forall e | e in once[1..] ensures keep(e) {
      var j :| 1 <= j < |once| && once[j] == e;
      HistoryKeyIff(e, b);
    }
    FilterKeepsAll(once[1..], keep);
    FilterAppend([once[0]], once[1..], keep);
    assert once == [once[0]] + once[1..];
    assert Filter([once[0]], keep) == [];
    assert OtherSearches(once, b) == once[1..];
  }

  /** No two entries of a history name the same multiset of subjects. */
  ghost predicate DistinctSearches(history: seq<seq<string>>) {
    forall i, j :: 0 <= i < j < |history| ==> multiset(history[i]) != multiset(history[j])
  }

  /** Updating keeps the entries pairwise distinct. */
  lemma UpdateHistoryKeepsDistinct(history: seq<seq<string>>, items: seq<string>)
    requires DistinctSearches(history)
    ensures DistinctSearches(UpdateHistory(history, items))
  {
    var r := UpdateHistory(history, items);
    UpdateHistoryKeepsOrder(history, items);
    var idx :| Embeds(idx, r[1..], history);
    forall i, j | 0 <= i < j < |r| ensures multiset(r[i]) != multiset(r[j]) {
      if i > 0 {
        assert r[i] == r[1..][i - 1] == history[idx[i - 1]];
        assert r[j] == r[1..][j - 1] == history[idx[j - 1]];
      }
    }
  }

  // ---------------------------------------------------------------------
  // Hidden entities and entity configurations

  /** The copy of the hidden set with `name` flipped: exactly that name
      changes membership. */
  function Toggle(hidden: set<string>, name: string): (r: set<string>)
    ensures name in r <==> name !in hidden
    ensures r - {name} == hidden - {name}
  {
    if name in hidden then hidden - {name} else hidden + {name}
  }

  /** Toggling twice gives back the original set. */
  lemma ToggleTwice(hidden: set<string>, name: string)
    ensures Toggle(Toggle(hidden, name), name) == hidden
  {
  }

  /** `entities.map((name, index) => ...)`: one configuration per entity, in
      order, with the palette colour `index % 8`, visible unless hidden. */
  function EntityConfigs(entities: seq<string>, hidden: set<string>): (r: seq<EntityConfig>)
    ensures |r| == |entities|
    ensures forall i :: 0 <= i < |r| ==> r[i].name == entities[i]
    ensures forall i :: 0 <= i < |r| ==> r[i].color == Palette(i % PaletteSize)
    ensures forall i :: 0 <= i < |r| ==> (r[i].isVisible <==> entities[i] !in hidden)
  {
    if entities == [] then []
    else
      var n := |entities| - 1;
      EntityConfigs(entities[..n], hidden) + [EntityConfig(entities[n], Palette(n % PaletteSize), entities[n] !in hidden)]
  }

  /** With the App's configurations, the view shows an event exactly when its
      entity was searched for and is not hidden, in the colour of the entity's
      first position. */
  lemma ViewOfEntityConfigs(entities: seq<string>, hidden: set<string>, e: TimelineEvent)
    ensures TimelineView.IsVisible(EntityConfigs(entities, hidden), e) <==> e.entity in entities && e.entity !in hidden
    ensures var k := TimelineView.FindIndex(EntityConfigs(entities, hidden), e.entity);
      0 <= k ==> TimelineView.EntityColor(EntityConfigs(entities, hidden), e.entity) == Palette(k % PaletteSize)
  {
    var configs := EntityConfigs(entities, hidden);
    var k := TimelineView.FindIndex(configs, e.entity);
    if e.entity in entities {
      var i :| 0 <= i < |entities| && entities[i] == e.entity;
      assert configs[i].name == e.entity;
      assert 0 <= k && entities[k] == e.entity;
    } else {
      assert k == -1;
    }
  }

  // ---------------------------------------------------------------------
  // Settings in browser storage

  const ProviderStorageKey := "timeline_provider"

  /** Each provider keeps its own key, model name and base URL, under
      storage keys that start with the provider's name. */
  function ApiKeyStorageKey(provider: string): (key: string)
    ensures provider < key
  {
    provider + "_api_key"
  }

  function ModelNameStorageKey(provider: string): (key: string)
    ensures provider < key
  {
    provider + "_model_name"
  }

  function BaseUrlStorageKey(provider: string): (key: string)
    ensures provider < key
  {
    provider + "_base_url"
  }

  /** The four storage keys of one provider never coincide. */
  lemma StorageKeysDistinct(provider: string)
    ensures ApiKeyStorageKey(provider) != ProviderStorageKey
    ensures ApiKeyStorageKey(provider) != ModelNameStorageKey(provider)
    ensures ApiKeyStorageKey(provider) != BaseUrlStorageKey(provider)
    ensures ProviderStorageKey != ModelNameStorageKey(provider)
    ensures ProviderStorageKey != BaseUrlStorageKey(provider)
    ensures ModelNameStorageKey(provider) != BaseUrlStorageKey(provider)
  {
    var n := |provider|;
    assert ApiKeyStorageKey(provider)[n + 1] == 'a';
    assert ModelNameStorageKey(provider)[n + 1] == 'm';
    assert BaseUrlStorageKey(provider)[n + 1] == 'b';
    assert ApiKeyStorageKey(provider)[n + 7] == 'y';
    assert ModelNameStorageKey(provider)[n + 10] == 'e';
    assert BaseUrlStorageKey(provider)[n + 8] == 'l';
  }

  /** The settings keys of two different providers never coincide, nor with
      the key of the current provider. */
  lemma ProviderStorageKeysDistinct(p: string, q: string)
    requires p != q
    ensures ApiKeyStorageKey(q) !in {ApiKeyStorageKey(p), ProviderStorageKey, ModelNameStorageKey(p), BaseUrlStorageKey(p)}
    ensures ModelNameStorageKey(q) !in {ApiKeyStorageKey(p), ProviderStorageKey, ModelNameStorageKey(p), BaseUrlStorageKey(p)}
    ensures BaseUrlStorageKey(q) !in {ApiKeyStorageKey(p), ProviderStorageKey, ModelNameStorageKey(p), BaseUrlStorageKey(p)}
  {
    var api, model, base := ApiKeyStorageKey(q), ModelNameStorageKey(q), BaseUrlStorageKey(q);
    // The same kind of key for two providers: the provider is the prefix
    // before the common suffix.
    assert api[..|q|] == q && ApiKeyStorageKey(p)[..|p|] == p;
    assert model[..|q|] == q && ModelNameStorageKey(p)[..|p|] == p;
    assert base[..|q|] == q && BaseUrlStorageKey(p)[..|p|] == p;
    // Keys of different kinds: the last characters differ.
    assert api[|api| - 1] == 'y' && ApiKeyStorageKey(p)[|p| + 7] == 'y';
    assert model[|model| - 1] == 'e' && ModelNameStorageKey(p)[|p| + 10] == 'e';
    assert base[|base| - 1] == 'l' && BaseUrlStorageKey(p)[|p| + 8] == 'l';
    assert ProviderStorageKey[16] == 'r';
  }

  /** `value || ''` for a storage read: a missing entry reads as empty. */
  function StoredOrEmpty(storage: map<string, string>, key: string): (value: string)
    ensures value == "" <==> key !in storage || storage[key] == ""
    ensures value != "" ==> key in storage && storage[key] == value
  {
    if key in storage then storage[key] else ""
  }

  /** The storage after saving settings: the provider's key, model name and
      base URL and the current provider are written, nothing else changes. */
  function SavedStorage(storage: map<string, string>, apiKey: string, provider: string,
                        modelName: string, baseURL: string): (r: map<string, string>)
    ensures r.Keys == storage.Keys + {ApiKeyStorageKey(provider), ProviderStorageKey,
                                      ModelNameStorageKey(provider), BaseUrlStorageKey(provider)}
    ensures r[ApiKeyStorageKey(provider)] == apiKey
    ensures r[ProviderStorageKey] == provider
    ensures r[ModelNameStorageKey(provider)] == modelName
    ensures r[BaseUrlStorageKey(provider)] == baseURL
    ensures forall k :: k in storage && k !in {ApiKeyStorageKey(provider), ProviderStorageKey,
                                               ModelNameStorageKey(provider), BaseUrlStorageKey(provider)}
                        ==> r[k] == storage[k]
  {
    StorageKeysDistinct(provider);
    storage[ApiKeyStorageKey(provider) := apiKey][ProviderStorageKey := provider]
           [ModelNameStorageKey(provider) := modelName][BaseUrlStorageKey(provider) := baseURL]
  }

  /** The provider chosen at startup: the stored one, or "gemini" when none
      (or an empty one) is stored. */
  function StartupProvider(storage: map<string, string>): (provider: string)
    ensures provider != ""
    ensures ProviderStorageKey in storage && storage[ProviderStorageKey] != "" ==> provider == storage[ProviderStorageKey]
    ensures ProviderStorageKey !in storage || storage[ProviderStorageKey] == "" ==> provider == "gemini"
  {
    var stored := StoredOrEmpty(storage, ProviderStorageKey);
    if stored != "" then stored else "gemini"
  }

  datatype Credentials = Credentials(apiKey: string, modelName: string, baseURL: string)

  /** The provider's stored settings, or None when no (or an empty) key is
      stored, in which case the settings dialog is opened instead. */
  function StoredCredentials(storage: map<string, string>, provider: string): (c: Option<Credentials>)
    ensures c.None? <==> StoredOrEmpty(storage, ApiKeyStorageKey(provider)) == ""
    ensures c.Some? ==> c.value.apiKey == storage[ApiKeyStorageKey(provider)] && c.value.apiKey != ""
    ensures c.Some? ==> c.value.modelName == StoredOrEmpty(storage, ModelNameStorageKey(provider))
    ensures c.Some? ==> c.value.baseURL == StoredOrEmpty(storage, BaseUrlStorageKey(provider))
  {
    var key := StoredOrEmpty(storage, ApiKeyStorageKey(provider));
    if key == "" then None
    else Some(Credentials(key, StoredOrEmpty(storage, ModelNameStorageKey(provider)),
                          StoredOrEmpty(storage, BaseUrlStorageKey(provider))))
  }

  /** Saved settings come back at the next startup; a saved empty key makes
      the next startup ask for a key. */
  lemma StartupAfterSave(storage: map<string, string>, apiKey: string, provider: string,
                         modelName: string, baseURL: string)
    requires provider != ""
    ensures var saved := SavedStorage(storage, apiKey, provider, modelName, baseURL);
      && StartupProvider(saved) == provider
      && StoredCredentials(saved, provider) == if apiKey == "" then None else Some(Credentials(apiKey, modelName, baseURL))
  {
  }

  /** Saving one provider's settings leaves every other provider's stored
      settings as they were. */
  lemma OtherProviderUntouched(storage: map<string, string>, apiKey: string, p: string,
                               modelName: string, baseURL: string, q: string)
    requires p != q
    ensures StoredCredentials(SavedStorage(storage, apiKey, p, modelName, baseURL), q) == StoredCredentials(storage, q)
  {
    var saved := SavedStorage(storage, apiKey, p, modelName, baseURL);
    ProviderStorageKeysDistinct(p, q);
    assert StoredOrEmpty(saved, ApiKeyStorageKey(q)) == StoredOrEmpty(storage, ApiKeyStorageKey(q));
    assert StoredOrEmpty(saved, ModelNameStorageKey(q)) == StoredOrEmpty(storage, ModelNameStorageKey(q));
    assert StoredOrEmpty(saved, BaseUrlStorageKey(q)) == StoredOrEmpty(storage, BaseUrlStorageKey(q));
  }

  // ---------------------------------------------------------------------
  // The component state

  const GenerateFailedMessage := "Failed to generate timeline. Please check your API key and try again."

  /** `baseURL || undefined`: the stored base URL handed to the
      OpenAI-compatible client, an empty one standing for no override. */
  function EndpointOverride(baseURL: string): (o: Option<string>)
    ensures o.None? <==> baseURL == ""
    ensures o.Some? ==> o.value == baseURL
    ensures OpenAIService.HasCustomEndpoint(o) <==> baseURL != ""
  {
    if baseURL == "" then None else Some(baseURL)
  }

  class AppState {
    var events: seq<TimelineEvent>
    var entities: seq<string>
    var hiddenEntities: set<string>
    var isLoading: bool
    var error: Option<string>
    var searchHistory: seq<seq<string>>
    var apiKey: string
    var provider: string
    var modelName: string
    var baseURL: string
    var isApiKeyModalOpen: bool
    var storage: map<string, string>

    /** The history is capped and holds no two searches for the same subjects. */
    ghost predicate Valid()
      reads this
    {
      |searchHistory| <= HistoryLimit && DistinctSearches(searchHistory)
    }

    /** The initial state, over whatever the browser storage holds. */
    constructor (storage: map<string, string>)
      ensures Valid()
      ensures events == [] && entities == [] && hiddenEntities == {} && !isLoading && error == None
      ensures searchHistory == [] && apiKey == "" && provider == "gemini" && modelName == "" && baseURL == ""
      ensures !isApiKeyModalOpen && this.storage == storage
    {
      events := [];
      entities := [];
      hiddenEntities := {};
      isLoading := false;
      error := None;
      searchHistory := [];
      apiKey := "";
      provider := "gemini";
      modelName := "";
      baseURL := "";
      isApiKeyModalOpen := false;
      this.storage := storage;
    }

    /** The mount effect: pick the provider, then load its settings, or open
      the key dialog when no key is stored. */
    method LoadSettings()
      modifies this
      ensures provider == StartupProvider(storage)
      ensures match StoredCredentials(storage, provider) {
        case Some(c) =>
          apiKey == c.apiKey && modelName == c.modelName && baseURL == c.baseURL
          && isApiKeyModalOpen == old(isApiKeyModalOpen)
        case None =>
          apiKey == old(apiKey) && modelName == old(modelName) && baseURL == old(baseURL)
          && isApiKeyModalOpen
      }
      ensures storage == old(storage) && events == old(events) && entities == old(entities)
      ensures hiddenEntities == old(hiddenEntities) && isLoading == old(isLoading) && error == old(error)
      ensures searchHistory == old(searchHistory)
    {
      provider := StartupProvider(storage);
      match StoredCredentials(storage, provider) {
        case Some(c) =>
          apiKey := c.apiKey;
          modelName := c.modelName;
          baseURL := c.baseURL;
        case None =>
          isApiKeyModalOpen := true;
      }
    }

    /** `handleSaveApiKey`: adopt the settings, write them to storage (an
      absent model name or base URL as ''), and close the dialog. */
    method HandleSaveApiKey(key: string, newProvider: string, newModelName: Option<string>, newBaseURL: Option<string>)
      modifies this
      ensures apiKey == key && provider == newProvider
      ensures modelName == (if newModelName.Some? then newModelName.value else "")
      ensures baseURL == (if newBaseURL.Some? then newBaseURL.value else "")
      ensures storage == SavedStorage(old(storage), key, newProvider, modelName, baseURL)
      ensures !isApiKeyModalOpen
      ensures events == old(events) && entities == old(entities) && hiddenEntities == old(hiddenEntities)
      ensures isLoading == old(isLoading) && error == old(error) && searchHistory == old(searchHistory)
    {
      apiKey := key;
      provider := newProvider;
      var model := if newModelName.Some? then newModelName.value else "";
      var url := if newBaseURL.Some? then newBaseURL.value else "";
      modelName := model;
      baseURL := url;
      storage := SavedStorage(storage, key, newProvider, model, url);
      isApiKeyModalOpen := false;
    }

    /** The settings button. */
    method OpenSettings()
      modifies this
      ensures isApiKeyModalOpen
      ensures events == old(events) && entities == old(entities) && hiddenEntities == old(hiddenEntities)
      ensures isLoading == old(isLoading) && error == old(error) && searchHistory == old(searchHistory)
      ensures apiKey == old(apiKey) && provider == old(provider) && modelName == old(modelName)
      ensures baseURL == old(baseURL) && storage == old(storage)
    {
      isApiKeyModalOpen := true;
    }

    /** The dialog's close action. */
    method CloseSettings()
      modifies this
      ensures !isApiKeyModalOpen
      ensures events == old(events) && entities == old(entities) && hiddenEntities == old(hiddenEntities)
      ensures isLoading == old(isLoading) && error == old(error) && searchHistory == old(searchHistory)
      ensures apiKey == old(apiKey) && provider == old(provider) && modelName == old(modelName)
      ensures baseURL == old(baseURL) && storage == old(storage)
    {
      isApiKeyModalOpen := false;
    }

    /** The service call of `handleGenerate`: the OpenAI-compatible service
      when that provider is chosen (an empty base URL standing for none),
      the Gemini service otherwise. It succeeds exactly when a key is set and
      the reply parsed, and then yields the parsed events sorted by year,
      with the model and the context limit of the chosen service. */
    method RequestTimeline(items: seq<string>, wiki: string -> Option<WikiArticle>, reply: LlmReply)
      returns (r: Result<Generated, ServiceError>)
      ensures r.Success? <==> apiKey != "" && reply.Parsed?
      ensures apiKey == "" ==> r == Failure(MissingApiKey)
      ensures r.Success? && provider == "openai" ==>
                && r.value.request.endpoint == OpenAICompatible(EndpointOverride(baseURL))
                && r.value.request.model == OpenAIService.ModelFor(modelName, EndpointOverride(baseURL))
                && SectionsFor(r.value.sections, items, wiki, OpenAIService.ContextLimit(modelName))
      ensures r.Success? && provider != "openai" ==>
                && r.value.request.endpoint == GeminiApi
                && r.value.request.model == GeminiService.ModelFor(modelName)
                && SectionsFor(r.value.sections, items, wiki, GeminiService.ContextLimit)
      ensures r.Success? ==> r.value.request.context == SourceHeader + RenderSections(r.value.sections)
      ensures r.Success? && reply.events.None? ==> r.value.events == []
      ensures r.Success? && reply.events.Some? ==>
                YearSorted(r.value.events) && multiset(r.value.events) == multiset(reply.events.value)
    {
      if provider == "openai" {
        r := OpenAIService.GenerateTimeline(apiKey, items, modelName, EndpointOverride(baseURL), wiki, reply);
      } else {
        r := GeminiService.GenerateTimeline(apiKey, items, modelName, wiki, reply);
      }
    }

    /** `handleGenerate`: clear the error and the hidden set, call the
      service of the current provider, and on success show its events and
      record the search; on failure keep the old timeline and history and
      show the fixed message. Loading is over either way. */
    method HandleGenerate(items: seq<string>, wiki: string -> Option<WikiArticle>, reply: LlmReply)
      requires Valid()
      modifies this
      ensures Valid()
      ensures hiddenEntities == {} && !isLoading
      ensures var succeeded := apiKey != "" && reply.Parsed?;
        if succeeded then
          && entities == items
          && searchHistory == UpdateHistory(old(searchHistory), items)
          && error == None
          && (reply.events.None? ==> events == [])
          && (reply.events.Some? ==> YearSorted(events) && multiset(events) == multiset(reply.events.value))
        else
          && entities == old(entities) && events == old(events) && searchHistory == old(searchHistory)
          && error == Some(GenerateFailedMessage)
      ensures apiKey == old(apiKey) && provider == old(provider) && modelName == old(modelName)
      ensures baseURL == old(baseURL) && storage == old(storage) && isApiKeyModalOpen == old(isApiKeyModalOpen)
    {
      isLoading := true;
      error := None;
      hiddenEntities := {};
      var result := RequestTimeline(items, wiki, reply);
      if result.Success? {
        AdoptTimeline(items, result.value.events);
      } else {
        error := Some(GenerateFailedMessage);
      }
      isLoading := false;
    }

    /** The state updates of a successful generation: the subjects and the
      events are shown and the search is recorded. */
    method AdoptTimeline(items: seq<string>, received: seq<TimelineEvent>)
      requires Valid()
      modifies this
      ensures Valid()
      ensures entities == items && events == received
      ensures searchHistory == UpdateHistory(old(searchHistory), items)
      ensures hiddenEntities == old(hiddenEntities) && isLoading == old(isLoading) && error == old(error)
      ensures apiKey == old(apiKey) && provider == old(provider) && modelName == old(modelName)
      ensures baseURL == old(baseURL) && storage == old(storage) && isApiKeyModalOpen == old(isApiKeyModalOpen)
    {
      entities := items;
      events := received;
      RecordSearch(items);
    }

    /** The history update of a successful generation; the history stays
      within its cap and free of repeats. */
    method RecordSearch(items: seq<string>)
      requires Valid()
      modifies this
      ensures Valid()
      ensures searchHistory == UpdateHistory(old(searchHistory), items)
      ensures events == old(events) && entities == old(entities) && hiddenEntities == old(hiddenEntities)
      ensures isLoading == old(isLoading) && error == old(error) && apiKey == old(apiKey)
      ensures provider == old(provider) && modelName == old(modelName) && baseURL == old(baseURL)
      ensures storage == old(storage) && isApiKeyModalOpen == old(isApiKeyModalOpen)
    {
      UpdateHistoryKeepsDistinct(searchHistory, items);
      searchHistory := UpdateHistory(searchHistory, items);
    }

    /** `handleBack`: leave the timeline and clear the subjects. */
    method HandleBack()
      modifies this
      ensures events == [] && entities == []
      ensures hiddenEntities == old(hiddenEntities) && isLoading == old(isLoading) && error == old(error)
      ensures searchHistory == old(searchHistory) && apiKey == old(apiKey) && provider == old(provider)
      ensures modelName == old(modelName) && baseURL == old(baseURL) && storage == old(storage)
      ensures isApiKeyModalOpen == old(isApiKeyModalOpen)
    {
      events := [];
      entities := [];
    }

    /** `toggleEntityVisibility`: replace the hidden set by its toggled copy. */
    method ToggleEntityVisibility(name: string)
      modifies this
      ensures hiddenEntities == Toggle(old(hiddenEntities), name)
      ensures events == old(events) && entities == old(entities) && isLoading == old(isLoading)
      ensures error == old(error) && searchHistory == old(searchHistory) && apiKey == old(apiKey)
      ensures provider == old(provider) && modelName == old(modelName) && baseURL == old(baseURL)
      ensures storage == old(storage) && isApiKeyModalOpen == old(isApiKeyModalOpen)
    {
      hiddenEntities := Toggle(hiddenEntities, name);
    }
  }
}
