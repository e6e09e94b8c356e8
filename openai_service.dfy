/** The chat-style provider's timeline generation: the same steps as the
    schema-typed provider, with a context limit and a default model that
    depend on the settings. */
module OpenAIService {
  import opened Types
  import opened SourceMaterial

  /** Characters of article text kept per subject: 1,000,000 for a custom
      model, 1,500,000 for the default one. */
  function ContextLimit(modelName: string): (limit: nat)
    ensures 1000000 <= limit <= 1500000
    ensures modelName != "" <==> limit == 1000000
    ensures modelName == "" ==> limit == 1500000
  {
    if modelName != "" then 1000000 else 1500000
  }

  /** Whether an optional base URL is given and non-empty (JavaScript
      truthiness of `baseURL`). */
  predicate HasCustomEndpoint(baseURL: Option<string>)
  {
    baseURL.Some? && baseURL.value != ""
  }

  /** `modelName || (baseURL ? "qwen-plus" : "gpt-5-mini")`: a request
      always names a model; the caller's takes precedence, and without one
      a custom endpoint gets "qwen-plus" and the default endpoint "gpt-5-mini". */
  function ModelFor(modelName: string, baseURL: Option<string>): (model: string)
    ensures model != ""
    ensures modelName != "" ==> model == modelName
    ensures modelName == "" && HasCustomEndpoint(baseURL) ==> model == "qwen-plus"
    ensures modelName == "" && !HasCustomEndpoint(baseURL) ==> model == "gpt-5-mini"
  {
    if modelName != "" then modelName else if HasCustomEndpoint(baseURL) then "qwen-plus" else "gpt-5-mini"
  }

  /** `generateTimelineOpenAI`. An empty key fails before any subject is
      fetched; otherwise one section per subject is built within the context
      limit, the model is asked through a client on the given base URL, and
      the parsed events come back sorted by year (or none at all when the
      reply has no `events` field). */
  method GenerateTimeline(apiKey: string, entities: seq<string>, modelName: string, baseURL: Option<string>,
                          wiki: string -> Option<WikiArticle>, reply: LlmReply)
    returns (r: Result<Generated, ServiceError>)
    ensures apiKey == "" ==> r == Failure(MissingApiKey)
    ensures apiKey != "" && reply.CallFailed? ==> r == Failure(RequestFailed)
    ensures r.Success? <==> apiKey != "" && reply.Parsed?
    ensures r.Success? ==>
      && r.value.request.endpoint == OpenAICompatible(baseURL)
      && r.value.request.model == ModelFor(modelName, baseURL)
      && SectionsFor(r.value.sections, entities, wiki, ContextLimit(modelName))
      && r.value.request.context == SourceHeader + RenderSections(r.value.sections)
      && (reply.events.None? ==> r.value.events == [])
      && (reply.events.Some? ==> YearSorted(r.value.events)
                                 && multiset(r.value.events) == multiset(reply.events.value))
  {
    if apiKey == "" {
      return Failure(MissingApiKey);
    }
    var limit := ContextLimit(modelName);
    var context, sections := BuildContext(entities, wiki, limit);
    var request := LlmRequest(OpenAICompatible(baseURL), ModelFor(modelName, baseURL), context);
    match reply {
      case CallFailed =>
        r := Failure(RequestFailed);
      case Parsed(parsed) =>
        var events := SortedEvents(parsed);
        r := Success(Generated(request, sections, events));
    }
  }
}
