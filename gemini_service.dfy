/** The schema-typed provider's timeline generation: key check, source
    material with a fixed context limit, default model, year sort. */
module GeminiService {
  import opened Types
  import opened SourceMaterial

  /** Characters of article text kept per subject. */
  const ContextLimit: nat := 1000000

  const DefaultModel := "gemini-2.5-flash"

  /** `modelName || 'gemini-2.5-flash'`: a request always names a model, the
      caller's when one is given. */
  function ModelFor(modelName: string): (model: string)
    ensures model != ""
    ensures modelName != "" ==> model == modelName
    ensures modelName == "" ==> model == DefaultModel
  {
    if modelName != "" then modelName else DefaultModel
  }

  /** `generateTimeline`. An empty key fails before any subject is fetched;
      otherwise one section per subject is built, the model is asked, and
      the parsed events come back sorted by year (or none at all when the
      reply has no `events` field). */
  method GenerateTimeline(apiKey: string, entities: seq<string>, modelName: string,
                          wiki: string -> Option<WikiArticle>, reply: LlmReply)
    returns (r: Result<Generated, ServiceError>)
    ensures apiKey == "" ==> r == Failure(MissingApiKey)
    ensures apiKey != "" && reply.CallFailed? ==> r == Failure(RequestFailed)
    ensures r.Success? <==> apiKey != "" && reply.Parsed?
    ensures r.Success? ==>
      && r.value.request.endpoint == GeminiApi
      && r.value.request.model == ModelFor(modelName)
      && SectionsFor(r.value.sections, entities, wiki, ContextLimit)
      && r.value.request.context == SourceHeader + RenderSections(r.value.sections)
      && (reply.events.None? ==> r.value.events == [])
      && (reply.events.Some? ==> YearSorted(r.value.events)
                                 && multiset(r.value.events) == multiset(reply.events.value))
  {
    if apiKey == "" {
      return Failure(MissingApiKey);
    }
    var context, sections := BuildContext(entities, wiki, ContextLimit);
    var request := LlmRequest(GeminiApi, ModelFor(modelName), context);
    match reply {
      case CallFailed =>
        r := Failure(RequestFailed);
      case Parsed(parsed) =>
        var events := SortedEvents(parsed);
        r := Success(Generated(request, sections, events));
    }
  }
}
