/** What both timeline services do around the model call: build one source
    section per subject from the fetched articles, and sort the parsed
    events by year. The fetch and the model call themselves are inputs. */
module SourceMaterial {
  import opened Types

  /** One subject's part of the source material: the article text, cut to
      the context limit, or the placeholder for a subject without article. */
  datatype Section =
    | Article(entity: string, title: string, text: string)
    | NoArticle(entity: string)

  /** The outcome of the model call and of parsing its reply: the call or the
      parse failed, or the reply parsed, with or without an `events` field. */
  datatype LlmReply = CallFailed | Parsed(events: Option<seq<TimelineEvent>>)

  /** Why a service gives up. */
  datatype ServiceError = MissingApiKey | RequestFailed

  /** The client a request goes through: the schema-typed provider's fixed
      endpoint, or an OpenAI-compatible client with the caller's base URL
      (`None` leaves the library's default endpoint). */
  datatype Endpoint = GeminiApi | OpenAICompatible(baseURL: Option<string>)

  /** What is sent to the model: the endpoint, the model name and the source
      material. */
  datatype LlmRequest = LlmRequest(endpoint: Endpoint, model: string, context: string)

  /** A successful run: the request that was sent, the sections it was built
      from and the events returned to the caller. */
  datatype Generated = Generated(request: LlmRequest, sections: seq<Section>, events: seq<TimelineEvent>)

  /** `content.slice(0, limit)`. */
  function Truncate(content: string, limit: nat): (r: string)
    ensures r <= content
    ensures |r| == Min(|content|, limit)
  {
    if |content| <= limit then content else content[..limit]
  }

  const SourceHeader := "SOURCE MATERIAL:\n"

  /** One subject's block of the context: it ends its line, and an article's
      block ends with the article text itself. */
  function RenderSection(section: Section): (r: string)
    ensures r != [] && r[|r| - 1] == '\n'
    ensures section.Article? ==> |section.text| < |r| && r[|r| - |section.text| - 1..] == section.text + "\n"
  {
    match section
    case Article(entity, title, text) =>
      "\n--- Wikipedia Article for Subject: \"" + entity + "\" (Title: \"" + title + "\") ---\n" + text + "\n"
    case NoArticle(entity) =>
      "\n--- Subject: \"" + entity + "\" ---\n(No Wikipedia article found. Use internal knowledge.)\n"
  }

  /** The sections rendered one after the other; nothing is rendered only
      when there is no section. */
  function RenderSections(sections: seq<Section>): (r: string)
    ensures r == [] <==> sections == []
  {
    if sections == [] then ""
    else RenderSections(sections[..|sections| - 1]) + RenderSection(sections[|sections| - 1])
  }

  /** The section for one subject: an article section exactly when the
      fetch found an article, whose text is the start of the article content,
      as long as the limit allows; the placeholder otherwise. */
  ghost predicate SectionFor(section: Section, entity: string, fetched: Option<WikiArticle>, limit: nat) {
    && section.entity == entity
    && (section.Article? <==> fetched.Some?)
    && (section.Article? ==>
          && section.title == fetched.value.title
          && section.text <= fetched.value.content
          && |section.text| == Min(|fetched.value.content|, limit))
  }

  /** Exactly one section per subject, in subject order. */
  ghost predicate SectionsFor(sections: seq<Section>, entities: seq<string>,
                              wiki: string -> Option<WikiArticle>, limit: nat)
  {
    && |sections| == |entities|
    && forall i :: 0 <= i < |entities| ==> SectionFor(sections[i], entities[i], wiki(entities[i]), limit)
  }

  /** Builds the source material subject by subject, appending one section
      per subject to the prompt context. */
  method BuildContext(entities: seq<string>, wiki: string -> Option<WikiArticle>, limit: nat)
    returns (context: string, sections: seq<Section>)
    ensures SectionsFor(sections, entities, wiki, limit)
    ensures context == SourceHeader + RenderSections(sections)
  {
    context := SourceHeader;
    sections := [];
    for i := 0 to |entities|
      invariant SectionsFor(sections, entities[..i], wiki, limit)
      invariant context == SourceHeader + RenderSections(sections)
    {
      var entity := entities[i];
      var section;
      match wiki(entity) {
        case Some(data) =>
          section := Article(entity, data.title, Truncate(data.content, limit));
        case None =>
          section := NoArticle(entity);
      }
      assert SectionFor(section, entity, wiki(entity), limit);
      SectionsForExtend(sections, entities, i, section, wiki, limit);
      ContextAppend(context, sections, section);
      context := context + RenderSection(section);
      sections := sections + [section];
    }
    assert entities[..|entities|] == entities;
  }

  lemma SectionsForExtend(sections: seq<Section>, entities: seq<string>, i: nat, section: Section,
                          wiki: string -> Option<WikiArticle>, limit: nat)
    requires i < |entities|
    requires SectionsFor(sections, entities[..i], wiki, limit)
    requires SectionFor(section, entities[i], wiki(entities[i]), limit)
    ensures SectionsFor(sections + [section], entities[..i + 1], wiki, limit)
  {
    var extended := sections + [section];
    forall k | 0 <= k < i + 1
      ensures SectionFor(extended[k], entities[..i + 1][k], wiki(entities[..i + 1][k]), limit)
    {
      if k < i {
        assert extended[k] == sections[k] && entities[..i + 1][k] == entities[..i][k];
      }
    }
  }

  lemma ContextAppend(context: string, sections: seq<Section>, section: Section)
    requires context == SourceHeader + RenderSections(sections)
    ensures context + RenderSection(section) == SourceHeader + RenderSections(sections + [section])
  {
    RenderSectionsAppend(sections, section);
    ConcatAssociative(SourceHeader, RenderSections(sections), RenderSection(section));
  }

  lemma RenderSectionsAppend(sections: seq<Section>, section: Section)
    ensures RenderSections(sections + [section]) == RenderSections(sections) + RenderSection(section)
  {
    assert (sections + [section])[..|sections|] == sections;
  }

  lemma ConcatAssociative(a: string, b: string, c: string)
    ensures a + (b + c) == (a + b) + c
  {
  }

  /** Non-decreasing by year. */
  predicate YearSorted(s: seq<TimelineEvent>) {
    forall i, j :: 0 <= i < j < |s| ==> s[i].year <= s[j].year
  }

  /** The first `n` elements of `a` are in year order. */
  ghost predicate PrefixSorted(a: array<TimelineEvent>, n: int)
    reads a
  {
    forall p, q :: 0 <= p < q < n && q < a.Length ==> a[p].year <= a[q].year
  }

  /** `events.sort((a, b) => a.year - b.year)` in place, by insertion. */
  method SortByYear(a: array<TimelineEvent>)
    modifies a
    ensures YearSorted(a[..])
    ensures multiset(a[..]) == multiset(old(a[..]))
  {
    for i := 0 to a.Length
      invariant PrefixSorted(a, i)
      invariant multiset(a[..]) == multiset(old(a[..]))
    {
      InsertLast(a, i);
    }
  }

  /** Moves `a[i]` left past every earlier element with a later year, so that
      the first `i + 1` elements are in year order. */
  method InsertLast(a: array<TimelineEvent>, i: nat)
    requires i < a.Length && PrefixSorted(a, i)
    modifies a
    ensures PrefixSorted(a, i + 1)
    ensures multiset(a[..]) == multiset(old(a[..]))
  {
    var j := i;
    while j > 0 && a[j - 1].year > a[j].year
      invariant 0 <= j <= i
      invariant forall p, q :: 0 <= p < q <= i && p != j && q != j ==> a[p].year <= a[q].year
      invariant forall q :: j < q <= i ==> a[j].year < a[q].year
      invariant 0 < j < i ==> a[j - 1].year <= a[j + 1].year
      invariant multiset(a[..]) == multiset(old(a[..]))
    {
      SwapWithPrevious(a, j);
      j := j - 1;
    }
  }

  method SwapWithPrevious(a: array<TimelineEvent>, j: nat)
    requires 0 < j < a.Length
    modifies a
    ensures a[..] == old(a[..])[j - 1 := old(a[j])][j := old(a[j - 1])]
    ensures multiset(a[..]) == multiset(old(a[..]))
  {
    a[j - 1], a[j] := a[j], a[j - 1];
  }

  /** The list handed back for a parsed reply: the events sorted by year,
      or the empty list when the reply has no `events` field. */
  method SortedEvents(parsed: Option<seq<TimelineEvent>>) returns (events: seq<TimelineEvent>)
    ensures parsed.None? ==> events == []
    ensures parsed.Some? ==> YearSorted(events) && multiset(events) == multiset(parsed.value)
  {
    match parsed
    case None =>
      events := [];
    case Some(received) =>
      var a := new TimelineEvent[|received|](k requires 0 <= k < |received| => received[k]);
      assert a[..] == received;
      SortByYear(a);
      events := a[..];
  }
}
