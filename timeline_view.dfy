/** The display selection of the timeline view: which events are shown, in
    which colour, and on which side of the horizontal line. */
module TimelineView {
  import opened Types
  import opened Seqs

  /** `configs.findIndex(c => c.name === name)`: the position of the first
      configuration with that name, or -1 when there is none. */
  function FindIndex(configs: seq<EntityConfig>, name: string): (r: int)
    ensures -1 <= r < |configs|
    ensures r == -1 <==> forall i :: 0 <= i < |configs| ==> configs[i].name != name
    ensures 0 <= r ==> configs[r].name == name
    ensures 0 <= r ==> forall i :: 0 <= i < r ==> configs[i].name != name
  {
    if configs == [] then -1
    else if configs[0].name == name then 0
    else
      var k := FindIndex(configs[1..], name);
      if k == -1 then -1 else k + 1
  }

  /** `configs.find(c => c.name === e.entity)?.isVisible`: an event with no
      configuration reads `undefined`, which the filter treats as false. */
  predicate IsVisible(configs: seq<EntityConfig>, e: TimelineEvent): (visible: bool)
    ensures visible <==> exists i :: 0 <= i < |configs| && configs[i].name == e.entity && configs[i].isVisible
                                     && forall j :: 0 <= j < i ==> configs[j].name != e.entity
  {
    var i := FindIndex(configs, e.entity);
    0 <= i && configs[i].isVisible
  }

  /** `events.filter(...)`: the events whose entity is configured as visible. */
  function VisibleEvents(events: seq<TimelineEvent>, configs: seq<EntityConfig>): (r: seq<TimelineEvent>)
    ensures |r| <= |events|
    ensures forall e :: e in r <==> e in events && IsVisible(configs, e)
  {
    Filter(events, e => IsVisible(configs, e))
  }

  /** The visible events are the events in their original order with exactly
      the invisible ones removed: order-preserving, nothing invented, nothing
      visible lost, each visible event kept as often as it occurs. */
  lemma VisibleEventsSpec(events: seq<TimelineEvent>, configs: seq<EntityConfig>)
    ensures IsSubsequence(VisibleEvents(events, configs), events)
    ensures forall e :: e in VisibleEvents(events, configs) <==> e in events && IsVisible(configs, e)
    ensures forall e :: multiset(VisibleEvents(events, configs))[e]
                        == if IsVisible(configs, e) then multiset(events)[e] else 0
  {
    var keep := e => IsVisible(configs, e);
    FilterIsSubsequence(events, keep);
    forall e ensures multiset(VisibleEvents(events, configs))[e]
                     == if IsVisible(configs, e) then multiset(events)[e] else 0 {
      FilterCount(events, keep, e);
    }
  }

  /** The colour of the first configuration with that name, or slate. */
  function EntityColor(configs: seq<EntityConfig>, name: string): (r: Color)
    ensures (forall i :: 0 <= i < |configs| ==> configs[i].name != name) ==> r == Slate
    ensures forall i :: (0 <= i < |configs| && configs[i].name == name
                         && forall j :: 0 <= j < i ==> configs[j].name != name) ==> r == configs[i].color
  {
    var i := FindIndex(configs, name);
    if i == -1 then Slate else configs[i].color
  }

  /** Whether the event at position `index` of the visible list goes above
      the line: with several configured entities, by the parity of the
      entity's configuration index; otherwise by the parity of `index`. */
  predicate IsTopRow(configs: seq<EntityConfig>, index: nat, e: TimelineEvent): (top: bool)
    ensures (forall c :: c in configs ==> c.name != e.entity) ==> (top <==> index % 2 == 0)
    ensures |configs| <= 1 ==> (top <==> index % 2 == 0)
    ensures forall k :: (|configs| > 1 && 0 <= k < |configs| && configs[k].name == e.entity
                         && forall j :: 0 <= j < k ==> configs[j].name != e.entity) ==> (top <==> k % 2 == 0)
  {
    var entityIndex := FindIndex(configs, e.entity);
    if |configs| > 1 && entityIndex != -1 then entityIndex % 2 == 0 else index % 2 == 0
  }

  /** With at most one configuration the rows alternate. */
  lemma SingleEntityAlternates(configs: seq<EntityConfig>, index: nat, e: TimelineEvent)
    requires |configs| <= 1
    ensures IsTopRow(configs, index, e) <==> index % 2 == 0
  {
  }

  /** With several configurations an event's row depends only on its entity:
      two events of one configured entity share a row wherever they stand. */
  lemma MultiEntityGroups(configs: seq<EntityConfig>, i: nat, j: nat, e1: TimelineEvent, e2: TimelineEvent)
    requires |configs| > 1 && e1.entity == e2.entity
    requires exists k :: 0 <= k < |configs| && configs[k].name == e1.entity
    ensures IsTopRow(configs, i, e1) == IsTopRow(configs, j, e2)
  {
  }

  /** One rendered event card. */
  datatype Card = Card(event: TimelineEvent, color: Color, top: bool)

  /** What the view shows: the "no events visible" placeholder, or the cards. */
  datatype View = NoEventsVisible | Timeline(cards: seq<Card>)

  function Render(events: seq<TimelineEvent>, configs: seq<EntityConfig>): (v: View)
    ensures v.NoEventsVisible? <==> VisibleEvents(events, configs) == []
    ensures v.Timeline? ==> |v.cards| == |VisibleEvents(events, configs)|
    ensures v.Timeline? ==> forall i :: 0 <= i < |v.cards| ==> v.cards[i].event == VisibleEvents(events, configs)[i]
  {
    var visible := VisibleEvents(events, configs);
    if |visible| == 0 then NoEventsVisible
    else Timeline(seq(|visible|, i requires 0 <= i < |visible| =>
                    Card(visible[i], EntityColor(configs, visible[i].entity), IsTopRow(configs, i, visible[i]))))
  }

  /** Every shown card belongs to a configured, visible entity and carries
      that entity's configured colour; with several configurations a card is
      on top exactly when its entity's configuration index is even (so all
      cards of one entity are on the same side), and with one configuration
      the cards alternate, starting on top. */
  lemma RenderedCards(events: seq<TimelineEvent>, configs: seq<EntityConfig>)
    ensures var v := Render(events, configs);
      v.Timeline? ==>
        && (forall i :: 0 <= i < |v.cards| ==>
              var k := FindIndex(configs, v.cards[i].event.entity);
              && 0 <= k && configs[k].isVisible && v.cards[i].color == configs[k].color && v.cards[i].event in events
              && (|configs| > 1 ==> (v.cards[i].top <==> k % 2 == 0))
              && (|configs| <= 1 ==> (v.cards[i].top <==> i % 2 == 0)))
        && (|configs| > 1 ==> forall i, j ::
              (0 <= i < |v.cards| && 0 <= j < |v.cards| && v.cards[i].event.entity == v.cards[j].event.entity)
              ==> v.cards[i].top == v.cards[j].top)
  {
    var v := Render(events, configs);
    var visible := VisibleEvents(events, configs);
    if v.Timeline? {
      forall i | 0 <= i < |v.cards|
        ensures IsVisible(configs, v.cards[i].event) && v.cards[i].event in events
      {
        assert v.cards[i].event in visible;
      }
    }
  }
}
