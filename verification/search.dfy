/** The two-pass, first-match-wins matcher that decides, for one feed event,
    whether the remote calendar already holds it (skip), holds it with other
    details (update) or does not hold it (create). Start and end times take no
    part in matching. */
module Search {
  import opened Records

  /** What partial matching compares: the title and the description. */
  function Key(e: EventData): (Text, Text) {
    (e.eventName, e.description)
  }

  /** Same title and same description; location and times are ignored. */
  predicate PartialMatch(x: RemoteEvent, e: EventData) {
    (x.summary, x.description) == Key(e)
  }

  /** Same title, description and location; times are ignored. */
  predicate FullMatch(x: RemoteEvent, e: EventData) {
    PartialMatch(x, e) && x.location == e.location
  }

  /** `i` is the first position of `items`, in listing order, that fully matches `e`. */
  ghost predicate FirstFullAt(items: seq<RemoteEvent>, e: EventData, i: int) {
    && 0 <= i < |items|
    && FullMatch(items[i], e)
    && forall j :: 0 <= j < i ==> !FullMatch(items[j], e)
  }

  /** `i` is the first position of `items`, in listing order, that partially matches `e`. */
  ghost predicate FirstPartialAt(items: seq<RemoteEvent>, e: EventData, i: int) {
    && 0 <= i < |items|
    && PartialMatch(items[i], e)
    && forall j :: 0 <= j < i ==> !PartialMatch(items[j], e)
  }

  /** The declarative meaning of a decision: skip the first full match if
      there is one anywhere; otherwise update the first partial match;
      otherwise create. */
  ghost predicate Decides(items: seq<RemoteEvent>, e: EventData, d: Decision) {
    match d
    case Skip(id) =>
      exists i :: FirstFullAt(items, e, i) && items[i].id == id
    case Update(id) =>
      && (forall i :: 0 <= i < |items| ==> !FullMatch(items[i], e))
      && exists i :: FirstPartialAt(items, e, i) && items[i].id == id
    case Create =>
      forall i :: 0 <= i < |items| ==> !PartialMatch(items[i], e)
  }

  /** One scan of the listing: the position of the first item passing `test`. */
  function FirstWhere(items: seq<RemoteEvent>, test: RemoteEvent -> bool): (r: Option<nat>)
    ensures r.Some? ==> r.value < |items| && test(items[r.value])
    ensures r.Some? ==> forall j :: 0 <= j < r.value ==> !test(items[j])
    ensures r.None? ==> forall j :: 0 <= j < |items| ==> !test(items[j])
  {
    if |items| == 0 then None
    else if test(items[0]) then Some(0)
    else
      match FirstWhere(items[1..], test)
      case None => None
      case Some(k) => Some(k + 1)
  }

  /** searchEvent: a complete full-match pass, then a partial-match pass, then create. */
  function SearchEvent(e: EventData, items: seq<RemoteEvent>): (d: Decision)
    ensures Decides(items, e, d)
  {
    match FirstWhere(items, x => FullMatch(x, e))
    case Some(i) => Skip(items[i].id)
    case None =>
      match FirstWhere(items, x => PartialMatch(x, e))
      case Some(i) => Update(items[i].id)
      case None => Create
  }

  /** The meaning determines the decision: no other decision satisfies it. */
  lemma DecidesIsFunctional(items: seq<RemoteEvent>, e: EventData, d: Decision)
    requires Decides(items, e, d)
    ensures d == SearchEvent(e, items)
  {
    var s := SearchEvent(e, items);
    match d
    case Skip(id) =>
      var i :| FirstFullAt(items, e, i) && items[i].id == id;
      var k :| FirstFullAt(items, e, k) && items[k].id == s.eventId;
      assert !(i < k) && !(k < i);
    case Update(id) =>
      var i :| FirstPartialAt(items, e, i) && items[i].id == id;
      var k :| FirstPartialAt(items, e, k) && items[k].id == s.eventId;
      assert !(i < k) && !(k < i);
    case Create =>
  }

  /** A full match anywhere in the listing beats a partial match earlier in it:
      the whole first pass completes before the second begins. */
  lemma FullMatchBeatsEarlierPartial(e: EventData, items: seq<RemoteEvent>, i: nat, j: nat)
    requires i < j < |items|
    requires PartialMatch(items[i], e) && !FullMatch(items[i], e)
    requires FullMatch(items[j], e)
    ensures exists k :: 0 <= k <= j && k != i && FullMatch(items[k], e) && SearchEvent(e, items) == Skip(items[k].id)
  {
    var d := SearchEvent(e, items);
    assert PartialMatch(items[j], e);
    assert d.Skip?;
    var k :| FirstFullAt(items, e, k) && items[k].id == d.eventId;
    assert k <= j && k != i;
  }

  /** Start and end times do not influence the decision. */
  lemma SearchIgnoresTimes(e1: EventData, e2: EventData, items: seq<RemoteEvent>)
    requires e1.eventName == e2.eventName
    requires e1.description == e2.description
    requires e1.location == e2.location
    ensures SearchEvent(e1, items) == SearchEvent(e2, items)
  {
    var d := SearchEvent(e1, items);
    forall x | x in items
      ensures FullMatch(x, e1) == FullMatch(x, e2) && PartialMatch(x, e1) == PartialMatch(x, e2)
    {
    }
    assert Decides(items, e2, d);
    DecidesIsFunctional(items, e2, d);
  }
}
