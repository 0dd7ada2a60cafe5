/** addEvent: builds the resource written for one feed event, turns the match
    decision into exactly one action (an insert, an update addressed by the
    matched id, or no remote call at all) and settles with the remote reply. */
module Dispatch {
  import opened Records
  import opened Search

  /** The time-zone label attached to every written start and end. */
  const TIME_ZONE: string := "GMT-05:00"

  /** The value a skipped event resolves with. */
  const ALREADY_CREATED: string := "Event already created"

  datatype DateTime = DateTime(dateTime: Stamp, timeZone: string)

  /** The resource sent with both insert and update calls. */
  datatype Resource = Resource(
    summary: Text,
    description: Text,
    start: DateTime,
    end: DateTime,
    location: Text)

  /** A remote mutation: insert a new event, or replace the event with `eventId`. */
  datatype Call = Insert(resource: Resource) | UpdateById(eventId: string, resource: Resource)

  /** What the remote calendar answers to one call. */
  datatype Reply = Ok(body: string) | Err(message: string)

  /** A value an add resolves with: the service's response, or a fixed message. */
  datatype Logged = ApiResponse(body: string) | Note(text: string)

  /** How the promise returned for one event settles. */
  datatype Settled = Resolved(value: Logged) | Rejected(cause: string)

  /** Everything one add does: the remote calls it issues, and how it settles. */
  datatype Step = Step(calls: seq<Call>, settled: Settled)

  /** The event the remote calendar holds after it accepts `r` under `id`. */
  function Stored(id: string, r: Resource): RemoteEvent {
    RemoteEvent(id, r.summary, r.description, r.start.dateTime, r.end.dateTime, r.location)
  }

  /** The resource built from the feed event. Whatever id the calendar files it
      under, the stored event is a full match for `e`, and it keeps e's times. */
  function BuildResource(e: EventData): (r: Resource)
    ensures forall id: string {:trigger Stored(id, r)} :: FullMatch(Stored(id, r), e)
    ensures r.start.dateTime == e.startTime && r.end.dateTime == e.endTime
    ensures r.start.timeZone == TIME_ZONE && r.end.timeZone == TIME_ZONE
  {
    Resource(
      e.eventName,
      e.description,
      DateTime(e.startTime, TIME_ZONE),
      DateTime(e.endTime, TIME_ZONE),
      e.location)
  }

  /** The remote calls the decision for `e` leads to: at most one, carrying
      the built resource; none exactly when the listing already holds a full
      match; an insert exactly when nothing in the listing even partially
      matches; otherwise an update addressed to a partially matching item. */
  function CallsFor(e: EventData, items: seq<RemoteEvent>): (calls: seq<Call>)
    ensures |calls| <= 1
    ensures calls == [] <==> exists i :: 0 <= i < |items| && FullMatch(items[i], e)
    ensures forall c :: c in calls ==> c.resource == BuildResource(e)
    ensures (|calls| == 1 && calls[0].Insert?) <==> forall i :: 0 <= i < |items| ==> !PartialMatch(items[i], e)
    ensures |calls| == 1 && calls[0].UpdateById? ==>
              exists i :: FirstPartialAt(items, e, i) && items[i].id == calls[0].eventId
  {
    match SearchEvent(e, items)
    case Create => [Insert(BuildResource(e))]
    case Update(id) => [UpdateById(id, BuildResource(e))]
    case Skip(_) => []
  }

  /** A callback's reply settles the promise: success resolves with the response,
      an error rejects with its message. */
  function Settle(reply: Reply): (s: Settled)
    ensures s.Resolved? <==> reply.Ok?
    ensures reply.Ok? ==> s.value == ApiResponse(reply.body)
    ensures reply.Err? ==> s.cause == reply.message
  {
    match reply
    case Ok(body) => Resolved(ApiResponse(body))
    case Err(message) => Rejected(message)
  }

  /** addEvent, with `answer` standing for the remote service's reply to a call. */
  function AddEvent(e: EventData, items: seq<RemoteEvent>, answer: Call -> Reply): (s: Step)
    ensures s.calls == CallsFor(e, items)
    ensures s.calls == [] ==> s.settled == Resolved(Note(ALREADY_CREATED))
    ensures |s.calls| == 1 ==> s.settled == Settle(answer(s.calls[0]))
    ensures s.settled.Rejected? ==> |s.calls| == 1 && answer(s.calls[0]).Err?
  {
    var calls := CallsFor(e, items);
    if calls == [] then Step([], Resolved(Note(ALREADY_CREATED)))
    else Step(calls, Settle(answer(calls[0])))
  }
}
