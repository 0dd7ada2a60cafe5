/** The records that flow through the reconciliation engine: the parsed feed's
    components, the internal event record built from each VEVENT, the remote
    calendar's listed events, and the per-event match decision. */
module Records {

  datatype Option<+T> = None | Some(value: T)

  /** A text field of a JavaScript object; `None` when the field is undefined.
      Two undefined fields compare equal under loose equality, as two `None`s do. */
  type Text = Option<string>

  /** A start or end value. The engine never compares or interprets it; it is
      only copied from the feed into the written resource. */
  type Stamp = Option<string>

  /** The component type that marks an actual calendar event in the feed. */
  const VEVENT: string := "VEVENT"

  /** One value of the parsed feed mapping (the key is not used by the engine). */
  datatype FeedRecord = FeedRecord(
    kind: string,
    summary: Text,
    description: Text,
    start: Stamp,
    end: Stamp,
    location: Text)

  /** The internal record built for every VEVENT before it is matched and written. */
  datatype EventData = EventData(
    eventName: Text,
    description: Text,
    startTime: Stamp,
    endTime: Stamp,
    location: Text)

  /** One item of the remote calendar's event listing. */
  datatype RemoteEvent = RemoteEvent(
    id: string,
    summary: Text,
    description: Text,
    start: Stamp,
    end: Stamp,
    location: Text)

  /** The outcome of matching one feed event against the listing. */
  datatype Decision = Create | Update(eventId: string) | Skip(eventId: string)

  predicate IsEvent(r: FeedRecord) {
    r.kind == VEVENT
  }

  /** The field mapping summary -> eventName, description, start -> startTime,
      end -> endTime, location. */
  function ToEventData(r: FeedRecord): EventData {
    EventData(r.summary, r.description, r.start, r.end, r.location)
  }

  /** The mapping drops the component type and nothing else: two feed records
      give the same internal record exactly when they agree on every other
      field. */
  lemma ToEventDataKeepsAllButKind(a: FeedRecord, b: FeedRecord)
    ensures ToEventData(a) == ToEventData(b) <==> a.(kind := b.kind) == b
  {
  }
}
