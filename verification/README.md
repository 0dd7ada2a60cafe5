# Calendar feed reconciliation engine — a Dafny model

This project models the reconciliation engine of an iCalendar-to-Google-Calendar
sync (`functions/lib/gcal.js`). A run starts with the parsed feed, a mapping of
components. It lists the remote calendar's events once, then walks the feed in
iteration order and passes over every component whose type is not `VEVENT`.
Each remaining event is mapped to an internal record and then:

- matched against the single listing by `searchEvent`, a two-pass,
  first-match-wins search on title, description and location;
- turned by `addEvent` into exactly one action: insert, update by id, or
  nothing (`'Event already created'`);
- settled. A resolved add is appended to the event log; a rejected add is
  logged and the walk continues.

Modules:

- `Records`: the feed component, the internal event record, the listed remote event and the decision.
- `Search`: `searchEvent`, with a declarative meaning of its decision.
- `Dispatch`: the built resource, the decision → call mapping, and settling a call's promise.
- `Sync`: `createEvents` as a fold (`Run`) and as the source's loop (`CreateEvents`), with lemmas about the whole run. `Outcomes` is an independent reference: each VEVENT's add, in feed order, answered after the calls of the events before it. `RunLogFollowsOutcomes`, `RunFailuresFollowOutcomes` and `RunAppliedFollowsOutcomes` tie the run's log, failures and applied calls to it.
- `Service`: a remote calendar that carries out accepted calls. It is used to state and prove idempotence of a second run.
- `Scenarios`: example runs on small concrete feeds: two inserts into an empty calendar, an update after a location change, a failure in the middle of a run, the shared snapshot, and a feed for which a second run is not idempotent. They illustrate the general lemmas and add no general claim of their own.

The remote service appears as an oracle `(nat, Call) -> Reply`. It gives the
reply to a call, given how many remote calls the run issued before it. The
listing is an input taken once per run. Fields that may be undefined are
`Option<string>`, and two undefined fields compare equal, as under JavaScript's
loose equality. Start and end values are opaque and only copied through.

Facts of the code that the model keeps:

- A skipped event resolves with `'Event already created'` (`gcal.js:145`), and
  the run pushes every resolved value into the event log (`gcal.js:228`), so a
  skip adds that string to the log like any other resolved value.
- A failed add is logged as `'Error adding event: '` followed by the error's
  message only (`gcal.js:230`); the log line does not name the event. The model
  keeps the message in `failures`.
- A second run over the same feed is not idempotent in general. It makes no
  call when three conditions hold: the feed's VEVENTs have pairwise distinct
  title+description pairs, the calendar's ids are unique, and the first run
  had no failure (`Service.SecondRunOnlySkips`). That statement also rests on
  the two assumptions about the service listed under "Left out". A failed
  add leaves its event missing or stale, so the next run writes it again.
- Distinct pairs matter when the listing already holds an event with that
  title and description. If two VEVENTs share the pair, differ in location,
  and neither location matches the remote event's, both update that same
  remote event (`gcal.js:62-71`). The later write wins, so the next run
  updates it again (`Scenarios.SharedKeyIsNotIdempotent`, against the listing
  `[Shared]`). Against an empty calendar such VEVENTs are both inserted
  instead (`gcal.js:114-124`).

## Model

| member | source | states |
|---|---|---|
| Search.SearchEvent | functions/lib/gcal.js:40-78 | The decision is skip with the id of the first item, in listing order, that matches title, description and location. Otherwise it is update with the id of the first item that matches title and description, and only when no item matches fully. Otherwise it is create, and then no item matches even partially. |
| Search.FirstWhere | functions/lib/gcal.js:42-59 | One scan of the listing returns the first position passing the test, with no earlier position passing it, or none when no position passes. |
| Search.DecidesIsFunctional | functions/lib/gcal.js:40-78 | The meaning of a decision determines it: any decision that satisfies it is the one `searchEvent` returns. |
| Search.FullMatchBeatsEarlierPartial | functions/lib/gcal.js:42-72 | A full match anywhere beats a partial match earlier in the list. The decision skips a fully matching item, never the earlier partial one. |
| Search.SearchIgnoresTimes | functions/lib/gcal.js:43-48 | Two feed events that differ only in start and end time get the same decision. |
| Dispatch.BuildResource | functions/lib/gcal.js:90-106 | The resource carries the event's title, description and location, so the stored event fully matches the feed event under any id. It keeps the start and end values and labels both with the fixed time zone. |
| Dispatch.CallsFor | functions/lib/gcal.js:113-145 | Every decision leads to at most one call, and each call carries the built resource. There is no call exactly when the listing holds a full match. An insert is issued exactly when nothing matches even partially. An update is addressed to the id of the first partial match. |
| Dispatch.Settle | functions/lib/gcal.js:115-142 | The callback resolves with the response when there is no error and rejects with the error otherwise. |
| Dispatch.AddEvent | functions/lib/gcal.js:86-148 | addEvent issues exactly the decision's calls. A skip makes no call and resolves with `'Event already created'`. A call's reply settles the add, and an add can reject only through its one call failing. |
| Records.ToEventDataKeepsAllButKind | functions/lib/gcal.js:219-225 | The internal record drops the component type and nothing else: two feed records map to the same internal record exactly when they agree on summary, description, start, end and location. |
| Sync.EventPositions | functions/lib/gcal.js:215-218 | The positions the walk does not pass over are ascending and are exactly the positions whose record has type `VEVENT`. |
| Sync.EventsKeepsEvents | functions/lib/gcal.js:215-225 | Every VEVENT record's mapped internal record appears, and every internal record comes from a VEVENT record. Order and multiplicity are stated by `Sync.EventsInFeedOrder`. |
| Sync.EventsInFeedOrder | functions/lib/gcal.js:215-225 | There is one internal record per VEVENT, in feed order: the k-th is the mapping of the record at the k-th VEVENT position. |
| Sync.OnlyEventsKeepsEvents | functions/lib/gcal.js:215-218 | The records kept by the VEVENT filter are exactly the feed's VEVENT records, and there are no more of them than records in the feed. |
| Sync.EventsMapsOnlyEvents | functions/lib/gcal.js:215-225 | The internal records are exactly the VEVENT filter's records, each mapped by the field copy, in the same order. |
| Sync.OnlyEventsInFeedOrder | functions/lib/gcal.js:215-218 | The filter keeps each VEVENT record once and in feed order: its k-th record is the one at the k-th VEVENT position. |
| Sync.Record | functions/lib/gcal.js:227-231 | One settled add is folded in: its calls are recorded, exactly one of the log and the failures grows by one entry, and nothing recorded earlier changes. A resolved add's value goes to the log and its calls count as applied. A rejected add's message goes to the failures and applies nothing. |
| Sync.Process | functions/lib/gcal.js:216-232 | A record that is not a VEVENT leaves the state as it was. A VEVENT adds at most one call after the earlier ones and exactly one entry to the log or to the failures, after everything recorded before. |
| Sync.ProcessIssuesDecisionCalls | functions/lib/gcal.js:216-227 | The calls one VEVENT adds are exactly its decision's calls against the listing taken at the start. |
| Sync.RunCounts | functions/lib/gcal.js:214-233 | Each VEVENT ends in exactly one of the event log or the failures. The contents and order are stated by `Sync.RunLogFollowsOutcomes` and `Sync.RunFailuresFollowOutcomes`. |
| Sync.RunCallCounts | functions/lib/gcal.js:214-233 | The run issues at most one remote call per VEVENT, and each issued call was either applied or failed. |
| Sync.CreateEvents | functions/lib/gcal.js:214-233 | The loop's event log and failures are those of the fold, one entry per VEVENT in all. |
| Sync.RunCallsArePlanned | functions/lib/gcal.js:201-233 | The calls a run issues are the decisions' calls for the feed's VEVENTs in feed order, all against the one listing taken at the start. |
| Sync.RunCallsIgnoreReplies | functions/lib/gcal.js:227-231 | A failed add does not stop later events: whatever the service answers, the run issues the same calls. |
| Sync.OutcomesExtend | functions/lib/gcal.js:215-233 | One more event at the end of the feed adds its own add at the end. The earlier adds are unchanged, and the new one is answered after all their calls. |
| Sync.RunLogFollowsOutcomes | functions/lib/gcal.js:214-233 | Take each VEVENT's add, in feed order, against the one listing, answered after the calls of the events before it. The event log is exactly the list of the values these adds resolved with, in that order, skips included. |
| Sync.RunFailuresFollowOutcomes | functions/lib/gcal.js:227-231 | With the same adds, the failures are exactly the rejected adds' messages, in that order. |
| Sync.RunAppliedFollowsOutcomes | functions/lib/gcal.js:227-231 | With the same adds, the applied calls are exactly the resolved adds' calls, in that order. |
| Sync.RunIgnoresNonEvents | functions/lib/gcal.js:215-218 | Removing every non-VEVENT record leaves the run's effects unchanged. |
| Sync.AllAcceptedLogsEveryEvent | functions/lib/gcal.js:227-229 | When the service accepts every call, nothing fails, the log has one entry per VEVENT, and every call is applied. |
| Sync.NoFailuresAppliesAll | functions/lib/gcal.js:227-231 | In a run without failures, every issued call was applied. |
| Sync.EmptyCalendarInsertsAll | functions/lib/gcal.js:114-124 | Against an empty listing every event, identical ones included, leads to an insert of its own resource, in order. |
| Sync.ReconciledMakesNoCalls | functions/lib/gcal.js:109-145 | When every VEVENT has a full match in the listing, the run makes no remote call and fails nowhere. Every log entry is `'Event already created'`. |
| Service.SameKeyIsSamePartialMatches | functions/lib/gcal.js:62-71 | Two feed records share a title+description key exactly when every listed event partially matches both of them or neither. The distinct-keys condition therefore uses the same key as the partial match. |
| Service.RunReconciles | functions/lib/gcal.js:201-233 | Suppose a failure-free run starts from unique ids and its VEVENTs have distinct title+description pairs. Afterwards every VEVENT has a full match, ids stay unique, and untouched events remain. |
| Service.SecondRunOnlySkips | functions/lib/gcal.js:201-233 | Under the same conditions, a second run over the same feed against the resulting calendar makes no call, fails nowhere and logs only skips. |
| Scenarios.TwoEventsIntoEmptyCalendar | functions/lib/gcal.js:215-233 | Example run: two VEVENTs and a time-zone component against an empty calendar. The run ends with two inserts, both applied, two log entries and no failure. |
| Scenarios.LocationChangeUpdates | functions/lib/gcal.js:62-71 | Example run: a remote event with the same title and description but another location is updated by its id and gets the feed's location. |
| Scenarios.MiddleFailureIsIsolated | functions/lib/gcal.js:227-231 | Example run: the second of three adds fails. The run ends with all three inserts issued, the first and third logged and applied, and the failure's message recorded. |
| Scenarios.IdenticalEventsBothInserted | functions/lib/gcal.js:201-204 | Example run: two identical VEVENTs against an empty calendar both lead to an insert, because the listing is not re-read. |
| Scenarios.SharedKeyIsNotIdempotent | functions/lib/gcal.js:62-71 | Counterexample: two VEVENTs that share title and description but differ in location make a second run issue a call again. |

## Left out

- Session setup is not modelled: the Google API client, the JWT and GoogleAuth sessions, and `gAuth.getClient()` (`gcal.js` lines 1-30, 88, 195-198). A `getClient()` that rejects would leave the add's promise unsettled. That path is not modelled.
- The remote `list`, `insert` and `update` calls are foreign I/O. The listing is an input and the replies come from an oracle. `Service` is one possible calendar, used only for the idempotence statements.
- `deleteEvents` (lines 159-185) is not modelled: it is never called, because its call at line 211 is commented out.
- `new Date(...)` conversion is date parsing and is not modelled. Start and end values are copied unchanged; only the fixed `TIME_ZONE` label is modelled.
- The run's HTTP 200/500 response (lines 234-239) and the logging calls are not modelled. A failed add's message is kept in `failures` instead.
- The keys of the parsed feed mapping are not modelled. The feed is the sequence of its values in JavaScript's iteration order, which the model does not compute.
- `functions/index.js` and `functions/lib/axios.js` are the trigger and the HTTP fetch. They are not part of this model.
- Loose `==` beyond absent/present text is not modelled. Fields are compared by exact string equality.
- Service.SecondRunOnlySkips: relies on two assumptions about the remote service that the code does not check. First, the one `list` call returns the whole calendar: `gcal.js:201-204` makes a single call and scans only that response, so a paged listing is not modelled. Second, the service stores the written summary, description and location unchanged (`Dispatch.Stored`). Without either, the second run may issue calls again.
