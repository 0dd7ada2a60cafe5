/** createEvents: one reconciliation run. The remote listing is taken once,
    before the walk; the parsed feed is walked in iteration order; records that
    are not VEVENTs are passed over; every VEVENT is mapped to an internal
    record and added; a resolved add appends its value to the event log, a
    rejected one is logged and the walk goes on. */
module Sync {
  import opened Records
  import opened Search
  import opened Dispatch

  /** The remote service: its reply to a call, given how many remote calls
      the run issued before it. */
  type Oracle = (nat, Call) -> Reply

  /** The run's observable effects so far: every remote call issued, the calls
      the service accepted, the event log, and the messages of failed adds. */
  datatype RunState = RunState(
    calls: seq<Call>,
    applied: seq<Call>,
    eventLog: seq<Logged>,
    failures: seq<string>)

  const Start: RunState := RunState([], [], [], [])

  /** The positions of the feed's VEVENT records: ascending, and exactly the
      positions whose record is a VEVENT. */
  function EventPositions(feed: seq<FeedRecord>): (ps: seq<nat>)
    ensures forall k :: 0 <= k < |ps| ==> ps[k] < |feed| && IsEvent(feed[ps[k]])
    ensures forall k, l :: 0 <= k < l < |ps| ==> ps[k] < ps[l]
    ensures forall j :: 0 <= j < |feed| && IsEvent(feed[j]) ==> j in ps
  {
    if |feed| == 0 then []
    else
      var n := |feed| - 1;
      var ps0 := EventPositions(feed[..n]);
      assert forall j :: 0 <= j < n ==> feed[..n][j] == feed[j];
      if IsEvent(feed[n]) then
        var ps := ps0 + [n];
        assert forall k :: 0 <= k < |ps0| ==> ps[k] == ps0[k];
        ps
      else ps0
  }

  /** The internal records of the feed's VEVENTs, in feed order. */
  function Events(feed: seq<FeedRecord>): (evs: seq<EventData>)
    ensures |evs| <= |feed|
  {
    if |feed| == 0 then []
    else
      var init := Events(feed[..|feed| - 1]);
      var last := feed[|feed| - 1];
      if IsEvent(last) then init + [ToEventData(last)] else init
  }

  /** Every VEVENT record's internal record appears, and every internal record
      comes from a VEVENT record. */
  lemma {:induction false} EventsKeepsEvents(feed: seq<FeedRecord>)
    ensures forall k :: 0 <= k < |feed| && IsEvent(feed[k]) ==> ToEventData(feed[k]) in Events(feed)
    ensures forall e :: e in Events(feed) ==> exists k :: 0 <= k < |feed| && IsEvent(feed[k]) && ToEventData(feed[k]) == e
    decreases |feed|
  {
    if |feed| > 0 {
      var init := feed[..|feed| - 1];
      EventsKeepsEvents(init);
      assert forall k :: 0 <= k < |feed| - 1 ==> init[k] == feed[k];
    }
  }

  /** There is one internal record per VEVENT, in feed order: the k-th is the
      mapping of the record at the k-th VEVENT position. */
  lemma {:induction false} EventsInFeedOrder(feed: seq<FeedRecord>)
    ensures |Events(feed)| == |EventPositions(feed)|
    ensures forall k :: 0 <= k < |Events(feed)| ==> Events(feed)[k] == ToEventData(feed[EventPositions(feed)[k]])
    decreases |feed|
  {
    if |feed| > 0 {
      var init := feed[..|feed| - 1];
      var last := feed[|feed| - 1];
      EventsInFeedOrder(init);
      var evs0, ps0 := Events(init), EventPositions(init);
      var evs, ps := Events(feed), EventPositions(feed);
      assert evs == if IsEvent(last) then evs0 + [ToEventData(last)] else evs0;
      assert ps == if IsEvent(last) then ps0 + [|feed| - 1] else ps0;
      forall k | 0 <= k < |evs|
        ensures evs[k] == ToEventData(feed[ps[k]])
      {
        if k < |evs0| {
          assert evs[k] == evs0[k] && ps[k] == ps0[k];
          assert init[ps0[k]] == feed[ps0[k]];
        }
      }
    }
  }

  /** The feed's VEVENT records themselves, in feed order. */
  function OnlyEvents(feed: seq<FeedRecord>): seq<FeedRecord> {
    if |feed| == 0 then []
    else
      var init := OnlyEvents(feed[..|feed| - 1]);
      var last := feed[|feed| - 1];
      if IsEvent(last) then init + [last] else init
  }

  /** The internal records are the VEVENT filter's records, each mapped, in
      the same order. */
  lemma {:induction false} EventsMapsOnlyEvents(feed: seq<FeedRecord>)
    ensures Events(feed) == seq(|OnlyEvents(feed)|, k requires 0 <= k < |OnlyEvents(feed)| => ToEventData(OnlyEvents(feed)[k]))
  {
    EventsInFeedOrder(feed);
    OnlyEventsInFeedOrder(feed);
  }

  /** The VEVENT filter keeps exactly the feed's VEVENT records and nothing
      else, and no more of them than records in the feed. */
  lemma {:induction false} OnlyEventsKeepsEvents(feed: seq<FeedRecord>)
    ensures |OnlyEvents(feed)| <= |feed|
    ensures forall r :: r in OnlyEvents(feed) <==> r in feed && IsEvent(r)
    decreases |feed|
  {
    if |feed| > 0 {
      var init := feed[..|feed| - 1];
      OnlyEventsKeepsEvents(init);
      assert feed == init + [feed[|feed| - 1]];
    }
  }

  /** The VEVENT filter keeps each VEVENT record once, in feed order: its k-th
      record is the one at the k-th VEVENT position. */
  lemma {:induction false} OnlyEventsInFeedOrder(feed: seq<FeedRecord>)
    ensures |OnlyEvents(feed)| == |EventPositions(feed)|
    ensures forall k :: 0 <= k < |OnlyEvents(feed)| ==> OnlyEvents(feed)[k] == feed[EventPositions(feed)[k]]
    decreases |feed|
  {
    if |feed| > 0 {
      var init := feed[..|feed| - 1];
      var last := feed[|feed| - 1];
      OnlyEventsInFeedOrder(init);
      var rs0, ps0 := OnlyEvents(init), EventPositions(init);
      var rs, ps := OnlyEvents(feed), EventPositions(feed);
      assert rs == if IsEvent(last) then rs0 + [last] else rs0;
      assert ps == if IsEvent(last) then ps0 + [|feed| - 1] else ps0;
      forall k | 0 <= k < |rs|
        ensures rs[k] == feed[ps[k]]
      {
        if k < |rs0| {
          assert rs[k] == rs0[k] && ps[k] == ps0[k];
          assert init[ps0[k]] == feed[ps0[k]];
        }
      }
    }
  }

  /** Folds one add's effects into the run state. The add's calls are always
      recorded; exactly one of the log and the failures grows, by one entry;
      nothing recorded earlier changes. A resolved add logs its value and its
      calls count as applied; a rejected add records its message. */
  function Record(st: RunState, s: Step): (r: RunState)
    ensures r.calls == st.calls + s.calls
    ensures |r.eventLog| + |r.failures| == |st.eventLog| + |st.failures| + 1
    ensures s.settled.Resolved? ==> r.eventLog == st.eventLog + [s.settled.value] && r.applied == st.applied + s.calls
    ensures s.settled.Resolved? ==> r.failures == st.failures
    ensures s.settled.Rejected? ==> r.failures == st.failures + [s.settled.cause] && r.applied == st.applied
    ensures s.settled.Rejected? ==> r.eventLog == st.eventLog
  {
    match s.settled
    case Resolved(v) => st.(calls := st.calls + s.calls, applied := st.applied + s.calls, eventLog := st.eventLog + [v])
    case Rejected(m) => st.(calls := st.calls + s.calls, failures := st.failures + [m])
  }

  /** One iteration of the walk over the feed: a record that is not a VEVENT
      leaves the state as it was; a VEVENT issues its decision's calls and adds
      exactly one entry to the log or to the failures. */
  function Process(st: RunState, rec: FeedRecord, listing: seq<RemoteEvent>, oracle: Oracle): (r: RunState)
    ensures !IsEvent(rec) ==> r == st
    ensures IsEvent(rec) ==> st.calls <= r.calls && |r.calls| <= |st.calls| + 1
    ensures IsEvent(rec) ==> |r.eventLog| + |r.failures| == |st.eventLog| + |st.failures| + 1
    ensures st.eventLog <= r.eventLog && st.failures <= r.failures && st.applied <= r.applied
  {
    if !IsEvent(rec) then st
    else Record(st, AddEvent(ToEventData(rec), listing, c => oracle(|st.calls|, c)))
  }

  /** The calls one VEVENT adds are exactly its decision's calls against the listing. */
  lemma ProcessIssuesDecisionCalls(st: RunState, rec: FeedRecord, listing: seq<RemoteEvent>, oracle: Oracle)
    requires IsEvent(rec)
    ensures Process(st, rec, listing, oracle).calls == st.calls + CallsFor(ToEventData(rec), listing)
  {
  }

  /** The whole run over `feed` against the snapshot `listing`. */
  function Run(feed: seq<FeedRecord>, listing: seq<RemoteEvent>, oracle: Oracle): RunState
    decreases |feed|
  {
    if |feed| == 0 then Start
    else Process(Run(feed[..|feed| - 1], listing, oracle), feed[|feed| - 1], listing, oracle)
  }

  /** Each VEVENT either lands in the log or among the failures, never both and
      never neither. */
  lemma {:induction false} RunCounts(feed: seq<FeedRecord>, listing: seq<RemoteEvent>, oracle: Oracle)
    ensures |Run(feed, listing, oracle).eventLog| + |Run(feed, listing, oracle).failures| == |Events(feed)|
    decreases |feed|
  {
    if |feed| > 0 {
      RunCounts(feed[..|feed| - 1], listing, oracle);
    }
  }

  /** Each VEVENT issues at most one remote call, and each issued call was
      either accepted or failed. */
  lemma {:induction false} RunCallCounts(feed: seq<FeedRecord>, listing: seq<RemoteEvent>, oracle: Oracle)
    ensures |Run(feed, listing, oracle).calls| <= |Events(feed)|
    ensures |Run(feed, listing, oracle).applied| + |Run(feed, listing, oracle).failures| == |Run(feed, listing, oracle).calls|
    decreases |feed|
  {
    if |feed| > 0 {
      var init := feed[..|feed| - 1];
      var last := feed[|feed| - 1];
      RunCallCounts(init, listing, oracle);
      if IsEvent(last) {
        var st0 := Run(init, listing, oracle);
        var s := AddEvent(ToEventData(last), listing, c => oracle(|st0.calls|, c));
        assert Run(feed, listing, oracle) == Record(st0, s);
      }
    }
  }

  /** The run loop, as the source writes it: a walk with an accumulator. */
  method CreateEvents(feed: seq<FeedRecord>, listing: seq<RemoteEvent>, oracle: Oracle)
    returns (eventLog: seq<Logged>, failures: seq<string>)
    ensures |eventLog| + |failures| == |Events(feed)|
    ensures eventLog == Run(feed, listing, oracle).eventLog
    ensures failures == Run(feed, listing, oracle).failures
  {
    var st := Start;
    var i := 0;
    while i < |feed|
      invariant 0 <= i <= |feed|
      invariant st == Run(feed[..i], listing, oracle)
    {
      RunStep(feed, i, listing, oracle);
      st := Process(st, feed[i], listing, oracle);
      i := i + 1;
    }
    assert feed[..|feed|] == feed;
    RunCounts(feed, listing, oracle);
    eventLog, failures := st.eventLog, st.failures;
  }

  /** The fold over one more record is one more iteration of the walk. */
  lemma RunStep(feed: seq<FeedRecord>, i: nat, listing: seq<RemoteEvent>, oracle: Oracle)
    requires i < |feed|
    ensures Run(feed[..i + 1], listing, oracle) == Process(Run(feed[..i], listing, oracle), feed[i], listing, oracle)
  {
    assert feed[..i + 1][..i] == feed[..i];
  }

  /** The calls the events would issue against `listing`, concatenated in order. */
  function Plan(evs: seq<EventData>, listing: seq<RemoteEvent>): seq<Call>
    decreases |evs|
  {
    if |evs| == 0 then []
    else Plan(evs[..|evs| - 1], listing) + CallsFor(evs[|evs| - 1], listing)
  }

  /** The calls a run issues depend only on the feed's VEVENTs, in feed order,
      and on the one snapshot taken at the start: not on non-event records,
      not on any reply, and not on earlier writes of the same run. */
  lemma {:induction false} RunCallsArePlanned(feed: seq<FeedRecord>, listing: seq<RemoteEvent>, oracle: Oracle)
    ensures Run(feed, listing, oracle).calls == Plan(Events(feed), listing)
    decreases |feed|
  {
    if |feed| > 0 {
      var init := feed[..|feed| - 1];
      var last := feed[|feed| - 1];
      RunCallsArePlanned(init, listing, oracle);
      if IsEvent(last) {
        var evs := Events(init) + [ToEventData(last)];
        assert evs[..|evs| - 1] == Events(init);
      }
    }
  }

  /** Failure isolation: a failed add does not stop later events. Two runs whose
      services answer differently issue exactly the same calls. */
  lemma {:induction false} RunCallsIgnoreReplies(feed: seq<FeedRecord>, listing: seq<RemoteEvent>, o1: Oracle, o2: Oracle)
    ensures Run(feed, listing, o1).calls == Run(feed, listing, o2).calls
  {
    RunCallsArePlanned(feed, listing, o1);
    RunCallsArePlanned(feed, listing, o2);
  }

  /** Each event's add, in order, against the one listing; the k-th is answered
      at the offset of the calls the events before it issue. */
  function Outcomes(evs: seq<EventData>, listing: seq<RemoteEvent>, oracle: Oracle): (steps: seq<Step>)
    ensures |steps| == |evs|
  {
    seq(|evs|, k requires 0 <= k < |evs| => AddEvent(evs[k], listing, c => oracle(|Plan(evs[..k], listing)|, c)))
  }

  /** The values of the resolved steps, in order. */
  function ResolvedValues(steps: seq<Step>): seq<Logged>
    decreases |steps|
  {
    if |steps| == 0 then []
    else
      var last := steps[|steps| - 1];
      ResolvedValues(steps[..|steps| - 1]) + (if last.settled.Resolved? then [last.settled.value] else [])
  }

  /** The messages of the rejected steps, in order. */
  function RejectedCauses(steps: seq<Step>): seq<string>
    decreases |steps|
  {
    if |steps| == 0 then []
    else
      var last := steps[|steps| - 1];
      RejectedCauses(steps[..|steps| - 1]) + (if last.settled.Rejected? then [last.settled.cause] else [])
  }

  /** The calls of the resolved steps, in order. */
  function AcceptedCalls(steps: seq<Step>): seq<Call>
    decreases |steps|
  {
    if |steps| == 0 then []
    else
      var last := steps[|steps| - 1];
      AcceptedCalls(steps[..|steps| - 1]) + (if last.settled.Resolved? then last.calls else [])
  }

  /** Adding one event to the end adds its step to the end: the earlier steps
      keep their offsets, and the new one is answered after all their calls. */
  lemma OutcomesExtend(evs: seq<EventData>, e: EventData, listing: seq<RemoteEvent>, oracle: Oracle)
    ensures Outcomes(evs + [e], listing, oracle)
            == Outcomes(evs, listing, oracle) + [AddEvent(e, listing, c => oracle(|Plan(evs, listing)|, c))]
  {
    var evs' := evs + [e];
    assert evs'[..|evs|] == evs;
    forall k | 0 <= k < |evs|
      ensures Outcomes(evs', listing, oracle)[k] == Outcomes(evs, listing, oracle)[k]
    {
      assert evs'[..k] == evs[..k];
    }
  }

  /** The projections of steps grow only by what the appended step contributes. */
  lemma ProjectionsExtend(steps: seq<Step>, s: Step)
    ensures ResolvedValues(steps + [s]) == ResolvedValues(steps) + (if s.settled.Resolved? then [s.settled.value] else [])
    ensures RejectedCauses(steps + [s]) == RejectedCauses(steps) + (if s.settled.Rejected? then [s.settled.cause] else [])
    ensures AcceptedCalls(steps + [s]) == AcceptedCalls(steps) + (if s.settled.Resolved? then s.calls else [])
  {
    assert (steps + [s])[..|steps|] == steps;
  }

  /** The event log holds exactly the values the VEVENTs' adds resolved with,
      in processing order. */
  lemma {:induction false} RunLogFollowsOutcomes(feed: seq<FeedRecord>, listing: seq<RemoteEvent>, oracle: Oracle)
    ensures Run(feed, listing, oracle).eventLog == ResolvedValues(Outcomes(Events(feed), listing, oracle))
    decreases |feed|
  {
    if |feed| > 0 {
      var init := feed[..|feed| - 1];
      var last := feed[|feed| - 1];
      RunLogFollowsOutcomes(init, listing, oracle);
      RunCallsArePlanned(init, listing, oracle);
      if IsEvent(last) {
        var evs0 := Events(init);
        var e := ToEventData(last);
        assert Events(feed) == evs0 + [e];
        OutcomesExtend(evs0, e, listing, oracle);
        ProjectionsExtend(Outcomes(evs0, listing, oracle), AddEvent(e, listing, c => oracle(|Plan(evs0, listing)|, c)));
      }
    }
  }

  /** The failures hold exactly the messages of the VEVENTs' rejected adds, in
      processing order. */
  lemma {:induction false} RunFailuresFollowOutcomes(feed: seq<FeedRecord>, listing: seq<RemoteEvent>, oracle: Oracle)
    ensures Run(feed, listing, oracle).failures == RejectedCauses(Outcomes(Events(feed), listing, oracle))
    decreases |feed|
  {
    if |feed| > 0 {
      var init := feed[..|feed| - 1];
      var last := feed[|feed| - 1];
      RunFailuresFollowOutcomes(init, listing, oracle);
      RunCallsArePlanned(init, listing, oracle);
      if IsEvent(last) {
        var evs0 := Events(init);
        var e := ToEventData(last);
        assert Events(feed) == evs0 + [e];
        OutcomesExtend(evs0, e, listing, oracle);
        ProjectionsExtend(Outcomes(evs0, listing, oracle), AddEvent(e, listing, c => oracle(|Plan(evs0, listing)|, c)));
      }
    }
  }

  /** The applied calls are exactly the calls of the VEVENTs' resolved adds, in
      processing order. */
  lemma {:induction false} RunAppliedFollowsOutcomes(feed: seq<FeedRecord>, listing: seq<RemoteEvent>, oracle: Oracle)
    ensures Run(feed, listing, oracle).applied == AcceptedCalls(Outcomes(Events(feed), listing, oracle))
    decreases |feed|
  {
    if |feed| > 0 {
      var init := feed[..|feed| - 1];
      var last := feed[|feed| - 1];
      RunAppliedFollowsOutcomes(init, listing, oracle);
      RunCallsArePlanned(init, listing, oracle);
      if IsEvent(last) {
        var evs0 := Events(init);
        var e := ToEventData(last);
        assert Events(feed) == evs0 + [e];
        OutcomesExtend(evs0, e, listing, oracle);
        ProjectionsExtend(Outcomes(evs0, listing, oracle), AddEvent(e, listing, c => oracle(|Plan(evs0, listing)|, c)));
      }
    }
  }

  /** Only VEVENTs matter: dropping every other record changes nothing. */
  lemma {:induction false} RunIgnoresNonEvents(feed: seq<FeedRecord>, listing: seq<RemoteEvent>, oracle: Oracle)
    ensures Run(feed, listing, oracle) == Run(OnlyEvents(feed), listing, oracle)
    decreases |feed|
  {
    if |feed| > 0 {
      var init := feed[..|feed| - 1];
      var last := feed[|feed| - 1];
      RunIgnoresNonEvents(init, listing, oracle);
      if IsEvent(last) {
        var evs := OnlyEvents(init) + [last];
        assert evs[..|evs| - 1] == OnlyEvents(init);
      }
    }
  }

  /** When the service accepts every call, the log holds one entry per VEVENT
      and every issued call was applied. */
  lemma {:induction false} AllAcceptedLogsEveryEvent(feed: seq<FeedRecord>, listing: seq<RemoteEvent>, oracle: Oracle)
    requires forall n: nat, c: Call :: oracle(n, c).Ok?
    ensures Run(feed, listing, oracle).failures == []
    ensures |Run(feed, listing, oracle).eventLog| == |Events(feed)|
    ensures Run(feed, listing, oracle).applied == Run(feed, listing, oracle).calls
    decreases |feed|
  {
    if |feed| > 0 {
      AllAcceptedLogsEveryEvent(feed[..|feed| - 1], listing, oracle);
    }
  }

  /** A run without failures applied every call it issued. */
  lemma {:induction false} NoFailuresAppliesAll(feed: seq<FeedRecord>, listing: seq<RemoteEvent>, oracle: Oracle)
    requires Run(feed, listing, oracle).failures == []
    ensures Run(feed, listing, oracle).applied == Run(feed, listing, oracle).calls
    decreases |feed|
  {
    if |feed| > 0 {
      NoFailuresAppliesAll(feed[..|feed| - 1], listing, oracle);
    }
  }

  /** Against an empty calendar every VEVENT leads to an insert of its own
      resource, even two textually identical events: the snapshot is not
      re-read after a write. */
  lemma {:induction false} EmptyCalendarInsertsAll(evs: seq<EventData>)
    ensures |Plan(evs, [])| == |evs|
    ensures forall k :: 0 <= k < |evs| ==> Plan(evs, [])[k] == Insert(BuildResource(evs[k]))
    decreases |evs|
  {
    if |evs| > 0 {
      var init := evs[..|evs| - 1];
      EmptyCalendarInsertsAll(init);
      assert CallsFor(evs[|evs| - 1], []) == [Insert(BuildResource(evs[|evs| - 1]))];
    }
  }

  /** Every VEVENT of `feed` has a full match somewhere in `cal`. */
  ghost predicate Reconciled(feed: seq<FeedRecord>, cal: seq<RemoteEvent>) {
    forall k :: 0 <= k < |feed| && IsEvent(feed[k]) ==>
      exists i :: 0 <= i < |cal| && FullMatch(cal[i], ToEventData(feed[k]))
  }

  /** A run against a listing that already fully matches every VEVENT issues no
      remote call, fails nowhere, and logs the skip message once per VEVENT. */
  lemma {:induction false} ReconciledMakesNoCalls(feed: seq<FeedRecord>, listing: seq<RemoteEvent>, oracle: Oracle)
    requires Reconciled(feed, listing)
    ensures Run(feed, listing, oracle).calls == []
    ensures Run(feed, listing, oracle).failures == []
    ensures forall k :: 0 <= k < |Run(feed, listing, oracle).eventLog| ==>
              Run(feed, listing, oracle).eventLog[k] == Note(ALREADY_CREATED)
    decreases |feed|
  {
    if |feed| > 0 {
      var init := feed[..|feed| - 1];
      var last := feed[|feed| - 1];
      ReconciledOfPrefix(feed, listing);
      ReconciledMakesNoCalls(init, listing, oracle);
      var st0 := Run(init, listing, oracle);
      assert Run(feed, listing, oracle) == Process(st0, last, listing, oracle);
      if IsEvent(last) {
        assert exists i :: 0 <= i < |listing| && FullMatch(listing[i], ToEventData(last)) by {
          assert IsEvent(feed[|feed| - 1]);
        }
        SkipOnlyLogs(st0, last, listing, oracle);
        var log := Run(feed, listing, oracle).eventLog;
        assert log == st0.eventLog + [Note(ALREADY_CREATED)];
        forall k | 0 <= k < |log|
          ensures log[k] == Note(ALREADY_CREATED)
        {
          if k < |st0.eventLog| {
            assert log[k] == st0.eventLog[k];
          }
        }
      }
    }
  }

  /** Dropping the last record keeps a feed reconciled. */
  lemma ReconciledOfPrefix(feed: seq<FeedRecord>, listing: seq<RemoteEvent>)
    requires |feed| > 0 && Reconciled(feed, listing)
    ensures Reconciled(feed[..|feed| - 1], listing)
  {
    var init := feed[..|feed| - 1];
    forall k | 0 <= k < |init| && IsEvent(init[k])
      ensures exists i :: 0 <= i < |listing| && FullMatch(listing[i], ToEventData(init[k]))
    {
      assert init[k] == feed[k];
    }
  }

  /** A VEVENT that already has a full match only adds the skip message to the log. */
  lemma SkipOnlyLogs(st: RunState, rec: FeedRecord, listing: seq<RemoteEvent>, oracle: Oracle)
    requires IsEvent(rec)
    requires exists i :: 0 <= i < |listing| && FullMatch(listing[i], ToEventData(rec))
    ensures Process(st, rec, listing, oracle) == st.(eventLog := st.eventLog + [Note(ALREADY_CREATED)])
  {
  }
}
