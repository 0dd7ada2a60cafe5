/** Example runs on small concrete feeds: two inserts into an empty calendar, an
    update after a location change, a failure in the middle of a run, the
    shared snapshot, and a feed for which a second run is not idempotent. */
module Scenarios {
  import opened Records
  import opened Search
  import opened Dispatch
  import opened Sync
  import opened Service

  const Standup: FeedRecord :=
    FeedRecord(VEVENT, Some("Standup"), Some("daily sync"), Some("09:00"), Some("09:15"), Some("loc A"))
  const Retro: FeedRecord :=
    FeedRecord(VEVENT, Some("Retro"), Some("weekly review"), Some("15:00"), Some("16:00"), Some("loc B"))
  const Planning: FeedRecord :=
    FeedRecord(VEVENT, Some("Planning"), Some("sprint"), Some("10:00"), Some("11:00"), None)
  const Zone: FeedRecord :=
    FeedRecord("VTIMEZONE", None, None, None, None, None)

  /** A service that accepts every call. */
  function AcceptAll(n: nat, c: Call): Reply {
    Ok("accepted")
  }

  /** A service that rejects the second call of the run and accepts the others. */
  function RejectSecond(n: nat, c: Call): Reply {
    if n == 1 then Err("backend error") else Ok("accepted")
  }

  /** Two VEVENTs into an empty calendar: two inserts, two log entries, and the
      time-zone component in between is passed over. */
  lemma TwoEventsIntoEmptyCalendar()
    ensures Run([Standup, Zone, Retro], [], AcceptAll)
            == RunState([Insert(BuildResource(ToEventData(Standup))), Insert(BuildResource(ToEventData(Retro)))],
                        [Insert(BuildResource(ToEventData(Standup))), Insert(BuildResource(ToEventData(Retro)))],
                        [ApiResponse("accepted"), ApiResponse("accepted")], [])
  {
    var feed := [Standup, Zone, Retro];
    var a := Insert(BuildResource(ToEventData(Standup)));
    var b := Insert(BuildResource(ToEventData(Retro)));
    assert feed[..2] == [Standup, Zone];
    assert feed[..2][..1] == [Standup];
    assert feed[..2][..1][..0] == [];
    assert SearchEvent(ToEventData(Standup), []) == Create;
    assert SearchEvent(ToEventData(Retro), []) == Create;
    assert [Standup][..0] == [];
    assert AddEvent(ToEventData(Standup), [], c => AcceptAll(0, c)) == Step([a], Resolved(ApiResponse("accepted")));
    var s1 := RunState([a], [a], [ApiResponse("accepted")], []);
    assert Run([Standup], [], AcceptAll) == s1;
    assert Run([Standup, Zone], [], AcceptAll) == s1;
    assert AddEvent(ToEventData(Retro), [], c => AcceptAll(1, c)) == Step([b], Resolved(ApiResponse("accepted")));
    assert Run(feed, [], AcceptAll) == Process(s1, Retro, [], AcceptAll);
    assert Process(s1, Retro, [], AcceptAll) == Record(s1, Step([b], Resolved(ApiResponse("accepted"))));
  }

  /** A remote event with the same title and description but another location
      is updated in place, addressed by its id, with the feed's fields. */
  lemma LocationChangeUpdates()
    ensures Run([Standup], [RemoteEvent("r1", Some("Standup"), Some("daily sync"), None, None, Some("loc B"))], AcceptAll).calls
            == [UpdateById("r1", BuildResource(ToEventData(Standup)))]
    ensures BuildResource(ToEventData(Standup)).location == Some("loc A")
  {
    var listing := [RemoteEvent("r1", Some("Standup"), Some("daily sync"), None, None, Some("loc B"))];
    assert [Standup][..0] == [];
    assert PartialMatch(listing[0], ToEventData(Standup)) && !FullMatch(listing[0], ToEventData(Standup));
  }

  /** The run's first call is accepted. */
  lemma FirstOfMiddleFailure()
    ensures Run([Standup], [], RejectSecond)
            == RunState([Insert(BuildResource(ToEventData(Standup)))], [Insert(BuildResource(ToEventData(Standup)))],
                        [ApiResponse("accepted")], [])
  {
    var a := Insert(BuildResource(ToEventData(Standup)));
    assert [Standup][..0] == [];
    assert SearchEvent(ToEventData(Standup), []) == Create;
    assert AddEvent(ToEventData(Standup), [], c => RejectSecond(0, c)) == Step([a], Resolved(ApiResponse("accepted")));
  }

  /** The run's second call is rejected. */
  lemma FirstTwoOfMiddleFailure()
    ensures Run([Standup, Retro], [], RejectSecond)
            == RunState([Insert(BuildResource(ToEventData(Standup))), Insert(BuildResource(ToEventData(Retro)))],
                        [Insert(BuildResource(ToEventData(Standup)))], [ApiResponse("accepted")], ["backend error"])
  {
    var a := Insert(BuildResource(ToEventData(Standup)));
    var b := Insert(BuildResource(ToEventData(Retro)));
    FirstOfMiddleFailure();
    var s1 := RunState([a], [a], [ApiResponse("accepted")], []);
    assert [Standup, Retro][..1] == [Standup];
    assert SearchEvent(ToEventData(Retro), []) == Create;
    assert AddEvent(ToEventData(Retro), [], c => RejectSecond(1, c)) == Step([b], Rejected("backend error"));
    assert Run([Standup, Retro], [], RejectSecond) == Record(s1, Step([b], Rejected("backend error")));
  }

  /** After the rejection, the third add is attempted and accepted. */
  lemma ThirdOfMiddleFailure()
    ensures Process(RunState([Insert(BuildResource(ToEventData(Standup))), Insert(BuildResource(ToEventData(Retro)))],
                             [Insert(BuildResource(ToEventData(Standup)))], [ApiResponse("accepted")], ["backend error"]),
                    Planning, [], RejectSecond)
            == RunState([Insert(BuildResource(ToEventData(Standup))), Insert(BuildResource(ToEventData(Retro))),
                         Insert(BuildResource(ToEventData(Planning)))],
                        [Insert(BuildResource(ToEventData(Standup))), Insert(BuildResource(ToEventData(Planning)))],
                        [ApiResponse("accepted"), ApiResponse("accepted")], ["backend error"])
  {
    var p := Insert(BuildResource(ToEventData(Planning)));
    assert SearchEvent(ToEventData(Planning), []) == Create;
    assert AddEvent(ToEventData(Planning), [], c => RejectSecond(2, c)) == Step([p], Resolved(ApiResponse("accepted")));
  }

  /** The add of the second of three events fails: the first and the third are
      still attempted and logged, and the failure is recorded. */
  lemma MiddleFailureIsIsolated()
    ensures Run([Standup, Retro, Planning], [], RejectSecond)
            == RunState([Insert(BuildResource(ToEventData(Standup))), Insert(BuildResource(ToEventData(Retro))),
                         Insert(BuildResource(ToEventData(Planning)))],
                        [Insert(BuildResource(ToEventData(Standup))), Insert(BuildResource(ToEventData(Planning)))],
                        [ApiResponse("accepted"), ApiResponse("accepted")], ["backend error"])
  {
    var feed := [Standup, Retro, Planning];
    FirstTwoOfMiddleFailure();
    ThirdOfMiddleFailure();
    assert feed[..2] == [Standup, Retro];
    assert Run(feed, [], RejectSecond) == Process(Run([Standup, Retro], [], RejectSecond), Planning, [], RejectSecond);
  }

  /** Every add is matched against the snapshot taken before the walk, so two
      textually identical events both lead to an insert. */
  lemma IdenticalEventsBothInserted()
    ensures Run([Standup, Standup], [], AcceptAll).calls
            == [Insert(BuildResource(ToEventData(Standup))), Insert(BuildResource(ToEventData(Standup)))]
  {
    var e := ToEventData(Standup);
    var a := Insert(BuildResource(e));
    assert [Standup, Standup][..1] == [Standup];
    assert [Standup][..0] == [];
    assert SearchEvent(e, []) == Create;
    assert AddEvent(e, [], c => AcceptAll(0, c)) == Step([a], Resolved(ApiResponse("accepted")));
    var s1 := RunState([a], [a], [ApiResponse("accepted")], []);
    assert Run([Standup], [], AcceptAll) == s1;
    assert Run([Standup, Standup], [], AcceptAll) == Process(s1, Standup, [], AcceptAll);
  }

  const Moved: FeedRecord := Standup.(location := Some("loc C"))
  const Shared: RemoteEvent := RemoteEvent("r1", Some("Standup"), Some("daily sync"), None, None, Some("loc B"))

  /** The first event partially matches the one remote event and updates it. */
  lemma SharedKeyAfterFirst()
    ensures Run([Standup], [Shared], AcceptAll)
            == RunState([UpdateById("r1", BuildResource(ToEventData(Standup)))],
                        [UpdateById("r1", BuildResource(ToEventData(Standup)))], [ApiResponse("accepted")], [])
  {
    var e1 := ToEventData(Standup);
    var u1 := UpdateById("r1", BuildResource(e1));
    assert [Standup][..0] == [];
    assert !FullMatch(Shared, e1) && PartialMatch(Shared, e1);
    assert SearchEvent(e1, [Shared]) == Update("r1");
    assert AddEvent(e1, [Shared], c => AcceptAll(0, c)) == Step([u1], Resolved(ApiResponse("accepted")));
  }

  /** The second event partially matches the same remote event and updates it too. */
  lemma SharedKeyAfterSecond()
    ensures Process(RunState([UpdateById("r1", BuildResource(ToEventData(Standup)))],
                             [UpdateById("r1", BuildResource(ToEventData(Standup)))], [ApiResponse("accepted")], []),
                    Moved, [Shared], AcceptAll)
            == RunState([UpdateById("r1", BuildResource(ToEventData(Standup))), UpdateById("r1", BuildResource(ToEventData(Moved)))],
                        [UpdateById("r1", BuildResource(ToEventData(Standup))), UpdateById("r1", BuildResource(ToEventData(Moved)))],
                        [ApiResponse("accepted"), ApiResponse("accepted")], [])
  {
    var e2 := ToEventData(Moved);
    var u2 := UpdateById("r1", BuildResource(e2));
    assert !FullMatch(Shared, e2) && PartialMatch(Shared, e2);
    assert SearchEvent(e2, [Shared]) == Update("r1");
    assert AddEvent(e2, [Shared], c => AcceptAll(1, c)) == Step([u2], Resolved(ApiResponse("accepted")));
  }

  /** Both events partially match the one remote event, so both update it. */
  lemma SharedKeyFirstRun()
    ensures Run([Standup, Moved], [Shared], AcceptAll)
            == RunState([UpdateById("r1", BuildResource(ToEventData(Standup))), UpdateById("r1", BuildResource(ToEventData(Moved)))],
                        [UpdateById("r1", BuildResource(ToEventData(Standup))), UpdateById("r1", BuildResource(ToEventData(Moved)))],
                        [ApiResponse("accepted"), ApiResponse("accepted")], [])
  {
    SharedKeyAfterFirst();
    SharedKeyAfterSecond();
    assert [Standup, Moved][..1] == [Standup];
    assert Run([Standup, Moved], [Shared], AcceptAll) == Process(Run([Standup], [Shared], AcceptAll), Moved, [Shared], AcceptAll);
  }

  /** The later write wins: the calendar ends with the second event's location. */
  lemma SharedKeyCalendarAfter()
    ensures ApplyAll([Shared], [UpdateById("r1", BuildResource(ToEventData(Standup))), UpdateById("r1", BuildResource(ToEventData(Moved)))])
            == [Stored("r1", BuildResource(ToEventData(Moved)))]
  {
    var u1 := UpdateById("r1", BuildResource(ToEventData(Standup)));
    var u2 := UpdateById("r1", BuildResource(ToEventData(Moved)));
    assert [u1, u2][..1] == [u1];
    assert [u1][..0] == [];
    var mid := Apply([Shared], u1);
    assert mid == [Stored("r1", BuildResource(ToEventData(Standup)))];
    assert ApplyAll([Shared], [u1]) == mid;
  }

  /** Against the rewritten event the first VEVENT is only a partial match again. */
  lemma SharedKeySecondRun()
    ensures Run([Standup, Moved], [Stored("r1", BuildResource(ToEventData(Moved)))], AcceptAll).calls != []
  {
    var e1 := ToEventData(Standup);
    var e2 := ToEventData(Moved);
    var after := [Stored("r1", BuildResource(e2))];
    assert !FullMatch(after[0], e1) && PartialMatch(after[0], e1);
    assert SearchEvent(e1, after) == Update("r1");
    RunCallsArePlanned([Standup, Moved], after, AcceptAll);
    assert [Standup, Moved][..1] == [Standup];
    assert [Standup][..0] == [];
    assert Events([Standup]) == [e1];
    assert Events([Standup, Moved]) == [e1, e2];
    assert [e1, e2][..1] == [e1];
    assert [e1][..0] == [];
    assert Plan([e1], after) == [UpdateById("r1", BuildResource(e1))];
  }

  /** Without distinct keys a second run is not idempotent: two VEVENTs that
      share title and description but not location both update the same remote
      event, the later write wins, and the next run updates it again. */
  lemma SharedKeyIsNotIdempotent()
    ensures UniqueIds([Shared])
    ensures Run([Standup, Moved], [Shared], AcceptAll).failures == []
    ensures Run([Standup, Moved], ApplyAll([Shared], Run([Standup, Moved], [Shared], AcceptAll).applied), AcceptAll).calls != []
  {
    SharedKeyFirstRun();
    SharedKeyCalendarAfter();
    SharedKeySecondRun();
  }
}
