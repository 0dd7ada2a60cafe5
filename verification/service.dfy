/** A remote calendar that carries out the calls it accepts: an insert
    appends the resource under a fresh id, an update replaces the event with
    the addressed id. With it, a second run over an unchanged feed is shown to
    issue no writes when the feed's VEVENTs have pairwise distinct
    title+description pairs, the calendar's ids are unique and the first run
    had no failure. */
module Service {
  import opened Records
  import opened Search
  import opened Dispatch
  import opened Sync

  predicate UniqueIds(cal: seq<RemoteEvent>) {
    forall i, j :: 0 <= i < j < |cal| ==> cal[i].id != cal[j].id
  }

  /** A bound on the length of every id in the calendar. */
  function LongestId(cal: seq<RemoteEvent>): (n: nat)
    ensures forall i :: 0 <= i < |cal| ==> |cal[i].id| <= n
  {
    if |cal| == 0 then 0
    else
      var rest := LongestId(cal[1..]);
      assert forall i :: 1 <= i < |cal| ==> cal[i] == cal[1..][i - 1];
      if |cal[0].id| > rest then |cal[0].id| else rest
  }

  /** An id the calendar does not use yet. */
  function FreshId(cal: seq<RemoteEvent>): (id: string)
    ensures forall i :: 0 <= i < |cal| ==> cal[i].id != id
  {
    seq(LongestId(cal) + 1, _ => 'e')
  }

  /** The calendar after it carries out one accepted call. Ids stay unique;
      an update keeps the order and every id, rewrites exactly the events with
      the addressed id, and leaves every other event as it was. */
  function Apply(cal: seq<RemoteEvent>, c: Call): (cal': seq<RemoteEvent>)
    ensures UniqueIds(cal) ==> UniqueIds(cal')
    ensures c.Insert? ==> |cal'| == |cal| + 1 && cal'[..|cal|] == cal
    ensures c.Insert? ==> cal'[|cal|].id !in (set i | 0 <= i < |cal| :: cal[i].id)
    ensures c.Insert? ==> cal'[|cal|] == Stored(cal'[|cal|].id, c.resource)
    ensures c.UpdateById? ==> |cal'| == |cal|
    ensures c.UpdateById? ==> forall i :: 0 <= i < |cal| ==>
              if cal[i].id == c.eventId then cal'[i] == Stored(c.eventId, c.resource) else cal'[i] == cal[i]
  {
    match c
    case Insert(r) => cal + [Stored(FreshId(cal), r)]
    case UpdateById(id, r) =>
      seq(|cal|, i requires 0 <= i < |cal| => if cal[i].id == id then Stored(id, r) else cal[i])
  }

  /** The calendar after it carries out a sequence of accepted calls, in order. */
  function ApplyAll(cal: seq<RemoteEvent>, cs: seq<Call>): seq<RemoteEvent>
    decreases |cs|
  {
    if |cs| == 0 then cal
    else Apply(ApplyAll(cal, cs[..|cs| - 1]), cs[|cs| - 1])
  }

  /** Two feed records whose internal records have the same matching key. */
  predicate SameKey(a: FeedRecord, b: FeedRecord) {
    Key(ToEventData(a)) == Key(ToEventData(b))
  }

  /** Two records share a key exactly when every listed event partially
      matches both of them or neither. */
  lemma SameKeyIsSamePartialMatches(a: FeedRecord, b: FeedRecord)
    ensures SameKey(a, b) <==> forall x :: PartialMatch(x, ToEventData(a)) == PartialMatch(x, ToEventData(b))
  {
    if !SameKey(a, b) {
      var x := RemoteEvent("", a.summary, a.description, None, None, None);
      assert PartialMatch(x, ToEventData(a)) && !PartialMatch(x, ToEventData(b));
    }
  }

  /** No two VEVENTs of the feed share a title and a description. */
  ghost predicate DistinctKeys(feed: seq<FeedRecord>) {
    forall i, j :: 0 <= i < j < |feed| && IsEvent(feed[i]) && IsEvent(feed[j]) ==> !SameKey(feed[i], feed[j])
  }

  /** No VEVENT of the feed even partially matches `x`. */
  ghost predicate KeyFree(feed: seq<FeedRecord>, x: RemoteEvent) {
    forall k :: 0 <= k < |feed| && IsEvent(feed[k]) ==> !PartialMatch(x, ToEventData(feed[k]))
  }

  /** Every event of the snapshot that no VEVENT of `feed` partially matches is still in `cal`. */
  ghost predicate Untouched(snapshot: seq<RemoteEvent>, feed: seq<FeedRecord>, cal: seq<RemoteEvent>) {
    forall i :: 0 <= i < |snapshot| && KeyFree(feed, snapshot[i]) ==> snapshot[i] in cal
  }

  /** The invariant of a failure-free run with distinct keys: after the accepted
      calls, ids are unique, every VEVENT processed so far has a full match, and
      snapshot events nobody touched are still there. */
  ghost predicate RunInvariant(snapshot: seq<RemoteEvent>, feed: seq<FeedRecord>, cal: seq<RemoteEvent>) {
    UniqueIds(cal) && Reconciled(feed, cal) && Untouched(snapshot, feed, cal)
  }

  /** An event that matches the key of the last record is key-free for the
      earlier ones when keys are distinct. */
  lemma KeyFreeOfLast(feed: seq<FeedRecord>, x: RemoteEvent)
    requires |feed| > 0 && DistinctKeys(feed) && IsEvent(feed[|feed| - 1])
    requires PartialMatch(x, ToEventData(feed[|feed| - 1]))
    ensures KeyFree(feed[..|feed| - 1], x)
  {
    var init := feed[..|feed| - 1];
    forall k | 0 <= k < |init| && IsEvent(init[k])
      ensures !PartialMatch(x, ToEventData(init[k]))
    {
      assert init[k] == feed[k];
      assert !SameKey(feed[k], feed[|feed| - 1]);
    }
  }

  /** Appending a non-event record, or an event that `cal` fully matches while
      keeping the untouched snapshot events, extends the invariant. */
  lemma ExtendReconciled(snapshot: seq<RemoteEvent>, feed: seq<FeedRecord>, cal: seq<RemoteEvent>, cal': seq<RemoteEvent>)
    requires |feed| > 0
    requires Reconciled(feed[..|feed| - 1], cal)
    requires forall k :: 0 <= k < |feed| - 1 && IsEvent(feed[k]) ==>
               (forall i :: 0 <= i < |cal| && FullMatch(cal[i], ToEventData(feed[k])) ==>
                  exists i' :: 0 <= i' < |cal'| && FullMatch(cal'[i'], ToEventData(feed[k])))
    requires IsEvent(feed[|feed| - 1]) ==>
               exists i :: 0 <= i < |cal'| && FullMatch(cal'[i], ToEventData(feed[|feed| - 1]))
    ensures Reconciled(feed, cal')
  {
    var init := feed[..|feed| - 1];
    forall k | 0 <= k < |feed| && IsEvent(feed[k])
      ensures exists i :: 0 <= i < |cal'| && FullMatch(cal'[i], ToEventData(feed[k]))
    {
      if k < |feed| - 1 {
        assert init[k] == feed[k];
        var i :| 0 <= i < |cal| && FullMatch(cal[i], ToEventData(init[k]));
      }
    }
  }

  /** The inductive step for an update of the snapshot item at `j`. */
  lemma UpdateStep(snapshot: seq<RemoteEvent>, feed: seq<FeedRecord>, cal: seq<RemoteEvent>, j: nat)
    requires |feed| > 0 && DistinctKeys(feed) && IsEvent(feed[|feed| - 1])
    requires RunInvariant(snapshot, feed[..|feed| - 1], cal)
    requires j < |snapshot| && PartialMatch(snapshot[j], ToEventData(feed[|feed| - 1]))
    ensures RunInvariant(snapshot, feed,
              Apply(cal, UpdateById(snapshot[j].id, BuildResource(ToEventData(feed[|feed| - 1])))))
  {
    var init := feed[..|feed| - 1];
    var e := ToEventData(feed[|feed| - 1]);
    var id := snapshot[j].id;
    var cal' := Apply(cal, UpdateById(id, BuildResource(e)));
    KeyFreeOfLast(feed, snapshot[j]);
    var p :| 0 <= p < |cal| && cal[p] == snapshot[j];
    assert cal'[p] == Stored(id, BuildResource(e));
    // Any other event with that id would be `cal[p]` itself, so only `cal[p]` changes.
    forall q | 0 <= q < |cal| && q != p
      ensures cal'[q] == cal[q]
    {
      assert cal[q].id != id;
    }
    forall k | 0 <= k < |feed| - 1 && IsEvent(feed[k])
      ensures forall i :: 0 <= i < |cal| && FullMatch(cal[i], ToEventData(feed[k])) ==>
                exists i' :: 0 <= i' < |cal'| && FullMatch(cal'[i'], ToEventData(feed[k]))
    {
      forall i | 0 <= i < |cal| && FullMatch(cal[i], ToEventData(feed[k]))
        ensures exists i' :: 0 <= i' < |cal'| && FullMatch(cal'[i'], ToEventData(feed[k]))
      {
        assert init[k] == feed[k];
        assert i != p;
        assert cal'[i] == cal[i];
      }
    }
    ExtendReconciled(snapshot, feed, cal, cal');
    forall m | 0 <= m < |snapshot| && KeyFree(feed, snapshot[m])
      ensures snapshot[m] in cal'
    {
      assert KeyFree(init, snapshot[m]) by {
        forall k | 0 <= k < |init| && IsEvent(init[k])
          ensures !PartialMatch(snapshot[m], ToEventData(init[k]))
        {
          assert init[k] == feed[k];
        }
      }
      var q :| 0 <= q < |cal| && cal[q] == snapshot[m];
      assert q != p;
      assert cal'[q] == cal[q];
    }
  }

  /** The inductive step for an insert. */
  lemma InsertStep(snapshot: seq<RemoteEvent>, feed: seq<FeedRecord>, cal: seq<RemoteEvent>)
    requires |feed| > 0 && IsEvent(feed[|feed| - 1])
    requires RunInvariant(snapshot, feed[..|feed| - 1], cal)
    ensures RunInvariant(snapshot, feed, Apply(cal, Insert(BuildResource(ToEventData(feed[|feed| - 1])))))
  {
    var init := feed[..|feed| - 1];
    var e := ToEventData(feed[|feed| - 1]);
    var cal' := Apply(cal, Insert(BuildResource(e)));
    assert FullMatch(cal'[|cal|], e);
    forall k | 0 <= k < |feed| - 1 && IsEvent(feed[k])
      ensures forall i :: 0 <= i < |cal| && FullMatch(cal[i], ToEventData(feed[k])) ==>
                exists i' :: 0 <= i' < |cal'| && FullMatch(cal'[i'], ToEventData(feed[k]))
    {
      forall i | 0 <= i < |cal| && FullMatch(cal[i], ToEventData(feed[k]))
        ensures exists i' :: 0 <= i' < |cal'| && FullMatch(cal'[i'], ToEventData(feed[k]))
      {
        assert cal'[i] == cal[i];
      }
    }
    ExtendReconciled(snapshot, feed, cal, cal');
    forall m | 0 <= m < |snapshot| && KeyFree(feed, snapshot[m])
      ensures snapshot[m] in cal'
    {
      assert KeyFree(init, snapshot[m]) by {
        forall k | 0 <= k < |init| && IsEvent(init[k])
          ensures !PartialMatch(snapshot[m], ToEventData(init[k]))
        {
          assert init[k] == feed[k];
        }
      }
      var q :| 0 <= q < |cal| && cal[q] == snapshot[m];
      assert cal'[q] == cal[q];
    }
  }

  /** The inductive step for a skip of the snapshot item at `j`: nothing is written. */
  lemma SkipStep(snapshot: seq<RemoteEvent>, feed: seq<FeedRecord>, cal: seq<RemoteEvent>, j: nat)
    requires |feed| > 0 && DistinctKeys(feed) && IsEvent(feed[|feed| - 1])
    requires RunInvariant(snapshot, feed[..|feed| - 1], cal)
    requires j < |snapshot| && FullMatch(snapshot[j], ToEventData(feed[|feed| - 1]))
    ensures RunInvariant(snapshot, feed, cal)
  {
    var init := feed[..|feed| - 1];
    KeyFreeOfLast(feed, snapshot[j]);
    var p :| 0 <= p < |cal| && cal[p] == snapshot[j];
    ExtendReconciled(snapshot, feed, cal, cal);
    forall m | 0 <= m < |snapshot| && KeyFree(feed, snapshot[m])
      ensures snapshot[m] in cal
    {
      assert KeyFree(init, snapshot[m]) by {
        forall k | 0 <= k < |init| && IsEvent(init[k])
          ensures !PartialMatch(snapshot[m], ToEventData(init[k]))
        {
          assert init[k] == feed[k];
        }
      }
    }
  }

  /** A non-event record changes nothing. */
  lemma PassStep(snapshot: seq<RemoteEvent>, feed: seq<FeedRecord>, cal: seq<RemoteEvent>)
    requires |feed| > 0 && !IsEvent(feed[|feed| - 1])
    requires RunInvariant(snapshot, feed[..|feed| - 1], cal)
    ensures RunInvariant(snapshot, feed, cal)
  {
    var init := feed[..|feed| - 1];
    ExtendReconciled(snapshot, feed, cal, cal);
    forall m | 0 <= m < |snapshot| && KeyFree(feed, snapshot[m])
      ensures snapshot[m] in cal
    {
      assert KeyFree(init, snapshot[m]) by {
        forall k | 0 <= k < |init| && IsEvent(init[k])
          ensures !PartialMatch(snapshot[m], ToEventData(init[k]))
        {
          assert init[k] == feed[k];
        }
      }
    }
  }

  /** Dropping the last record keeps the VEVENTs' keys distinct. */
  lemma DistinctKeysOfPrefix(feed: seq<FeedRecord>)
    requires |feed| > 0 && DistinctKeys(feed)
    ensures DistinctKeys(feed[..|feed| - 1])
  {
    var init := feed[..|feed| - 1];
    forall i, j | 0 <= i < j < |init| && IsEvent(init[i]) && IsEvent(init[j])
      ensures !SameKey(init[i], init[j])
    {
      assert init[i] == feed[i] && init[j] == feed[j];
    }
  }

  /** A failure-free run over a feed with distinct keys, started from a calendar
      with unique ids, leaves a calendar in which every VEVENT has a full match. */
  lemma {:induction false} RunReconciles(feed: seq<FeedRecord>, snapshot: seq<RemoteEvent>, oracle: Oracle)
    requires UniqueIds(snapshot) && DistinctKeys(feed)
    requires Run(feed, snapshot, oracle).failures == []
    ensures RunInvariant(snapshot, feed, ApplyAll(snapshot, Run(feed, snapshot, oracle).applied))
    decreases |feed|
  {
    if |feed| == 0 {
      forall m | 0 <= m < |snapshot| ensures snapshot[m] in snapshot { }
    } else {
      var init := feed[..|feed| - 1];
      var last := feed[|feed| - 1];
      var st0 := Run(init, snapshot, oracle);
      DistinctKeysOfPrefix(feed);
      var cal0 := ApplyAll(snapshot, st0.applied);
      if !IsEvent(last) {
        RunReconciles(init, snapshot, oracle);
        PassStep(snapshot, feed, cal0);
      } else {
        var e := ToEventData(last);
        var s := AddEvent(e, snapshot, c => oracle(|st0.calls|, c));
        assert Run(feed, snapshot, oracle) == Record(st0, s);
        assert s.settled.Resolved?;
        RunReconciles(init, snapshot, oracle);
        var applied := st0.applied + s.calls;
        assert Run(feed, snapshot, oracle).applied == applied;
        match SearchEvent(e, snapshot)
        case Skip(id) =>
          var j :| FirstFullAt(snapshot, e, j) && snapshot[j].id == id;
          assert applied == st0.applied;
          SkipStep(snapshot, feed, cal0, j);
        case Update(id) =>
          var j :| FirstPartialAt(snapshot, e, j) && snapshot[j].id == id;
          assert applied[..|applied| - 1] == st0.applied;
          UpdateStep(snapshot, feed, cal0, j);
        case Create =>
          assert applied[..|applied| - 1] == st0.applied;
          InsertStep(snapshot, feed, cal0);
      }
    }
  }

  /** Idempotence: after a failure-free run over a feed whose VEVENTs have
      distinct title+description pairs, against a calendar with unique ids, a
      second run over the same feed against the resulting calendar issues no
      remote call, fails nowhere, and logs only skips. */
  lemma {:induction false} SecondRunOnlySkips(feed: seq<FeedRecord>, snapshot: seq<RemoteEvent>, o1: Oracle, o2: Oracle)
    requires UniqueIds(snapshot) && DistinctKeys(feed)
    requires Run(feed, snapshot, o1).failures == []
    ensures var after := ApplyAll(snapshot, Run(feed, snapshot, o1).applied);
            && Run(feed, after, o2).calls == []
            && Run(feed, after, o2).failures == []
            && forall k :: 0 <= k < |Run(feed, after, o2).eventLog| ==>
                 Run(feed, after, o2).eventLog[k] == Note(ALREADY_CREATED)
  {
    RunReconciles(feed, snapshot, o1);
    ReconciledMakesNoCalls(feed, ApplyAll(snapshot, Run(feed, snapshot, o1).applied), o2);
  }
}
