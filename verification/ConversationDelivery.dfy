/**
 Delivering a fetched conversation and moving its saved head: pkg/connector/sync.go
 (prepareConversationDelivery, missingConversationMessages, deliverConversation,
 commitConversationDeliveryWithSubmissionLock) and the job run of inbound_sync.go around them.
 */
module ConversationDelivery {
  import opened Wrappers
  import opened RemoteIDs
  import opened HistoryScan
  import opened EchoMatching
  import opened EchoReconciliation
  import opened Sequences

  // A message goes out with the transaction of the send that it echoes, if it has one.
  datatype Event = NewMessage(message: Message, transaction: Option<TransactionID>) | ReadReceipt

  // What the event queue says about one event.
  datatype Handling = Handling(success: bool, queued: bool)

  datatype DeliveryError = Interrupted | NotAccepted | PortalUnavailable | Held(count: nat) | Superseded
    | InvalidBoundary

  // What is left of a fetch after the echo reconciliation has taken finalized and held messages out. A
  // message whose mapping conflicts with another one counts as finalized: its send is parked.
  datatype Delivery = Delivery(messages: seq<Message>, transactions: map<string, TransactionID>, readReceipt: bool,
    heldCount: nat, headID: string)
  {
    function EventOf(m: Message): Event {
      NewMessage(m, if m.id in transactions then Some(transactions[m.id]) else None)
    }

    // The events in the order in which they go out.
    function Chain(): seq<Event> {
      seq(|messages|, i requires 0 <= i < |messages| => EventOf(messages[i]))
      + if readReceipt then [ReadReceipt] else []
    }
  }

  // ---- Sorting ----

  function Inserted(sorted: seq<Message>, m: Message, now: Instant): seq<Message> {
    if sorted == [] || !SortsBefore(m, sorted[|sorted| - 1], now) then sorted + [m]
    else Inserted(sorted[..|sorted| - 1], m, now) + [sorted[|sorted| - 1]]
  }

  // Oldest first; messages of one time keep their order.
  function Sorted(messages: seq<Message>, now: Instant): seq<Message> {
    if messages == [] then []
    else Inserted(Sorted(messages[..|messages| - 1], now), messages[|messages| - 1], now)
  }

  predicate IsSorted(messages: seq<Message>, now: Instant) {
    forall i, j | 0 <= i < j < |messages| :: !SortsBefore(messages[j], messages[i], now)
  }

  function OfTime(messages: seq<Message>, time: Option<Instant>, now: Instant): seq<Message> {
    Filter(messages, (m: Message) => SortTime(m, now) == time)
  }

  // The same messages, oldest first, and those of one time in the order they had.
  ghost predicate IsStableSort(messages: seq<Message>, sorted: seq<Message>, now: Instant) {
    IsSorted(sorted, now) && forall time :: OfTime(sorted, time, now) == OfTime(messages, time, now)
  }

  lemma SortOrder(a: Message, b: Message, c: Message, now: Instant)
    ensures !SortsBefore(a, b, now) && !SortsBefore(b, c, now) ==> !SortsBefore(a, c, now)
    ensures SortsBefore(a, b, now) ==> !SortsBefore(b, a, now)
    ensures SortTime(a, now) == SortTime(b, now) ==> !SortsBefore(a, b, now)
    ensures !SortsBefore(a, b, now) && !SortsBefore(b, a, now) ==> SortTime(a, now) == SortTime(b, now)
  {
  }

  lemma OfTimeAppends(messages: seq<Message>, m: Message, time: Option<Instant>, now: Instant)
    ensures OfTime(messages + [m], time, now) ==
      if SortTime(m, now) == time then OfTime(messages, time, now) + [m] else OfTime(messages, time, now)
  {
    FilterAppends(messages, m, (m: Message) => SortTime(m, now) == time);
  }

  lemma {:induction false} InsertedIsSorted(sorted: seq<Message>, m: Message, now: Instant)
    requires IsSorted(sorted, now)
    ensures IsSorted(Inserted(sorted, m, now), now)
    ensures forall x :: x in Inserted(sorted, m, now) <==> x in sorted || x == m
  {
    hide SortsBefore;
    if sorted != [] {
      var init, last := sorted[..|sorted| - 1], sorted[|sorted| - 1];
      assert sorted == init + [last];
      if SortsBefore(m, last, now) {
        InsertedIsSorted(init, m, now);
        SortOrder(m, last, m, now);
        forall x | x in Inserted(init, m, now) ensures !SortsBefore(last, x, now) {
          assert x == m || x in init;
        }
      } else {
        forall x | x in sorted ensures !SortsBefore(m, x, now) {
          SortOrder(m, last, x, now);
        }
      }
    }
  }

  lemma {:induction false} InsertedIsLast(sorted: seq<Message>, m: Message, time: Option<Instant>, now: Instant)
    ensures OfTime(Inserted(sorted, m, now), time, now) == OfTime(sorted + [m], time, now)
  {
    OfTimeAppends(sorted, m, time, now);
    if sorted != [] {
      var init, last := sorted[..|sorted| - 1], sorted[|sorted| - 1];
      assert sorted == init + [last];
      if SortsBefore(m, last, now) {
        InsertedIsLast(init, m, time, now);
        SortOrder(m, last, m, now);
        hide SortsBefore, OfTime;
        OfTimeAppends(init, last, time, now);
        OfTimeAppends(init, m, time, now);
        OfTimeAppends(Inserted(init, m, now), last, time, now);
      }
    }
  }

  lemma {:induction false} SortedIsSorted(messages: seq<Message>, now: Instant)
    ensures IsSorted(Sorted(messages, now), now)
  {
    hide IsSorted, Inserted, SortsBefore;
    if messages == [] {
      NothingIsSorted(now);
    } else {
      var init, last := messages[..|messages| - 1], messages[|messages| - 1];
      SortedIsSorted(init, now);
      InsertedIsSorted(Sorted(init, now), last, now);
    }
  }

  lemma {:induction false} SortedKeepsOrder(messages: seq<Message>, time: Option<Instant>, now: Instant)
    ensures OfTime(Sorted(messages, now), time, now) == OfTime(messages, time, now)
  {
    hide Inserted, SortsBefore, OfTime;
    if messages != [] {
      var init, last := messages[..|messages| - 1], messages[|messages| - 1];
      var sorted := Sorted(init, now);
      SortedKeepsOrder(init, time, now);
      InsertedIsLast(sorted, last, time, now);
      OfTimeAppends(sorted, last, time, now);
      OfTimeAppends(init, last, time, now);
      assert messages == init + [last];
    }
  }

  lemma SortedIsStable(messages: seq<Message>, now: Instant)
    ensures IsStableSort(messages, Sorted(messages, now), now)
  {
    hide IsSorted, OfTime, Sorted;
    SortedIsSorted(messages, now);
    forall time ensures OfTime(Sorted(messages, now), time, now) == OfTime(messages, time, now) {
      SortedKeepsOrder(messages, time, now);
    }
  }

  lemma NothingIsSorted(now: Instant)
    ensures IsSorted([], now)
  {
  }

  lemma SameMembers(messages: seq<Message>, sorted: seq<Message>, now: Instant)
    requires forall time :: OfTime(sorted, time, now) == OfTime(messages, time, now)
    ensures forall m :: m in sorted <==> m in messages
  {
    forall m ensures m in sorted <==> m in messages {
      assert m in OfTime(sorted, SortTime(m, now), now) <==> m in OfTime(messages, SortTime(m, now), now);
    }
  }

  lemma LastsAreNewest(a: seq<Message>, b: seq<Message>, now: Instant)
    requires IsSorted(a, now) && IsSorted(b, now) && forall m :: m in a <==> m in b
    ensures a == [] <==> b == []
    ensures a != [] && b != [] ==>
      && IsSorted(a[..|a| - 1], now) && IsSorted(b[..|b| - 1], now)
      && SortTime(a[|a| - 1], now) == SortTime(b[|b| - 1], now)
  {
    hide SortsBefore;
    assert a == [] || a[0] in b;
    assert b == [] || b[0] in a;
    if a != [] && b != [] {
      var lastA, lastB := a[|a| - 1], b[|b| - 1];
      assert lastA in b && lastB in a;
      SortOrder(lastA, lastA, lastA, now);
      SortOrder(lastB, lastB, lastB, now);
      SortOrder(lastA, lastB, lastA, now);
    }
  }

  /** Only one order is stable. */
  lemma {:induction false} OneOrder(a: seq<Message>, b: seq<Message>, now: Instant)
    requires IsSorted(a, now) && IsSorted(b, now)
    requires forall time :: OfTime(a, time, now) == OfTime(b, time, now)
    ensures a == b
  {
    SameMembers(a, b, now);
    LastsAreNewest(a, b, now);
    hide SortsBefore, OfTime, IsSorted, SortTime;
    if a != [] && b != [] {
      var initA, lastA, initB, lastB := a[..|a| - 1], a[|a| - 1], b[..|b| - 1], b[|b| - 1];
      assert a == initA + [lastA] && b == initB + [lastB];
      var t := SortTime(lastA, now);
      OfTimeAppends(initA, lastA, t, now);
      OfTimeAppends(initB, lastB, t, now);
      LastIsSame(OfTime(initA, t, now), lastA, OfTime(initB, t, now), lastB);
      forall time ensures OfTime(initA, time, now) == OfTime(initB, time, now) {
        OfTimeAppends(initA, lastA, time, now);
        OfTimeAppends(initB, lastB, time, now);
        assert OfTime(a, time, now) == OfTime(b, time, now);
      }
      OneOrder(initA, initB, now);
    }
  }

  // ---- What is left to deliver ----

  function Kept(messages: seq<Message>, taken: set<string>): seq<Message> {
    Filter(messages, (m: Message) => m.id !in taken)
  }

  function Missing(messages: seq<Message>, stored: set<string>): seq<Message> {
    Filter(messages, (m: Message) => IsValidRemoteID(m.id) && m.id !in stored)
  }

  // What a delivery is made of: each fetched message with an ID that is neither stored nor taken out.
  function Wanted(messages: seq<Message>, taken: set<string>, stored: set<string>): seq<Message> {
    Filter(messages, (m: Message) => m.id !in taken && IsValidRemoteID(m.id) && m.id !in stored)
  }

  lemma {:induction false} FilterKeepsSorted(messages: seq<Message>, keep: Message -> bool, now: Instant)
    requires IsSorted(messages, now)
    ensures IsSorted(Filter(messages, keep), now)
  {
    hide SortsBefore;
    if messages != [] {
      var init, last := messages[..|messages| - 1], messages[|messages| - 1];
      assert messages == init + [last];
      FilterKeepsSorted(init, keep, now);
      assert forall m <- init :: !SortsBefore(last, m, now);
    }
  }

  lemma FilterOfTime(messages: seq<Message>, keep: Message -> bool, time: Option<Instant>, now: Instant)
    ensures OfTime(Filter(messages, keep), time, now) == Filter(OfTime(messages, time, now), keep)
  {
    var isThen := (m: Message) => SortTime(m, now) == time;
    FilterTwice(messages, keep, isThen, m => keep(m) && isThen(m));
    FilterTwice(messages, isThen, keep, m => keep(m) && isThen(m));
  }

  lemma MissingIsStable(messages: seq<Message>, taken: set<string>, stored: set<string>, now: Instant)
    ensures IsStableSort(Wanted(messages, taken, stored), Missing(Sorted(Kept(messages, taken), now), stored), now)
  {
    var kept := Kept(messages, taken);
    var isMissing := (m: Message) => IsValidRemoteID(m.id) && m.id !in stored;
    SortedIsStable(kept, now);
    FilterTwice(messages, (m: Message) => m.id !in taken, isMissing,
      (m: Message) => m.id !in taken && IsValidRemoteID(m.id) && m.id !in stored);
    assert Wanted(messages, taken, stored) == Missing(kept, stored);
    FilterKeepsSorted(Sorted(kept, now), isMissing, now);
    hide OfTime, IsSorted, Sorted, SortsBefore, Kept, Wanted;
    forall time ensures OfTime(Missing(Sorted(kept, now), stored), time, now)
      == OfTime(Missing(kept, stored), time, now)
    {
      FilterOfTime(Sorted(kept, now), isMissing, time, now);
      FilterOfTime(kept, isMissing, time, now);
      assert OfTime(Sorted(kept, now), time, now) == OfTime(kept, time, now);
    }
  }

  // ---- The run of one job ----

  // Everything with an ID is stored already, accepted by the event queue, or finalized directly.
  predicate IsSafe(messages: seq<Message>, safe: set<string>) {
    forall m <- messages :: IsValidRemoteID(m.id) ==> m.id in safe
  }

  function IDs(messages: seq<Message>): set<string> {
    set m | m in messages :: m.id
  }

  predicate IsTaken(h: Handling) {
    h.success && !h.queued
  }

  // What a run finds in its surroundings: what the event queue says about each event, how many events go out
  // before the run is cancelled, whether there is a read receipt, and the state of the job and the portal.
  datatype Course = Course(
    handle: Event -> Handling, alive: nat, readReceipt: bool, portalReady: bool, deletionPlanned: bool,
      portalExists: bool)

  // So many events of the chain were taken, and this ended it.
  predicate IsDelivered(delivery: Delivery, course: Course, count: nat, error: Option<DeliveryError>) {
    var chain := delivery.Chain();
    && count <= |chain| && count <= course.alive && (forall i | 0 <= i < count :: IsTaken(course.handle(chain[i])))
    && match error
       case None => count == |chain| && delivery.heldCount == 0
       case Some(Held(held)) => count == |chain| && held == delivery.heldCount > 0
       case Some(Interrupted) => count == course.alive < |chain|
       case Some(NotAccepted) => count < |chain| && count < course.alive && !IsTaken(course.handle(chain[count]))
       case _ => false
  }

  function MessageIDs(events: seq<Event>): set<string> {
    set e | e in events && e.NewMessage? :: e.message.id
  }

  lemma MessageIDsGrow(events: seq<Event>, e: Event)
    ensures MessageIDs(events + [e]) == MessageIDs(events) + if e.NewMessage? then {e.message.id} else {}
  {
    forall id | id in MessageIDs(events) ensures id in MessageIDs(events + [e]) {
      var x :| x in events && x.NewMessage? && x.message.id == id;
      assert x in events + [e];
    }
    assert e in events + [e];
  }

  lemma NoMessageIDs()
    ensures MessageIDs([]) == {}
  {
  }

  lemma ChainHas(delivery: Delivery)
    ensures |delivery.Chain()| == |delivery.messages| + if delivery.readReceipt then 1 else 0
    ensures forall i | 0 <= i < |delivery.messages| ::
      delivery.Chain()[i] == delivery.EventOf(delivery.messages[i]) && delivery.Chain()[i].NewMessage?
    ensures delivery.readReceipt ==> delivery.Chain()[|delivery.messages|] == ReadReceipt
  {
  }

  // The events that the queue was asked to take: the refused one is the last.
  function HandedOn(delivery: Delivery, count: nat, error: Option<DeliveryError>): seq<Event> {
    Start(delivery.Chain(), if error == Some(NotAccepted) then count + 1 else count)
  }

  function AcceptedIDs(delivery: Delivery, count: nat): set<string> {
    MessageIDs(Start(delivery.Chain(), count))
  }

  function Start(events: seq<Event>, n: nat): seq<Event> {
    if n <= |events| then events[..n] else events
  }

  function CommitError(delivery: Delivery, course: Course): Option<DeliveryError> {
    if course.deletionPlanned || !course.portalExists then Some(Superseded)
    else if delivery.headID != "" && !IsValidRemoteID(delivery.headID) then Some(InvalidBoundary)
    else None
  }

  // A job fails without a portal, else with its delivery, else when it saves the head.
  predicate IsJobEnd(delivery: Delivery, course: Course, count: nat, error: Option<DeliveryError>) {
    if !course.portalReady then count == 0 && error == Some(PortalUnavailable)
    else
      || (error.Some? && IsDelivered(delivery, course, count, error))
      || (IsDelivered(delivery, course, count, None) && error == CommitError(delivery, course))
  }

  /** What the surroundings are decides how a job ends. */
  lemma OneJobEnd(delivery: Delivery, course: Course, count: nat, error: Option<DeliveryError>, count': nat,
    error': Option<DeliveryError>)
    requires IsJobEnd(delivery, course, count, error) && IsJobEnd(delivery, course, count', error')
    ensures count == count' && error == error'
  {
  }

  /** A job succeeds exactly if nothing is held, every event is taken, and the job and its portal are still there. */
  lemma JobSucceedsExactly(delivery: Delivery, course: Course)
    ensures (exists count :: IsJobEnd(delivery, course, count, None)) <==>
      && course.portalReady && |delivery.Chain()| <= course.alive
      && (forall e <- delivery.Chain() :: IsTaken(course.handle(e))) && delivery.heldCount == 0
      && !course.deletionPlanned && course.portalExists
      && (delivery.headID == "" || IsValidRemoteID(delivery.headID))
  {
    var chain := delivery.Chain();
    if course.portalReady && |chain| <= course.alive && (forall e <- chain :: IsTaken(course.handle(e)))
      && delivery.heldCount == 0 && CommitError(delivery, course).None? {
      assert IsJobEnd(delivery, course, |chain|, None);
    }
  }

  // What a run brings to the delivery of the fetched messages.
  ghost predicate IsPrepared(
    delivery: Delivery, fetched: Fetched, r: Reconciliation, stored: set<string>, readReceipt: bool, now: Instant)
  {
    && IsStableSort(Wanted(fetched.messages, r.held + r.finalized, stored), delivery.messages, now)
    && delivery == Delivery(delivery.messages, r.transactions, readReceipt, |r.held|, fetched.headID)
  }

  class ConversationSync {
    var completedHeadID: string
    var savedAt: Instant
    var stored: set<string>
    var accepted: set<string>
    var finalized: set<string>

    // The events that the queue was asked to take.
    var handed: seq<Event>

    function State(): SyncState
      reads this
    {
      SyncState(completedHeadID, savedAt, stored + accepted + finalized)
    }

    method Prepare(fetched: Fetched, r: Reconciliation, readReceipt: bool, now: Instant) returns (delivery: Delivery)
      ensures IsPrepared(delivery, fetched, r, stored, readReceipt, now)
    {
      var sorted := Sorted(Kept(fetched.messages, r.held + r.finalized), now);
      var missing: seq<Message> := [];
      for i := 0 to |sorted|
        invariant missing == Missing(sorted[..i], stored)
      {
        assert sorted[..i + 1][..i] == sorted[..i];
        if !IsValidRemoteID(sorted[i].id) { continue; }
        if sorted[i].id !in stored {
          missing := missing + [sorted[i]];
        }
      }
      assert sorted[..|sorted|] == sorted;
      MissingIsStable(fetched.messages, r.held + r.finalized, stored, now);
      delivery := Delivery(missing, r.transactions, readReceipt, |r.held|, fetched.headID);
    }

    method HandOn(event: Event, course: Course) returns (taken: bool)
      modifies this`handed, this`accepted
      ensures handed == old(handed) + [event] && taken == IsTaken(course.handle(event))
      ensures accepted == old(accepted) + if taken && event.NewMessage? then {event.message.id} else {}
    {
      handed := handed + [event];
      taken := IsTaken(course.handle(event));
      if taken && event.NewMessage? {
        accepted := accepted + {event.message.id};
      }
    }

    // Events go out in order; the first one that is not accepted ends the chain.
    method Deliver(delivery: Delivery, course: Course) returns (error: Option<DeliveryError>, ghost count: nat)
      modifies this`accepted, this`handed
      ensures IsDelivered(delivery, course, count, error)
      ensures handed == old(handed) + HandedOn(delivery, count, error)
      ensures accepted == old(accepted) + AcceptedIDs(delivery, count)
    {
      ChainHas(delivery);
      hide Delivery.Chain, MessageIDs, Delivery.EventOf;
      count := 0;
      ghost var chain := delivery.Chain();
      assert chain[..0] == [];
      NoMessageIDs();
      for i := 0 to |delivery.messages|
        invariant count == i <= course.alive && handed == old(handed) + chain[..i]
        invariant accepted == old(accepted) + MessageIDs(chain[..i])
        invariant forall j | 0 <= j < i :: IsTaken(course.handle(chain[j]))
      {
        var m := delivery.messages[i];
        if i >= course.alive { return Some(Interrupted), count; }
        var taken := HandOn(delivery.EventOf(m), course);
        assert chain[..i + 1] == chain[..i] + [delivery.EventOf(m)];
        if !taken { return Some(NotAccepted), count; }
        MessageIDsGrow(chain[..i], delivery.EventOf(m));
        count := count + 1;
      }
      if delivery.readReceipt {
        if |delivery.messages| >= course.alive { return Some(Interrupted), count; }
        var taken := HandOn(ReadReceipt, course);
        assert chain[..|delivery.messages| + 1] == chain[..|delivery.messages|] + [ReadReceipt];
        if !taken { return Some(NotAccepted), count; }
        MessageIDsGrow(chain[..|delivery.messages|], ReadReceipt);
        count := count + 1;
      }
      if delivery.heldCount > 0 { return Some(Held(delivery.heldCount)), count; }
      return None, count;
    }

    // The final durable write, after the job and the portal were looked up again.
    method Commit(delivery: Delivery, course: Course, now: Instant) returns (error: Option<DeliveryError>)
      modifies this`completedHeadID, this`savedAt
      ensures (completedHeadID, savedAt) ==
        if !course.deletionPlanned && course.portalExists && IsValidRemoteID(delivery.headID)
          then (delivery.headID, now)
        else (old(completedHeadID), old(savedAt))
      ensures error == CommitError(delivery, course)
    {
      if course.deletionPlanned { return Some(Superseded); }
      if !course.portalExists { return Some(Superseded); }
      if delivery.headID == "" { return None; }
      if !IsValidRemoteID(delivery.headID) { return Some(InvalidBoundary); }
      completedHeadID, savedAt := delivery.headID, now;
      return None;
    }

    /**
     The head moves to the fetched head exactly when the job ends without an error and there is one. Then nothing
     fetched is held, and everything fetched is stored, accepted or finalized.
     */
    method RunJob(fetched: Fetched, r: Reconciliation, now: Instant, course: Course)
      returns (error: Option<DeliveryError>, ghost delivery: Delivery, ghost count: nat)
      requires r.finalized <= finalized
      modifies this`accepted, this`handed, this`completedHeadID, this`savedAt
      ensures IsPrepared(delivery, fetched, r, stored, course.readReceipt, now)
      ensures IsJobEnd(delivery, course, count, error)
      ensures handed == old(handed) + HandedOn(delivery, count, error)
      ensures accepted == old(accepted) + AcceptedIDs(delivery, count)
      ensures (completedHeadID, savedAt) ==
        if error.None? && fetched.headID != "" then (fetched.headID, now) else old((completedHeadID, savedAt))
      ensures error.None? ==>
        && r.held == {} && IsSafe(fetched.messages, stored + accepted + finalized)
        && (fetched.headID != "" ==> IsValidRemoteID(fetched.headID))
    {
      hide IsStableSort, IsDelivered;
      var prepared := Prepare(fetched, r, course.readReceipt, now);
      delivery, count := prepared, 0;
      if !course.portalReady { return Some(PortalUnavailable), delivery, count; }
      error, count := Deliver(prepared, course);
      if error.Some? { return; }
      error := Commit(prepared, course, now);
      DeliveredIsSafe(fetched, r, stored, now, course, delivery, count, accepted);
    }

    /**
     One run from the fetch to the commit. Whatever fails on the way, the head stays; it moves only after a
     complete scan of which everything is safe, with no echo of a waiting send among the new messages.
     */
    method SyncConversation(server: Server, catchUp: bool, env: Surroundings, sends: seq<string>, now: Instant,
      course: Course)
      returns (error: Option<SyncError>, ghost trace: Trace)
      requires forall i, j | 0 <= i < j < |sends| :: sends[i] != sends[j]
      modifies this`accepted, this`handed, this`finalized, this`completedHeadID, this`savedAt
      ensures var b := Boundary(catchUp, old(completedHeadID), old(savedAt));
              IsSyncEnd(server, b, env, sends, stored, now, course, trace, error)
      ensures finalized == old(finalized) + trace.reconciliation.finalized
      ensures handed == old(handed) + HandedOn(trace.delivery, trace.count, DeliveryFailure(error))
      ensures accepted == old(accepted) + AcceptedIDs(trace.delivery, trace.count)
      ensures (completedHeadID, savedAt) ==
        if error.None? && trace.fetched.headID != "" then (trace.fetched.headID, now)
        else old((completedHeadID, savedAt))
      ensures IsRun(old(State()), State(), server, catchUp, now, trace.pages)
    {
      hide IsOutcome, IsReconciled, ReconcileEndsWith, IsJobEnd, HandedOn, IsPrepared, IsSyncEnd, IsRun, IsSafe,
        MessageIDs;
      ghost var before := State();
      var b := Boundary(catchUp, completedHeadID, savedAt);
      trace := NoTrace();
      NothingIsHanded();
      var fetched, pages := FetchConversation(server, b, now);
      trace := trace.(pages := pages);
      if fetched.Err? {
        error := Some(FetchFailed(fetched.error));
        FetchEnds(server, b, env, sends, stored, now, course, trace, fetched.error);
        SameHeadIsRun(before, State(), server, catchUp, now, pages);
        return;
      }
      trace := trace.(fetched := fetched.value);
      var r := Reconcile(env, sends, IDsOf(fetched.value.messages));
      if r.Err? {
        error := Some(ReconcileFailed(r.error));
        ReconcileEnds(server, b, env, sends, stored, now, course, trace, r.error);
        SameHeadIsRun(before, State(), server, catchUp, now, pages);
        return;
      }
      finalized := finalized + r.value.finalized;
      var failed, delivery, count := RunJob(fetched.value, r.value, now, course);
      trace := trace.(reconciliation := r.value, delivery := delivery, count := count);
      error := if failed.Some? then Some(DeliveryFailed(failed.value)) else None;
      DeliveryEnds(server, b, env, sends, stored, now, course, trace, failed);
      ScanIsRun(before, State(), server, catchUp, now, trace, failed);
    }
  }

  datatype SyncError = FetchFailed(error: Error) | ReconcileFailed(cause: ReconcileError)
    | DeliveryFailed(reason: DeliveryError)

  function DeliveryFailure(error: Option<SyncError>): Option<DeliveryError> {
    match error
    case Some(DeliveryFailed(e)) => Some(e)
    case _ => None
  }

  // What a run came across. The last parts are empty when it failed before.
  datatype Trace = Trace(pages: seq<seq<Message>>, fetched: Fetched, reconciliation: Reconciliation,
    delivery: Delivery, count: nat)

  function NoTrace(): Trace {
    Trace([], Fetched([], ""), Reconciliation(map[], {}, {}, []), Delivery([], map[], false, 0, ""), 0)
  }

  // The scan, the reconciliation and the delivery, as far as the run came, and how it ended.
  ghost predicate IsSyncEnd(
    server: Server, b: Boundary, env: Surroundings, sends: seq<string>, stored: set<string>, now: Instant,
    course: Course, trace: Trace, error: Option<SyncError>)
  {
    var ids := IDsOf(trace.fetched.messages);
    match error
    case Some(FetchFailed(e)) =>
      IsOutcome(server, b, now, trace.pages, Err(e)) && trace == NoTrace().(pages := trace.pages)
    case Some(ReconcileFailed(e)) =>
      && IsOutcome(server, b, now, trace.pages, Ok(trace.fetched)) && ReconcileEndsWith(env, sends, ids, Some(e))
      && trace == NoTrace().(pages := trace.pages, fetched := trace.fetched)
    case _ =>
      && IsOutcome(server, b, now, trace.pages, Ok(trace.fetched)) && ReconcileEndsWith(env, sends, ids, None)
      && IsReconciled(env, sends, ids, trace.reconciliation)
      && IsPrepared(trace.delivery, trace.fetched, trace.reconciliation, stored, course.readReceipt, now)
      && IsJobEnd(trace.delivery, course, trace.count, DeliveryFailure(error))
  }

  lemma NothingIsHanded()
    ensures var t := NoTrace(); t.delivery.Chain() == [] && MessageIDs([]) == {}
    ensures HandedOn(NoTrace().delivery, 0, None) == []
  {
  }

  lemma FetchEnds(
    server: Server, b: Boundary, env: Surroundings, sends: seq<string>, stored: set<string>, now: Instant,
    course: Course, trace: Trace, e: Error)
    requires IsOutcome(server, b, now, trace.pages, Err(e)) && trace == NoTrace().(pages := trace.pages)
    ensures IsSyncEnd(server, b, env, sends, stored, now, course, trace, Some(FetchFailed(e)))
  {
    hide IsOutcome;
  }

  lemma ReconcileEnds(
    server: Server, b: Boundary, env: Surroundings, sends: seq<string>, stored: set<string>, now: Instant,
    course: Course, trace: Trace, e: ReconcileError)
    requires IsOutcome(server, b, now, trace.pages, Ok(trace.fetched))
    requires ReconcileEndsWith(env, sends, IDsOf(trace.fetched.messages), Some(e))
    requires trace == NoTrace().(pages := trace.pages, fetched := trace.fetched)
    ensures IsSyncEnd(server, b, env, sends, stored, now, course, trace, Some(ReconcileFailed(e)))
  {
    hide IsOutcome, ReconcileEndsWith;
  }

  lemma DeliveryEnds(
    server: Server, b: Boundary, env: Surroundings, sends: seq<string>, stored: set<string>, now: Instant,
    course: Course, trace: Trace, failed: Option<DeliveryError>)
    requires IsOutcome(server, b, now, trace.pages, Ok(trace.fetched))
    requires ReconcileEndsWith(env, sends, IDsOf(trace.fetched.messages), None)
    requires IsReconciled(env, sends, IDsOf(trace.fetched.messages), trace.reconciliation)
    requires IsPrepared(trace.delivery, trace.fetched, trace.reconciliation, stored, course.readReceipt, now)
    requires IsJobEnd(trace.delivery, course, trace.count, failed)
    ensures IsSyncEnd(server, b, env, sends, stored, now, course, trace,
              if failed.Some? then Some(DeliveryFailed(failed.value)) else None)
  {
    hide IsOutcome, ReconcileEndsWith, IsReconciled, IsPrepared, IsJobEnd;
  }

  /** A run ends in one way only: what it met decides what it reads, claims, delivers and reports. */
  lemma OneSyncEnd(
    server: Server, b: Boundary, env: Surroundings, sends: seq<string>, stored: set<string>, now: Instant,
    course: Course, trace: Trace, error: Option<SyncError>, trace': Trace, error': Option<SyncError>)
    requires IsSyncEnd(server, b, env, sends, stored, now, course, trace, error)
    requires IsSyncEnd(server, b, env, sends, stored, now, course, trace', error')
    ensures trace == trace' && error == error'
  {
    hide IsOutcome, ReconcileEndsWith, IsReconciled, IsPrepared, IsJobEnd;
    ghost var fetched := if error.Some? && error.value.FetchFailed? then Err(error.value.error) else Ok(trace.fetched);
    ghost var fetched' :=
      if error'.Some? && error'.value.FetchFailed? then Err(error'.value.error) else Ok(trace'.fetched);
    OneOutcome(server, b, now, trace.pages, fetched, trace'.pages, fetched');
    if fetched.Ok? {
      var ids := IDsOf(trace.fetched.messages);
      var cause := if error.Some? && error.value.ReconcileFailed? then Some(error.value.cause) else None;
      var cause' := if error'.Some? && error'.value.ReconcileFailed? then Some(error'.value.cause) else None;
      OneEnding(env, sends, ids, cause, cause');
      if cause.None? {
        OneReconciliation(env, sends, ids, trace.reconciliation, trace'.reconciliation);
        OneDelivery(trace.delivery, trace'.delivery, trace.fetched, trace.reconciliation, stored, course.readReceipt,
          now);
        OneJobEnd(trace.delivery, course, trace.count, DeliveryFailure(error), trace'.count, DeliveryFailure(error'));
      }
    }
  }

  lemma OneDelivery(
    delivery: Delivery, delivery': Delivery, fetched: Fetched, r: Reconciliation, stored: set<string>,
    readReceipt: bool, now: Instant)
    requires IsPrepared(delivery, fetched, r, stored, readReceipt, now)
    requires IsPrepared(delivery', fetched, r, stored, readReceipt, now)
    ensures delivery == delivery'
  {
    hide IsSorted, OfTime;
    OneOrder(delivery.messages, delivery'.messages, now);
  }

  // The saved head with its time, and all messages that are stored, accepted or finalized.
  datatype SyncState = SyncState(headID: string, savedAt: Instant, safe: set<string>)

  // A run adds to what is safe, and moves the head only to the head of a complete scan that is safe.
  ghost predicate IsRun(before: SyncState, after: SyncState, server: Server, catchUp: bool, now: Instant,
    pages: seq<seq<Message>>) {
    && before.safe <= after.safe
    && ((after.headID, after.savedAt) != (before.headID, before.savedAt) ==>
          && 0 < |pages| && PagesAre(server, pages)
          && ReadsOn(server, |pages| - 1, Boundary(catchUp, before.headID, before.savedAt))
          && StopsAt(server, |pages| - 1, Boundary(catchUp, before.headID, before.savedAt))
          && IsPageHead(pages[0], now, after.headID) && IsValidRemoteID(after.headID) && after.savedAt == now
          && IsSafe(Collected(pages), after.safe))
  }

  lemma SameHeadIsRun(before: SyncState, after: SyncState, server: Server, catchUp: bool, now: Instant,
    pages: seq<seq<Message>>)
    requires after == before
    ensures IsRun(before, after, server, catchUp, now, pages)
  {
  }

  lemma ScanIsRun(before: SyncState, after: SyncState, server: Server, catchUp: bool, now: Instant, trace: Trace,
    failed: Option<DeliveryError>)
    requires IsOutcome(server, Boundary(catchUp, before.headID, before.savedAt), now, trace.pages, Ok(trace.fetched))
    requires before.safe <= after.safe
    requires (after.headID, after.savedAt) == if failed.None? && trace.fetched.headID != ""
               then (trace.fetched.headID, now) else (before.headID, before.savedAt)
    requires failed.None? ==> IsSafe(trace.fetched.messages, after.safe)
    requires failed.None? && trace.fetched.headID != "" ==> IsValidRemoteID(trace.fetched.headID)
    ensures IsRun(before, after, server, catchUp, now, trace.pages)
  {
    hide PagesAre, ReadsOn, StopsAt, IsPageHead, Collected, CursorRepeats, IsSafe, IsValidRemoteID;
  }

  lemma HeldIsCounted(held: set<string>)
    requires |held| == 0
    ensures held == {}
  {
  }

  lemma DeliveredIsSafe(
    fetched: Fetched, r: Reconciliation, stored: set<string>, now: Instant, course: Course, delivery: Delivery,
    count: nat, accepted: set<string>)
    requires IsPrepared(delivery, fetched, r, stored, course.readReceipt, now)
    requires IsDelivered(delivery, course, count, None) && AcceptedIDs(delivery, count) <= accepted
    ensures r.held == {} && IsSafe(fetched.messages, stored + accepted + r.finalized)
  {
    HeldIsCounted(r.held);
    var chain := delivery.Chain();
    assert chain[..count] == chain;
    SameMembers(Wanted(fetched.messages, r.held + r.finalized, stored), delivery.messages, now);
    forall m | m in delivery.messages ensures m.id in accepted {
      var i :| 0 <= i < |delivery.messages| && delivery.messages[i] == m;
      assert chain[i] == delivery.EventOf(m) && chain[i] in chain;
    }
  }

  // ---- With the echo reconciliation ----

  function IDsOf(messages: seq<Message>): seq<string> {
    if messages == [] then [] else IDsOf(messages[..|messages| - 1]) + [messages[|messages| - 1].id]
  }

  lemma {:induction false} KeptIsReconciled(messages: seq<Message>, taken: set<string>)
    ensures IDsOf(Kept(messages, taken)) == Without(IDsOf(messages), taken)
  {
    if messages != [] {
      var init, m := messages[..|messages| - 1], messages[|messages| - 1];
      KeptIsReconciled(init, taken);
      var kept := Kept(init, taken);
      assert (kept + [m])[..|kept|] == kept;
      assert IDsOf(messages)[..|IDsOf(messages)| - 1] == IDsOf(init);
      assert m.id in taken ==> Kept(messages, taken) == kept;
    }
  }

  /** What goes out is what the reconciliation passes on, but for messages without a valid ID or stored already. */
  lemma DeliveryFollowsReconciliation(
    env: Surroundings, sends: seq<string>, fetched: Fetched, r: Reconciliation, stored: set<string>)
    requires IsReconciled(env, sends, IDsOf(fetched.messages), r)
    ensures var kept := Kept(fetched.messages, r.held + r.finalized);
            IDsOf(kept) == r.delivered
              && Wanted(fetched.messages, r.held + r.finalized, stored) == Missing(kept, stored)
  {
    var taken := r.held + r.finalized;
    hide AreSorted, IsHeldBack, IsOwned, IsPlaced;
    assert taken == r.finalized + r.held;
    KeptIsReconciled(fetched.messages, taken);
    FilterTwice(fetched.messages, (m: Message) => m.id !in taken,
      (m: Message) => IsValidRemoteID(m.id) && m.id !in stored,
      (m: Message) => m.id !in taken && IsValidRemoteID(m.id) && m.id !in stored);
  }

  lemma {:induction false} IDsAreListed(messages: seq<Message>)
    ensures |IDsOf(messages)| == |messages|
    ensures forall i | 0 <= i < |messages| :: IDsOf(messages)[i] == messages[i].id
    ensures forall id :: id in IDsOf(messages) <==> id in IDs(messages)
  {
    if messages != [] {
      var init, m := messages[..|messages| - 1], messages[|messages| - 1];
      IDsAreListed(init);
      assert messages == init + [m];
    }
  }

  /**
   A message goes out under a transaction only if that send listens and owns the message for certain, and without
   one only if it is neither owned by a row nor possibly the echo of a waiting send.
   */
  lemma NoEchoIsDeliveredAsNew(
    env: Surroundings, sends: seq<string>, fetched: Fetched, r: Reconciliation, stored: set<string>,
    readReceipt: bool, now: Instant, delivery: Delivery, m: Message)
    requires IsReconciled(env, sends, IDsOf(fetched.messages), r)
    requires IsPrepared(delivery, fetched, r, stored, readReceipt, now) && m in delivery.messages
    ensures var open := OpenMessages(IDsOf(fetched.messages), ResolvedMessages(env));
            match delivery.EventOf(m).transaction
            case Some(t) => IsOwnedByListener(env, sends, open, t, m.id)
            case None => m.id !in ResolvedMessages(env) && !IsWaitedFor(env, sends, m.id)
  {
    hide IsReconciled, IsOwnedByListener, IsWaitedFor, IsSorted, OfTime, ResolvedMessages, OpenMessages;
    SameMembers(Wanted(fetched.messages, r.held + r.finalized, stored), delivery.messages, now);
    IDsAreListed(fetched.messages);
    assert m.id in IDs(fetched.messages);
    TransactionsAreCertain(env, sends, IDsOf(fetched.messages), r, m.id);
  }

  /** An owned message that is fetched and not stored goes out, under its transaction, if its sender listens. */
  lemma OwnedEchoIsDelivered(
    env: Surroundings, sends: seq<string>, fetched: Fetched, r: Reconciliation, stored: set<string>,
    readReceipt: bool, now: Instant, delivery: Delivery, m: Message)
    requires IsReconciled(env, sends, IDsOf(fetched.messages), r) && m in fetched.messages
    requires IsPrepared(delivery, fetched, r, stored, readReceipt, now)
    requires m.id in ResolvedMessages(env) && m.id !in stored
    ensures if env.isActive(env.resolvedBy[m.id])
            then m in delivery.messages && delivery.EventOf(m).transaction == Some(env.resolvedBy[m.id])
            else m !in delivery.messages && m.id in r.finalized
  {
    hide IsSorted, OfTime;
    var ids := IDsOf(fetched.messages);
    SameMembers(Wanted(fetched.messages, r.held + r.finalized, stored), delivery.messages, now);
    IDsAreListed(fetched.messages);
    assert m.id in IDs(fetched.messages);
    OwnedStaysOwned(env, sends, ids, r, m.id);
    hide IsReconciled;
    TransactionsAreNotFinalized(env, sends, ids, r);
  }

  lemma TransactionsAreNotFinalized(env: Surroundings, sends: seq<string>, ids: seq<string>, r: Reconciliation)
    requires IsReconciled(env, sends, ids, r)
    ensures r.transactions.Keys !! r.finalized
  {
    hide IsOwned, IsPlaced, IsHeldBack;
  }

  // ---- Run after run ----

  // The head lies in the first part of the history, of which everything from the origin on is safe.
  ghost predicate IsCovered(s: SyncState, history: seq<Message>, origin: nat, covered: nat) {
    && origin <= covered <= |history|
    && IsSafe(history[origin..covered], s.safe)
    && (s.headID != "" ==> IsValidRemoteID(s.headID) && exists k | 0 <= k < covered :: history[k].id == s.headID)
  }

  // One run as it met the history: what the server's pages were cut from.
  datatype Encounter = Encounter(history: seq<Message>, server: Server, cuts: seq<nat>, pages: seq<seq<Message>>,
    now: Instant)

  // The history only grew since the last time, by messages that are newer than the slack before the head was
  // saved, and the pages are cut from it.
  ghost predicate IsFair(s: SyncState, earlier: seq<Message>, covered: nat, e: Encounter) {
    && earlier <= e.history && HasUniqueIDs(e.history)
    && (forall k | covered <= k < |e.history| && s.headID != "" ::
      TimeOf(e.history[k].timestamp) > s.savedAt - BOUNDARY_TIME_SLACK)
    && IsCut(e.server, e.history, e.cuts, |e.pages|)
  }

  ghost predicate IsMove(before: SyncState, after: SyncState) {
    (after.headID, after.savedAt) != (before.headID, before.savedAt)
  }

  lemma CoveredGrows(s: SyncState, earlier: seq<Message>, history: seq<Message>, origin: nat, covered: nat,
    after: SyncState)
    requires IsCovered(s, earlier, origin, covered) && earlier <= history
    requires s.safe <= after.safe && after.headID == s.headID
    ensures IsCovered(after, history, origin, covered)
  {
    assert history[origin..covered] == earlier[origin..covered];
  }

  // The messages that came after the last covered one are the ones after the head.
  lemma CoveredIsBeforeHead(s: SyncState, earlier: seq<Message>, origin: nat, covered: nat, e: Encounter)
    requires IsCovered(s, earlier, origin, covered) && IsFair(s, earlier, covered, e)
    ensures IsAfterHead(e.history, Boundary(true, s.headID, s.savedAt), covered)
  {
    if s.headID != "" {
      var k :| 0 <= k < covered && earlier[k].id == s.headID;
      assert e.history[k] == earlier[k];
    }
  }

  lemma PageHeadIsInHistory(e: Encounter, headID: string)
    requires 0 < |e.pages| && PagesAre(e.server, e.pages) && IsCut(e.server, e.history, e.cuts, |e.pages|)
    requires IsPageHead(e.pages[0], e.now, headID) && IsValidRemoteID(headID)
    ensures exists k | 0 <= k < |e.history| :: e.history[k].id == headID
  {
    var i :| 0 <= i < |e.pages[0]| && e.pages[0][i].id == headID;
    PieceMember(e.history, e.cuts[1], e.cuts[0], e.pages[0], e.pages[0][i]);
  }

  // A catch-up run keeps everything safe up to where it moves the head.
  lemma RunKeepsCovered(s: SyncState, after: SyncState, earlier: seq<Message>, origin: nat, covered: nat, e: Encounter)
    requires IsCovered(s, earlier, origin, covered) && IsFair(s, earlier, covered, e)
    requires IsRun(s, after, e.server, true, e.now, e.pages)
    ensures IsCovered(after, e.history, origin, if IsMove(s, after) then |e.history| else covered)
  {
    if IsMove(s, after) {
      CoveredIsBeforeHead(s, earlier, origin, covered, e);
      ScanIsComplete(e.server, e.history, e.cuts, e.pages, Boundary(true, s.headID, s.savedAt), covered);
      PageHeadIsInHistory(e, after.headID);
      hide IsCut, PagesAre, IsPageHead, StopsAt, IsAfterHead, HasUniqueIDs;
      forall k | origin <= k < |e.history| && IsValidRemoteID(e.history[k].id) ensures e.history[k].id in after.safe {
        if k < covered {
          assert e.history[k] == earlier[origin..covered][k - origin];
        } else {
          assert IsCollected(Collected(e.pages), e.history[k]);
        }
      }
      assert forall m <- e.history[origin..] :: exists k :: origin <= k < |e.history| && e.history[k] == m;
      assert e.history[origin..|e.history|] == e.history[origin..];
    } else {
      CoveredGrows(s, earlier, e.history, origin, covered, after);
    }
  }

  // The first run of a conversation without a room takes the newest page, and bridges from there.
  lemma FirstRunCovers(s: SyncState, after: SyncState, e: Encounter)
    requires s.headID == "" && IsFair(s, [], 0, e) && IsRun(s, after, e.server, false, e.now, e.pages)
      && IsMove(s, after)
    ensures |e.pages| == 1 && IsCovered(after, e.history, e.cuts[1], |e.history|)
  {
    PageHeadIsInHistory(e, after.headID);
    PagesAreCollected(e.pages);
    var piece := e.history[e.cuts[1]..|e.history|];
    forall m | m in piece && IsValidRemoteID(m.id) ensures m.id in after.safe {
      assert m in multiset(piece) && m in e.pages[0];
      assert IsCollected(Collected(e.pages), m);
    }
  }

  // How far the history is covered after so many runs: up to the end of the last one that moved the head.
  ghost function CoveredAfter(states: seq<SyncState>, runs: seq<Encounter>, covered: nat, n: nat): nat
    requires |states| == |runs| + 1 && n <= |runs|
  {
    if n == 0 then covered
    else if IsMove(states[n - 1], states[n]) then |runs[n - 1].history|
    else CoveredAfter(states, runs, covered, n - 1)
  }

  ghost function HistoryAfter(history: seq<Message>, runs: seq<Encounter>, n: nat): seq<Message>
    requires n <= |runs|
  {
    if n == 0 then history else runs[n - 1].history
  }

  // Each state comes from the one before by a run that met the history as it was then.
  ghost predicate AreRuns(states: seq<SyncState>, runs: seq<Encounter>, history: seq<Message>, covered: nat) {
    && |states| == |runs| + 1
    && forall n | 0 <= n < |runs| ::
         && IsRun(states[n], states[n + 1], runs[n].server, true, runs[n].now, runs[n].pages)
         && IsFair(states[n], HistoryAfter(history, runs, n), CoveredAfter(states, runs, covered, n), runs[n])
  }

  /**
   After any number of runs, whichever of them failed and wherever, every message from the origin up to the
   end of the history that the last successful run met, and so up to the saved head, is stored, accepted or
   finalized.
   */
  lemma {:induction false} NothingIsEverSkipped(
    states: seq<SyncState>, runs: seq<Encounter>, history: seq<Message>, origin: nat, covered: nat, n: nat)
    requires AreRuns(states, runs, history, covered) && n <= |runs|
    requires IsCovered(states[0], history, origin, covered)
    ensures IsCovered(states[n], HistoryAfter(history, runs, n), origin, CoveredAfter(states, runs, covered, n))
  {
    if n > 0 {
      NothingIsEverSkipped(states, runs, history, origin, covered, n - 1);
      hide IsCovered, IsRun, IsFair;
      RunKeepsCovered(
        states[n - 1], states[n], HistoryAfter(history, runs, n - 1), origin,
          CoveredAfter(states, runs, covered, n - 1), runs[n - 1]);
    }
  }

  /** A conversation whose room exists but has no saved head is covered from its very beginning. */
  lemma RecoveredRoomIsComplete(states: seq<SyncState>, runs: seq<Encounter>, n: nat)
    requires AreRuns(states, runs, [], 0) && n <= |runs| && states[0].headID == ""
    ensures IsCovered(states[n], HistoryAfter([], runs, n), 0, CoveredAfter(states, runs, 0, n))
  {
    NothingIsEverSkipped(states, runs, [], 0, 0, n);
  }
}
