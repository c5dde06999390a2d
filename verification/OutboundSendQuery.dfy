/**
 The query object of pkg/connector/tumblrdb/outbound.go: it checks its arguments, whose times have
 nanosecond precision, runs its statements on rows with millisecond times, and tells its caller what
 became of the row.
 */
module OutboundSendQueries {
  import opened Wrappers
  import opened RemoteIDs
  import opened OutboundTables
  import opened OutboundInvariant
  import opened OutboundStatements
  import opened OutboundSteps
  import opened OutboundGuards

  // Nanoseconds since the epoch, with the zero time at the first of January of year one.
  type Instant = int
  const ZERO_TIME: Instant := -62135596800 * 1_000_000_000

  function Milli(at: Instant): int {
    at / 1_000_000
  }

  datatype Error =
    | InvalidArgument | Refused | NotPending | AlreadyCompleted | AlreadyHandled
    | IdentityChanged | BindingConflict | RoomMismatch | ChangedConcurrently

  datatype Loaded = Loaded(row: Send, created: bool)

  predicate IsNextAttempt(next: Instant, now: Instant) {
    next != ZERO_TIME && Milli(next) > Milli(now)
  }

  predicate IsBaseline(ids: seq<string>) {
    forall id <- ids :: !IsBlank(id) && forall c <- id :: !IsControl(c)
  }

  // ---- Loading again ----

  predicate MatchesStagedBinding(existing: Send, candidate: Send) {
    && existing.conversationID == "" && candidate.conversationID == "" && existing.bindingConversationID != ""
    && candidate.portal == PortalKey(existing.bindingConversationID, existing.portal.receiver)
  }

  predicate HasSameContent(existing: Send, candidate: Send) {
    && HasSameIdentity(existing, candidate)
    && existing.roomID == candidate.roomID && existing.matrixSenderID == candidate.matrixSenderID
    && existing.senderID == candidate.senderID && existing.inputTransactionID == candidate.inputTransactionID
    && existing.messageType == candidate.messageType && existing.contentHash == candidate.contentHash
    && existing.sourceDigest == candidate.sourceDigest
  }

  predicate IsReentry(existing: Send, candidate: Send) {
    && HasSameContent(existing, candidate)
    && (existing.conversationID == "" || candidate.conversationID == ""
      || existing.conversationID == candidate.conversationID)
    && (existing.conversationID == candidate.conversationID && existing.portal != candidate.portal ==>
      MatchesStagedBinding(existing, candidate))
  }

  // The send as its room would present it once its portal has the conversation's own ID.
  function Rebound(candidate: Send, conversationID: string, bound: bool): Send {
    candidate.(
      portal := PortalKey(conversationID, candidate.portal.receiver),
      conversationID := if bound then conversationID else "")
  }

  /**
   A send of an unbound room is recognised through every stage of its binding, whether its room still
   presents the old portal or already the new one.
   */
  lemma BindingIsReentrant(t: Tables, key: Key, send: Send, conversationID: string, nextTS: int, nowTS: int)
    requires conversationID != "" && send.conversationID == ""
    requires key in t.sends && IsReentry(t.sends[key], send) && t.sends[key].portal == send.portal
      && t.sends[key].conversationID == ""
    requires PrepareConversation(t, key, conversationID, nextTS, nowTS).Changed?
    ensures var staged := PrepareConversation(t, key, conversationID, nextTS, nowTS).tables;
            && (forall bound :: IsReentry(staged.sends[key], Rebound(send, conversationID, bound)))
            && IsReentry(staged.sends[key], send)
            && (BindConversation(staged, key, conversationID, PortalKey(conversationID, send.portal.receiver), nextTS,
              nowTS).Changed? ==>
                  var row := BindConversation(staged, key, conversationID,
                    PortalKey(conversationID, send.portal.receiver), nextTS, nowTS).tables.sends[key];
                  && IsReentry(row, send)
                  && forall bound :: IsReentry(row, Rebound(send, conversationID, bound)))
  {
    hide Fits;
  }

  // A row is recognised as its own send, whatever else has become of it.
  lemma CreatedRowIsReentry(send: Send, started: Instant, next: Instant, now: Instant)
    ensures IsReentry(NewRow(send, started, next, now), send)
  {
  }

  /** Only the binding of its conversation bears on whether a row is taken for a send. */
  lemma StatementKeepsReentry(r: Send, send: Send, s: Statement, nowTS: int)
    requires IsOneRowStatement(s) && !s.Prepare? && !s.Bind?
    ensures IsReentry(RowAfter(r, s, nowTS), send) <==> IsReentry(r, send)
  {
  }

  // A row bound to one conversation is never taken for a send of another one.
  lemma OtherConversationIsNoReentry(existing: Send, candidate: Send)
    requires existing.conversationID != "" && candidate.conversationID != "" && HasIdentity(existing)
      && HasIdentity(candidate)
    ensures IsReentry(existing, candidate) ==>
      existing.conversationID == candidate.conversationID && existing.portal == candidate.portal
  {
  }

  // ---- What the statements say about an event ----

  predicate IsClaimed(t: Tables, eventID: EventID) {
    exists k <- t.sends.Keys :: t.sends[k].eventID == eventID
  }

  predicate IsHandled(t: Tables, eventID: EventID) {
    IsClaimed(t, eventID) || eventID in t.receipts
  }

  predicate IsEventMapped(t: Tables, eventID: EventID) {
    exists m <- t.mappings :: m.eventID == eventID
  }

  function NewRow(send: Send, started: Instant, next: Instant, now: Instant): Send {
    send.(
      bindingConversationID := "", remoteID := "", state := Prepared, terminalTS := 0, notifiedTS := 0,
      claimToken := "", claimExpiresTS := 0, attemptCount := 0, nextAttemptTS := Milli(next),
      startedTS := Milli(started), createdTS := Milli(now), updatedTS := Milli(now))
  }

  predicate IsUnattempted(send: Send) {
    && send.state == Prepared && send.bindingConversationID == "" && send.remoteID == "" && send.attemptCount == 0
    && send.terminalTS == 0 && send.notifiedTS == 0 && send.claimToken == "" && send.claimExpiresTS == 0
  }

  function Left(e: Effect, t: Tables): Tables {
    if e.Changed? then e.tables else t
  }

  function RowWasChanged(e: Effect): Result<bool, Error> {
    match e
    case Changed(_) => Ok(true)
    case NoRow => Ok(false)
    case Rejected => Err(Refused)
  }

  predicate MayCreate(send: Send, started: Instant, next: Instant, now: Instant) {
    && IsUnattempted(send) && started != ZERO_TIME && Milli(started) <= Milli(now)
    && IsNextAttempt(next, now) && IsBaseline(send.baseline)
  }

  // What loading or creating finds in tables that nobody else changes meanwhile.
  function LoadOutcome(t: Tables, send: Send, row: Send, mayCreate: bool): Result<Loaded, Error> {
    var key := Key(send.loginID, send.transactionID);
    if !HasIdentity(send) then Err(InvalidArgument)
    else if key in t.sends then
      if IsReentry(t.sends[key], send) then Ok(Loaded(t.sends[key], false)) else Err(IdentityChanged)
    else if !mayCreate then Err(InvalidArgument)
    else if IsEventMapped(t, send.eventID) then Err(AlreadyCompleted)
    else if IsHandled(t, send.eventID) then Err(AlreadyHandled)
    else if Fits(t, key, row) then Ok(Loaded(row, true))
    else Err(Refused)
  }

  // What one attempt finds in the tables before its five statements, if anything.
  function AttemptOutcome(seen: seq<Tables>, send: Send, row: Send): Option<Result<Loaded, Error>>
    requires |seen| == 5
  {
    var key := Key(send.loginID, send.transactionID);
    match InsertSend(seen[0], row)
    case Rejected => Some(Err(Refused))
    case Changed(_) => Some(Ok(Loaded(row, true)))
    case NoRow =>
      if key in seen[1].sends then
        Some(if IsReentry(seen[1].sends[key], send) then Ok(Loaded(seen[1].sends[key], false))
          else Err(IdentityChanged))
      else if IsEventMapped(seen[2], send.eventID) then Some(Err(AlreadyCompleted))
      else if IsClaimed(seen[3], send.eventID) || send.eventID in seen[4].receipts then Some(Err(AlreadyHandled))
      else None
  }

  // The event has left no trace in any of the tables: what kept the row from being saved is gone.
  predicate LeftNoTrace(seen: seq<Tables>, send: Send, row: Send)
    requires |seen| == 5
  {
    && InsertSend(seen[0], row) == NoRow && Key(send.loginID, send.transactionID) !in seen[1].sends
    && !IsEventMapped(seen[2], send.eventID) && !IsClaimed(seen[3], send.eventID)
    && send.eventID !in seen[4].receipts
  }

  // The answer, when others may leave other tables before each of the statements.
  function LoadAnswer(others: seq<Tables>, send: Send, row: Send, mayCreate: bool): Result<Loaded, Error>
    requires |others| == 11
  {
    var key := Key(send.loginID, send.transactionID);
    if !HasIdentity(send) then Err(InvalidArgument)
    else if key in others[0].sends then
      if IsReentry(others[0].sends[key], send) then Ok(Loaded(others[0].sends[key], false)) else Err(IdentityChanged)
    else if !mayCreate then Err(InvalidArgument)
    else
      var first, second := AttemptOutcome(others[1..6], send, row), AttemptOutcome(others[6..11], send, row);
      if first.Some? then first.value else if second.Some? then second.value else Err(ChangedConcurrently)
  }

  /** Two attempts are made, and the second one fails to answer only if nothing is left of the event again. */
  lemma TwoAttemptsAreMade(others: seq<Tables>, send: Send, row: Send)
    requires |others| == 11
    ensures LoadAnswer(others, send, row, true) == Err(ChangedConcurrently) <==>
              && HasIdentity(send) && Key(send.loginID, send.transactionID) !in others[0].sends
              && LeftNoTrace(others[1..6], send, row) && LeftNoTrace(others[6..11], send, row)
  {
    hide IsReentry, HasIdentity, InsertSend, IsEventMapped, IsClaimed;
    var first, second := others[1..6], others[6..11];
    AttemptFindsTrace(first, send, row);
    AttemptFindsTrace(second, send, row);
  }

  lemma AttemptFindsTrace(seen: seq<Tables>, send: Send, row: Send)
    requires |seen| == 5
    ensures AttemptOutcome(seen, send, row).None? <==> LeftNoTrace(seen, send, row)
    ensures AttemptOutcome(seen, send, row) != Some(Err(ChangedConcurrently))
  {
    hide IsReentry, InsertSend, IsEventMapped, IsClaimed;
  }

  /** When nobody else changes the tables, the first attempt answers. */
  lemma QuietLoadAnswers(others: seq<Tables>, t: Tables, send: Send, row: Send, mayCreate: bool)
    requires |others| == 11 && forall i | 0 <= i < |others| :: others[i] == t
    requires Key(row.loginID, row.transactionID) == Key(send.loginID, send.transactionID) && row.eventID == send.eventID
    ensures LoadAnswer(others, send, row, mayCreate) == LoadOutcome(t, send, row, mayCreate)
  {
    hide IsReentry, HasIdentity, Fits, AttemptOutcome;
    if Key(send.loginID, send.transactionID) !in t.sends {
      QuietAttemptAnswers(others[1..6], t, send, row);
    }
  }

  lemma QuietAttemptAnswers(seen: seq<Tables>, t: Tables, send: Send, row: Send)
    requires |seen| == 5 && forall i | 0 <= i < 5 :: seen[i] == t
    requires Key(row.loginID, row.transactionID) == Key(send.loginID, send.transactionID) && row.eventID == send.eventID
    requires Key(send.loginID, send.transactionID) !in t.sends
    ensures AttemptOutcome(seen, send, row) ==
      Some(
        if IsEventMapped(t, send.eventID) then Err(AlreadyCompleted)
        else if IsHandled(t, send.eventID) then Err(AlreadyHandled)
        else if Fits(t, Key(send.loginID, send.transactionID), row) then Ok(Loaded(row, true))
        else Err(Refused))
  {
    hide IsReentry, HasIdentity, Fits;
    var key := Key(send.loginID, send.transactionID);
    assert IsEventFree(t, key, send.eventID) <==> !IsClaimed(t, send.eventID);
  }

  // What a row that is loaded again has in common with the send.
  lemma ReentryHasSameContent(existing: Send, send: Send)
    requires IsReentry(existing, send)
    ensures existing.eventID == send.eventID && existing.roomID == send.roomID
    ensures existing.contentHash == send.contentHash && existing.sourceDigest == send.sourceDigest
    ensures existing.matrixSenderID == send.matrixSenderID && existing.messageType == send.messageType
    ensures existing.conversationID != "" && send.conversationID != "" ==>
      existing.conversationID == send.conversationID && existing.portal == send.portal
  {
  }

  // What the other processes left in the tables before the statement of that number.
  predicate IsSeen(seen: seq<Tables>, i: nat, t: Tables) {
    i < |seen| && seen[i] == t
  }

  class OutboundSendQuery {
    var tables: Tables

    constructor (t: Tables)
      ensures tables == t
    {
      tables := t;
    }

    // One statement: the rows that it leaves, and whether it changed one.
    method Exec(e: Effect) returns (r: Result<bool, Error>)
      modifies this
      ensures tables == Left(e, old(tables)) && r == RowWasChanged(e)
    {
      match e {
        case Changed(t) => tables := t; r := Ok(true);
        case NoRow => r := Ok(false);
        case Rejected => r := Err(Refused);
      }
    }

    method Get(key: Key) returns (row: Option<Send>)
      ensures row == if key in tables.sends then Some(tables.sends[key]) else None
    {
      row := if key in tables.sends then Some(tables.sends[key]) else None;
    }

    // Before each of the statements, other processes may have left other tables.
    method LoadOrCreate(send: Send, started: Instant, next: Instant, now: Instant, others: seq<Tables>)
      returns (r: Result<Loaded, Error>)
      requires |others| == 11
      modifies this
      ensures var row := NewRow(send, started, next, now);
              r == LoadAnswer(others, send, row, MayCreate(send, started, next, now))
      ensures r.Ok? && r.value.created ==>
        && r.value.row == NewRow(send, started, next, now) && HasIdentity(send) && MayCreate(send, started, next, now)
        && exists i :: 0 <= i < |others| && InsertSend(others[i], r.value.row) == Changed(tables)
      ensures HasIdentity(send) && !(r.Ok? && r.value.created) ==> exists i :: IsSeen(others, i, tables)
      ensures !HasIdentity(send) ==> tables == old(tables)
      ensures r.Ok? && !r.value.created ==>
        var key := Key(send.loginID, send.transactionID);
        IsReentry(r.value.row, send) && key in tables.sends && r.value.row == tables.sends[key]
    {
      hide HasIdentity, IsReentry, AttemptOutcome, InsertSend, MayCreate;
      var key := Key(send.loginID, send.transactionID);
      if !HasIdentity(send) { return Err(InvalidArgument); }
      tables := others[0];
      assert IsSeen(others, 0, tables);
      var existing := Get(key);
      if existing.Some? {
        return if IsReentry(existing.value, send) then Ok(Loaded(existing.value, false)) else Err(IdentityChanged);
      }
      if !MayCreate(send, started, next, now) { return Err(InvalidArgument); }
      var row := NewRow(send, started, next, now);
      for attempt := 0 to 2
        invariant IsSeen(others, attempt * 5, tables)
        invariant attempt > 0 ==> AttemptOutcome(others[1..6], send, row).None?
        invariant attempt > 1 ==> AttemptOutcome(others[6..11], send, row).None?
      {
        var base := attempt * 5;
        ghost var i;
        var answer;
        answer, i := Attempt(send, row, others[base + 1..base + 6]);
        if answer.Some? {
          assert others[base + 1..base + 6][i] == others[base + 1 + i];
          assert !(answer.value.Ok? && answer.value.value.created) ==> IsSeen(others, base + 1 + i, tables);
          return answer.value;
        }
        assert tables == others[base + 5];
      }
      return Err(ChangedConcurrently);
    }

    // The last result is the number of the statement that gave the answer.
    method Attempt(send: Send, row: Send, seen: seq<Tables>)
      returns (answer: Option<Result<Loaded, Error>>, ghost i: nat)
      requires |seen| == 5 && row.transactionID == send.transactionID && row.loginID == send.loginID
      modifies this
      ensures answer == AttemptOutcome(seen, send, row) && i < 5 && (answer.None? ==> i == 4)
      ensures if answer.Some? && answer.value.Ok? && answer.value.value.created
              then answer.value.value.row == row && InsertSend(seen[i], row) == Changed(tables)
              else tables == seen[i]
      ensures answer.Some? && answer.value.Ok? && !answer.value.value.created ==>
        var loaded, key := answer.value.value, Key(send.loginID, send.transactionID);
        IsReentry(loaded.row, send) && key in tables.sends && loaded.row == tables.sends[key]
    {
      hide IsReentry, InsertSend, IsEventMapped, IsClaimed;
      var key := Key(send.loginID, send.transactionID);
      i := 0;
      tables := seen[0];
      var inserted := Exec(InsertSend(tables, row));
      if inserted.Err? { return Some(Err(inserted.error)), i; }
      if inserted.value { return Some(Ok(Loaded(row, true))), i; }
      i := 1;
      tables := seen[1];
      var existing := Get(key);
      if existing.Some? {
        return Some(if IsReentry(existing.value, send) then Ok(Loaded(existing.value, false))
          else Err(IdentityChanged)),
          i;
      }
      i := 2;
      tables := seen[2];
      if IsEventMapped(tables, send.eventID) { return Some(Err(AlreadyCompleted)), i; }
      i := 3;
      tables := seen[3];
      var claimed := IsClaimed(tables, send.eventID);
      i := 4;
      tables := seen[4];
      if claimed || send.eventID in tables.receipts { return Some(Err(AlreadyHandled)), i; }
      return None, i;
    }

    method MarkSubmitting(key: Key, baseline: seq<string>, started: Instant, next: Instant, now: Instant)
      returns (r: Result<bool, Error>)
      modifies this
      ensures
        if started != ZERO_TIME && started <= now && IsNextAttempt(next, now) && IsBaseline(baseline)
        then IsResultOf(r, OutboundTables.MarkSubmitting(old(tables), key, baseline, Milli(started), Milli(next),
          Milli(now)), old(tables))
        else r == Err(InvalidArgument) && tables == old(tables)
      ensures r == Ok(true) ==>
        && key in old(tables).sends && old(tables).sends[key].state == Prepared && !old(tables).sends[key].IsTerminal()
        && key in tables.sends && tables.sends[key].state == Submitting && tables.sends[key].baseline == baseline
      ensures r != Ok(true) ==> tables == old(tables)
    {
      if started == ZERO_TIME || started > now || !IsNextAttempt(next, now)
        || !IsBaseline(baseline) { return Err(InvalidArgument); }
      r := Exec(OutboundTables.MarkSubmitting(tables, key, baseline, Milli(started), Milli(next), Milli(now)));
    }

    predicate IsResultOf(r: Result<bool, Error>, e: Effect, before: Tables)
      reads this
    {
      tables == Left(e, before) && r == RowWasChanged(e)
    }

    // Runs inside a transaction: the caller restores the tables when it fails.
    method EnsureTerminalReceipt(key: Key) returns (r: Result<bool, Error>)
      modifies this
      ensures IsResultOf(r, EnsureReceipt(old(tables), key), old(tables))
    {
      r := Exec(EnsureReceipt(tables, key));
    }

    method WithTerminalReceipt(key: Key, transition: Effect) returns (r: Result<bool, Error>)
      modifies this
      ensures IsResultOf(r, WithReceipt(transition, key), old(tables))
    {
      var begun := tables;
      r := Exec(transition);
      if r == Ok(true) {
        r := EnsureTerminalReceipt(key);
        if r.Err? { tables := begun; }
      }
    }

    method MarkNotSubmitted(submitting: bool, key: Key, terminal: Instant, next: Instant)
      returns (r: Result<bool, Error>)
      modifies this
      ensures
        if terminal != ZERO_TIME && next > terminal
        then IsResultOf(r, NotSubmittedEffect(old(tables), submitting, key, terminal, next), old(tables))
        else r == Err(InvalidArgument) && tables == old(tables)
    {
      if terminal == ZERO_TIME || next <= terminal { return Err(InvalidArgument); }
      var transition := NoRow;
      if key in tables.sends {
        var row := tables.sends[key];
        if && row.state == (if submitting then Submitting else Prepared) && row.notifiedTS == 0 && row.remoteID == ""
          && row.terminalTS == 0
           && (submitting ==> row.claimToken == "") {
          transition := UpdateRow(tables, key, row.(
            state := NotSubmitted, terminalTS := Milli(terminal), nextAttemptTS := Milli(next),
              updatedTS := Milli(terminal)));
        }
      }
      r := WithTerminalReceipt(key, transition);
    }

    method ClaimStatusDelivery(key: Key, token: string, expires: Instant, now: Instant) returns (r: Result<bool, Error>)
      modifies this
      ensures
        if !IsBlank(token) && expires > now
        then IsResultOf(r, ClaimStatus(old(tables), key, token, Milli(expires), Milli(now)), old(tables))
        else r == Err(InvalidArgument) && tables == old(tables)
      ensures r == Ok(true) ==>
        && key in old(tables).sends && old(tables).sends[key].IsFailure() && old(tables).sends[key].notifiedTS == 0
        && (old(tables).sends[key].claimToken == "" || old(tables).sends[key].claimExpiresTS <= Milli(now))
        && key in tables.sends && tables.sends[key].claimToken == token
          && tables.sends[key].claimExpiresTS == Milli(expires)
      ensures r != Ok(true) ==> tables == old(tables)
    {
      if IsBlank(token) || expires <= now { return Err(InvalidArgument); }
      r := Exec(ClaimStatus(tables, key, token, Milli(expires), Milli(now)));
    }

    // Succeeds exactly if the status counts as notified afterwards, by this claim or an earlier one.
    method FinishStatusDelivery(key: Key, token: string, notified: Instant, expiry: Instant)
      returns (error: Option<Error>)
      requires key in tables.sends ==> tables.sends[key].notifiedTS >= 0
      modifies this
      ensures
        var e := FinishStatus(old(tables), key, token, Milli(notified), Milli(expiry));
        if !IsBlank(token) && notified != ZERO_TIME && expiry > notified
        then
          && tables == Left(e, old(tables))
          && error ==
             (if e == Rejected then Some(Refused)
              else if e.Changed? || (key in tables.sends && tables.sends[key].notifiedTS > 0) then None
              else Some(NotPending))
          && (e != Rejected && Milli(notified) > 0 ==>
            (error == None <==> key in tables.sends && tables.sends[key].notifiedTS > 0))
        else error == Some(InvalidArgument) && tables == old(tables)
    {
      if IsBlank(token) || notified == ZERO_TIME || expiry <= notified { return Some(InvalidArgument); }
      var changed := Exec(FinishStatus(tables, key, token, Milli(notified), Milli(expiry)));
      if changed.Err? { return Some(changed.error); }
      if changed.value { return None; }
      var existing := Get(key);
      return if existing.Some? && existing.value.notifiedTS > 0 then None else Some(NotPending);
    }

    // Succeeds exactly if the row is bound to the conversation and portal afterwards.
    method BindConversation(key: Key, conversationID: string, portal: PortalKey, next: Instant, now: Instant)
      returns (error: Option<Error>)
      modifies this
      ensures
        var e := OutboundTables.BindConversation(old(tables), key, conversationID, portal, Milli(next), Milli(now));
        if !IsBlank(conversationID) && !portal.IsEmpty() && portal.id == conversationID && IsNextAttempt(next, now)
        then
          && tables == Left(e, old(tables))
          && (error == Some(Refused) <==> e == Rejected)
          && (e != Rejected ==> (error == None <==>
                key in tables.sends && tables.sends[key].conversationID == conversationID
                && tables.sends[key].portal == portal && tables.sends[key].bindingConversationID == ""))
          && (error == Some(BindingConflict) <==>
                && e == NoRow && key in tables.sends && tables.sends[key].conversationID != ""
                && (tables.sends[key].conversationID != conversationID || tables.sends[key].portal != portal))
          && (error == Some(RoomMismatch) <==>
                && e == NoRow && key in tables.sends && tables.sends[key].conversationID == ""
                && tables.sends[key].bindingConversationID == conversationID)
          && (error.None? || error.value in {Refused, BindingConflict, RoomMismatch, NotPending})
        else error == Some(InvalidArgument) && tables == old(tables)
    {
      if IsBlank(conversationID) || portal.IsEmpty() || portal.id != conversationID
        || !IsNextAttempt(next, now) { return Some(InvalidArgument); }
      var changed := Exec(OutboundTables.BindConversation(tables, key, conversationID, portal, Milli(next),
        Milli(now)));
      if changed.Err? { return Some(changed.error); }
      if changed.value { return None; }
      var existing := Get(key);
      if existing.None? { return Some(NotPending); }
      var row := existing.value;
      if row.conversationID != ""
        && (row.conversationID != conversationID || row.portal != portal) { return Some(BindingConflict); }
      if row.conversationID == conversationID && row.portal == portal
        && row.bindingConversationID == "" { return None; }
      if row.conversationID == "" && row.bindingConversationID == conversationID { return Some(RoomMismatch); }
      return Some(NotPending);
    }

    // Succeeds exactly if the row is completed with this message and has its receipt afterwards.
    method MarkCompleted(key: Key, remoteID: string, terminal: Instant) returns (error: Option<Error>)
      modifies this
      ensures
        var e := OutboundTables.MarkCompleted(old(tables), key, remoteID, Milli(terminal));
        if !IsBlank(remoteID) && terminal != ZERO_TIME
        then
          && tables == Left(e, old(tables))
          && error == (if e.Changed? then None else if e == NoRow then Some(NotPending) else Some(Refused))
          && (error == None ==>
                key in tables.sends && tables.sends[key].state == Completed && tables.sends[key].remoteID == remoteID
                && tables.sends[key].eventID in tables.receipts)
        else error == Some(InvalidArgument) && tables == old(tables)
    {
      if IsBlank(remoteID) || terminal == ZERO_TIME { return Some(InvalidArgument); }
      var begun := tables;
      var transition := NoRow;
      if key in tables.sends {
        var row := tables.sends[key];
        if row.state == Resolved && row.remoteID == remoteID && row.terminalTS == 0 && row.notifiedTS == 0
          && row.claimToken == "" {
          transition := UpdateRow(tables, key, row.(
            state := Completed, terminalTS := Milli(terminal), nextAttemptTS := COMPLETED_RECEIPT_TS,
              updatedTS := Milli(terminal)));
        }
      }
      var changed := Exec(transition);
      if changed.Err? { return Some(changed.error); }
      if !changed.value {
        var existing := Get(key);
        if existing.None? || existing.value.state != Completed
          || existing.value.remoteID != remoteID { return Some(NotPending); }
      }
      changed := EnsureTerminalReceipt(key);
      if changed.Err? {
        tables := begun;
        return Some(changed.error);
      }
      return None;
    }

    // The database returns the updated rows in some order; one failure undoes them all.
    method TerminalizeConversation(loginID: LoginID, conversationID: string, terminal: Instant, next: Instant,
      returned: seq<Key>)
      returns (r: Result<seq<Key>, Error>)
      modifies this
      ensures
        var e := OutboundTables.TerminalizeConversation(old(tables), loginID, conversationID, Milli(terminal),
          Milli(next), returned);
        if !IsBlank(loginID) && !IsBlank(conversationID) && terminal != ZERO_TIME && next > terminal
        then tables == Left(e, old(tables)) && r == (if e.Changed? then Ok(returned) else Err(Refused))
        else r == Err(InvalidArgument) && tables == old(tables)
    {
      if IsBlank(loginID) || IsBlank(conversationID) || terminal == ZERO_TIME
        || next <= terminal { return Err(InvalidArgument); }
      var begun := tables;
      var updated := CancelRows(tables, loginID, conversationID, Milli(terminal), Milli(next));
      if exists k <- updated.sends.Keys :: !Fits(updated, k, updated.sends[k]) { return Err(Refused); }
      tables := updated;
      for i := 0 to |returned|
        invariant EnsureReceipts(tables, returned[i..]) == EnsureReceipts(updated, returned)
      {
        var saved := EnsureTerminalReceipt(returned[i]);
        assert returned[i..][1..] == returned[i + 1..];
        if saved.Err? {
          tables := begun;
          return Err(saved.error);
        }
      }
      return Ok(returned);
    }
  }

  function NotSubmittedEffect(t: Tables, submitting: bool, key: Key, terminal: Instant, next: Instant): Effect {
    if submitting then MarkSubmittingNotSubmitted(t, key, Milli(terminal), Milli(next))
    else MarkPreparedNotSubmitted(t, key, Milli(terminal), Milli(next))
  }

  // ---- Nanoseconds against milliseconds ----

  /**
   The check on the arguments compares nanoseconds and the schema compares milliseconds. A failure
   that passes the check is refused exactly if both times fall into one millisecond, or the terminal
   time lies before the epoch's first millisecond.
   */
  lemma NotSubmittedIsRefusedExactly(t: Tables, submitting: bool, key: Key, terminal: Instant, next: Instant,
    nowTS: int)
    requires IsGood(t, nowTS) && 0 < nowTS && Milli(terminal) <= nowTS && next > terminal
    requires NotSubmittedEffect(t, submitting, key, terminal, next) != NoRow
    ensures NotSubmittedEffect(t, submitting, key, terminal, next) == Rejected <==>
      Milli(terminal) <= 0 || Milli(next) == Milli(terminal)
  {
    assert IsGoodRow(t.sends[key], nowTS);
    if Milli(terminal) > 0 && Milli(next) > Milli(terminal) {
      if submitting {
        RejectSubmittingSucceeds(t, key, Milli(terminal), Milli(next), nowTS);
      } else {
        RejectPreparedSucceeds(t, key, Milli(terminal), Milli(next), nowTS);
      }
    }
  }

  /** Two times of one millisecond pass the check, and the schema then refuses the failure. */
  lemma CloseTimesAreRefused(t: Tables, key: Key, nowTS: int)
    requires IsGood(t, nowTS) && nowTS >= 5 && key in t.sends && t.sends[key].state == Prepared
    ensures NotSubmittedEffect(t, false, key, 5_000_001, 5_000_002) == Rejected
  {
    assert IsGoodRow(t.sends[key], nowTS);
    NotSubmittedIsRefusedExactly(t, false, key, 5_000_001, 5_000_002, nowTS);
  }

  /** A claim that expires in the millisecond of the row's terminal time is refused, and no other claim is. */
  lemma ClaimIsRefusedExactly(t: Tables, key: Key, token: string, expires: Instant, now: Instant)
    requires IsGood(t, Milli(now)) && 0 < Milli(now) && expires > now && !IsBlank(token)
    requires ClaimStatus(t, key, token, Milli(expires), Milli(now)) != NoRow
    ensures ClaimStatus(t, key, token, Milli(expires), Milli(now)) == Rejected <==>
      Milli(expires) == t.sends[key].terminalTS
  {
    assert IsGoodRow(t.sends[key], Milli(now));
    var r := t.sends[key];
    if Milli(expires) > r.terminalTS {
      var r' := r.(
        claimToken := token, claimExpiresTS := Milli(expires),
        nextAttemptTS := if r.nextAttemptTS > Milli(expires) then Milli(expires)
          else r.nextAttemptTS, updatedTS := Milli(now));
      ClaimedRowIsGood(r, token, Milli(expires), Milli(now));
      hide IsGoodRow, HasUniqueEvents, HasUniqueRemotes, HasReceiptsOfTerminalRows;
      UpdateKeepsGood(t, key, r', Milli(now));
    }
  }
}
