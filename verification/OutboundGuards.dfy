/**
 When each statement takes effect on good tables, and what becomes of its row. Most of a statement's guards
 follow from the row's state, which is what its caller can see; no constraint ever stands in the way.
 */
module OutboundGuards {
  import opened RemoteIDs
  import opened OutboundTables
  import opened OutboundInvariant
  import opened OutboundStatements
  import opened OutboundSteps

  // Posted, or about to be, and neither explained nor given up yet.
  predicate IsPending(r: Send) {
    r.state in {Submitting, AwaitingEcho, Uncertain}
  }

  predicate IsUnresolved(r: Send) {
    r.state == Prepared || IsPending(r)
  }

  predicate IsRemoteTaken(t: Tables, key: Key, conversationID: string, remoteID: string) {
    exists other <- t.sends.Keys ::
      other.loginID == key.loginID && t.sends[other].conversationID == conversationID
      && t.sends[other].remoteID == remoteID
  }

  predicate TakesEffect(t: Tables, s: Statement, nowTS: int)
    requires IsOneRowStatement(s)
  {
    s.key in t.sends &&
    var r := t.sends[s.key];
    match s
    case Prepare(_, conversationID, _) =>
      IsUnresolved(r) && r.conversationID == "" && r.bindingConversationID in {"", conversationID}
    case Submit(_, _, _, _) => r.state == Prepared
    case RejectPrepared(_, _, _) => r.state == Prepared
    case RejectSubmitting(_, _, _) => r.state == Submitting
    case Claim(_, _, _) =>
      r.IsFailure() && r.notifiedTS == 0 && (r.claimToken == "" || r.claimExpiresTS <= nowTS)
    case Finish(_, token, _, _) => r.claimToken == token
    case Release(_, token) => r.claimToken == token
    case Bind(_, conversationID, portal, _) =>
      && IsUnresolved(r) && portal in t.portalRooms && t.portalRooms[portal] == r.roomID
      && (|| (r.conversationID == "" && r.bindingConversationID == conversationID)
          || (r.conversationID == conversationID && r.portal == portal))
    case AwaitEcho(_, _) => IsPending(r) && r.conversationID != ""
    case Doubt(_, _) => IsPending(r)
    case GiveUp(_, _, _) => IsPending(r)
    case GiveUpResolved(_, remoteID, _, _) => r.state == Resolved && r.remoteID == remoteID
    case Complete(_, remoteID, _) => r.state in {Resolved, Completed} && r.remoteID == remoteID
    case Retry(_, _) => true
    case Resolve(_, conversationID, remoteID, _) =>
      && r.conversationID == conversationID
      && (|| (r.state == Resolved && r.remoteID == remoteID)
          || (&& IsPending(r) && !IsRemoteTaken(t, s.key, conversationID, remoteID)
              && !IsMapped(t, remoteID, r.portal.receiver)))
  }

  // The row afterwards; everything that is not named here stays.
  function RowAfter(r: Send, s: Statement, nowTS: int): Send
    requires IsOneRowStatement(s)
  {
    match s
    case Prepare(_, conversationID, nextTS) =>
      r.(bindingConversationID := conversationID, nextAttemptTS := nextTS, updatedTS := nowTS)
    case Submit(_, baseline, startedTS, nextTS) =>
      r.(state := Submitting, baseline := baseline, startedTS := startedTS, nextAttemptTS := nextTS, updatedTS := nowTS)
    case RejectPrepared(_, terminalTS, nextTS) =>
      r.(state := NotSubmitted, terminalTS := terminalTS, nextAttemptTS := nextTS, updatedTS := terminalTS)
    case RejectSubmitting(_, terminalTS, nextTS) =>
      r.(state := NotSubmitted, terminalTS := terminalTS, nextAttemptTS := nextTS, updatedTS := terminalTS)
    case Claim(_, token, expiresTS) =>
      r.(
        claimToken := token, claimExpiresTS := expiresTS, updatedTS := nowTS,
        nextAttemptTS := if expiresTS < r.nextAttemptTS then expiresTS else r.nextAttemptTS)
    case Finish(_, _, notifiedTS, expiryTS) =>
      r.(
        notifiedTS := notifiedTS, nextAttemptTS := expiryTS, claimToken := "", claimExpiresTS := 0,
        updatedTS := notifiedTS)
    case Release(_, _) => r.(claimToken := "", claimExpiresTS := 0, updatedTS := nowTS)
    case Bind(_, conversationID, portal, nextTS) =>
      r.(
        portal := portal, conversationID := conversationID, bindingConversationID := "", nextAttemptTS := nextTS,
        updatedTS := nowTS)
    case AwaitEcho(_, nextTS) => r.(state := AwaitingEcho, nextAttemptTS := nextTS, updatedTS := nowTS)
    case Doubt(_, nextTS) =>
      r.(state := Uncertain, attemptCount := r.attemptCount + 1, nextAttemptTS := nextTS, updatedTS := nowTS)
    case GiveUp(_, terminalTS, nextTS) =>
      r.(state := Unconfirmed, terminalTS := terminalTS, nextAttemptTS := nextTS, updatedTS := terminalTS)
    case GiveUpResolved(_, _, terminalTS, nextTS) =>
      r.(
        state := Unconfirmed, remoteID := "", terminalTS := terminalTS, nextAttemptTS := nextTS,
        updatedTS := terminalTS)
    case Complete(_, _, terminalTS) =>
      if r.state == Completed then r
      else
        r.(
          state := Completed, terminalTS := terminalTS, nextAttemptTS := COMPLETED_RECEIPT_TS, updatedTS := terminalTS)
    case Retry(_, nextTS) => r.(attemptCount := r.attemptCount + 1, nextAttemptTS := nextTS, updatedTS := nowTS)
    case Resolve(_, _, remoteID, nextTS) =>
      r.(remoteID := remoteID, state := Resolved, nextAttemptTS := nextTS, updatedTS := nowTS)
  }

  // The row changes as said, with its receipt if that makes it terminal, and nothing else does.
  function TablesAfter(t: Tables, key: Key, r': Send): Tables
    requires key in t.sends
  {
    if r'.IsTerminal() && !t.sends[key].IsTerminal() then Terminated(t, key, r') else t.(sends := t.sends[key := r'])
  }

  predicate IsExact(t: Tables, e: Effect, s: Statement, nowTS: int)
    requires IsOneRowStatement(s)
  {
    e == if TakesEffect(t, s, nowTS) then Changed(TablesAfter(t, s.key, RowAfter(t.sends[s.key], s, nowTS))) else NoRow
  }

  // What the state of a good row tells about its other fields.
  lemma RowFacts(t: Tables, key: Key, nowTS: int)
    requires IsGood(t, nowTS)
    ensures key in t.sends ==>
      var r := t.sends[key];
      && (r.IsTerminal() <==> r.IsFailure() || r.state == Completed) && r.terminalTS >= 0 && r.notifiedTS >= 0
      && (r.remoteID != "" <==> r.state in {Resolved, Completed})
      && (!r.IsFailure() ==> r.claimToken == "" && r.notifiedTS == 0)
      && (r.claimToken != "" ==> r.notifiedTS == 0)
  {
    hide HasUniqueEvents, HasUniqueRemotes, HasReceiptsOfTerminalRows, HasGoodReceipts, IsKeyed;
    assert key in t.sends ==> IsGoodRow(t.sends[key], nowTS);
  }

  lemma UpdateChanges(t: Tables, key: Key, r: Send, nowTS: int)
    ensures UpdateRow(t, key, r) != NoRow
    ensures Succeeds(UpdateRow(t, key, r), nowTS) ==> UpdateRow(t, key, r) == Changed(t.(sends := t.sends[key := r]))
  {
    hide Fits;
  }

  predicate IsTerminalAt(s: Statement, nowTS: int) {
    match s
    case RejectPrepared(_, terminalTS, _) => 0 < terminalTS <= nowTS
    case RejectSubmitting(_, terminalTS, _) => 0 < terminalTS <= nowTS
    case GiveUp(_, terminalTS, _) => 0 < terminalTS <= nowTS
    case GiveUpResolved(_, _, terminalTS, _) => 0 < terminalTS <= nowTS
    case Complete(_, _, terminalTS) => 0 < terminalTS <= nowTS
    case _ => true
  }

  lemma TerminationChanges(t: Tables, key: Key, r: Send, nowTS: int)
    requires key in t.sends
    ensures var e := WithReceipt(UpdateRow(t, key, r), key);
            && e != NoRow
            && (Succeeds(e, nowTS) && IsTermination(t, key, e) && !t.sends[key].IsTerminal() ==>
                  e == Changed(Terminated(t, key, r)))
  {
    hide Fits, IsGood;
  }

  // A completed row has its receipt, so that ensuring it changes nothing.
  lemma CompletedStays(t: Tables, key: Key, nowTS: int)
    requires IsGood(t, nowTS) && key in t.sends
    ensures t.sends[key].IsTerminal() ==> EnsureReceipt(t, key) == Changed(t)
    ensures t.(sends := t.sends[key := t.sends[key]]) == t
  {
    hide ScanAccepts, SchemaAccepts, HasUniqueEvents, HasUniqueRemotes, HasGoodReceipts;
    assert t.sends[key := t.sends[key]] == t.sends;
  }

  lemma PrepareIsExact(t: Tables, s: Statement, nowTS: int)
    requires IsGood(t, nowTS) && HasCallerArguments(t, s, nowTS) && s.Prepare?
    ensures IsExact(t, PrepareConversation(t, s.key, s.conversationID, s.nextTS, nowTS), s, nowTS)
  {
    hide IsGood, Fits, IsMapped, IsRemoteTaken;
    PrepareSucceeds(t, s.key, s.conversationID, s.nextTS, nowTS);
    RowFacts(t, s.key, nowTS);
    hide HasCallerArguments;
  }

  lemma SubmitIsExact(t: Tables, s: Statement, nowTS: int)
    requires IsGood(t, nowTS) && HasCallerArguments(t, s, nowTS) && s.Submit?
    ensures IsExact(t, MarkSubmitting(t, s.key, s.baseline, s.startedTS, s.nextTS, nowTS), s, nowTS)
  {
    hide IsGood, Fits, IsMapped, IsRemoteTaken;
    SubmitSucceeds(t, s.key, s.baseline, s.startedTS, s.nextTS, nowTS);
    RowFacts(t, s.key, nowTS);
    hide HasCallerArguments;
  }

  lemma RejectPreparedIsExact(t: Tables, s: Statement, nowTS: int)
    requires IsGood(t, nowTS) && HasCallerArguments(t, s, nowTS) && s.RejectPrepared?
    ensures IsExact(t, MarkPreparedNotSubmitted(t, s.key, s.terminalTS, s.nextTS), s, nowTS)
  {
    hide IsGood, Fits, IsMapped, IsRemoteTaken;
    RejectPreparedSucceeds(t, s.key, s.terminalTS, s.nextTS, nowTS);
    RowFacts(t, s.key, nowTS);
    assert IsTerminalAt(s, nowTS);
    hide HasCallerArguments, UpdateRow, WithReceipt, EnsureReceipt;
    if s.key in t.sends {
      var r := t.sends[s.key];
      TerminationChanges(t, s.key,
        r.(state := NotSubmitted, terminalTS := s.terminalTS, nextAttemptTS := s.nextTS, updatedTS := s.terminalTS),
        nowTS);
    }
  }

  lemma RejectSubmittingIsExact(t: Tables, s: Statement, nowTS: int)
    requires IsGood(t, nowTS) && HasCallerArguments(t, s, nowTS) && s.RejectSubmitting?
    ensures IsExact(t, MarkSubmittingNotSubmitted(t, s.key, s.terminalTS, s.nextTS), s, nowTS)
  {
    hide IsGood, Fits, IsMapped, IsRemoteTaken;
    RejectSubmittingSucceeds(t, s.key, s.terminalTS, s.nextTS, nowTS);
    RowFacts(t, s.key, nowTS);
    assert IsTerminalAt(s, nowTS);
    hide HasCallerArguments, UpdateRow, WithReceipt, EnsureReceipt;
    if s.key in t.sends {
      var r := t.sends[s.key];
      TerminationChanges(t, s.key,
        r.(state := NotSubmitted, terminalTS := s.terminalTS, nextAttemptTS := s.nextTS, updatedTS := s.terminalTS),
        nowTS);
    }
  }

  lemma ClaimIsExact(t: Tables, s: Statement, nowTS: int)
    requires IsGood(t, nowTS) && HasCallerArguments(t, s, nowTS) && s.Claim?
    ensures IsExact(t, ClaimStatus(t, s.key, s.token, s.expiresTS, nowTS), s, nowTS)
  {
    hide IsGood, Fits, IsMapped, IsRemoteTaken;
    ClaimSucceeds(t, s.key, s.token, s.expiresTS, nowTS);
    RowFacts(t, s.key, nowTS);
    hide HasCallerArguments;
  }

  lemma FinishIsExact(t: Tables, s: Statement, nowTS: int)
    requires IsGood(t, nowTS) && HasCallerArguments(t, s, nowTS) && s.Finish?
    ensures IsExact(t, FinishStatus(t, s.key, s.token, s.notifiedTS, s.expiryTS), s, nowTS)
  {
    hide IsGood, Fits, IsMapped, IsRemoteTaken;
    FinishSucceeds(t, s.key, s.token, s.notifiedTS, s.expiryTS, nowTS);
    RowFacts(t, s.key, nowTS);
    hide HasCallerArguments;
  }

  lemma ReleaseIsExact(t: Tables, s: Statement, nowTS: int)
    requires IsGood(t, nowTS) && HasCallerArguments(t, s, nowTS) && s.Release?
    ensures IsExact(t, ReleaseStatus(t, s.key, s.token, nowTS), s, nowTS)
  {
    hide IsGood, Fits, IsMapped, IsRemoteTaken;
    ReleaseSucceeds(t, s.key, s.token, nowTS);
    RowFacts(t, s.key, nowTS);
    hide HasCallerArguments;
  }

  lemma BindIsExact(t: Tables, s: Statement, nowTS: int)
    requires IsGood(t, nowTS) && HasCallerArguments(t, s, nowTS) && s.Bind?
    ensures IsExact(t, BindConversation(t, s.key, s.conversationID, s.portal, s.nextTS, nowTS), s, nowTS)
  {
    BindSucceeds(t, s.key, s.conversationID, s.portal, s.nextTS, nowTS);
    RowFacts(t, s.key, nowTS);
    hide IsGood, Fits, HasCallerArguments;
  }

  lemma AwaitEchoIsExact(t: Tables, s: Statement, nowTS: int)
    requires IsGood(t, nowTS) && HasCallerArguments(t, s, nowTS) && s.AwaitEcho?
    ensures IsExact(t, MarkAwaitingEcho(t, s.key, s.nextTS, nowTS), s, nowTS)
  {
    hide IsGood, Fits, IsMapped, IsRemoteTaken;
    AwaitEchoSucceeds(t, s.key, s.nextTS, nowTS);
    RowFacts(t, s.key, nowTS);
    hide HasCallerArguments;
  }

  lemma DoubtIsExact(t: Tables, s: Statement, nowTS: int)
    requires IsGood(t, nowTS) && HasCallerArguments(t, s, nowTS) && s.Doubt?
    ensures IsExact(t, MarkUncertain(t, s.key, s.nextTS, nowTS), s, nowTS)
  {
    hide IsGood, Fits, IsMapped, IsRemoteTaken;
    DoubtSucceeds(t, s.key, s.nextTS, nowTS);
    RowFacts(t, s.key, nowTS);
    hide HasCallerArguments, UpdateRow;
    if s.key in t.sends {
      var r := t.sends[s.key];
      var r' := r.(state := Uncertain, attemptCount := r.attemptCount + 1, nextAttemptTS := s.nextTS,
        updatedTS := nowTS);
      UpdateChanges(t, s.key, r', nowTS);
      assert RowAfter(r, s, nowTS) == r';
    }
  }

  lemma GiveUpIsExact(t: Tables, s: Statement, nowTS: int)
    requires IsGood(t, nowTS) && HasCallerArguments(t, s, nowTS) && s.GiveUp?
    ensures IsExact(t, MarkUnconfirmed(t, s.key, s.terminalTS, s.nextTS), s, nowTS)
  {
    hide IsGood, Fits, IsMapped, IsRemoteTaken;
    GiveUpSucceeds(t, s.key, s.terminalTS, s.nextTS, nowTS);
    RowFacts(t, s.key, nowTS);
    assert IsTerminalAt(s, nowTS);
    hide HasCallerArguments, UpdateRow, WithReceipt, EnsureReceipt;
    if s.key in t.sends {
      var r := t.sends[s.key];
      TerminationChanges(t, s.key,
        r.(state := Unconfirmed, terminalTS := s.terminalTS, nextAttemptTS := s.nextTS, updatedTS := s.terminalTS),
        nowTS);
    }
  }

  lemma GiveUpResolvedIsExact(t: Tables, s: Statement, nowTS: int)
    requires IsGood(t, nowTS) && HasCallerArguments(t, s, nowTS) && s.GiveUpResolved?
    ensures IsExact(t, MarkResolvedUnconfirmed(t, s.key, s.remoteID, s.terminalTS, s.nextTS), s, nowTS)
  {
    hide IsGood, Fits, IsMapped, IsRemoteTaken;
    GiveUpResolvedSucceeds(t, s.key, s.remoteID, s.terminalTS, s.nextTS, nowTS);
    RowFacts(t, s.key, nowTS);
    assert IsTerminalAt(s, nowTS);
    hide HasCallerArguments, UpdateRow, WithReceipt, EnsureReceipt;
    if s.key in t.sends {
      var r := t.sends[s.key];
      TerminationChanges(t, s.key,
        r.(state := Unconfirmed, remoteID := "", terminalTS := s.terminalTS, nextAttemptTS := s.nextTS,
        updatedTS := s.terminalTS), nowTS);
    }
  }

  lemma CompleteIsExact(t: Tables, s: Statement, nowTS: int)
    requires IsGood(t, nowTS) && HasCallerArguments(t, s, nowTS) && s.Complete?
    ensures IsExact(t, MarkCompleted(t, s.key, s.remoteID, s.terminalTS), s, nowTS)
  {
    hide IsGood, Fits, IsMapped, IsRemoteTaken;
    CompleteSucceeds(t, s.key, s.remoteID, s.terminalTS, nowTS);
    RowFacts(t, s.key, nowTS);
    assert IsTerminalAt(s, nowTS);
    hide HasCallerArguments, UpdateRow, WithReceipt;
    if s.key in t.sends {
      var r := t.sends[s.key];
      CompletedStays(t, s.key, nowTS);
      hide EnsureReceipt;
      TerminationChanges(t, s.key,
        r.(state := Completed, terminalTS := s.terminalTS, nextAttemptTS := COMPLETED_RECEIPT_TS,
        updatedTS := s.terminalTS), nowTS);
    }
  }

  lemma RetryIsExact(t: Tables, s: Statement, nowTS: int)
    requires IsGood(t, nowTS) && HasCallerArguments(t, s, nowTS) && s.Retry?
    ensures IsExact(t, ScheduleRetry(t, s.key, s.nextTS, nowTS), s, nowTS)
  {
    hide IsGood, Fits, IsMapped, IsRemoteTaken;
    RetrySucceeds(t, s.key, s.nextTS, nowTS);
    RowFacts(t, s.key, nowTS);
    hide HasCallerArguments, UpdateRow;
    if s.key in t.sends {
      var r := t.sends[s.key];
      var r' := r.(attemptCount := r.attemptCount + 1, nextAttemptTS := s.nextTS, updatedTS := nowTS);
      UpdateChanges(t, s.key, r', nowTS);
      assert RowAfter(r, s, nowTS) == r';
    }
  }

  lemma ResolveIsExact(t: Tables, s: Statement, nowTS: int)
    requires IsGood(t, nowTS) && HasCallerArguments(t, s, nowTS) && s.Resolve?
    ensures IsExact(t, ClaimRemoteMessage(t, s.key, s.conversationID, s.remoteID, s.nextTS, nowTS), s, nowTS)
  {
    hide IsGood, Fits;
    ResolveSucceeds(t, s.key, s.conversationID, s.remoteID, s.nextTS, nowTS);
    RowFacts(t, s.key, nowTS);
    hide HasCallerArguments;
  }

  /**
   On good tables, a statement of one row takes effect exactly if the row's state allows it, and then makes of the
   row what is said above. None is ever refused.
   */
  lemma StatementIsExact(t: Tables, s: Statement, nowTS: int)
    requires IsGood(t, nowTS) && HasCallerArguments(t, s, nowTS) && IsOneRowStatement(s)
    ensures IsExact(t, Execute(t, s, nowTS), s, nowTS)
  {
    hide IsGood, IsExact, HasCallerArguments, PrepareConversation, MarkSubmitting, MarkPreparedNotSubmitted,
      MarkSubmittingNotSubmitted, ClaimStatus, FinishStatus, ReleaseStatus, BindConversation, MarkAwaitingEcho,
      MarkUncertain, MarkUnconfirmed, MarkResolvedUnconfirmed, MarkCompleted, ScheduleRetry, ClaimRemoteMessage;
    match s
    case Prepare(_, _, _) => PrepareIsExact(t, s, nowTS);
    case Submit(_, _, _, _) => SubmitIsExact(t, s, nowTS);
    case RejectPrepared(_, _, _) => RejectPreparedIsExact(t, s, nowTS);
    case RejectSubmitting(_, _, _) => RejectSubmittingIsExact(t, s, nowTS);
    case Claim(_, _, _) => ClaimIsExact(t, s, nowTS);
    case Finish(_, _, _, _) => FinishIsExact(t, s, nowTS);
    case Release(_, _) => ReleaseIsExact(t, s, nowTS);
    case Bind(_, _, _, _) => BindIsExact(t, s, nowTS);
    case AwaitEcho(_, _) => AwaitEchoIsExact(t, s, nowTS);
    case Doubt(_, _) => DoubtIsExact(t, s, nowTS);
    case GiveUp(_, _, _) => GiveUpIsExact(t, s, nowTS);
    case GiveUpResolved(_, _, _, _) => GiveUpResolvedIsExact(t, s, nowTS);
    case Complete(_, _, _) => CompleteIsExact(t, s, nowTS);
    case Retry(_, _) => RetryIsExact(t, s, nowTS);
    case Resolve(_, _, _, _) => ResolveIsExact(t, s, nowTS);
  }

  // ---- Rows that come, go or are cancelled ----

  /** A new row is saved exactly if its event has no trace yet, and refused only without its login. */
  lemma InsertIsExact(t: Tables, row: Send, nowTS: int)
    requires IsGood(t, nowTS) && HasCallerArguments(t, Insert(row), nowTS)
    ensures InsertSend(t, row) ==
      if (exists m <- t.mappings :: m.eventID == row.eventID) || row.eventID in t.receipts
         || (exists k <- t.sends.Keys :: t.sends[k].eventID == row.eventID) then NoRow
      else if row.loginID !in t.logins then Rejected
      else Changed(t.(sends := t.sends[Key(row.loginID, row.transactionID) := row]))
  {
    InsertSucceeds(t, row, nowTS);
    var key := Key(row.loginID, row.transactionID);
    if key in t.sends {
      KeyIsEvent(t, key, row, nowTS);
    }
    hide IsGood, HasCallerArguments, SchemaAccepts;
  }

  lemma KeyIsEvent(t: Tables, key: Key, row: Send, nowTS: int)
    requires IsGood(t, nowTS) && key == Key(row.loginID, TransactionIDOf(row.loginID, row.eventID)) && key in t.sends
    ensures t.sends[key].eventID == row.eventID
  {
    assert IsGoodRow(t.sends[key], nowTS);
    TransactionIDsDiffer(row.loginID, t.sends[key].eventID, row.eventID);
  }

  /** A row goes exactly if it is prepared, or if it is a failure of the given kind that was notified. */
  lemma ForgetIsExact(t: Tables, key: Key, state: SendState, nowTS: int)
    requires IsGood(t, nowTS)
    ensures DeletePrepared(t, key) ==
      if key in t.sends && t.sends[key].state == Prepared then Changed(t.(sends := t.sends - {key})) else NoRow
    ensures state in {NotSubmitted, Unconfirmed} ==>
      DeleteNotified(t, key, state) ==
        if key in t.sends && t.sends[key].state == state && t.sends[key].notifiedTS > 0
        then Changed(t.(sends := t.sends - {key}))
        else NoRow
  {
    RowFacts(t, key, nowTS);
    assert key in t.sends && t.sends[key].IsTerminal() ==> HasOwnReceipt(t, t.sends[key]);
    hide IsGood;
  }

  // The rows of the conversation, bound or about to be, that nothing has explained yet.
  predicate IsCancelled(r: Send, loginID: LoginID, conversationID: string) {
    r.loginID == loginID && conversationID in {r.conversationID, r.bindingConversationID} && IsUnresolved(r)
  }

  /**
   Cancelling a conversation always succeeds. It fails its prepared rows and leaves the posted ones unconfirmed,
   saves the receipts of just these, and touches no other row.
   */
  lemma CancelIsExact(t: Tables, s: Statement, nowTS: int)
    requires IsGood(t, nowTS) && HasCallerArguments(t, s, nowTS) && s.Cancel?
    ensures var e := Execute(t, s, nowTS);
            && e.Changed? && e.tables == t.(sends := e.tables.sends, receipts := e.tables.receipts)
            && e.tables.sends.Keys == t.sends.Keys
            && (forall k <- t.sends.Keys ::
                  var r := t.sends[k];
                  e.tables.sends[k] ==
                    if !IsCancelled(r, s.loginID, s.conversationID) then r
                    else r.(
                      state := if r.state == Prepared then NotSubmitted else Unconfirmed, terminalTS := s.terminalTS,
                      nextAttemptTS := s.nextTS, updatedTS := s.terminalTS))
            && (forall event :: event in e.tables.receipts <==>
                  event in t.receipts
                  || exists k <- t.sends.Keys ::
                       IsCancelled(t.sends[k], s.loginID, s.conversationID) && t.sends[k].eventID == event)
  {
    var e := TerminalizeConversation(t, s.loginID, s.conversationID, s.terminalTS, s.nextTS, s.returned);
    assert Execute(t, s, nowTS) == e && s.terminalTS > 0;
    CancelSucceeds(t, s.loginID, s.conversationID, s.terminalTS, s.nextTS, s.returned, nowTS);
    CancelledRows(t, s, nowTS);
    ReturnedIsCancelled(t, s, nowTS);
    hide TerminalizeConversation, Execute, HasCallerArguments, IsCancelledBy, IsCancelled, CancelRows;
    CancelledHaveReceipts(t, s, e.tables, nowTS);
    hide IsGood;
  }

  lemma ReturnedIsCancelled(t: Tables, s: Statement, nowTS: int)
    requires IsGood(t, nowTS) && HasCallerArguments(t, s, nowTS) && s.Cancel?
    ensures forall k :: k in s.returned <==> k in t.sends && IsCancelled(t.sends[k], s.loginID, s.conversationID)
  {
    CancellationIsPlain(t, s.loginID, s.conversationID, nowTS);
    hide IsGood, IsCancelledBy, IsCancelled;
  }

  lemma CancellationIsPlain(t: Tables, loginID: LoginID, conversationID: string, nowTS: int)
    requires IsGood(t, nowTS)
    ensures forall k <- t.sends.Keys ::
              IsCancelledBy(t.sends[k], loginID, conversationID) <==> IsCancelled(t.sends[k], loginID, conversationID)
  {
    forall k | k in t.sends
      ensures IsCancelledBy(t.sends[k], loginID, conversationID) <==> IsCancelled(t.sends[k], loginID, conversationID)
    {
      RowFacts(t, k, nowTS);
      hide IsGood;
    }
  }

  lemma CancelledRows(t: Tables, s: Statement, nowTS: int)
    requires IsGood(t, nowTS) && s.Cancel?
    ensures var updated := CancelRows(t, s.loginID, s.conversationID, s.terminalTS, s.nextTS);
            && updated == t.(sends := updated.sends) && updated.sends.Keys == t.sends.Keys
            && forall k <- t.sends.Keys ::
                 var r := t.sends[k];
                 updated.sends[k] ==
                   if !IsCancelled(r, s.loginID, s.conversationID) then r
                   else r.(
                     state := if r.state == Prepared then NotSubmitted else Unconfirmed, terminalTS := s.terminalTS,
                     nextAttemptTS := s.nextTS, updatedTS := s.terminalTS)
  {
    CancellationIsPlain(t, s.loginID, s.conversationID, nowTS);
    hide IsGood, IsCancelledBy, IsCancelled;
  }

  lemma CancelledHaveReceipts(t: Tables, s: Statement, after: Tables, nowTS: int)
    requires s.Cancel? && s.terminalTS > 0 && IsGood(after, nowTS)
    requires OnlyAddsReceipts(CancelRows(t, s.loginID, s.conversationID, s.terminalTS, s.nextTS), after)
    requires forall k :: k in s.returned ==> k in t.sends && k in after.sends
    requires forall k <- s.returned :: after.sends[k].IsTerminal() && after.sends[k].eventID == t.sends[k].eventID
    ensures forall k <- s.returned :: t.sends[k].eventID in after.receipts
  {
    hide CancelRows;
    forall k | k in s.returned ensures t.sends[k].eventID in after.receipts {
      TerminalHasReceipt(after, k, nowTS);
    }
  }

  lemma TerminalHasReceipt(t: Tables, k: Key, nowTS: int)
    requires IsGood(t, nowTS) && k in t.sends && t.sends[k].IsTerminal()
    ensures t.sends[k].eventID in t.receipts
  {
    hide IsGoodRow;
    assert HasOwnReceipt(t, t.sends[k]);
  }
}
