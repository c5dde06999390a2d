/**
 All outbound statements as one type, with the arguments that their callers pass, and the proof that
 each of them keeps the tables good and is never refused while its login exists.
 */
module OutboundStatements {
  import opened RemoteIDs
  import opened OutboundTables
  import opened OutboundInvariant

  datatype Statement =
    | Insert(row: Send)
    | Prepare(key: Key, conversationID: string, nextTS: int)
    | Submit(key: Key, baseline: seq<string>, startedTS: int, nextTS: int)
    | RejectPrepared(key: Key, terminalTS: int, nextTS: int)
    | RejectSubmitting(key: Key, terminalTS: int, nextTS: int)
    | Claim(key: Key, token: string, expiresTS: int)
    | Finish(key: Key, token: string, notifiedTS: int, expiryTS: int)
    | Release(key: Key, token: string)
    | Bind(key: Key, conversationID: string, portal: PortalKey, nextTS: int)
    | AwaitEcho(key: Key, nextTS: int)
    | Doubt(key: Key, nextTS: int)
    | GiveUp(key: Key, terminalTS: int, nextTS: int)
    | GiveUpResolved(key: Key, remoteID: string, terminalTS: int, nextTS: int)
    | Complete(key: Key, remoteID: string, terminalTS: int)
    | Cancel(loginID: LoginID, conversationID: string, terminalTS: int, nextTS: int, returned: seq<Key>)
    | Retry(key: Key, nextTS: int)
    | Resolve(key: Key, conversationID: string, remoteID: string, nextTS: int)
    | ForgetPrepared(key: Key)
    | ForgetNotified(key: Key, state: SendState)

  function Execute(t: Tables, s: Statement, nowTS: int): Effect {
    match s
    case Insert(row) => InsertSend(t, row)
    case Prepare(key, conversationID, nextTS) => PrepareConversation(t, key, conversationID, nextTS, nowTS)
    case Submit(key, baseline, startedTS, nextTS) => MarkSubmitting(t, key, baseline, startedTS, nextTS, nowTS)
    case RejectPrepared(key, terminalTS, nextTS) => MarkPreparedNotSubmitted(t, key, terminalTS, nextTS)
    case RejectSubmitting(key, terminalTS, nextTS) => MarkSubmittingNotSubmitted(t, key, terminalTS, nextTS)
    case Claim(key, token, expiresTS) => ClaimStatus(t, key, token, expiresTS, nowTS)
    case Finish(key, token, notifiedTS, expiryTS) => FinishStatus(t, key, token, notifiedTS, expiryTS)
    case Release(key, token) => ReleaseStatus(t, key, token, nowTS)
    case Bind(key, conversationID, portal, nextTS) => BindConversation(t, key, conversationID, portal, nextTS, nowTS)
    case AwaitEcho(key, nextTS) => MarkAwaitingEcho(t, key, nextTS, nowTS)
    case Doubt(key, nextTS) => MarkUncertain(t, key, nextTS, nowTS)
    case GiveUp(key, terminalTS, nextTS) => MarkUnconfirmed(t, key, terminalTS, nextTS)
    case GiveUpResolved(key, remoteID, terminalTS, nextTS) =>
      MarkResolvedUnconfirmed(t, key, remoteID, terminalTS, nextTS)
    case Complete(key, remoteID, terminalTS) => MarkCompleted(t, key, remoteID, terminalTS)
    case Cancel(loginID, conversationID, terminalTS, nextTS, returned) =>
      TerminalizeConversation(t, loginID, conversationID, terminalTS, nextTS, returned)
    case Retry(key, nextTS) => ScheduleRetry(t, key, nextTS, nowTS)
    case Resolve(key, conversationID, remoteID, nextTS) =>
      ClaimRemoteMessage(t, key, conversationID, remoteID, nextTS, nowTS)
    case ForgetPrepared(key) => DeletePrepared(t, key)
    case ForgetNotified(key, state) => if state in {NotSubmitted, Unconfirmed} then DeleteNotified(t, key, state)
      else NoRow
  }

  // What LoadOrCreate has checked, or sets itself, before it inserts.
  predicate IsNewRow(r: Send, nowTS: int) {
    && HasIdentity(r)
    && r.transactionID == TransactionIDOf(r.loginID, r.eventID)
    && IsLowerHex(r.contentHash, CONTENT_HASH_LENGTH)
    && (forall id <- r.baseline :: !IsBlank(id))
    && r.state == Prepared && r.bindingConversationID == "" && r.remoteID == ""
    && r.terminalTS == 0 && r.notifiedTS == 0 && r.claimToken == "" && r.claimExpiresTS == 0 && r.attemptCount == 0
    && 0 < r.startedTS <= r.createdTS <= nowTS && r.nextAttemptTS > r.createdTS && r.updatedTS == r.createdTS
  }

  // Terminal times are never ahead of the clock, and the attempt that follows them is later.
  predicate IsTerminalSchedule(terminalTS: int, nextTS: int, nowTS: int) {
    0 < terminalTS <= nowTS && terminalTS < nextTS
  }

  ghost predicate HasCallerArguments(t: Tables, s: Statement, nowTS: int) {
    && 0 < nowTS < COMPLETED_RECEIPT_TS
    && match s
       case Insert(row) => IsNewRow(row, nowTS)
       case Prepare(_, conversationID, nextTS) => !IsBlank(conversationID) && nextTS > nowTS
       case Submit(_, baseline, startedTS, nextTS) => (forall id <- baseline :: !IsBlank(id)) && 0 < startedTS <= nowTS
         && nextTS > nowTS
       case RejectPrepared(_, terminalTS, nextTS) => IsTerminalSchedule(terminalTS, nextTS, nowTS)
       case RejectSubmitting(_, terminalTS, nextTS) => IsTerminalSchedule(terminalTS, nextTS, nowTS)
       case Claim(_, token, expiresTS) => !IsBlank(token) && expiresTS > nowTS
       case Finish(_, token, notifiedTS, expiryTS) => !IsBlank(token) && 0 < notifiedTS && expiryTS > nowTS
       case Release(_, token) => !IsBlank(token)
       case Bind(_, conversationID, portal, nextTS) => !IsBlank(conversationID) && portal.id == conversationID
         && nextTS > nowTS
       case AwaitEcho(_, nextTS) => nextTS > nowTS
       case Doubt(_, nextTS) => nextTS > nowTS
       case GiveUp(_, terminalTS, nextTS) => IsTerminalSchedule(terminalTS, nextTS, nowTS)
       case GiveUpResolved(_, remoteID, terminalTS, nextTS) => !IsBlank(remoteID)
         && IsTerminalSchedule(terminalTS, nextTS, nowTS)
       case Complete(_, remoteID, terminalTS) => !IsBlank(remoteID) && 0 < terminalTS <= nowTS
       case Cancel(loginID, conversationID, terminalTS, nextTS, returned) =>
         && !IsBlank(conversationID) && IsTerminalSchedule(terminalTS, nextTS, nowTS)
         && (forall k :: k in returned <==> k in t.sends && IsCancelledBy(t.sends[k], loginID, conversationID))
         && (forall i, j | 0 <= i < j < |returned| :: returned[i] != returned[j])
       case Retry(_, nextTS) => nextTS > nowTS
       case Resolve(_, conversationID, remoteID, nextTS) => !IsBlank(conversationID) && !IsBlank(remoteID)
         && nextTS > nowTS
       case ForgetPrepared(_) => true
       case ForgetNotified(_, _) => true
  }

  predicate Succeeds(e: Effect, nowTS: int) {
    e == NoRow || (e.Changed? && IsGood(e.tables, nowTS))
  }

  // The row was terminated with its receipt, or was already and stays.
  predicate IsTermination(t: Tables, key: Key, e: Effect) {
    e.Changed? ==>
      key in t.sends && key in e.tables.sends
      && e.tables == if t.sends[key].IsTerminal() then t else Terminated(t, key, e.tables.sends[key])
  }

  lemma InsertSucceeds(t: Tables, row: Send, nowTS: int)
    requires IsGood(t, nowTS) && IsNewRow(row, nowTS) && nowTS > 0
    ensures row.loginID in t.logins ==> Succeeds(InsertSend(t, row), nowTS)
    ensures InsertSend(t, row) == Rejected ==> row.loginID !in t.logins
    ensures row.loginID !in t.logins ==> !InsertSend(t, row).Changed?
  {
    assert IsGoodRow(row, nowTS) && !row.IsTerminal() && row.remoteID == "";
    hide IsGoodRow, SchemaAccepts, ScanAccepts, IsNewRow, IsGood;
    var key := Key(row.loginID, row.transactionID);
    if row.loginID in t.logins && InsertSend(t, row) != NoRow {
      InsertKeepsGood(t, key, row, nowTS);
    }
  }

  lemma PrepareSucceeds(t: Tables, key: Key, conversationID: string, nextTS: int, nowTS: int)
    requires IsGood(t, nowTS) && 0 < nowTS < nextTS
    ensures Succeeds(PrepareConversation(t, key, conversationID, nextTS, nowTS), nowTS)
  {
    hide UpdateRow, HasUniqueEvents, HasUniqueRemotes, HasGoodReceipts, HasReceiptsOfTerminalRows, IsKeyed;
    if PrepareConversation(t, key, conversationID, nextTS, nowTS) != NoRow {
      var r := t.sends[key];
      UpdateKeepsGood(t, key, r.(bindingConversationID := conversationID, nextAttemptTS := nextTS, updatedTS := nowTS),
        nowTS);
    }
  }

  lemma SubmitSucceeds(t: Tables, key: Key, baseline: seq<string>, startedTS: int, nextTS: int, nowTS: int)
    requires IsGood(t, nowTS) && 0 < nowTS < nextTS && 0 < startedTS <= nowTS && forall id <- baseline :: !IsBlank(id)
    ensures Succeeds(MarkSubmitting(t, key, baseline, startedTS, nextTS, nowTS), nowTS)
  {
    hide UpdateRow, HasUniqueEvents, HasUniqueRemotes, HasGoodReceipts, HasReceiptsOfTerminalRows, IsKeyed;
    if MarkSubmitting(t, key, baseline, startedTS, nextTS, nowTS) != NoRow {
      var r := t.sends[key];
      UpdateKeepsGood(t, key, r.(state := Submitting, baseline := baseline, startedTS := startedTS,
        nextAttemptTS := nextTS, updatedTS := nowTS), nowTS);
    }
  }

  lemma RejectPreparedSucceeds(t: Tables, key: Key, terminalTS: int, nextTS: int, nowTS: int)
    requires IsGood(t, nowTS) && 0 < nowTS && IsTerminalSchedule(terminalTS, nextTS, nowTS)
    ensures Succeeds(MarkPreparedNotSubmitted(t, key, terminalTS, nextTS), nowTS)
    ensures IsTermination(t, key, MarkPreparedNotSubmitted(t, key, terminalTS, nextTS))
  {
    hide UpdateRow, WithReceipt, HasUniqueEvents, HasUniqueRemotes, HasGoodReceipts, HasReceiptsOfTerminalRows, IsKeyed;
    if MarkPreparedNotSubmitted(t, key, terminalTS, nextTS) != NoRow {
      var r := t.sends[key];
      TerminateKeepsGood(t, key,
        r.(state := NotSubmitted, terminalTS := terminalTS, nextAttemptTS := nextTS, updatedTS := terminalTS), nowTS);
    }
  }

  lemma RejectSubmittingSucceeds(t: Tables, key: Key, terminalTS: int, nextTS: int, nowTS: int)
    requires IsGood(t, nowTS) && 0 < nowTS && IsTerminalSchedule(terminalTS, nextTS, nowTS)
    ensures Succeeds(MarkSubmittingNotSubmitted(t, key, terminalTS, nextTS), nowTS)
    ensures IsTermination(t, key, MarkSubmittingNotSubmitted(t, key, terminalTS, nextTS))
  {
    hide UpdateRow, WithReceipt, HasUniqueEvents, HasUniqueRemotes, HasGoodReceipts, HasReceiptsOfTerminalRows, IsKeyed;
    if MarkSubmittingNotSubmitted(t, key, terminalTS, nextTS) != NoRow {
      var r := t.sends[key];
      TerminateKeepsGood(t, key,
        r.(state := NotSubmitted, terminalTS := terminalTS, nextAttemptTS := nextTS, updatedTS := terminalTS), nowTS);
    }
  }

  lemma ClaimedRowIsGood(r: Send, token: string, expiresTS: int, nowTS: int)
    requires IsGoodRow(r, nowTS) && 0 < nowTS && r.terminalTS < expiresTS && 0 < expiresTS && !IsBlank(token)
      && r.notifiedTS == 0 && r.terminalTS > 0 && r.IsFailure()
    ensures IsGoodRow(r.(claimToken := token, claimExpiresTS := expiresTS,
      nextAttemptTS := if r.nextAttemptTS > expiresTS then expiresTS else r.nextAttemptTS, updatedTS := nowTS), nowTS)
  {
  }

  lemma ClaimSucceeds(t: Tables, key: Key, token: string, expiresTS: int, nowTS: int)
    requires IsGood(t, nowTS) && 0 < nowTS < expiresTS && !IsBlank(token)
    ensures Succeeds(ClaimStatus(t, key, token, expiresTS, nowTS), nowTS)
  {
    hide UpdateRow, HasUniqueEvents, HasUniqueRemotes, HasGoodReceipts, HasReceiptsOfTerminalRows, IsKeyed,
      SchemaAccepts, ScanAccepts;
    if ClaimStatus(t, key, token, expiresTS, nowTS) != NoRow {
      var r := t.sends[key];
      assert IsGoodRow(r, nowTS);
      ClaimedRowIsGood(r, token, expiresTS, nowTS);
      UpdateKeepsGood(t, key, r.(
        claimToken := token, claimExpiresTS := expiresTS,
        nextAttemptTS := if r.nextAttemptTS > expiresTS then expiresTS else r.nextAttemptTS, updatedTS := nowTS),
          nowTS);
    }
  }

  lemma FinishSucceeds(t: Tables, key: Key, token: string, notifiedTS: int, expiryTS: int, nowTS: int)
    requires IsGood(t, nowTS) && 0 < nowTS < expiryTS && 0 < notifiedTS
    ensures Succeeds(FinishStatus(t, key, token, notifiedTS, expiryTS), nowTS)
  {
    hide UpdateRow, HasUniqueEvents, HasUniqueRemotes, HasGoodReceipts, HasReceiptsOfTerminalRows, IsKeyed;
    if FinishStatus(t, key, token, notifiedTS, expiryTS) != NoRow {
      var r := t.sends[key];
      UpdateKeepsGood(t, key, r.(notifiedTS := notifiedTS, nextAttemptTS := expiryTS, claimToken := "",
        claimExpiresTS := 0, updatedTS := notifiedTS), nowTS);
    }
  }

  lemma ReleaseSucceeds(t: Tables, key: Key, token: string, nowTS: int)
    requires IsGood(t, nowTS) && 0 < nowTS
    ensures Succeeds(ReleaseStatus(t, key, token, nowTS), nowTS)
  {
    hide UpdateRow, HasUniqueEvents, HasUniqueRemotes, HasGoodReceipts, HasReceiptsOfTerminalRows, IsKeyed;
    if ReleaseStatus(t, key, token, nowTS) != NoRow {
      var r := t.sends[key];
      UpdateKeepsGood(t, key, r.(claimToken := "", claimExpiresTS := 0, updatedTS := nowTS), nowTS);
    }
  }

  lemma BindSucceeds(t: Tables, key: Key, conversationID: string, portal: PortalKey, nextTS: int, nowTS: int)
    requires IsGood(t, nowTS) && 0 < nowTS < nextTS && !IsBlank(conversationID) && portal.id == conversationID
    ensures Succeeds(BindConversation(t, key, conversationID, portal, nextTS, nowTS), nowTS)
  {
    hide UpdateRow, HasUniqueEvents, HasUniqueRemotes, HasGoodReceipts, HasReceiptsOfTerminalRows, IsKeyed;
    if BindConversation(t, key, conversationID, portal, nextTS, nowTS) != NoRow {
      var r := t.sends[key];
      UpdateKeepsGood(t, key, r.(portal := portal, conversationID := conversationID, bindingConversationID := "",
        nextAttemptTS := nextTS, updatedTS := nowTS), nowTS);
    }
  }

  lemma AwaitEchoSucceeds(t: Tables, key: Key, nextTS: int, nowTS: int)
    requires IsGood(t, nowTS) && 0 < nowTS < nextTS
    ensures Succeeds(MarkAwaitingEcho(t, key, nextTS, nowTS), nowTS)
  {
    hide UpdateRow, HasUniqueEvents, HasUniqueRemotes, HasGoodReceipts, HasReceiptsOfTerminalRows, IsKeyed;
    if MarkAwaitingEcho(t, key, nextTS, nowTS) != NoRow {
      var r := t.sends[key];
      UpdateKeepsGood(t, key, r.(state := AwaitingEcho, nextAttemptTS := nextTS, updatedTS := nowTS), nowTS);
    }
  }

  lemma DoubtfulRowIsGood(r: Send, nextTS: int, nowTS: int)
    requires IsGoodRow(r, nowTS) && 0 < nowTS < nextTS && r.terminalTS == 0
      && r.state in {Submitting, AwaitingEcho, Uncertain}
    ensures IsGoodRow(r.(state := Uncertain, attemptCount := r.attemptCount + 1, nextAttemptTS := nextTS,
      updatedTS := nowTS), nowTS)
  {
  }

  lemma DoubtSucceeds(t: Tables, key: Key, nextTS: int, nowTS: int)
    requires IsGood(t, nowTS) && 0 < nowTS < nextTS
    ensures Succeeds(MarkUncertain(t, key, nextTS, nowTS), nowTS)
  {
    hide UpdateRow, HasUniqueEvents, HasUniqueRemotes, HasGoodReceipts, HasReceiptsOfTerminalRows, IsKeyed,
      SchemaAccepts, ScanAccepts;
    if MarkUncertain(t, key, nextTS, nowTS) != NoRow {
      var r := t.sends[key];
      assert IsGoodRow(r, nowTS);
      DoubtfulRowIsGood(r, nextTS, nowTS);
      UpdateKeepsGood(t, key, r.(state := Uncertain, attemptCount := r.attemptCount + 1, nextAttemptTS := nextTS,
        updatedTS := nowTS), nowTS);
    }
  }

  lemma GiveUpSucceeds(t: Tables, key: Key, terminalTS: int, nextTS: int, nowTS: int)
    requires IsGood(t, nowTS) && 0 < nowTS && IsTerminalSchedule(terminalTS, nextTS, nowTS)
    ensures Succeeds(MarkUnconfirmed(t, key, terminalTS, nextTS), nowTS)
    ensures IsTermination(t, key, MarkUnconfirmed(t, key, terminalTS, nextTS))
  {
    hide UpdateRow, WithReceipt, HasUniqueEvents, HasUniqueRemotes, HasGoodReceipts, HasReceiptsOfTerminalRows, IsKeyed;
    if MarkUnconfirmed(t, key, terminalTS, nextTS) != NoRow {
      var r := t.sends[key];
      TerminateKeepsGood(t, key,
        r.(state := Unconfirmed, remoteID := "", terminalTS := terminalTS, nextAttemptTS := nextTS,
        updatedTS := terminalTS), nowTS);
    }
  }

  lemma GiveUpResolvedSucceeds(t: Tables, key: Key, remoteID: string, terminalTS: int, nextTS: int, nowTS: int)
    requires IsGood(t, nowTS) && 0 < nowTS && IsTerminalSchedule(terminalTS, nextTS, nowTS)
    ensures Succeeds(MarkResolvedUnconfirmed(t, key, remoteID, terminalTS, nextTS), nowTS)
    ensures IsTermination(t, key, MarkResolvedUnconfirmed(t, key, remoteID, terminalTS, nextTS))
  {
    hide UpdateRow, WithReceipt, HasUniqueEvents, HasUniqueRemotes, HasGoodReceipts, HasReceiptsOfTerminalRows, IsKeyed;
    if MarkResolvedUnconfirmed(t, key, remoteID, terminalTS, nextTS) != NoRow {
      var r := t.sends[key];
      TerminateKeepsGood(t, key,
        r.(state := Unconfirmed, remoteID := "", terminalTS := terminalTS, nextAttemptTS := nextTS,
        updatedTS := terminalTS), nowTS);
    }
  }

  lemma RetriedRowIsGood(r: Send, nextTS: int, nowTS: int)
    requires IsGoodRow(r, nowTS) && 0 < nowTS < nextTS
    ensures IsGoodRow(r.(attemptCount := r.attemptCount + 1, nextAttemptTS := nextTS, updatedTS := nowTS), nowTS)
  {
  }

  lemma RetrySucceeds(t: Tables, key: Key, nextTS: int, nowTS: int)
    requires IsGood(t, nowTS) && 0 < nowTS < nextTS
    ensures Succeeds(ScheduleRetry(t, key, nextTS, nowTS), nowTS)
  {
    hide UpdateRow, HasUniqueEvents, HasUniqueRemotes, HasGoodReceipts, HasReceiptsOfTerminalRows, IsKeyed,
      SchemaAccepts, ScanAccepts;
    if ScheduleRetry(t, key, nextTS, nowTS) != NoRow {
      var r := t.sends[key];
      assert IsGoodRow(r, nowTS);
      RetriedRowIsGood(r, nextTS, nowTS);
      UpdateKeepsGood(t, key, r.(attemptCount := r.attemptCount + 1, nextAttemptTS := nextTS, updatedTS := nowTS),
        nowTS);
    }
  }

  lemma ResolveSucceeds(t: Tables, key: Key, conversationID: string, remoteID: string, nextTS: int, nowTS: int)
    requires IsGood(t, nowTS) && 0 < nowTS < nextTS && !IsBlank(conversationID) && !IsBlank(remoteID)
    ensures Succeeds(ClaimRemoteMessage(t, key, conversationID, remoteID, nextTS, nowTS), nowTS)
  {
    hide UpdateRow, HasUniqueEvents, HasUniqueRemotes, HasGoodReceipts, HasReceiptsOfTerminalRows, IsKeyed;
    if ClaimRemoteMessage(t, key, conversationID, remoteID, nextTS, nowTS) != NoRow {
      var r := t.sends[key];
      UpdateKeepsGood(t, key, r.(remoteID := remoteID, state := Resolved, nextAttemptTS := nextTS, updatedTS := nowTS),
        nowTS);
    }
  }

  lemma CompleteSucceeds(t: Tables, key: Key, remoteID: string, terminalTS: int, nowTS: int)
    requires IsGood(t, nowTS) && 0 < nowTS < COMPLETED_RECEIPT_TS && 0 < terminalTS <= nowTS
    ensures Succeeds(MarkCompleted(t, key, remoteID, terminalTS), nowTS)
    ensures IsTermination(t, key, MarkCompleted(t, key, remoteID, terminalTS))
  {
    if key in t.sends {
      var r := t.sends[key];
      assert IsGoodRow(r, nowTS);
      if r.state == Completed {
        assert HasOwnReceipt(t, r);
        assert EnsureReceipt(t, key) == Changed(t);
      } else if MarkCompleted(t, key, remoteID, terminalTS) != NoRow {
        TerminateKeepsGood(t, key,
          r.(state := Completed, terminalTS := terminalTS, nextAttemptTS := COMPLETED_RECEIPT_TS,
          updatedTS := terminalTS), nowTS);
      }
    }
  }

  // ---- Cancelling a conversation ----

  lemma CancelledRowsAreGood(t: Tables, loginID: LoginID, conversationID: string, terminalTS: int, nextTS: int,
    nowTS: int)
    requires forall k <- t.sends.Keys :: IsGoodRow(t.sends[k], nowTS)
    requires IsTerminalSchedule(terminalTS, nextTS, nowTS)
    ensures var after := CancelRows(t, loginID, conversationID, terminalTS, nextTS).sends;
            forall k <- after.Keys :: IsGoodRow(after[k], nowTS)
  {
    hide IsGoodRow, Cancelled;
    var after := CancelRows(t, loginID, conversationID, terminalTS, nextTS).sends;
    forall k | k in after ensures IsGoodRow(after[k], nowTS) {
      if IsCancelledBy(t.sends[k], loginID, conversationID) {
        CancelledRowIsGood(t.sends[k], terminalTS, nextTS, nowTS);
      }
    }
  }

  lemma CancelTouchesPending(t: Tables, loginID: LoginID, conversationID: string, terminalTS: int, nextTS: int,
    pending: set<Key>)
    requires 0 < terminalTS
    requires pending == set k | k in t.sends && IsCancelledBy(t.sends[k], loginID, conversationID)
    ensures IsSameButFor(t, CancelRows(t, loginID, conversationID, terminalTS, nextTS), pending)
  {
  }

  lemma CancelledRowIsGood(r: Send, terminalTS: int, nextTS: int, nowTS: int)
    requires IsGoodRow(r, nowTS) && r.terminalTS == 0 && r.state in {Prepared, Submitting, AwaitingEcho, Uncertain}
    requires IsTerminalSchedule(terminalTS, nextTS, nowTS)
    ensures IsGoodRow(Cancelled(r, terminalTS, nextTS), nowTS)
  {
  }

  lemma CancelSucceeds(
    t: Tables, loginID: LoginID, conversationID: string, terminalTS: int, nextTS: int, returned: seq<Key>, nowTS: int)
    requires IsGood(t, nowTS)
    requires HasCallerArguments(t, Cancel(loginID, conversationID, terminalTS, nextTS, returned), nowTS)
    ensures Succeeds(TerminalizeConversation(t, loginID, conversationID, terminalTS, nextTS, returned), nowTS)
    ensures var e := TerminalizeConversation(t, loginID, conversationID, terminalTS, nextTS, returned);
            && e.Changed? && OnlyAddsReceipts(CancelRows(t, loginID, conversationID, terminalTS, nextTS), e.tables)
            && (forall event <- e.tables.receipts.Keys ::
                  event in t.receipts || exists k <- returned :: k in t.sends && t.sends[k].eventID == event)
  {
    CancelKeepsEvents(t, loginID, conversationID, terminalTS, nextTS);
    hide IsGood, IsGoodRow, IsGoodButFor, Fits, CancelRows, IsCancelledBy, IsTerminalSchedule;
    var updated := CancelRows(t, loginID, conversationID, terminalTS, nextTS);
    CancelledTablesAreGood(t, loginID, conversationID, terminalTS, nextTS, returned, nowTS);
    ReceiptsAreSaved(updated, nowTS, returned);
  }

  lemma CancelKeepsEvents(t: Tables, loginID: LoginID, conversationID: string, terminalTS: int, nextTS: int)
    ensures var updated := CancelRows(t, loginID, conversationID, terminalTS, nextTS);
            && updated == t.(sends := updated.sends) && updated.sends.Keys == t.sends.Keys
            && forall k <- t.sends.Keys :: updated.sends[k].eventID == t.sends[k].eventID
  {
    hide IsCancelledBy;
  }

  // The tables between the update and the receipts of a cancellation.
  lemma CancelledTablesAreGood(
    t: Tables, loginID: LoginID, conversationID: string, terminalTS: int, nextTS: int, returned: seq<Key>, nowTS: int)
    requires IsGood(t, nowTS) && IsTerminalSchedule(terminalTS, nextTS, nowTS)
    requires forall k :: k in returned <==> k in t.sends && IsCancelledBy(t.sends[k], loginID, conversationID)
    ensures var updated := CancelRows(t, loginID, conversationID, terminalTS, nextTS);
            && IsGoodButFor(updated, nowTS, set k | k in returned)
            && (forall k <- updated.sends.Keys :: Fits(updated, k, updated.sends[k]))
            && (forall k <- returned :: k in updated.sends && updated.sends[k].IsTerminal())
  {
    hide IsGoodRow, IsGoodButFor, Fits, CancelRows, IsCancelledBy, HasUniqueEvents, HasUniqueRemotes,
      HasReceiptsOfTerminalRows;
    var updated := CancelRows(t, loginID, conversationID, terminalTS, nextTS);
    var pending := set k | k in returned;
    assert pending == set k | k in t.sends && IsCancelledBy(t.sends[k], loginID, conversationID);
    CancelledRowsAreGood(t, loginID, conversationID, terminalTS, nextTS, nowTS);
    CancelTouchesPending(t, loginID, conversationID, terminalTS, nextTS, pending);
    CancelFits(t, updated, nowTS, pending);
  }

  // The rows keep everything that the indexes look at; the pending ones have become terminal.
  predicate IsSameButFor(t: Tables, updated: Tables, pending: set<Key>) {
    && updated == t.(sends := updated.sends) && updated.sends.Keys == t.sends.Keys
    && (forall k <- t.sends.Keys ::
          var r, r' := t.sends[k], updated.sends[k];
          && HasSameIdentity(r, r') && r'.remoteID == r.remoteID && r'.conversationID == r.conversationID
          && (r'.IsTerminal() <==> r.IsTerminal() || k in pending))
    && (forall k <- pending :: k in t.sends && !t.sends[k].IsTerminal())
  }

  lemma CancelFits(t: Tables, updated: Tables, nowTS: int, pending: set<Key>)
    requires IsGood(t, nowTS) && IsSameButFor(t, updated, pending)
    requires forall k <- updated.sends.Keys :: IsGoodRow(updated.sends[k], nowTS)
    ensures IsGoodButFor(updated, nowTS, pending)
    ensures forall k <- updated.sends.Keys :: Fits(updated, k, updated.sends[k])
  {
    CancelKeepsUnique(t, updated, pending);
    CancelKeepsReceipts(t, updated, pending);
    forall k | k in updated.sends ensures Fits(updated, k, updated.sends[k]) {
      RowFits(updated, k, nowTS);
    }
  }

  lemma CancelKeepsUnique(t: Tables, updated: Tables, pending: set<Key>)
    requires IsKeyed(t) && HasUniqueEvents(t) && HasUniqueRemotes(t) && IsSameButFor(t, updated, pending)
    ensures IsKeyed(updated) && HasUniqueEvents(updated) && HasUniqueRemotes(updated)
  {
    assert forall k <- updated.sends.Keys :: HasSameIdentity(t.sends[k], updated.sends[k]);
  }

  lemma CancelKeepsReceipts(t: Tables, updated: Tables, pending: set<Key>)
    requires HasReceiptsOfTerminalRows(t, {}) && IsSameButFor(t, updated, pending)
    ensures HasReceiptsOfTerminalRows(updated, pending)
  {
    assert forall k <- updated.sends.Keys :: HasSameIdentity(t.sends[k], updated.sends[k]);
  }

  lemma RowFits(t: Tables, key: Key, nowTS: int)
    requires key in t.sends && IsGoodRow(t.sends[key], nowTS)
    requires IsKeyed(t) && HasUniqueEvents(t) && HasUniqueRemotes(t)
    ensures Fits(t, key, t.sends[key])
  {
  }

  // ---- All statements ----

  /** Every statement keeps the tables good; a constraint refuses only an insert for a deleted login. */
  lemma StatementKeepsGood(t: Tables, s: Statement, nowTS: int)
    requires IsGood(t, nowTS) && HasCallerArguments(t, s, nowTS)
    ensures Execute(t, s, nowTS).Changed? ==> IsGood(Execute(t, s, nowTS).tables, nowTS)
    ensures Execute(t, s, nowTS) == Rejected ==> s.Insert? && s.row.loginID !in t.logins
  {
    hide IsGood, IsNewRow, IsTerminalSchedule, InsertSend, PrepareConversation, MarkSubmitting,
      MarkPreparedNotSubmitted, MarkSubmittingNotSubmitted, ClaimStatus, FinishStatus, ReleaseStatus, BindConversation,
      MarkAwaitingEcho, MarkUncertain, MarkUnconfirmed, MarkResolvedUnconfirmed, MarkCompleted,
      TerminalizeConversation, ScheduleRetry, ClaimRemoteMessage;
    match s
    case Insert(row) => InsertSucceeds(t, row, nowTS);
    case Prepare(key, conversationID, nextTS) => PrepareSucceeds(t, key, conversationID, nextTS, nowTS);
    case Submit(key, baseline, startedTS, nextTS) => SubmitSucceeds(t, key, baseline, startedTS, nextTS, nowTS);
    case RejectPrepared(key, terminalTS, nextTS) => RejectPreparedSucceeds(t, key, terminalTS, nextTS, nowTS);
    case RejectSubmitting(key, terminalTS, nextTS) => RejectSubmittingSucceeds(t, key, terminalTS, nextTS, nowTS);
    case Claim(key, token, expiresTS) => ClaimSucceeds(t, key, token, expiresTS, nowTS);
    case Finish(key, token, notifiedTS, expiryTS) => FinishSucceeds(t, key, token, notifiedTS, expiryTS, nowTS);
    case Release(key, token) => ReleaseSucceeds(t, key, token, nowTS);
    case Bind(key, conversationID, portal, nextTS) => BindSucceeds(t, key, conversationID, portal, nextTS, nowTS);
    case AwaitEcho(key, nextTS) => AwaitEchoSucceeds(t, key, nextTS, nowTS);
    case Doubt(key, nextTS) => DoubtSucceeds(t, key, nextTS, nowTS);
    case GiveUp(key, terminalTS, nextTS) => GiveUpSucceeds(t, key, terminalTS, nextTS, nowTS);
    case GiveUpResolved(key, remoteID, terminalTS, nextTS) =>
      GiveUpResolvedSucceeds(t, key, remoteID, terminalTS, nextTS, nowTS);
    case Complete(key, remoteID, terminalTS) => CompleteSucceeds(t, key, remoteID, terminalTS, nowTS);
    case Cancel(loginID, conversationID, terminalTS, nextTS, returned) =>
      CancelSucceeds(t, loginID, conversationID, terminalTS, nextTS, returned, nowTS);
    case Retry(key, nextTS) => RetrySucceeds(t, key, nextTS, nowTS);
    case Resolve(key, conversationID, remoteID, nextTS) =>
      ResolveSucceeds(t, key, conversationID, remoteID, nextTS, nowTS);
    case ForgetPrepared(key) => DeleteKeepsGood(t, key, nowTS);
    case ForgetNotified(key, state) => DeleteKeepsGood(t, key, nowTS);
  }
}
