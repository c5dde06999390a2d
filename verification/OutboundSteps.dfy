/**
 How the rows may change from one statement to the next: terminal rows are frozen until they are
 deleted, deletions need the user to have been told, and only the holder of a status claim can
 record that.
 */
module OutboundSteps {
  import opened OutboundTables
  import opened OutboundInvariant
  import opened OutboundStatements

  // A terminal row keeps its outcome.
  predicate KeepsOutcome(r: Send, r': Send) {
    && HasSameIdentity(r, r')
    && (r.IsTerminal() ==>
      r'.state == r.state && r'.terminalTS == r.terminalTS && r'.remoteID == r.remoteID
      && r'.conversationID == r.conversationID)
  }

  // A row leaves the prepared state by being submitted or by failing, never returns to it, and
  // counts as not submitted only from there or after its own rejection.
  predicate KeepsOrder(k: Key, r: Send, r': Send, s: Statement) {
    && (r'.state == Prepared ==> r.state == Prepared)
    && (r'.state == Submitting && r.state != Submitting ==> r.state == Prepared && s.Submit? && s.key == k)
    && (r.state == Prepared && r'.state != Prepared ==>
      r'.state == NotSubmitted || (r'.state == Submitting && s.Submit? && s.key == k))
    && (r'.state == NotSubmitted && r.state != NotSubmitted ==>
      r.state == Prepared || (r.state == Submitting && s.RejectSubmitting? && s.key == k))
  }

  // The notification is recorded once, by the current token; a claim that has not expired can only
  // be ended by its own token.
  predicate KeepsClaims(k: Key, r: Send, r': Send, s: Statement, nowTS: int) {
    && (r.notifiedTS > 0 ==> r'.notifiedTS == r.notifiedTS)
    && (r.notifiedTS == 0 && r'.notifiedTS > 0 ==>
      s.Finish? && s.key == k && s.token == r.claimToken && r.claimToken != "")
    && (r.claimToken != "" && r.claimExpiresTS > nowTS && r'.claimToken != r.claimToken ==>
          (s.Finish? || s.Release?) && s.key == k && s.token == r.claimToken)
  }

  predicate IsRowStep(k: Key, r: Send, r': Send, s: Statement, nowTS: int) {
    KeepsOutcome(r, r') && KeepsOrder(k, r, r', s) && KeepsClaims(k, r, r', s, nowTS)
  }

  // Completed rows stay; a failure goes only after it was reported, and its receipt stays behind.
  predicate MayDelete(t: Tables, k: Key, s: Statement)
    requires k in t.sends
  {
    var r := t.sends[k];
    || (s == ForgetPrepared(k) && r.state == Prepared && !r.IsTerminal())
    || (s == ForgetNotified(k, r.state) && r.IsTerminal() && r.IsFailure() && r.notifiedTS > 0 && HasOwnReceipt(t, r))
  }

  predicate IsTableStep(t: Tables, t': Tables, s: Statement, nowTS: int) {
    && t'.logins == t.logins && t'.mappings == t.mappings && t'.portalRooms == t.portalRooms
    && (forall e <- t.receipts.Keys :: e in t'.receipts && t'.receipts[e] == t.receipts[e])
    && (forall k <- t.sends.Keys ::
      if k in t'.sends then IsRowStep(k, t.sends[k], t'.sends[k], s, nowTS) else MayDelete(t, k, s))
    && (forall k <- t'.sends.Keys ::
      k !in t.sends ==> s == Insert(t'.sends[k]) && t'.sends[k].state == Prepared && t'.sends[k].eventID !in t.receipts)
  }

  lemma UnchangedRowStep(k: Key, r: Send, s: Statement, nowTS: int)
    ensures IsRowStep(k, r, r, s, nowTS)
  {
  }

  lemma OneRowStep(t: Tables, key: Key, r: Send, receipts: map<EventID, Receipt>, s: Statement, nowTS: int)
    requires key in t.sends && IsRowStep(key, t.sends[key], r, s, nowTS)
    requires forall e <- t.receipts.Keys :: e in receipts && receipts[e] == t.receipts[e]
    ensures IsTableStep(t, t.(sends := t.sends[key := r], receipts := receipts), s, nowTS)
  {
    forall k | k in t.sends ensures IsRowStep(k, t.sends[k], t.sends[key := r][k], s, nowTS) {
      UnchangedRowStep(k, t.sends[k], s, nowTS);
    }
  }

  // At most the row of the key changes, and receipts are only added.
  predicate ChangesOneRow(t: Tables, key: Key, e: Effect) {
    e.Changed? ==>
      && key in t.sends && key in e.tables.sends
      && e.tables == t.(sends := t.sends[key := e.tables.sends[key]], receipts := e.tables.receipts)
      && forall ev <- t.receipts.Keys :: ev in e.tables.receipts && e.tables.receipts[ev] == t.receipts[ev]
  }

  predicate IsOneRowStatement(s: Statement) {
    !s.Insert? && !s.Cancel? && !s.ForgetPrepared? && !s.ForgetNotified?
  }

  lemma OneRowChanges(t: Tables, s: Statement, nowTS: int)
    requires IsOneRowStatement(s)
    ensures ChangesOneRow(t, s.key, Execute(t, s, nowTS))
  {
    hide Fits;
  }

  predicate IsRowEffect(t: Tables, e: Effect, s: Statement, nowTS: int)
    requires IsOneRowStatement(s)
  {
    e.Changed? ==>
      s.key in t.sends && s.key in e.tables.sends && IsRowStep(s.key, t.sends[s.key], e.tables.sends[s.key], s, nowTS)
  }

  lemma PrepareIsRowStep(t: Tables, s: Statement, nowTS: int)
    requires s.Prepare?
    ensures IsRowEffect(t, PrepareConversation(t, s.key, s.conversationID, s.nextTS, nowTS), s, nowTS)
  {
    hide Fits;
  }

  lemma SubmitIsRowStep(t: Tables, s: Statement, nowTS: int)
    requires s.Submit?
    ensures IsRowEffect(t, MarkSubmitting(t, s.key, s.baseline, s.startedTS, s.nextTS, nowTS), s, nowTS)
  {
    hide Fits;
  }

  lemma RejectPreparedIsRowStep(t: Tables, s: Statement, nowTS: int)
    requires s.RejectPrepared?
    ensures IsRowEffect(t, MarkPreparedNotSubmitted(t, s.key, s.terminalTS, s.nextTS), s, nowTS)
  {
    hide Fits;
  }

  lemma RejectSubmittingIsRowStep(t: Tables, s: Statement, nowTS: int)
    requires s.RejectSubmitting?
    ensures IsRowEffect(t, MarkSubmittingNotSubmitted(t, s.key, s.terminalTS, s.nextTS), s, nowTS)
  {
    hide Fits;
  }

  lemma ClaimIsRowStep(t: Tables, s: Statement, nowTS: int)
    requires s.Claim?
    ensures IsRowEffect(t, ClaimStatus(t, s.key, s.token, s.expiresTS, nowTS), s, nowTS)
  {
    hide Fits;
  }

  lemma FinishIsRowStep(t: Tables, s: Statement, nowTS: int)
    requires s.Finish? && s.token != ""
    ensures IsRowEffect(t, FinishStatus(t, s.key, s.token, s.notifiedTS, s.expiryTS), s, nowTS)
  {
    hide Fits;
  }

  lemma ReleaseIsRowStep(t: Tables, s: Statement, nowTS: int)
    requires s.Release?
    ensures IsRowEffect(t, ReleaseStatus(t, s.key, s.token, nowTS), s, nowTS)
  {
    hide Fits;
  }

  lemma BindIsRowStep(t: Tables, s: Statement, nowTS: int)
    requires s.Bind?
    ensures IsRowEffect(t, BindConversation(t, s.key, s.conversationID, s.portal, s.nextTS, nowTS), s, nowTS)
  {
    hide Fits;
  }

  lemma AwaitEchoIsRowStep(t: Tables, s: Statement, nowTS: int)
    requires s.AwaitEcho?
    ensures IsRowEffect(t, MarkAwaitingEcho(t, s.key, s.nextTS, nowTS), s, nowTS)
  {
    hide Fits;
  }

  lemma DoubtIsRowStep(t: Tables, s: Statement, nowTS: int)
    requires s.Doubt?
    ensures IsRowEffect(t, MarkUncertain(t, s.key, s.nextTS, nowTS), s, nowTS)
  {
    hide Fits;
  }

  lemma GiveUpIsRowStep(t: Tables, s: Statement, nowTS: int)
    requires s.GiveUp?
    ensures IsRowEffect(t, MarkUnconfirmed(t, s.key, s.terminalTS, s.nextTS), s, nowTS)
  {
    hide Fits;
  }

  lemma GiveUpResolvedIsRowStep(t: Tables, s: Statement, nowTS: int)
    requires s.GiveUpResolved?
    ensures IsRowEffect(t, MarkResolvedUnconfirmed(t, s.key, s.remoteID, s.terminalTS, s.nextTS), s, nowTS)
  {
    hide Fits;
  }

  lemma CompleteIsRowStep(t: Tables, s: Statement, nowTS: int)
    requires s.Complete?
    ensures IsRowEffect(t, MarkCompleted(t, s.key, s.remoteID, s.terminalTS), s, nowTS)
  {
    hide Fits;
  }

  lemma RetryIsRowStep(t: Tables, s: Statement, nowTS: int)
    requires s.Retry?
    ensures IsRowEffect(t, ScheduleRetry(t, s.key, s.nextTS, nowTS), s, nowTS)
  {
    hide Fits;
  }

  lemma ResolveIsRowStep(t: Tables, s: Statement, nowTS: int)
    requires s.Resolve?
    ensures IsRowEffect(t, ClaimRemoteMessage(t, s.key, s.conversationID, s.remoteID, s.nextTS, nowTS), s, nowTS)
  {
    hide Fits;
  }

  lemma OneRowIsRowStep(t: Tables, s: Statement, nowTS: int)
    requires HasCallerArguments(t, s, nowTS) && IsOneRowStatement(s)
    ensures IsRowEffect(t, Execute(t, s, nowTS), s, nowTS)
  {
    hide IsRowEffect, PrepareConversation, MarkSubmitting, MarkPreparedNotSubmitted, MarkSubmittingNotSubmitted,
      ClaimStatus, FinishStatus, ReleaseStatus, BindConversation, MarkAwaitingEcho, MarkUncertain, MarkUnconfirmed,
      MarkResolvedUnconfirmed, MarkCompleted, ScheduleRetry, ClaimRemoteMessage;
    match s
    case Prepare(_, _, _) => PrepareIsRowStep(t, s, nowTS);
    case Submit(_, _, _, _) => SubmitIsRowStep(t, s, nowTS);
    case RejectPrepared(_, _, _) => RejectPreparedIsRowStep(t, s, nowTS);
    case RejectSubmitting(_, _, _) => RejectSubmittingIsRowStep(t, s, nowTS);
    case Claim(_, _, _) => ClaimIsRowStep(t, s, nowTS);
    case Finish(_, _, _, _) => FinishIsRowStep(t, s, nowTS);
    case Release(_, _) => ReleaseIsRowStep(t, s, nowTS);
    case Bind(_, _, _, _) => BindIsRowStep(t, s, nowTS);
    case AwaitEcho(_, _) => AwaitEchoIsRowStep(t, s, nowTS);
    case Doubt(_, _) => DoubtIsRowStep(t, s, nowTS);
    case GiveUp(_, _, _) => GiveUpIsRowStep(t, s, nowTS);
    case GiveUpResolved(_, _, _, _) => GiveUpResolvedIsRowStep(t, s, nowTS);
    case Complete(_, _, _) => CompleteIsRowStep(t, s, nowTS);
    case Retry(_, _) => RetryIsRowStep(t, s, nowTS);
    case Resolve(_, _, _, _) => ResolveIsRowStep(t, s, nowTS);
  }

  lemma InsertIsStep(t: Tables, row: Send, nowTS: int)
    requires HasCallerArguments(t, Insert(row), nowTS) && InsertSend(t, row).Changed?
    ensures IsTableStep(t, InsertSend(t, row).tables, Insert(row), nowTS)
  {
    hide Fits, IsRowStep;
    var key := Key(row.loginID, row.transactionID);
    assert InsertSend(t, row).tables == t.(sends := t.sends[key := row]);
    forall k | k in t.sends ensures IsRowStep(k, t.sends[k], t.sends[k], Insert(row), nowTS) {
      UnchangedRowStep(k, t.sends[k], Insert(row), nowTS);
    }
  }

  lemma DeleteIsStep(t: Tables, key: Key, s: Statement, nowTS: int)
    requires IsKeyed(t) && key in t.sends && MayDelete(t, key, s)
    ensures IsTableStep(t, t.(sends := t.sends - {key}), s, nowTS)
  {
    hide IsRowStep;
    forall k | k in t.sends ensures IsRowStep(k, t.sends[k], t.sends[k], s, nowTS) {
      UnchangedRowStep(k, t.sends[k], s, nowTS);
    }
  }

  lemma CancelledIsRowStep(k: Key, r: Send, terminalTS: int, nextTS: int, s: Statement, nowTS: int)
    requires s.Cancel? && r.terminalTS == 0 && r.claimToken == ""
      && r.state in {Prepared, Submitting, AwaitingEcho, Uncertain}
    ensures IsRowStep(k, r, Cancelled(r, terminalTS, nextTS), s, nowTS)
  {
  }

  lemma CancelledRowsStep(t: Tables, s: Statement, nowTS: int)
    requires s.Cancel? && forall k <- t.sends.Keys :: IsGoodRow(t.sends[k], nowTS)
    ensures var updated := CancelRows(t, s.loginID, s.conversationID, s.terminalTS, s.nextTS).sends;
            updated.Keys == t.sends.Keys && forall k <- t.sends.Keys :: IsRowStep(k, t.sends[k], updated[k], s, nowTS)
  {
    hide IsRowStep, Cancelled;
    var updated := CancelRows(t, s.loginID, s.conversationID, s.terminalTS, s.nextTS).sends;
    forall k | k in t.sends ensures IsRowStep(k, t.sends[k], updated[k], s, nowTS) {
      if IsCancelledBy(t.sends[k], s.loginID, s.conversationID) {
        assert IsGoodRow(t.sends[k], nowTS);
        CancelledIsRowStep(k, t.sends[k], s.terminalTS, s.nextTS, s, nowTS);
      } else {
        UnchangedRowStep(k, t.sends[k], s, nowTS);
      }
    }
  }

  lemma CancelIsStep(t: Tables, s: Statement, nowTS: int)
    requires IsGood(t, nowTS) && HasCallerArguments(t, s, nowTS) && s.Cancel?
    ensures Execute(t, s, nowTS).Changed? ==> IsTableStep(t, Execute(t, s, nowTS).tables, s, nowTS)
  {
    assert Execute(t, s, nowTS) == TerminalizeConversation(t, s.loginID, s.conversationID, s.terminalTS, s.nextTS,
      s.returned);
    GoodRows(t, nowTS);
    hide Execute, HasCallerArguments, TerminalizeConversation, IsRowStep, IsGood, IsGoodRow, IsCancelledBy, Cancelled,
      CancelRows;
    CancelSucceeds(t, s.loginID, s.conversationID, s.terminalTS, s.nextTS, s.returned, nowTS);
    CancelledRowsStep(t, s, nowTS);
    CancelKeepsRest(t, s);
  }

  lemma GoodRows(t: Tables, nowTS: int)
    requires IsGood(t, nowTS)
    ensures forall k <- t.sends.Keys :: IsGoodRow(t.sends[k], nowTS)
  {
    hide IsGoodRow;
  }

  lemma CancelKeepsRest(t: Tables, s: Statement)
    requires s.Cancel?
    ensures var updated := CancelRows(t, s.loginID, s.conversationID, s.terminalTS, s.nextTS);
      updated == t.(sends := updated.sends)
  {
  }

  /** Every statement that changes a table takes one such step. */
  lemma StatementIsStep(t: Tables, s: Statement, nowTS: int)
    requires IsGood(t, nowTS) && HasCallerArguments(t, s, nowTS)
    ensures Execute(t, s, nowTS).Changed? ==> IsTableStep(t, Execute(t, s, nowTS).tables, s, nowTS)
  {
    if Execute(t, s, nowTS).Changed? {
      if s.Insert? {
        InsertIsStep(t, s.row, nowTS);
      } else if s.Cancel? {
        CancelIsStep(t, s, nowTS);
      } else if s.ForgetPrepared? || s.ForgetNotified? {
        ForgetIsStep(t, s, nowTS);
      } else {
        OneRowIsStep(t, s, nowTS);
      }
    }
  }

  lemma OneRowIsStep(t: Tables, s: Statement, nowTS: int)
    requires HasCallerArguments(t, s, nowTS) && IsOneRowStatement(s) && Execute(t, s, nowTS).Changed?
    ensures IsTableStep(t, Execute(t, s, nowTS).tables, s, nowTS)
  {
    hide HasCallerArguments, Execute, IsTableStep, IsRowStep;
    OneRowIsRowStep(t, s, nowTS);
    OneRowChanges(t, s, nowTS);
    var t' := Execute(t, s, nowTS).tables;
    OneRowStep(t, s.key, t'.sends[s.key], t'.receipts, s, nowTS);
  }

  lemma ForgetIsStep(t: Tables, s: Statement, nowTS: int)
    requires IsKeyed(t) && (s.ForgetPrepared? || s.ForgetNotified?) && Execute(t, s, nowTS).Changed?
    ensures IsTableStep(t, Execute(t, s, nowTS).tables, s, nowTS)
  {
    DeleteIsStep(t, s.key, s, nowTS);
  }
}
