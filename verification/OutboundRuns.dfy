/**
 What holds in every run of the outbound protocol: one submission and one accepted request for an event
 in each life of its login, failures that stay true, and outcomes that stay.
 */
module OutboundRuns {
  import opened OutboundTables
  import opened OutboundInvariant
  import opened OutboundStatements
  import opened OutboundSteps
  import opened OutboundProtocol

  lemma StartIsSound(nowTS: int)
    requires 0 < nowTS < COMPLETED_RECEIPT_TS
    ensures IsSound(Start(nowTS))
  {
  }

  /**
   Over all processes, crashes, deletions and replays of an event: in one life of its login an event
   is submitted at most once. A second submission of the same event, for any login, happens only after
   the login of the first was deleted.
   */
  lemma EventsAreSubmittedOnce(nowTS: int, steps: seq<Step>, i: nat, j: nat)
    requires 0 < nowTS < COMPLETED_RECEIPT_TS
    requires var log := RunAll(Start(nowTS), steps).log; i < j < |log| && log[i].eventID == log[j].eventID
    ensures var sys := RunAll(Start(nowTS), steps);
            sys.log[i].epoch < sys.Epoch(sys.log[i].loginID)
              && (sys.log[i].loginID == sys.log[j].loginID ==> sys.log[i].epoch < sys.log[j].epoch)
  {
    StartIsSound(nowTS);
    RunKeepsSound(Start(nowTS), steps);
    var sys := RunAll(Start(nowTS), steps);
    assert SubmitsOnce(sys) && !sys.IsLive(i) && HasSoundEpochs(sys);
  }

  function AcceptedIn(requests: seq<Request>): nat {
    if requests == [] then 0
    else AcceptedIn(requests[..|requests| - 1]) + if requests[|requests| - 1] == Accepted then 1 else 0
  }

  // The number of requests for the event that Tumblr accepted in one life of the login.
  function AcceptedFor(log: seq<Submission>, loginID: LoginID, epoch: nat, eventID: EventID): nat {
    if log == [] then 0
    else
      var last := log[|log| - 1];
      AcceptedFor(log[..|log| - 1], loginID, epoch, eventID)
      + (if last.loginID == loginID && last.epoch == epoch && last.eventID == eventID then AcceptedIn(last.requests)
        else 0)
  }

  lemma {:induction false} ClosedHasNoneAccepted(requests: seq<Request>)
    requires IsClosed(requests)
    ensures AcceptedIn(requests) == 0
  {
    if requests != [] {
      ClosedHasNoneAccepted(requests[..|requests| - 1]);
    }
  }

  lemma SafelySentIsAcceptedOnce(requests: seq<Request>)
    requires IsSafelySent(requests)
    ensures AcceptedIn(requests) <= 1
  {
    if requests != [] {
      ClosedHasNoneAccepted(requests[..|requests| - 1]);
    }
  }

  lemma {:induction false} AcceptedIsBounded(log: seq<Submission>, loginID: LoginID, epoch: nat, eventID: EventID)
    requires forall i | 0 <= i < |log| :: IsSafelySent(log[i].requests)
    requires forall i, j | 0 <= i < j < |log| && log[i].eventID == log[j].eventID
      && log[i].loginID == log[j].loginID :: log[i].epoch < log[j].epoch
    ensures AcceptedFor(log, loginID, epoch, eventID) <= 1
    ensures (forall i | 0 <= i < |log| && log[i].loginID == loginID && log[i].epoch == epoch
      && log[i].eventID == eventID :: IsClosed(log[i].requests))
        ==> AcceptedFor(log, loginID, epoch, eventID) == 0
  {
    if log != [] {
      var init, last := log[..|log| - 1], log[|log| - 1];
      AcceptedIsBounded(init, loginID, epoch, eventID);
      SafelySentIsAcceptedOnce(last.requests);
      if IsClosed(last.requests) {
        ClosedHasNoneAccepted(last.requests);
      }
      hide IsSafelySent, IsClosed, AcceptedIn;
      if last.loginID == loginID && last.epoch == epoch && last.eventID == eventID {
        NoneIsAccepted(init, loginID, epoch, eventID);
      }
    }
  }

  lemma {:induction false} NoneIsAccepted(log: seq<Submission>, loginID: LoginID, epoch: nat, eventID: EventID)
    requires forall i | 0 <= i < |log| && log[i].eventID == eventID && log[i].loginID == loginID :: log[i].epoch < epoch
    ensures AcceptedFor(log, loginID, epoch, eventID) == 0
  {
    if log != [] {
      NoneIsAccepted(log[..|log| - 1], loginID, epoch, eventID);
    }
  }

  lemma LogIsSound(sys: System)
    requires IsSound(sys)
    ensures forall i | 0 <= i < |sys.log| :: IsSafelySent(sys.log[i].requests)
    ensures forall i, j | 0 <= i < j < |sys.log| && sys.log[i].eventID == sys.log[j].eventID
      && sys.log[i].loginID == sys.log[j].loginID ::
              sys.log[i].epoch < sys.log[j].epoch
  {
    hide IsGood, HasSoundEpochs, HasOrderedEpochs, HasSoundProcesses, SubmittingRowsAreLogged, KeepsPromises,
      IsSafelySent;
  }

  /**
   At most one request for an event is ever accepted in one life of its login. Each submission has two
   requests at most, and the second one was posted only after the first was rejected for good.
   */
  lemma RequestsAreAcceptedOnce(nowTS: int, steps: seq<Step>, loginID: LoginID, epoch: nat, eventID: EventID)
    requires 0 < nowTS < COMPLETED_RECEIPT_TS
    ensures AcceptedFor(RunAll(Start(nowTS), steps).log, loginID, epoch, eventID) <= 1
    ensures forall s <- RunAll(Start(nowTS), steps).log ::
      |s.requests| <= 2 && (|s.requests| == 2 ==> s.requests[0] == Closed)
  {
    StartIsSound(nowTS);
    RunKeepsSound(Start(nowTS), steps);
    var sys := RunAll(Start(nowTS), steps);
    hide IsSound, Start, RunAll;
    LogIsSound(sys);
    AcceptedIsBounded(sys.log, loginID, epoch, eventID);
  }

  lemma PromisesStay(sys: System, step: Step)
    ensures sys.promises <= Apply(sys, step).promises
  {
    hide Execute, HasCallerArguments, PromisesOf, WithoutLogin;
  }

  lemma {:induction false} PromisesStayForever(sys: System, steps: seq<Step>)
    ensures sys.promises <= RunAll(sys, steps).promises
  {
    hide Apply;
    if steps != [] {
      PromisesStayForever(sys, steps[..|steps| - 1]);
      PromisesStay(RunAll(sys, steps[..|steps| - 1]), steps[|steps| - 1]);
    }
  }

  lemma {:induction false} RunInParts(sys: System, first: seq<Step>, more: seq<Step>)
    ensures RunAll(sys, first + more) == RunAll(RunAll(sys, first), more)
  {
    hide Apply;
    if more == [] {
      assert first + more == first;
    } else {
      var init := more[..|more| - 1];
      assert (first + more)[..|first + more| - 1] == first + init;
      RunInParts(sys, first, init);
    }
  }

  /**
   A user who is told that a message was not sent is told the truth for good: once a row has been
   not submitted, no request for its event was accepted, and none is accepted however the run goes on,
   in that life of the login.
   */
  lemma NotSubmittedIsTrue(nowTS: int, steps: seq<Step>, more: seq<Step>, k: Key)
    requires 0 < nowTS < COMPLETED_RECEIPT_TS
    requires k in RunAll(Start(nowTS), steps).tables.sends
      && RunAll(Start(nowTS), steps).tables.sends[k].state == NotSubmitted
    ensures var at := RunAll(Start(nowTS), steps);
            AcceptedFor(RunAll(Start(nowTS), steps + more).log, k.loginID, at.Epoch(k.loginID),
              at.tables.sends[k].eventID) == 0
  {
    hide Apply, Start, IsGood, HasSoundEpochs, HasOrderedEpochs, HasSoundProcesses, SubmittingRowsAreLogged;
    var at := RunAll(Start(nowTS), steps);
    StartIsSound(nowTS);
    RunKeepsSound(Start(nowTS), steps);
    RunKeepsSound(Start(nowTS), steps + more);
    RunInParts(Start(nowTS), steps, more);
    PromisesStayForever(at, more);
    var sys := RunAll(Start(nowTS), steps + more);
    var pr := Promise(k.loginID, at.Epoch(k.loginID), at.tables.sends[k].eventID);
    assert pr in sys.promises && IsUnsent(sys, pr.loginID, pr.epoch, pr.eventID);
    LogIsSound(sys);
    AcceptedIsBounded(sys.log, pr.loginID, pr.epoch, pr.eventID);
  }

  /** Every row that any run can reach passes the schema and the scanner, and the indexes hold. */
  lemma ReachableRowsAreGood(nowTS: int, steps: seq<Step>)
    requires 0 < nowTS < COMPLETED_RECEIPT_TS
    ensures var t := RunAll(Start(nowTS), steps).tables;
            && (forall k <- t.sends.Keys :: SchemaAccepts(t.sends[k]) && ScanAccepts(t.sends[k]))
            && HasUniqueEvents(t) && HasUniqueRemotes(t)
            && (forall k <- t.sends.Keys :: t.sends[k].IsTerminal() <==> HasOwnReceipt(t, t.sends[k]))
  {
    StartIsSound(nowTS);
    RunKeepsSound(Start(nowTS), steps);
    var sys := RunAll(Start(nowTS), steps);
    hide SchemaAccepts, ScanAccepts;
    assert IsGood(sys.tables, sys.nowTS) && forall k <- sys.tables.sends.Keys ::
      IsGoodRow(sys.tables.sends[k], sys.nowTS);
  }

  // ---- Outcomes are final ----

  // The outcome of row r, while its login lives: its receipt stays, and a completed row stays too. A
  // row that is still there has the same outcome.
  predicate IsFinal(t: Tables, k: Key, r: Send) {
    && HasOwnReceipt(t, r)
    && (k in t.sends ==> KeepsOutcome(r, t.sends[k]))
    && (r.state == Completed ==> k in t.sends)
  }

  lemma StatementKeepsFinal(t: Tables, t': Tables, s: Statement, nowTS: int, k: Key, r: Send)
    requires IsTableStep(t, t', s, nowTS) && IsGood(t, nowTS) && IsGood(t', nowTS)
    requires r.IsTerminal() && k == Key(r.loginID, TransactionIDOf(r.loginID, r.eventID)) && IsFinal(t, k, r)
    ensures IsFinal(t', k, r)
  {
    hide ScanAccepts, SchemaAccepts, TransactionIDOf, HasUniqueEvents, HasUniqueRemotes, HasReceiptsOfTerminalRows;
    if k in t'.sends && k !in t.sends {
      assert IsGoodRow(t'.sends[k], nowTS);
      TransactionIDsDiffer(k.loginID, t'.sends[k].eventID, r.eventID);
    }
    assert k in t.sends && k in t'.sends ==> IsRowStep(k, t.sends[k], t'.sends[k], s, nowTS);
  }

  ghost predicate IsFinalIn(sys: System, k: Key, r: Send, epoch: nat) {
    epoch < sys.Epoch(k.loginID) || (epoch == sys.Epoch(k.loginID) && IsFinal(sys.tables, k, r))
  }

  lemma ExecuteKeepsFinal(sys: System, s: Statement, k: Key, r: Send, epoch: nat)
    requires IsSound(sys) && IsFinalIn(sys, k, r, epoch)
    requires r.IsTerminal() && k == Key(r.loginID, TransactionIDOf(r.loginID, r.eventID))
    ensures IsFinalIn(ExecuteIn(sys, s), k, r, epoch)
  {
    hide IsTableStep, IsGood, PromisesOf, Execute, HasCallerArguments, IsFinal, TransactionIDOf;
    if HasCallerArguments(sys.tables, s, sys.nowTS) && Execute(sys.tables, s, sys.nowTS).Changed?
      && epoch == sys.Epoch(k.loginID) {
      StatementKeepsGood(sys.tables, s, sys.nowTS);
      StatementIsStep(sys.tables, s, sys.nowTS);
      StatementKeepsFinal(sys.tables, Execute(sys.tables, s, sys.nowTS).tables, s, sys.nowTS, k, r);
    }
  }

  lemma ApplyKeepsFinal(sys: System, step: Step, k: Key, r: Send, epoch: nat)
    requires IsSound(sys) && IsFinalIn(sys, k, r, epoch)
    requires r.IsTerminal() && k == Key(r.loginID, TransactionIDOf(r.loginID, r.eventID))
    ensures IsFinalIn(Apply(sys, step), k, r, epoch)
  {
    hide IsSound, ExecuteIn, TransactionIDOf, IsFinal;
    match step
    case Run(s) => ExecuteKeepsFinal(sys, s, k, r, epoch);
    case BeginSubmit(p, baseline, startedTS, nextTS) =>
      if p in sys.processes {
        ExecuteKeepsFinal(sys, Submit(KeyOf(sys.processes[p]), baseline, startedTS, nextTS), k, r, epoch);
      }
    case RecordRefusal(p, terminalTS, nextTS) =>
      if p in sys.processes {
        ExecuteKeepsFinal(sys, RejectSubmitting(KeyOf(sys.processes[p]), terminalTS, nextTS), k, r, epoch);
      }
    case DeleteLogin(loginID) => DeletionKeepsFinal(sys, loginID, k, r, epoch);
    case _ =>
      RowsAreKept(sys, step);
      SameIsFinal(sys, Apply(sys, step), k, r, epoch);
  }

  lemma DeletionKeepsFinal(sys: System, loginID: LoginID, k: Key, r: Send, epoch: nat)
    requires IsFinalIn(sys, k, r, epoch) && k.loginID == r.loginID
    ensures IsFinalIn(LoginDeleted(sys, loginID), k, r, epoch)
  {
  }

  // The other steps leave the rows, the receipts and the lives of the logins alone.
  lemma RowsAreKept(sys: System, step: Step)
    requires !step.Run? && !step.BeginSubmit? && !step.RecordRefusal? && !step.DeleteLogin?
    ensures var after := Apply(sys, step);
            after.epochs == sys.epochs && after.tables.sends == sys.tables.sends
              && after.tables.receipts == sys.tables.receipts
  {
  }

  lemma SameIsFinal(sys: System, after: System, k: Key, r: Send, epoch: nat)
    requires IsFinalIn(sys, k, r, epoch)
    requires after.epochs == sys.epochs && after.tables.sends == sys.tables.sends
      && after.tables.receipts == sys.tables.receipts
    ensures IsFinalIn(after, k, r, epoch)
  {
  }

  lemma {:induction false} RunKeepsFinal(sys: System, steps: seq<Step>, k: Key, r: Send, epoch: nat)
    requires IsSound(sys) && IsFinalIn(sys, k, r, epoch)
    requires r.IsTerminal() && k == Key(r.loginID, TransactionIDOf(r.loginID, r.eventID))
    ensures IsFinalIn(RunAll(sys, steps), k, r, epoch)
  {
    hide IsSound, Apply, TransactionIDOf, IsFinalIn;
    if steps != [] {
      RunKeepsSound(sys, steps[..|steps| - 1]);
      RunKeepsFinal(sys, steps[..|steps| - 1], k, r, epoch);
      ApplyKeepsFinal(RunAll(sys, steps[..|steps| - 1]), steps[|steps| - 1], k, r, epoch);
    }
  }

  /**
   The outcome of a terminal row is final while its login lives: whatever happens later, its receipt
   is there, a completed row is still there with the same message, and no row for its event ever has
   another outcome.
   */
  lemma OutcomesAreFinal(nowTS: int, steps: seq<Step>, more: seq<Step>, k: Key)
    requires 0 < nowTS < COMPLETED_RECEIPT_TS
    requires k in RunAll(Start(nowTS), steps).tables.sends && RunAll(Start(nowTS), steps).tables.sends[k].IsTerminal()
    ensures var at, later := RunAll(Start(nowTS), steps), RunAll(Start(nowTS), steps + more);
            at.Epoch(k.loginID) == later.Epoch(k.loginID) ==> IsFinal(later.tables, k, at.tables.sends[k])
  {
    hide Apply, Start, HasSoundEpochs, HasOrderedEpochs, HasSoundProcesses, SubmittingRowsAreLogged, KeepsPromises,
      TransactionIDOf, SchemaAccepts, ScanAccepts;
    var at := RunAll(Start(nowTS), steps);
    StartIsSound(nowTS);
    RunKeepsSound(Start(nowTS), steps);
    RunInParts(Start(nowTS), steps, more);
    assert IsGood(at.tables, at.nowTS) && IsGoodRow(at.tables.sends[k], at.nowTS);
    RunKeepsFinal(at, more, k, at.tables.sends[k], at.Epoch(k.loginID));
  }
}
