/**
 What the outbound protocol lets happen: from every reachable system with a prepared row and a free login, the
 row can be sent and completed, sent again after its credentials were renewed, or fail for certain.
 */
module OutboundProgress {
  import opened RemoteIDs
  import opened OutboundTables
  import opened OutboundInvariant
  import opened OutboundStatements
  import opened OutboundSteps
  import opened OutboundGuards
  import opened OutboundProtocol

  ghost predicate LeadsTo(sys: System, t: System) {
    IsSound(t) && exists steps :: RunAll(sys, steps) == t
  }

  lemma LeadsNowhere(sys: System)
    requires IsSound(sys)
    ensures LeadsTo(sys, sys)
  {
    assert RunAll(sys, []) == sys;
  }

  lemma LeadsOn(sys: System, t: System, step: Step)
    requires LeadsTo(sys, t)
    ensures LeadsTo(sys, Apply(t, step))
  {
    ApplyKeepsSound(t, step);
    hide IsSound, Apply;
    var steps :| RunAll(sys, steps) == t;
    assert (steps + [step])[..|steps|] == steps;
    assert RunAll(sys, steps + [step]) == Apply(t, step);
  }

  /** Once its login exists, a row of an event that has left no trace can be created. */
  lemma RowCanBeCreated(sys: System, row: Send) returns (t: System)
    requires IsSound(sys) && IsNewRow(row, sys.nowTS)
    requires row.eventID !in sys.tables.receipts && (forall m <- sys.tables.mappings :: m.eventID != row.eventID)
      && forall k <- sys.tables.sends.Keys :: sys.tables.sends[k].eventID != row.eventID
    ensures LeadsTo(sys, t) && IsRowIn(t, Key(row.loginID, row.transactionID), Prepared)
    ensures t.tables.sends[Key(row.loginID, row.transactionID)] == row && t.locks == sys.locks && t.log == sys.log
  {
    var created := Apply(sys, CreateLogin(row.loginID));
    LeadsNowhere(sys);
    LeadsOn(sys, sys, CreateLogin(row.loginID));
    LeadsOn(sys, created, Run(Insert(row)));
    t := Apply(created, Run(Insert(row)));
    LeadsToGoodTables(sys, created);
    hide LeadsTo, IsSound, IsGood;
    InsertIsExact(created.tables, row, created.nowTS);
    hide InsertSend, IsNewRow, PromisesOf;
  }

  /** A process that stops frees its login, whatever it was doing. */
  lemma StoppedProcessFreesLogin(sys: System, p: ProcessID, loginID: LoginID)
    requires IsSound(sys)
    ensures var t := Apply(sys, Stop(p));
            && p !in t.processes && t.tables == sys.tables && t.log == sys.log
            && (loginID in sys.locks && sys.locks[loginID] == p ==> loginID !in t.locks)
            && (loginID in sys.locks && sys.locks[loginID] != p ==> loginID in t.locks)
  {
    hide IsSound;
  }

  /** With its login an event is forgotten, so that it can be sent again in the login's next life. */
  lemma DeletedLoginIsForgotten(sys: System, loginID: LoginID)
    requires IsSound(sys)
    ensures var t := Apply(sys, DeleteLogin(loginID));
            && t.Epoch(loginID) == sys.Epoch(loginID) + 1 && loginID !in t.tables.logins
            && (forall k <- t.tables.sends.Keys :: k.loginID != loginID)
            && (forall e <- t.tables.receipts.Keys :: t.tables.receipts[e].loginID != loginID)
            && (forall k <- sys.tables.sends.Keys ::
                  k.loginID != loginID ==> k in t.tables.sends && t.tables.sends[k] == sys.tables.sends[k])
            && t.log == sys.log && t.promises == sys.promises
  {
    hide IsSound;
  }

  // Nobody is sending for the login, and the process is free.
  predicate CanAcquire(sys: System, p: ProcessID, k: Key) {
    p !in sys.processes && k.loginID !in sys.locks
  }

  predicate IsRowIn(sys: System, k: Key, state: SendState) {
    k in sys.tables.sends && sys.tables.sends[k].state == state
  }

  // The process has the row submitting, and these are the requests of its submission, the last of the log.
  predicate IsAt(sys: System, t: System, p: ProcessID, k: Key, phase: Phase, requests: seq<Request>) {
    && IsRowIn(sys, k, Prepared) && IsRowIn(t, k, Submitting)
    && t.nowTS == sys.nowTS && t.epochs == sys.epochs
    && t.tables.sends[k].conversationID == sys.tables.sends[k].conversationID
    && t.tables.sends[k].eventID == sys.tables.sends[k].eventID
    && t.tables.sends[k].portal == sys.tables.sends[k].portal
    && p in t.processes && t.processes[p] == Process(k.loginID, sys.tables.sends[k].eventID, phase)
    && t.log ==
       sys.log + [Submission(k.loginID, sys.Epoch(k.loginID), sys.tables.sends[k].eventID, requests)]
  }

  ghost predicate HasGoodTables(sys: System) {
    IsGood(sys.tables, sys.nowTS) && 0 < sys.nowTS < COMPLETED_RECEIPT_TS
  }

  lemma SoundHasGoodTables(sys: System)
    requires IsSound(sys)
    ensures HasGoodTables(sys)
  {
  }

  lemma LeadsToGoodTables(sys: System, t: System)
    requires LeadsTo(sys, t)
    ensures HasGoodTables(t)
  {
    SoundHasGoodTables(t);
  }

  lemma RowHasKey(sys: System, k: Key)
    requires HasGoodTables(sys) && k in sys.tables.sends
    ensures k == Key(k.loginID, TransactionIDOf(k.loginID, sys.tables.sends[k].eventID))
  {
    assert IsGoodRow(sys.tables.sends[k], sys.nowTS);
  }

  // A statement that its row allows changes the row, and adds the receipt when that makes the row terminal.
  lemma StatementChanges(sys: System, s: Statement)
    requires HasGoodTables(sys) && IsOneRowStatement(s) && HasCallerArguments(sys.tables, s, sys.nowTS)
    requires TakesEffect(sys.tables, s, sys.nowTS)
    ensures ExecuteIn(sys, s) ==
      WithTables(sys, TablesAfter(sys.tables, s.key, RowAfter(sys.tables.sends[s.key], s, sys.nowTS)))
    ensures Execute(sys.tables, s, sys.nowTS).Changed?
  {
    hide IsGood, Execute, HasCallerArguments, TakesEffect, RowAfter, TablesAfter;
    StatementIsExact(sys.tables, s, sys.nowTS);
  }

  lemma ExpectedRow(sys: System, k: Key)
    requires HasGoodTables(sys) && k in sys.tables.sends
    ensures sys.tables.sends[k].IsTerminal() <==> sys.tables.sends[k].state in {NotSubmitted, Unconfirmed, Completed}
  {
    RowFacts(sys.tables, k, sys.nowTS);
  }

  lemma SubmitChanges(sys: System, k: Key)
    requires HasGoodTables(sys) && IsRowIn(sys, k, Prepared)
    ensures var s, r := Submit(k, [], sys.nowTS, sys.nowTS + 1), sys.tables.sends[k];
            && HasCallerArguments(sys.tables, s, sys.nowTS) && Execute(sys.tables, s, sys.nowTS).Changed?
            && ExecuteIn(sys, s) ==
               WithTables(sys, sys.tables.(sends := sys.tables.sends[k := RowAfter(r, s, sys.nowTS)]))
  {
    hide IsGood, TransactionIDOf, IsRemoteTaken, IsMapped;
    ExpectedRow(sys, k);
    StatementChanges(sys, Submit(k, [], sys.nowTS, sys.nowTS + 1));
    hide HasGoodTables, Execute, ExecuteIn;
  }

  lemma BeginStep(sys: System, p: ProcessID, k: Key)
    requires HasGoodTables(sys) && CanAcquire(sys, p, k) && IsRowIn(sys, k, Prepared)
    ensures var held := Apply(sys, Acquire(p, k.loginID, sys.tables.sends[k].eventID));
            IsAt(sys, Apply(held, BeginSubmit(p, [], sys.nowTS, sys.nowTS + 1)), p, k, Ready(|sys.log|), [])
  {
    hide IsGood;
    var r := sys.tables.sends[k];
    var process := Process(k.loginID, r.eventID, Holding);
    var held := sys.(processes := sys.processes[p := process], locks := sys.locks[k.loginID := p]);
    assert Apply(sys, Acquire(p, k.loginID, r.eventID)) == held;
    hide Apply;
    SubmitStep(held, p, k);
  }

  lemma SubmitStep(held: System, p: ProcessID, k: Key)
    requires HasGoodTables(held) && IsRowIn(held, k, Prepared) && p in held.processes
    requires held.processes[p] == Process(k.loginID, held.tables.sends[k].eventID, Holding)
    ensures IsAt(held, Apply(held, BeginSubmit(p, [], held.nowTS, held.nowTS + 1)), p, k, Ready(|held.log|), [])
  {
    hide IsGood, TransactionIDOf, IsRemoteTaken, IsMapped;
    RowHasKey(held, k);
    assert KeyOf(held.processes[p]) == k;
    SubmitChanges(held, k);
    hide HasGoodTables, Execute, ExecuteIn, HasCallerArguments, PromisesOf, KeyOf;
    var s := Submit(k, [], held.nowTS, held.nowTS + 1);
    assert Apply(held, BeginSubmit(p, [], held.nowTS, held.nowTS + 1)) == AfterSubmit(held, p, s);
  }

  lemma PostStep(sys: System, t: System, p: ProcessID, k: Key, phase: Phase, requests: seq<Request>)
    requires IsAt(sys, t, p, k, phase, requests) && phase in {Ready(|sys.log|), Renewing(|sys.log|)}
    ensures IsAt(sys, Apply(t, Post(p)), p, k, Sending(|sys.log|, |requests|), requests + [Open])
  {
  }

  lemma AcceptStep(sys: System, t: System, p: ProcessID, k: Key, phase: Phase, requests: seq<Request>, r: nat)
    requires IsAt(sys, t, p, k, phase, requests) && r < |requests| && requests[r] == Open
    ensures IsAt(sys, Apply(t, Accept(|sys.log|, r)), p, k, phase, requests[r := Accepted])
  {
  }

  lemma RefuseStep(sys: System, t: System, p: ProcessID, k: Key, requests: seq<Request>, r: nat, credentials: bool)
    requires IsAt(sys, t, p, k, Sending(|sys.log|, r), requests) && r < |requests| && requests[r] == Open
    ensures IsAt(sys, Apply(t, Receive(p, Refusal(credentials))), p, k,
              if credentials && r == 0 then Renewing(|sys.log|) else Refused(|sys.log|), requests[r := Closed])
  {
  }

  lemma ReplyStep(sys: System, t: System, p: ProcessID, k: Key, requests: seq<Request>, r: nat)
    requires IsAt(sys, t, p, k, Sending(|sys.log|, r), requests) && r < |requests|
    ensures IsAt(sys, Apply(t, Receive(p, Other)), p, k, Holding, requests)
  {
  }

  lemma CanPost(sys: System, p: ProcessID, k: Key) returns (t: System)
    requires IsSound(sys) && CanAcquire(sys, p, k) && IsRowIn(sys, k, Prepared)
    ensures LeadsTo(sys, t) && IsAt(sys, t, p, k, Sending(|sys.log|, 0), [Open])
  {
    hide LeadsTo, HasGoodTables, IsSound, Apply, IsAt;
    var acquire := Acquire(p, k.loginID, sys.tables.sends[k].eventID);
    var begin := BeginSubmit(p, [], sys.nowTS, sys.nowTS + 1);
    LeadsNowhere(sys);
    LeadsOn(sys, sys, acquire);
    LeadsOn(sys, Apply(sys, acquire), begin);
    t := Apply(Apply(sys, acquire), begin);
    SoundHasGoodTables(sys);
    BeginStep(sys, p, k);
    LeadsOn(sys, t, Post(p));
    PostStep(sys, t, p, k, Ready(|sys.log|), []);
    t := Apply(t, Post(p));
    assert [] + [Open] == [Open];
  }

  /** A prepared row whose login is free can be submitted with one request, which is accepted. */
  lemma SendCanBeAccepted(sys: System, p: ProcessID, k: Key) returns (t: System)
    requires IsSound(sys) && CanAcquire(sys, p, k) && IsRowIn(sys, k, Prepared)
    ensures LeadsTo(sys, t) && IsAt(sys, t, p, k, Holding, [Accepted])
  {
    hide LeadsTo, HasGoodTables, IsSound, Apply, IsAt;
    t := CanPost(sys, p, k);
    LeadsOn(sys, t, Accept(|sys.log|, 0));
    AcceptStep(sys, t, p, k, Sending(|sys.log|, 0), [Open], 0);
    t := Apply(t, Accept(|sys.log|, 0));
    assert [Open][0 := Accepted] == [Accepted];
    LeadsOn(sys, t, Receive(p, Other));
    ReplyStep(sys, t, p, k, [Accepted], 0);
    t := Apply(t, Receive(p, Other));
  }

  /** A request that was rejected for its credentials can be followed by one that is accepted. */
  lemma SecondRequestCanBeAccepted(sys: System, p: ProcessID, k: Key) returns (t: System)
    requires IsSound(sys) && CanAcquire(sys, p, k) && IsRowIn(sys, k, Prepared)
    ensures LeadsTo(sys, t) && IsAt(sys, t, p, k, Sending(|sys.log|, 1), [Closed, Accepted])
  {
    hide LeadsTo, HasGoodTables, IsSound, Apply, IsAt;
    t := CanPost(sys, p, k);
    LeadsOn(sys, t, Receive(p, Refusal(true)));
    RefuseStep(sys, t, p, k, [Open], 0, true);
    t := Apply(t, Receive(p, Refusal(true)));
    assert [Open][0 := Closed] == [Closed];
    LeadsOn(sys, t, Post(p));
    PostStep(sys, t, p, k, Renewing(|sys.log|), [Closed]);
    t := Apply(t, Post(p));
    assert [Closed] + [Open] == [Closed, Open];
    LeadsOn(sys, t, Accept(|sys.log|, 1));
    AcceptStep(sys, t, p, k, Sending(|sys.log|, 1), [Closed, Open], 1);
    t := Apply(t, Accept(|sys.log|, 1));
    assert [Closed, Open][1 := Accepted] == [Closed, Accepted];
  }

  lemma RejectChanges(sys: System, k: Key)
    requires HasGoodTables(sys) && IsRowIn(sys, k, Submitting)
    ensures var s, r := RejectSubmitting(k, sys.nowTS, sys.nowTS + 1), sys.tables.sends[k];
            ExecuteIn(sys, s) == WithTables(sys, Terminated(sys.tables, k, RowAfter(r, s, sys.nowTS)))
  {
    hide IsGood, TransactionIDOf, IsRemoteTaken, IsMapped, Terminated;
    ExpectedRow(sys, k);
    StatementChanges(sys, RejectSubmitting(k, sys.nowTS, sys.nowTS + 1));
    hide HasGoodTables, Execute, ExecuteIn;
  }

  lemma RecordStep(sys: System, t: System, p: ProcessID, k: Key)
    requires HasGoodTables(t) && IsAt(sys, t, p, k, Refused(|sys.log|), [Closed])
    ensures var after := Apply(t, RecordRefusal(p, t.nowTS, t.nowTS + 1));
            && IsRowIn(after, k, NotSubmitted) && after.log == t.log
            && after.tables.sends[k].eventID == t.tables.sends[k].eventID
            && t.tables.sends[k].eventID in after.tables.receipts
  {
    hide IsGood, TransactionIDOf, IsRemoteTaken, IsMapped;
    RowHasKey(t, k);
    assert KeyOf(t.processes[p]) == k;
    RejectChanges(t, k);
    hide HasGoodTables, Execute, ExecuteIn, PromisesOf, KeyOf;
  }

  /** A send that is refused for certain can be recorded as not submitted, with its receipt. */
  lemma SendCanBeRefused(sys: System, p: ProcessID, k: Key) returns (t: System)
    requires IsSound(sys) && CanAcquire(sys, p, k) && IsRowIn(sys, k, Prepared)
    ensures LeadsTo(sys, t) && IsRowIn(t, k, NotSubmitted)
    ensures t.tables.sends[k].eventID == sys.tables.sends[k].eventID
    ensures sys.tables.sends[k].eventID in t.tables.receipts
    ensures t.log ==
      sys.log + [Submission(k.loginID, sys.Epoch(k.loginID), sys.tables.sends[k].eventID, [Closed])]
  {
    hide LeadsTo, HasGoodTables, IsSound, Apply;
    var t1 := CanPost(sys, p, k);
    LeadsOn(sys, t1, Receive(p, Refusal(false)));
    RefuseStep(sys, t1, p, k, [Open], 0, false);
    var t2 := Apply(t1, Receive(p, Refusal(false)));
    assert [Open][0 := Closed] == [Closed];
    LeadsOn(sys, t2, RecordRefusal(p, t2.nowTS, t2.nowTS + 1));
    LeadsToGoodTables(sys, t2);
    RecordStep(sys, t2, p, k);
    t := Apply(t2, RecordRefusal(p, t2.nowTS, t2.nowTS + 1));
  }

  // The message turned up in the row's conversation, unmapped and claimed by no other row.
  ghost predicate CanResolve(sys: System, k: Key, remoteID: string) {
    && k in sys.tables.sends && IsPending(sys.tables.sends[k])
    && !IsBlank(sys.tables.sends[k].conversationID) && !IsBlank(remoteID)
    && !IsRemoteTaken(sys.tables, k, sys.tables.sends[k].conversationID, remoteID)
    && !IsMapped(sys.tables, remoteID, sys.tables.sends[k].portal.receiver)
  }

  lemma ResolveStep(sys: System, k: Key, remoteID: string)
    requires HasGoodTables(sys) && CanResolve(sys, k, remoteID)
    ensures var t := Apply(sys, Run(Resolve(k, sys.tables.sends[k].conversationID, remoteID, sys.nowTS + 1)));
            && IsRowIn(t, k, Resolved) && t.tables.sends[k].remoteID == remoteID && t.log == sys.log
            && t.nowTS == sys.nowTS && t.tables.sends[k].eventID == sys.tables.sends[k].eventID
  {
    hide IsGood, TransactionIDOf, IsRemoteTaken, IsMapped;
    ExpectedRow(sys, k);
    StatementChanges(sys, Resolve(k, sys.tables.sends[k].conversationID, remoteID, sys.nowTS + 1));
    hide HasGoodTables, Execute, ExecuteIn, PromisesOf;
  }

  lemma CompleteStep(sys: System, k: Key)
    requires HasGoodTables(sys) && IsRowIn(sys, k, Resolved) && !IsBlank(sys.tables.sends[k].remoteID)
    ensures var r, t := sys.tables.sends[k], Apply(sys, Run(Complete(k, sys.tables.sends[k].remoteID, sys.nowTS)));
            && IsRowIn(t, k, Completed) && t.tables.sends[k].remoteID == r.remoteID && t.log == sys.log
            && r.eventID in t.tables.receipts
  {
    hide IsGood, TransactionIDOf, IsRemoteTaken, IsMapped;
    ExpectedRow(sys, k);
    StatementChanges(sys, Complete(k, sys.tables.sends[k].remoteID, sys.nowTS));
    hide HasGoodTables, Execute, ExecuteIn, PromisesOf;
  }

  /** A row that was sent can be completed with a message that turns up in its conversation. */
  lemma SentRowCanComplete(sys: System, k: Key, remoteID: string) returns (t: System)
    requires IsSound(sys) && CanResolve(sys, k, remoteID)
    ensures LeadsTo(sys, t) && IsRowIn(t, k, Completed) && t.tables.sends[k].remoteID == remoteID
    ensures sys.tables.sends[k].eventID in t.tables.receipts && t.log == sys.log
  {
    hide LeadsTo, HasGoodTables, IsSound, Apply, CanResolve;
    LeadsNowhere(sys);
    assert k in sys.tables.sends && !IsBlank(remoteID) by {
      MessageIsThere(sys, k, remoteID);
    }
    var resolve := Run(Resolve(k, sys.tables.sends[k].conversationID, remoteID, sys.nowTS + 1));
    LeadsOn(sys, sys, resolve);
    SoundHasGoodTables(sys);
    ResolveStep(sys, k, remoteID);
    var t1 := Apply(sys, resolve);
    var complete := Run(Complete(k, remoteID, t1.nowTS));
    LeadsOn(sys, t1, complete);
    LeadsToGoodTables(sys, t1);
    CompleteStep(t1, k);
    t := Apply(t1, complete);
  }

  lemma MessageIsThere(sys: System, k: Key, remoteID: string)
    requires CanResolve(sys, k, remoteID)
    ensures k in sys.tables.sends && !IsBlank(remoteID)
  {
  }
}
