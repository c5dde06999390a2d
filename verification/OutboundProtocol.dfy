/**
 Outbound delivery across bridge processes, crashes, row deletions and login deletions. Every
 statement is one atomic step that any process may take at any time; the two statements that only a
 sender issues are tied to its phases. Tumblr is an oracle that may accept each request at any time
 after it was sent, whatever became of its sender; a reply in the 4xx range means that it did not and
 will not accept the request that it answers.
 */
module OutboundProtocol {
  import opened OutboundTables
  import opened OutboundInvariant
  import opened OutboundStatements
  import opened OutboundSteps

  type ProcessID = nat

  // A sender holds its login's submission lock throughout. After its row became submitting it may post
  // a request; a request that was rejected for its credentials can be followed by one more, once they
  // were renewed; and a definite failure is still to be recorded.
  datatype Phase =
    | Holding
    | Ready(submission: nat)
    | Sending(submission: nat, request: nat)
    | Renewing(submission: nat)
    | Refused(submission: nat)

  datatype Process = Process(loginID: LoginID, eventID: EventID, phase: Phase)

  // A request that Tumblr may still accept, that it accepted, or that it rejected.
  datatype Request = Open | Accepted | Closed

  // One move of a row from prepared to submitting, in one lifetime of its login, with the requests that
  // were posted for it.
  datatype Submission = Submission(loginID: LoginID, epoch: nat, eventID: EventID, requests: seq<Request>)

  // The record that an event was found not to have been submitted.
  datatype Promise = Promise(loginID: LoginID, epoch: nat, eventID: EventID)

  // A 4xx reply to a request, possibly for its credentials, or any other reply or none.
  datatype Reply = Refusal(forCredentials: bool) | Other

  datatype System = System(
    tables: Tables,
    nowTS: int,
    epochs: map<LoginID, nat>,
    log: seq<Submission>,
    promises: set<Promise>,
    processes: map<ProcessID, Process>,
    locks: map<LoginID, ProcessID>)
  {
    function Epoch(loginID: LoginID): nat {
      if loginID in epochs then epochs[loginID] else 0
    }

    predicate IsLive(i: nat)
      requires i < |log|
    {
      log[i].epoch == Epoch(log[i].loginID)
    }
  }

  datatype Step =
    | Tick(laterTS: int)
    | Run(statement: Statement)
    | ChangeSurroundings(mappings: set<Mapping>, portalRooms: map<PortalKey, RoomID>)
    | CreateLogin(loginID: LoginID)
    | DeleteLogin(loginID: LoginID)
    | Acquire(process: ProcessID, loginID: LoginID, eventID: EventID)
    | BeginSubmit(process: ProcessID, baseline: seq<string>, startedTS: int, nextTS: int)
    | Post(process: ProcessID)
    | Accept(submission: nat, request: nat)
    | Receive(process: ProcessID, reply: Reply)
    | FailUnsent(process: ProcessID)
    | RecordRefusal(process: ProcessID, terminalTS: int, nextTS: int)
    | Stop(process: ProcessID)

  function KeyOf(p: Process): Key {
    Key(p.loginID, TransactionIDOf(p.loginID, p.eventID))
  }

  // ---- Steps ----

  function PromisesOf(sys: System, t: Tables): set<Promise> {
    set k | k in t.sends && t.sends[k].state == NotSubmitted ::
      Promise(k.loginID, sys.Epoch(k.loginID), t.sends[k].eventID)
  }

  function WithTables(sys: System, t: Tables): System {
    sys.(tables := t, promises := sys.promises + PromisesOf(sys, t))
  }

  ghost function ExecuteIn(sys: System, s: Statement): System {
    var e := if HasCallerArguments(sys.tables, s, sys.nowTS) then Execute(sys.tables, s, sys.nowTS) else NoRow;
    if e.Changed? then WithTables(sys, e.tables) else sys
  }

  function WithPhase(sys: System, p: ProcessID, phase: Phase): System
    requires p in sys.processes
  {
    sys.(processes := sys.processes[p := sys.processes[p].(phase := phase)])
  }

  // Deleting a login removes its rows and receipts with it.
  function WithoutLogin(t: Tables, loginID: LoginID): Tables {
    t.(
      logins := t.logins - {loginID},
      sends := map k | k in t.sends && k.loginID != loginID :: t.sends[k],
      receipts := map e | e in t.receipts && t.receipts[e].loginID != loginID :: t.receipts[e])
  }

  function Stopped(sys: System, p: ProcessID): System {
    sys.(
      processes := sys.processes - {p},
      locks := map l | l in sys.locks && sys.locks[l] != p :: sys.locks[l])
  }

  ghost function AfterSubmit(sys: System, p: ProcessID, s: Statement): System
    requires p in sys.processes
  {
    var process := sys.processes[p];
    if HasCallerArguments(sys.tables, s, sys.nowTS) && Execute(sys.tables, s, sys.nowTS).Changed?
    then
      WithPhase(
        ExecuteIn(sys, s).(log :=
          sys.log + [Submission(process.loginID, sys.Epoch(process.loginID), process.eventID, [])]),
        p, Ready(|sys.log|))
    else sys
  }

  function WithRequests(sys: System, i: nat, requests: seq<Request>): System
    requires i < |sys.log|
  {
    sys.(log := sys.log[i := sys.log[i].(requests := requests)])
  }

  // The submission that the process works on.
  predicate WorksOn(sys: System, p: ProcessID, i: nat) {
    p in sys.processes && !sys.processes[p].phase.Holding? && sys.processes[p].phase.submission == i && i < |sys.log|
  }

  function Posted(sys: System, p: ProcessID, i: nat): System
    requires WorksOn(sys, p, i)
  {
    var requests := sys.log[i].requests;
    WithPhase(WithRequests(sys, i, requests + [Open]), p, Sending(i, |requests|))
  }

  // A refusal closes the request that it answers; only the first request is ever followed by another.
  function AfterReply(sys: System, p: ProcessID, i: nat, request: nat, reply: Reply): System
    requires WorksOn(sys, p, i) && request < |sys.log[i].requests|
  {
    match reply
    case Other => WithPhase(sys, p, Holding)
    case Refusal(forCredentials) =>
      WithPhase(WithRequests(sys, i, sys.log[i].requests[request := Closed]), p, if forCredentials && request == 0
        then Renewing(i) else Refused(i))
  }

  predicate IsOpen(sys: System, i: nat, request: nat) {
    i < |sys.log| && request < |sys.log[i].requests| && sys.log[i].requests[request] == Open
  }

  // The process waits for the reply to this request of this submission.
  predicate MayReceive(sys: System, p: ProcessID, reply: Reply) {
    && p in sys.processes && sys.processes[p].phase.Sending?
    && sys.processes[p].phase.submission < |sys.log|
      && sys.processes[p].phase.request < |sys.log[sys.processes[p].phase.submission].requests|
    && (reply.Refusal? ==> IsOpen(sys, sys.processes[p].phase.submission, sys.processes[p].phase.request))
  }

  // Nothing is under way: the first request may be posted, or the one with renewed credentials.
  predicate MayPost(sys: System, p: ProcessID) {
    && p in sys.processes && (sys.processes[p].phase.Ready? || sys.processes[p].phase.Renewing?)
    && sys.processes[p].phase.submission < |sys.log|
  }

  // A step that is not enabled leaves the system as it is.
  ghost function Apply(sys: System, step: Step): System {
    match step
    case Tick(laterTS) => if sys.nowTS <= laterTS < COMPLETED_RECEIPT_TS then sys.(nowTS := laterTS) else sys
    case Run(s) => if s.Submit? || s.RejectSubmitting? then sys else ExecuteIn(sys, s)
    case ChangeSurroundings(mappings, portalRooms) =>
      sys.(tables := sys.tables.(mappings := mappings, portalRooms := portalRooms))
    case CreateLogin(loginID) => sys.(tables := sys.tables.(logins := sys.tables.logins + {loginID}))
    case DeleteLogin(loginID) =>
      sys.(tables := WithoutLogin(sys.tables, loginID), epochs := sys.epochs[loginID := sys.Epoch(loginID) + 1])
    case Acquire(p, loginID, eventID) =>
      if p !in sys.processes && loginID !in sys.locks
      then sys.(processes := sys.processes[p := Process(loginID, eventID, Holding)], locks := sys.locks[loginID := p])
      else sys
    case BeginSubmit(p, baseline, startedTS, nextTS) =>
      if p in sys.processes && sys.processes[p].phase == Holding
      then AfterSubmit(sys, p, Submit(KeyOf(sys.processes[p]), baseline, startedTS, nextTS))
      else sys
    case Post(p) => if MayPost(sys, p) then Posted(sys, p, sys.processes[p].phase.submission) else sys
    case Accept(i, request) =>
      if IsOpen(sys, i, request) then WithRequests(sys, i, sys.log[i].requests[request := Accepted]) else sys
    case Receive(p, reply) =>
      if MayReceive(sys, p, reply)
      then AfterReply(sys, p, sys.processes[p].phase.submission, sys.processes[p].phase.request, reply)
      else sys
    case FailUnsent(p) => if MayPost(sys, p) then WithPhase(sys, p, Refused(sys.processes[p].phase.submission)) else sys
    case RecordRefusal(p, terminalTS, nextTS) =>
      if p in sys.processes && sys.processes[p].phase.Refused?
      then WithPhase(ExecuteIn(sys, RejectSubmitting(KeyOf(sys.processes[p]), terminalTS, nextTS)), p, Holding)
      else sys
    case Stop(p) => Stopped(sys, p)
  }

  function Start(nowTS: int): System {
    System(Tables({}, map[], map[], {}, map[]), nowTS, map[], [], {}, map[], map[])
  }

  ghost function RunAll(sys: System, steps: seq<Step>): System {
    if steps == [] then sys else Apply(RunAll(sys, steps[..|steps| - 1]), steps[|steps| - 1])
  }

  // ---- The invariant ----

  // While its login lives, a submission is remembered by a row past the prepared state or a receipt.
  predicate IsRemembered(t: Tables, s: Submission) {
    var key := Key(s.loginID, TransactionIDOf(s.loginID, s.eventID));
    || (key in t.sends && t.sends[key].state != Prepared)
    || (s.eventID in t.receipts && t.receipts[s.eventID].loginID == s.loginID)
  }

  predicate HasSoundEpochs(sys: System) {
    forall i | 0 <= i < |sys.log| ::
      && sys.log[i].epoch <= sys.Epoch(sys.log[i].loginID)
      && (sys.IsLive(i) ==> sys.log[i].loginID in sys.tables.logins && IsRemembered(sys.tables, sys.log[i]))
  }

  // The submissions of a login are logged life by life.
  predicate HasOrderedEpochs(sys: System) {
    forall i, j | 0 <= i < j < |sys.log| ::
      sys.log[i].loginID == sys.log[j].loginID ==> sys.log[i].epoch <= sys.log[j].epoch
  }

  predicate SubmitsOnce(sys: System) {
    forall i, j | 0 <= i < j < |sys.log| && sys.log[i].eventID == sys.log[j].eventID ::
      !sys.IsLive(i) && (sys.log[i].loginID == sys.log[j].loginID ==> sys.log[i].epoch < sys.log[j].epoch)
  }

  // A submission has two requests at most, and every one but the last was rejected: at most one request
  // of a submission is open or accepted at any time.
  predicate IsSafelySent(requests: seq<Request>) {
    |requests| <= 2 && forall k | 0 <= k < |requests| - 1 :: requests[k] == Closed
  }

  predicate SendsSafely(sys: System) {
    forall i | 0 <= i < |sys.log| :: IsSafelySent(sys.log[i].requests)
  }

  predicate IsClosed(requests: seq<Request>) {
    forall k | 0 <= k < |requests| :: requests[k] == Closed
  }

  predicate HasSubmission(sys: System, r: Send) {
    exists i | 0 <= i < |sys.log| :: sys.IsLive(i) && sys.log[i].loginID == r.loginID && sys.log[i].eventID == r.eventID
  }

  predicate SubmittingRowsAreLogged(sys: System) {
    forall k <- sys.tables.sends.Keys ::
      sys.tables.sends[k].state == Submitting ==> HasSubmission(sys, sys.tables.sends[k])
  }

  // What the phase says about the requests: a sender posts only when nothing is open or accepted.
  predicate FitsPhase(phase: Phase, requests: seq<Request>) {
    match phase
    case Holding => true
    case Ready(_) => requests == []
    case Sending(_, request) => request == |requests| - 1
    case Renewing(_) => |requests| == 1 && IsClosed(requests)
    case Refused(_) => IsClosed(requests)
  }

  // The sender in these phases works on the last submission of its login.
  predicate IsSoundProcess(sys: System, p: ProcessID)
    requires p in sys.processes
  {
    var process := sys.processes[p];
    && process.loginID in sys.locks && sys.locks[process.loginID] == p
    && (!process.phase.Holding? ==>
          var i := process.phase.submission;
          && i < |sys.log| && FitsPhase(process.phase, sys.log[i].requests)
          && sys.log[i].loginID == process.loginID && sys.log[i].eventID == process.eventID
          && forall j | i < j < |sys.log| :: sys.log[j].loginID != process.loginID)
  }

  predicate IsAtWork(phase: Phase) {
    phase.Ready? || phase.Sending? || phase.Renewing?
  }

  // No failure was promised for a submission that can still have an accepted request.
  predicate HasUnpromisedWork(sys: System) {
    forall p <- sys.processes.Keys ::
      IsAtWork(sys.processes[p].phase) && sys.processes[p].phase.submission < |sys.log| ==>
      Promise(sys.processes[p].loginID, sys.log[sys.processes[p].phase.submission].epoch,
        sys.processes[p].eventID) !in sys.promises
  }

  predicate HasSoundProcesses(sys: System) {
    forall p <- sys.processes.Keys :: IsSoundProcess(sys, p)
  }

  // What was promised stays true: no request for the event was, or can still be, accepted.
  predicate KeepsPromises(sys: System) {
    && (forall k <- sys.tables.sends.Keys :: sys.tables.sends[k].state == NotSubmitted ==>
          Promise(k.loginID, sys.Epoch(k.loginID), sys.tables.sends[k].eventID) in sys.promises)
    && (forall pr <- sys.promises ::
          && pr.epoch <= sys.Epoch(pr.loginID)
          && (pr.epoch == sys.Epoch(pr.loginID) ==>
                pr.eventID in sys.tables.receipts && sys.tables.receipts[pr.eventID].loginID == pr.loginID)
          && IsUnsent(sys, pr.loginID, pr.epoch, pr.eventID))
  }

  predicate IsSound(sys: System) {
    && 0 < sys.nowTS < COMPLETED_RECEIPT_TS
    && IsGood(sys.tables, sys.nowTS)
    && HasSoundEpochs(sys)
    && HasOrderedEpochs(sys)
    && SubmitsOnce(sys)
    && SendsSafely(sys)
    && SubmittingRowsAreLogged(sys)
    && HasSoundProcesses(sys)
    && HasUnpromisedWork(sys)
    && KeepsPromises(sys)
  }

  // ---- Statements ----

  // What the rest of the invariant needs to know of a statement.
  predicate IsPlainStep(t: Tables, t': Tables, s: Statement, nowTS: int) {
    IsTableStep(t, t', s, nowTS) && IsGood(t, nowTS) && IsGood(t', nowTS)
  }

  lemma MemoryIsKept(t: Tables, t': Tables, s: Statement, nowTS: int, submission: Submission)
    requires IsPlainStep(t, t', s, nowTS) && IsRemembered(t, submission)
    ensures IsRemembered(t', submission)
  {
    hide SchemaAccepts, ScanAccepts, HasUniqueEvents, HasUniqueRemotes, HasReceiptsOfTerminalRows, KeepsClaims,
      TransactionIDOf;
    var key := Key(submission.loginID, TransactionIDOf(submission.loginID, submission.eventID));
    if key in t.sends && t.sends[key].state != Prepared && key !in t'.sends {
      assert MayDelete(t, key, s) && HasOwnReceipt(t, t.sends[key]);
      assert IsGoodRow(t.sends[key], nowTS);
      TransactionIDsDiffer(submission.loginID, t.sends[key].eventID, submission.eventID);
    }
  }

  lemma EpochsAreKept(sys: System, t': Tables, s: Statement)
    requires HasSoundEpochs(sys) && IsPlainStep(sys.tables, t', s, sys.nowTS)
    ensures HasSoundEpochs(WithTables(sys, t'))
  {
    hide IsPlainStep;
    forall i | 0 <= i < |sys.log| && sys.IsLive(i)
      ensures IsRemembered(t', sys.log[i]) && sys.log[i].loginID in t'.logins {
      MemoryIsKept(sys.tables, t', s, sys.nowTS, sys.log[i]);
      assert t'.logins == sys.tables.logins by {
        StepKeepsLogins(sys.tables, t', s, sys.nowTS);
      }
    }
  }

  lemma StepKeepsLogins(t: Tables, t': Tables, s: Statement, nowTS: int)
    requires IsPlainStep(t, t', s, nowTS)
    ensures t'.logins == t.logins
  {
  }

  lemma LoggedIsKept(sys: System, t': Tables, s: Statement)
    requires SubmittingRowsAreLogged(sys) && IsTableStep(sys.tables, t', s, sys.nowTS) && !s.Submit?
    ensures SubmittingRowsAreLogged(WithTables(sys, t'))
  {
    forall k | k in t'.sends && t'.sends[k].state == Submitting
      ensures HasSubmission(WithTables(sys, t'), t'.sends[k]) {
      assert k in sys.tables.sends && IsRowStep(k, sys.tables.sends[k], t'.sends[k], s, sys.nowTS);
      var i :| 0 <= i < |sys.log| && sys.IsLive(i) && sys.log[i].loginID == sys.tables.sends[k].loginID
        && sys.log[i].eventID == sys.tables.sends[k].eventID;
      assert WithTables(sys, t').IsLive(i);
    }
  }

  lemma ProcessesAreKept(sys: System, t': Tables)
    requires HasSoundProcesses(sys)
    ensures HasSoundProcesses(WithTables(sys, t'))
  {
    forall p | p in sys.processes ensures IsSoundProcess(WithTables(sys, t'), p) {
      assert IsSoundProcess(sys, p);
    }
  }

  // No request for the event was, or can still be, accepted in the present life of its login.
  predicate IsUnsent(sys: System, loginID: LoginID, epoch: nat, eventID: EventID) {
    forall i | 0 <= i < |sys.log| && sys.log[i].loginID == loginID && sys.log[i].epoch == epoch
      && sys.log[i].eventID == eventID ::
      IsClosed(sys.log[i].requests)
  }

  lemma RememberedIsNotPrepared(t: Tables, nowTS: int, submission: Submission, k: Key)
    requires IsGood(t, nowTS) && IsRemembered(t, submission)
    requires k in t.sends && t.sends[k].eventID == submission.eventID
    ensures t.sends[k].state != Prepared
  {
    var key := Key(submission.loginID, TransactionIDOf(submission.loginID, submission.eventID));
    assert IsGoodRow(t.sends[k], nowTS);
    if key in t.sends {
      assert IsGoodRow(t.sends[key], nowTS);
      TransactionIDsDiffer(key.loginID, t.sends[key].eventID, submission.eventID);
    }
  }

  lemma PreparedIsUnsent(sys: System, k: Key)
    requires IsGood(sys.tables, sys.nowTS) && HasSoundEpochs(sys)
    requires k in sys.tables.sends && sys.tables.sends[k].state == Prepared
    ensures IsUnsent(sys, k.loginID, sys.Epoch(k.loginID), sys.tables.sends[k].eventID)
    ensures forall i | 0 <= i < |sys.log| && sys.IsLive(i) :: sys.log[i].eventID != sys.tables.sends[k].eventID
  {
    forall i | 0 <= i < |sys.log| && sys.IsLive(i) ensures sys.log[i].eventID != sys.tables.sends[k].eventID {
      if sys.log[i].eventID == sys.tables.sends[k].eventID {
        RememberedIsNotPrepared(sys.tables, sys.nowTS, sys.log[i], k);
      }
    }
  }

  // A refusal is recorded only for a submission that nothing can still be accepted for.
  predicate RefusesUnsent(sys: System, s: Statement) {
    s.RejectSubmitting? ==>
      && (s.key in sys.tables.sends && sys.tables.sends[s.key].state == Submitting ==>
            IsUnsent(sys, s.key.loginID, sys.Epoch(s.key.loginID), sys.tables.sends[s.key].eventID))
      && (forall p <- sys.processes.Keys ::
        IsAtWork(sys.processes[p].phase) ==> sys.processes[p].loginID != s.key.loginID)
  }

  lemma NewPromiseHolds(sys: System, t': Tables, s: Statement, k: Key)
    requires IsPlainStep(sys.tables, t', s, sys.nowTS) && HasSoundEpochs(sys) && KeepsPromises(sys)
      && RefusesUnsent(sys, s)
    requires k in t'.sends && t'.sends[k].state == NotSubmitted
    ensures IsUnsent(sys, k.loginID, sys.Epoch(k.loginID), t'.sends[k].eventID)
    ensures t'.sends[k].eventID in t'.receipts && t'.receipts[t'.sends[k].eventID].loginID == k.loginID
  {
    assert IsGoodRow(t'.sends[k], sys.nowTS);
    assert HasOwnReceipt(t', t'.sends[k]);
    assert k in sys.tables.sends && IsRowStep(k, sys.tables.sends[k], t'.sends[k], s, sys.nowTS);
    var r := sys.tables.sends[k];
    assert r.eventID == t'.sends[k].eventID;
    hide IsPlainStep, IsRowStep, IsGoodRow, HasOwnReceipt;
    if r.state == NotSubmitted {
      assert Promise(k.loginID, sys.Epoch(k.loginID), r.eventID) in sys.promises;
    } else if r.state == Prepared {
      assert IsGood(sys.tables, sys.nowTS) by {
        PlainStepIsGood(sys.tables, t', s, sys.nowTS);
      }
      PreparedIsUnsent(sys, k);
    }
  }

  lemma PlainStepIsGood(t: Tables, t': Tables, s: Statement, nowTS: int)
    requires IsPlainStep(t, t', s, nowTS)
    ensures IsGood(t, nowTS) && IsGood(t', nowTS)
  {
  }

  lemma PromisesAreKept(sys: System, t': Tables, s: Statement)
    requires IsPlainStep(sys.tables, t', s, sys.nowTS) && HasSoundEpochs(sys) && KeepsPromises(sys)
      && RefusesUnsent(sys, s)
    ensures KeepsPromises(WithTables(sys, t'))
  {
    hide IsGood, IsRowStep, MayDelete, HasSoundEpochs, RefusesUnsent, TransactionIDOf;
    var after := WithTables(sys, t');
    forall pr | pr in after.promises
      ensures pr.epoch <= after.Epoch(pr.loginID) && IsUnsent(after, pr.loginID, pr.epoch, pr.eventID)
      ensures pr.epoch == after.Epoch(pr.loginID) ==>
        pr.eventID in t'.receipts && t'.receipts[pr.eventID].loginID == pr.loginID
    {
      if pr !in sys.promises {
        var k :| k in t'.sends && t'.sends[k].state == NotSubmitted
          && pr == Promise(k.loginID, sys.Epoch(k.loginID), t'.sends[k].eventID);
        NewPromiseHolds(sys, t', s, k);
      }
      assert IsUnsent(sys, pr.loginID, pr.epoch, pr.eventID);
    }
  }

  // A new promise is about a prepared row or a recorded refusal, and so about nobody's work.
  lemma WorkStaysUnpromised(sys: System, t': Tables, s: Statement)
    requires IsPlainStep(sys.tables, t', s, sys.nowTS) && HasSoundEpochs(sys) && KeepsPromises(sys)
      && RefusesUnsent(sys, s)
    requires HasSoundProcesses(sys) && HasUnpromisedWork(sys)
    ensures HasUnpromisedWork(WithTables(sys, t'))
  {
    hide HasSoundEpochs, HasSoundProcesses, IsRowStep, MayDelete, TransactionIDOf, KeepsPromises;
    forall p | p in sys.processes && IsAtWork(sys.processes[p].phase) && sys.processes[p].phase.submission < |sys.log|
      ensures Promise(sys.processes[p].loginID, sys.log[sys.processes[p].phase.submission].epoch,
        sys.processes[p].eventID) !in WithTables(sys, t').promises
    {
      var process := sys.processes[p];
      forall k | k in t'.sends && t'.sends[k].state == NotSubmitted
        ensures Promise(process.loginID, sys.log[process.phase.submission].epoch,
          process.eventID) != Promise(k.loginID, sys.Epoch(k.loginID), t'.sends[k].eventID)
      {
        NoPromiseOfWork(sys, t', s, p, k);
      }
    }
  }

  lemma NoPromiseOfWork(sys: System, t': Tables, s: Statement, p: ProcessID, k: Key)
    requires IsPlainStep(sys.tables, t', s, sys.nowTS) && HasSoundEpochs(sys) && KeepsPromises(sys)
      && RefusesUnsent(sys, s)
    requires HasSoundProcesses(sys) && HasUnpromisedWork(sys)
    requires p in sys.processes && IsAtWork(sys.processes[p].phase) && sys.processes[p].phase.submission < |sys.log|
    requires k in t'.sends && t'.sends[k].state == NotSubmitted
    ensures Promise(sys.processes[p].loginID, sys.log[sys.processes[p].phase.submission].epoch,
      sys.processes[p].eventID)
         != Promise(k.loginID, sys.Epoch(k.loginID), t'.sends[k].eventID)
  {
    var process, i := sys.processes[p], sys.processes[p].phase.submission;
    assert k in sys.tables.sends && IsRowStep(k, sys.tables.sends[k], t'.sends[k], s, sys.nowTS);
    var r := sys.tables.sends[k];
    assert r.eventID == t'.sends[k].eventID;
    PlainStepIsGood(sys.tables, t', s, sys.nowTS);
    assert IsSoundProcess(sys, p);
    hide IsPlainStep, IsGood, HasSoundEpochs;
    if r.state == NotSubmitted {
      assert Promise(k.loginID, sys.Epoch(k.loginID), r.eventID) in sys.promises;
    } else if r.state == Prepared {
      PreparedIsUnsent(sys, k);
      assert sys.IsLive(i) ==> sys.log[i].eventID != r.eventID;
    }
  }

  lemma LogIsKept(sys: System, t': Tables)
    requires SubmitsOnce(sys) && SendsSafely(sys) && HasOrderedEpochs(sys)
    ensures SubmitsOnce(WithTables(sys, t')) && SendsSafely(WithTables(sys, t'))
      && HasOrderedEpochs(WithTables(sys, t'))
  {
    var after := WithTables(sys, t');
    assert forall i | 0 <= i < |sys.log| :: after.IsLive(i) == sys.IsLive(i);
  }

  lemma PlainStepKeepsSound(sys: System, t': Tables, s: Statement)
    requires IsSound(sys) && !s.Submit? && RefusesUnsent(sys, s)
    requires IsPlainStep(sys.tables, t', s, sys.nowTS)
    ensures IsSound(WithTables(sys, t'))
  {
    hide IsTableStep, IsGood, HasSoundEpochs, HasSoundProcesses, HasUnpromisedWork, KeepsPromises,
      SubmittingRowsAreLogged, HasOrderedEpochs, SubmitsOnce, SendsSafely, RefusesUnsent, PromisesOf;
    EpochsAreKept(sys, t', s);
    LoggedIsKept(sys, t', s);
    ProcessesAreKept(sys, t');
    PromisesAreKept(sys, t', s);
    WorkStaysUnpromised(sys, t', s);
    LogIsKept(sys, t');
  }

  lemma StatementKeepsSound(sys: System, s: Statement)
    requires IsSound(sys) && !s.Submit? && RefusesUnsent(sys, s)
    ensures IsSound(ExecuteIn(sys, s))
  {
    hide IsTableStep, IsGood, HasSoundEpochs, HasSoundProcesses, HasUnpromisedWork, KeepsPromises,
      SubmittingRowsAreLogged, HasOrderedEpochs, SubmitsOnce, SendsSafely, RefusesUnsent, PromisesOf, Execute,
      HasCallerArguments;
    if HasCallerArguments(sys.tables, s, sys.nowTS) && Execute(sys.tables, s, sys.nowTS).Changed? {
      StatementKeepsGood(sys.tables, s, sys.nowTS);
      StatementIsStep(sys.tables, s, sys.nowTS);
      PlainStepKeepsSound(sys, Execute(sys.tables, s, sys.nowTS).tables, s);
    }
  }

  // ---- Submitting ----

  function Submitted(sys: System, p: ProcessID): System
    requires p in sys.processes
  {
    var process := sys.processes[p];
    WithPhase(
      sys.(log := sys.log + [Submission(process.loginID, sys.Epoch(process.loginID), process.eventID, [])]),
      p, Ready(|sys.log|))
  }

  // The event of the process was neither submitted nor promised in the present life of its login.
  predicate IsUnused(sys: System, loginID: LoginID, eventID: EventID) {
    && (forall i | 0 <= i < |sys.log| && sys.IsLive(i) :: sys.log[i].eventID != eventID)
    && Promise(loginID, sys.Epoch(loginID), eventID) !in sys.promises
  }

  lemma SubmittedKeepsEpochs(sys: System, p: ProcessID)
    requires HasSoundEpochs(sys) && HasOrderedEpochs(sys) && SubmitsOnce(sys) && SendsSafely(sys)
    requires p in sys.processes && IsUnused(sys, sys.processes[p].loginID, sys.processes[p].eventID)
    requires sys.processes[p].loginID in sys.tables.logins
    requires KeyOf(sys.processes[p]) in sys.tables.sends
      && sys.tables.sends[KeyOf(sys.processes[p])].state == Submitting
    ensures HasSoundEpochs(Submitted(sys, p)) && HasOrderedEpochs(Submitted(sys, p))
    ensures SubmitsOnce(Submitted(sys, p)) && SendsSafely(Submitted(sys, p))
  {
    var after := Submitted(sys, p);
    assert forall i | 0 <= i < |sys.log| :: after.log[i] == sys.log[i] && after.IsLive(i) == sys.IsLive(i);
  }

  lemma SubmittedKeepsProcesses(sys: System, p: ProcessID)
    requires HasSoundProcesses(sys) && p in sys.processes && sys.processes[p].phase == Holding
    ensures HasSoundProcesses(Submitted(sys, p))
  {
    var after := Submitted(sys, p);
    assert IsSoundProcess(sys, p);
    forall q | q in after.processes ensures IsSoundProcess(after, q) {
      assert IsSoundProcess(sys, q);
    }
  }

  lemma SubmittedKeepsPromises(sys: System, p: ProcessID)
    requires KeepsPromises(sys) && HasSoundProcesses(sys) && p in sys.processes && sys.processes[p].phase == Holding
    requires IsUnused(sys, sys.processes[p].loginID, sys.processes[p].eventID)
    ensures KeepsPromises(Submitted(sys, p))
  {
    var after := Submitted(sys, p);
    forall pr | pr in sys.promises ensures IsUnsent(after, pr.loginID, pr.epoch, pr.eventID) {
      assert IsUnsent(sys, pr.loginID, pr.epoch, pr.eventID);
    }
  }

  lemma SubmittedKeepsUnpromised(sys: System, p: ProcessID)
    requires HasUnpromisedWork(sys) && HasSoundProcesses(sys) && p in sys.processes
    requires IsUnused(sys, sys.processes[p].loginID, sys.processes[p].eventID)
    ensures HasUnpromisedWork(Submitted(sys, p))
  {
    assert forall q <- sys.processes.Keys :: IsSoundProcess(sys, q);
  }

  lemma SubmittedIsLogged(sys: System, before: System, p: ProcessID, s: Statement)
    requires SubmittingRowsAreLogged(before) && sys == WithTables(before, sys.tables)
    requires IsTableStep(before.tables, sys.tables, s, sys.nowTS) && s.Submit?
    requires p in sys.processes && s.key == KeyOf(sys.processes[p])
    requires s.key in sys.tables.sends && sys.tables.sends[s.key].loginID == sys.processes[p].loginID
      && sys.tables.sends[s.key].eventID == sys.processes[p].eventID
    ensures SubmittingRowsAreLogged(Submitted(sys, p))
  {
    var after := Submitted(sys, p);
    forall k | k in sys.tables.sends && sys.tables.sends[k].state == Submitting
      ensures HasSubmission(after, sys.tables.sends[k]) {
      if k == s.key {
        assert after.IsLive(|sys.log|);
      } else {
        assert k in before.tables.sends && IsRowStep(k, before.tables.sends[k], sys.tables.sends[k], s, sys.nowTS);
        var i :| 0 <= i < |sys.log| && before.IsLive(i) && sys.log[i].loginID == sys.tables.sends[k].loginID
          && sys.log[i].eventID == sys.tables.sends[k].eventID;
        assert after.IsLive(i);
      }
    }
  }

  // What the statement itself did.
  lemma SubmitMovesRow(sys: System, p: ProcessID, s: Statement)
    requires IsSound(sys) && p in sys.processes && s.Submit? && s.key == KeyOf(sys.processes[p])
    requires HasCallerArguments(sys.tables, s, sys.nowTS) && Execute(sys.tables, s, sys.nowTS).Changed?
    ensures IsUnused(sys, sys.processes[p].loginID, sys.processes[p].eventID)
    ensures s.key in sys.tables.sends && sys.tables.sends[s.key].state == Prepared
    ensures var t' := Execute(sys.tables, s, sys.nowTS).tables;
            && t'.logins == sys.tables.logins && s.key.loginID in t'.logins && s.key in t'.sends
            && t'.sends[s.key].state == Submitting
            && t'.sends[s.key].loginID == sys.processes[p].loginID
            && t'.sends[s.key].eventID == sys.processes[p].eventID
            && PromisesOf(sys, t') <= PromisesOf(sys, sys.tables)
  {
    hide Fits;
    var r, process := sys.tables.sends[s.key], sys.processes[p];
    assert IsGoodRow(r, sys.nowTS) && !r.IsTerminal() && r.eventID !in sys.tables.receipts;
    TransactionIDsDiffer(process.loginID, r.eventID, process.eventID);
    PreparedIsUnsent(sys, s.key);
    assert Promise(process.loginID, sys.Epoch(process.loginID), process.eventID) in sys.promises ==>
      process.eventID in sys.tables.receipts;
  }

  lemma UnusedAfterStatement(sys: System, t': Tables, loginID: LoginID, eventID: EventID)
    requires IsUnused(sys, loginID, eventID)
    requires PromisesOf(sys, t') <= PromisesOf(sys, sys.tables) && PromisesOf(sys, sys.tables) <= sys.promises
    ensures IsUnused(WithTables(sys, t'), loginID, eventID)
  {
    assert forall i | 0 <= i < |sys.log| :: WithTables(sys, t').IsLive(i) == sys.IsLive(i);
  }

  lemma SubmitKeepsSound(sys: System, p: ProcessID, s: Statement)
    requires IsSound(sys) && p in sys.processes && sys.processes[p].phase == Holding
    requires s.Submit? && s.key == KeyOf(sys.processes[p])
    ensures IsSound(AfterSubmit(sys, p, s))
  {
    hide IsTableStep, IsGood, HasSoundEpochs, HasSoundProcesses, SubmittingRowsAreLogged, HasOrderedEpochs,
      SubmitsOnce, SendsSafely, PromisesOf, Execute, HasCallerArguments, IsUnused, KeepsPromises, HasUnpromisedWork;
    if HasCallerArguments(sys.tables, s, sys.nowTS) && Execute(sys.tables, s, sys.nowTS).Changed? {
      SubmitMovesRow(sys, p, s);
      StatementKeepsGood(sys.tables, s, sys.nowTS);
      StatementIsStep(sys.tables, s, sys.nowTS);
      var t' := Execute(sys.tables, s, sys.nowTS).tables;
      var mid := WithTables(sys, t');
      EpochsAreKept(sys, t', s);
      ProcessesAreKept(sys, t');
      PromisesAreKept(sys, t', s);
      WorkStaysUnpromised(sys, t', s);
      LogIsKept(sys, t');
      PromisesAreMade(sys);
      UnusedAfterStatement(sys, t', sys.processes[p].loginID, sys.processes[p].eventID);
      SubmittedKeepsEpochs(mid, p);
      SubmittedKeepsProcesses(mid, p);
      SubmittedKeepsPromises(mid, p);
      SubmittedKeepsUnpromised(mid, p);
      SubmittedIsLogged(mid, sys, p, s);
      assert AfterSubmit(sys, p, s) == Submitted(mid, p);
    }
  }

  lemma PromisesAreMade(sys: System)
    requires KeepsPromises(sys)
    ensures PromisesOf(sys, sys.tables) <= sys.promises
  {
  }

  // ---- Replies and refusals ----

  // The row that a refused sender finds submitting belongs to its own submission.
  lemma RefusedIsUnsent(sys: System, p: ProcessID, s: Statement)
    requires IsSound(sys) && p in sys.processes && sys.processes[p].phase.Refused?
    requires s.RejectSubmitting? && s.key == KeyOf(sys.processes[p])
    ensures RefusesUnsent(sys, s)
  {
    hide SchemaAccepts, ScanAccepts, HasUniqueEvents, HasUniqueRemotes, HasReceiptsOfTerminalRows, IsRemembered,
      KeepsPromises;
    if s.key in sys.tables.sends && sys.tables.sends[s.key].state == Submitting {
      var process, r := sys.processes[p], sys.tables.sends[s.key];
      var sub := process.phase.submission;
      assert IsSoundProcess(sys, p) && IsGoodRow(r, sys.nowTS);
      TransactionIDsDiffer(process.loginID, r.eventID, process.eventID);
      assert HasSubmission(sys, r);
      var i :| 0 <= i < |sys.log| && sys.IsLive(i) && sys.log[i].loginID == r.loginID
        && sys.log[i].eventID == r.eventID;
      assert i == sub;
      forall j | 0 <= j < |sys.log| && sys.log[j].loginID == process.loginID
        && sys.log[j].epoch == sys.Epoch(process.loginID) && sys.log[j].eventID == r.eventID
        ensures j == sub
      {
        assert sys.IsLive(j);
      }
    }
    forall q | q in sys.processes && sys.processes[q].loginID == s.key.loginID ensures q == p {
      assert IsSoundProcess(sys, p) && IsSoundProcess(sys, q);
    }
  }

  // The phase fits the requests as they are, and takes up no work.
  predicate IsNextPhase(sys: System, p: ProcessID, next: Phase) {
    && p in sys.processes
    && (!next.Holding? ==>
          && WorksOn(sys, p, next.submission) && FitsPhase(next, sys.log[next.submission].requests)
          && (IsAtWork(next) ==> IsAtWork(sys.processes[p].phase)))
  }

  lemma PhaseKeepsSound(sys: System, p: ProcessID, next: Phase)
    requires IsSound(sys) && IsNextPhase(sys, p, next)
    ensures IsSound(WithPhase(sys, p, next))
  {
    hide IsGood, HasSoundEpochs, SubmittingRowsAreLogged, SubmitsOnce, SendsSafely, HasOrderedEpochs, KeepsPromises;
    PhaseKeepsProcesses(sys, p, next);
    SameButProcesses(sys, WithPhase(sys, p, next));
  }

  lemma SameButProcesses(sys: System, after: System)
    requires IsSound(sys) && after == sys.(processes := after.processes, locks := after.locks)
    requires HasSoundProcesses(after) && HasUnpromisedWork(after)
    ensures IsSound(after)
  {
    SameLog(sys, after);
    SamePromises(sys, after);
    hide IsGood, HasSoundEpochs, HasSoundProcesses, HasUnpromisedWork, KeepsPromises, SubmittingRowsAreLogged,
      SubmitsOnce, SendsSafely, HasOrderedEpochs;
  }

  lemma SamePromises(sys: System, after: System)
    requires after == sys.(processes := after.processes, locks := after.locks) && KeepsPromises(sys)
    ensures KeepsPromises(after)
  {
    hide IsClosed;
    forall pr | pr in sys.promises ensures IsUnsent(after, pr.loginID, pr.epoch, pr.eventID) {
      assert IsUnsent(sys, pr.loginID, pr.epoch, pr.eventID);
    }
  }

  lemma SameLog(sys: System, after: System)
    requires after == sys.(processes := after.processes, locks := after.locks)
    requires HasSoundEpochs(sys) && SubmitsOnce(sys) && SendsSafely(sys) && HasOrderedEpochs(sys)
      && SubmittingRowsAreLogged(sys)
    ensures HasSoundEpochs(after) && SubmitsOnce(after) && SendsSafely(after) && HasOrderedEpochs(after)
      && SubmittingRowsAreLogged(after)
  {
    assert forall i | 0 <= i < |sys.log| :: after.IsLive(i) == sys.IsLive(i);
    forall r | HasSubmission(sys, r) ensures HasSubmission(after, r) {
      var i :| 0 <= i < |sys.log| && sys.IsLive(i) && sys.log[i].loginID == r.loginID
        && sys.log[i].eventID == r.eventID;
      assert after.IsLive(i);
    }
  }

  lemma PhaseKeepsProcesses(sys: System, p: ProcessID, next: Phase)
    requires HasSoundProcesses(sys) && HasUnpromisedWork(sys) && IsNextPhase(sys, p, next)
    ensures HasSoundProcesses(WithPhase(sys, p, next)) && HasUnpromisedWork(WithPhase(sys, p, next))
  {
    var after := WithPhase(sys, p, next);
    forall q | q in after.processes ensures IsSoundProcess(after, q) {
      assert IsSoundProcess(sys, q);
    }
  }

  // ---- Requests ----

  // Only the sender that works on a submission works for its login.
  lemma OnlyWorker(sys: System, p: ProcessID, q: ProcessID, i: nat)
    requires HasSoundProcesses(sys) && WorksOn(sys, p, i) && WorksOn(sys, q, i)
    ensures p == q
  {
    assert IsSoundProcess(sys, p) && IsSoundProcess(sys, q);
  }

  lemma RequestsKeepLog(sys: System, i: nat, requests: seq<Request>)
    requires i < |sys.log| && IsSafelySent(requests)
    requires HasSoundEpochs(sys) && SubmitsOnce(sys) && SendsSafely(sys) && HasOrderedEpochs(sys)
      && SubmittingRowsAreLogged(sys)
    ensures var after := WithRequests(sys, i, requests);
            HasSoundEpochs(after) && SubmitsOnce(after) && SendsSafely(after) && HasOrderedEpochs(after)
              && SubmittingRowsAreLogged(after)
  {
    hide IsRemembered, IsSafelySent;
    var after := WithRequests(sys, i, requests);
    forall j | 0 <= j < |sys.log|
      ensures after.IsLive(j) == sys.IsLive(j)
        && IsRemembered(sys.tables, sys.log[j]) == IsRemembered(sys.tables, after.log[j])
    {
      SameMemory(sys.tables, sys.log[j], after.log[j]);
    }
    forall r | HasSubmission(sys, r) ensures HasSubmission(after, r) {
      var j :| 0 <= j < |sys.log| && sys.IsLive(j) && sys.log[j].loginID == r.loginID
        && sys.log[j].eventID == r.eventID;
      assert after.IsLive(j);
    }
  }

  lemma SameMemory(t: Tables, a: Submission, b: Submission)
    requires a.loginID == b.loginID && a.eventID == b.eventID
    ensures IsRemembered(t, a) == IsRemembered(t, b)
  {
  }

  predicate IsPromised(sys: System, i: nat)
    requires i < |sys.log|
  {
    Promise(sys.log[i].loginID, sys.log[i].epoch, sys.log[i].eventID) in sys.promises
  }

  lemma RequestsKeepPromises(sys: System, i: nat, requests: seq<Request>)
    requires KeepsPromises(sys) && i < |sys.log| && (IsPromised(sys, i) ==> IsClosed(requests))
    ensures KeepsPromises(WithRequests(sys, i, requests))
  {
    hide IsClosed;
    var after := WithRequests(sys, i, requests);
    forall pr | pr in sys.promises ensures IsUnsent(after, pr.loginID, pr.epoch, pr.eventID) {
      assert IsUnsent(sys, pr.loginID, pr.epoch, pr.eventID);
    }
  }

  // The requests of one submission change, and with them the phase of the sender that works on it.
  lemma WorkKeepsSound(sys: System, p: ProcessID, i: nat, requests: seq<Request>, next: Phase)
    requires IsSound(sys) && WorksOn(sys, p, i) && IsAtWork(sys.processes[p].phase)
    requires IsSafelySent(requests) && !next.Holding? && next.submission == i && FitsPhase(next, requests)
    ensures IsSound(WithPhase(WithRequests(sys, i, requests), p, next))
  {
    WorkIsUnpromised(sys, p, i);
    hide IsGood, HasSoundEpochs, HasSoundProcesses, HasUnpromisedWork, KeepsPromises, SubmittingRowsAreLogged,
      SubmitsOnce, SendsSafely, HasOrderedEpochs, IsSafelySent, FitsPhase, IsPromised;
    var mid := WithRequests(sys, i, requests);
    RequestsKeepLog(sys, i, requests);
    RequestsKeepPromises(sys, i, requests);
    WorkKeepsProcesses(sys, p, i, requests, next);
    SameLog(mid, WithPhase(mid, p, next));
    SamePromises(mid, WithPhase(mid, p, next));
  }

  lemma WorkIsUnpromised(sys: System, p: ProcessID, i: nat)
    requires HasSoundProcesses(sys) && HasUnpromisedWork(sys) && WorksOn(sys, p, i) && IsAtWork(sys.processes[p].phase)
    ensures !IsPromised(sys, i)
  {
    assert IsSoundProcess(sys, p);
  }

  lemma WorkKeepsProcesses(sys: System, p: ProcessID, i: nat, requests: seq<Request>, next: Phase)
    requires HasSoundProcesses(sys) && HasUnpromisedWork(sys) && WorksOn(sys, p, i) && IsAtWork(sys.processes[p].phase)
    requires !next.Holding? && next.submission == i && FitsPhase(next, requests)
    ensures HasSoundProcesses(WithPhase(WithRequests(sys, i, requests), p, next))
    ensures HasUnpromisedWork(WithPhase(WithRequests(sys, i, requests), p, next))
  {
    hide FitsPhase;
    var after := WithPhase(WithRequests(sys, i, requests), p, next);
    forall q | q in after.processes ensures IsSoundProcess(after, q) {
      assert IsSoundProcess(sys, q) && IsSoundProcess(sys, p);
      if WorksOn(sys, q, i) {
        OnlyWorker(sys, p, q, i);
      }
    }
  }

  lemma PostKeepsSound(sys: System, p: ProcessID)
    requires IsSound(sys) && MayPost(sys, p)
    ensures IsSound(Posted(sys, p, sys.processes[p].phase.submission))
  {
    var i := sys.processes[p].phase.submission;
    assert IsSoundProcess(sys, p);
    hide IsSound;
    WorkKeepsSound(sys, p, i, sys.log[i].requests + [Open], Sending(i, |sys.log[i].requests|));
  }

  // A request that is accepted was the only one of its submission that could be.
  lemma AcceptKeepsSound(sys: System, i: nat, request: nat)
    requires IsSound(sys) && IsOpen(sys, i, request)
    ensures IsSound(WithRequests(sys, i, sys.log[i].requests[request := Accepted]))
  {
    var requests := sys.log[i].requests[request := Accepted];
    var after := WithRequests(sys, i, requests);
    assert IsSafelySent(sys.log[i].requests);
    assert IsSafelySent(requests);
    hide IsSafelySent, IsGood, HasSoundEpochs, SubmittingRowsAreLogged, SubmitsOnce, SendsSafely, HasOrderedEpochs,
      KeepsPromises, HasSoundProcesses, HasUnpromisedWork;
    OpenIsUnpromised(sys, i, request);
    RequestsKeepLog(sys, i, requests);
    RequestsKeepPromises(sys, i, requests);
    AcceptKeepsProcesses(sys, i, request);
  }

  lemma AcceptKeepsProcesses(sys: System, i: nat, request: nat)
    requires HasSoundProcesses(sys) && HasUnpromisedWork(sys) && IsOpen(sys, i, request)
    ensures HasSoundProcesses(WithRequests(sys, i, sys.log[i].requests[request := Accepted]))
    ensures HasUnpromisedWork(WithRequests(sys, i, sys.log[i].requests[request := Accepted]))
  {
    var after := WithRequests(sys, i, sys.log[i].requests[request := Accepted]);
    forall q | q in after.processes ensures IsSoundProcess(after, q) {
      assert IsSoundProcess(sys, q);
    }
  }

  lemma OpenIsUnpromised(sys: System, i: nat, request: nat)
    requires KeepsPromises(sys) && IsOpen(sys, i, request)
    ensures !IsPromised(sys, i)
  {
    var s := sys.log[i];
    assert IsPromised(sys, i) ==> IsUnsent(sys, s.loginID, s.epoch, s.eventID);
  }

  lemma ReplyKeepsSound(sys: System, p: ProcessID, reply: Reply)
    requires IsSound(sys) && MayReceive(sys, p, reply)
    ensures IsSound(AfterReply(sys, p, sys.processes[p].phase.submission, sys.processes[p].phase.request, reply))
  {
    var i, request := sys.processes[p].phase.submission, sys.processes[p].phase.request;
    assert IsSoundProcess(sys, p) && IsSafelySent(sys.log[i].requests);
    hide IsSound;
    match reply
    case Other => PhaseKeepsSound(sys, p, Holding);
    case Refusal(forCredentials) =>
      WorkKeepsSound(sys, p, i, sys.log[i].requests[request := Closed], if forCredentials && request == 0
        then Renewing(i) else Refused(i));
  }

  // Without credentials, fresh or renewed, the sender gives up before it posts.
  lemma FailKeepsSound(sys: System, p: ProcessID)
    requires IsSound(sys) && MayPost(sys, p)
    ensures IsSound(WithPhase(sys, p, Refused(sys.processes[p].phase.submission)))
  {
    assert IsSoundProcess(sys, p);
    hide IsSound;
    PhaseKeepsSound(sys, p, Refused(sys.processes[p].phase.submission));
  }

  lemma RefusalKeepsSound(sys: System, p: ProcessID, s: Statement)
    requires IsSound(sys) && p in sys.processes && sys.processes[p].phase.Refused?
    requires s.RejectSubmitting? && s.key == KeyOf(sys.processes[p])
    ensures IsSound(WithPhase(ExecuteIn(sys, s), p, Holding))
  {
    hide IsSound;
    RefusedIsUnsent(sys, p, s);
    StatementKeepsSound(sys, s);
    PhaseKeepsSound(ExecuteIn(sys, s), p, Holding);
  }

  // ---- Surroundings ----

  lemma TickKeepsSound(sys: System, laterTS: int)
    requires IsSound(sys) && sys.nowTS <= laterTS < COMPLETED_RECEIPT_TS
    ensures IsSound(sys.(nowTS := laterTS))
  {
    var after := sys.(nowTS := laterTS);
    GoodLater(sys.tables, sys.nowTS, laterTS);
    SameTables(sys, after);
  }

  // The clock and what the rows do not look at may change freely, and logins may be created.
  lemma SameTables(sys: System, after: System)
    requires IsSound(sys) && after == sys.(nowTS := after.nowTS, tables := after.tables)
    requires after.tables == sys.tables.(logins := after.tables.logins, mappings := after.tables.mappings,
      portalRooms := after.tables.portalRooms)
    requires sys.tables.logins <= after.tables.logins && 0 < after.nowTS < COMPLETED_RECEIPT_TS
      && IsGood(after.tables, after.nowTS)
    ensures IsSound(after)
  {
    hide IsGood;
    assert forall i | 0 <= i < |sys.log| :: after.IsLive(i) == sys.IsLive(i);
    SameTablesLog(sys, after);
    SameTablesPromises(sys, after);
    ProcessesAreSame(sys, after);
    hide HasSoundEpochs, HasSoundProcesses, HasUnpromisedWork, SubmittingRowsAreLogged, SubmitsOnce, SendsSafely,
      HasOrderedEpochs, KeepsPromises;
  }

  lemma ProcessesAreSame(sys: System, after: System)
    requires HasSoundProcesses(sys) && after.log == sys.log && after.processes == sys.processes
      && after.locks == sys.locks
    requires HasUnpromisedWork(sys) && after.promises == sys.promises
    ensures HasSoundProcesses(after) && HasUnpromisedWork(after)
  {
    forall p | p in sys.processes ensures IsSoundProcess(after, p) {
      assert IsSoundProcess(sys, p);
    }
  }

  lemma SameTablesLog(sys: System, after: System)
    requires after == sys.(nowTS := after.nowTS, tables := after.tables)
    requires after.tables.sends == sys.tables.sends && after.tables.receipts == sys.tables.receipts
    requires sys.tables.logins <= after.tables.logins
    requires HasSoundEpochs(sys) && SubmitsOnce(sys) && SendsSafely(sys) && HasOrderedEpochs(sys)
      && SubmittingRowsAreLogged(sys)
    ensures HasSoundEpochs(after) && SubmitsOnce(after) && SendsSafely(after) && HasOrderedEpochs(after)
      && SubmittingRowsAreLogged(after)
  {
    assert forall i | 0 <= i < |sys.log| :: after.IsLive(i) == sys.IsLive(i);
    forall r | HasSubmission(sys, r) ensures HasSubmission(after, r) {
      var j :| 0 <= j < |sys.log| && sys.IsLive(j) && sys.log[j].loginID == r.loginID
        && sys.log[j].eventID == r.eventID;
      assert after.IsLive(j);
    }
  }

  lemma SameTablesPromises(sys: System, after: System)
    requires after == sys.(nowTS := after.nowTS, tables := after.tables)
    requires after.tables.sends == sys.tables.sends && after.tables.receipts == sys.tables.receipts
    requires KeepsPromises(sys)
    ensures KeepsPromises(after)
  {
    forall pr | pr in sys.promises ensures IsUnsent(after, pr.loginID, pr.epoch, pr.eventID) {
      assert IsUnsent(sys, pr.loginID, pr.epoch, pr.eventID);
    }
  }

  lemma SurroundingsAreGood(t: Tables, logins: set<LoginID>, mappings: set<Mapping>,
    portalRooms: map<PortalKey, RoomID>, nowTS: int)
    requires IsGood(t, nowTS) && t.logins <= logins
    ensures IsGood(t.(logins := logins, mappings := mappings, portalRooms := portalRooms), nowTS)
  {
    hide IsGoodRow;
  }

  function LoginDeleted(sys: System, loginID: LoginID): System {
    sys.(tables := WithoutLogin(sys.tables, loginID), epochs := sys.epochs[loginID := sys.Epoch(loginID) + 1])
  }

  lemma WithoutLoginIsGood(t: Tables, loginID: LoginID, nowTS: int)
    requires IsGood(t, nowTS)
    ensures IsGood(WithoutLogin(t, loginID), nowTS)
  {
    hide SchemaAccepts, ScanAccepts;
  }

  // Deleting a login ends the life of its submissions and promises.
  lemma DeletedKeepsLog(sys: System, loginID: LoginID)
    requires HasSoundEpochs(sys) && SubmitsOnce(sys) && SendsSafely(sys) && HasOrderedEpochs(sys)
    ensures HasSoundEpochs(LoginDeleted(sys, loginID)) && SubmitsOnce(LoginDeleted(sys, loginID))
    ensures SendsSafely(LoginDeleted(sys, loginID)) && HasOrderedEpochs(LoginDeleted(sys, loginID))
  {
    var after := LoginDeleted(sys, loginID);
    assert forall i | 0 <= i < |sys.log| :: after.IsLive(i) <==> sys.IsLive(i) && sys.log[i].loginID != loginID;
  }

  lemma DeletedIsLogged(sys: System, loginID: LoginID)
    requires SubmittingRowsAreLogged(sys) && IsKeyed(sys.tables)
    ensures SubmittingRowsAreLogged(LoginDeleted(sys, loginID))
  {
    var after := LoginDeleted(sys, loginID);
    forall k | k in after.tables.sends && after.tables.sends[k].state == Submitting
      ensures HasSubmission(after, after.tables.sends[k]) {
      var r := sys.tables.sends[k];
      assert HasSubmission(sys, r);
      var j :| 0 <= j < |sys.log| && sys.IsLive(j) && sys.log[j].loginID == r.loginID
        && sys.log[j].eventID == r.eventID;
      assert after.IsLive(j);
    }
  }

  lemma DeletedKeepsPromises(sys: System, loginID: LoginID)
    requires KeepsPromises(sys)
    ensures KeepsPromises(LoginDeleted(sys, loginID))
  {
    var after := LoginDeleted(sys, loginID);
    forall pr | pr in sys.promises ensures IsUnsent(after, pr.loginID, pr.epoch, pr.eventID) {
      assert IsUnsent(sys, pr.loginID, pr.epoch, pr.eventID);
    }
  }

  lemma DeleteLoginKeepsSound(sys: System, loginID: LoginID)
    requires IsSound(sys)
    ensures IsSound(LoginDeleted(sys, loginID))
  {
    WithoutLoginIsGood(sys.tables, loginID, sys.nowTS);
    DeletedKeepsLog(sys, loginID);
    DeletedIsLogged(sys, loginID);
    DeletedKeepsPromises(sys, loginID);
    ProcessesAreSame(sys, LoginDeleted(sys, loginID));
    hide IsGood, HasSoundEpochs, HasSoundProcesses, HasUnpromisedWork, SubmittingRowsAreLogged, SubmitsOnce,
      SendsSafely, HasOrderedEpochs, KeepsPromises;
  }

  lemma AcquireKeepsSound(sys: System, p: ProcessID, loginID: LoginID, eventID: EventID)
    requires IsSound(sys) && p !in sys.processes && loginID !in sys.locks
    ensures IsSound(sys.(processes := sys.processes[p := Process(loginID, eventID, Holding)],
      locks := sys.locks[loginID := p]))
  {
    var after := sys.(processes := sys.processes[p := Process(loginID, eventID, Holding)],
      locks := sys.locks[loginID := p]);
    forall q | q in after.processes ensures IsSoundProcess(after, q) {
      assert q != p ==> IsSoundProcess(sys, q);
    }
    SameButProcesses(sys, after);
  }

  lemma StopKeepsSound(sys: System, p: ProcessID)
    requires IsSound(sys)
    ensures IsSound(Stopped(sys, p))
  {
    var after := Stopped(sys, p);
    forall q | q in after.processes ensures IsSoundProcess(after, q) {
      assert IsSoundProcess(sys, q);
    }
    SameButProcesses(sys, after);
  }

  // ---- Whole runs ----

  lemma ApplyKeepsSound(sys: System, step: Step)
    requires IsSound(sys)
    ensures IsSound(Apply(sys, step))
  {
    hide IsSound, ExecuteIn, AfterSubmit, AfterReply, Posted, WithoutLogin, Stopped;
    match step
    case Tick(laterTS) => if sys.nowTS <= laterTS < COMPLETED_RECEIPT_TS { TickKeepsSound(sys, laterTS); }
    case Run(s) =>
      if !s.Submit? && !s.RejectSubmitting? {
        StatementKeepsSound(sys, s);
      }
    case ChangeSurroundings(mappings, portalRooms) =>
      SurroundingsKeepSound(sys, sys.tables.logins, mappings, portalRooms);
    case CreateLogin(loginID) =>
      SurroundingsKeepSound(sys, sys.tables.logins + {loginID}, sys.tables.mappings, sys.tables.portalRooms);
    case DeleteLogin(loginID) => DeleteLoginKeepsSound(sys, loginID);
    case Acquire(p, loginID, eventID) =>
      if p !in sys.processes && loginID !in sys.locks {
        AcquireKeepsSound(sys, p, loginID, eventID);
      }
    case BeginSubmit(p, baseline, startedTS, nextTS) =>
      if p in sys.processes && sys.processes[p].phase == Holding {
        SubmitKeepsSound(sys, p, Submit(KeyOf(sys.processes[p]), baseline, startedTS, nextTS));
      }
    case Post(p) =>
      if MayPost(sys, p) {
        PostKeepsSound(sys, p);
      }
    case Accept(i, request) =>
      if IsOpen(sys, i, request) {
        AcceptKeepsSound(sys, i, request);
      }
    case Receive(p, reply) =>
      if MayReceive(sys, p, reply) {
        ReplyKeepsSound(sys, p, reply);
      }
    case FailUnsent(p) =>
      if MayPost(sys, p) {
        FailKeepsSound(sys, p);
      }
    case RecordRefusal(p, terminalTS, nextTS) =>
      if p in sys.processes && sys.processes[p].phase.Refused? {
        RefusalKeepsSound(sys, p, RejectSubmitting(KeyOf(sys.processes[p]), terminalTS, nextTS));
      }
    case Stop(p) => StopKeepsSound(sys, p);
  }

  lemma SurroundingsKeepSound(sys: System, logins: set<LoginID>, mappings: set<Mapping>,
    portalRooms: map<PortalKey, RoomID>)
    requires IsSound(sys) && sys.tables.logins <= logins
    ensures IsSound(sys.(tables := sys.tables.(logins := logins, mappings := mappings, portalRooms := portalRooms)))
  {
    var t := sys.tables.(logins := logins, mappings := mappings, portalRooms := portalRooms);
    SurroundingsAreGood(sys.tables, logins, mappings, portalRooms, sys.nowTS);
    SameTables(sys, sys.(tables := t));
  }

  lemma {:induction false} RunKeepsSound(sys: System, steps: seq<Step>)
    requires IsSound(sys)
    ensures IsSound(RunAll(sys, steps))
  {
    hide IsSound, Apply;
    if steps != [] {
      RunKeepsSound(sys, steps[..|steps| - 1]);
      ApplyKeepsSound(RunAll(sys, steps[..|steps| - 1]), steps[|steps| - 1]);
    }
  }
}
