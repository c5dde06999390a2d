/**
 The durable sync jobs of one login: the revision-guarded table of pkg/connector/tumblrdb/job.go, and
 the worker of pkg/connector/inbound_sync.go that reads a row, works without holding it, and
 acknowledges exactly the revision that it read. Evidence is whatever calls for a new run: a live
 message, a missing list entry, a room to delete.
 */
module ConversationJobs {
  import opened Wrappers

  type ConversationID = string

  datatype Job = Job(revision: nat, attemptCount: nat, nextTS: int, errorCode: string, deleteRoomID: string,
    createdTS: int, updatedTS: int)

  type Jobs = map<ConversationID, Job>

  // ---- Statements ----

  function NewJob(nextTS: int, roomID: string, nowTS: int): Job {
    Job(1, 0, nextTS, "", roomID, nowTS, nowTS)
  }

  function Ensured(jobs: Jobs, id: ConversationID, nowTS: int): Jobs {
    if id in jobs then jobs else jobs[id := NewJob(0, "", nowTS)]
  }

  function Superseded(job: Job, nextTS: int, roomID: string, nowTS: int): Job {
    job.(revision := job.revision + 1, attemptCount := 0, nextTS := nextTS, errorCode := "", deleteRoomID := roomID,
      updatedTS := nowTS)
  }

  datatype Evidence = Missing | Live | RoomDeletion(roomID: string, nextTS: int)

  // New evidence wakes the job and supersedes whoever has read it; live evidence also cancels a deletion.
  function WithEvidence(jobs: Jobs, id: ConversationID, e: Evidence, nowTS: int): Jobs {
    var nextTS := if e.RoomDeletion? then e.nextTS else 0;
    if id !in jobs then jobs[id := NewJob(nextTS, if e.RoomDeletion? then e.roomID else "", nowTS)]
    else
      var roomID := match e case Missing => jobs[id].deleteRoomID case Live => "" case RoomDeletion(room, _) => room;
      jobs[id := Superseded(jobs[id], nextTS, roomID, nowTS)]
  }

  predicate HasRevision(jobs: Jobs, id: ConversationID, revision: nat) {
    id in jobs && jobs[id].revision == revision
  }

  function Retried(jobs: Jobs, id: ConversationID, revision: nat, nextTS: int, code: string, nowTS: int): Jobs {
    if !HasRevision(jobs, id, revision) then jobs
    else jobs[id := jobs[id].(revision := revision + 1, attemptCount := jobs[id].attemptCount + 1, nextTS := nextTS,
      errorCode := code, updatedTS := nowTS)]
  }

  function WithDeleteRoom(jobs: Jobs, id: ConversationID, revision: nat, roomID: string, nowTS: int): Jobs {
    if roomID == "" || !HasRevision(jobs, id, revision) then jobs
    else jobs[id := jobs[id].(deleteRoomID := roomID, updatedTS := nowTS)]
  }

  function Acknowledged(jobs: Jobs, id: ConversationID, revision: nat): Jobs {
    if HasRevision(jobs, id, revision) then jobs - {id} else jobs
  }

  predicate IsSameBut(before: Jobs, after: Jobs, id: ConversationID) {
    before - {id} == after - {id}
  }

  // Whoever has read this revision can no longer acknowledge, postpone or mark the row.
  ghost predicate IsSuperseded(jobs: Jobs, id: ConversationID, revision: nat) {
    && Acknowledged(jobs, id, revision) == jobs
    && (forall nextTS: int, code: string, nowTS: int :: Retried(jobs, id, revision, nextTS, code, nowTS) == jobs)
    && (forall roomID: string, nowTS: int :: WithDeleteRoom(jobs, id, revision, roomID, nowTS) == jobs)
  }

  /** Evidence supersedes every earlier reader of its row and leaves all other rows alone. */
  lemma EvidenceSupersedes(jobs: Jobs, id: ConversationID, e: Evidence, nowTS: int, revision: nat)
    requires id in jobs && revision <= jobs[id].revision
    ensures IsSuperseded(WithEvidence(jobs, id, e, nowTS), id, revision)
    ensures IsSameBut(jobs, WithEvidence(jobs, id, e, nowTS), id)
  {
  }

  /**
   Evidence makes the row due at once, or at the time of the deletion, and forgets its failures. Live evidence
   cancels a planned deletion, a missing list entry leaves the plan as it is, and a room to delete replaces it.
   */
  lemma EvidenceShows(jobs: Jobs, id: ConversationID, e: Evidence, nowTS: int)
    ensures var after := WithEvidence(jobs, id, e, nowTS);
            && id in after && after[id].attemptCount == 0 && after[id].errorCode == "" && after[id].updatedTS == nowTS
            && after[id].nextTS == (if e.RoomDeletion? then e.nextTS else 0)
            && after[id].revision == (if id in jobs then jobs[id].revision + 1 else 1)
            && after[id].createdTS == (if id in jobs then jobs[id].createdTS else nowTS)
            && (e.Live? ==> after[id].deleteRoomID == "")
            && (e.Missing? ==> after[id].deleteRoomID == if id in jobs then jobs[id].deleteRoomID else "")
            && (e.RoomDeletion? ==> after[id].deleteRoomID == e.roomID)
  {
  }

  /** The other statements leave each other row alone and change in their row only what is listed. */
  lemma WorkerStatementsShow(jobs: Jobs, id: ConversationID, revision: nat, nextTS: int, text: string, nowTS: int)
    ensures var retried := Retried(jobs, id, revision, nextTS, text, nowTS);
            && IsSameBut(jobs, retried, id)
            && if HasRevision(jobs, id, revision)
               then
                 && id in retried && retried[id].revision == revision + 1
                 && retried[id].attemptCount == jobs[id].attemptCount + 1 && retried[id].nextTS == nextTS
                 && retried[id].errorCode == text && retried[id].deleteRoomID == jobs[id].deleteRoomID
               else retried == jobs
    ensures var planned := WithDeleteRoom(jobs, id, revision, text, nowTS);
            && IsSameBut(jobs, planned, id)
            && if text != "" && HasRevision(jobs, id, revision)
               then
                 && id in planned && planned[id].revision == revision && planned[id].deleteRoomID == text
                 && planned[id].attemptCount == jobs[id].attemptCount && planned[id].nextTS == jobs[id].nextTS
               else planned == jobs
    ensures var ensured := Ensured(jobs, id, nowTS);
            && IsSameBut(jobs, ensured, id) && id in ensured && (id in jobs ==> ensured == jobs)
            && (id !in jobs ==>
                  ensured[id].revision == 1 && ensured[id].deleteRoomID == "" && ensured[id].nextTS == 0)
  {
  }

  class ConversationJobQuery {
    var jobs: Jobs

    constructor ()
      ensures jobs == map[]
    {
      jobs := map[];
    }

    method Get(id: ConversationID) returns (job: Option<Job>)
      ensures job == if id in jobs then Some(jobs[id]) else None
    {
      job := if id in jobs then Some(jobs[id]) else None;
    }

    method Ensure(id: ConversationID, nowTS: int)
      modifies this
      ensures jobs == Ensured(old(jobs), id, nowTS)
    {
      if id !in jobs {
        jobs := jobs[id := NewJob(0, "", nowTS)];
      }
    }

    method Put(id: ConversationID, nowTS: int) returns (revision: nat, createdTS: int)
      modifies this
      ensures jobs == WithEvidence(old(jobs), id, Missing, nowTS)
      ensures id in jobs && revision == jobs[id].revision && createdTS == jobs[id].createdTS
    {
      var job := Get(id);
      match job {
        case None => jobs := jobs[id := NewJob(0, "", nowTS)];
        case Some(found) => jobs := jobs[id := Superseded(found, 0, found.deleteRoomID, nowTS)];
      }
      return jobs[id].revision, jobs[id].createdTS;
    }

    method PutLiveConversation(id: ConversationID, nowTS: int)
      modifies this
      ensures jobs == WithEvidence(old(jobs), id, Live, nowTS)
    {
      var job := Get(id);
      match job {
        case None => jobs := jobs[id := NewJob(0, "", nowTS)];
        case Some(found) => jobs := jobs[id := Superseded(found, 0, "", nowTS)];
      }
    }

    // The cleanup is not due before the given time, and never before now.
    method ScheduleDeleteRoom(id: ConversationID, roomID: string, notBeforeTS: int, nowTS: int)
      modifies this
      ensures jobs ==
        if roomID == "" then old(jobs)
        else WithEvidence(old(jobs), id, RoomDeletion(roomID, if notBeforeTS < nowTS then nowTS else notBeforeTS),
          nowTS)
      ensures roomID != "" ==>
        && id in jobs && jobs[id].deleteRoomID == roomID && jobs[id].attemptCount == 0 && jobs[id].errorCode == ""
        && nowTS <= jobs[id].nextTS && notBeforeTS <= jobs[id].nextTS && jobs[id].nextTS in {nowTS, notBeforeTS}
        && jobs[id].revision == (if id in old(jobs) then old(jobs)[id].revision + 1 else 1)
      ensures IsSameBut(old(jobs), jobs, id)
      ensures forall revision: nat | roomID != "" && id in old(jobs) && revision <= old(jobs)[id].revision ::
        IsSuperseded(jobs, id, revision)
    {
      if roomID == "" { return; }
      var nextTS := notBeforeTS;
      if nextTS < nowTS { nextTS := nowTS; }
      var job := Get(id);
      match job {
        case None => jobs := jobs[id := NewJob(nextTS, roomID, nowTS)];
        case Some(found) => jobs := jobs[id := Superseded(found, nextTS, roomID, nowTS)];
      }
    }

    method SetDeleteRoom(id: ConversationID, revision: nat, roomID: string, nowTS: int) returns (changed: bool)
      modifies this
      ensures jobs == WithDeleteRoom(old(jobs), id, revision, roomID, nowTS)
      ensures changed <==> roomID != "" && HasRevision(old(jobs), id, revision)
    {
      if roomID == "" { return false; }
      changed := HasRevision(jobs, id, revision);
      if changed {
        jobs := jobs[id := jobs[id].(deleteRoomID := roomID, updatedTS := nowTS)];
      }
    }

    method MarkRetry(id: ConversationID, revision: nat, nextTS: int, code: string, nowTS: int) returns (changed: bool)
      modifies this
      ensures jobs == Retried(old(jobs), id, revision, nextTS, code, nowTS)
      ensures changed <==> HasRevision(old(jobs), id, revision)
    {
      changed := HasRevision(jobs, id, revision);
      if changed {
        var job := jobs[id];
        jobs := jobs[id := job.(revision := revision + 1, attemptCount := job.attemptCount + 1, nextTS := nextTS,
          errorCode := code, updatedTS := nowTS)];
      }
    }

    method Delete(id: ConversationID, revision: nat) returns (changed: bool)
      modifies this
      ensures jobs == Acknowledged(old(jobs), id, revision)
      ensures changed <==> id in old(jobs) && old(jobs)[id].revision == revision
      ensures changed ==> id !in jobs && IsSameBut(old(jobs), jobs, id)
      ensures !changed ==> jobs == old(jobs)
    {
      changed := HasRevision(jobs, id, revision);
      if changed {
        jobs := jobs - {id};
      }
    }
  }

  // ---- The worker among everybody else ----

  // The worker has read a row and later checks that it still has that revision, once it holds the
  // submission lock; the evidence known at that check is what its run acts on.
  datatype Worker = Idle | Selected(id: ConversationID, revision: nat)
    | Working(id: ConversationID, revision: nat, known: nat)

  datatype System = System(jobs: Jobs, worker: Worker, seen: map<ConversationID, nat>,
    handled: map<ConversationID, nat>)
  {
    // The pieces of evidence that arrived for a conversation, and how many of them a finished run knew.
    function Seen(id: ConversationID): nat { if id in seen then seen[id] else 0 }
    function Handled(id: ConversationID): nat { if id in handled then handled[id] else 0 }
  }

  datatype Step =
    | Arrive(id: ConversationID, evidence: Evidence, nowTS: int)
    | EnsureRow(id: ConversationID, nowTS: int)
    | Select(id: ConversationID)
    | Begin(nowTS: int)
    | PlanDeletion(roomID: string, nowTS: int)
    | Retry(nextTS: int, code: string, nowTS: int)
    | Acknowledge
    | GiveUp
    | DeleteElsewhere(id: ConversationID)

  function Apply(sys: System, step: Step): System {
    match step
    case Arrive(id, e, nowTS) =>
      sys.(jobs := WithEvidence(sys.jobs, id, e, nowTS), seen := sys.seen[id := sys.Seen(id) + 1])
    case EnsureRow(id, nowTS) => sys.(jobs := Ensured(sys.jobs, id, nowTS))
    case Select(id) => if sys.worker.Idle? && id in sys.jobs then sys.(worker := Selected(id, sys.jobs[id].revision))
      else sys
    case Begin(nowTS) =>
      if !sys.worker.Selected? then sys
      else if HasRevision(sys.jobs, sys.worker.id, sys.worker.revision) && sys.jobs[sys.worker.id].nextTS <= nowTS
      then sys.(worker := Working(sys.worker.id, sys.worker.revision, sys.Seen(sys.worker.id)))
      else sys.(worker := Idle)
    case PlanDeletion(roomID, nowTS) =>
      if sys.worker.Working?
        then sys.(jobs := WithDeleteRoom(sys.jobs, sys.worker.id, sys.worker.revision, roomID, nowTS)) else sys
    case Retry(nextTS, code, nowTS) =>
      if sys.worker.Working?
      then sys.(jobs := Retried(sys.jobs, sys.worker.id, sys.worker.revision, nextTS, code, nowTS), worker := Idle)
      else sys
    case Acknowledge => if sys.worker.Working? then Finished(sys) else sys
    case GiveUp => sys.(worker := Idle)
    case DeleteElsewhere(id) => sys.(jobs := sys.jobs - {id}, handled := sys.handled[id := sys.Seen(id)])
  }

  function Finished(sys: System): System
    requires sys.worker.Working?
  {
    var id, revision := sys.worker.id, sys.worker.revision;
    sys.(
      jobs := Acknowledged(sys.jobs, id, revision), worker := Idle,
      handled := if HasRevision(sys.jobs, id, revision) then sys.handled[id := sys.worker.known] else sys.handled)
  }

  function Run(sys: System, steps: seq<Step>): System {
    if steps == [] then sys else Apply(Run(sys, steps[..|steps| - 1]), steps[|steps| - 1])
  }

  const Start := System(map[], Idle, map[], map[])

  // The worker is the only one who deletes the row that it works on.
  predicate IsOnlyDeleter(sys: System, steps: seq<Step>) {
    steps == []
    || (&& IsOnlyDeleter(sys, steps[..|steps| - 1])
        && SparesWorker(Run(sys, steps[..|steps| - 1]), steps[|steps| - 1]))
  }

  // Evidence that no run has known has its row.
  predicate HasRows(sys: System) {
    forall id <- sys.seen.Keys + sys.handled.Keys ::
      sys.Handled(id) <= sys.Seen(id) && (sys.Handled(id) < sys.Seen(id) ==> id in sys.jobs)
  }

  // Revisions only grow while a row lives, and tell whether there is new evidence.
  predicate HasSoundWorker(sys: System) {
    sys.worker.Working? ==>
      var id := sys.worker.id;
      && id in sys.jobs && sys.worker.revision <= sys.jobs[id].revision
      && sys.Handled(id) <= sys.worker.known <= sys.Seen(id)
      && (sys.worker.revision == sys.jobs[id].revision <==> sys.worker.known == sys.Seen(id))
  }

  predicate IsSound(sys: System) {
    HasRows(sys) && HasSoundWorker(sys)
  }

  predicate SparesWorker(sys: System, step: Step) {
    step.DeleteElsewhere? ==> !(sys.worker.Working? && sys.worker.id == step.id)
  }

  lemma ApplyKeepsRows(sys: System, step: Step)
    requires IsSound(sys) && SparesWorker(sys, step)
    ensures HasRows(Apply(sys, step))
  {
    hide Retried, WithDeleteRoom, Ensured, WithEvidence, Acknowledged;
    RowsStay(sys.jobs);
    var after := Apply(sys, step);
    forall id | id in after.seen.Keys + after.handled.Keys
      ensures after.Handled(id) <= after.Seen(id) && (after.Handled(id) < after.Seen(id) ==> id in after.jobs)
    {
      assert id in sys.seen.Keys + sys.handled.Keys || (sys.Seen(id) == 0 && sys.Handled(id) == 0);
    }
  }

  // No statement but an acknowledgement takes a row away, and evidence always leaves one.
  lemma RowsStay(jobs: Jobs)
    ensures forall id: ConversationID, e: Evidence, nowTS: int ::
      WithEvidence(jobs, id, e, nowTS).Keys == jobs.Keys + {id}
    ensures forall id: ConversationID, nowTS: int :: Ensured(jobs, id, nowTS).Keys == jobs.Keys + {id}
    ensures forall id: ConversationID, revision: nat, nextTS: int, code: string, nowTS: int ::
      Retried(jobs, id, revision, nextTS, code, nowTS).Keys == jobs.Keys
    ensures forall id: ConversationID, revision: nat, roomID: string, nowTS: int ::
      WithDeleteRoom(jobs, id, revision, roomID, nowTS).Keys == jobs.Keys
    ensures forall id: ConversationID, revision: nat ::
      Acknowledged(jobs, id, revision).Keys == (if HasRevision(jobs, id, revision) then jobs.Keys - {id} else jobs.Keys)
  {
  }

  lemma ApplyKeepsWorker(sys: System, step: Step)
    requires IsSound(sys) && SparesWorker(sys, step)
    ensures HasSoundWorker(Apply(sys, step))
  {
  }

  lemma ApplyKeepsSound(sys: System, step: Step)
    requires IsSound(sys) && SparesWorker(sys, step)
    ensures IsSound(Apply(sys, step))
  {
    ApplyKeepsRows(sys, step);
    ApplyKeepsWorker(sys, step);
  }

  lemma {:induction false} RunKeepsSound(sys: System, steps: seq<Step>)
    requires IsSound(sys) && IsOnlyDeleter(sys, steps)
    ensures IsSound(Run(sys, steps))
  {
    if steps != [] {
      RunKeepsSound(sys, steps[..|steps| - 1]);
      ApplyKeepsSound(Run(sys, steps[..|steps| - 1]), steps[|steps| - 1]);
    }
  }

  /**
   However evidence, retries and deletions interleave: as long as only the worker deletes the row that
   it works on, evidence that no finished run knew of always has a row that will be processed.
   */
  lemma NoEvidenceIsLost(steps: seq<Step>, id: ConversationID)
    requires IsOnlyDeleter(Start, steps)
    ensures var sys := Run(Start, steps); sys.Handled(id) < sys.Seen(id) ==> id in sys.jobs
  {
    RunKeepsSound(Start, steps);
  }

  // The step sets this room to be deleted.
  predicate Plans(sys: System, step: Step, id: ConversationID, roomID: string) {
    || (step.Arrive? && step.id == id && step.evidence.RoomDeletion? && step.evidence.roomID == roomID)
    || (step.PlanDeletion? && step.roomID == roomID
        && sys.worker.Working? && sys.worker.id == id && HasRevision(sys.jobs, id, sys.worker.revision))
  }

  predicate IsLive(step: Step, id: ConversationID) {
    step.Arrive? && step.id == id && step.evidence.Live?
  }

  lemma PlanIsKept(sys: System, step: Step, id: ConversationID)
    ensures var after := Apply(sys, step);
            id in after.jobs && after.jobs[id].deleteRoomID != "" ==>
              || Plans(sys, step, id, after.jobs[id].deleteRoomID)
              || (!IsLive(step, id) && id in sys.jobs && sys.jobs[id].deleteRoomID == after.jobs[id].deleteRoomID)
  {
  }

  // This step of the run planned the deletion, and the conversation has not been seen alive since.
  predicate IsPlannedAt(steps: seq<Step>, id: ConversationID, roomID: string, i: nat) {
    && i < |steps| && Plans(Run(Start, steps[..i]), steps[i], id, roomID)
    && forall j | i < j < |steps| :: !IsLive(steps[j], id)
  }

  lemma PlanStays(init: seq<Step>, last: Step, id: ConversationID, roomID: string, i: nat)
    requires IsPlannedAt(init, id, roomID, i) && !IsLive(last, id)
    ensures IsPlannedAt(init + [last], id, roomID, i)
  {
    hide Run, Plans, IsLive;
    assert (init + [last])[..i] == init[..i];
  }

  lemma PlanIsMade(init: seq<Step>, last: Step, id: ConversationID, roomID: string)
    requires Plans(Run(Start, init), last, id, roomID)
    ensures IsPlannedAt(init + [last], id, roomID, |init|)
  {
    hide Run, Plans, IsLive;
    assert (init + [last])[..|init|] == init;
  }

  /** A room is only ever deleted on a plan of the run that no live evidence came after. */
  lemma {:induction false} DeletionIsNeverOutdated(steps: seq<Step>, id: ConversationID)
    requires id in Run(Start, steps).jobs && Run(Start, steps).jobs[id].deleteRoomID != ""
    ensures exists i: nat :: IsPlannedAt(steps, id, Run(Start, steps).jobs[id].deleteRoomID, i)
  {
    hide Apply, IsLive, Plans, IsPlannedAt;
    if steps != [] {
      var init, last := steps[..|steps| - 1], steps[|steps| - 1];
      assert steps == init + [last];
      var roomID := Run(Start, steps).jobs[id].deleteRoomID;
      PlanIsKept(Run(Start, init), last, id);
      if Plans(Run(Start, init), last, id, roomID) {
        PlanIsMade(init, last, id, roomID);
      } else {
        DeletionIsNeverOutdated(init, id);
        var i: nat :| IsPlannedAt(init, id, roomID, i);
        PlanStays(init, last, id, roomID, i);
      }
    }
  }

  /** A worker starts exactly on the revision that it read, if the row is still due, and knows all evidence so far. */
  lemma BeginsExactly(sys: System, nowTS: int)
    requires sys.worker.Selected?
    ensures var id, after := sys.worker.id, Apply(sys, Begin(nowTS));
            && after == sys.(worker := after.worker)
            && (after.worker.Working? <==>
                  id in sys.jobs && sys.jobs[id].revision == sys.worker.revision && sys.jobs[id].nextTS <= nowTS)
            && (after.worker.Working? ==> after.worker == Working(id, sys.worker.revision, sys.Seen(id)))
            && (!after.worker.Working? ==> after.worker == Idle)
  {
  }

  /** An acknowledgement removes the row exactly if no evidence reached it since the worker's check. */
  lemma AcknowledgesWhatItKnew(steps: seq<Step>)
    requires IsOnlyDeleter(Start, steps) && Run(Start, steps).worker.Working?
    ensures var sys := Run(Start, steps);
            && (sys.worker.id !in Apply(sys, Acknowledge).jobs <==> sys.worker.known == sys.Seen(sys.worker.id))
            && (sys.worker.known < sys.Seen(sys.worker.id) ==> Apply(sys, Acknowledge).jobs == sys.jobs)
            && (sys.worker.known < sys.Seen(sys.worker.id) ==>
                  forall roomID, nowTS: int :: Apply(sys, PlanDeletion(roomID, nowTS)).jobs == sys.jobs)
            && (sys.worker.known < sys.Seen(sys.worker.id) ==>
                  forall nextTS: int, code, nowTS: int :: Apply(sys, Retry(nextTS, code, nowTS)).jobs == sys.jobs)
  {
    RunKeepsSound(Start, steps);
  }

  /**
   A second deleter breaks this: revisions start again at one, so the worker acknowledges a row that
   is not the one it read, and evidence is left without a row.
   */
  lemma SecondDeleterLosesEvidence()
    ensures var steps := [Arrive("c", Live, 1), Select("c"), Begin(1), DeleteElsewhere("c"), Arrive("c", Live, 2)];
            var sys := Apply(Run(Start, steps), Acknowledge);
            sys.Handled("c") < sys.Seen("c") && "c" !in sys.jobs
  {
    var steps := [Arrive("c", Live, 1), Select("c"), Begin(1), DeleteElsewhere("c"), Arrive("c", Live, 2)];
    assert steps[..4][..3] == steps[..3] && steps[..3][..2] == steps[..2] && steps[..2][..1] == steps[..1]
      && steps[..1][..0] == [];
    assert Run(Start, steps[..1]) == Apply(Start, steps[0]);
    assert Run(Start, steps[..2]) == Apply(Apply(Start, steps[0]), steps[1]);
    assert Run(Start, steps[..3]).worker == Working("c", 1, 1);
    assert Run(Start, steps[..4]).jobs == map[];
    assert Run(Start, steps).jobs["c"].revision == 1;
  }
}
