/**
 Connection generations and client ownership: pkg/connector/lifecycle.go, Connect in client.go, and
 the start of the inbound worker in inbound_sync.go. Every lock section is one step, and any goroutine
 may take any of them at any time.
 */
module ConnectionGenerations {
  import opened Wrappers

  type GenerationID = nat

  // A generation's context, whether it was published, and its running workers.
  datatype Generation = Generation(cancelled: bool, published: bool, running: nat)

  // A change holds the previous generation until its workers are gone.
  datatype Change = Change(previous: Option<GenerationID>, id: GenerationID, publishes: bool)

  // The Connect calls that hold a reserved worker slot; operations counts the owned operations, which
  // include those calls. A client is sealed from the return of a retirement until its reactivation.
  datatype State = State(
    retired: bool,
    sealed: bool,
    operations: nat,
    connects: set<GenerationID>,
    change: Option<Change>,
    current: Option<GenerationID>,
    lastID: GenerationID,
    generations: map<GenerationID, Generation>)

  datatype Step =
    | BeginOperation | EndOperation | Retire | RetireReturns | Reactivate
    | BeginChange(publishes: bool) | CancelPrevious | FinishChange
    | StartWorker(id: GenerationID) | DropConnect(id: GenerationID) | SpawnWorker(id: GenerationID)
      | StopWorker(id: GenerationID) | Fail(id: GenerationID)

  // The workers that the wait group of a generation counts.
  function WorkersOf(s: State, id: GenerationID): nat {
    (if id in s.generations then s.generations[id].running else 0) + (if id in s.connects then 1 else 0)
  }

  function WithRunning(s: State, id: GenerationID, running: nat): State
    requires id in s.generations
  {
    s.(generations := s.generations[id := s.generations[id].(running := running)])
  }

  function Cancelled(s: State, id: GenerationID): State {
    if id in s.generations then s.(generations := s.generations[id := s.generations[id].(cancelled := true)]) else s
  }

  function Begun(s: State, publishes: bool): State {
    var id := s.lastID + 1;
    s.(
      change := Some(Change(s.current, id, publishes)), current := None, lastID := id,
      generations := if publishes then s.generations[id := Generation(false, false, 0)] else s.generations,
      connects := if publishes then s.connects + {id} else s.connects)
  }

  function Finished(s: State): State
    requires s.change.Some?
  {
    var c := s.change.value;
    s.(
      change := None, current := if c.publishes then Some(c.id) else None,
      generations := if c.publishes && c.id in s.generations
        then s.generations[c.id := s.generations[c.id].(published := true)] else s.generations)
  }

  predicate MayFinish(s: State) {
    && s.change.Some?
    && (s.change.value.previous.Some? ==>
          var id := s.change.value.previous.value;
          id in s.generations && s.generations[id].cancelled && WorkersOf(s, id) == 0)
  }

  function Apply(s: State, step: Step): State {
    match step
    case BeginOperation => if s.retired then s else s.(operations := s.operations + 1)
    case EndOperation => if s.operations > |s.connects| then s.(operations := s.operations - 1) else s
    case Retire => s.(retired := true)
    case RetireReturns => if s.operations == 0 then s.(sealed := s.retired) else s
    case Reactivate => s.(retired := false, sealed := false)
    case BeginChange(publishes) =>
      if s.change.None? && (publishes ==> s.operations > |s.connects|) then Begun(s, publishes) else s
    case CancelPrevious => if s.change.Some? && s.change.value.previous.Some?
      then Cancelled(s, s.change.value.previous.value) else s
    case FinishChange => if MayFinish(s) then Finished(s) else s
    case StartWorker(id) =>
      if id in s.generations && s.generations[id].published && id in s.connects
      then WithRunning(s, id, s.generations[id].running + 1).(connects := s.connects - {id})
      else s
    case DropConnect(id) =>
      if id in s.generations && s.generations[id].published && id in s.connects
      then Cancelled(s, id).(connects := s.connects - {id})
      else s
    case SpawnWorker(id) => if id in s.generations && s.generations[id].running > 0
      then WithRunning(s, id, s.generations[id].running + 1) else s
    case StopWorker(id) => if id in s.generations && s.generations[id].running > 0
      then WithRunning(s, id, s.generations[id].running - 1) else s
    case Fail(id) => if s.current == Some(id) then Cancelled(s, id) else s
  }

  function Run(s: State, steps: seq<Step>): State {
    if steps == [] then s else Apply(Run(s, steps[..|steps| - 1]), steps[|steps| - 1])
  }

  const Start := State(false, false, 0, {}, None, None, 0, map[])

  // The generation whose workers may still run: the current one, or the one that a change waits for.
  predicate MayRun(s: State, id: GenerationID) {
    s.current == Some(id) || (s.change.Some? && s.change.value.previous == Some(id))
  }

  predicate HasSoundGenerations(s: State) {
    forall id <- s.generations.Keys ::
      && id <= s.lastID
      && (s.generations[id].running > 0 ==> s.generations[id].published)
      && (s.generations[id].published ==> WorkersOf(s, id) == 0 || MayRun(s, id))
      && (!s.generations[id].published ==> s.change.Some? && s.change.value.publishes && s.change.value.id == id)
  }

  predicate HasSoundChange(s: State) {
    && (s.change.Some? ==>
          && s.current.None? && s.change.value.id == s.lastID
          && (s.change.value.publishes ==> s.lastID in s.generations && !s.generations[s.lastID].published)
          && (s.change.value.previous.Some? ==>
            s.change.value.previous.value in s.generations && s.generations[s.change.value.previous.value].published))
    && (s.current.Some? ==> s.current.value in s.generations && s.generations[s.current.value].published)
  }

  predicate HasSoundOperations(s: State) {
    && (forall id <- s.connects :: id in s.generations)
    && |s.connects| <= s.operations
    && (s.sealed ==> s.retired && s.operations == 0)
  }

  predicate IsSound(s: State) {
    HasSoundGenerations(s) && HasSoundChange(s) && HasSoundOperations(s)
  }

  lemma ApplyKeepsOperations(s: State, step: Step)
    requires IsSound(s)
    ensures HasSoundOperations(Apply(s, step))
  {
    hide MayFinish, MayRun, HasSoundChange, HasSoundGenerations;
    match step
    case StartWorker(id) => assert id in s.connects ==> |s.connects - {id}| < |s.connects|;
    case DropConnect(id) => assert id in s.connects ==> |s.connects - {id}| < |s.connects|;
    case BeginChange(publishes) => BeginKeepsOperations(s, publishes);
    case _ =>
  }

  lemma BeginKeepsOperations(s: State, publishes: bool)
    requires IsSound(s)
    ensures HasSoundOperations(Apply(s, BeginChange(publishes)))
  {
    hide MayFinish, MayRun, HasSoundChange;
    assert s.lastID + 1 !in s.connects;
  }

  lemma ApplyKeepsChange(s: State, step: Step)
    requires IsSound(s)
    ensures HasSoundChange(Apply(s, step))
  {
    hide HasSoundOperations, WorkersOf, MayRun;
    match step
    case BeginChange(_) => BeginKeepsChange(s, step);
    case FinishChange => FinishKeepsChange(s);
    case _ =>
  }

  lemma BeginKeepsChange(s: State, step: Step)
    requires IsSound(s) && step.BeginChange?
    ensures HasSoundChange(Apply(s, step))
  {
    hide HasSoundOperations, WorkersOf, MayRun;
  }

  lemma FinishKeepsChange(s: State)
    requires IsSound(s)
    ensures HasSoundChange(Apply(s, FinishChange))
  {
    hide HasSoundOperations, WorkersOf, MayRun;
  }

  // Steps that do not begin or finish a change only touch one generation.
  lemma ApplyKeepsGenerations(s: State, step: Step)
    requires IsSound(s)
    ensures HasSoundGenerations(Apply(s, step))
  {
    if step.BeginChange? {
      BeginKeepsGenerations(s, step);
    } else if step.FinishChange? {
      FinishKeepsGenerations(s);
    } else if step.StartWorker? || step.DropConnect? || step.SpawnWorker? || step.StopWorker? {
      WorkerKeepsGenerations(s, step);
    } else {
      hide HasSoundOperations, HasSoundChange;
      assert forall id ::
        MayRun(s, id) == MayRun(Apply(s, step), id) && WorkersOf(s, id) == WorkersOf(Apply(s, step), id);
    }
  }

  lemma WorkerKeepsGenerations(s: State, step: Step)
    requires IsSound(s) && (step.StartWorker? || step.DropConnect? || step.SpawnWorker? || step.StopWorker?)
    ensures HasSoundGenerations(Apply(s, step))
  {
    hide HasSoundOperations, HasSoundChange;
    assert forall id :: MayRun(s, id) == MayRun(Apply(s, step), id);
    assert forall id :: id != step.id ==> WorkersOf(s, id) == WorkersOf(Apply(s, step), id);
    assert WorkersOf(s, step.id) == 0 ==> WorkersOf(Apply(s, step), step.id) == 0;
  }

  lemma BeginKeepsGenerations(s: State, step: Step)
    requires IsSound(s) && step.BeginChange?
    ensures HasSoundGenerations(Apply(s, step))
  {
    assert s.lastID + 1 !in s.connects;
  }

  lemma FinishKeepsGenerations(s: State)
    requires IsSound(s)
    ensures HasSoundGenerations(Apply(s, FinishChange))
  {
  }

  lemma ApplyKeepsSound(s: State, step: Step)
    requires IsSound(s)
    ensures IsSound(Apply(s, step))
  {
    hide Apply, HasSoundChange, HasSoundGenerations, HasSoundOperations;
    ApplyKeepsOperations(s, step);
    ApplyKeepsChange(s, step);
    ApplyKeepsGenerations(s, step);
  }

  lemma {:induction false} RunKeepsSound(s: State, steps: seq<Step>)
    requires IsSound(s)
    ensures IsSound(Run(s, steps))
  {
    hide IsSound, Apply;
    if steps != [] {
      RunKeepsSound(s, steps[..|steps| - 1]);
      ApplyKeepsSound(Run(s, steps[..|steps| - 1]), steps[|steps| - 1]);
    }
  }

  predicate HasWorkers(s: State, id: GenerationID) {
    id in s.generations && s.generations[id].running > 0
  }

  /** At most one generation ever has running workers. */
  lemma OneGenerationRuns(steps: seq<Step>, a: GenerationID, b: GenerationID)
    requires HasWorkers(Run(Start, steps), a) && HasWorkers(Run(Start, steps), b)
    ensures a == b
  {
    RunKeepsSound(Start, steps);
  }

  /** Generation IDs only grow: a change takes an ID above every one that was ever given out. */
  lemma IDsGrow(steps: seq<Step>, publishes: bool)
    ensures var s := Run(Start, steps); var after := Apply(s, BeginChange(publishes));
            && s.lastID <= after.lastID
            && (after != s ==> after.change.Some? && forall id <- s.generations.Keys :: id < after.change.value.id)
  {
    RunKeepsSound(Start, steps);
  }

  /** Once a change is finished, only the generation that it published can have workers. */
  lemma FinishedChangeLeavesOthersStopped(steps: seq<Step>, id: GenerationID)
    requires MayFinish(Run(Start, steps))
    ensures var s := Run(Start, steps); var after := Apply(s, FinishChange);
            HasWorkers(after, id) ==> s.change.value.publishes && id == s.change.value.id
  {
    RunKeepsSound(Start, steps);
    ApplyKeepsSound(Run(Start, steps), FinishChange);
  }

  /**
   From the return of a retirement until its reactivation there is no owned operation, and so no
   Connect that could still start a worker; none of them can begin.
   */
  lemma RetiredClientIsQuiet(steps: seq<Step>, step: Step)
    requires Run(Start, steps).sealed && !step.Reactivate?
    ensures var s := Run(Start, steps); var after := Apply(s, step);
            && s.operations == 0 && s.connects == {} && s.retired
            && after.operations == 0 && after.connects == {} && after.sealed
            && forall id :: HasWorkers(after, id) ==> HasWorkers(s, id)
  {
    RunKeepsSound(Start, steps);
    ApplyKeepsSound(Run(Start, steps), step);
  }

  // ---- Nothing gets stuck ----

  // Some steps lead from one state to the other, which is sound if the first one is.
  ghost predicate LeadsTo(s: State, t: State) {
    IsSound(t) && exists steps :: Run(s, steps) == t
  }

  lemma LeadsNowhere(s: State)
    requires IsSound(s)
    ensures LeadsTo(s, s)
  {
    assert Run(s, []) == s;
  }

  lemma LeadsOn(s: State, t: State, step: Step)
    requires LeadsTo(s, t)
    ensures LeadsTo(s, Apply(t, step))
  {
    ApplyKeepsSound(t, step);
    hide IsSound, Apply;
    var steps :| Run(s, steps) == t;
    assert (steps + [step])[..|steps|] == steps;
    assert Run(s, steps + [step]) == Apply(t, step);
  }

  lemma {:induction false} WorkersCanStop(s: State, t: State, id: GenerationID)
    requires LeadsTo(s, t) && id in t.generations
    ensures LeadsTo(s, WithRunning(t, id, 0))
    decreases t.generations[id].running
  {
    hide LeadsTo;
    if t.generations[id].running > 0 {
      var next := Apply(t, StopWorker(id));
      LeadsOn(s, t, StopWorker(id));
      WorkersCanStop(s, next, id);
      assert WithRunning(next, id, 0) == WithRunning(t, id, 0);
    } else {
      assert WithRunning(t, id, 0) == t;
    }
  }

  // The tables once the previous generation of a change is gone.
  function Stopped(s: State, id: GenerationID): State
    requires id in s.generations
  {
    WithRunning(Cancelled(s, id), id, 0).(connects := s.connects - {id})
  }

  lemma PreviousCanStop(s: State, t: State)
    requires LeadsTo(s, t) && t.change.Some? && t.change.value.previous.Some?
    ensures var id := t.change.value.previous.value;
            id in t.generations && LeadsTo(s, Stopped(t, id)) && MayFinish(Stopped(t, id))
  {
    var id := t.change.value.previous.value;
    assert id in t.generations && t.generations[id].published;
    hide LeadsTo, IsSound, Apply;
    var t1 := Apply(t, CancelPrevious);
    var t2 := Apply(t1, DropConnect(id));
    CancelAndDrop(t, id);
    LeadsOn(s, t, CancelPrevious);
    LeadsOn(s, t1, DropConnect(id));
    WorkersCanStop(s, t2, id);
  }

  lemma CancelAndDrop(t: State, id: GenerationID)
    requires t.change.Some? && t.change.value.previous == Some(id) && id in t.generations && t.generations[id].published
    ensures var t' := Apply(Apply(t, CancelPrevious), DropConnect(id));
            && id in t'.generations && WithRunning(t', id, 0) == Stopped(t, id)
    ensures MayFinish(Stopped(t, id))
  {
  }

  /** A change of generations can always be finished, once the previous generation's workers heed its end. */
  lemma ChangeCanFinish(s: State, t: State) returns (t': State)
    requires LeadsTo(s, t) && t.change.Some?
    ensures LeadsTo(s, t') && t'.change.None? && t'.retired == t.retired && t'.operations == t.operations
    ensures t'.lastID == t.lastID
    ensures var c := t.change.value;
            t'.current == (if c.publishes then Some(c.id) else None)
    ensures var c := t.change.value;
            && t'.connects == (if c.previous.Some? then t.connects - {c.previous.value} else t.connects)
            && (c.previous.Some? ==> c.previous.value in t.generations)
            && t' == Finished(if c.previous.Some? then Stopped(t, c.previous.value) else t)
  {
    t' := t;
    if t.change.value.previous.Some? {
      PreviousCanStop(s, t);
      t' := Stopped(t, t.change.value.previous.value);
    }
    hide LeadsTo;
    LeadsOn(s, t', FinishChange);
    t' := Apply(t', FinishChange);
  }

  lemma {:induction false} ConnectsCanEnd(s: State, t: State) returns (t': State)
    requires LeadsTo(s, t) && t.change.None?
    ensures LeadsTo(s, t') && t'.connects == {} && t'.retired == t.retired && t'.change.None?
    decreases |t.connects|
  {
    t' := t;
    if t.connects != {} {
      var id :| id in t.connects;
      LeadsOn(s, t, DropConnect(id));
      assert |t.connects - {id}| < |t.connects|;
      hide LeadsTo;
      t' := ConnectsCanEnd(s, Apply(t, DropConnect(id)));
    }
  }

  lemma {:induction false} OperationsCanEnd(s: State, t: State)
    requires LeadsTo(s, t) && t.connects == {}
    ensures LeadsTo(s, t.(operations := 0))
    decreases t.operations
  {
    hide LeadsTo;
    if t.operations > 0 {
      LeadsOn(s, t, EndOperation);
      OperationsCanEnd(s, Apply(t, EndOperation));
      assert Apply(t, EndOperation).(operations := 0) == t.(operations := 0);
    } else {
      assert t.(operations := 0) == t;
    }
  }

  /** A retirement can always return: no operation that it waits for waits for anything but workers to stop. */
  lemma RetirementCanReturn(s: State) returns (t: State)
    requires IsSound(s) && s.retired
    ensures LeadsTo(s, t) && t.sealed
  {
    LeadsNowhere(s);
    t := s;
    if s.change.Some? {
      t := ChangeCanFinish(s, t);
    }
    t := ConnectsCanEnd(s, t);
    OperationsCanEnd(s, t);
    t := t.(operations := 0);
    LeadsOn(s, t, RetireReturns);
    t := Apply(t, RetireReturns);
  }

  /** A Connect that nobody disturbs replaces the current generation and gets its worker running. */
  lemma ConnectReplacesGeneration(s: State) returns (t: State)
    requires IsSound(s) && !s.retired && s.change.None?
    ensures LeadsTo(s, t) && t.current == Some(s.lastID + 1) && HasWorkers(t, s.lastID + 1)
    ensures forall id :: id != s.lastID + 1 ==> !HasWorkers(t, id)
  {
    var id := s.lastID + 1;
    LeadsNowhere(s);
    t := Apply(s, BeginOperation);
    LeadsOn(s, s, BeginOperation);
    LeadsOn(s, t, BeginChange(true));
    t := Apply(t, BeginChange(true));
    assert t.change == Some(Change(s.current, id, true)) && id in t.connects;
    assert s.current != Some(id) && id in t.generations;
    t := ChangeCanFinish(s, t);
    hide LeadsTo;
    assert id in t.connects && id in t.generations && t.generations[id].published;
    LeadsOn(s, t, StartWorker(id));
    t := Apply(t, StartWorker(id));
    OnlyCurrentHasWorkers(s, t, id);
  }

  lemma OnlyCurrentHasWorkers(s: State, t: State, id: GenerationID)
    requires LeadsTo(s, t) && t.change.None? && t.current == Some(id)
    ensures forall other :: HasWorkers(t, other) ==> other == id
  {
  }

  /** Whatever state it is in, a client can get connected again, and then only its new generation has workers. */
  lemma ClientCanAlwaysConnect(s: State) returns (t: State)
    requires IsSound(s)
    ensures LeadsTo(s, t) && t.current.Some? && HasWorkers(t, t.current.value)
    ensures forall id :: HasWorkers(t, id) ==> id == t.current.value
  {
    LeadsNowhere(s);
    var t1 := Apply(s, Reactivate);
    LeadsOn(s, s, Reactivate);
    if t1.change.Some? {
      t1 := ChangeCanFinish(s, t1);
    }
    assert !t1.retired;
    t := ConnectReplacesGeneration(t1);
    LeadsFurther(s, t1, t);
    hide LeadsTo;
  }

  lemma {:induction false} RunInParts(s: State, first: seq<Step>, more: seq<Step>)
    ensures Run(s, first + more) == Run(Run(s, first), more)
  {
    hide Apply;
    if more == [] {
      assert first + more == first;
    } else {
      var init := more[..|more| - 1];
      assert (first + more)[..|first + more| - 1] == first + init;
      RunInParts(s, first, init);
    }
  }

  lemma LeadsFurther(s: State, t: State, u: State)
    requires LeadsTo(s, t) && LeadsTo(t, u)
    ensures LeadsTo(s, u)
  {
    hide IsSound, Run;
    var first :| Run(s, first) == t;
    var more :| Run(t, more) == u;
    RunInParts(s, first, more);
  }

  /** A failure ends the current generation, and only that one. */
  lemma FailureEndsCurrent(s: State, id: GenerationID)
    requires IsSound(s)
    ensures var t := Apply(s, Fail(id));
            if s.current == Some(id)
            then id in t.generations
              && t == s.(generations := s.generations[id := s.generations[id].(cancelled := true)])
            else t == s
  {
  }

  // The fields of the client, with one method for each lock section; each is one of the steps.
  class Lifecycle {
    var retired: bool
    var operations: nat
    var generation: Option<GenerationID>
    var generationID: GenerationID
    var generationChanging: bool
    ghost var state: State

    ghost predicate Valid()
      reads this
    {
      && state.retired == retired && state.operations == operations && state.current == generation
      && state.lastID == generationID && state.change.Some? == generationChanging
      && IsSound(state)
    }

    constructor ()
      ensures Valid() && state == Start
    {
      retired, operations, generation, generationID, generationChanging := false, 0, None, 0, false;
      state := Start;
    }

    method BeginOwnedOperation() returns (ok: bool)
      requires Valid()
      modifies this
      ensures Valid() && state == Apply(old(state), BeginOperation) && (ok <==> !old(retired))
    {
      ApplyKeepsSound(state, BeginOperation);
      state := Apply(state, BeginOperation);
      if retired { return false; }
      operations := operations + 1;
      return true;
    }

    method EndOwnedOperation()
      requires Valid() && operations > |state.connects|
      modifies this
      ensures Valid() && state == Apply(old(state), EndOperation)
    {
      ApplyKeepsSound(state, EndOperation);
      state := Apply(state, EndOperation);
      operations := operations - 1;
    }

    method Retire()
      requires Valid()
      modifies this
      ensures Valid() && state == Apply(old(state), Step.Retire)
    {
      ApplyKeepsSound(state, Step.Retire);
      state := Apply(state, Step.Retire);
      retired := true;
    }

    // Does nothing while another change is under way; the caller waits and tries again.
    method BeginGenerationChange(publishes: bool)
      returns (begun: bool, previous: Option<GenerationID>, id: GenerationID)
      requires Valid() && (publishes ==> operations > |state.connects|)
      modifies this
      ensures Valid() && state == Apply(old(state), BeginChange(publishes))
      ensures begun <==> !old(generationChanging)
      ensures begun ==>
        state.change == Some(Change(previous, id, publishes)) && previous == old(generation) && id > old(generationID)
    {
      ApplyKeepsSound(state, BeginChange(publishes));
      state := Apply(state, BeginChange(publishes));
      if generationChanging { return false, None, 0; }
      generationChanging := true;
      generationID := generationID + 1;
      begun, previous, id := true, generation, generationID;
      generation := None;
    }

    // The previous generation's workers are gone.
    method FinishGenerationChange(published: Option<GenerationID>)
      requires Valid() && MayFinish(state)
      requires published == if state.change.value.publishes then Some(state.change.value.id) else None
      modifies this
      ensures Valid() && state == Apply(old(state), FinishChange)
    {
      ApplyKeepsSound(state, FinishChange);
      state := Apply(state, FinishChange);
      generation := published;
      generationChanging := false;
    }
  }
}
