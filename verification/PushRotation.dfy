/**
 The rotation of push registrations: pkg/connector/push.go. A registration that Tumblr accepted must be
 known until it is unregistered, or Tumblr would go on pushing to it. Saves of the login metadata may
 fail, and the process may restart from what was saved last.
 */
module PushRotation {
  import opened Wrappers
  import opened Sequences

  datatype Identity = Identity(token: string, appID: string, androidID: string, securityToken: string)

  // The time of acceptance is zero as long as Tumblr has not accepted the registration.
  datatype Registration = Registration(id: Identity, registeredTS: nat)

  datatype Keys = Keys(active: Option<Registration>, pending: Option<Registration>, retiring: seq<Registration>)

  // An operation that has changed the metadata and waits for its save, with what a rollback needs. The
  // last field of a finishing operation tells whether another save has made its mark durable meanwhile.
  datatype Operation =
    | Staging(candidate: Identity, previous: Option<Registration>, previousRetiring: seq<Registration>)
    | Finishing(id: Identity, wasSaved: bool)
    | Promoting(registration: Registration, previousActive: Option<Registration>, previousRetiring: seq<Registration>)

  // The metadata in memory and as it was saved last; the registrations that were ever saved as accepted
  // and not unregistered since; the tokens that were unregistered, and the retiring registrations that a
  // cleanup has unregistered but not yet removed; and the receiver's operation, if it is in the middle of one.
  datatype System = System(
    memory: Keys, saved: Keys, accepted: set<Identity>, gone: set<string>, removing: set<Identity>,
      operation: Option<Operation>)

  // ---- Lists ----

  predicate IsSame(a: Option<Registration>, b: Option<Registration>) {
    a.Some? && b.Some? && a.value.id == b.value.id
  }

  predicate IsListed(list: seq<Registration>, id: Identity) {
    exists r <- list :: r.id == id
  }

  function Appended(list: seq<Registration>, r: Option<Registration>): seq<Registration> {
    if r.None? || IsListed(list, r.value.id) then list else list + [r.value]
  }

  function Removed(list: seq<Registration>, id: Identity): (rest: seq<Registration>)
    ensures forall r :: r in rest <==> r in list && r.id != id
  {
    Filter(list, (r: Registration) => r.id != id)
  }

  lemma AppendedLists(list: seq<Registration>, r: Option<Registration>)
    ensures forall x :: x in Appended(list, r) <==> x in list || (r == Some(x) && !IsListed(list, x.id))
    ensures forall id :: IsListed(Appended(list, r), id) <==> IsListed(list, id) || (r.Some? && r.value.id == id)
  {
    var after := Appended(list, r);
    assert forall x :: x in after <==> x in list || (r == Some(x) && !IsListed(list, x.id));
    forall id ensures IsListed(after, id) <==> IsListed(list, id) || (r.Some? && r.value.id == id) {
      assert forall x <- list :: x in after;
    }
  }

  // ---- What the operations change ----

  // A registration that Tumblr accepted is retired when another one takes its place.
  function Staged(k: Keys, candidate: Identity): Keys {
    Keys(
      k.active, Some(Registration(candidate, 0)),
      if k.pending.Some? && k.pending.value.registeredTS > 0 && k.pending.value.id != candidate
      then Appended(k.retiring, k.pending) else k.retiring)
  }

  function Marked(k: Keys, id: Identity, registeredTS: nat): Keys {
    if k.pending.Some? && k.pending.value.id == id
      then k.(pending := Some(k.pending.value.(registeredTS := registeredTS))) else k
  }

  function Promoted(k: Keys, registration: Registration): Keys {
    Keys(
      k.pending, None,
      if k.active.Some? && k.active.value.id != registration.id then Appended(k.retiring, k.active) else k.retiring)
  }

  // What a failed save puts back, provided that the metadata still is as the operation left it.
  function Restored(k: Keys, operation: Operation): Keys {
    match operation
    case Staging(candidate, previous, previousRetiring) =>
      if k.pending.Some? && k.pending.value.id == candidate then k.(pending := previous, retiring := previousRetiring)
        else k
    case Finishing(id, _) => Marked(k, id, 0)
    case Promoting(registration, previousActive, previousRetiring) =>
      if IsSame(k.active, Some(registration)) && k.pending.None?
        then Keys(previousActive, Some(registration), previousRetiring) else k
  }

  function MarkedIn(k: Keys): set<Identity> {
    (if k.active.Some? && k.active.value.registeredTS > 0 then {k.active.value.id} else {})
    + (if k.pending.Some? && k.pending.value.registeredTS > 0 then {k.pending.value.id} else {})
    + set r | r in k.retiring && r.registeredTS > 0 :: r.id
  }

  // ---- Steps ----

  // The receiver stages, finishes and promotes one registration at a time; anyone may save the metadata
  // between its change and its own save, a cleanup runs beside it, and the process may restart anywhere.
  datatype Step =
    | Stage(candidate: Identity)
    | Finish(pending: Registration, registeredTS: nat)
    | Promote(registration: Registration)
    | SaveSucceeds
    | Rollback
    | SaveElsewhere
    | Unregister(id: Identity)
    | Remove(id: Identity)
    | Restart

  function WithSave(sys: System): System {
    sys.(saved := sys.memory, accepted := sys.accepted + set id | id in MarkedIn(sys.memory) && id.token !in sys.gone)
  }

  function Noticed(operation: Option<Operation>): Option<Operation> {
    if operation.Some? && operation.value.Finishing? then Some(Finishing(operation.value.id, true)) else operation
  }

  function Apply(sys: System, step: Step): System {
    var k := sys.memory;
    match step
    case Stage(candidate) =>
      if sys.operation.Some? then sys
      else sys.(memory := Staged(k, candidate), operation := Some(Staging(candidate, k.pending, k.retiring)))
    case Finish(pending, registeredTS) =>
      if sys.operation.Some? || pending.registeredTS > 0 || !IsSame(k.pending, Some(pending)) then sys
      else sys.(memory := Marked(k, pending.id, registeredTS), operation := Some(Finishing(pending.id, false)))
    case Promote(registration) =>
      if sys.operation.Some? || !IsSame(k.pending, Some(registration)) then sys
      else sys.(memory := Promoted(k, registration), operation := Some(Promoting(registration, k.active, k.retiring)))
    case SaveSucceeds => if sys.operation.None? then sys else WithSave(sys).(operation := None)
    case Rollback => if sys.operation.None? then sys
      else sys.(memory := Restored(k, sys.operation.value), operation := None)
    case SaveElsewhere => WithSave(sys).(operation := Noticed(sys.operation))
    case Unregister(id) =>
      sys.(
        accepted := (set other | other in sys.accepted && other.token != id.token),
        gone := sys.gone + {id.token}, removing := sys.removing + {id})
    case Remove(id) =>
      if id !in sys.removing then sys
      else sys.(memory := k.(retiring := Removed(k.retiring, id)), removing := sys.removing - {id})
    case Restart => sys.(memory := sys.saved, removing := {}, operation := None)
  }

  function Run(sys: System, steps: seq<Step>): System {
    if steps == [] then sys else Apply(Run(sys, steps[..|steps| - 1]), steps[|steps| - 1])
  }

  const Start := System(Keys(None, None, []), Keys(None, None, []), {}, {}, {}, None)

  // ---- What stays known ----

  predicate IsHeld(k: Keys, id: Identity) {
    (k.active.Some? && k.active.value.id == id) || IsListed(k.retiring, id)
  }

  predicate IsKnown(k: Keys, id: Identity) {
    IsHeld(k, id) || (k.pending.Some? && k.pending.value.id == id)
  }

  // Known, and not about to be forgotten when another registration takes its place.
  predicate IsKept(k: Keys, id: Identity) {
    IsHeld(k, id) || (k.pending.Some? && k.pending.value.id == id && k.pending.value.registeredTS > 0)
  }

  predicate KeepsAccepted(sys: System) {
    forall id <- sys.accepted :: IsKept(sys.memory, id) && IsKept(sys.saved, id)
  }

  // ---- Careful runs ----

  // No token is used again once it was unregistered, an accepted registration is not staged a second time,
  // and what is finished or promoted carries the mark of the pending registration. A mark that another
  // save has made durable is not taken back.
  predicate IsCareful(sys: System, step: Step) {
    match step
    case Stage(candidate) => candidate.token !in sys.gone
      && !(IsSame(sys.memory.pending, Some(Registration(candidate, 0))) && sys.memory.pending.value.registeredTS > 0)
    case Finish(pending, _) =>
      && pending.id.token !in sys.gone
      && (IsSame(sys.memory.pending, Some(pending)) && sys.memory.pending.value.registeredTS > 0 ==>
        pending.registeredTS > 0)
    case Promote(registration) =>
      IsSame(sys.memory.pending, Some(registration)) ==>
        sys.memory.pending.value.registeredTS > 0 ==> registration.registeredTS > 0
    case Rollback => !(sys.operation.Some? && sys.operation.value.Finishing? && sys.operation.value.wasSaved)
    case _ => true
  }

  predicate IsCarefulRun(sys: System, steps: seq<Step>) {
    steps == []
    || (IsCarefulRun(sys, steps[..|steps| - 1]) && IsCareful(Run(sys, steps[..|steps| - 1]), steps[|steps| - 1]))
  }

  // ---- The invariant ----

  // The lists that an operation would put back still have everything that is retiring now.
  predicate FitsOperation(k: Keys, operation: Operation) {
    match operation
    case Staging(candidate, previous, previousRetiring) =>
      && k.pending == Some(Registration(candidate, 0))
      && forall r <- k.retiring :: r in previousRetiring || (previous == Some(r) && r.registeredTS > 0)
    case Finishing(id, _) => k.pending.Some? && k.pending.value.id == id
    case Promoting(registration, previousActive, previousRetiring) =>
      && k.pending.None? && IsSame(k.active, Some(registration))
        && (k.active.value.registeredTS > 0 ==> registration.registeredTS > 0)
      && forall r <- k.retiring :: r in previousRetiring || previousActive == Some(r)
  }

  // The rollback, where it may still come, would keep what is accepted.
  predicate MayRollBack(sys: System) {
    sys.operation.Some? ==>
      && FitsOperation(sys.memory, sys.operation.value)
      && (!(sys.operation.value.Finishing? && sys.operation.value.wasSaved) ==>
            forall id <- sys.accepted :: IsKept(Restored(sys.memory, sys.operation.value), id))
  }

  predicate IsSound(sys: System) {
    && KeepsAccepted(sys) && MayRollBack(sys)
    && (forall id <- sys.accepted :: id.token !in sys.gone)
    && (forall id <- sys.removing :: id.token in sys.gone)
  }

  lemma StagedKeeps(k: Keys, candidate: Identity, id: Identity)
    requires IsKept(k, id)
    ensures IsKept(Staged(k, candidate), id) <==>
      !(k.pending.Some? && k.pending.value.id == id == candidate && !IsHeld(k, id))
  {
    AppendedLists(k.retiring, k.pending);
  }

  lemma PromotedKeeps(k: Keys, registration: Registration, id: Identity)
    requires IsKept(k, id) && IsSame(k.pending, Some(registration))
    ensures IsKept(Promoted(k, registration), id)
  {
    AppendedLists(k.retiring, k.active);
  }

  lemma RemovedKeeps(k: Keys, gone: Identity, id: Identity)
    requires IsKept(k, id) && id != gone
    ensures IsKept(k.(retiring := Removed(k.retiring, gone)), id)
  {
    assert IsListed(k.retiring, id) ==> IsListed(Removed(k.retiring, gone), id);
  }

  lemma MarkedIsKept(k: Keys)
    ensures forall id <- MarkedIn(k) :: IsKept(k, id)
  {
  }

  // What a save makes durable, a rollback of staging or promoting would keep.
  lemma MarkedIsRestored(k: Keys, operation: Operation, id: Identity)
    requires FitsOperation(k, operation) && !operation.Finishing? && id in MarkedIn(k)
    ensures IsKept(Restored(k, operation), id)
  {
    if r :| r in k.retiring && r.registeredTS > 0 && r.id == id {
      assert r in operation.previousRetiring ==> IsListed(operation.previousRetiring, id);
    }
  }

  lemma StageKeepsSound(sys: System, candidate: Identity)
    requires IsSound(sys) && sys.operation.None? && IsCareful(sys, Stage(candidate))
    ensures IsSound(Apply(sys, Stage(candidate)))
  {
    var k := sys.memory;
    AppendedLists(k.retiring, k.pending);
    forall id | id in sys.accepted ensures IsKept(Staged(k, candidate), id) {
      StagedKeeps(k, candidate, id);
    }
    assert Restored(Staged(k, candidate), Staging(candidate, k.pending, k.retiring)) == k;
  }

  lemma PromoteKeepsSound(sys: System, registration: Registration)
    requires IsSound(sys) && sys.operation.None? && IsCareful(sys, Promote(registration))
      && IsSame(sys.memory.pending, Some(registration))
    ensures IsSound(Apply(sys, Promote(registration)))
  {
    var k := sys.memory;
    AppendedLists(k.retiring, k.active);
    forall id | id in sys.accepted ensures IsKept(Promoted(k, registration), id) {
      PromotedKeeps(k, registration, id);
    }
    assert Restored(Promoted(k, registration), Promoting(registration, k.active, k.retiring)) ==
      k.(pending := Some(registration));
  }

  lemma SaveKeepsSound(sys: System, step: Step)
    requires IsSound(sys) && (step.SaveElsewhere? || step.SaveSucceeds?)
    ensures IsSound(Apply(sys, step))
  {
    MarkedIsKept(sys.memory);
    if step.SaveElsewhere? && sys.operation.Some? && !sys.operation.value.Finishing? {
      forall id | id in MarkedIn(sys.memory) ensures IsKept(Restored(sys.memory, sys.operation.value), id) {
        MarkedIsRestored(sys.memory, sys.operation.value, id);
      }
    }
  }

  lemma RemoveKeepsSound(sys: System, gone: Identity)
    requires IsSound(sys) && gone in sys.removing
    ensures IsSound(Apply(sys, Remove(gone)))
  {
    var k := sys.memory;
    var rest := k.(retiring := Removed(k.retiring, gone));
    forall id | id in sys.accepted ensures IsKept(rest, id) {
      RemovedKeeps(k, gone, id);
    }
    if sys.operation.Some? && sys.operation.value.Finishing? && !sys.operation.value.wasSaved {
      var restored := Restored(k, sys.operation.value);
      forall id | id in sys.accepted ensures IsKept(Restored(rest, sys.operation.value), id) {
        RemovedKeeps(restored, gone, id);
      }
    }
  }

  lemma ApplyKeepsSound(sys: System, step: Step)
    requires IsSound(sys) && IsCareful(sys, step)
    ensures IsSound(Apply(sys, step))
  {
    match step
    case Stage(candidate) => if sys.operation.None? { StageKeepsSound(sys, candidate); }
    case Finish(_, _) =>
    case Promote(registration) =>
      if sys.operation.None? && IsSame(sys.memory.pending, Some(registration)) { PromoteKeepsSound(sys, registration); }
    case SaveSucceeds => SaveKeepsSound(sys, step);
    case SaveElsewhere => SaveKeepsSound(sys, step);
    case Rollback =>
    case Unregister(_) =>
    case Remove(id) => if id in sys.removing { RemoveKeepsSound(sys, id); }
    case Restart =>
  }

  lemma {:induction false} RunKeepsSound(sys: System, steps: seq<Step>)
    requires IsSound(sys) && IsCarefulRun(sys, steps)
    ensures IsSound(Run(sys, steps))
  {
    hide IsSound, Apply, IsCareful;
    if steps != [] {
      RunKeepsSound(sys, steps[..|steps| - 1]);
      ApplyKeepsSound(Run(sys, steps[..|steps| - 1]), steps[|steps| - 1]);
    }
  }

  /**
   Through every rotation, other save, failed save, rollback, cleanup and restart, in any order: a registration
   that was saved as accepted stays active, pending or retiring, in memory and in the database, until its token
   is unregistered. This takes careful callers: the accepted pending registration is not staged again, the
   copies that are finished and promoted carry its mark, no token is used again after it was unregistered, and
   no rollback takes back a mark that another save made durable.
   */
  lemma AcceptedRegistrationsStayKnown(steps: seq<Step>, id: Identity)
    requires IsCarefulRun(Start, steps) && id in Run(Start, steps).accepted
    ensures IsKnown(Run(Start, steps).memory, id) && IsKnown(Run(Start, steps).saved, id)
  {
    RunKeepsSound(Start, steps);
  }

  // ---- The conditions are exact ----

  /**
   Staging loses the mark of an accepted registration exactly if the candidate is that same pending
   registration, and nothing else holds it.
   */
  lemma StagingKeepsExactly(sys: System, candidate: Identity)
    requires KeepsAccepted(sys) && sys.operation.None?
    ensures KeepsAccepted(Apply(sys, Stage(candidate))) <==>
      !(candidate in sys.accepted && sys.memory.pending.Some? && sys.memory.pending.value.id == candidate
        && !IsHeld(sys.memory, candidate))
  {
    forall id | id in sys.accepted
      ensures IsKept(Staged(sys.memory, candidate), id) <==>
        !(sys.memory.pending.Some? && sys.memory.pending.value.id == id == candidate && !IsHeld(sys.memory, id))
    {
      StagedKeeps(sys.memory, candidate, id);
    }
  }

  /**
   Whatever run led here, a rollback of a finishing operation loses an accepted registration exactly if that
   registration has become durable as accepted meanwhile, and nothing else holds it.
   */
  lemma RollbackKeepsExactly(sys: System)
    requires KeepsAccepted(sys) && sys.operation.Some? && sys.operation.value.Finishing?
    requires FitsOperation(sys.memory, sys.operation.value)
    ensures KeepsAccepted(Apply(sys, Rollback)) <==>
      !(sys.operation.value.id in sys.accepted && !IsHeld(sys.memory, sys.operation.value.id))
  {
    var id, after := sys.operation.value.id, Apply(sys, Rollback);
    assert forall other <- sys.accepted :: other != id ==> (IsKept(sys.memory, other) <==> IsKept(after.memory, other));
    assert IsKept(after.memory, id) <==> IsHeld(sys.memory, id);
  }

  /** Such a rollback in a run where nobody else saved is always safe. */
  lemma UnsavedMarkIsRolledBackSafely(steps: seq<Step>)
    requires IsCarefulRun(Start, steps)
    requires var sys := Run(Start, steps);
      sys.operation.Some? && sys.operation.value.Finishing? && !sys.operation.value.wasSaved
    ensures KeepsAccepted(Apply(Run(Start, steps), Rollback))
  {
    RunKeepsSound(Start, steps);
    ApplyKeepsSound(Run(Start, steps), Rollback);
  }

  // A mark is set, another save makes it durable, the receiver's own save fails, and the next registration
  // displaces the one that has lost its mark.
  function DurableMarkIsTakenBack(a: Identity, b: Identity): seq<Step> {
    [Stage(a), SaveSucceeds, Finish(Registration(a, 0), 1), SaveElsewhere, Rollback, Stage(b), SaveSucceeds]
  }

  lemma RunGrows(sys: System, steps: seq<Step>, step: Step)
    ensures Run(sys, steps + [step]) == Apply(Run(sys, steps), step)
  {
    assert (steps + [step])[..|steps + [step]| - 1] == steps;
  }

  lemma RunOneMore(sys: System, steps: seq<Step>, i: nat)
    requires i < |steps|
    ensures Run(sys, steps[..i + 1]) == Apply(Run(sys, steps[..i]), steps[i])
  {
    assert steps[..i] + [steps[i]] == steps[..i + 1];
    RunGrows(sys, steps[..i], steps[i]);
  }

  /** This run of the model loses an accepted registration, from memory and from the database. */
  lemma SaveInBetweenLosesRegistration(a: Identity, b: Identity)
    requires a != b
    ensures var sys := Run(Start, DurableMarkIsTakenBack(a, b));
            a in sys.accepted && a.token !in sys.gone && !IsKnown(sys.memory, a) && !IsKnown(sys.saved, a)
  {
    hide Apply, WithSave, Staged, Marked, Restored, MarkedIn;
    var s1 := Apply(Apply(Start, Stage(a)), SaveSucceeds);
    var s2 := Apply(Apply(s1, Finish(Registration(a, 0), 1)), SaveElsewhere);
    var s3 := Apply(s2, Rollback);
    var steps := [Stage(a), SaveSucceeds, Finish(Registration(a, 0), 1), SaveElsewhere, Rollback];
    assert steps[..0] == [] && steps[..5] == steps;
    RunOneMore(Start, steps, 0);
    RunOneMore(Start, steps, 1);
    RunOneMore(Start, steps, 2);
    RunOneMore(Start, steps, 3);
    RunOneMore(Start, steps, 4);
    assert Run(Start, steps) == s3;
    RunGrows(Start, steps, Stage(b));
    RunGrows(Start, steps + [Stage(b)], SaveSucceeds);
    assert steps + [Stage(b)] + [SaveSucceeds] == DurableMarkIsTakenBack(a, b);
    DurableMark(a);
    UnmarkedIsForgotten(s3, a, b);
  }

  lemma DurableMark(a: Identity)
    ensures var s1 := Apply(Apply(Start, Stage(a)), SaveSucceeds);
            var s2 := Apply(Apply(s1, Finish(Registration(a, 0), 1)), SaveElsewhere);
            var s3 := Apply(s2, Rollback);
            a in s3.accepted && s3.gone == {} && s3.memory == Keys(None, Some(Registration(a, 0)), [])
              && s3.operation == None
  {
    assert a in MarkedIn(Keys(None, Some(Registration(a, 1)), []));
  }

  lemma UnmarkedIsForgotten(sys: System, a: Identity, b: Identity)
    requires sys.memory == Keys(None, Some(Registration(a, 0)), []) && sys.operation == None && a != b
    ensures var after := Apply(Apply(sys, Stage(b)), SaveSucceeds);
            sys.accepted <= after.accepted && after.gone == sys.gone && !IsKnown(after.memory, a)
              && !IsKnown(after.saved, a)
  {
  }

  // ---- A rotation ----

  // A registration that is staged, accepted and put in the place of another one.
  function Rotation(id: Identity): seq<Step> {
    [Stage(id), SaveSucceeds, Finish(Registration(id, 0), 1), SaveSucceeds, Promote(Registration(id, 1)), SaveSucceeds]
  }

  lemma RotationIs(sys: System, id: Identity)
    ensures Run(sys, Rotation(id)) ==
      Apply(Apply(Apply(Apply(Apply(Apply(sys, Stage(id)), SaveSucceeds), Finish(Registration(id, 0), 1)),
        SaveSucceeds), Promote(Registration(id, 1))), SaveSucceeds)
  {
    hide Apply;
    var steps := Rotation(id);
    RunOneMore(sys, steps, 0);
    RunOneMore(sys, steps, 1);
    RunOneMore(sys, steps, 2);
    RunOneMore(sys, steps, 3);
    RunOneMore(sys, steps, 4);
    RunOneMore(sys, steps, 5);
    assert steps[..6] == steps && steps[..0] == [];
  }

  /** The new registration becomes the active one, and the one before it is retiring. */
  lemma RotationReplaces(sys: System, id: Identity)
    requires sys.operation.None? && sys.memory.pending.None? && id.token !in sys.gone
    requires !IsSame(sys.memory.active, Some(Registration(id, 0)))
    ensures var after := Run(sys, Rotation(id));
            && after.memory == Keys(Some(Registration(id, 1)), None, Appended(sys.memory.retiring, sys.memory.active))
            && after.saved == after.memory && after.operation.None? && after.gone == sys.gone
            && sys.accepted + {id} <= after.accepted
  {
    RotationIs(sys, id);
    var s1 := Apply(Apply(sys, Stage(id)), SaveSucceeds);
    var s2 := Apply(Apply(s1, Finish(Registration(id, 0), 1)), SaveSucceeds);
    assert s1.memory == Keys(sys.memory.active, Some(Registration(id, 0)), sys.memory.retiring);
    assert s2.memory == Keys(sys.memory.active, Some(Registration(id, 1)), sys.memory.retiring);
    assert id in MarkedIn(s2.memory);
  }

  /** Once it is unregistered and removed, the next save forgets a retiring registration, and no other one. */
  lemma RetiredIsForgotten(sys: System, id: Identity)
    ensures var after := Apply(Apply(Apply(sys, Unregister(id)), Remove(id)), SaveElsewhere);
            && after.saved == after.memory && id !in after.accepted && id.token in after.gone
            && after.memory.active == sys.memory.active && after.memory.pending == sys.memory.pending
            && (forall r :: r in after.memory.retiring <==> r in sys.memory.retiring && r.id != id)
            && forall other <- sys.accepted :: other.token != id.token ==> other in after.accepted
  {
  }

  // ---- The client's methods ----

  class PushKeys {
    var active: Option<Registration>
    var pending: Option<Registration>
    var retiring: seq<Registration>
    var saved: Keys
    ghost var accepted: set<Identity>
    ghost var gone: set<string>

    ghost function State(): System
      reads this
    {
      System(Keys(active, pending, retiring), saved, accepted, gone, {}, None)
    }

    method Save(ok: bool)
      modifies this`saved, this`accepted
      ensures State() == if ok then WithSave(old(State())) else old(State())
    {
      if ok {
        saved := Keys(active, pending, retiring);
        accepted := accepted + set id | id in MarkedIn(saved) && id.token !in gone;
      }
    }

    method PersistPending(candidate: Identity, ok: bool) returns (saves: bool)
      modifies this
      ensures State() == Apply(Apply(old(State()), Stage(candidate)), if ok then SaveSucceeds else Rollback)
        && saves == ok
      ensures !ok ==> State() == old(State())
      ensures ok ==>
        && active == old(active) && pending == Some(Registration(candidate, 0))
        && retiring == Appended(old(retiring),
             if old(pending).Some? && old(pending).value.registeredTS > 0 && old(pending).value.id != candidate
             then old(pending)
             else None)
        && saved == Keys(active, pending, retiring)
    {
      var registration := Some(Registration(candidate, 0));
      var previous, previousRetiring := pending, retiring;
      if previous.Some? && previous.value.registeredTS > 0 && !IsSame(previous, registration) {
        retiring := AppendUnique(retiring, previous);
      }
      pending := registration;
      Save(ok);
      if !ok && IsSame(pending, registration) {
        pending, retiring := previous, previousRetiring;
      }
      return ok;
    }

    method FinishPending(registration: Registration, now: nat, ok: bool) returns (done: bool)
      modifies this
      ensures State() == Apply(Apply(old(State()), Finish(registration, now)), if ok then SaveSucceeds else Rollback)
      ensures done <==> registration.registeredTS > 0 || (IsSame(old(pending), Some(registration)) && ok)
      ensures active == old(active) && retiring == old(retiring)
      ensures done && registration.registeredTS == 0 ==>
        pending == Some(Registration(registration.id, now)) && saved == Keys(active, pending, retiring)
    {
      if registration.registeredTS > 0 { return true; }
      if !IsSame(pending, Some(registration)) { return false; }
      pending := Some(pending.value.(registeredTS := now));
      Save(ok);
      if !ok && IsSame(pending, Some(registration)) {
        pending := Some(pending.value.(registeredTS := 0));
      }
      return ok;
    }

    method PromotePending(registration: Registration, ok: bool) returns (done: bool)
      modifies this
      ensures State() == Apply(Apply(old(State()), Promote(registration)), if ok then SaveSucceeds else Rollback)
      ensures done <==> IsSame(old(pending), Some(registration)) && ok
      ensures done ==>
        && active == old(pending) && pending.None? && saved == Keys(active, pending, retiring)
        && retiring == Appended(old(retiring), if IsSame(old(active), active) then None else old(active))
    {
      if !IsSame(pending, Some(registration)) { return false; }
      var previousActive, previousRetiring := active, retiring;
      if previousActive.Some? && !IsSame(previousActive, Some(registration)) {
        retiring := AppendUnique(retiring, previousActive);
      }
      active, pending := pending, None;
      Save(ok);
      if !ok && IsSame(active, Some(registration)) && pending.None? {
        active, pending, retiring := previousActive, Some(registration), previousRetiring;
      }
      return ok;
    }

    method AppendUnique(list: seq<Registration>, r: Option<Registration>) returns (appended: seq<Registration>)
      ensures appended == Appended(list, r)
    {
      if r.None? { return list; }
      for i := 0 to |list|
        invariant forall j | 0 <= j < i :: list[j].id != r.value.id
      {
        if list[i].id == r.value.id { return list; }
      }
      return list + [r.value];
    }

    // Filters in place; what is kept keeps its order.
    method RemoveRetiring(id: Identity)
      modifies this`retiring
      ensures retiring == Removed(old(retiring), id)
    {
      var filtered: seq<Registration> := [];
      for i := 0 to |retiring|
        invariant retiring == old(retiring) && filtered == Removed(retiring[..i], id)
      {
        assert retiring[..i + 1][..i] == retiring[..i];
        if retiring[i].id != id {
          filtered := filtered + [retiring[i]];
        }
      }
      assert retiring[..|retiring|] == retiring;
      retiring := filtered;
    }

    // Unregisters what is retiring, one after the other, until a request or a save fails.
    method CleanupRetiring(unregisters: seq<bool>, saves: seq<bool>) returns (done: bool)
      requires |unregisters| == |retiring| && |saves| == |retiring|
      modifies this
      ensures (State(), done) == Cleaned(old(State()), old(retiring), old(active), unregisters, saves)
    {
      hide Cleaned, Unlisted, WithSave, Removed;
      var list, spared := retiring, active;
      for i := 0 to |list|
        invariant Cleaned(old(State()), list, spared, unregisters, saves) == Cleaned(State(), list[i..], spared,
          unregisters[i..], saves[i..])
      {
        CleanedFirst(State(), list[i..], spared, unregisters[i..], saves[i..]);
        assert list[i..][1..] == list[i + 1..] && unregisters[i..][1..] == unregisters[i + 1..]
          && saves[i..][1..] == saves[i + 1..];
        if spared.Some? && spared.value.id == list[i].id { continue; }
        if !unregisters[i] { return false; }
        UnlistedIs(State(), list[i].id);
        accepted := set id | id in accepted && id.token != list[i].id.token;
        gone := gone + {list[i].id.token};
        RemoveRetiring(list[i].id);
        Save(saves[i]);
        if !saves[i] { return false; }
      }
      CleanedNone(State(), spared);
      return true;
    }
  }

  function Unlisted(sys: System, id: Identity): System {
    Apply(Apply(sys, Unregister(id)), Remove(id))
  }

  lemma UnlistedIs(sys: System, id: Identity)
    requires sys.removing == {}
    ensures Unlisted(sys, id) == sys.(
              memory := sys.memory.(retiring := Removed(sys.memory.retiring, id)),
              accepted := (set other | other in sys.accepted && other.token != id.token), gone := sys.gone + {id.token})
  {
  }

  lemma CleanedFirst(sys: System, list: seq<Registration>, spared: Option<Registration>, unregisters: seq<bool>,
    saves: seq<bool>)
    requires |unregisters| == |list| && |saves| == |list| && list != []
    ensures Cleaned(sys, list, spared, unregisters, saves) ==
      if IsSame(spared, Some(list[0])) then Cleaned(sys, list[1..], spared, unregisters[1..], saves[1..])
      else if !unregisters[0] then (sys, false)
      else if !saves[0] then (Unlisted(sys, list[0].id), false)
      else Cleaned(WithSave(Unlisted(sys, list[0].id)), list[1..], spared, unregisters[1..], saves[1..])
  {
  }

  lemma CleanedNone(sys: System, spared: Option<Registration>)
    ensures Cleaned(sys, [], spared, [], []) == (sys, true)
  {
  }

  // A cleanup is a sequence of unregistrations and saves, and it spares the active registration.
  function Cleaned(sys: System, list: seq<Registration>, spared: Option<Registration>, unregisters: seq<bool>,
    saves: seq<bool>): (r: (System, bool))
    requires |unregisters| == |list| && |saves| == |list|
    decreases |list|
  {
    if list == [] then (sys, true)
    else if IsSame(spared, Some(list[0])) then Cleaned(sys, list[1..], spared, unregisters[1..], saves[1..])
    else if !unregisters[0] then (sys, false)
    else if !saves[0] then (Unlisted(sys, list[0].id), false)
    else Cleaned(WithSave(Unlisted(sys, list[0].id)), list[1..], spared, unregisters[1..], saves[1..])
  }

  /** A cleanup that stops half-way keeps every registration that it did not unregister. */
  lemma {:induction false} CleanupKeepsAccepted(sys: System, list: seq<Registration>, spared: Option<Registration>,
    unregisters: seq<bool>, saves: seq<bool>)
    requires IsSound(sys) && sys.operation.None? && |unregisters| == |list| && |saves| == |list|
    ensures KeepsAccepted(Cleaned(sys, list, spared, unregisters, saves).0)
    ensures forall id <- sys.accepted ::
      (forall r <- list :: r.id.token != id.token) ==> id in Cleaned(sys, list, spared, unregisters, saves).0.accepted
    decreases |list|
  {
    if list != [] && IsSame(spared, Some(list[0])) {
      CleanupKeepsAccepted(sys, list[1..], spared, unregisters[1..], saves[1..]);
    } else if list != [] && unregisters[0] {
      var id := list[0].id;
      ApplyKeepsSound(sys, Unregister(id));
      ApplyKeepsSound(Apply(sys, Unregister(id)), Remove(id));
      if saves[0] {
        var unlisted := Unlisted(sys, id);
        ApplyKeepsSound(unlisted, SaveElsewhere);
        assert Apply(unlisted, SaveElsewhere) == WithSave(unlisted);
        hide IsSound, KeepsAccepted;
        CleanupKeepsAccepted(WithSave(unlisted), list[1..], spared, unregisters[1..], saves[1..]);
      }
    }
  }
}
