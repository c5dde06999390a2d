/**
 The serialization chain of login saves: pkg/connector/client.go (saveOwnedUserLogin). Every save takes
 a ticket and waits for the one before it; a caller that stops waiting leaves its ticket in the chain.
 */
module SaveChain {
  datatype Save =
    | Waiting                   // behind the previous ticket
    | Abandoned                 // its caller was cancelled; a goroutine still waits for the previous ticket
    | Started                   // the previous ticket is finished
    | Writing(version: nat)     // has its snapshot of the metadata, and writes it
    | Finished

  // The metadata's version, the saves by ticket, and the tickets and versions that were written.
  datatype Chain = Chain(version: nat, saves: seq<Save>, writers: seq<nat>, written: seq<nat>)

  datatype Step = ChangeMetadata | Take | Cancel(ticket: nat) | Start(ticket: nat) | GiveUp(ticket: nat)
    | Snapshot(ticket: nat) | Write(ticket: nat, reached: bool) | Release(ticket: nat)

  predicate IsAt(c: Chain, ticket: nat, save: Save) {
    ticket < |c.saves| && c.saves[ticket] == save
  }

  predicate IsPreviousFinished(c: Chain, ticket: nat) {
    ticket == 0 || IsAt(c, ticket - 1, Finished)
  }

  predicate IsWriting(c: Chain, ticket: nat) {
    ticket < |c.saves| && c.saves[ticket].Writing?
  }

  function Moved(c: Chain, ticket: nat, save: Save): Chain
    requires ticket < |c.saves|
  {
    c.(saves := c.saves[ticket := save])
  }

  function Apply(c: Chain, step: Step): Chain {
    match step
    case ChangeMetadata => c.(version := c.version + 1)
    case Take => c.(saves := c.saves + [Waiting])
    case Cancel(i) => if IsAt(c, i, Waiting) && i > 0 then Moved(c, i, Abandoned) else c
    case Start(i) => if IsAt(c, i, Waiting) && IsPreviousFinished(c, i) then Moved(c, i, Started) else c
    case GiveUp(i) => if IsAt(c, i, Started) then Moved(c, i, Finished) else c
    case Snapshot(i) => if IsAt(c, i, Started) then Moved(c, i, Writing(c.version)) else c
    case Write(i, reached) =>
      if !IsWriting(c, i) then c
      else Moved(c, i, Finished).(
        writers := if reached then c.writers + [i] else c.writers,
        written := if reached then c.written + [c.saves[i].version] else c.written)
    case Release(i) => if IsAt(c, i, Abandoned) && IsPreviousFinished(c, i) then Moved(c, i, Finished) else c
  }

  function Run(c: Chain, steps: seq<Step>): Chain {
    if steps == [] then c else Apply(Run(c, steps[..|steps| - 1]), steps[|steps| - 1])
  }

  const Empty := Chain(0, [], [], [])

  predicate MayGoAhead(s: Save) {
    s.Started? || s.Writing? || s.Finished?
  }

  // Whoever is past waiting has only finished tickets before it.
  predicate IsInOrder(c: Chain) {
    forall i, j | 0 <= i < j < |c.saves| :: MayGoAhead(c.saves[j]) ==> c.saves[i].Finished?
  }

  predicate IsOrderedRecord(writers: seq<nat>, written: seq<nat>) {
    && |writers| == |written|
    && forall i, j | 0 <= i < j < |writers| :: writers[i] < writers[j] && written[i] <= written[j]
  }

  // Whoever wrote is finished, and wrote no version beyond the given one.
  predicate IsPast(c: Chain, version: nat) {
    && (forall t <- c.writers :: IsAt(c, t, Finished))
    && (forall v <- c.written :: v <= version)
  }

  // A snapshot is between what was written and the present metadata.
  predicate HasOrderedWrites(c: Chain) {
    && IsOrderedRecord(c.writers, c.written) && IsPast(c, c.version)
    && forall s <- c.saves :: s.Writing? ==> IsPast(c, s.version) && s.version <= c.version
  }

  predicate IsSound(c: Chain) {
    IsInOrder(c) && HasOrderedWrites(c)
  }

  lemma ApplyKeepsOrder(c: Chain, step: Step)
    requires IsInOrder(c)
    ensures IsInOrder(Apply(c, step))
  {
  }

  lemma MoveKeepsWrites(c: Chain, i: nat, save: Save)
    requires HasOrderedWrites(c) && i < |c.saves| && !c.saves[i].Finished?
    requires save.Writing? ==> save.version == c.version
    ensures HasOrderedWrites(Moved(c, i, save))
  {
    hide IsOrderedRecord;
    var after := Moved(c, i, save);
    assert IsPast(after, c.version);
    forall s | s in after.saves && s.Writing? ensures IsPast(after, s.version) && s.version <= c.version {
      assert s in c.saves || s == save;
    }
  }

  lemma OnlyWriter(c: Chain, i: nat, j: nat)
    requires IsInOrder(c) && IsWriting(c, i) && IsWriting(c, j)
    ensures i == j
  {
    assert MayGoAhead(c.saves[i]) && MayGoAhead(c.saves[j]);
  }

  lemma WriteKeepsWrites(c: Chain, i: nat)
    requires IsSound(c) && IsWriting(c, i)
    ensures HasOrderedWrites(
      Moved(c, i, Finished).(writers := c.writers + [i], written := c.written + [c.saves[i].version]))
  {
    var after := Moved(c, i, Finished).(writers := c.writers + [i], written := c.written + [c.saves[i].version]);
    var version := c.saves[i].version;
    assert c.saves[i] in c.saves && IsPast(c, version);
    forall k | 0 <= k < |c.writers| ensures c.writers[k] < i && c.written[k] <= version {
      assert c.writers[k] in c.writers && c.written[k] in c.written && IsAt(c, c.writers[k], Finished);
      assert MayGoAhead(c.saves[i]) && MayGoAhead(c.saves[c.writers[k]]);
    }
    forall s | s in after.saves ensures !s.Writing? {
      var j :| 0 <= j < |after.saves| && after.saves[j] == s;
      if IsWriting(c, j) {
        OnlyWriter(c, i, j);
      }
    }
  }

  lemma ApplyKeepsSound(c: Chain, step: Step)
    requires IsSound(c)
    ensures IsSound(Apply(c, step))
  {
    ApplyKeepsOrder(c, step);
    hide IsInOrder, HasOrderedWrites, IsPreviousFinished;
    match step
    case ChangeMetadata => ChangeKeepsWrites(c, c.version + 1, c.saves);
    case Take => ChangeKeepsWrites(c, c.version, c.saves + [Waiting]);
    case Write(i, reached) =>
      if IsWriting(c, i) {
        if reached { WriteKeepsWrites(c, i); } else { MoveKeepsWrites(c, i, Finished); }
      }
    case Cancel(i) => if IsAt(c, i, Waiting) { MoveKeepsWrites(c, i, Abandoned); }
    case Start(i) => if IsAt(c, i, Waiting) { MoveKeepsWrites(c, i, Started); }
    case GiveUp(i) => if IsAt(c, i, Started) { MoveKeepsWrites(c, i, Finished); }
    case Snapshot(i) => if IsAt(c, i, Started) { MoveKeepsWrites(c, i, Writing(c.version)); }
    case Release(i) => if IsAt(c, i, Abandoned) { MoveKeepsWrites(c, i, Finished); }
  }

  lemma ChangeKeepsWrites(c: Chain, version: nat, saves: seq<Save>)
    requires HasOrderedWrites(c) && version >= c.version && (saves == c.saves || saves == c.saves + [Waiting])
    ensures HasOrderedWrites(c.(version := version, saves := saves))
  {
    hide IsOrderedRecord;
    var after := c.(version := version, saves := saves);
    forall s | s in saves && s.Writing? ensures IsPast(after, s.version) {
      assert s in c.saves;
    }
  }

  lemma {:induction false} RunKeepsSound(c: Chain, steps: seq<Step>)
    requires IsSound(c)
    ensures IsSound(Run(c, steps))
  {
    if steps != [] {
      RunKeepsSound(c, steps[..|steps| - 1]);
      ApplyKeepsSound(Run(c, steps[..|steps| - 1]), steps[|steps| - 1]);
    }
  }

  /**
   However saves are taken and cancelled: the finished tickets are a prefix, at most one save writes
   at any time, the writes happen in ticket order, and the written versions never go back.
   */
  lemma SavesAreOrdered(steps: seq<Step>)
    ensures var c := Run(Empty, steps);
            && (forall i, j | 0 <= i < j < |c.saves| :: c.saves[j].Finished? ==> c.saves[i].Finished?)
            && (forall i: nat, j: nat :: IsWriting(c, i) && IsWriting(c, j) ==> i == j)
            && IsOrderedRecord(c.writers, c.written)
  {
    RunKeepsSound(Empty, steps);
    var c := Run(Empty, steps);
    forall i: nat, j: nat | IsWriting(c, i) && IsWriting(c, j) ensures i == j {
      OnlyWriter(c, i, j);
    }
  }

  // The save of this ticket writes no metadata older than this version.
  predicate CoversVersion(c: Chain, ticket: nat, version: nat) {
    && version <= c.version && ticket < |c.saves| && |c.writers| == |c.written|
    && (c.saves[ticket].Writing? ==> version <= c.saves[ticket].version)
    && forall k | 0 <= k < |c.writers| && c.writers[k] == ticket :: version <= c.written[k]
  }

  lemma ApplyKeepsCovering(c: Chain, step: Step, ticket: nat, version: nat)
    requires CoversVersion(c, ticket, version)
    ensures CoversVersion(Apply(c, step), ticket, version)
  {
  }

  lemma TakeCovers(c: Chain)
    requires IsSound(c)
    ensures CoversVersion(Apply(c, Take), |c.saves|, c.version)
  {
    forall k | 0 <= k < |c.writers| ensures c.writers[k] != |c.saves| {
      assert c.writers[k] in c.writers && IsAt(c, c.writers[k], Finished);
    }
  }

  lemma {:induction false} RunKeepsCovering(c: Chain, steps: seq<Step>, ticket: nat, version: nat)
    requires CoversVersion(c, ticket, version)
    ensures CoversVersion(Run(c, steps), ticket, version)
  {
    hide CoversVersion, Apply;
    if steps != [] {
      RunKeepsCovering(c, steps[..|steps| - 1], ticket, version);
      ApplyKeepsCovering(Run(c, steps[..|steps| - 1]), steps[|steps| - 1], ticket, version);
    }
  }

  /** Whatever happens meanwhile, a save that reaches the database has every change made before it was asked for. */
  lemma SavesCoverEarlierChanges(steps: seq<Step>, more: seq<Step>, k: nat)
    requires var c := Run(Apply(Run(Empty, steps), Take), more); k < |c.writers| && k < |c.written|
    requires var c := Run(Apply(Run(Empty, steps), Take), more); c.writers[k] == |Run(Empty, steps).saves|
    ensures Run(Apply(Run(Empty, steps), Take), more).written[k] >= Run(Empty, steps).version
  {
    var before := Run(Empty, steps);
    RunKeepsSound(Empty, steps);
    TakeCovers(before);
    RunKeepsCovering(Apply(before, Take), more, |before.saves|, before.version);
  }

  /** A save whose turn it is and that is not given up does write the metadata as it is then. */
  lemma SaveReaches(c: Chain, ticket: nat)
    requires IsAt(c, ticket, Waiting) && IsPreviousFinished(c, ticket)
    ensures var after := Apply(Apply(Apply(c, Start(ticket)), Snapshot(ticket)), Write(ticket, true));
            && IsAt(after, ticket, Finished) && after.version == c.version
            && after.writers == c.writers + [ticket] && after.written == c.written + [c.version]
  {
  }

  function FirstOpen(saves: seq<Save>): (i: nat)
    ensures i <= |saves| && (forall j | 0 <= j < i :: saves[j].Finished?) && (i < |saves| ==> !saves[i].Finished?)
  {
    if saves == [] || !saves[0].Finished? then 0 else 1 + FirstOpen(saves[1..])
  }

  /** No cancellation can block the chain: the first open ticket can always finish on its own. */
  lemma ChainNeverBlocks(steps: seq<Step>)
    ensures var c := Run(Empty, steps);
            FirstOpen(c.saves) < |c.saves| ==>
              exists more: seq<Step> :: |more| <= 3 && IsAt(Run(c, more), FirstOpen(c.saves), Finished)
  {
    var c := Run(Empty, steps);
    var i := FirstOpen(c.saves);
    if i < |c.saves| {
      var more := match c.saves[i]
        case Waiting => [Start(i), GiveUp(i)]
        case Abandoned => [Release(i)]
        case Started => [GiveUp(i)]
        case Writing(_) => [Write(i, true)];
      RunOne(c, more[..1]);
      if |more| == 2 {
        assert more[..|more| - 1] == more[..1];
      } else {
        assert more[..1] == more;
      }
      assert IsAt(Run(c, more), i, Finished);
    }
  }

  lemma RunOne(c: Chain, steps: seq<Step>)
    requires |steps| == 1
    ensures Run(c, steps) == Apply(c, steps[0])
  {
    assert Run(c, steps[..0]) == c;
  }

  // The part of the client that saves; other goroutines run between any two of its methods.
  class Saver {
    var version: nat
    var saves: seq<Save>
    var writers: seq<nat>
    var written: seq<nat>

    function State(): Chain
      reads this
    {
      Chain(version, saves, writers, written)
    }

    constructor ()
      ensures State() == Empty
    {
      version, saves, writers, written := 0, [], [], [];
    }

    method TakeTicket() returns (ticket: nat)
      modifies this
      ensures State() == Apply(old(State()), Take) && ticket == |old(saves)|
    {
      ticket := |saves|;
      saves := saves + [Waiting];
    }

    // Wakes up because the previous save is finished or because the caller was cancelled.
    method Await(ticket: nat, cancelled: bool) returns (waits: bool)
      requires IsAt(State(), ticket, Waiting) && (IsPreviousFinished(State(), ticket) || cancelled)
      modifies this`saves
      ensures State() == Apply(old(State()), if cancelled && ticket > 0 then Cancel(ticket) else Start(ticket))
      ensures waits <==> IsAt(State(), ticket, Started)
      ensures waits <==> !(cancelled && ticket > 0)
      ensures saves == old(saves)[ticket := if waits then Started else Abandoned]
    {
      if ticket > 0 && cancelled {
        saves := saves[ticket := Abandoned];
        return false;
      }
      saves := saves[ticket := Started];
      return true;
    }

    method Save(ticket: nat, cancelled: bool, reached: bool) returns (ok: bool)
      requires IsAt(State(), ticket, Started)
      modifies this
      ensures State() == if cancelled then Apply(old(State()), GiveUp(ticket))
        else Apply(Apply(old(State()), Snapshot(ticket)), Write(ticket, reached))
      ensures ok <==> !cancelled && reached
      ensures version == old(version) && saves == old(saves)[ticket := Finished]
      ensures ok ==> writers == old(writers) + [ticket] && written == old(written) + [version]
      ensures !ok ==> writers == old(writers) && written == old(written)
    {
      if !cancelled {
        var snapshot := version;
        if reached {
          writers, written := writers + [ticket], written + [snapshot];
        }
      }
      saves := saves[ticket := Finished];
      assert old(saves)[ticket := Writing(old(version))][ticket := Finished] == saves;
      return !cancelled && reached;
    }
  }
}
