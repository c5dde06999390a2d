/**
 One reconciliation of a fetched conversation with the sends that still wait for their echo
 (reconcileOutboundConversation in pkg/connector/outbound.go): the candidate graph, the blocking of
 components with an unverified edge, the claims of forced pairs, and the split of the fetched
 messages into delivered, held and directly finalized ones.
 */
module EchoReconciliation {
  import opened Wrappers
  import opened BipartiteMatching
  import opened EchoMatching
  import opened RemoteIDs
  import opened Sequences

  // What the candidate check says of a send and a message. Unknown stands for an image relation that
  // could not be verified; Failed for a database error.
  datatype Verdict = Match | NoMatch | Unknown | Failed

  // The outcome of the guarded claim, after the reload when the claim changed no row.
  datatype ClaimOutcome = Claimed | AlreadyResolved | GraphChanged

  datatype ReconcileError = CandidateCheckFailed | FinalizeFailed | ClaimFailed

  // What the run reads from its surroundings.
  datatype Surroundings = Surroundings(
    resolvedBy: map<MessageID, TransactionID>,
    isActive: TransactionID -> bool,
    finalizes: TransactionID -> bool,
    verdict: (TransactionID, MessageID) -> Verdict,
    claim: TransactionID -> ClaimOutcome)

  datatype Reconciliation = Reconciliation(
    transactions: map<MessageID, TransactionID>,
    held: set<MessageID>,
    finalized: set<MessageID>,
    delivered: seq<MessageID>)

  function Check(env: Surroundings, t: TransactionID, v: MessageID): Verdict {
    if IsValidOutboundRemoteID(v) then env.verdict(t, v) else NoMatch
  }

  // ---- The candidate graph ----

  ghost function EdgesWith(
    env: Surroundings, sends: seq<TransactionID>, messages: set<MessageID>,
      verdict: Verdict): set<(TransactionID, MessageID)>
  {
    set t, v | t in sends && v in messages && Check(env, t, v) == verdict :: (t, v)
  }

  // A complete account of which send produced which message, as far as the checks can tell.
  ghost predicate IsPossible(
    env: Surroundings, sends: seq<TransactionID>, messages: set<MessageID>, truth: set<(TransactionID, MessageID)>)
  {
    EdgesWith(env, sends, messages, Match) <= truth
    <= EdgesWith(env, sends, messages, Match) + EdgesWith(env, sends, messages, Unknown)
  }

  // The messages that still look for their send.
  ghost function OpenMessages(messageIDs: seq<MessageID>, resolved: set<MessageID>): set<MessageID> {
    set v | v in messageIDs && v !in resolved
  }

  ghost function Senders(edges: set<(TransactionID, MessageID)>): set<TransactionID> {
    set e | e in edges :: e.0
  }

  ghost function Targets(edges: set<(TransactionID, MessageID)>): set<MessageID> {
    set e | e in edges :: e.1
  }

  ghost function Star(t: TransactionID, vs: set<MessageID>): set<(TransactionID, MessageID)> {
    set v | v in vs :: (t, v)
  }

  lemma ProjectStar(edges: set<(TransactionID, MessageID)>, t: TransactionID, vs: set<MessageID>)
    ensures Senders(edges + Star(t, vs)) == Senders(edges) + (if vs == {} then {} else {t})
    ensures Targets(edges + Star(t, vs)) == Targets(edges) + vs
  {
    var all := edges + Star(t, vs);
    forall v | v in vs ensures t in Senders(all) && v in Targets(all) {
      assert (t, v) in all;
    }
    forall u | u in Senders(edges) ensures u in Senders(all) {
      var e :| e in edges && e.0 == u;
      assert e in all;
    }
    forall v | v in Targets(edges) ensures v in Targets(all) {
      var e :| e in edges && e.1 == v;
      assert e in all;
    }
  }

  method CandidatesOf(env: Surroundings, t: TransactionID, messageIDs: seq<MessageID>, resolved: set<MessageID>)
    returns (checked: bool, matches: seq<MessageID>, unknown: set<MessageID>)
    ensures var open := OpenMessages(messageIDs, resolved);
            if checked then
              && (forall v :: v in matches <==> v in open && Check(env, t, v) == Match)
              && (forall v :: v in unknown <==> v in open && Check(env, t, v) == Unknown)
              && (forall v | v in open :: Check(env, t, v) != Failed)
            else
              exists v | v in open :: Check(env, t, v) == Failed
  {
    matches, unknown := [], {};
    for j := 0 to |messageIDs|
      invariant forall v :: v in matches <==> v in messageIDs[..j] && v !in resolved && Check(env, t, v) == Match
      invariant forall v :: v in unknown <==> v in messageIDs[..j] && v !in resolved && Check(env, t, v) == Unknown
      invariant forall v | v in messageIDs[..j] && v !in resolved :: Check(env, t, v) != Failed
    {
      var v := messageIDs[j];
      assert messageIDs[..j + 1] == messageIDs[..j] + [v];
      if v in resolved {
        continue;
      }
      match Check(env, t, v) {
        case Match => matches := matches + [v];
        case Unknown => unknown := unknown + {v};
        case NoMatch =>
        case Failed => return false, matches, unknown;
      }
    }
    assert messageIDs[..|messageIDs|] == messageIDs;
    checked := true;
  }

  ghost predicate AreSetsOf(sets: seq<CandidateSet>, sends: seq<TransactionID>) {
    && |sets| == |sends|
    && (forall i | 0 <= i < |sends| :: sets[i].send == Some(sends[i]) && "" !in sets[i].messageIDs)
  }

  // The candidate sets, the quarantine and the initial blocks belong to these sends.
  ghost predicate IsBuiltFrom(
    env: Surroundings, sends: seq<TransactionID>, open: set<MessageID>,
    sets: seq<CandidateSet>, quarantine: set<MessageID>, blockedSends: set<TransactionID>,
      blockedMessages: set<MessageID>)
  {
    var known, unknown := EdgesWith(env, sends, open, Match), EdgesWith(env, sends, open, Unknown);
    && AreSetsOf(sets, sends)
    && Relation(sets) == known
    && blockedSends == Senders(unknown)
    && blockedMessages == Targets(unknown)
    && quarantine == Targets(known) + Targets(unknown)
    && EdgesWith(env, sends, open, Failed) == {}
  }

  method BuildCandidateSets(
    env: Surroundings, sends: seq<TransactionID>, messageIDs: seq<MessageID>, resolved: set<MessageID>)
    returns (built: bool, sets: seq<CandidateSet>, quarantine: set<MessageID>,
             blockedSends: set<TransactionID>, blockedMessages: set<MessageID>)
    ensures built ==>
      IsBuiltFrom(env, sends, OpenMessages(messageIDs, resolved), sets, quarantine, blockedSends, blockedMessages)
    ensures !built <==> EdgesWith(env, sends, OpenMessages(messageIDs, resolved), Failed) != {}
  {
    sets, quarantine, blockedSends, blockedMessages := [], {}, {}, {};
    ghost var open := OpenMessages(messageIDs, resolved);
    assert sends[..0] == [];
    for i := 0 to |sends|
      invariant IsBuiltFrom(env, sends[..i], open, sets, quarantine, blockedSends, blockedMessages)
    {
      hide IsBuiltFrom;
      var t := sends[i];
      var checked, matches, unknown := CandidatesOf(env, t, messageIDs, resolved);
      if !checked {
        ghost var v :| v in open && Check(env, t, v) == Failed;
        assert (t, v) in EdgesWith(env, sends, open, Failed);
        built := false;
        return;
      }
      BuildStep(env, sends, i, open, sets, matches, unknown, quarantine, blockedSends, blockedMessages);
      if unknown != {} {
        blockedSends := blockedSends + {t};
      }
      blockedMessages := blockedMessages + unknown;
      quarantine := quarantine + unknown + set v | v in matches;
      sets := sets + [CandidateSet(Some(t), matches)];
    }
    assert sends[..|sends|] == sends;
    built := true;
  }

  lemma BuildStep(
    env: Surroundings, sends: seq<TransactionID>, i: nat, open: set<MessageID>,
    sets: seq<CandidateSet>, matches: seq<MessageID>, unknown: set<MessageID>,
    quarantine: set<MessageID>, blockedSends: set<TransactionID>, blockedMessages: set<MessageID>)
    requires i < |sends|
    requires IsBuiltFrom(env, sends[..i], open, sets, quarantine, blockedSends, blockedMessages)
    requires forall v :: v in matches <==> v in open && Check(env, sends[i], v) == Match
    requires forall v :: v in unknown <==> v in open && Check(env, sends[i], v) == Unknown
    requires forall v | v in open :: Check(env, sends[i], v) != Failed
    ensures IsBuiltFrom(
              env, sends[..i + 1], open, sets + [CandidateSet(Some(sends[i]), matches)],
              quarantine + unknown + (set v | v in matches),
              blockedSends + (if unknown == {} then {} else {sends[i]}), blockedMessages + unknown)
  {
    hide EdgesWith, Star, Senders, Targets, Relation, Check, AreSetsOf;
    BuildStepShape(env, sends, i, sets, matches);
    var matched := set v | v in matches;
    AddCandidateSet(env, sends, i, open, sets, matches, unknown);
    ProjectStar(EdgesWith(env, sends[..i], open, Match), sends[i], matched);
    ProjectStar(EdgesWith(env, sends[..i], open, Unknown), sends[i], unknown);
  }

  lemma BuildStepShape(env: Surroundings, sends: seq<TransactionID>, i: nat, sets: seq<CandidateSet>,
    matches: seq<MessageID>)
    requires i < |sends| && AreSetsOf(sets, sends[..i])
    requires forall v <- matches :: Check(env, sends[i], v) == Match
    ensures |sets| == i && AreSetsOf(sets + [CandidateSet(Some(sends[i]), matches)], sends[..i + 1])
  {
  }

  lemma AddCandidateSet(
    env: Surroundings, sends: seq<TransactionID>, i: nat, open: set<MessageID>,
    sets: seq<CandidateSet>, matches: seq<MessageID>, unknown: set<MessageID>)
    requires i < |sends| && |sets| == i
    requires forall v :: v in matches <==> v in open && Check(env, sends[i], v) == Match
    requires forall v :: v in unknown <==> v in open && Check(env, sends[i], v) == Unknown
    requires forall v | v in open :: Check(env, sends[i], v) != Failed
    ensures Relation(sets + [CandidateSet(Some(sends[i]), matches)]) == Relation(sets) + Star(sends[i],
      set v | v in matches)
    ensures EdgesWith(env, sends[..i + 1], open, Match) == EdgesWith(env, sends[..i], open, Match) + Star(sends[i],
      set v | v in matches)
    ensures EdgesWith(env, sends[..i + 1], open, Unknown) == EdgesWith(env, sends[..i], open, Unknown) + Star(sends[i],
      unknown)
    ensures EdgesWith(env, sends[..i + 1], open, Failed) == EdgesWith(env, sends[..i], open, Failed)
  {
    assert sends[..i + 1] == sends[..i] + [sends[i]];
    var grown := sets + [CandidateSet(Some(sends[i]), matches)];
    forall v | v in matches ensures (i, v) in Edges(grown) {
      assert v != "";
      var k :| 0 <= k < |matches| && matches[k] == v;
      assert grown[i].messageIDs[k] == v;
    }
    forall e | e in Edges(sets) ensures e in Edges(grown) {
      assert grown[e.0] == sets[e.0];
    }
    forall e | e in Edges(grown) ensures e in Edges(sets) || (e.0 == i && e.1 in matches) {
      if e.0 < i {
        assert grown[e.0] == sets[e.0];
      }
    }
    var added := Star(sends[i], set v | v in matches);
    forall r | r in Relation(sets) + added ensures r in Relation(grown) {
      if r in Relation(sets) {
        var e :| e in Edges(sets) && sets[e.0].send.Some? && r == (sets[e.0].send.value, e.1);
        assert e in Edges(grown) && grown[e.0] == sets[e.0];
      } else {
        assert (i, r.1) in Edges(grown) && grown[i].send == Some(r.0);
      }
    }
    forall r | r in Relation(grown) ensures r in Relation(sets) + added {
      var e :| e in Edges(grown) && grown[e.0].send.Some? && r == (grown[e.0].send.value, e.1);
      if e.0 < i {
        assert grown[e.0] == sets[e.0];
      }
    }
  }

  // ---- Blocking components with an unverified edge ----

  ghost predicate IsClosedUnder(
    edges: set<(TransactionID, MessageID)>, senders: set<TransactionID>, messages: set<MessageID>)
  {
    forall e <- edges :: e.0 in senders <==> e.1 in messages
  }

  ghost predicate IsLeastClosure(
    edges: set<(TransactionID, MessageID)>, initialSends: set<TransactionID>, initialMessages: set<MessageID>,
    blockedSends: set<TransactionID>, blockedMessages: set<MessageID>)
  {
    && IsClosedUnder(edges, blockedSends, blockedMessages)
    && IsLeastSoFar(edges, initialSends, initialMessages, blockedSends, blockedMessages)
  }

  ghost predicate HaveProperCandidates(sets: seq<CandidateSet>) {
    forall i | 0 <= i < |sets| :: sets[i].send.Some? && "" !in sets[i].messageIDs
  }

  /** Grows the blocked sends and messages to the least pair that no candidate edge leaves. */
  method CloseBlocked(sets: seq<CandidateSet>, initialSends: set<TransactionID>, initialMessages: set<MessageID>)
    returns (blockedSends: set<TransactionID>, blockedMessages: set<MessageID>)
    requires HaveProperCandidates(sets)
    ensures IsLeastClosure(Relation(sets), initialSends, initialMessages, blockedSends, blockedMessages)
  {
    hide IsLeastSoFar, IsClosedUnder, Room, Agree, Relation;
    blockedSends, blockedMessages := initialSends, initialMessages;
    ghost var edges := Relation(sets);
    NothingIsBlockedYet(edges, initialSends, initialMessages);
    var changed := true;
    while changed
      invariant IsLeastSoFar(edges, initialSends, initialMessages, blockedSends, blockedMessages)
      invariant !changed ==> Agree(sets, |sets|, blockedSends, blockedMessages)
      decreases Room(edges, blockedSends, blockedMessages), changed
    {
      changed := false;
      NoSetsAgree(sets, blockedSends, blockedMessages);
      ghost var room := Room(edges, blockedSends, blockedMessages);
      for i := 0 to |sets|
        invariant IsLeastSoFar(edges, initialSends, initialMessages, blockedSends, blockedMessages)
        invariant Room(edges, blockedSends, blockedMessages) <= room
        invariant changed ==> Room(edges, blockedSends, blockedMessages) < room
        invariant !changed ==> Agree(sets, i, blockedSends, blockedMessages)
      {
        ghost var roomBefore := Room(edges, blockedSends, blockedMessages);
        var grew: bool;
        blockedSends, blockedMessages,
          grew := BlockNeighbours(sets, i, blockedSends, blockedMessages, initialSends, initialMessages);
        changed := changed || grew;
      }
    }
    AgreementIsClosure(sets, blockedSends, blockedMessages);
  }

  lemma NothingIsBlockedYet(edges: set<(TransactionID, MessageID)>, initialSends: set<TransactionID>,
    initialMessages: set<MessageID>)
    ensures IsLeastSoFar(edges, initialSends, initialMessages, initialSends, initialMessages)
  {
  }

  lemma NoSetsAgree(sets: seq<CandidateSet>, blockedSends: set<TransactionID>, blockedMessages: set<MessageID>)
    ensures Agree(sets, 0, blockedSends, blockedMessages)
  {
  }

  method BlockNeighbours(
    sets: seq<CandidateSet>, i: nat, sends: set<TransactionID>, messages: set<MessageID>,
    ghost initialSends: set<TransactionID>, ghost initialMessages: set<MessageID>)
    returns (blockedSends: set<TransactionID>, blockedMessages: set<MessageID>, changed: bool)
    requires i < |sets| && HaveProperCandidates(sets)
    requires IsLeastSoFar(Relation(sets), initialSends, initialMessages, sends, messages)
    ensures IsLeastSoFar(Relation(sets), initialSends, initialMessages, blockedSends, blockedMessages)
    ensures !changed ==> blockedSends == sends && blockedMessages == messages
    ensures !changed ==> Agree(sets, i, sends, messages) ==> Agree(sets, i + 1, sends, messages)
    ensures changed ==> Room(Relation(sets), blockedSends, blockedMessages) < Room(Relation(sets), sends, messages)
  {
    hide IsLeastSoFar, Room, Relation;
    blockedSends, blockedMessages, changed := sends, messages, false;
    ghost var edges := Relation(sets);
    var send := sets[i].send.value;
    var sendBlocked := send in blockedSends;
    for k := 0 to |sets[i].messageIDs|
      invariant sendBlocked == (send in blockedSends)
      invariant IsLeastSoFar(edges, initialSends, initialMessages, blockedSends, blockedMessages)
      invariant !changed ==> blockedSends == sends && blockedMessages == messages
      invariant !changed ==> forall j | 0 <= j < k :: sendBlocked <==> sets[i].messageIDs[j] in blockedMessages
      invariant changed ==> Room(edges, blockedSends, blockedMessages) < Room(edges, sends, messages)
    {
      var messageID := sets[i].messageIDs[k];
      var messageBlocked := messageID in blockedMessages;
      EdgeInRelation(sets, i, k);
      if sendBlocked && !messageBlocked {
        GrowBlocked(edges, initialSends, initialMessages, blockedSends, blockedMessages, send, messageID);
        blockedMessages := blockedMessages + {messageID};
        changed := true;
      } else if messageBlocked && !sendBlocked {
        GrowBlocked(edges, initialSends, initialMessages, blockedSends, blockedMessages, send, messageID);
        blockedSends := blockedSends + {send};
        sendBlocked := true;
        changed := true;
      }
    }
  }

  ghost function Room(
    edges: set<(TransactionID, MessageID)>, blockedSends: set<TransactionID>, blockedMessages: set<MessageID>): nat
  {
    |Senders(edges) - blockedSends| + |Targets(edges) - blockedMessages|
  }

  // The first count sets and their candidates are blocked together or not at all.
  ghost predicate Agree(sets: seq<CandidateSet>, count: nat, blockedSends: set<TransactionID>,
    blockedMessages: set<MessageID>) {
    forall i, k | 0 <= i < count && i < |sets| && 0 <= k < |sets[i].messageIDs| && sets[i].send.Some? ::
      sets[i].send.value in blockedSends <==> sets[i].messageIDs[k] in blockedMessages
  }

  lemma AgreementIsClosure(sets: seq<CandidateSet>, blockedSends: set<TransactionID>, blockedMessages: set<MessageID>)
    requires Agree(sets, |sets|, blockedSends, blockedMessages)
    ensures IsClosedUnder(Relation(sets), blockedSends, blockedMessages)
  {
    forall r | r in Relation(sets) ensures r.0 in blockedSends <==> r.1 in blockedMessages {
      var e :| e in Edges(sets) && sets[e.0].send.Some? && r == (sets[e.0].send.value, e.1);
      var k :| 0 <= k < |sets[e.0].messageIDs| && sets[e.0].messageIDs[k] == e.1;
    }
  }

  ghost predicate IsLeastSoFar(
    edges: set<(TransactionID, MessageID)>, initialSends: set<TransactionID>, initialMessages: set<MessageID>,
    blockedSends: set<TransactionID>, blockedMessages: set<MessageID>)
  {
    && initialSends <= blockedSends && initialMessages <= blockedMessages
    && forall senders, messages | initialSends <= senders && initialMessages <= messages
      && IsClosedUnder(edges, senders, messages) ::
         blockedSends <= senders && blockedMessages <= messages
  }

  lemma EdgeInRelation(sets: seq<CandidateSet>, i: nat, k: nat)
    requires i < |sets| && k < |sets[i].messageIDs| && sets[i].send.Some? && sets[i].messageIDs[k] != ""
    ensures (sets[i].send.value, sets[i].messageIDs[k]) in Relation(sets)
  {
    assert (i, sets[i].messageIDs[k]) in Edges(sets);
  }

  lemma GrowBlocked(
    edges: set<(TransactionID, MessageID)>, initialSends: set<TransactionID>, initialMessages: set<MessageID>,
    blockedSends: set<TransactionID>, blockedMessages: set<MessageID>, t: TransactionID, v: MessageID)
    requires IsLeastSoFar(edges, initialSends, initialMessages, blockedSends, blockedMessages)
    requires (t, v) in edges && (t in blockedSends <==> v !in blockedMessages)
    ensures IsLeastSoFar(edges, initialSends, initialMessages, blockedSends + {t}, blockedMessages + {v})
    ensures Room(edges, blockedSends + {t}, blockedMessages + {v}) < Room(edges, blockedSends, blockedMessages)
    ensures t in blockedSends ==> blockedSends + {t} == blockedSends
    ensures v in blockedMessages ==> blockedMessages + {v} == blockedMessages
  {
    assert t in Senders(edges) && v in Targets(edges);
    assert Senders(edges) - (blockedSends + {t}) == Senders(edges) - blockedSends - {t};
    assert Targets(edges) - (blockedMessages + {v}) == Targets(edges) - blockedMessages - {v};
  }

  // ---- Claims ----

  method EligibleSets(sets: seq<CandidateSet>, blockedSends: set<TransactionID>) returns (eligible: seq<CandidateSet>)
    requires HaveDistinctSends(sets)
    ensures HaveDistinctSends(eligible)
    ensures Relation(eligible) == EdgesOutside(Relation(sets), blockedSends)
  {
    eligible := [];
    for i := 0 to |sets|
      invariant HaveDistinctSends(eligible)
      invariant forall set_ :: set_ in eligible <==> set_ in sets[..i] && set_.send.value !in blockedSends
    {
      assert sets[..i + 1] == sets[..i] + [sets[i]];
      if sets[i].send.value !in blockedSends {
        eligible := eligible + [sets[i]];
      }
    }
    assert sets[..|sets|] == sets;
    RelationOfKept(sets, eligible, blockedSends);
  }

  lemma RelationOfMember(sets: seq<CandidateSet>, t: TransactionID, v: MessageID)
    ensures (t, v) in Relation(sets) <==> v != "" && exists set_ <- sets :: set_.send == Some(t) && v in set_.messageIDs
  {
    if (t, v) in Relation(sets) {
      var e :| e in Edges(sets) && sets[e.0].send == Some(t) && e.1 == v;
      assert sets[e.0] in sets;
    }
    if set_ :| set_ in sets && set_.send == Some(t) && v in set_.messageIDs && v != "" {
      var i :| 0 <= i < |sets| && sets[i] == set_;
      var k :| 0 <= k < |set_.messageIDs| && set_.messageIDs[k] == v;
      assert (i, sets[i].messageIDs[k]) in Edges(sets);
    }
  }

  lemma RelationOfKept(sets: seq<CandidateSet>, kept: seq<CandidateSet>, blockedSends: set<TransactionID>)
    requires HaveDistinctSends(sets)
    requires forall set_ :: set_ in kept <==> set_ in sets && set_.send.value !in blockedSends
    ensures Relation(kept) == EdgesOutside(Relation(sets), blockedSends)
  {
    hide Relation;
    forall e: (TransactionID, MessageID)
      ensures e in Relation(kept) <==> e in EdgesOutside(Relation(sets), blockedSends) {
      assert e == (e.0, e.1);
      RelationOfMember(sets, e.0, e.1);
      RelationOfMember(kept, e.0, e.1);
    }
  }

  // A pair is settled when it belongs to every largest explanation of the fetched messages by the
  // waiting sends, whichever way the unverified relations turn out.
  ghost predicate IsSettled(
    env: Surroundings, sends: seq<TransactionID>, open: set<MessageID>, t: TransactionID, v: MessageID)
  {
    forall truth | IsPossible(env, sends, open, truth) :: IsForced(truth, t, v)
  }

  // A send is clear when some pair of sends and messages holds every unverified relation, is left by
  // no candidate edge, and does not contain it.
  ghost predicate IsClear(env: Surroundings, sends: seq<TransactionID>, open: set<MessageID>, t: TransactionID) {
    var known, unknown := EdgesWith(env, sends, open, Match), EdgesWith(env, sends, open, Unknown);
    exists senders, messages | IsClosedUnder(known, senders, messages) ::
      Senders(unknown) <= senders && Targets(unknown) <= messages && t !in senders
  }

  /** Claimed pairs are settled; for a send outside every blocked component, settled pairs are claimed. */
  lemma ClaimsAreSettled(
    env: Surroundings, sends: seq<TransactionID>, open: set<MessageID>,
    blockedSends: set<TransactionID>, blockedMessages: set<MessageID>, t: TransactionID, v: MessageID)
    requires IsLeastClosure(
               EdgesWith(env, sends, open, Match), Senders(EdgesWith(env, sends, open, Unknown)),
               Targets(EdgesWith(env, sends, open, Unknown)), blockedSends, blockedMessages)
    ensures IsForced(EdgesOutside(EdgesWith(env, sends, open, Match), blockedSends), t, v)
        <==> t !in blockedSends && IsSettled(env, sends, open, t, v)
  {
    hide IsForced;
    var known, unknown := EdgesWith(env, sends, open, Match), EdgesWith(env, sends, open, Unknown);
    var outside := EdgesOutside(known, blockedSends);
    if IsForced(outside, t, v) {
      ForcedIsEdge(outside, t, v);
    }
    forall truth: set<(TransactionID, MessageID)> | t !in blockedSends && IsPossible(env, sends, open, truth)
      ensures IsForced(outside, t, v) <==> IsForced(truth, t, v)
    {
      var extra := truth - known;
      assert truth == known + extra;
      forall e: (TransactionID, MessageID) | e in extra ensures e.0 in blockedSends && e.1 in blockedMessages {
        assert e in unknown;
        assert e.0 in Senders(unknown) && e.1 in Targets(unknown);
      }
      UnknownEdgesKeepForced(known, extra, blockedSends, blockedMessages, t, v);
    }
    assert IsPossible(env, sends, open, known);
  }

  // Two sends, one fetched message: it matches the first send, and nothing is known of the second.
  function OneUnverifiedRelation(): Surroundings {
    Surroundings(map[], _ => true, _ => true, (t: TransactionID, v: MessageID) => if t == "a" then Match
      else Unknown, _ => Claimed)
  }

  /** Without the blocking, an unverified relation could make a wrong pair look forced. */
  lemma UnblockedClaimCouldBeWrong()
    ensures IsForced(EdgesWith(OneUnverifiedRelation(), ["a", "b"], {"x"}, Match), "a", "x")
    ensures !IsSettled(OneUnverifiedRelation(), ["a", "b"], {"x"}, "a", "x")
  {
    var env, sends, open := OneUnverifiedRelation(), ["a", "b"], {"x"};
    UnverifiedEdges();
    hide EdgesWith, IsForced;
    LoneMessageMatching({("a", "x")}, "x", "a");
    var truth := {("a", "x"), ("b", "x")};
    assert IsPossible(env, sends, open, truth);
    LoneMessageMatching(truth, "x", "b");
    OtherMatching(truth, "x", "a", "b");
  }

  lemma UnverifiedEdges()
    ensures EdgesWith(OneUnverifiedRelation(), ["a", "b"], {"x"}, Match) == {("a", "x")}
    ensures EdgesWith(OneUnverifiedRelation(), ["a", "b"], {"x"}, Unknown) == {("b", "x")}
  {
    assert IsValidOutboundRemoteID("x") by {
      assert 'x' in "x" && !IsSpace('x');
    }
  }

  lemma OtherMatching(edges: set<(TransactionID, MessageID)>, v: MessageID, t: TransactionID, other: TransactionID)
    requires IsMaximum(edges, map[v := other]) && t != other
    ensures !IsForced(edges, t, v)
  {
    assert map[v := other][v] == other;
  }

  lemma LoneMessageMatching(edges: set<(TransactionID, MessageID)>, v: MessageID, t: TransactionID)
    requires (t, v) in edges && forall e <- edges :: e.1 == v
    ensures IsMaximum(edges, map[v := t])
    ensures edges == {(t, v)} ==> IsForced(edges, t, v)
  {
    assert IsMatching(edges, map[v := t]);
    forall m | IsMatching(edges, m) ensures |m| <= 1 {
      forall w | w in m ensures w == v {
        assert (m[w], w) in edges;
      }
      SubsetSize(m.Keys, {v});
    }
    forall m | IsMaximum(edges, m) && edges == {(t, v)} ensures v in m && m[v] == t {
      assert |m| == 1;
      var w :| w in m;
      assert (m[w], w) in edges;
    }
  }

  // ---- The whole run ----

  ghost function ResolvedMessages(env: Surroundings): set<MessageID> {
    set v | v in env.resolvedBy && IsValidOutboundRemoteID(v)
  }

  ghost predicate IsWaitedFor(env: Surroundings, sends: seq<TransactionID>, v: MessageID) {
    exists t <- sends :: Check(env, t, v) != NoMatch
  }

  // A send owns a message when its row already did, or when the pair is settled and the send cannot be mixed
  // up with an unverified one.
  ghost predicate IsOwned(env: Surroundings, sends: seq<TransactionID>, open: set<MessageID>, t: TransactionID,
    v: MessageID) {
    || (v in ResolvedMessages(env) && env.resolvedBy[v] == t)
    || (v in open && IsClear(env, sends, open, t) && IsSettled(env, sends, open, t, v))
  }

  ghost predicate IsOwnedByListener(env: Surroundings, sends: seq<TransactionID>, open: set<MessageID>,
    t: TransactionID, v: MessageID) {
    env.isActive(t) && IsOwned(env, sends, open, t, v)
  }

  ghost predicate IsFinalizedByOwner(env: Surroundings, sends: seq<TransactionID>, open: set<MessageID>, v: MessageID) {
    exists t :: !env.isActive(t) && env.finalizes(t) && IsOwned(env, sends, open, t, v)
  }

  // Where the messages stand before they are filtered.
  ghost predicate AreSorted(
    env: Surroundings, sends: seq<TransactionID>, open: set<MessageID>,
    transactions: map<MessageID, TransactionID>, finalized: set<MessageID>)
  {
    && (forall v <- transactions.Keys :: IsOwnedByListener(env, sends, open, transactions[v], v))
    && (forall v <- finalized :: IsFinalizedByOwner(env, sends, open, v))
    && transactions.Keys !! finalized
  }

  // The message goes out under the transaction of the send that owns it, or is finalized if nobody listens.
  predicate IsPlaced(env: Surroundings, transactions: map<MessageID, TransactionID>, finalized: set<MessageID>,
    t: TransactionID, v: MessageID) {
    if env.isActive(t) then v in transactions && transactions[v] == t else v in finalized
  }

  function Without(messageIDs: seq<MessageID>, dropped: set<MessageID>): (kept: seq<MessageID>)
    ensures forall v :: v in kept <==> v in messageIDs && v !in dropped
  {
    Filter(messageIDs, v => v !in dropped)
  }

  ghost predicate IsReconciled(
    env: Surroundings, sends: seq<TransactionID>, messageIDs: seq<MessageID>, r: Reconciliation)
  {
    var open := OpenMessages(messageIDs, ResolvedMessages(env));
    // Every fetched message is delivered in its place, held, or finalized.
    && r.delivered == Without(messageIDs, r.finalized + r.held)
    && r.transactions.Keys + r.finalized <= (set v | v in messageIDs)
    // A message goes out under a transaction, or is finalized, exactly if a send owns it.
    && AreSorted(env, sends, open, r.transactions, r.finalized)
    && (forall t, v | v in messageIDs && IsOwned(env, sends, open, t, v) ::
          IsPlaced(env, r.transactions, r.finalized, t, v))
    // The others are held exactly if a waiting send could have produced them.
    && (forall v :: v in r.held <==> IsHeldBack(env, sends, open, r, v))
  }

  ghost predicate IsHeldBack(
    env: Surroundings, sends: seq<TransactionID>, open: set<MessageID>, r: Reconciliation, v: MessageID)
  {
    v in open && IsWaitedFor(env, sends, v) && v !in r.transactions && v !in r.finalized
  }

  /** The surroundings leave only one reconciliation. */
  lemma OneReconciliation(
    env: Surroundings, sends: seq<TransactionID>, messageIDs: seq<MessageID>, r: Reconciliation, r': Reconciliation)
    requires IsReconciled(env, sends, messageIDs, r) && IsReconciled(env, sends, messageIDs, r')
    ensures r == r'
  {
    hide IsOwned, IsWaitedFor;
    PlacedAlike(env, sends, messageIDs, r, r');
    PlacedAlike(env, sends, messageIDs, r', r);
    assert r.transactions == r'.transactions && r.finalized == r'.finalized;
    hide AreSorted;
    forall v ensures v in r.held <==> v in r'.held {
      var open := OpenMessages(messageIDs, ResolvedMessages(env));
      assert IsHeldBack(env, sends, open, r, v) <==> IsHeldBack(env, sends, open, r', v);
    }
    assert r.held == r'.held;
  }

  lemma PlacedAlike(
    env: Surroundings, sends: seq<TransactionID>, messageIDs: seq<MessageID>, r: Reconciliation, r': Reconciliation)
    requires IsReconciled(env, sends, messageIDs, r) && IsReconciled(env, sends, messageIDs, r')
    ensures forall v <- r.transactions.Keys :: v in r'.transactions && r'.transactions[v] == r.transactions[v]
    ensures r.finalized <= r'.finalized
  {
    hide IsOwned, IsWaitedFor, IsHeldBack;
    var open := OpenMessages(messageIDs, ResolvedMessages(env));
    forall v | v in r.transactions ensures v in r'.transactions && r'.transactions[v] == r.transactions[v] {
      assert IsOwnedByListener(env, sends, open, r.transactions[v], v);
    }
    forall v | v in r.finalized ensures v in r'.finalized {
      assert IsFinalizedByOwner(env, sends, open, v);
      var t :| !env.isActive(t) && env.finalizes(t) && IsOwned(env, sends, open, t, v);
    }
  }

  /** A message that a row already owns goes out under its transaction if its sender listens, else it is finalized. */
  lemma OwnedStaysOwned(
    env: Surroundings, sends: seq<TransactionID>, messageIDs: seq<MessageID>, r: Reconciliation, v: MessageID)
    requires IsReconciled(env, sends, messageIDs, r) && v in messageIDs && v in ResolvedMessages(env)
    ensures IsPlaced(env, r.transactions, r.finalized, env.resolvedBy[v], v) && v !in r.held
    ensures v in r.delivered <==> env.isActive(env.resolvedBy[v])
  {
    hide IsSettled, IsClear, IsWaitedFor;
    var open := OpenMessages(messageIDs, ResolvedMessages(env));
    assert IsOwned(env, sends, open, env.resolvedBy[v], v);
    assert !IsHeldBack(env, sends, open, r, v);
  }

  /**
   A message that is not taken out goes out under a transaction only if that send listens and owns it for certain,
   and without one only if no row owns it and it cannot be the echo of a waiting send.
   */
  lemma TransactionsAreCertain(
    env: Surroundings, sends: seq<TransactionID>, messageIDs: seq<MessageID>, r: Reconciliation, v: MessageID)
    requires IsReconciled(env, sends, messageIDs, r) && v in messageIDs && v !in r.held + r.finalized
    ensures var open := OpenMessages(messageIDs, ResolvedMessages(env));
            if v in r.transactions then IsOwnedByListener(env, sends, open, r.transactions[v], v)
            else v !in ResolvedMessages(env) && !IsWaitedFor(env, sends, v)
  {
    var open := OpenMessages(messageIDs, ResolvedMessages(env));
    if v in ResolvedMessages(env) {
      OwnedStaysOwned(env, sends, messageIDs, r, v);
    } else {
      assert v !in r.transactions ==> !IsHeldBack(env, sends, open, r, v);
    }
    hide IsWaitedFor, IsOwned, IsFinalizedByOwner, IsOwnedByListener;
  }

  /** A message whose ID cannot be that of an echo, such as one of the bridge's own, always goes out as a new one. */
  lemma OtherMessagesAreDelivered(
    env: Surroundings, sends: seq<TransactionID>, messageIDs: seq<MessageID>, r: Reconciliation, v: MessageID)
    requires IsReconciled(env, sends, messageIDs, r) && v in messageIDs
    requires !IsValidRemoteID(v) || LOCAL_ECHO_PREFIX <= v
    ensures v in r.delivered && v !in r.transactions
  {
    var open := OpenMessages(messageIDs, ResolvedMessages(env));
    assert !IsHeldBack(env, sends, open, r, v);
    NeverSettled(env, sends, open, v);
    hide IsSettled, IsClear, IsWaitedFor;
    assert v in r.finalized ==> IsFinalizedByOwner(env, sends, open, v);
    assert v in r.transactions ==> IsOwnedByListener(env, sends, open, r.transactions[v], v);
  }

  lemma NeverSettled(env: Surroundings, sends: seq<TransactionID>, open: set<MessageID>, v: MessageID)
    requires !IsValidOutboundRemoteID(v)
    ensures forall t :: !IsSettled(env, sends, open, t, v)
  {
    var known := EdgesWith(env, sends, open, Match);
    assert IsPossible(env, sends, open, known);
    forall t ensures !IsSettled(env, sends, open, t, v) {
      if IsForced(known, t, v) {
        ForcedIsEdge(known, t, v);
      }
    }
  }

  // A message that a row already owns can neither be tagged nor finalized.
  ghost predicate CannotFinish(env: Surroundings, messageIDs: seq<MessageID>) {
    exists v <- messageIDs :: v in ResolvedMessages(env) && !Finishes(env, env.resolvedBy[v])
  }

  predicate Finishes(env: Surroundings, t: TransactionID) {
    env.isActive(t) || env.finalizes(t)
  }

  ghost predicate HasFailedCheck(env: Surroundings, sends: seq<TransactionID>, open: set<MessageID>) {
    exists t <- sends, v <- open :: Check(env, t, v) == Failed
  }

  // The pair is to be claimed for the send.
  ghost predicate IsToBeClaimed(env: Surroundings, sends: seq<TransactionID>, open: set<MessageID>, t: TransactionID) {
    IsClear(env, sends, open, t) && exists v :: IsSettled(env, sends, open, t, v)
  }

  predicate ClaimFails(env: Surroundings, t: TransactionID) {
    env.claim(t) == GraphChanged || !Finishes(env, t)
  }

  // The first send, in order, whose claim does not go through.
  ghost predicate IsFirstFailure(env: Surroundings, sends: seq<TransactionID>, open: set<MessageID>, i: int) {
    && 0 <= i < |sends| && IsToBeClaimed(env, sends, open, sends[i]) && ClaimFails(env, sends[i])
    && forall j | 0 <= j < i :: !(IsToBeClaimed(env, sends, open, sends[j]) && ClaimFails(env, sends[j]))
  }

  ghost predicate HasClaimError(
    env: Surroundings, sends: seq<TransactionID>, open: set<MessageID>, error: Option<ReconcileError>)
  {
    match error
    case None => forall t <- sends :: IsToBeClaimed(env, sends, open, t) ==> !ClaimFails(env, t)
    case Some(e) => exists i: int ::
      IsFirstFailure(env, sends, open, i) && e == if env.claim(sends[i]) == GraphChanged then ClaimFailed
        else FinalizeFailed
  }

  ghost predicate ReconcileEndsWith(
    env: Surroundings, sends: seq<TransactionID>, messageIDs: seq<MessageID>, error: Option<ReconcileError>)
  {
    var open := OpenMessages(messageIDs, ResolvedMessages(env));
    if CannotFinish(env, messageIDs) then error == Some(FinalizeFailed)
    else if HasFailedCheck(env, sends, open) then error == Some(CandidateCheckFailed)
    else HasClaimError(env, sends, open, error)
  }

  lemma OneEnding(
    env: Surroundings, sends: seq<TransactionID>, messageIDs: seq<MessageID>, e: Option<ReconcileError>,
    e': Option<ReconcileError>)
    requires ReconcileEndsWith(env, sends, messageIDs, e) && ReconcileEndsWith(env, sends, messageIDs, e')
    ensures e == e'
  {
    hide CannotFinish, HasFailedCheck, IsToBeClaimed, ClaimFails;
  }

  /**
   One run. It fails exactly if a message that a row owns cannot be finished, then if a candidate check fails,
   then if a claim does not go through: because the graph changed or because the claimed pair cannot be
   finished, whichever comes first in the order of the sends.
   */
  method Reconcile(env: Surroundings, sends: seq<TransactionID>, messageIDs: seq<MessageID>)
    returns (r: Result<Reconciliation, ReconcileError>)
    requires forall i, j | 0 <= i < j < |sends| :: sends[i] != sends[j]
    ensures r.Ok? ==> IsReconciled(env, sends, messageIDs, r.value)
    ensures ReconcileEndsWith(env, sends, messageIDs, if r.Ok? then None else Some(r.error))
  {
    hide IsSettled, IsClear, IsWaitedFor, IsToBeClaimed, CannotFinish, HasFailedCheck, HasClaimError, AreSorted,
      IsBuiltFrom, EdgesWith, IsReconciled, IsPlaced, IsOwned;
    ghost var open := OpenMessages(messageIDs, ResolvedMessages(env));
    var sorted, transactions, finalized := SortResolved(env, sends, messageIDs);
    if !sorted {
      return Err(FinalizeFailed);
    }
    var resolved := transactions.Keys + finalized;
    assert OpenMessages(messageIDs, resolved) == open;
    var built, sets, quarantine, blockedSends, blockedMessages := BuildCandidateSets(env, sends, messageIDs, resolved);
    if !built {
      SomeCheckFailed(env, sends, open);
      return Err(CandidateCheckFailed);
    }
    NoCheckFailed(env, sends, open);
    QuarantineIsWaitedFor(env, sends, open, sets, quarantine, blockedSends, blockedMessages);
    var forced := SettlePairs(env, sends, open, sets, quarantine, blockedSends, blockedMessages);
    ForcedIsToBeClaimed(env, sends, open, forced);
    var error, transactions', finalized', quarantine' :=
      ClaimPairs(env, sends, open, forced, transactions, finalized, quarantine);
    if error.Some? {
      return Err(error.value);
    }
    var delivered, held := FilterMessages(messageIDs, finalized', quarantine');
    PlacedStays(env, transactions, finalized, transactions', finalized');
    OwnedArePlaced(env, sends, messageIDs, open, forced, transactions', finalized');
    FilteredIsReconciled(env, sends, messageIDs, quarantine,
      Reconciliation(transactions', held, finalized', delivered));
    r := Ok(Reconciliation(transactions', held, finalized', delivered));
  }

  lemma PlacedStays(
    env: Surroundings, transactions: map<MessageID, TransactionID>, finalized: set<MessageID>,
    transactions': map<MessageID, TransactionID>, finalized': set<MessageID>)
    requires forall v <- transactions.Keys :: v in transactions' && transactions'[v] == transactions[v]
    requires finalized <= finalized'
    ensures forall t, v | IsPlaced(env, transactions, finalized, t, v) ::
      IsPlaced(env, transactions', finalized', t, v)
  {
  }

  lemma OwnedArePlaced(
    env: Surroundings, sends: seq<TransactionID>, messageIDs: seq<MessageID>, open: set<MessageID>,
    forced: map<TransactionID, MessageID>, transactions: map<MessageID, TransactionID>, finalized: set<MessageID>)
    requires forall t, v | IsClear(env, sends, open, t) && IsSettled(env, sends, open, t, v) ::
      t in forced && forced[t] == v
    requires forall t <- forced.Keys :: IsPlaced(env, transactions, finalized, t, forced[t])
    requires forall v <- messageIDs | v in ResolvedMessages(env) ::
      IsPlaced(env, transactions, finalized, env.resolvedBy[v], v)
    ensures forall t, v | v in messageIDs && IsOwned(env, sends, open, t, v) ::
      IsPlaced(env, transactions, finalized, t, v)
  {
    hide IsClear, IsSettled, IsPlaced;
  }

  lemma FilteredIsReconciled(
    env: Surroundings, sends: seq<TransactionID>, messageIDs: seq<MessageID>, quarantine: set<MessageID>,
    r: Reconciliation)
    requires var open := OpenMessages(messageIDs, ResolvedMessages(env));
             && (forall v :: v in quarantine <==> v in open && IsWaitedFor(env, sends, v))
             && AreSorted(env, sends, open, r.transactions, r.finalized)
             && (forall t, v | v in messageIDs && IsOwned(env, sends, open, t, v) ::
                   IsPlaced(env, r.transactions, r.finalized, t, v))
    requires r.transactions.Keys + r.finalized <= set v | v in messageIDs
    requires r.held == (quarantine - r.transactions.Keys - r.finalized) * set v | v in messageIDs
    requires r.delivered == Without(messageIDs, r.finalized + r.held)
    ensures IsReconciled(env, sends, messageIDs, r)
  {
    hide IsWaitedFor, AreSorted, IsOwned, IsPlaced, Without;
  }

  lemma ForcedIsToBeClaimed(
    env: Surroundings, sends: seq<TransactionID>, open: set<MessageID>, forced: map<TransactionID, MessageID>)
    requires forall t <- forced.Keys :: IsClear(env, sends, open, t) && IsSettled(env, sends, open, t, forced[t])
    requires forall t, v | IsClear(env, sends, open, t) && IsSettled(env, sends, open, t, v) ::
      t in forced && forced[t] == v
    ensures forall t :: IsToBeClaimed(env, sends, open, t) <==> t in forced
  {
    hide IsClear, IsSettled;
  }

  lemma NoCheckFailed(env: Surroundings, sends: seq<TransactionID>, open: set<MessageID>)
    ensures EdgesWith(env, sends, open, Failed) == {} ==> !HasFailedCheck(env, sends, open)
  {
    forall t, v | t in sends && v in open && Check(env, t, v) == Failed
      ensures (t, v) in EdgesWith(env, sends, open, Failed)
    {
    }
  }

  lemma SomeCheckFailed(env: Surroundings, sends: seq<TransactionID>, open: set<MessageID>)
    requires EdgesWith(env, sends, open, Failed) != {}
    ensures HasFailedCheck(env, sends, open)
  {
    var e :| e in EdgesWith(env, sends, open, Failed);
    assert e.0 in sends && e.1 in open && Check(env, e.0, e.1) == Failed;
  }

  // Messages that a row already owns keep their transaction or are finalized right away.
  method SortResolved(env: Surroundings, ghost sends: seq<TransactionID>, messageIDs: seq<MessageID>)
    returns (sorted: bool, transactions: map<MessageID, TransactionID>, finalized: set<MessageID>)
    ensures AreSorted(env, sends, OpenMessages(messageIDs, ResolvedMessages(env)), transactions, finalized)
    ensures sorted ==> transactions.Keys + finalized == ResolvedMessages(env) * set v | v in messageIDs
    ensures sorted ==> forall v <- messageIDs | v in ResolvedMessages(env) ::
      IsPlaced(env, transactions, finalized, env.resolvedBy[v], v)
    ensures !sorted <==> CannotFinish(env, messageIDs)
  {
    transactions, finalized := map[], {};
    ghost var open := OpenMessages(messageIDs, ResolvedMessages(env));
    for i := 0 to |messageIDs|
      invariant AreSorted(env, sends, open, transactions, finalized)
      invariant transactions.Keys + finalized == ResolvedMessages(env) * set v | v in messageIDs[..i]
      invariant forall v <- transactions.Keys :: transactions[v] == env.resolvedBy[v]
      invariant forall v <- finalized :: !env.isActive(env.resolvedBy[v])
      invariant forall v <- messageIDs[..i] :: v in ResolvedMessages(env) ==> Finishes(env, env.resolvedBy[v])
    {
      hide IsSettled;
      var v := messageIDs[i];
      assert messageIDs[..i + 1] == messageIDs[..i] + [v];
      if !IsValidOutboundRemoteID(v) || v !in env.resolvedBy {
        continue;
      }
      var t := env.resolvedBy[v];
      assert IsOwned(env, sends, open, t, v);
      if env.isActive(t) {
        transactions := transactions[v := t];
      } else if env.finalizes(t) {
        finalized := finalized + {v};
      } else {
        return false, transactions, finalized;
      }
    }
    assert messageIDs[..|messageIDs|] == messageIDs;
    sorted := true;
  }

  method SettlePairs(
    env: Surroundings, sends: seq<TransactionID>, ghost open: set<MessageID>, sets: seq<CandidateSet>,
    ghost quarantine: set<MessageID>, initialSends: set<TransactionID>, initialMessages: set<MessageID>)
    returns (forced: map<TransactionID, MessageID>)
    requires forall i, j | 0 <= i < j < |sends| :: sends[i] != sends[j]
    requires IsBuiltFrom(env, sends, open, sets, quarantine, initialSends, initialMessages)
    ensures forall t <- forced.Keys :: t in sends && forced[t] in open && IsSettled(env, sends, open, t, forced[t])
    ensures forall t <- forced.Keys, u <- forced.Keys :: t != u ==> forced[t] != forced[u]
    ensures forall t <- forced.Keys :: Check(env, t, forced[t]) == Match
    ensures forall t <- forced.Keys :: IsClear(env, sends, open, t)
    ensures forall t, v | IsClear(env, sends, open, t) && IsSettled(env, sends, open, t, v) ::
      t in forced && forced[t] == v
  {
    var blockedSends, blockedMessages := CloseBlocked(sets, initialSends, initialMessages);
    BuiltSetsAreDistinct(env, sends, open, sets, quarantine, initialSends, initialMessages);
    var eligible := EligibleSets(sets, blockedSends);
    forced := ForcedMatches(eligible);
    PairsAreSettled(env, sends, open, blockedSends, blockedMessages, forced);
    ClearIsUnblocked(env, sends, open, blockedSends, blockedMessages);
  }

  lemma QuarantineIsWaitedFor(
    env: Surroundings, sends: seq<TransactionID>, open: set<MessageID>, sets: seq<CandidateSet>,
    quarantine: set<MessageID>, blockedSends: set<TransactionID>, blockedMessages: set<MessageID>)
    requires IsBuiltFrom(env, sends, open, sets, quarantine, blockedSends, blockedMessages)
    ensures forall v :: v in quarantine <==> v in open && IsWaitedFor(env, sends, v)
  {
    forall v ensures v in quarantine <==> v in open && IsWaitedFor(env, sends, v) {
      if v in quarantine {
        var e :| e in EdgesWith(env, sends, open, Match) + EdgesWith(env, sends, open, Unknown) && e.1 == v;
        assert e.0 in sends;
      }
      if t :| v in open && t in sends && Check(env, t, v) != NoMatch {
        assert Check(env, t, v) == Failed ==> (t, v) in EdgesWith(env, sends, open, Failed);
        assert (t, v) in EdgesWith(env, sends, open, Match) + EdgesWith(env, sends, open, Unknown);
        assert (t, v).1 == v;
      }
    }
  }

  lemma BuiltSetsAreDistinct(
    env: Surroundings, sends: seq<TransactionID>, open: set<MessageID>, sets: seq<CandidateSet>,
    quarantine: set<MessageID>, blockedSends: set<TransactionID>, blockedMessages: set<MessageID>)
    requires forall i, j | 0 <= i < j < |sends| :: sends[i] != sends[j]
    requires IsBuiltFrom(env, sends, open, sets, quarantine, blockedSends, blockedMessages)
    ensures HaveDistinctSends(sets)
  {
    forall i, j | 0 <= i < j < |sets| ensures sets[i].send != sets[j].send {
      assert sets[i].send == Some(sends[i]) && sets[j].send == Some(sends[j]);
    }
  }

  lemma ClearIsUnblocked(
    env: Surroundings, sends: seq<TransactionID>, open: set<MessageID>,
    blockedSends: set<TransactionID>, blockedMessages: set<MessageID>)
    requires IsLeastClosure(
               EdgesWith(env, sends, open, Match), Senders(EdgesWith(env, sends, open, Unknown)),
               Targets(EdgesWith(env, sends, open, Unknown)), blockedSends, blockedMessages)
    ensures forall t :: IsClear(env, sends, open, t) <==> t !in blockedSends
  {
    forall t ensures IsClear(env, sends, open, t) <==> t !in blockedSends {
      var known, unknown := EdgesWith(env, sends, open, Match), EdgesWith(env, sends, open, Unknown);
      assert IsClosedUnder(known, blockedSends, blockedMessages);
      if IsClear(env, sends, open, t) {
        var senders, messages :| IsClosedUnder(known, senders, messages) && Senders(unknown) <= senders
          && Targets(unknown) <= messages && t !in senders;
        assert blockedSends <= senders;
      }
    }
  }

  lemma PairsAreSettled(
    env: Surroundings, sends: seq<TransactionID>, open: set<MessageID>,
    blockedSends: set<TransactionID>, blockedMessages: set<MessageID>, forced: map<TransactionID, MessageID>)
    requires IsLeastClosure(
               EdgesWith(env, sends, open, Match), Senders(EdgesWith(env, sends, open, Unknown)),
               Targets(EdgesWith(env, sends, open, Unknown)), blockedSends, blockedMessages)
    requires forall t, v :: (t in forced && forced[t] == v)
                            <==> IsForced(EdgesOutside(EdgesWith(env, sends, open, Match), blockedSends), t, v)
    ensures forall t, v :: (t in forced && forced[t] == v) <==> t !in blockedSends && IsSettled(env, sends, open, t, v)
    ensures forall t <- forced.Keys :: t in sends && forced[t] in open && Check(env, t, forced[t]) == Match
    ensures forall t <- forced.Keys, u <- forced.Keys :: t != u ==> forced[t] != forced[u]
  {
    var outside := EdgesOutside(EdgesWith(env, sends, open, Match), blockedSends);
    forall t, v ensures (t in forced && forced[t] == v) <==> t !in blockedSends && IsSettled(env, sends, open, t, v) {
      ClaimsAreSettled(env, sends, open, blockedSends, blockedMessages, t, v);
    }
    forall t | t in forced ensures t in sends && forced[t] in open && Check(env, t, forced[t]) == Match {
      ForcedIsEdge(outside, t, forced[t]);
    }
    var m := MaximumExists(outside);
    forall t | t in forced ensures forced[t] in m && m[forced[t]] == t {
      assert IsForced(outside, t, forced[t]);
    }
  }

  lemma ClaimFailsAt(env: Surroundings, sends: seq<TransactionID>, open: set<MessageID>, i: nat)
    requires i < |sends| && IsToBeClaimed(env, sends, open, sends[i])
    requires forall j | 0 <= j < i :: !(IsToBeClaimed(env, sends, open, sends[j]) && ClaimFails(env, sends[j]))
    ensures env.claim(sends[i]) == GraphChanged ==> HasClaimError(env, sends, open, Some(ClaimFailed))
    ensures env.claim(sends[i]) != GraphChanged && !env.isActive(sends[i]) && !env.finalizes(sends[i]) ==>
              HasClaimError(env, sends, open, Some(FinalizeFailed))
  {
    hide IsToBeClaimed;
    assert ClaimFails(env, sends[i]) ==> IsFirstFailure(env, sends, open, i);
  }

  lemma ClaimGoesThrough(env: Surroundings, t: TransactionID)
    ensures env.claim(t) != GraphChanged && (env.isActive(t) || env.finalizes(t)) <==> !ClaimFails(env, t)
  {
  }

  lemma OwnedBySettled(env: Surroundings, sends: seq<TransactionID>, open: set<MessageID>, t: TransactionID,
    v: MessageID)
    requires IsToBeClaimed(env, sends, open, t) && v in open && IsSettled(env, sends, open, t, v)
    ensures IsOwned(env, sends, open, t, v)
  {
    hide IsSettled;
  }

  lemma AllClaimsGoThrough(env: Surroundings, sends: seq<TransactionID>, open: set<MessageID>)
    requires forall j | 0 <= j < |sends| :: !(IsToBeClaimed(env, sends, open, sends[j]) && ClaimFails(env, sends[j]))
    ensures HasClaimError(env, sends, open, None)
  {
    hide IsToBeClaimed, ClaimFails;
  }

  lemma TransactionIsAdded(
    env: Surroundings, sends: seq<TransactionID>, open: set<MessageID>, transactions: map<MessageID, TransactionID>,
    finalized: set<MessageID>, t: TransactionID, v: MessageID)
    requires AreSorted(env, sends, open, transactions, finalized) && v !in finalized
    requires IsOwned(env, sends, open, t, v) && env.isActive(t)
    ensures AreSorted(env, sends, open, transactions[v := t], finalized)
    ensures IsPlaced(env, transactions[v := t], finalized, t, v)
  {
    hide IsOwned, IsFinalizedByOwner;
  }

  lemma FinalizedIsAdded(
    env: Surroundings, sends: seq<TransactionID>, open: set<MessageID>, transactions: map<MessageID, TransactionID>,
    finalized: set<MessageID>, t: TransactionID, v: MessageID)
    requires AreSorted(env, sends, open, transactions, finalized) && v !in transactions
    requires IsOwned(env, sends, open, t, v) && !env.isActive(t) && env.finalizes(t)
    ensures AreSorted(env, sends, open, transactions, finalized + {v})
    ensures IsPlaced(env, transactions, finalized + {v}, t, v)
  {
    hide IsOwned, IsOwnedByListener;
  }

  method ClaimPairs(
    env: Surroundings, sends: seq<TransactionID>, ghost open: set<MessageID>, forced: map<TransactionID, MessageID>,
    oldTransactions: map<MessageID, TransactionID>, oldFinalized: set<MessageID>, oldQuarantine: set<MessageID>)
    returns (error: Option<ReconcileError>, transactions: map<MessageID, TransactionID>, finalized: set<MessageID>,
      quarantine: set<MessageID>)
    requires forall i, j | 0 <= i < j < |sends| :: sends[i] != sends[j]
    requires AreSorted(env, sends, open, oldTransactions, oldFinalized)
    requires oldTransactions.Keys !! oldQuarantine && (oldTransactions.Keys + oldFinalized) !! open
    requires forall t <- forced.Keys :: t in sends && forced[t] in open && IsSettled(env, sends, open, t, forced[t])
    requires forall t <- forced.Keys, u <- forced.Keys :: t != u ==> forced[t] != forced[u]
    requires forall t <- forced.Keys :: IsToBeClaimed(env, sends, open, t)
    requires forall t | IsToBeClaimed(env, sends, open, t) :: t in forced
    ensures HasClaimError(env, sends, open, error)
    ensures AreSorted(env, sends, open, transactions, finalized)
    ensures quarantine == oldQuarantine - transactions.Keys
    ensures oldFinalized <= finalized <= oldFinalized + open
    ensures forall v <- oldTransactions.Keys :: v in transactions && transactions[v] == oldTransactions[v]
    ensures transactions.Keys <= oldTransactions.Keys + open
    ensures error.None? ==> forall t <- forced.Keys | t in sends ::
      IsPlaced(env, transactions, finalized, t, forced[t])
  {
    hide IsToBeClaimed, HasClaimError, ClaimFails, Finishes, IsOwned, IsPlaced, AreSorted;
    transactions, finalized, quarantine := oldTransactions, oldFinalized, oldQuarantine;
    ghost var spent: set<MessageID> := {};
    for i := 0 to |sends|
      invariant forall j | 0 <= j < i :: !(IsToBeClaimed(env, sends, open, sends[j]) && ClaimFails(env, sends[j]))
      invariant AreSorted(env, sends, open, transactions, finalized)
      invariant quarantine == oldQuarantine - transactions.Keys
      invariant oldFinalized <= finalized <= oldFinalized + spent
      invariant transactions.Keys <= oldTransactions.Keys + spent
      invariant forall j | 0 <= j < i && sends[j] in forced ::
        IsPlaced(env, transactions, finalized, sends[j], forced[sends[j]])
      invariant forall j | 0 <= j < i && sends[j] in forced :: forced[sends[j]] in spent
      invariant forall v <- oldTransactions.Keys :: v in transactions && transactions[v] == oldTransactions[v]
      invariant spent <= open && forall j | i <= j < |sends| && sends[j] in forced :: forced[sends[j]] !in spent
    {
      hide IsSettled;
      var t := sends[i];
      if t !in forced {
        continue;
      }
      var v := forced[t];
      spent := spent + {v};
      if env.claim(t) == GraphChanged {
        ClaimFailsAt(env, sends, open, i);
        return Some(ClaimFailed), transactions, finalized, quarantine;
      }
      ClaimGoesThrough(env, t);
      OwnedBySettled(env, sends, open, t, v);
      if env.isActive(t) {
        TransactionIsAdded(env, sends, open, transactions, finalized, t, v);
        PlacedStays(env, transactions, finalized, transactions[v := t], finalized);
        transactions := transactions[v := t];
        quarantine := quarantine - {v};
      } else if env.finalizes(t) {
        FinalizedIsAdded(env, sends, open, transactions, finalized, t, v);
        PlacedStays(env, transactions, finalized, transactions, finalized + {v});
        finalized := finalized + {v};
      } else {
        ClaimFailsAt(env, sends, open, i);
        return Some(FinalizeFailed), transactions, finalized, quarantine;
      }
    }
    AllClaimsGoThrough(env, sends, open);
    error := None;
  }

  method FilterMessages(messageIDs: seq<MessageID>, finalized: set<MessageID>, quarantine: set<MessageID>)
    returns (delivered: seq<MessageID>, held: set<MessageID>)
    ensures held == (quarantine - finalized) * set v | v in messageIDs
    ensures delivered == Without(messageIDs, finalized + held)
  {
    delivered, held := [], {};
    ghost var dropped := finalized + quarantine;
    for i := 0 to |messageIDs|
      invariant held == (quarantine - finalized) * set v | v in messageIDs[..i]
      invariant delivered == Without(messageIDs[..i], dropped)
    {
      var v := messageIDs[i];
      assert messageIDs[..i + 1] == messageIDs[..i] + [v];
      if v in finalized {
        continue;
      }
      if v in quarantine {
        held := held + {v};
        continue;
      }
      delivered := delivered + [v];
    }
    assert messageIDs[..|messageIDs|] == messageIDs;
    WithoutDepends(messageIDs, dropped, finalized + held);
  }

  lemma WithoutDepends(messageIDs: seq<MessageID>, a: set<MessageID>, b: set<MessageID>)
    requires forall v <- messageIDs :: v in a <==> v in b
    ensures Without(messageIDs, a) == Without(messageIDs, b)
  {
    FilterDepends(messageIDs, (v: MessageID) => v !in a, (v: MessageID) => v !in b);
  }
}
