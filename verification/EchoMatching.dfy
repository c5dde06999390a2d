/**
 The candidate matcher of pkg/connector/outbound.go: an augmenting-path search for a largest set of
 distinct send/message pairs, and the pairs that every largest set contains.
 */
module EchoMatching {
  import opened Wrappers
  import opened BipartiteMatching

  type TransactionID = string

  // The messages that could be the echo of one durable send; the send itself may be missing.
  datatype CandidateSet = CandidateSet(send: Option<TransactionID>, messageIDs: seq<MessageID>)

  ghost function Edges(sets: seq<CandidateSet>): set<(int, MessageID)> {
    set i, k | 0 <= i < |sets| && 0 <= k < |sets[i].messageIDs| && sets[i].messageIDs[k] != "" ::
      (i, sets[i].messageIDs[k])
  }

  ghost function Messages(sets: seq<CandidateSet>): set<MessageID> {
    set e | e in Edges(sets) :: e.1
  }

  // ---- One augmenting search ----

  ghost function HeldBy(m: map<MessageID, int>, setIndex: int): set<MessageID> {
    set v | v in m && m[v] == setIndex
  }

  // The table after a successful search from setIndex: entries at messages visited earlier are
  // untouched, one more message is matched, and once the messages that setIndex held before are
  // taken away, what remains is a matching of the same sets and setIndex. Between the return of
  // an inner search and the caller's own write the moved set stands at two messages.
  ghost predicate IsRerouted(
    graph: set<(int, MessageID)>, before: map<MessageID, int>, after: map<MessageID, int>,
    visitedBefore: set<MessageID>, setIndex: int)
  {
    && before.Keys <= after.Keys
    && |after| == |before| + 1
    && (forall v <- visitedBefore :: SameEntry(before, after, v))
    && OwnersWithin(after, Owners(before) + {setIndex})
    && IsMatching(graph, after - HeldBy(before, setIndex))
  }

  ghost predicate SameEntry(a: map<MessageID, int>, b: map<MessageID, int>, v: MessageID) {
    (v in a <==> v in b) && (v in a ==> a[v] == b[v])
  }

  ghost function Owners(m: map<MessageID, int>): set<int> {
    set v | v in m :: m[v]
  }

  ghost predicate OwnersWithin(m: map<MessageID, int>, allowed: set<int>) {
    forall v <- m.Keys :: m[v] in allowed
  }

  lemma RerouteToFreeMessage(
    graph: set<(int, MessageID)>, before: map<MessageID, int>,
    visitedBefore: set<MessageID>, setIndex: int, v: MessageID)
    requires IsMatching(graph, before) && HeldBy(before, setIndex) <= visitedBefore
    requires v !in visitedBefore && v !in before && (setIndex, v) in graph
    ensures IsRerouted(graph, before, before[v := setIndex], visitedBefore, setIndex)
  {
    RerouteRest(graph, before, setIndex, v);
    hide IsMatching, HeldBy;
    var after := before[v := setIndex];
    assert after.Keys == before.Keys + {v};
    assert |after.Keys| == |before.Keys| + 1;
  }

  lemma RerouteRest(graph: set<(int, MessageID)>, before: map<MessageID, int>, setIndex: int, v: MessageID)
    requires IsMatching(graph, before) && (setIndex, v) in graph
    ensures IsMatching(graph, before[v := setIndex] - HeldBy(before, setIndex))
  {
    var rest := before[v := setIndex] - HeldBy(before, setIndex);
    assert forall w <- rest.Keys :: w != v ==> rest[w] == before[w] && rest[w] != setIndex;
  }

  lemma RerouteThroughOwner(
    graph: set<(int, MessageID)>, before: map<MessageID, int>, moved: map<MessageID, int>,
    visitedBefore: set<MessageID>, visitedInside: set<MessageID>, setIndex: int, v: MessageID)
    requires IsMatching(graph, before) && HeldBy(before, setIndex) <= visitedBefore
    requires v !in visitedBefore && v in before && (setIndex, v) in graph
    requires visitedBefore + {v} <= visitedInside
    requires IsRerouted(graph, before, moved, visitedInside, before[v])
    ensures IsRerouted(graph, before, moved[v := setIndex], visitedBefore, setIndex)
  {
    var held := HeldBy(before, setIndex);
    assert HeldBy(before, before[v]) == {v};
    var inner := moved - {v};
    var after := moved[v := setIndex];
    assert after.Keys == moved.Keys;
    forall w | w in visitedBefore ensures SameEntry(before, after, w) {
      assert SameEntry(before, moved, w);
    }
    forall u | u in held ensures u in inner && inner[u] == setIndex {
      assert SameEntry(before, moved, u);
    }
    var rest := after - held;
    forall w | w in rest && w != v ensures w in inner && rest[w] == inner[w] && inner[w] != setIndex {
      assert moved[w] in Owners(before) + {before[v]};
      assert setIndex in Owners(before) ==> exists u :: u in before && before[u] == setIndex && u in held;
    }
  }

  class AugmentingSearch {
    const sets: seq<CandidateSet>
    const blockedSetIndex: int
    const blockedMessageID: MessageID
    var matchedSetByMessage: map<MessageID, int>
    var visited: set<MessageID>

    constructor (sets: seq<CandidateSet>, blockedSetIndex: int, blockedMessageID: MessageID)
      ensures this.sets == sets
      ensures this.blockedSetIndex == blockedSetIndex && this.blockedMessageID == blockedMessageID
      ensures matchedSetByMessage == map[] && visited == {}
    {
      this.sets := sets;
      this.blockedSetIndex := blockedSetIndex;
      this.blockedMessageID := blockedMessageID;
      matchedSetByMessage := map[];
      visited := {};
    }

    ghost function Graph(): set<(int, MessageID)> {
      Edges(sets) - {(blockedSetIndex, blockedMessageID)}
    }

    method Assign(setIndex: int) returns (found: bool)
      requires 0 <= setIndex < |sets|
      requires IsMatching(Graph(), matchedSetByMessage)
      requires HeldBy(matchedSetByMessage, setIndex) <= visited
      modifies this
      ensures old(visited) <= visited
      ensures found ==> IsRerouted(Graph(), old(matchedSetByMessage), matchedSetByMessage, old(visited), setIndex)
      ensures !found ==> matchedSetByMessage == old(matchedSetByMessage)
      ensures !found ==> IsClosedSince(Graph(), matchedSetByMessage, old(visited), visited)
      ensures !found ==> LeadsInto(Graph(), setIndex, visited)
      decreases Messages(sets) - visited
    {
      var messageIDs := sets[setIndex].messageIDs;
      for k := 0 to |messageIDs|
        invariant old(visited) <= visited
        invariant matchedSetByMessage == old(matchedSetByMessage)
        invariant IsClosedSince(Graph(), matchedSetByMessage, old(visited), visited)
        invariant forall j | 0 <= j < k && (setIndex, messageIDs[j]) in Graph() :: messageIDs[j] in visited
      {
        var messageID := messageIDs[k];
        if messageID == "" || (setIndex == blockedSetIndex && messageID == blockedMessageID) {
          continue;
        }
        if messageID in visited {
          continue;
        }
        assert (setIndex, messageID) in Edges(sets);
        assert (setIndex, messageID).1 in Messages(sets);
        visited := visited + {messageID};
        if messageID !in matchedSetByMessage {
          RerouteToFreeMessage(Graph(), matchedSetByMessage, old(visited), setIndex, messageID);
          matchedSetByMessage := matchedSetByMessage[messageID := setIndex];
          return true;
        }
        var matchedSet := matchedSetByMessage[messageID];
        ghost var visitedInside := visited;
        var moved := Assign(matchedSet);
        if moved {
          RerouteThroughOwner(Graph(), old(matchedSetByMessage), matchedSetByMessage, old(visited), visitedInside,
            setIndex, messageID);
          matchedSetByMessage := matchedSetByMessage[messageID := setIndex];
          return true;
        }
      }
      return false;
    }
  }

  // Every edge out of a set leads to a visited message.
  ghost predicate LeadsInto(graph: set<(int, MessageID)>, setIndex: int, visited: set<MessageID>) {
    forall v | (setIndex, v) in graph :: v in visited
  }

  // The messages visited in the meantime are matched, to sets that only lead to visited messages.
  ghost predicate IsClosedSince(
    graph: set<(int, MessageID)>, m: map<MessageID, int>,
    visitedBefore: set<MessageID>, visited: set<MessageID>)
  {
    forall v <- visited - visitedBefore :: v in m && LeadsInto(graph, m[v], visited)
  }

  // ---- The maximum matching ----

  ghost function EarlierEdges(graph: set<(int, MessageID)>, count: int): set<(int, MessageID)> {
    set e | e in graph && e.0 < count
  }

  // The caller receives, for each set, its message or "".
  ghost predicate DistinctMessages(matchBySet: seq<MessageID>) {
    forall i, j | 0 <= i < j < |matchBySet| && matchBySet[i] != "" :: matchBySet[i] != matchBySet[j]
  }

  ghost function AsMatching(matchBySet: seq<MessageID>): map<MessageID, int>
    requires DistinctMessages(matchBySet)
  {
    map i | 0 <= i < |matchBySet| && matchBySet[i] != "" :: matchBySet[i] := i
  }

  lemma {:induction false} OwnersCount(m: map<MessageID, int>)
    requires Injective(m)
    ensures |Owners(m)| == |m|
    decreases m.Keys
  {
    if v :| v in m {
      var rest := m - {v};
      assert m == rest[v := m[v]];
      assert Owners(m) == Owners(rest) + {m[v]};
      OwnersCount(rest);
    }
  }

  /** The size that is returned is the number of sets with a message. */
  lemma MatchingSizeCountsEntries(matchBySet: seq<MessageID>)
    requires DistinctMessages(matchBySet)
    ensures |AsMatching(matchBySet)| == |set i | 0 <= i < |matchBySet| && matchBySet[i] != ""|
  {
    var m := AsMatching(matchBySet);
    var entries := set i | 0 <= i < |matchBySet| && matchBySet[i] != "";
    forall i | i in entries ensures i in Owners(m) {
      assert matchBySet[i] in m && m[matchBySet[i]] == i;
    }
    assert Owners(m) == entries;
    OwnersCount(m);
  }

  method MaximumMatching(sets: seq<CandidateSet>, blockedSetIndex: int, blockedMessageID: MessageID)
    returns (matchBySet: seq<MessageID>, matchingSize: nat)
    ensures |matchBySet| == |sets| && DistinctMessages(matchBySet)
    ensures IsMaximum(Edges(sets) - {(blockedSetIndex, blockedMessageID)}, AsMatching(matchBySet))
    ensures matchingSize == |AsMatching(matchBySet)| == |set i | 0 <= i < |matchBySet| && matchBySet[i] != ""|
  {
    var search := new AugmentingSearch(sets, blockedSetIndex, blockedMessageID);
    ghost var graph := search.Graph();
    matchingSize := 0;
    for setIndex := 0 to |sets|
      invariant search.sets == sets && search.Graph() == graph
      invariant IsMaximum(EarlierEdges(graph, setIndex), search.matchedSetByMessage)
      invariant matchingSize == |search.matchedSetByMessage|
    {
      ghost var before := search.matchedSetByMessage;
      EarlierStep(graph, setIndex, before);
      search.visited := {};
      var found := search.Assign(setIndex);
      AfterSearch(graph, setIndex, before, search.matchedSetByMessage, search.visited, found);
      if found {
        matchingSize := matchingSize + 1;
      }
    }
    assert EarlierEdges(graph, |sets|) == graph;
    matchBySet := TableBySet(search.matchedSetByMessage, |sets|, graph);
    MatchingSizeCountsEntries(matchBySet);
  }

  method TableBySet(matchedSetByMessage: map<MessageID, int>, count: nat, ghost graph: set<(int, MessageID)>)
    returns (matchBySet: seq<MessageID>)
    requires IsMatching(graph, matchedSetByMessage)
    requires forall e <- graph :: 0 <= e.0 < count && e.1 != ""
    ensures |matchBySet| == count && DistinctMessages(matchBySet)
    ensures AsMatching(matchBySet) == matchedSetByMessage
  {
    matchBySet := seq(count, _ => "");
    var rest := matchedSetByMessage.Keys;
    while rest != {}
      invariant rest <= matchedSetByMessage.Keys
      invariant |matchBySet| == count
      invariant forall v <- matchedSetByMessage.Keys - rest ::
        0 <= matchedSetByMessage[v] < count && matchBySet[matchedSetByMessage[v]] == v
      invariant forall i | 0 <= i < count && matchBySet[i] != "" ::
                  matchBySet[i] in matchedSetByMessage.Keys - rest && matchedSetByMessage[matchBySet[i]] == i
      decreases rest
    {
      var messageID :| messageID in rest;
      assert (matchedSetByMessage[messageID], messageID) in graph;
      matchBySet := matchBySet[matchedSetByMessage[messageID] := messageID];
      rest := rest - {messageID};
    }
    forall v | v in matchedSetByMessage ensures v in AsMatching(matchBySet) && v != "" {
      assert (matchedSetByMessage[v], v) in graph;
      assert v in matchedSetByMessage.Keys - rest;
      assert matchBySet[matchedSetByMessage[v]] == v;
    }
  }

  lemma EarlierStep(graph: set<(int, MessageID)>, setIndex: nat, before: map<MessageID, int>)
    requires IsMatching(EarlierEdges(graph, setIndex), before)
    ensures IsMatching(EarlierEdges(graph, setIndex + 1), before) && IsMatching(graph, before)
    ensures HeldBy(before, setIndex) == {}
    ensures EarlierEdges(graph, setIndex) == set e | e in EarlierEdges(graph, setIndex + 1) && e.0 != setIndex
  {
    forall v | v in before ensures (before[v], v) in EarlierEdges(graph, setIndex) {}
  }

  lemma AfterSearch(
    graph: set<(int, MessageID)>, setIndex: nat, before: map<MessageID, int>, after: map<MessageID, int>,
    visited: set<MessageID>, found: bool)
    requires IsMaximum(EarlierEdges(graph, setIndex), before)
    requires found ==> IsRerouted(graph, before, after, {}, setIndex)
    requires !found ==> after == before
    requires !found ==> IsClosedSince(graph, after, {}, visited) && LeadsInto(graph, setIndex, visited)
    ensures IsMaximum(EarlierEdges(graph, setIndex + 1), after)
    ensures |after| == if found then |before| + 1 else |before|
  {
    EarlierStep(graph, setIndex, before);
    var earlier, edges := EarlierEdges(graph, setIndex), EarlierEdges(graph, setIndex + 1);
    if found {
      assert after - HeldBy(before, setIndex) == after;
      forall v | v in after ensures (after[v], v) in edges {
        assert (after[v], v) in graph && after[v] in Owners(before) + {setIndex};
        assert forall w <- before.Keys :: (before[w], w) in earlier;
      }
      GrownMatchingIsMaximum(edges, earlier, before, after, setIndex);
    } else {
      forall v | v in visited ensures v in before {
        assert v in visited - {};
      }
      FailedSearchKeepsMaximum(edges, earlier, before, setIndex, visited);
    }
  }

  // ---- Forced matches ----

  ghost predicate IsForcedForSend(sets: seq<CandidateSet>, t: TransactionID, v: MessageID) {
    exists i | 0 <= i < |sets| :: sets[i].send == Some(t) && IsForced(Edges(sets), i, v)
  }

  /**
   Reports, per send, the pair that every maximum matching contains, and nothing else. Should two
   sets name the same send, one of its forced pairs is reported; a set without a send is left out.
   */
  method ForcedMatches(sets: seq<CandidateSet>) returns (forced: map<TransactionID, MessageID>)
    ensures forall t <- forced.Keys :: IsForcedForSend(sets, t, forced[t])
    ensures forall t, v | IsForcedForSend(sets, t, v) :: t in forced
    ensures HaveDistinctSends(sets) ==>
              forall t, v :: (t in forced && forced[t] == v) <==> IsForced(Relation(sets), t, v)
  {
    hide IsForced, IsMaximum, DistinctMessages, AsMatching, Relation;
    forced := map[];
    var baseline, baselineSize := MaximumMatching(sets, -1, "");
    ghost var matching := AsMatching(baseline);
    assert Edges(sets) - {(-1, "")} == Edges(sets);
    ForcedIsInBaseline(sets, baseline);
    if baselineSize != 0 {
      for setIndex := 0 to |sets|
        invariant forall t <- forced.Keys :: IsForcedForSend(sets, t, forced[t])
        invariant forall i, v | 0 <= i < setIndex && sets[i].send.Some? && IsForced(Edges(sets), i, v) ::
          sets[i].send.value in forced
      {
        var messageID := baseline[setIndex];
        if messageID == "" || sets[setIndex].send == None {
          continue;
        }
        var withoutEdge, withoutEdgeSize := MaximumMatching(sets, setIndex, messageID);
        BaselineEntry(baseline, setIndex);
        ForcedWhenRemovalShrinks(Edges(sets), matching, setIndex, messageID, AsMatching(withoutEdge));
        if withoutEdgeSize < baselineSize {
          forced := forced[sets[setIndex].send.value := messageID];
        }
      }
    }
    if HaveDistinctSends(sets) {
      RelabelledForced(sets, forced);
    }
  }

  lemma BaselineEntry(baseline: seq<MessageID>, setIndex: nat)
    requires DistinctMessages(baseline) && setIndex < |baseline| && baseline[setIndex] != ""
    ensures baseline[setIndex] in AsMatching(baseline) && AsMatching(baseline)[baseline[setIndex]] == setIndex
  {
  }

  lemma ForcedIsInBaseline(sets: seq<CandidateSet>, baseline: seq<MessageID>)
    requires |baseline| == |sets| && DistinctMessages(baseline)
    requires IsMaximum(Edges(sets), AsMatching(baseline))
    ensures forall i, v | IsForced(Edges(sets), i, v) :: 0 <= i < |sets| && v != "" && baseline[i] == v
    ensures forall i, v | IsForced(Edges(sets), i, v) :: AsMatching(baseline) != map[]
  {
    var m := AsMatching(baseline);
    forall i, v | IsForced(Edges(sets), i, v) ensures 0 <= i < |sets| && v != "" && baseline[i] == v && m != map[] {
      assert v in m && m[v] == i;
    }
  }

  ghost predicate HaveDistinctSends(sets: seq<CandidateSet>) {
    && (forall i | 0 <= i < |sets| :: sets[i].send.Some?)
    && (forall i, j | 0 <= i < j < |sets| :: sets[i].send != sets[j].send)
  }

  // The candidate graph with sends in place of indices.
  ghost function Relation(sets: seq<CandidateSet>): set<(TransactionID, MessageID)> {
    set e | e in Edges(sets) && sets[e.0].send.Some? :: (sets[e.0].send.value, e.1)
  }

  ghost function Relabel(sets: seq<CandidateSet>, m: map<MessageID, int>): map<MessageID, TransactionID>
    requires HaveDistinctSends(sets) && IsMatching(Edges(sets), m)
  {
    map v | v in m && (m[v], v) in Edges(sets) :: sets[m[v]].send.value
  }

  lemma RelabelKeepsMatching(sets: seq<CandidateSet>, m: map<MessageID, int>)
    requires HaveDistinctSends(sets) && IsMatching(Edges(sets), m)
    ensures IsMatching(Relation(sets), Relabel(sets, m))
    ensures Relabel(sets, m).Keys == m.Keys && |Relabel(sets, m)| == |m|
  {
    var named := Relabel(sets, m);
    assert named.Keys == m.Keys;
    forall v | v in named ensures (named[v], v) in Relation(sets) {
      assert (m[v], v) in Edges(sets);
    }
  }

  lemma RelabelIsOnto(sets: seq<CandidateSet>, named: map<MessageID, TransactionID>) returns (m: map<MessageID, int>)
    requires HaveDistinctSends(sets) && IsMatching(Relation(sets), named)
    ensures IsMatching(Edges(sets), m) && Relabel(sets, m) == named
  {
    m := map v | v in named :: SenderIndex(sets, named[v], v);
    forall v | v in m ensures (m[v], v) in Edges(sets) && sets[m[v]].send == Some(named[v]) {
      assert (named[v], v) in Relation(sets);
    }
  }

  ghost function SenderIndex(sets: seq<CandidateSet>, t: TransactionID, v: MessageID): int {
    if e :| e in Edges(sets) && e.1 == v && sets[e.0].send == Some(t) then e.0 else -1
  }

  lemma RelabelKeepsMaximum(sets: seq<CandidateSet>, m: map<MessageID, int>)
    requires HaveDistinctSends(sets) && IsMatching(Edges(sets), m)
    ensures IsMaximum(Edges(sets), m) <==> IsMaximum(Relation(sets), Relabel(sets, m))
  {
    RelabelKeepsMatching(sets, m);
    if IsMaximum(Edges(sets), m) {
      forall named | IsMatching(Relation(sets), named) ensures |named| <= |m| {
        var other := RelabelIsOnto(sets, named);
        RelabelKeepsMatching(sets, other);
      }
    }
    if IsMaximum(Relation(sets), Relabel(sets, m)) {
      forall other | IsMatching(Edges(sets), other) ensures |other| <= |m| {
        RelabelKeepsMatching(sets, other);
      }
    }
  }

  lemma RelabelKeepsForced(sets: seq<CandidateSet>, i: int, v: MessageID)
    requires HaveDistinctSends(sets) && 0 <= i < |sets|
    ensures IsForced(Edges(sets), i, v) <==> IsForced(Relation(sets), sets[i].send.value, v)
  {
    var t := sets[i].send.value;
    if IsForced(Edges(sets), i, v) {
      forall named | IsMaximum(Relation(sets), named) ensures v in named && named[v] == t {
        var m := RelabelIsOnto(sets, named);
        RelabelKeepsMaximum(sets, m);
      }
    }
    if IsForced(Relation(sets), t, v) {
      forall m | IsMaximum(Edges(sets), m) ensures v in m && m[v] == i {
        RelabelKeepsMatching(sets, m);
        RelabelKeepsMaximum(sets, m);
        assert (m[v], v) in Edges(sets);
      }
    }
  }

  lemma ForcedIsEdge<L(!new)>(edges: set<(L, MessageID)>, l: L, v: MessageID)
    requires IsForced(edges, l, v)
    ensures (l, v) in edges
  {
    var m := MaximumExists(edges);
  }

  lemma ForcedIsFunctional<L(!new)>(edges: set<(L, MessageID)>, l: L, v: MessageID, w: MessageID)
    requires IsForced(edges, l, v) && IsForced(edges, l, w)
    ensures v == w
  {
    var m := MaximumExists(edges);
    assert v in m.Keys && w in m.Keys && m[v] == m[w];
  }

  lemma RelabelledForced(sets: seq<CandidateSet>, forced: map<TransactionID, MessageID>)
    requires HaveDistinctSends(sets)
    requires forall t <- forced.Keys :: IsForcedForSend(sets, t, forced[t])
    requires forall t, v | IsForcedForSend(sets, t, v) :: t in forced
    ensures forall t, v :: (t in forced && forced[t] == v) <==> IsForced(Relation(sets), t, v)
  {
    hide IsForced, IsMaximum;
    forall t, v ensures (t in forced && forced[t] == v) <==> IsForced(Relation(sets), t, v) {
      if IsForced(Relation(sets), t, v) {
        ForcedIsEdge(Relation(sets), t, v);
        var e :| e in Edges(sets) && sets[e.0].send == Some(t) && e.1 == v;
        RelabelKeepsForced(sets, e.0, v);
        assert IsForcedForSend(sets, t, v);
      }
      if t in forced {
        var i :| 0 <= i < |sets| && sets[i].send == Some(t) && IsForced(Edges(sets), i, forced[t]);
        RelabelKeepsForced(sets, i, forced[t]);
        if IsForced(Relation(sets), t, v) {
          ForcedIsFunctional(Relation(sets), t, v, forced[t]);
        }
      }
    }
  }
}
