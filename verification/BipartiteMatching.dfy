/**
 Matchings of a finite bipartite graph between senders and messages: the theory that the
 augmenting search in EchoMatching is proved against.

 A graph is its set of edges. A matching maps each matched message to its sender, which is the
 shape of the table that the search mutates.
 */
module BipartiteMatching {

  type MessageID = string

  ghost predicate IsMatching<L>(edges: set<(L, MessageID)>, m: map<MessageID, L>) {
    && (forall v <- m.Keys :: (m[v], v) in edges)
    && Injective(m)
  }

  ghost predicate Injective<L>(m: map<MessageID, L>) {
    forall v <- m.Keys, w <- m.Keys :: v != w ==> m[v] != m[w]
  }

  ghost predicate IsMaximum<L(!new)>(edges: set<(L, MessageID)>, m: map<MessageID, L>) {
    && IsMatching(edges, m)
    && forall other | IsMatching(edges, other) :: |other| <= |m|
  }

  // An edge is forced when no maximum matching does without it.
  ghost predicate IsForced<L(!new)>(edges: set<(L, MessageID)>, l: L, v: MessageID) {
    forall m | IsMaximum(edges, m) :: v in m && m[v] == l
  }

  // What a failed search leaves behind: every message it visited is matched, and every edge out of
  // the sender it started from, or out of a sender matched to a visited message, was visited.
  ghost predicate IsExhausted<L(!new)>(edges: set<(L, MessageID)>, m: map<MessageID, L>, start: L,
    visited: set<MessageID>) {
    && visited <= m.Keys
    && (forall v | (start, v) in edges :: v in visited)
    && (forall v <- visited, w | (m[v], w) in edges :: w in visited)
  }

  // ---- Counting ----

  function Restrict<L>(m: map<MessageID, L>, keep: set<MessageID>): map<MessageID, L> {
    map v | v in m && v in keep :: m[v]
  }

  lemma RestrictSplitsSize<L>(m: map<MessageID, L>, keep: set<MessageID>)
    ensures |Restrict(m, keep)| + |m - keep| == |m|
    ensures |Restrict(m, keep)| <= |keep|
  {
    var inside, outside := Restrict(m, keep), m - keep;
    assert m.Keys == inside.Keys + outside.Keys;
    assert inside.Keys !! outside.Keys;
    assert |m.Keys| == |inside.Keys| + |outside.Keys|;
    SubsetSize(inside.Keys, keep);
  }

  lemma SubsetSize<T>(a: set<T>, b: set<T>)
    requires a <= b
    ensures |a| <= |b|
  {
    assert b == a + (b - a);
  }

  lemma UnionSize<L>(a: map<MessageID, L>, b: map<MessageID, L>)
    requires a.Keys !! b.Keys
    ensures |a + b| == |a| + |b|
  {
    assert (a + b).Keys == a.Keys + b.Keys;
    assert |(a + b).Keys| == |a.Keys| + |b.Keys|;
  }

  /** Trading a matching's edges at visited messages for the search's own keeps it a matching. */
  lemma ExchangeIsMatching<L(!new)>(
    edges: set<(L, MessageID)>, earlier: set<(L, MessageID)>,
    m: map<MessageID, L>, start: L, visited: set<MessageID>, other: map<MessageID, L>)
    requires earlier == set e | e in edges && e.0 != start
    requires IsMatching(earlier, m)
    requires IsExhausted(edges, m, start, visited)
    requires IsMatching(edges, other)
    ensures IsMatching(earlier, Restrict(m, visited) + (other - visited))
  {
    var kept, moved := Restrict(m, visited), other - visited;
    var exchanged := kept + moved;
    forall v | v in moved ensures moved[v] != start && moved[v] !in kept.Values {
      assert (other[v], v) in edges;
      assert forall w | w in visited :: (m[w], v) in edges ==> v in visited;
    }
    forall v | v in exchanged ensures (exchanged[v], v) in earlier {
      if v in moved {
        assert (other[v], v) in edges;
      }
    }
    forall v, w | v in exchanged && w in exchanged && v != w ensures exchanged[v] != exchanged[w] {
      if v in moved && w in moved {
        assert other[v] != other[w];
      } else if v in moved {
        assert kept[w] in kept.Values;
      } else if w in moved {
        assert kept[v] in kept.Values;
      } else {
        assert m[v] != m[w];
      }
    }
  }

  /** A search that fails at a new sender proves that the sender cannot raise the maximum. */
  lemma FailedSearchKeepsMaximum<L(!new)>(
    edges: set<(L, MessageID)>, earlier: set<(L, MessageID)>,
    m: map<MessageID, L>, start: L, visited: set<MessageID>)
    requires earlier == set e | e in edges && e.0 != start
    requires IsMaximum(earlier, m)
    requires IsExhausted(edges, m, start, visited)
    ensures IsMaximum(edges, m)
  {
    forall other | IsMatching(edges, other) ensures |other| <= |m| {
      var kept, moved := Restrict(m, visited), other - visited;
      ExchangeIsMatching(edges, earlier, m, start, visited, other);
      assert kept.Keys == visited;
      UnionSize(kept, moved);
      RestrictSplitsSize(other, visited);
    }
  }

  /** One more sender raises the maximum by at most one, so a matching one larger is maximum. */
  lemma GrownMatchingIsMaximum<L(!new)>(
    edges: set<(L, MessageID)>, earlier: set<(L, MessageID)>,
    before: map<MessageID, L>, after: map<MessageID, L>, start: L)
    requires earlier == set e | e in edges && e.0 != start
    requires IsMaximum(earlier, before)
    requires IsMatching(edges, after) && |after| == |before| + 1
    ensures IsMaximum(edges, after)
  {
    forall other | IsMatching(edges, other) ensures |other| <= |after| {
      var own := set v | v in other && other[v] == start;
      assert |own| <= 1 by {
        if v :| v in own {
          assert own == {v};
        }
      }
      assert IsMatching(earlier, other - own);
      RestrictSplitsSize(other, own);
    }
  }

  // ---- Forced edges ----

  /** A maximum matching's edge is forced exactly when deleting it lowers the maximum. */
  lemma ForcedWhenRemovalShrinks<L(!new)>(
    edges: set<(L, MessageID)>, m: map<MessageID, L>,
    l: L, v: MessageID, without: map<MessageID, L>)
    requires IsMaximum(edges, m) && v in m && m[v] == l
    requires IsMaximum(edges - {(l, v)}, without)
    ensures IsForced(edges, l, v) <==> |without| < |m|
  {
    if |without| < |m| {
      forall other | IsMaximum(edges, other) ensures v in other && other[v] == l {
        assert (v in other && other[v] == l) || IsMatching(edges - {(l, v)}, other);
      }
    } else {
      assert IsMaximum(edges, without);
      assert !(v in without && without[v] == l);
    }
  }

  /** Every finite graph has a maximum matching. */
  lemma MaximumExists<L(!new)>(edges: set<(L, MessageID)>) returns (m: map<MessageID, L>)
    ensures IsMaximum(edges, m)
  {
    var messages := set e | e in edges :: e.1;
    m := map[];
    while exists other :: IsMatching(edges, other) && |other| > |m|
      invariant IsMatching(edges, m)
      invariant |m| <= |messages|
      decreases |messages| - |m|
    {
      var larger :| IsMatching(edges, larger) && |larger| > |m|;
      forall v | v in larger.Keys ensures v in messages {
        assert (larger[v], v) in edges;
      }
      SubsetSize(larger.Keys, messages);
      m := larger;
    }
  }

  // ---- Unknown edges ----

  ghost function EdgesOutside<L(!new)>(edges: set<(L, MessageID)>, senders: set<L>): set<(L, MessageID)> {
    set e | e in edges && e.0 !in senders
  }

  lemma CombinedMatching<L(!new)>(
    known: set<(L, MessageID)>, extra: set<(L, MessageID)>, senders: set<L>, messages: set<MessageID>,
    apart: map<MessageID, L>, inside: map<MessageID, L>)
    requires IsCut(known, extra, senders, messages)
    requires IsMatching(EdgesOutside(known, senders), apart)
    requires IsMatching(known + extra, inside) && forall v <- inside.Keys :: inside[v] in senders
    ensures IsMatching(known + extra, apart + inside)
    ensures |apart + inside| == |apart| + |inside|
  {
    forall v | v in apart ensures v !in messages && apart[v] !in senders && (apart[v], v) in known {
      assert (apart[v], v) in known;
    }
    forall v | v in inside ensures v in messages {
      assert (inside[v], v) in known + extra;
    }
    UnionSize(apart, inside);
  }

  lemma SplitAt<L(!new)>(edges: set<(L, MessageID)>, m: map<MessageID, L>, senders: set<L>)
    returns (apart: map<MessageID, L>, inside: map<MessageID, L>)
    requires IsMatching(edges, m)
    ensures apart == map v | v in m && m[v] !in senders :: m[v]
    ensures inside == map v | v in m && m[v] in senders :: m[v]
    ensures IsMatching(EdgesOutside(edges, senders), apart) && IsMatching(edges, inside)
    ensures |m| == |apart| + |inside|
  {
    apart := map v | v in m && m[v] !in senders :: m[v];
    inside := map v | v in m && m[v] in senders :: m[v];
    UnionSize(apart, inside);
    assert m == apart + inside;
    forall v | v in apart ensures (apart[v], v) in edges {
      assert (m[v], v) in edges;
    }
    forall v | v in inside ensures (inside[v], v) in edges {
      assert (m[v], v) in edges;
    }
  }

  // The setting of the lemmas below: no edge, known or extra, crosses between the pair of senders
  // and messages and the rest, and every extra edge lies inside the pair.
  ghost predicate IsCut<L(!new)>(
    known: set<(L, MessageID)>, extra: set<(L, MessageID)>, senders: set<L>, messages: set<MessageID>)
  {
    && (forall e <- known :: e.0 in senders <==> e.1 in messages)
    && (forall e <- extra :: e.0 in senders && e.1 in messages)
  }

  lemma MaximumOfComplete<L(!new)>(
    known: set<(L, MessageID)>, extra: set<(L, MessageID)>, senders: set<L>, messages: set<MessageID>,
    m: map<MessageID, L>, other: map<MessageID, L>)
    requires IsCut(known, extra, senders, messages)
    requires IsMaximum(known + extra, m) && IsMatching(EdgesOutside(known, senders), other)
    ensures |other| <= |map v | v in m && m[v] !in senders :: m[v]|
    ensures IsMatching(EdgesOutside(known, senders), map v | v in m && m[v] !in senders :: m[v])
    ensures |other| == |map v | v in m && m[v] !in senders :: m[v]| ==>
              IsMaximum(known + extra, other + map v | v in m && m[v] in senders :: m[v])
  {
    var apart, inside := SplitAt(known + extra, m, senders);
    assert EdgesOutside(known + extra, senders) == EdgesOutside(known, senders);
    CombinedMatching(known, extra, senders, messages, other, inside);
  }

  /**
   A pair of senders and messages closed under the known edges cuts the graph in two. Edges that are
   unknown but stay inside the pair cannot change which edges are forced outside it.
   */
  lemma UnknownEdgesKeepForced<L(!new)>(
    known: set<(L, MessageID)>, extra: set<(L, MessageID)>, senders: set<L>, messages: set<MessageID>,
    l: L, v: MessageID)
    requires IsCut(known, extra, senders, messages)
    requires l !in senders
    ensures IsForced(EdgesOutside(known, senders), l, v) <==> IsForced(known + extra, l, v)
  {
    ForcedOutsideIsForced(known, extra, senders, messages, l, v);
    if IsForced(known + extra, l, v) {
      var m := MaximumExists(known + extra);
      var apart := map w | w in m && m[w] !in senders :: m[w];
      var inside := map w | w in m && m[w] in senders :: m[w];
      forall other | IsMaximum(EdgesOutside(known, senders), other) ensures v in other && other[v] == l {
        MaximumOfComplete(known, extra, senders, messages, m, other);
        assert IsMaximum(known + extra, other + inside);
        assert v in other + inside && (other + inside)[v] == l;
      }
    }
  }

  lemma ForcedOutsideIsForced<L(!new)>(
    known: set<(L, MessageID)>, extra: set<(L, MessageID)>, senders: set<L>, messages: set<MessageID>,
    l: L, v: MessageID)
    requires IsCut(known, extra, senders, messages)
    ensures IsForced(EdgesOutside(known, senders), l, v) ==> IsForced(known + extra, l, v)
  {
    if IsForced(EdgesOutside(known, senders), l, v) {
      forall m | IsMaximum(known + extra, m) ensures v in m && m[v] == l {
        var apart := map w | w in m && m[w] !in senders :: m[w];
        forall other | IsMatching(EdgesOutside(known, senders), other) ensures |other| <= |apart| {
          MaximumOfComplete(known, extra, senders, messages, m, other);
        }
        MaximumOfComplete(known, extra, senders, messages, m, map[]);
        assert IsMaximum(EdgesOutside(known, senders), apart);
      }
    }
  }
}
