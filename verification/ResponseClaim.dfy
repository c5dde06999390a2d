/**
 Claiming the message that the reply to a send contains, before the conversation is scanned:
 claimOutboundSendResponseLocked in pkg/connector/outbound.go. The reply can be partial, so the claim
 must be right whatever other messages the conversation has.
 */
module ResponseClaim {
  import opened Wrappers
  import opened BipartiteMatching
  import opened EchoMatching
  import opened EchoReconciliation
  import opened RemoteIDs

  datatype ResponseError = CheckFailed | GraphChanged

  // The message can only come from the send, and the reply has no other message for it.
  ghost predicate IsOnlyPair(env: Surroundings, send: TransactionID, matchable: seq<TransactionID>,
    messageIDs: seq<MessageID>, at: nat) {
    && at < |messageIDs| && send in matchable
    && Check(env, send, messageIDs[at]) == Match
    && (forall t <- matchable :: t != send ==> Check(env, t, messageIDs[at]) == NoMatch)
    && (forall i | 0 <= i < |messageIDs| && i != at :: Check(env, send, messageIDs[i]) == NoMatch)
  }

  // The messages before this one let the check go on: none matches but for one that only this send matches.
  ghost predicate IsClearUpTo(env: Surroundings, send: TransactionID, matchable: seq<TransactionID>,
    messageIDs: seq<MessageID>, at: nat) {
    && at <= |messageIDs|
    && (forall i | 0 <= i < at :: Check(env, send, messageIDs[i]) in {Match, NoMatch})
    && (forall i, j | 0 <= i < j < at :: Check(env, send, messageIDs[i]) == NoMatch
                                         || Check(env, send, messageIDs[j]) == NoMatch)
    && (forall i | 0 <= i < at && Check(env, send, messageIDs[i]) == Match ::
          forall t <- matchable :: t != send ==> Check(env, t, messageIDs[i]) == NoMatch)
  }

  // The check of this message meets an error before anything settles that there is no claim.
  ghost predicate FailsAt(env: Surroundings, send: TransactionID, matchable: seq<TransactionID>,
    messageIDs: seq<MessageID>, at: nat) {
    && at < |messageIDs| && IsClearUpTo(env, send, matchable, messageIDs, at)
    && (|| Check(env, send, messageIDs[at]) == Failed
        || (&& Check(env, send, messageIDs[at]) == Match
            && (forall i | 0 <= i < at :: Check(env, send, messageIDs[i]) == NoMatch)
            && exists j | 0 <= j < |matchable| && matchable[j] != send ::
                 && Check(env, matchable[j], messageIDs[at]) == Failed
                 && forall k | 0 <= k < j && matchable[k] != send ::
                   Check(env, matchable[k], messageIDs[at]) == NoMatch))
  }

  method ClaimSendResponse(env: Surroundings, send: TransactionID, hasUnboundCompetitor: bool,
    matchable: seq<TransactionID>, messageIDs: seq<MessageID>)
    returns (r: Result<Option<MessageID>, ResponseError>)
    ensures r.Ok? && r.value.Some? ==>
      && !hasUnboundCompetitor && env.claim(send) != EchoReconciliation.GraphChanged
      && exists at: nat :: IsOnlyPair(env, send, matchable, messageIDs, at) && messageIDs[at] == r.value.value
    ensures !hasUnboundCompetitor && (exists at: nat :: IsOnlyPair(env, send, matchable, messageIDs, at)) ==>
      if env.claim(send) == EchoReconciliation.GraphChanged then r == Err(ResponseError.GraphChanged)
        else r.Ok? && r.value.Some?
    ensures r == Err(CheckFailed) <==>
      !hasUnboundCompetitor && send in matchable && exists at: nat :: FailsAt(env, send, matchable, messageIDs, at)
    ensures r == Err(ResponseError.GraphChanged) ==>
      && !hasUnboundCompetitor && env.claim(send) == EchoReconciliation.GraphChanged
      && exists at: nat :: IsOnlyPair(env, send, matchable, messageIDs, at)
  {
    if hasUnboundCompetitor { return Ok(None); }
    if send !in matchable { return Ok(None); }
    var matched: Option<nat> := None;
    for i := 0 to |messageIDs|
      invariant matched.None? ==> forall k | 0 <= k < i :: Check(env, send, messageIDs[k]) == NoMatch
      invariant matched.Some? ==>
        && matched.value < i && Check(env, send, messageIDs[matched.value]) == Match
        && (forall k | 0 <= k < i && k != matched.value :: Check(env, send, messageIDs[k]) == NoMatch)
        && (forall t <- matchable :: t != send ==> Check(env, t, messageIDs[matched.value]) == NoMatch)
      invariant IsClearUpTo(env, send, matchable, messageIDs, i)
      invariant forall k: nat | k < i :: !FailsAt(env, send, matchable, messageIDs, k)
    {
      var verdict := Check(env, send, messageIDs[i]);
      if verdict == Failed {
        assert FailsAt(env, send, matchable, messageIDs, i);
        return Err(CheckFailed);
      }
      if verdict == Unknown { return Ok(None); }
      if verdict == NoMatch { continue; }
      if matched.Some? { return Ok(None); }
      for j := 0 to |matchable|
        invariant forall k | 0 <= k < j && matchable[k] != send :: Check(env, matchable[k], messageIDs[i]) == NoMatch
      {
        if matchable[j] == send { continue; }
        var competing := Check(env, matchable[j], messageIDs[i]);
        if competing == Failed {
          assert FailsAt(env, send, matchable, messageIDs, i);
          return Err(CheckFailed);
        }
        if competing != NoMatch { return Ok(None); }
      }
      matched := Some(i);
    }
    if matched.None? { return Ok(None); }
    assert IsOnlyPair(env, send, matchable, messageIDs, matched.value);
    if env.claim(send) == EchoReconciliation.GraphChanged { return Err(ResponseError.GraphChanged); }
    return Ok(Some(messageIDs[matched.value]));
  }

  function WithoutSender<L(==)>(m: map<MessageID, L>, l: L): map<MessageID, L> {
    map w | w in m && m[w] != l :: m[w]
  }

  function WithPair<L(==)>(m: map<MessageID, L>, l: L, v: MessageID): map<MessageID, L> {
    WithoutSender(m, l)[v := l]
  }

  lemma WithoutOne<L(!new)>(m: map<MessageID, L>, l: L)
    requires Injective(m)
    ensures |m| <= |WithoutSender(m, l)| + 1
  {
    var kept := WithoutSender(m, l);
    if w :| w in m && m[w] == l {
      assert m.Keys == kept.Keys + {w};
      assert |m.Keys| == |kept.Keys| + 1;
    } else {
      assert m.Keys == kept.Keys;
    }
  }

  lemma PairKeepsMatching<L(!new)>(edges: set<(L, MessageID)>, m: map<MessageID, L>, l: L, v: MessageID)
    requires IsMatching(edges, m) && (l, v) in edges && forall e <- edges :: e.1 == v ==> e.0 == l
    ensures IsMatching(edges, WithPair(m, l, v)) && |WithPair(m, l, v)| >= |m|
  {
    PairIsMatching(edges, m, l, v);
    PairKeepsSize(edges, m, l, v);
    hide IsMatching, WithPair;
  }

  lemma PairKeepsSize<L(!new)>(edges: set<(L, MessageID)>, m: map<MessageID, L>, l: L, v: MessageID)
    requires IsMatching(edges, m) && forall e <- edges :: e.1 == v ==> e.0 == l
    ensures |WithPair(m, l, v)| >= |m|
  {
    WithoutOne(m, l);
    var kept := WithoutSender(m, l);
    assert forall w <- m.Keys :: (m[w], w) in edges;
    assert v !in kept;
    assert WithPair(m, l, v).Keys == kept.Keys + {v};
    assert |WithPair(m, l, v).Keys| == |kept.Keys| + 1;
  }

  lemma PairIsMatching<L(!new)>(edges: set<(L, MessageID)>, m: map<MessageID, L>, l: L, v: MessageID)
    requires IsMatching(edges, m) && (l, v) in edges
    ensures IsMatching(edges, WithPair(m, l, v))
  {
    var after := WithPair(m, l, v);
    forall x, y | x in after && y in after && x != y ensures after[x] != after[y] {
      assert x != v ==> m[x] == after[x];
      assert y != v ==> m[y] == after[y];
    }
  }

  /**
   Whatever else the conversation holds, and however its unverified relations turn out: the claim takes
   nothing from a complete account. Each maximum matching can be changed into one with the claimed pair
   by giving the send another message, and no other send can ever explain the message.
   */
  lemma ResponseClaimIsSafe(
    env: Surroundings, send: TransactionID, matchable: seq<TransactionID>, messageIDs: seq<MessageID>, at: nat,
    conversation: set<MessageID>, truth: set<(TransactionID, MessageID)>, m: map<MessageID, TransactionID>)
    requires IsOnlyPair(env, send, matchable, messageIDs, at) && forall v <- messageIDs :: v in conversation
    requires IsPossible(env, matchable, conversation, truth) && IsMaximum(truth, m)
    ensures IsMaximum(truth, WithPair(m, send, messageIDs[at]))
    ensures forall other | IsMatching(truth, other) && messageIDs[at] in other :: other[messageIDs[at]] == send
  {
    var v := messageIDs[at];
    OnlySenderInTruth(env, send, matchable, messageIDs, at, conversation, truth);
    PairKeepsMatching(truth, m, send, v);
    forall other | IsMatching(truth, other) && v in other ensures other[v] == send {
      assert (other[v], v) in truth;
    }
  }

  // ---- When the claim is forced ----

  function Besides<L(==)>(edges: set<(L, MessageID)>, l: L): set<(L, MessageID)> {
    set e | e in edges && e.0 != l
  }

  // Every other message of the sender is matched in whatever way the others are matched best.
  ghost predicate OthersAreTaken<L(!new)>(edges: set<(L, MessageID)>, l: L, v: MessageID) {
    forall w, m | (l, w) in edges && w != v && IsMaximum(Besides(edges, l), m) :: w in m
  }

  lemma RestIsMatching<L(!new)>(edges: set<(L, MessageID)>, m: map<MessageID, L>, l: L)
    requires IsMatching(edges, m)
    ensures IsMatching(Besides(edges, l), WithoutSender(m, l)) && |m| <= |WithoutSender(m, l)| + 1
    ensures l !in m.Values ==> WithoutSender(m, l) == m
  {
    WithoutOne(m, l);
  }

  // A largest matching of the others and one more edge of the sender are a largest matching.
  lemma SenderAddsOne<L(!new)>(edges: set<(L, MessageID)>, m: map<MessageID, L>, l: L, w: MessageID)
    requires IsMaximum(Besides(edges, l), m) && (l, w) in edges && w !in m
    ensures IsMaximum(edges, m[w := l]) && |m[w := l]| == |m| + 1
  {
    var larger := m[w := l];
    assert larger.Keys == m.Keys + {w};
    assert |larger.Keys| == |m.Keys| + 1;
    assert forall x <- m.Keys :: (m[x], x) in Besides(edges, l);
    forall other | IsMatching(edges, other) ensures |other| <= |larger| {
      RestIsMatching(edges, other, l);
    }
  }

  lemma LoneMessageIsFree<L(!new)>(edges: set<(L, MessageID)>, m: map<MessageID, L>, l: L, v: MessageID)
    requires IsMatching(Besides(edges, l), m) && forall e <- edges :: e.1 == v ==> e.0 == l
    ensures v !in m
  {
    assert forall w <- m.Keys :: (m[w], w) in Besides(edges, l);
  }

  // The sender's other message, in a largest matching without the pair, is free in one of the others.
  lemma OtherMessageIsFree<L(!new)>(edges: set<(L, MessageID)>, m: map<MessageID, L>, l: L, v: MessageID)
    requires (l, v) in edges && forall e <- edges :: e.1 == v ==> e.0 == l
    requires IsMaximum(edges, m) && !(v in m && m[v] == l)
    ensures !OthersAreTaken(edges, l, v)
  {
    var best := MaximumExists(Besides(edges, l));
    LoneMessageIsFree(edges, best, l, v);
    SenderAddsOne(edges, best, l, v);
    RestIsMatching(edges, m, l);
    var rest := WithoutSender(m, l);
    assert |m| == |best| + 1;
    assert IsMaximum(Besides(edges, l), rest);
    var w :| w in m && m[w] == l;
    assert (l, w) in edges && w !in rest;
  }

  /** A message that only one sender can explain is forced on it exactly if its other messages are always taken. */
  lemma LonePairIsForcedExactly<L(!new)>(edges: set<(L, MessageID)>, l: L, v: MessageID)
    requires (l, v) in edges && forall e <- edges :: e.1 == v ==> e.0 == l
    ensures IsForced(edges, l, v) <==> OthersAreTaken(edges, l, v)
  {
    if IsForced(edges, l, v) {
      forall w, m | (l, w) in edges && w != v && IsMaximum(Besides(edges, l), m) ensures w in m {
        if w !in m {
          SenderAddsOne(edges, m, l, w);
          LoneMessageIsFree(edges, m, l, v);
        }
      }
    }
    if OthersAreTaken(edges, l, v) {
      forall m | IsMaximum(edges, m) ensures v in m && m[v] == l {
        if !(v in m && m[v] == l) {
          OtherMessageIsFree(edges, m, l, v);
        }
      }
    }
  }

  /**
   In the whole conversation, however its unverified relations turn out, the claimed pair is forced exactly if
   every other message of the send is always taken by other sends.
   */
  lemma ResponseClaimIsForcedExactly(
    env: Surroundings, send: TransactionID, matchable: seq<TransactionID>, messageIDs: seq<MessageID>, at: nat,
    conversation: set<MessageID>, truth: set<(TransactionID, MessageID)>)
    requires IsOnlyPair(env, send, matchable, messageIDs, at) && forall v <- messageIDs :: v in conversation
    requires IsPossible(env, matchable, conversation, truth)
    ensures IsForced(truth, send, messageIDs[at]) <==> OthersAreTaken(truth, send, messageIDs[at])
  {
    OnlySenderInTruth(env, send, matchable, messageIDs, at, conversation, truth);
    LonePairIsForcedExactly(truth, send, messageIDs[at]);
  }

  lemma OnlySenderInTruth(
    env: Surroundings, send: TransactionID, matchable: seq<TransactionID>, messageIDs: seq<MessageID>, at: nat,
    conversation: set<MessageID>, truth: set<(TransactionID, MessageID)>)
    requires IsOnlyPair(env, send, matchable, messageIDs, at) && forall v <- messageIDs :: v in conversation
    requires IsPossible(env, matchable, conversation, truth)
    ensures (send, messageIDs[at]) in truth && forall e <- truth :: e.1 == messageIDs[at] ==> e.0 == send
    ensures forall e <- truth :: e.0 in matchable && e.1 in conversation && Check(env, e.0, e.1) in {Match, Unknown}
  {
    assert (send, messageIDs[at]) in EdgesWith(env, matchable, conversation, Match);
    forall e | e in truth ensures e.0 in matchable && e.1 in conversation && Check(env, e.0, e.1) in {Match, Unknown} {
      assert e in EdgesWith(env, matchable, conversation, Match) + EdgesWith(env, matchable, conversation, Unknown);
    }
  }

  /** A reply that holds every message of the conversation that can be the send's makes a forced claim. */
  lemma CompleteReplyIsForced(
    env: Surroundings, send: TransactionID, matchable: seq<TransactionID>, messageIDs: seq<MessageID>, at: nat,
    conversation: set<MessageID>, truth: set<(TransactionID, MessageID)>)
    requires IsOnlyPair(env, send, matchable, messageIDs, at) && forall v <- messageIDs :: v in conversation
    requires IsPossible(env, matchable, conversation, truth)
    requires forall v <- conversation :: Check(env, send, v) in {Match, Unknown} ==> v in messageIDs
    ensures IsForced(truth, send, messageIDs[at])
  {
    OnlySenderInTruth(env, send, matchable, messageIDs, at, conversation, truth);
    forall w | (send, w) in truth ensures w == messageIDs[at] {
      assert (send, w).0 == send && w in messageIDs;
    }
    ResponseClaimIsForcedExactly(env, send, matchable, messageIDs, at, conversation, truth);
  }

  lemma OneSender<L>(m: map<MessageID, L>, l: L)
    requires Injective(m) && forall v <- m.Keys :: m[v] == l
    ensures |m| <= 1
  {
    if v :| v in m {
      assert m.Keys == {v};
      assert |m.Keys| == 1;
    }
  }

  function TwoEchoes(): Surroundings {
    Surroundings(map[], _ => true, _ => true, (t: TransactionID, v: MessageID) => Match, _ => Claimed)
  }

  /** The claim is weaker than a forced one: the full conversation may hold another message for the send. */
  lemma ResponseClaimNeedNotBeForced()
    ensures IsOnlyPair(TwoEchoes(), "a", ["a"], ["x"], 0)
    ensures !IsForced(EdgesWith(TwoEchoes(), ["a"], {"x", "y"}, Match), "a", "x")
  {
    assert IsValidOutboundRemoteID("x") && IsValidOutboundRemoteID("y") by {
      assert 'x' in "x" && !IsSpace('x') && 'y' in "y" && !IsSpace('y');
    }
    var edges := EdgesWith(TwoEchoes(), ["a"], {"x", "y"}, Match);
    assert edges == {("a", "x"), ("a", "y")};
    var m := map["y" := "a"];
    assert IsMatching(edges, m);
    forall other | IsMatching(edges, other) ensures |other| <= 1 {
      forall v | v in other ensures other[v] == "a" {
        assert (other[v], v) in edges;
      }
      OneSender(other, "a");
    }
    assert IsMaximum(edges, m);
  }
}
