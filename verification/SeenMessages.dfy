/**
 The cache of messages that were already handed on: pkg/connector/sync.go (storeSeenMessageLocked,
 markConversationSeen) and conversation_delete.go (clearDeletedConversationSeenState). It remembers the
 most recent keys, in the order in which they came.
 */
module SeenMessages {
  import opened RemoteIDs
  import opened Sequences

  type CacheKey = string

  const MAX_SEEN_MESSAGES := 10000

  function KeyOf(conversationID: string, messageID: string): CacheKey {
    if conversationID == "" then messageID else conversationID + "\0" + messageID
  }

  predicate HasPrefix(key: CacheKey, prefix: string) {
    prefix <= key
  }

  predicate IsDistinct(keys: seq<CacheKey>) {
    forall i, j | 0 <= i < j < |keys| :: keys[i] != keys[j]
  }

  function Recent(keys: seq<CacheKey>): seq<CacheKey> {
    if |keys| > MAX_SEEN_MESSAGES then keys[|keys| - MAX_SEEN_MESSAGES..] else keys
  }

  function Remembered(keys: seq<CacheKey>, key: CacheKey): seq<CacheKey> {
    if key in keys then keys else Recent(keys + [key])
  }

  function WithoutPrefix(keys: seq<CacheKey>, prefix: string): (kept: seq<CacheKey>)
    ensures |kept| <= |keys| && forall k :: k in kept <==> k in keys && !HasPrefix(k, prefix)
  {
    Filter(keys, k => !HasPrefix(k, prefix))
  }

  lemma {:induction false} FilteredIsDistinct(keys: seq<CacheKey>, prefix: string)
    requires IsDistinct(keys)
    ensures IsDistinct(WithoutPrefix(keys, prefix))
  {
    if keys != [] {
      var init, last := keys[..|keys| - 1], keys[|keys| - 1];
      FilteredIsDistinct(init, prefix);
      assert WithoutPrefix(keys, prefix) == WithoutPrefix(init, prefix) + if HasPrefix(last, prefix) then []
        else [last];
    }
  }

  // What one fetched conversation adds, message by message: its new messages and the cache after it.
  function Marked(keys: seq<CacheKey>, conversationID: string,
    messageIDs: seq<string>): (r: (seq<string>, seq<CacheKey>)) {
    if messageIDs == [] then ([], keys)
    else
      var (unseen, before) := Marked(keys, conversationID, messageIDs[..|messageIDs| - 1]);
      var id := messageIDs[|messageIDs| - 1];
      var key := KeyOf(conversationID, id);
      if !IsValidRemoteID(id) || key in before || id in before then (unseen, before)
      else (unseen + [id], Remembered(before, key))
  }

  lemma NoNul(id: string)
    requires IsValidRemoteID(id)
    ensures forall c <- id :: c != '\0'
  {
    assert forall c <- id :: !IsControl(c);
  }

  lemma SplitAtNul(a: string, x: string, b: string, y: string)
    requires '\0' !in a && '\0' !in b && a + "\0" + x == b + "\0" + y
    ensures a == b && x == y
  {
    var whole := a + "\0" + x;
    assert whole[|a|] == '\0' && whole[|b|] == '\0';
    assert forall i | 0 <= i < |a| :: whole[i] == a[i] && a[i] != '\0';
    assert forall i | 0 <= i < |b| :: whole[i] == b[i] && b[i] != '\0';
    assert whole[..|a|] == a && whole[..|b|] == b;
    assert whole[|a| + 1..] == x && whole[|b| + 1..] == y;
  }

  // The key is the two IDs around a zero character, which is in neither.
  lemma KeySplits(conversationID: string, x: string)
    requires IsValidRemoteID(conversationID)
    ensures KeyOf(conversationID, x) == conversationID + "\0" + x && '\0' in KeyOf(conversationID, x)
      && '\0' !in conversationID
  {
    NoNul(conversationID);
    assert KeyOf(conversationID, x)[|conversationID|] == '\0';
  }

  lemma PrefixSplits(key: string, prefix: string)
    requires HasPrefix(key, prefix + "\0")
    ensures key == prefix + "\0" + key[|prefix| + 1..] && '\0' in key
  {
    assert key[|prefix|] == (prefix + "\0")[|prefix|];
    assert key[..|prefix| + 1] == prefix + "\0";
  }

  // Keys of one conversation never meet those of another.
  lemma KeysDiffer(a: string, x: string, b: string, y: string)
    requires IsValidRemoteID(a) && IsValidRemoteID(b)
    ensures KeyOf(a, x) == KeyOf(b, y) <==> a == b && x == y
    ensures HasPrefix(KeyOf(b, y), a + "\0") <==> a == b
  {
    KeySplits(a, x);
    KeySplits(b, y);
    if KeyOf(a, x) == KeyOf(b, y) {
      SplitAtNul(a, x, b, y);
    }
    if HasPrefix(KeyOf(b, y), a + "\0") {
      hide IsValidRemoteID, KeyOf;
      PrefixSplits(KeyOf(b, y), a);
      SplitAtNul(a, KeyOf(b, y)[|a| + 1..], b, y);
    }
    if a == b {
      assert KeyOf(b, y) == (a + "\0") + y;
    }
  }

  lemma IDIsNoKey(conversationID: string, x: string, id: string)
    requires IsValidRemoteID(conversationID) && IsValidRemoteID(id)
    ensures KeyOf(conversationID, x) != id && !HasPrefix(id, conversationID + "\0")
  {
    NoNul(id);
    KeySplits(conversationID, x);
    if HasPrefix(id, conversationID + "\0") {
      PrefixSplits(id, conversationID);
    }
  }

  class SeenCache {
    var seenMessages: set<CacheKey>
    var order: seq<CacheKey>

    predicate Valid()
      reads this
    {
      IsDistinct(order) && seenMessages == (set k | k in order) && |order| <= MAX_SEEN_MESSAGES
    }

    constructor ()
      ensures Valid() && order == []
    {
      seenMessages, order := {}, [];
    }

    method Store(key: CacheKey)
      requires Valid()
      modifies this
      ensures Valid() && order == Remembered(old(order), key)
    {
      if key in seenMessages { return; }
      seenMessages := seenMessages + {key};
      order := order + [key];
      while |order| > MAX_SEEN_MESSAGES
        invariant IsDistinct(order) && seenMessages == set k | k in order
        invariant |order| == |old(order)| + 1 || order == Remembered(old(order), key)
        invariant |order| == |old(order)| + 1 ==> order == old(order) + [key]
        decreases |order|
      {
        assert forall k <- order[1..] :: k != order[0];
        seenMessages := seenMessages - {order[0]};
        order := order[1..];
      }
    }

    method MarkConversationSeen(conversationID: string, messageIDs: seq<string>) returns (unseen: seq<string>)
      requires Valid()
      modifies this
      ensures Valid()
      ensures IsValidRemoteID(conversationID) ==> (unseen, order) == Marked(old(order), conversationID, messageIDs)
      ensures !IsValidRemoteID(conversationID) ==> unseen == [] && order == old(order)
    {
      unseen := [];
      if !IsValidRemoteID(conversationID) { return; }
      for i := 0 to |messageIDs|
        invariant Valid() && (unseen, order) == Marked(old(order), conversationID, messageIDs[..i])
      {
        assert messageIDs[..i + 1][..i] == messageIDs[..i];
        var id := messageIDs[i];
        if !IsValidRemoteID(id) { continue; }
        var key := KeyOf(conversationID, id);
        if key in seenMessages || id in seenMessages { continue; }
        Store(key);
        unseen := unseen + [id];
      }
      assert messageIDs[..|messageIDs|] == messageIDs;
    }

    // Filters the order in place; what is kept keeps its order.
    method ClearConversation(conversationID: string)
      requires Valid()
      modifies this
      ensures Valid() && order == WithoutPrefix(old(order), conversationID + "\0")
    {
      var prefix := conversationID + "\0";
      var kept: seq<CacheKey> := [];
      ghost var all := order;
      for i := 0 to |order|
        invariant order == all == old(order)
        invariant kept == WithoutPrefix(all[..i], prefix)
        invariant seenMessages == set k | k in all && !(k in all[..i] && HasPrefix(k, prefix))
      {
        assert all[..i + 1][..i] == all[..i] && all[..i + 1] == all[..i] + [all[i]];
        if HasPrefix(order[i], prefix) {
          seenMessages := seenMessages - {order[i]};
          continue;
        }
        kept := kept + [order[i]];
      }
      assert all[..|all|] == all;
      FilteredIsDistinct(all, prefix);
      order := kept;
    }
  }

  /** After a deleted conversation was cleared, its messages count as new again, and no others do. */
  lemma ClearingForgetsOneConversation(keys: seq<CacheKey>, cleared: string, conversationID: string, id: string)
    requires IsDistinct(keys) && IsValidRemoteID(cleared) && IsValidRemoteID(conversationID) && IsValidRemoteID(id)
    ensures KeyOf(conversationID, id) in WithoutPrefix(keys, cleared + "\0") <==>
      KeyOf(conversationID, id) in keys && conversationID != cleared
    ensures id in WithoutPrefix(keys, cleared + "\0") <==> id in keys
  {
    KeysDiffer(cleared, id, conversationID, id);
    IDIsNoKey(cleared, id, id);
    hide IsValidRemoteID, KeyOf, HasPrefix, WithoutPrefix;
  }

  // ---- What counts as new ----

  function KeysOf(conversationID: string, ids: seq<string>): (keys: seq<CacheKey>)
    ensures |keys| == |ids| && forall i | 0 <= i < |ids| :: keys[i] == KeyOf(conversationID, ids[i])
  {
    seq(|ids|, i requires 0 <= i < |ids| => KeyOf(conversationID, ids[i]))
  }

  lemma RecentOfRecent(keys: seq<CacheKey>, key: CacheKey)
    ensures Recent(Recent(keys) + [key]) == Recent(keys + [key])
  {
  }

  /** However full the cache is, it ends up with the most recent of its keys and the new ones. */
  lemma {:induction false} CacheIsRecent(keys: seq<CacheKey>, conversationID: string, messageIDs: seq<string>)
    requires |keys| <= MAX_SEEN_MESSAGES
    ensures var (unseen, after) := Marked(keys, conversationID, messageIDs);
      after == Recent(keys + KeysOf(conversationID, unseen))
  {
    if messageIDs == [] {
      assert keys + KeysOf(conversationID, []) == keys;
    } else {
      var init, id := messageIDs[..|messageIDs| - 1], messageIDs[|messageIDs| - 1];
      CacheIsRecent(keys, conversationID, init);
      var (unseen, _) := Marked(keys, conversationID, init);
      var all := keys + KeysOf(conversationID, unseen);
      assert KeysOf(conversationID, unseen + [id]) == KeysOf(conversationID, unseen) + [KeyOf(conversationID, id)];
      assert keys + KeysOf(conversationID, unseen + [id]) == all + [KeyOf(conversationID, id)];
      RecentOfRecent(all, KeyOf(conversationID, id));
      hide Recent, KeysOf, KeyOf;
    }
  }

  // The number of the oldest keys that so many new ones displace.
  function Evicted(keys: seq<CacheKey>, added: nat): (n: nat)
    ensures n <= |keys|
  {
    if |keys| + added <= MAX_SEEN_MESSAGES then 0
    else if added >= MAX_SEEN_MESSAGES then |keys|
    else |keys| + added - MAX_SEEN_MESSAGES
  }

  lemma RecentKeepsYoungest(keys: seq<CacheKey>, added: seq<CacheKey>)
    requires |keys| <= MAX_SEEN_MESSAGES
    ensures forall k <- keys[Evicted(keys, |added|)..] :: k in Recent(keys + added)
    ensures forall k <- Recent(keys + added) :: k in keys || k in added
    ensures |added| <= MAX_SEEN_MESSAGES ==> Recent(keys + added) == keys[Evicted(keys, |added|)..] + added
  {
    var all, n := keys + added, Evicted(keys, |added|);
    var start := |all| - |Recent(all)|;
    assert Recent(all) == all[start..] && (start <= n || n == |keys|);
    forall k | k in keys[n..] ensures k in Recent(all) {
      var i :| 0 <= i < |keys| - n && keys[n..][i] == k;
      assert Recent(all)[n + i - start] == k;
    }
  }

  lemma {:induction false} UnseenIsBounded(keys: seq<CacheKey>, conversationID: string, messageIDs: seq<string>)
    ensures |Marked(keys, conversationID, messageIDs).0| <= |messageIDs|
    ensures forall id <- Marked(keys, conversationID, messageIDs).0 :: IsValidRemoteID(id) && id in messageIDs
  {
    if messageIDs != [] {
      UnseenIsBounded(keys, conversationID, messageIDs[..|messageIDs| - 1]);
    }
  }

  /**
   A message of a fetch is reported as new exactly if its ID is valid and the cache does not hold its key, nor
   its bare ID: neither among the keys that it had before nor among those of earlier messages of this fetch,
   as far as they are still among the most recent ones.
   */
  lemma ReportedExactly(keys: seq<CacheKey>, conversationID: string, messageIDs: seq<string>, i: nat)
    requires |keys| <= MAX_SEEN_MESSAGES && i < |messageIDs|
    ensures var unseen := Marked(keys, conversationID, messageIDs[..i]).0;
            var id, kept := messageIDs[i], Recent(keys + KeysOf(conversationID, unseen));
            Marked(keys, conversationID, messageIDs[..i + 1]).0 ==
              if IsValidRemoteID(id) && KeyOf(conversationID, id) !in kept && id !in kept then unseen + [id] else unseen
  {
    assert messageIDs[..i + 1][..i] == messageIDs[..i];
    CacheIsRecent(keys, conversationID, messageIDs[..i]);
  }

  // Among the new keys, a message's key stands for its ID, and no bare ID occurs.
  lemma NewKeysAreIDs(conversationID: string, unseen: seq<string>, id: string)
    requires IsValidRemoteID(conversationID) && IsValidRemoteID(id)
    ensures KeyOf(conversationID, id) in KeysOf(conversationID, unseen) <==> id in unseen
    ensures id !in KeysOf(conversationID, unseen)
  {
    var keys := KeysOf(conversationID, unseen);
    forall i | 0 <= i < |unseen| ensures (keys[i] == KeyOf(conversationID, id) <==> unseen[i] == id) && keys[i] != id {
      KeysDiffer(conversationID, unseen[i], conversationID, id);
      IDIsNoKey(conversationID, unseen[i], id);
    }
    hide IsValidRemoteID, KeyOf;
    if id in unseen {
      var i :| 0 <= i < |unseen| && unseen[i] == id;
      assert keys[i] == KeyOf(conversationID, id);
    }
  }

  lemma DisplacedGrows(keys: seq<CacheKey>, a: nat, b: nat)
    requires a <= b
    ensures forall k <- keys[Evicted(keys, b)..] :: k in keys[Evicted(keys, a)..]
  {
    var m, n := Evicted(keys, a), Evicted(keys, b);
    forall k | k in keys[n..] ensures k in keys[m..] {
      var i :| 0 <= i < |keys| - n && keys[n..][i] == k;
      assert keys[m..][n - m + i] == k;
    }
  }

  /**
   A fetch of any length reports everything that was not remembered, and a remembered message only if its key
   is among the oldest ones, which the new messages of this fetch displace. A fetch of up to as many messages
   as the cache holds reports none of them twice.
   */
  lemma {:induction false} MarkedOnce(keys: seq<CacheKey>, conversationID: string, messageIDs: seq<string>)
    requires |keys| <= MAX_SEEN_MESSAGES && IsValidRemoteID(conversationID)
    ensures var unseen := Marked(keys, conversationID, messageIDs).0;
            && (|messageIDs| <= MAX_SEEN_MESSAGES ==> IsDistinct(unseen))
            && (forall id <- messageIDs ::
                  IsValidRemoteID(id) ==> id in unseen || KeyOf(conversationID, id) in keys || id in keys)
            && (forall id <- unseen :: KeyOf(conversationID, id) !in keys[Evicted(keys, |unseen|)..])
  {
    hide IsValidRemoteID, KeyOf, Recent, KeysOf, Evicted;
    if messageIDs != [] {
      var init, id := messageIDs[..|messageIDs| - 1], messageIDs[|messageIDs| - 1];
      assert messageIDs == init + [id];
      MarkedOnce(keys, conversationID, init);
      LastIsMarked(keys, conversationID, messageIDs);
      UnseenIsBounded(keys, conversationID, init);
      hide Marked;
      DisplacedGrows(
        keys, |Marked(keys, conversationID, init).0|, |Marked(keys, conversationID, messageIDs).0|);
    }
  }

  // What the last message of a fetch adds.
  lemma LastIsMarked(keys: seq<CacheKey>, conversationID: string, messageIDs: seq<string>)
    requires |keys| <= MAX_SEEN_MESSAGES && IsValidRemoteID(conversationID) && messageIDs != []
    ensures var init, id := messageIDs[..|messageIDs| - 1], messageIDs[|messageIDs| - 1];
            var unseen, after := Marked(keys, conversationID, init).0, Marked(keys, conversationID, messageIDs).0;
            if after == unseen then
              IsValidRemoteID(id) ==> id in unseen || KeyOf(conversationID, id) in keys || id in keys
            else
              && after == unseen + [id]
              && KeyOf(conversationID, id) !in keys[Evicted(keys, |unseen|)..]
              && (|unseen| <= MAX_SEEN_MESSAGES ==> id !in unseen)
  {
    var i := |messageIDs| - 1;
    var id, unseen := messageIDs[i], Marked(keys, conversationID, messageIDs[..i]).0;
    assert messageIDs[..i + 1] == messageIDs;
    ReportedExactly(keys, conversationID, messageIDs, i);
    RecentKeepsYoungest(keys, KeysOf(conversationID, unseen));
    if IsValidRemoteID(id) {
      NewKeysAreIDs(conversationID, unseen, id);
    }
    hide IsValidRemoteID, KeyOf, Recent, KeysOf, Evicted, Marked;
  }

  /** In a full cache this happens: a new message displaces the oldest key, whose message is reported again. */
  lemma OldestIsReportedAgain(keys: seq<CacheKey>)
    requires |keys| == MAX_SEEN_MESSAGES && IsDistinct(keys) && keys[0] == KeyOf("c", "b")
    requires KeyOf("c", "a") !in keys && "a" !in keys && "b" !in keys
    ensures Marked(keys, "c", ["a", "b"]).0 == ["a", "b"] && KeyOf("c", "b") in keys
  {
    assert IsValidRemoteID("a") && IsValidRemoteID("b") && IsValidRemoteID("c") by {
      assert 'a' in "a" && 'b' in "b" && 'c' in "c" && !IsSpace('a') && !IsSpace('b') && !IsSpace('c');
    }
    hide IsValidRemoteID, KeyOf;
    var ids := ["a", "b"];
    assert ids[..0] == [] && ids[..1] == ["a"] && ids[..2] == ids;
    assert Marked(keys, "c", []).0 == [];
    hide Marked;
    FirstIsReported(keys, "c", ids);
    assert "b" !in ["a"];
    SecondIsReported(keys, "c", ids);
  }

  lemma FirstIsReported(keys: seq<CacheKey>, conversationID: string, ids: seq<string>)
    requires |keys| == MAX_SEEN_MESSAGES && |ids| == 2 && IsValidRemoteID(conversationID) && IsValidRemoteID(ids[0])
    requires KeyOf(conversationID, ids[0]) !in keys && ids[0] !in keys
    ensures Marked(keys, conversationID, ids[..1]).0 == [ids[0]]
  {
    ReportedExactly(keys, conversationID, ids, 0);
    hide IsValidRemoteID, KeyOf;
    assert keys + KeysOf(conversationID, []) == keys;
    assert ids[..0] == [] && [] + [ids[0]] == [ids[0]];
  }

  lemma SecondIsReported(keys: seq<CacheKey>, conversationID: string, ids: seq<string>)
    requires |keys| == MAX_SEEN_MESSAGES && IsDistinct(keys) && |ids| == 2 && IsValidRemoteID(conversationID)
      && IsValidRemoteID(ids[1])
    requires Marked(keys, conversationID, ids[..1]).0 == [ids[0]] && ids[0] != ids[1]
    requires keys[0] == KeyOf(conversationID, ids[1]) && ids[1] !in keys
    ensures Marked(keys, conversationID, ids).0 == ids
  {
    ReportedExactly(keys, conversationID, ids, 1);
    NewKeysAreIDs(conversationID, [ids[0]], ids[1]);
    hide IsValidRemoteID, KeyOf, Marked;
    assert Recent(keys + KeysOf(conversationID, [ids[0]])) == keys[1..] + KeysOf(conversationID, [ids[0]]);
    assert keys[0] !in keys[1..] && forall k <- keys[1..] :: k in keys;
    assert ids[..2] == ids && [ids[0]] + [ids[1]] == ids;
  }
}
