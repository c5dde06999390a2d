/**
 What every statement keeps: each row satisfies the schema's checks and is accepted by the scanner,
 the unique indexes hold, and exactly the terminal rows have a receipt, of their own identity. Under
 the arguments that the callers pass, no statement is ever refused by a constraint.
 */
module OutboundInvariant {
  import opened OutboundTables

  predicate IsGoodRow(r: Send, nowTS: int) {
    && SchemaAccepts(r)
    && ScanAccepts(r)
    && r.terminalTS <= nowTS
    && r.transactionID == TransactionIDOf(r.loginID, r.eventID)
  }

  predicate IsKeyed(t: Tables) {
    forall k <- t.sends.Keys :: k == Key(t.sends[k].loginID, t.sends[k].transactionID) && k.loginID in t.logins
  }

  predicate HasUniqueEvents(t: Tables) {
    forall a <- t.sends.Keys, b <- t.sends.Keys :: t.sends[a].eventID == t.sends[b].eventID ==> a == b
  }

  predicate HasUniqueRemotes(t: Tables) {
    forall a <- t.sends.Keys, b <- t.sends.Keys ::
      && t.sends[a].remoteID != "" && t.sends[a].remoteID == t.sends[b].remoteID
      && a.loginID == b.loginID && t.sends[a].conversationID == t.sends[b].conversationID
      ==> a == b
  }

  predicate HasGoodReceipts(t: Tables) {
    forall e <- t.receipts.Keys ::
      && t.receipts[e].transactionID == TransactionIDOf(t.receipts[e].loginID, e)
      && t.receipts[e].loginID in t.logins
      && t.receipts[e].terminalTS > 0
  }

  // Inside a transaction some rows may be terminal without having their receipt yet.
  predicate HasReceiptsOfTerminalRows(t: Tables, pending: set<Key>) {
    forall k <- t.sends.Keys ::
      var r := t.sends[k];
      if r.IsTerminal() && k !in pending then HasOwnReceipt(t, r) else r.eventID !in t.receipts
  }

  predicate IsGood(t: Tables, nowTS: int) {
    && (forall k <- t.sends.Keys :: IsGoodRow(t.sends[k], nowTS))
    && IsKeyed(t)
    && HasUniqueEvents(t)
    && HasUniqueRemotes(t)
    && HasGoodReceipts(t)
    && HasReceiptsOfTerminalRows(t, {})
  }

  lemma GoodLater(t: Tables, nowTS: int, laterTS: int)
    requires IsGood(t, nowTS) && nowTS <= laterTS
    ensures IsGood(t, laterTS)
  {
  }

  // ---- One row at a time ----

  predicate HasSameIdentity(a: Send, b: Send) {
    a.loginID == b.loginID && a.transactionID == b.transactionID && a.eventID == b.eventID
  }

  // The row keeps its place among the remote messages of its conversation.
  predicate KeepsRemote(t: Tables, key: Key, r: Send)
    requires key in t.sends
  {
    || r.remoteID == ""
    || (r.remoteID == t.sends[key].remoteID && r.conversationID == t.sends[key].conversationID)
    || IsRemoteFree(t, key, r.conversationID, r.remoteID)
  }

  lemma UpdateFits(t: Tables, key: Key, r: Send, nowTS: int)
    requires IsGood(t, nowTS) && key in t.sends
    requires IsGoodRow(r, nowTS) && HasSameIdentity(t.sends[key], r) && KeepsRemote(t, key, r)
    ensures Fits(t, key, r)
  {
    hide SchemaAccepts, ScanAccepts, HasReceiptsOfTerminalRows;
    assert t.sends[key].eventID == r.eventID && key.loginID in t.logins;
  }

  lemma UpdateKeepsUnique(t: Tables, key: Key, r: Send)
    requires key in t.sends && HasUniqueEvents(t) && HasUniqueRemotes(t) && IsKeyed(t)
    requires HasSameIdentity(t.sends[key], r) && KeepsRemote(t, key, r)
    ensures HasUniqueEvents(t.(sends := t.sends[key := r]))
    ensures HasUniqueRemotes(t.(sends := t.sends[key := r]))
    ensures IsKeyed(t.(sends := t.sends[key := r]))
  {
    assert t.sends[key].eventID == r.eventID;
  }

  lemma UpdateKeepsReceipts(t: Tables, key: Key, r: Send)
    requires key in t.sends && HasReceiptsOfTerminalRows(t, {}) && HasSameIdentity(t.sends[key], r)
    requires r.IsTerminal() == t.sends[key].IsTerminal()
    ensures HasReceiptsOfTerminalRows(t.(sends := t.sends[key := r]), {})
  {
    assert t.sends[key].eventID == r.eventID;
  }

  lemma UpdateKeepsGood(t: Tables, key: Key, r: Send, nowTS: int)
    requires IsGood(t, nowTS) && key in t.sends
    requires IsGoodRow(r, nowTS) && HasSameIdentity(t.sends[key], r) && KeepsRemote(t, key, r)
    requires r.IsTerminal() == t.sends[key].IsTerminal()
    ensures UpdateRow(t, key, r) == Changed(t.(sends := t.sends[key := r]))
    ensures IsGood(t.(sends := t.sends[key := r]), nowTS)
  {
    hide SchemaAccepts, ScanAccepts, IsRemoteFree;
    UpdateFits(t, key, r, nowTS);
    UpdateKeepsUnique(t, key, r);
    UpdateKeepsReceipts(t, key, r);
    hide IsGoodRow, HasReceiptsOfTerminalRows, HasUniqueEvents, HasUniqueRemotes, IsKeyed, Fits;
  }

  // ---- Terminal transitions ----

  lemma TransactionIDsDiffer(loginID: LoginID, a: EventID, b: EventID)
    ensures TransactionIDOf(loginID, a) == TransactionIDOf(loginID, b) ==> a == b
  {
    var prefix := "tumblr-outbound-" + loginID + "\0";
    assert TransactionIDOf(loginID, a)[|prefix|..] == a;
    assert TransactionIDOf(loginID, b)[|prefix|..] == b;
  }

  // The tables between the update of some rows and the saving of their receipts.
  predicate IsGoodButFor(t: Tables, nowTS: int, pending: set<Key>) {
    && (forall k <- t.sends.Keys :: IsGoodRow(t.sends[k], nowTS))
    && IsKeyed(t)
    && HasUniqueEvents(t)
    && HasUniqueRemotes(t)
    && HasGoodReceipts(t)
    && HasReceiptsOfTerminalRows(t, pending)
  }

  function ReceiptOf(r: Send): Receipt {
    Receipt(r.loginID, r.transactionID, r.terminalTS)
  }

  // The tables after a terminal transition with its receipt.
  function Terminated(t: Tables, key: Key, r: Send): Tables {
    t.(sends := t.sends[key := r], receipts := t.receipts[r.eventID := ReceiptOf(r)])
  }

  lemma ReceiptIsSaved(t: Tables, nowTS: int, pending: set<Key>, key: Key)
    requires IsGoodButFor(t, nowTS, pending)
    requires key in pending && key in t.sends && t.sends[key].IsTerminal()
    ensures EnsureReceipt(t, key) ==
      Changed(t.(receipts := t.receipts[t.sends[key].eventID := ReceiptOf(t.sends[key])]))
    ensures IsGoodButFor(EnsureReceipt(t, key).tables, nowTS, pending - {key})
  {
    hide SchemaAccepts, ScanAccepts;
    var r := t.sends[key];
    assert IsGoodRow(r, nowTS) && key == Key(r.loginID, r.transactionID);
    forall e | e in t.receipts && t.receipts[e].loginID == key.loginID
      && t.receipts[e].transactionID == key.transactionID
      ensures false
    {
      TransactionIDsDiffer(key.loginID, e, r.eventID);
    }
  }

  lemma TerminateKeepsGood(t: Tables, key: Key, r: Send, nowTS: int)
    requires IsGood(t, nowTS) && key in t.sends && !t.sends[key].IsTerminal() && r.IsTerminal()
    requires IsGoodRow(r, nowTS) && HasSameIdentity(t.sends[key], r) && KeepsRemote(t, key, r)
    ensures WithReceipt(UpdateRow(t, key, r), key)
         == Changed(t.(sends := t.sends[key := r], receipts := t.receipts[r.eventID := ReceiptOf(r)]))
    ensures IsGood(WithReceipt(UpdateRow(t, key, r), key).tables, nowTS)
  {
    UpdateFits(t, key, r, nowTS);
    UpdateKeepsUnique(t, key, r);
    var updated := t.(sends := t.sends[key := r]);
    assert HasReceiptsOfTerminalRows(updated, {key}) by {
      assert t.sends[key].eventID == r.eventID;
    }
    TerminateStep(t, updated, key, r, nowTS);
  }

  lemma TerminateStep(t: Tables, updated: Tables, key: Key, r: Send, nowTS: int)
    requires IsGood(t, nowTS) && key in t.sends && updated == t.(sends := t.sends[key := r])
    requires r.IsTerminal() && IsGoodRow(r, nowTS) && Fits(t, key, r)
    requires HasUniqueEvents(updated) && HasUniqueRemotes(updated) && IsKeyed(updated)
    requires HasReceiptsOfTerminalRows(updated, {key})
    ensures WithReceipt(UpdateRow(t, key, r), key)
         == Changed(t.(sends := t.sends[key := r], receipts := t.receipts[r.eventID := ReceiptOf(r)]))
    ensures IsGood(WithReceipt(UpdateRow(t, key, r), key).tables, nowTS)
  {
    hide IsGoodRow, HasReceiptsOfTerminalRows, HasUniqueEvents, HasUniqueRemotes, IsKeyed, Fits, EnsureReceipt;
    assert HasGoodReceipts(updated);
    assert IsGoodButFor(updated, nowTS, {key});
    ReceiptIsSaved(updated, nowTS, {key}, key);
    assert {key} - {key} == {};
  }

  predicate OnlyAddsReceipts(before: Tables, after: Tables) {
    && after == before.(receipts := after.receipts)
    && forall e <- before.receipts.Keys :: e in after.receipts && after.receipts[e] == before.receipts[e]
  }

  lemma {:induction false} ReceiptsAreSaved(t: Tables, nowTS: int, keys: seq<Key>)
    requires IsGoodButFor(t, nowTS, set k | k in keys)
    requires forall k <- keys :: k in t.sends && t.sends[k].IsTerminal()
    requires forall i, j | 0 <= i < j < |keys| :: keys[i] != keys[j]
    ensures EnsureReceipts(t, keys).Changed?
    ensures IsGood(EnsureReceipts(t, keys).tables, nowTS)
    ensures OnlyAddsReceipts(t, EnsureReceipts(t, keys).tables)
    ensures forall e <- EnsureReceipts(t, keys).tables.receipts.Keys ::
      e in t.receipts || exists k <- keys :: t.sends[k].eventID == e
    decreases |keys|
  {
    if keys == [] {
      assert (set k | k in keys) == {};
    } else {
      ReceiptStep(t, nowTS, keys);
      hide IsGoodButFor, IsGood, EnsureReceipt;
      ReceiptsAreSaved(EnsureReceipt(t, keys[0]).tables, nowTS, keys[1..]);
    }
  }

  lemma ReceiptStep(t: Tables, nowTS: int, keys: seq<Key>)
    requires keys != [] && IsGoodButFor(t, nowTS, set k | k in keys)
    requires forall k <- keys :: k in t.sends && t.sends[k].IsTerminal()
    requires forall i, j | 0 <= i < j < |keys| :: keys[i] != keys[j]
    ensures EnsureReceipt(t, keys[0]) ==
      Changed(t.(receipts := t.receipts[t.sends[keys[0]].eventID := ReceiptOf(t.sends[keys[0]])]))
    ensures t.sends[keys[0]].eventID !in t.receipts
    ensures IsGoodButFor(EnsureReceipt(t, keys[0]).tables, nowTS, set k | k in keys[1..])
  {
    hide IsGoodButFor, EnsureReceipt;
    var pending, rest := set k | k in keys, set k | k in keys[1..];
    assert pending - {keys[0]} == rest;
    ReceiptIsSaved(t, nowTS, pending, keys[0]);
    PendingHasNoReceipt(t, nowTS, pending, keys[0]);
  }

  lemma PendingHasNoReceipt(t: Tables, nowTS: int, pending: set<Key>, key: Key)
    requires IsGoodButFor(t, nowTS, pending) && key in pending && key in t.sends
    ensures t.sends[key].eventID !in t.receipts
  {
    hide IsGoodRow, IsKeyed, HasUniqueEvents, HasUniqueRemotes, HasGoodReceipts;
  }

  // ---- Rows that come and go ----

  lemma InsertKeepsGood(t: Tables, key: Key, r: Send, nowTS: int)
    requires IsGood(t, nowTS) && key == Key(r.loginID, r.transactionID) && key !in t.sends
    requires IsGoodRow(r, nowTS) && !r.IsTerminal() && r.remoteID == "" && r.loginID in t.logins
    requires IsEventFree(t, key, r.eventID) && r.eventID !in t.receipts
    ensures UpdateRow(t, key, r) == Changed(t.(sends := t.sends[key := r]))
    ensures IsGood(t.(sends := t.sends[key := r]), nowTS)
  {
    InsertKeepsRows(t, key, r, nowTS);
    InsertKeepsUnique(t, key, r);
    hide IsGoodRow, HasReceiptsOfTerminalRows, HasUniqueEvents, HasUniqueRemotes, IsKeyed, Fits;
  }

  lemma InsertKeepsRows(t: Tables, key: Key, r: Send, nowTS: int)
    requires IsGood(t, nowTS) && key == Key(r.loginID, r.transactionID) && key !in t.sends
    requires IsGoodRow(r, nowTS) && !r.IsTerminal() && r.remoteID == "" && r.loginID in t.logins
    requires IsEventFree(t, key, r.eventID) && r.eventID !in t.receipts
    ensures Fits(t, key, r)
    ensures var after := t.sends[key := r]; forall k <- after.Keys :: IsGoodRow(after[k], nowTS)
    ensures HasReceiptsOfTerminalRows(t.(sends := t.sends[key := r]), {})
  {
    hide ScanAccepts, SchemaAccepts;
    assert SchemaAccepts(r);
  }

  lemma InsertKeepsUnique(t: Tables, key: Key, r: Send)
    requires IsKeyed(t) && HasUniqueEvents(t) && HasUniqueRemotes(t)
    requires key == Key(r.loginID, r.transactionID) && key !in t.sends && r.loginID in t.logins && r.remoteID == ""
    requires IsEventFree(t, key, r.eventID)
    ensures IsKeyed(t.(sends := t.sends[key := r]))
    ensures HasUniqueEvents(t.(sends := t.sends[key := r]))
    ensures HasUniqueRemotes(t.(sends := t.sends[key := r]))
  {
  }

  lemma DeleteKeepsGood(t: Tables, key: Key, nowTS: int)
    requires IsGood(t, nowTS)
    ensures IsGood(t.(sends := t.sends - {key}), nowTS)
  {
    hide IsGoodRow;
  }
}
