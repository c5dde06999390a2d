/**
 The outbound tables of pkg/connector/tumblrdb: their rows, the schema's checks and unique indexes,
 what the row scanner accepts, and every guarded statement as one atomic step. One bridge is
 modelled, so the bridge ID that scopes each statement is left out.
 */
module OutboundTables {
  import opened RemoteIDs

  type LoginID = string
  type TransactionID = string
  type EventID = string
  type RoomID = string

  datatype SendState =
    | Prepared | Submitting | AwaitingEcho | Uncertain | Resolved
    | Completed | NotSubmitted | Unconfirmed

  datatype MessageType = Text | Image | PostRef

  datatype PortalKey = PortalKey(id: string, receiver: string) {
    predicate IsEmpty() {
      id == "" && receiver == ""
    }
  }

  datatype Send = Send(
    loginID: LoginID,
    transactionID: TransactionID,
    portal: PortalKey,
    conversationID: string,
    bindingConversationID: string,
    roomID: RoomID,
    eventID: EventID,
    matrixSenderID: string,
    senderID: string,
    inputTransactionID: string,
    messageType: MessageType,
    contentHash: string,
    sourceDigest: string,
    baseline: seq<string>,
    remoteID: string,
    state: SendState,
    terminalTS: int,
    notifiedTS: int,
    claimToken: string,
    claimExpiresTS: int,
    attemptCount: int,
    nextAttemptTS: int,
    startedTS: int,
    createdTS: int,
    updatedTS: int)
  {
    predicate IsTerminal() {
      terminalTS > 0
    }

    predicate IsFailure() {
      state in {NotSubmitted, Unconfirmed}
    }
  }

  datatype Key = Key(loginID: LoginID, transactionID: TransactionID)

  datatype Receipt = Receipt(loginID: LoginID, transactionID: TransactionID, terminalTS: int)

  // A row of the bridge's message table, as far as the outbound statements look at it.
  datatype Mapping = Mapping(eventID: EventID, remoteID: string, receiver: string)

  datatype Tables = Tables(
    logins: set<LoginID>,
    sends: map<Key, Send>,
    receipts: map<EventID, Receipt>,
    mappings: set<Mapping>,
    portalRooms: map<PortalKey, RoomID>)

  // The result of one statement: the tables it leaves, no row that meets its guard, or a constraint
  // of the schema that refuses it.
  datatype Effect = Changed(tables: Tables) | NoRow | Rejected

  // The due time of completed rows: the largest 64-bit integer.
  const COMPLETED_RECEIPT_TS := 0x7fff_ffff_ffff_ffff
  const CONTENT_HASH_LENGTH := 64
  const SOURCE_DIGEST_LENGTH := 32

  // The digest in a transaction ID is taken as free of collisions, so its preimage stands for it.
  function TransactionIDOf(loginID: LoginID, eventID: EventID): TransactionID {
    "tumblr-outbound-" + loginID + "\0" + eventID
  }

  predicate IsLowerHex(s: string, length: nat) {
    |s| == length && forall c <- s :: '0' <= c <= '9' || 'a' <= c <= 'f'
  }

  // ---- The schema ----

  predicate SchemaAccepts(r: Send) {
    && |r.contentHash| == CONTENT_HASH_LENGTH
    && (r.sourceDigest == "" || |r.sourceDigest| == SOURCE_DIGEST_LENGTH)
    && r.roomID != ""
    && (r.bindingConversationID == "" || r.conversationID == "")
    && r.attemptCount >= 0 && r.terminalTS >= 0 && r.notifiedTS >= 0
    && (|| (r.claimToken == "" && r.claimExpiresTS == 0)
        || (r.claimToken != "" && r.claimExpiresTS > 0 && r.terminalTS > 0 && r.IsFailure()))
    && (r.notifiedTS == 0 || (r.claimToken == "" && r.terminalTS > 0 && r.IsFailure()))
    && (r.terminalTS == 0
        || (&& r.nextAttemptTS > r.terminalTS
            && ((r.IsFailure() && r.remoteID == "") || (r.state == Completed && r.remoteID != ""))))
    && (r.state in {Resolved, Completed} <==> r.remoteID != "")
    && (r.state in {AwaitingEcho, Resolved, Completed} ==> r.conversationID != "")
    && r.nextAttemptTS > 0
    && r.startedTS > 0 && r.createdTS > 0 && r.updatedTS > 0
  }

  // No other row of the login and conversation holds the same remote message.
  predicate IsRemoteFree(t: Tables, key: Key, conversationID: string, remoteID: string) {
    forall other <- t.sends.Keys ::
      other != key && other.loginID == key.loginID && t.sends[other].conversationID == conversationID
      ==> t.sends[other].remoteID != remoteID
  }

  predicate IsEventFree(t: Tables, key: Key, eventID: EventID) {
    forall other <- t.sends.Keys :: other != key ==> t.sends[other].eventID != eventID
  }

  predicate Fits(t: Tables, key: Key, r: Send) {
    && SchemaAccepts(r)
    && r.loginID in t.logins
    && (r.remoteID != "" ==> IsRemoteFree(t, key, r.conversationID, r.remoteID))
    && IsEventFree(t, key, r.eventID)
  }

  function UpdateRow(t: Tables, key: Key, r: Send): Effect {
    if Fits(t, key, r) then Changed(t.(sends := t.sends[key := r])) else Rejected
  }

  // ---- The row scanner ----

  predicate HasIdentity(r: Send) {
    && !IsBlank(r.loginID)
    && !IsBlank(r.transactionID)
    && !r.portal.IsEmpty()
    && (r.conversationID != "" ==> r.portal.id == r.conversationID)
    && !IsBlank(r.roomID)
    && !IsBlank(r.eventID)
    && !IsBlank(r.matrixSenderID)
    && !IsBlank(r.senderID)
    && (r.sourceDigest != "" ==> IsLowerHex(r.sourceDigest, SOURCE_DIGEST_LENGTH))
  }

  // Timestamps of zero or less read back as the zero time.
  predicate ScanAccepts(r: Send) {
    && IsLowerHex(r.contentHash, CONTENT_HASH_LENGTH)
    && (forall id <- r.baseline :: !IsBlank(id))
    && HasIdentity(r)
    && r.attemptCount >= 0
    && r.nextAttemptTS > 0 && r.startedTS > 0 && r.createdTS > 0 && r.updatedTS > 0
    && (r.claimToken == "" <==> r.claimExpiresTS <= 0)
    && (r.notifiedTS > 0 || r.claimToken != "" ==> r.terminalTS > 0 && r.IsFailure())
    && !(r.notifiedTS > 0 && r.claimToken != "")
    && (if r.terminalTS > 0 then
          && (|| (r.IsFailure() && r.remoteID == "")
              || (r.state == Completed && r.remoteID != "" && r.conversationID != "" && r.bindingConversationID == ""))
          && r.nextAttemptTS > r.terminalTS
        else
          && !r.IsFailure() && r.state != Completed
          && (r.state == Resolved ==> r.remoteID != "" && r.conversationID != "" && r.bindingConversationID == "")
          && (r.state == AwaitingEcho ==> r.remoteID == "" && r.conversationID != "" && r.bindingConversationID == "")
          && (r.state in {Prepared, Submitting, Uncertain} ==> r.remoteID == "")
          && (r.conversationID == "" || r.bindingConversationID == ""))
  }

  // ---- Statements ----

  function InsertSend(t: Tables, r: Send): Effect {
    var key := Key(r.loginID, r.transactionID);
    if (exists m <- t.mappings :: m.eventID == r.eventID) || r.eventID in t.receipts then NoRow
    else if key in t.sends || !IsEventFree(t, key, r.eventID) then NoRow
    else UpdateRow(t, key, r)
  }

  function PrepareConversation(t: Tables, key: Key, conversationID: string, nextTS: int, nowTS: int): Effect {
    if key !in t.sends then NoRow else
    var r := t.sends[key];
    if && r.conversationID == "" && r.remoteID == "" && r.terminalTS == 0
       && r.state in {Prepared, Submitting, AwaitingEcho, Uncertain}
       && r.bindingConversationID in {"", conversationID}
    then UpdateRow(t, key, r.(bindingConversationID := conversationID, nextAttemptTS := nextTS, updatedTS := nowTS))
    else NoRow
  }

  function MarkSubmitting(t: Tables, key: Key, baseline: seq<string>, startedTS: int, nextTS: int, nowTS: int): Effect {
    if key !in t.sends then NoRow else
    var r := t.sends[key];
    if r.state == Prepared && r.notifiedTS == 0 && r.remoteID == "" && r.terminalTS == 0
    then UpdateRow(t, key, r.(state := Submitting, baseline := baseline, startedTS := startedTS,
      nextAttemptTS := nextTS, updatedTS := nowTS))
    else NoRow
  }

  // The permanent receipt that every terminal transition saves in its own transaction, and checks.
  function EnsureReceipt(t: Tables, key: Key): Effect {
    if key !in t.sends then Rejected else
    var r := t.sends[key];
    var receipt := Receipt(key.loginID, key.transactionID, r.terminalTS);
    var conflict :=
      || r.eventID in t.receipts
      || exists e <- t.receipts.Keys ::
        t.receipts[e].loginID == key.loginID && t.receipts[e].transactionID == key.transactionID;
    var receipts := if r.terminalTS > 0 && !conflict then t.receipts[r.eventID := receipt] else t.receipts;
    if && r.eventID in receipts
       && receipts[r.eventID].loginID == key.loginID
       && receipts[r.eventID].transactionID == key.transactionID
    then Changed(t.(receipts := receipts))
    else Rejected
  }

  function WithReceipt(e: Effect, key: Key): Effect {
    if e.Changed? then EnsureReceipt(e.tables, key) else e
  }

  function MarkPreparedNotSubmitted(t: Tables, key: Key, terminalTS: int, nextTS: int): Effect {
    if key !in t.sends then NoRow else
    var r := t.sends[key];
    if r.state == Prepared && r.notifiedTS == 0 && r.remoteID == "" && r.terminalTS == 0
    then WithReceipt(UpdateRow(t, key,
      r.(state := NotSubmitted, terminalTS := terminalTS, nextAttemptTS := nextTS, updatedTS := terminalTS)), key)
    else NoRow
  }

  function MarkSubmittingNotSubmitted(t: Tables, key: Key, terminalTS: int, nextTS: int): Effect {
    if key !in t.sends then NoRow else
    var r := t.sends[key];
    if r.state == Submitting && r.notifiedTS == 0 && r.claimToken == "" && r.remoteID == "" && r.terminalTS == 0
    then WithReceipt(UpdateRow(t, key,
      r.(state := NotSubmitted, terminalTS := terminalTS, nextAttemptTS := nextTS, updatedTS := terminalTS)), key)
    else NoRow
  }

  function ClaimStatus(t: Tables, key: Key, token: string, expiresTS: int, nowTS: int): Effect {
    if key !in t.sends then NoRow else
    var r := t.sends[key];
    if && r.notifiedTS == 0 && r.terminalTS > 0 && r.IsFailure()
       && (r.claimToken == "" || r.claimExpiresTS <= nowTS)
    then UpdateRow(t, key, r.(
        claimToken := token, claimExpiresTS := expiresTS,
        nextAttemptTS := if r.nextAttemptTS > expiresTS then expiresTS else r.nextAttemptTS, updatedTS := nowTS))
    else NoRow
  }

  function FinishStatus(t: Tables, key: Key, token: string, notifiedTS: int, expiryTS: int): Effect {
    if key !in t.sends then NoRow else
    var r := t.sends[key];
    if r.claimToken == token && r.notifiedTS == 0 && r.terminalTS > 0 && r.IsFailure()
    then UpdateRow(t, key, r.(notifiedTS := notifiedTS, nextAttemptTS := expiryTS, claimToken := "",
      claimExpiresTS := 0, updatedTS := notifiedTS))
    else NoRow
  }

  function ReleaseStatus(t: Tables, key: Key, token: string, nowTS: int): Effect {
    if key !in t.sends then NoRow else
    var r := t.sends[key];
    if r.claimToken == token && r.notifiedTS == 0
    then UpdateRow(t, key, r.(claimToken := "", claimExpiresTS := 0, updatedTS := nowTS))
    else NoRow
  }

  function BindConversation(t: Tables, key: Key, conversationID: string, portal: PortalKey, nextTS: int,
    nowTS: int): Effect {
    if key !in t.sends then NoRow else
    var r := t.sends[key];
    if && r.remoteID == "" && r.terminalTS == 0 && r.state in {Prepared, Submitting, AwaitingEcho, Uncertain}
       && (|| (r.conversationID == "" && r.bindingConversationID == conversationID)
           || (r.conversationID == conversationID && r.bindingConversationID == "" && r.portal == portal))
       && portal in t.portalRooms && t.portalRooms[portal] == r.roomID
    then UpdateRow(t, key, r.(portal := portal, conversationID := conversationID, bindingConversationID := "",
      nextAttemptTS := nextTS, updatedTS := nowTS))
    else NoRow
  }

  function MarkAwaitingEcho(t: Tables, key: Key, nextTS: int, nowTS: int): Effect {
    if key !in t.sends then NoRow else
    var r := t.sends[key];
    if r.conversationID != "" && r.remoteID == "" && r.terminalTS == 0
      && r.state in {Submitting, AwaitingEcho, Uncertain}
    then UpdateRow(t, key, r.(state := AwaitingEcho, nextAttemptTS := nextTS, updatedTS := nowTS))
    else NoRow
  }

  function MarkUncertain(t: Tables, key: Key, nextTS: int, nowTS: int): Effect {
    if key !in t.sends then NoRow else
    var r := t.sends[key];
    if r.terminalTS == 0 && r.state in {Submitting, AwaitingEcho, Uncertain}
    then UpdateRow(t, key, r.(state := Uncertain, attemptCount := r.attemptCount + 1, nextAttemptTS := nextTS,
      updatedTS := nowTS))
    else NoRow
  }

  function MarkUnconfirmed(t: Tables, key: Key, terminalTS: int, nextTS: int): Effect {
    if key !in t.sends then NoRow else
    var r := t.sends[key];
    if r.terminalTS == 0 && r.remoteID == "" && r.state in {Submitting, AwaitingEcho, Uncertain}
    then WithReceipt(UpdateRow(t, key,
      r.(state := Unconfirmed, remoteID := "", terminalTS := terminalTS, nextAttemptTS := nextTS,
      updatedTS := terminalTS)), key)
    else NoRow
  }

  function MarkResolvedUnconfirmed(t: Tables, key: Key, remoteID: string, terminalTS: int, nextTS: int): Effect {
    if key !in t.sends then NoRow else
    var r := t.sends[key];
    if r.state == Resolved && r.remoteID == remoteID && r.terminalTS == 0
    then WithReceipt(UpdateRow(t, key,
      r.(state := Unconfirmed, remoteID := "", terminalTS := terminalTS, nextAttemptTS := nextTS,
      updatedTS := terminalTS)), key)
    else NoRow
  }

  // Completing a row that is already completed with the same message only ensures its receipt.
  function MarkCompleted(t: Tables, key: Key, remoteID: string, terminalTS: int): Effect {
    if key !in t.sends then NoRow else
    var r := t.sends[key];
    if r.state == Resolved && r.remoteID == remoteID && r.terminalTS == 0 && r.notifiedTS == 0 && r.claimToken == ""
    then WithReceipt(UpdateRow(t, key,
      r.(state := Completed, terminalTS := terminalTS, nextAttemptTS := COMPLETED_RECEIPT_TS,
      updatedTS := terminalTS)), key)
    else if r.state == Completed && r.remoteID == remoteID then EnsureReceipt(t, key)
    else NoRow
  }

  // The rows that a deleted conversation cancels.
  predicate IsCancelledBy(r: Send, loginID: LoginID, conversationID: string) {
    && r.loginID == loginID
    && (r.conversationID == conversationID || r.bindingConversationID == conversationID)
    && r.remoteID == "" && r.terminalTS == 0
    && r.state in {Prepared, Submitting, AwaitingEcho, Uncertain}
  }

  function Cancelled(r: Send, terminalTS: int, nextTS: int): Send {
    r.(state := if r.state == Prepared then NotSubmitted
      else Unconfirmed, terminalTS := terminalTS, nextAttemptTS := nextTS, updatedTS := terminalTS)
  }

  function CancelRows(t: Tables, loginID: LoginID, conversationID: string, terminalTS: int, nextTS: int): Tables {
    t.(sends := map k | k in t.sends ::
      if IsCancelledBy(t.sends[k], loginID, conversationID) then Cancelled(t.sends[k], terminalTS, nextTS)
        else t.sends[k])
  }

  function EnsureReceipts(t: Tables, keys: seq<Key>): Effect
    decreases |keys|
  {
    if keys == [] then Changed(t)
    else
      var e := EnsureReceipt(t, keys[0]);
      if e.Changed? then EnsureReceipts(e.tables, keys[1..]) else e
  }

  // The keys are the rows that the update returned, in the database's order.
  function TerminalizeConversation(
    t: Tables, loginID: LoginID, conversationID: string, terminalTS: int, nextTS: int, returned: seq<Key>): Effect
  {
    var updated := CancelRows(t, loginID, conversationID, terminalTS, nextTS);
    if forall k <- updated.sends.Keys ::
      Fits(updated, k, updated.sends[k]) then EnsureReceipts(updated, returned) else Rejected
  }

  function ScheduleRetry(t: Tables, key: Key, nextTS: int, nowTS: int): Effect {
    if key !in t.sends then NoRow else
    var r := t.sends[key];
    UpdateRow(t, key, r.(attemptCount := r.attemptCount + 1, nextAttemptTS := nextTS, updatedTS := nowTS))
  }

  predicate IsMapped(t: Tables, remoteID: string, receiver: string) {
    exists m <- t.mappings :: m.remoteID == remoteID && m.receiver in {receiver, ""}
  }

  function ClaimRemoteMessage(t: Tables, key: Key, conversationID: string, remoteID: string, nextTS: int,
    nowTS: int): Effect {
    if key !in t.sends then NoRow else
    var r := t.sends[key];
    if && r.conversationID == conversationID
       && (|| (&& r.state in {Submitting, AwaitingEcho, Uncertain} && r.remoteID == "" && r.terminalTS == 0
         && r.claimToken == ""
               && !(exists other <- t.sends.Keys ::
                      && other.loginID == key.loginID
                      && t.sends[other].conversationID == r.conversationID
                      && t.sends[other].remoteID == remoteID)
               && !IsMapped(t, remoteID, r.portal.receiver))
           || (r.state == Resolved && r.remoteID == remoteID))
    then UpdateRow(t, key, r.(remoteID := remoteID, state := Resolved, nextAttemptTS := nextTS, updatedTS := nowTS))
    else NoRow
  }

  function DeletePrepared(t: Tables, key: Key): Effect {
    if key !in t.sends then NoRow else
    var r := t.sends[key];
    if r.state == Prepared && r.remoteID == "" && r.terminalTS == 0 then Changed(t.(sends := t.sends - {key}))
      else NoRow
  }

  predicate HasOwnReceipt(t: Tables, r: Send) {
    && r.eventID in t.receipts
    && t.receipts[r.eventID].loginID == r.loginID
    && t.receipts[r.eventID].transactionID == r.transactionID
  }

  // Covers the two failure states, which the source deletes with one statement each.
  function DeleteNotified(t: Tables, key: Key, state: SendState): Effect
    requires state in {NotSubmitted, Unconfirmed}
  {
    if key !in t.sends then NoRow else
    var r := t.sends[key];
    if && r.state == state && r.remoteID == "" && r.terminalTS > 0
       && r.notifiedTS > 0 && r.claimToken == "" && HasOwnReceipt(t, r)
    then Changed(t.(sends := t.sends - {key}))
    else NoRow
  }
}
