/**
 The durable part of sendMatrixMessageToTumblr in pkg/connector/client.go: one prepared row is moved to
 submitting, sent once, and its outcome is recorded. Each step can find that another process was faster.
 */
module OutboundSender {
  import opened Wrappers
  import opened OutboundTables
  import opened OutboundInvariant
  import opened OutboundStatements
  import opened OutboundGuards
  import opened OutboundSendQueries
  import Http = MessageSend

  const UNCONFIRMED_TIMEOUT := 120 * 1_000_000_000
  const MILLISECOND := 1_000_000

  datatype Outcome = Pending | Failed

  // What the network and the clock do during one send.
  datatype Course = Course(
    now: Instant, baseline: Option<seq<string>>, validArguments: bool, validReply: bool,
    first: Http.Response, second: Http.Response, startPage: Http.Page, pages: seq<Http.Page>, patience: nat)
  {
    predicate IsHonest() {
      first.IsHonest() && second.IsHonest() && |pages| == Http.REFRESH_RETRIES + 1
    }

    predicate HasBaseline() {
      baseline.Some? && IsBaseline(baseline.value)
    }

    // The clock is past the epoch, and the times reckoned from it are before the end of time.
    predicate IsTimely() {
      now > ZERO_TIME && 0 < Milli(now) && Milli(now) + 1 < COMPLETED_RECEIPT_TS
    }

    function Deadline(): int {
      Milli(now + UNCONFIRMED_TIMEOUT)
    }
  }

  predicate IsIn(t: Tables, key: Key, state: SendState) {
    key in t.sends && t.sends[key].state == state
  }

  // The row's next state, and what else this changes about it.
  function SubmittingRow(r: Send, course: Course): Send
    requires course.HasBaseline()
  {
    r.(
      state := Submitting, baseline := course.baseline.value, startedTS := Milli(course.now),
      nextAttemptTS := course.Deadline(), updatedTS := Milli(course.now))
  }

  function AwaitingRow(r: Send, course: Course): Send {
    r.(state := AwaitingEcho, nextAttemptTS := course.Deadline(), updatedTS := Milli(course.now))
  }

  function UncertainRow(r: Send, course: Course): Send {
    r.(
      state := Uncertain, attemptCount := r.attemptCount + 1, nextAttemptTS := course.Deadline(),
      updatedTS := Milli(course.now))
  }

  function RejectedRow(r: Send, course: Course): Send {
    r.(
      state := NotSubmitted, terminalTS := Milli(course.now), nextAttemptTS := Milli(course.now) + 1,
      updatedTS := Milli(course.now))
  }

  // A row that is still pending becomes uncertain; nothing else changes.
  function Doubted(t: Tables, key: Key, course: Course): Tables {
    if key in t.sends && IsPending(t.sends[key])
    then t.(sends := t.sends[key := UncertainRow(t.sends[key], course)])
    else t
  }

  // A pending row of a bound conversation waits for its echo.
  predicate CanAwaitEcho(t: Tables, key: Key) {
    key in t.sends && IsPending(t.sends[key]) && t.sends[key].conversationID != ""
  }

  // A submitting row becomes not submitted, with its receipt; nothing else changes.
  function Refused(t: Tables, key: Key, course: Course): Tables {
    if IsIn(t, key, Submitting) then Terminated(t, key, RejectedRow(t.sends[key], course)) else t
  }

  // What the outcome of the send makes of the tables that others left before it was recorded.
  function Recorded(key: Key, course: Course, error: Option<Http.SendError>, t: Tables, afterwards: Tables): Tables {
    if Http.IsDefinite(error) then Refused(t, key, course)
    else if error.Some? then Doubted(t, key, course)
    else if CanAwaitEcho(t, key) then t.(sends := t.sends[key := AwaitingRow(t.sends[key], course)])
    else Doubted(afterwards, key, course)
  }

  class Sender {
    const rows: OutboundSendQuery
    const client: Http.Client

    constructor (rows: OutboundSendQuery, client: Http.Client)
      ensures this.rows == rows && this.client == client
    {
      this.rows, this.client := rows, client;
    }

    // Nothing was sent, so the row may go, and its event may be tried again.
    method DeletePrepared(key: Key, ghost nowTS: int) returns (outcome: Outcome)
      requires IsGood(rows.tables, nowTS)
      modifies rows
      ensures outcome == if IsIn(old(rows.tables), key, Prepared) then Failed else Pending
      ensures rows.tables ==
        if IsIn(old(rows.tables), key, Prepared) then old(rows.tables).(sends := old(rows.tables).sends - {key})
        else old(rows.tables)
      ensures IsGood(rows.tables, nowTS)
    {
      hide IsGood;
      DeleteKeepsGood(rows.tables, key, nowTS);
      ForgetIsExact(rows.tables, key, NotSubmitted, nowTS);
      var deleted := rows.Exec(OutboundTables.DeletePrepared(rows.tables, key));
      return if deleted == Ok(true) then Failed else Pending;
    }

    method KeepPending(key: Key, course: Course)
      requires course.IsTimely() && IsGood(rows.tables, Milli(course.now))
      modifies rows
      ensures rows.tables == Doubted(old(rows.tables), key, course) && IsGood(rows.tables, Milli(course.now))
    {
      hide IsGood, MarkUncertain;
      DoubtIsPlain(rows.tables, key, course);
      var doubted := rows.Exec(MarkUncertain(rows.tables, key, course.Deadline(), Milli(course.now)));
    }

    // Records what became of a request that went out.
    method Record(key: Key, course: Course, error: Option<Http.SendError>, afterwards: Tables)
      requires course.IsTimely() && IsGood(rows.tables, Milli(course.now)) && IsGood(afterwards, Milli(course.now))
      modifies rows
      ensures rows.tables == Recorded(key, course, error, old(rows.tables), afterwards)
      ensures IsGood(rows.tables, Milli(course.now))
    {
      hide IsGood, MarkAwaitingEcho, NotSubmittedEffect;
      var now := course.now;
      if error.None? {
        AwaitIsPlain(rows.tables, key, course);
        var awaiting := rows.Exec(MarkAwaitingEcho(rows.tables, key, course.Deadline(), Milli(now)));
        if awaiting != Ok(true) {
          rows.tables := afterwards;
          KeepPending(key, course);
        }
        return;
      }
      if Http.IsOutcomeUnknown(error.value) {
        KeepPending(key, course);
        return;
      }
      RejectIsPlain(rows.tables, key, course);
      var rejected := rows.MarkNotSubmitted(true, key, now, now + MILLISECOND);
    }

    /**
     Before each of its statements, other processes may have left other tables. A request goes out exactly if the
     row is prepared when it is looked up and still prepared when this call claims it, with a valid baseline, and
     then the outcome of the send is recorded. Otherwise nothing is sent, and the row goes if the baseline failed.
     The last results tell the tables in which the request went out, and how the send ended.
     */
    method SendPrepared(key: Key, course: Course, others: seq<Tables>)
      returns (outcome: Outcome, ghost sent: Option<Tables>, ghost error: Option<Http.SendError>)
      requires course.IsHonest() && course.IsTimely() && |others| == 4
      requires forall t <- others :: IsGood(t, Milli(course.now))
      modifies rows, client
      ensures sent.Some? <==>
        IsIn(others[0], key, Prepared) && course.HasBaseline() && IsIn(others[1], key, Prepared)
      ensures sent.Some? ==>
        && sent.value == others[1].(sends := others[1].sends[key := SubmittingRow(others[1].sends[key], course)])
        && outcome == Pending && rows.tables == Recorded(key, course, error, others[2], others[3])
        && Http.IsSent(
             course.validArguments && Http.CanStart(old(client.apiToken), old(client.csrfToken), course.startPage),
             course.validReply, course.first, course.second, course.pages, course.patience,
             client.requests - old(client.requests), client.accepted - old(client.accepted), error)
      ensures sent.None? ==>
        && client.requests == old(client.requests) && client.accepted == old(client.accepted)
        && var found := if !IsIn(others[0], key, Prepared) then others[0]
                        else if course.baseline.None? || course.HasBaseline() then others[1]
                        else others[2];
           var deletes := IsIn(others[0], key, Prepared) && !course.HasBaseline() && IsIn(found, key, Prepared);
           && rows.tables == (if deletes then found.(sends := found.sends - {key}) else found)
           && outcome == (if deletes then Failed else Pending)
      ensures client.accepted <= old(client.accepted) + 1
      ensures IsGood(rows.tables, Milli(course.now))
    {
      hide IsGood, OutboundTables.MarkSubmitting, Http.IsSent;
      sent, error := None, None;
      var now := course.now;
      rows.tables := others[0];
      var row := rows.Get(key);
      if row.None? || row.value.state != Prepared { return Pending, sent, error; }
      rows.tables := others[1];
      if course.baseline.None? {
        outcome := DeletePrepared(key, Milli(now));
        return;
      }
      ClaimIsPlain(others[1], key, course);
      var claimed := rows.MarkSubmitting(key, course.baseline.value, now, now + UNCONFIRMED_TIMEOUT, now);
      if claimed.Err? {
        rows.tables := others[2];
        outcome := DeletePrepared(key, Milli(now));
        return;
      }
      if !claimed.value { return Pending, sent, error; }
      sent := Some(rows.tables);
      var failed := client.SendMessage(course.validArguments, course.validReply, course.first, course.second,
        course.startPage, course.pages, course.patience);
      error := failed;
      rows.tables := others[2];
      Record(key, course, failed, others[3]);
      outcome := Pending;
    }
  }

  /**
   What a row that this call has claimed becomes when nobody else touches it: it fails, with its receipt, exactly if
   no request was accepted for certain; it waits for its echo after a success in a bound conversation; and else its
   outcome stays open.
   */
  lemma OutcomeIsRecorded(key: Key, course: Course, error: Option<Http.SendError>, t: Tables)
    requires IsIn(t, key, Submitting)
    ensures var t' := Recorded(key, course, error, t, t);
            && key in t'.sends
            && (IsIn(t', key, NotSubmitted) <==> Http.IsDefinite(error))
            && (IsIn(t', key, AwaitingEcho) <==> error.None? && t.sends[key].conversationID != "")
            && (!IsIn(t', key, NotSubmitted) && !IsIn(t', key, AwaitingEcho) ==> IsIn(t', key, Uncertain))
            && (IsIn(t', key, NotSubmitted) ==> t.sends[key].eventID in t'.receipts)
            && (!IsIn(t', key, NotSubmitted) ==> t'.receipts == t.receipts)
            && forall k <- t.sends.Keys | k != key :: k in t'.sends && t'.sends[k] == t.sends[k]
  {
  }

  // A row of this call that is not submitted was refused for certain: nothing was accepted.
  lemma NotSubmittedWasNotAccepted(
    key: Key, course: Course, canStart: bool, requests: int, accepted: int, error: Option<Http.SendError>, t: Tables,
    afterwards: Tables)
    requires course.IsHonest()
    requires Http.IsSent(canStart, course.validReply, course.first, course.second, course.pages, course.patience,
               requests, accepted, error)
    requires IsIn(Recorded(key, course, error, t, afterwards), key, NotSubmitted)
    requires !IsIn(t, key, NotSubmitted) && !IsIn(afterwards, key, NotSubmitted)
    ensures accepted == 0
  {
    hide Http.SendsAgain;
    assert Http.IsDefinite(error);
    assert requests == 2 ==> course.first.IsRejection() && !course.first.accepted by {
      Http.SecondFollowsRejection(course.first, course.pages, course.patience);
    }
  }

  // The row is submitting, or nothing changed.
  lemma ClaimIsPlain(t: Tables, key: Key, course: Course)
    requires IsGood(t, Milli(course.now)) && course.IsTimely() && course.baseline.Some?
    ensures var e := MarkSubmitting(t, key, course.baseline.value, Milli(course.now), course.Deadline(),
                                    Milli(course.now));
            course.HasBaseline() ==>
              && Succeeds(e, Milli(course.now))
              && e == if IsIn(t, key, Prepared)
                      then Changed(t.(sends := t.sends[key := SubmittingRow(t.sends[key], course)]))
                      else NoRow
  {
    if course.HasBaseline() {
      var now := Milli(course.now);
      SubmitSucceeds(t, key, course.baseline.value, now, course.Deadline(), now);
      StatementIsExact(t, Submit(key, course.baseline.value, now, course.Deadline()), now);
    }
    hide IsGood, MarkSubmitting;
  }

  lemma AwaitIsPlain(t: Tables, key: Key, course: Course)
    requires IsGood(t, Milli(course.now)) && course.IsTimely()
    ensures var e := MarkAwaitingEcho(t, key, course.Deadline(), Milli(course.now));
            && Succeeds(e, Milli(course.now))
            && e == if CanAwaitEcho(t, key)
                    then Changed(t.(sends := t.sends[key := AwaitingRow(t.sends[key], course)]))
                    else NoRow
  {
    hide IsGood, MarkAwaitingEcho, Terminated, Fits;
    var now := Milli(course.now);
    AwaitEchoSucceeds(t, key, course.Deadline(), now);
    StatementIsExact(t, AwaitEcho(key, course.Deadline()), now);
  }

  lemma DoubtIsPlain(t: Tables, key: Key, course: Course)
    requires IsGood(t, Milli(course.now)) && course.IsTimely()
    ensures var e := MarkUncertain(t, key, course.Deadline(), Milli(course.now));
            && Succeeds(e, Milli(course.now)) && Left(e, t) == Doubted(t, key, course)
  {
    hide IsGood, MarkUncertain, Terminated, Fits;
    var now := Milli(course.now);
    DoubtSucceeds(t, key, course.Deadline(), now);
    StatementIsExact(t, Doubt(key, course.Deadline()), now);
  }

  lemma RejectIsPlain(t: Tables, key: Key, course: Course)
    requires IsGood(t, Milli(course.now)) && course.IsTimely()
    ensures var e := NotSubmittedEffect(t, true, key, course.now, course.now + MILLISECOND);
            && Succeeds(e, Milli(course.now)) && Left(e, t) == Refused(t, key, course)
  {
    hide IsGood, MarkSubmittingNotSubmitted, Terminated, Fits;
    var now := Milli(course.now);
    RejectSubmittingSucceeds(t, key, now, now + 1, now);
    StatementIsExact(t, RejectSubmitting(key, now, now + 1), now);
  }
}
