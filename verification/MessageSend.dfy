/**
 One message send of pkg/tumblr/client.go, with its single retry after credentials were refreshed.
 The network is a parameter: the replies to the two requests and the pages that a refresh loads.
 Tumblr counts the requests it accepts.
 */
module MessageSend {
  import opened Wrappers

  // The status of the reply and the one inside its envelope (0 when it has none), whether Tumblr asks
  // for a logout, whether the body can be read, and the anti-forgery token in the header; or no reply.
  datatype Response =
    | Response(httpStatus: int, metaStatus: int, logout: bool, readable: bool, csrfToken: string, accepted: bool)
    | Lost(accepted: bool)
  {
    // The status that the caller sees.
    function Status(): int {
      if Lost? then 0
      else if !(200 <= httpStatus < 300) || metaStatus == 0 || !readable then httpStatus
      else metaStatus
    }

    // The request went through, as far as its statuses and its envelope tell.
    predicate IsSuccess() {
      Response? && readable && 200 <= httpStatus < 300 && (metaStatus == 0 || 200 <= metaStatus < 300)
    }

    predicate IsRejection() {
      Response? && 400 <= Status() < 500
    }

    // Rejected because the session is not valid any more, or because this is forbidden.
    predicate IsCredentialRejection() {
      IsRejection() && (Status() == 401 || logout || Status() == 403)
    }

    // A reply in the 4xx range means that the request was not accepted.
    predicate IsHonest() {
      IsRejection() ==> !accepted
    }
  }

  datatype Page = Page(apiToken: string, csrfToken: string) | NoPage(auth: bool)

  // A reply outside the 2xx range; a failed refresh; or anything else.
  datatype Cause = Api(status: int, logout: bool) | Bootstrap(auth: bool) | Cancelled | Other

  datatype SendError = MessageSendError(cause: Cause, definite: bool, refreshError: Option<Cause>) | PlainError

  const REFRESH_RETRIES := 2

  predicate IsDefiniteMessageRejection(e: Cause) {
    e.Api? && 400 <= e.status < 500
  }

  predicate IsSessionInvalid(e: Cause) {
    match e
    case Api(status, logout) => status == 401 || logout
    case Bootstrap(auth) => auth
    case _ => false
  }

  predicate IsForbidden(e: Cause) {
    e.Api? && e.status == 403 && !IsSessionInvalid(e)
  }

  predicate ShouldRefreshAuth(e: Cause, mutating: bool) {
    IsSessionInvalid(e) || (mutating && IsForbidden(e))
  }

  predicate IsOutcomeUnknown(e: SendError) {
    e.MessageSendError? && !e.definite
  }

  function ReplyError(r: Response): Option<Cause> {
    if r.Lost? then Some(Other)
    else if !(200 <= r.Status() < 300) then Some(Api(r.Status(), r.logout))
    else if !r.readable then Some(Other)
    else None
  }

  // The outcome of one page load.
  function LoadOutcome(page: Page): Option<Cause> {
    match page
    case Page(token, _) => if token != "" then None else Some(Bootstrap(false))
    case NoPage(auth) => Some(Bootstrap(auth))
  }

  // Page loads until one succeeds or fails for another reason than the session; the caller's patience is
  // checked before and after each of them, and in the wait that follows.
  function RefreshOutcome(pages: seq<Page>, patience: nat): Option<Cause> {
    if pages == [] then Some(Other)
    else if patience < 2 then Some(Cancelled)
    else
      var outcome := LoadOutcome(pages[0]);
      if outcome.None? || !IsSessionInvalid(outcome.value) || |pages| == 1 then outcome
      else RefreshOutcome(pages[1..], patience - 2)
  }

  // The refresh that brings the first page with a token: all loads before it found the session invalid, and
  // the caller was still patient after it.
  predicate RefreshesAt(pages: seq<Page>, patience: nat, i: nat) {
    && i < |pages| && 2 * i + 2 <= patience && pages[i].Page? && pages[i].apiToken != ""
    && forall j | 0 <= j < i :: pages[j] == NoPage(true)
  }

  lemma {:induction false} RefreshSucceedsExactly(pages: seq<Page>, patience: nat)
    ensures RefreshOutcome(pages, patience).None? <==> exists i: nat :: RefreshesAt(pages, patience, i)
    decreases |pages|
  {
    if pages != [] && patience >= 2 {
      var rest, left := pages[1..], patience - 2;
      RefreshSucceedsExactly(rest, left);
      if i: nat :| RefreshesAt(rest, left, i) {
        assert pages[0] == NoPage(true) ==> RefreshesAt(pages, patience, i + 1);
      }
      if i: nat :| RefreshesAt(pages, patience, i) {
        assert i > 0 ==> RefreshesAt(rest, left, i - 1);
      }
      assert LoadOutcome(pages[0]).None? <==> RefreshesAt(pages, patience, 0);
    }
  }

  // The refresh ends with this load, or before it because the caller's patience is over.
  predicate RefreshEndsAt(pages: seq<Page>, patience: nat, i: nat, outcome: Option<Cause>) {
    && i < |pages| && 2 * i <= patience && (forall j | 0 <= j < i :: pages[j] == NoPage(true))
    && if patience < 2 * i + 2 then outcome == Some(Cancelled)
       else outcome == LoadOutcome(pages[i]) && (pages[i] != NoPage(true) || i == |pages| - 1)
  }

  /** Only a load that finds the session invalid is followed by another one. */
  lemma {:induction false} RefreshEndsExactly(pages: seq<Page>, patience: nat, outcome: Option<Cause>)
    requires pages != []
    ensures RefreshOutcome(pages, patience) == outcome <==> exists i: nat :: RefreshEndsAt(pages, patience, i, outcome)
    decreases |pages|
  {
    if patience >= 2 && pages[0] == NoPage(true) && |pages| > 1 {
      var rest, left := pages[1..], patience - 2;
      RefreshEndsExactly(rest, left, outcome);
      if i: nat :| RefreshEndsAt(rest, left, i, outcome) {
        assert RefreshEndsAt(pages, patience, i + 1, outcome);
      }
      if i: nat :| RefreshEndsAt(pages, patience, i, outcome) {
        assert RefreshEndsAt(rest, left, i - 1, outcome);
      }
    } else {
      assert RefreshEndsAt(pages, patience, 0, RefreshOutcome(pages, patience));
    }
  }

  // The credentials that are there, or that the page brings, suffice for a first request.
  predicate CanStart(apiToken: string, csrfToken: string, startPage: Page) {
    || (apiToken != "" && csrfToken != "")
    || (startPage.Page? && startPage.apiToken != "" && startPage.csrfToken != "")
  }

  // A second request follows only a rejection for credentials and a refresh that brought all of them.
  ghost predicate SendsAgain(first: Response, pages: seq<Page>, patience: nat) {
    first.IsCredentialRejection() && exists i: nat :: RefreshesAt(pages, patience, i) && pages[i].csrfToken != ""
  }

  lemma SecondFollowsRejection(first: Response, pages: seq<Page>, patience: nat)
    ensures SendsAgain(first, pages, patience) ==> first.IsRejection()
  {
  }

  // What becomes of a send: how many requests go out, how many of them are accepted, and what the caller is told.
  ghost predicate IsSent(canStart: bool, validReply: bool, first: Response, second: Response, pages: seq<Page>,
    patience: nat, requests: int, accepted: int, error: Option<SendError>)
  {
    && requests == (if !canStart then 0 else if SendsAgain(first, pages, patience) then 2 else 1)
    && accepted == (if requests >= 1 && first.accepted then 1 else 0) + (if requests == 2 && second.accepted then 1
      else 0)
    && if requests == 0 then IsDefinite(error)
       else
         var last := if requests == 1 then first else second;
         && (error.None? <==> last.IsSuccess() && validReply)
         && (IsDefinite(error) <==> last.IsRejection())
  }

  predicate IsDefinite(error: Option<SendError>) {
    error.Some? && !IsOutcomeUnknown(error.value)
  }

  class Client {
    var apiToken: string
    var csrfToken: string
    var authGeneration: nat

    // Tumblr's side.
    var requests: nat
    var accepted: nat

    predicate NeedsBootstrap(mutating: bool)
      reads this
    {
      apiToken == "" || (mutating && csrfToken == "")
    }

    method Bootstrap(page: Page) returns (error: Option<Cause>)
      modifies this`apiToken, this`csrfToken, this`authGeneration
      ensures error == LoadOutcome(page)
      ensures error.None? ==> page.Page? && (apiToken, csrfToken) == (page.apiToken, page.csrfToken)
      ensures error.None? ==> authGeneration == old(authGeneration) + 1 && apiToken != ""
      ensures error.Some? ==>
        authGeneration == old(authGeneration) && apiToken == old(apiToken) && csrfToken == old(csrfToken)
    {
      match page {
        case NoPage(auth) => return Some(Cause.Bootstrap(auth));
        case Page(token, csrf) =>
          if token == "" { return Some(Cause.Bootstrap(false)); }
          apiToken, csrfToken, authGeneration := token, csrf, authGeneration + 1;
          return None;
      }
    }

    // Someone else may have refreshed the credentials in the meantime. Success means fresh credentials; a
    // caller that lost its patience can leave them behind as well.
    method RefreshAuthAfterFailure(failedGeneration: nat, pages: seq<Page>, patience: nat)
      returns (error: Option<Cause>)
      requires |pages| == REFRESH_RETRIES + 1
      modifies this`apiToken, this`csrfToken, this`authGeneration
      ensures old(authGeneration) != failedGeneration ==>
        error == None && (apiToken, csrfToken, authGeneration) == old((apiToken, csrfToken, authGeneration))
      ensures old(authGeneration) == failedGeneration ==> error == RefreshOutcome(pages, patience)
      ensures old(authGeneration) <= authGeneration <= old(authGeneration) + 1
      ensures error.None? ==> authGeneration != failedGeneration
      ensures old(authGeneration) == failedGeneration ==>
        (error.None? <==> exists i: nat :: RefreshesAt(pages, patience, i))
      ensures old(authGeneration) == failedGeneration ==>
        forall i: nat | RefreshesAt(pages, patience, i) ::
          (apiToken, csrfToken) == (pages[i].apiToken, pages[i].csrfToken)
      ensures error.Some? && error != Some(Cancelled) ==> authGeneration == old(authGeneration)
    {
      if authGeneration != failedGeneration { return None; }
      RefreshSucceedsExactly(pages, patience);
      var attempt := 0;
      while true
        invariant 0 <= attempt <= REFRESH_RETRIES
        invariant attempt > 0 ==> 2 * attempt <= patience
        invariant authGeneration == failedGeneration == old(authGeneration)
        invariant forall j | 0 <= j < attempt :: pages[j] == NoPage(true)
        invariant RefreshOutcome(pages, patience) == RefreshOutcome(pages[attempt..], patience - 2 * attempt)
        decreases REFRESH_RETRIES - attempt
      {
        if patience <= 2 * attempt { return Some(Cancelled); }
        error := Bootstrap(pages[attempt]);
        assert pages[attempt..][1..] == pages[attempt + 1..];
        if patience <= 2 * attempt + 1 { return Some(Cancelled); }
        if error.None? || !IsSessionInvalid(error.value) || attempt >= REFRESH_RETRIES { return; }
        attempt := attempt + 1;
      }
    }

    // One request, never repeated by the transport and never redirected.
    method DoOnce(response: Response) returns (error: Option<Cause>)
      modifies this`csrfToken, this`requests, this`accepted
      ensures error == ReplyError(response)
      ensures error.None? <==> response.IsSuccess()
      ensures csrfToken == if response.Response? && response.csrfToken != "" then response.csrfToken else old(csrfToken)
      ensures requests == old(requests) + 1 && accepted == old(accepted) + (if response.accepted then 1 else 0)
    {
      requests := requests + 1;
      if response.accepted { accepted := accepted + 1; }
      if response.Lost? { return Some(Other); }
      if response.csrfToken != "" { csrfToken := response.csrfToken; }
      if !(200 <= response.httpStatus < 300) { return Some(Api(response.httpStatus, response.logout)); }
      if !response.readable { return Some(Other); }
      if response.metaStatus != 0
        && !(200 <= response.metaStatus < 300) { return Some(Api(response.metaStatus, response.logout)); }
      return None;
    }

    /**
     At least one request goes out when there are credentials for it, and a second one exactly when the first
     was rejected for its credentials and a refresh brought new ones. Tumblr accepts at most one of them. The
     result is the one of the last request; an error is definite exactly if no request was sent or the last one
     was rejected with a 4xx status, and then none was accepted.
     */
    method DoMessageSend(first: Response, second: Response, startPage: Page, pages: seq<Page>, patience: nat)
      returns (error: Option<SendError>)
      requires first.IsHonest() && second.IsHonest() && |pages| == REFRESH_RETRIES + 1
      modifies this
      ensures requests - old(requests) ==
        if !CanStart(old(apiToken), old(csrfToken), startPage) then 0
        else if SendsAgain(first, pages, patience) then 2
        else 1
      ensures accepted - old(accepted) ==
        (if requests >= old(requests) + 1 && first.accepted then 1 else 0)
        + (if requests == old(requests) + 2 && second.accepted then 1 else 0)
      ensures accepted <= old(accepted) + 1
      ensures error.Some? ==> error.value.MessageSendError?
      ensures requests == old(requests) ==>
        && error.Some? && error.value.definite && error.value.refreshError == None
        && error.value.cause == if startPage.NoPage? then Cause.Bootstrap(startPage.auth)
                                else if startPage.apiToken == "" then Cause.Bootstrap(false)
                                else Other
      ensures requests > old(requests) ==>
        var last := if requests == old(requests) + 1 then first else second;
        && (error.None? <==> last.IsSuccess())
        && (error.Some? ==>
          Some(error.value.cause) == ReplyError(last) && (error.value.definite <==> last.IsRejection()))
      ensures error.Some? ==>
        error.value.refreshError ==
        if requests != old(requests) + 1 || !first.IsCredentialRejection() then None
        else if RefreshOutcome(pages, patience).Some? then RefreshOutcome(pages, patience)
        else Some(Other)
      ensures error.Some? && error.value.definite ==> accepted == old(accepted)
    {
      if NeedsBootstrap(true) {
        var failed := Bootstrap(startPage);
        if failed.Some? { return Some(MessageSendError(failed.value, true, None)); }
      }
      if csrfToken == "" { return Some(MessageSendError(Other, true, None)); }
      var requestGeneration := authGeneration;
      var rejection := DoOnce(first);
      if rejection.None? { return None; }
      var definite := IsDefiniteMessageRejection(rejection.value);
      RejectionIsReply(first, rejection.value);
      if !definite || !ShouldRefreshAuth(rejection.value, true) {
        return Some(MessageSendError(rejection.value, definite, None));
      }
      var refreshError := RefreshAuthAfterFailure(requestGeneration, pages, patience);
      if refreshError.Some? { return Some(MessageSendError(rejection.value, true, refreshError)); }
      if csrfToken == "" { return Some(MessageSendError(rejection.value, true, Some(Other))); }
      rejection := DoOnce(second);
      if rejection.None? { return None; }
      RejectionIsReply(second, rejection.value);
      return Some(MessageSendError(rejection.value, IsDefiniteMessageRejection(rejection.value), None));
    }

    /**
     A send whose error does not count as unknown was not accepted: bad arguments and rejections are
     certain, while a reply that does not prove which message was accepted is not.
     */
    method SendMessage(
      validArguments: bool, validReply: bool, first: Response, second: Response, startPage: Page, pages: seq<Page>,
      patience: nat)
      returns (error: Option<SendError>)
      requires first.IsHonest() && second.IsHonest() && |pages| == REFRESH_RETRIES + 1
      modifies this
      ensures IsSent(
        validArguments && CanStart(old(apiToken), old(csrfToken), startPage), validReply, first, second, pages,
          patience,
        requests - old(requests), accepted - old(accepted), error)
      ensures !validArguments <==> error == Some(PlainError)
      ensures accepted <= old(accepted) + 1
      ensures error.Some? && !IsOutcomeUnknown(error.value) ==> accepted == old(accepted)
    {
      if !validArguments { return Some(PlainError); }
      error := DoMessageSend(first, second, startPage, pages, patience);
      if error.None? && !validReply {
        error := Some(MessageSendError(Other, false, None));
      }
    }
  }

  // What the caller sees of a reply that is no success.
  lemma RejectionIsReply(r: Response, cause: Cause)
    requires ReplyError(r) == Some(cause)
    ensures !r.IsSuccess()
    ensures IsDefiniteMessageRejection(cause) <==> r.IsRejection()
    ensures IsDefiniteMessageRejection(cause) && ShouldRefreshAuth(cause, true) <==> r.IsCredentialRejection()
  {
  }
}
