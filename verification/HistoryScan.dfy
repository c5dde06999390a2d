/**
 The scan of a conversation's history back to the saved head: pkg/connector/sync.go
 (fetchConversationForSync, aggregateConversationMessagePages and the page tests). Instants are
 nanoseconds; the server is a parameter that may answer each request differently.
 */
module HistoryScan {
  import opened Wrappers
  import opened RemoteIDs

  type Instant = int

  const SECOND := 1_000_000_000
  const MILLISECOND := 1_000_000
  const BOUNDARY_TIME_SLACK := 3600 * SECOND
  const MAX_MESSAGE_PAGES := 1000
  const MAX_FUTURE_SKEW := 24 * 3600 * SECOND

  datatype Message = Message(id: string, timestamp: int)

  // The answer to one request: a page with the cursor of the next one (blank at the end of the
  // history, absent when its link names none), or why there is no page.
  datatype Reply = Page(messages: seq<Message>, next: Option<string>) | NoPage(cause: Cause)

  datatype Cause = NotFound | Failed | Invalid

  datatype Error = Unavailable(cause: Cause) | PageDisappeared | BadCursor | CursorRepeated | TooManyPages

  datatype Fetched = Fetched(messages: seq<Message>, headID: string)

  datatype Boundary = Boundary(catchUp: bool, headID: string, savedAt: Instant)

  // Numbers beyond a million millions are milliseconds, the others are seconds.
  function TimeOf(timestamp: int): Instant {
    if timestamp > 1_000_000_000_000 then timestamp * MILLISECOND else timestamp * SECOND
  }

  // ---- Collecting pages ----

  predicate HasID(messages: seq<Message>, id: string) {
    exists i :: 0 <= i < |messages| && messages[i].id == id
  }

  function WithMessage(messages: seq<Message>, m: Message): seq<Message> {
    if IsValidRemoteID(m.id) && HasID(messages, m.id) then messages else messages + [m]
  }

  function WithPage(messages: seq<Message>, page: seq<Message>): seq<Message> {
    if page == [] then messages else WithMessage(WithPage(messages, page[..|page| - 1]), page[|page| - 1])
  }

  // Pages come newest first and are collected oldest first.
  function Collected(pages: seq<seq<Message>>): seq<Message> {
    if pages == [] then [] else WithPage(Collected(pages[1..]), pages[0])
  }

  // Each valid ID occurs once.
  predicate HasUniqueIDs(messages: seq<Message>) {
    forall i, j | 0 <= i < j < |messages| && IsValidRemoteID(messages[i].id) :: messages[i].id != messages[j].id
  }

  method AggregatePages(pages: seq<seq<Message>>) returns (messages: seq<Message>)
    ensures messages == Collected(pages)
  {
    messages := [];
    var seenIDs: set<string> := {};
    var p := |pages|;
    while p > 0
      invariant 0 <= p <= |pages|
      invariant messages == Collected(pages[p..])
      invariant forall id | IsValidRemoteID(id) :: id in seenIDs <==> HasID(messages, id)
    {
      p := p - 1;
      var page := pages[p];
      ghost var before := messages;
      for i := 0 to |page|
        invariant messages == WithPage(before, page[..i])
        invariant forall id | IsValidRemoteID(id) :: id in seenIDs <==> HasID(messages, id)
      {
        var m := page[i];
        assert page[..i + 1][..i] == page[..i];
        if IsValidRemoteID(m.id) {
          if m.id in seenIDs { continue; }
          seenIDs := seenIDs + {m.id};
        }
        HasIDAfter(messages, m);
        messages := messages + [m];
      }
      assert page[..|page|] == page;
      assert pages[p..][1..] == pages[p + 1..];
    }
  }

  lemma HasIDAfter(messages: seq<Message>, m: Message)
    ensures forall id :: HasID(messages + [m], id) <==> HasID(messages, id) || id == m.id
  {
    forall id | HasID(messages, id) ensures HasID(messages + [m], id) {
      var i :| 0 <= i < |messages| && messages[i].id == id;
      assert (messages + [m])[i].id == id;
    }
    assert (messages + [m])[|messages|] == m;
  }

  // A message of a page is collected: itself if its ID cannot be told apart, else one with its ID.
  predicate IsCollected(messages: seq<Message>, m: Message) {
    if IsValidRemoteID(m.id) then HasID(messages, m.id) else m in messages
  }

  lemma {:induction false} PageIsCollected(messages: seq<Message>, page: seq<Message>)
    requires HasUniqueIDs(messages)
    ensures HasUniqueIDs(WithPage(messages, page))
    ensures forall m | IsCollected(messages, m) || m in page :: IsCollected(WithPage(messages, page), m)
    ensures forall m <- WithPage(messages, page) :: m in messages || m in page
  {
    if page != [] {
      var init, m := page[..|page| - 1], page[|page| - 1];
      PageIsCollected(messages, init);
      var before := WithPage(messages, init);
      HasIDAfter(before, m);
      forall x | IsCollected(messages, x) || x in page ensures IsCollected(WithPage(messages, page), x) {
        assert x == m || IsCollected(before, x);
      }
    }
  }

  lemma {:induction false} PagesAreCollected(pages: seq<seq<Message>>)
    ensures HasUniqueIDs(Collected(pages))
    ensures forall p, m | 0 <= p < |pages| && m in pages[p] :: IsCollected(Collected(pages), m)
    ensures forall m <- Collected(pages) :: exists p :: 0 <= p < |pages| && m in pages[p]
  {
    if pages != [] {
      var rest := Collected(pages[1..]);
      PagesAreCollected(pages[1..]);
      PageIsCollected(rest, pages[0]);
      assert forall p | 0 < p < |pages| :: pages[p] == pages[1..][p - 1];
      forall m | m in Collected(pages) ensures exists p :: 0 <= p < |pages| && m in pages[p] {
        if m !in pages[0] {
          var p :| 0 <= p < |pages[1..]| && m in pages[1..][p];
          assert m in pages[p + 1];
        }
      }
    }
  }

  // All messages of the pages, oldest page first.
  function InOrder(pages: seq<seq<Message>>): seq<Message> {
    if pages == [] then [] else InOrder(pages[1..]) + pages[0]
  }

  predicate IsFirst(all: seq<Message>, k: nat) {
    k < |all| && (IsValidRemoteID(all[k].id) ==> !HasID(all[..k], all[k].id))
  }

  // The messages stand at these places, in order.
  predicate StandAt(all: seq<Message>, messages: seq<Message>, places: seq<nat>) {
    && |places| == |messages| && (forall i, j | 0 <= i < j < |places| :: places[i] < places[j])
    && forall i | 0 <= i < |places| :: places[i] < |all| && all[places[i]] == messages[i]
  }

  // The messages at these places, which are those where an ID occurs first or cannot be told apart.
  ghost predicate AreFirsts(all: seq<Message>, messages: seq<Message>, places: seq<nat>) {
    StandAt(all, messages, places) && forall k: nat :: k in places <==> IsFirst(all, k)
  }

  lemma WithPageKnows(all: seq<Message>, id: string)
    requires IsValidRemoteID(id)
    ensures HasID(WithPage([], all), id) <==> HasID(all, id)
  {
    PageIsCollected([], all);
    if i :| 0 <= i < |all| && all[i].id == id {
      assert all[i] in all && IsCollected(WithPage([], all), all[i]);
    }
    if i :| 0 <= i < |WithPage([], all)| && WithPage([], all)[i].id == id {
      assert WithPage([], all)[i] in all;
    }
  }

  lemma FirstOfLonger(init: seq<Message>, m: Message, k: nat)
    ensures IsFirst(init + [m], k) <==>
      if k < |init| then IsFirst(init, k)
      else k == |init| && (IsValidRemoteID(m.id) ==> !HasID(init, m.id))
  {
    if k < |init| {
      assert (init + [m])[..k] == init[..k];
    } else if k == |init| {
      assert (init + [m])[..k] == init;
    }
  }

  lemma {:induction false} FirstsAreKept(all: seq<Message>) returns (places: seq<nat>)
    ensures AreFirsts(all, WithPage([], all), places)
  {
    places := [];
    if all != [] {
      var init, m := all[..|all| - 1], all[|all| - 1];
      assert all == init + [m];
      var kept := FirstsAreKept(init);
      hide AreFirsts;
      if IsValidRemoteID(m.id) {
        WithPageKnows(init, m.id);
      }
      FirstOfLonger(init, m, |init|);
      places := if IsFirst(all, |init|) then kept + [|init|] else kept;
      FirstsGrow(init, m, kept, places);
    }
  }

  lemma FirstsGrow(init: seq<Message>, m: Message, kept: seq<nat>, places: seq<nat>)
    requires AreFirsts(init, WithPage([], init), kept)
    requires places == if IsFirst(init + [m], |init|) then kept + [|init|] else kept
    requires IsFirst(init + [m], |init|) ==> WithPage([], init + [m]) == WithPage([], init) + [m]
    requires !IsFirst(init + [m], |init|) ==> WithPage([], init + [m]) == WithPage([], init)
    ensures AreFirsts(init + [m], WithPage([], init + [m]), places)
  {
    hide HasID, IsFirst, WithPage, StandAt;
    FirstsOfLonger(init, m, kept, places);
    if IsFirst(init + [m], |init|) {
      PlacesGrow(init, WithPage([], init), kept, m);
    } else {
      PlacesStay(init, WithPage([], init), kept, m);
    }
  }

  lemma PlacesStay(all: seq<Message>, messages: seq<Message>, places: seq<nat>, m: Message)
    requires StandAt(all, messages, places)
    ensures StandAt(all + [m], messages, places)
  {
  }

  lemma PlacesGrow(all: seq<Message>, messages: seq<Message>, places: seq<nat>, m: Message)
    requires StandAt(all, messages, places)
    ensures StandAt(all + [m], messages + [m], places + [|all|])
  {
  }

  lemma FirstsOfLonger(init: seq<Message>, m: Message, kept: seq<nat>, places: seq<nat>)
    requires forall k: nat :: k in kept <==> IsFirst(init, k)
    requires places == if IsFirst(init + [m], |init|) then kept + [|init|] else kept
    ensures forall k: nat :: k in places <==> IsFirst(init + [m], k)
  {
    forall k: nat ensures k in places <==> IsFirst(init + [m], k) {
      FirstOfLonger(init, m, k);
      assert k in kept <==> IsFirst(init, k);
    }
  }

  lemma {:induction false} WithPages(messages: seq<Message>, a: seq<Message>, b: seq<Message>)
    ensures WithPage(WithPage(messages, a), b) == WithPage(messages, a + b)
  {
    if b == [] {
      assert a + b == a;
    } else {
      var init, last := b[..|b| - 1], b[|b| - 1];
      WithPages(messages, a, init);
      assert (a + b)[..|a + b| - 1] == a + init;
    }
  }

  /** The collected messages keep the order of the history; of each valid ID the oldest occurrence is taken. */
  lemma {:induction false} CollectedInOrder(pages: seq<seq<Message>>)
    ensures Collected(pages) == WithPage([], InOrder(pages))
    ensures exists places :: AreFirsts(InOrder(pages), Collected(pages), places)
  {
    if pages != [] {
      CollectedInOrder(pages[1..]);
      WithPages([], InOrder(pages[1..]), pages[0]);
    }
    hide AreFirsts;
    var places := FirstsAreKept(InOrder(pages));
  }

  // ---- The page tests ----

  predicate ReachesTime(page: seq<Message>, cutoff: Instant) {
    cutoff / MILLISECOND > 0 && exists m <- page :: m.timestamp > 0 && TimeOf(m.timestamp) <= cutoff
  }

  predicate ContainsHead(page: seq<Message>, headID: string) {
    headID != "" && HasID(page, headID)
  }

  // Why a scan stops with success after a page.
  predicate Stops(page: seq<Message>, next: Option<string>, b: Boundary) {
    || !b.catchUp
    || ContainsHead(page, b.headID)
    || (b.headID != "" && ReachesTime(page, b.savedAt - BOUNDARY_TIME_SLACK))
    || (next.Some? && Trim(next.value) == "")
  }

  // Times that are missing or too far in the future sort first.
  function SortTime(m: Message, now: Instant): Option<Instant> {
    if m.timestamp <= 0 || TimeOf(m.timestamp) > now + MAX_FUTURE_SKEW then None else Some(TimeOf(m.timestamp))
  }

  predicate SortsBefore(a: Message, b: Message, now: Instant) {
    var x, y := SortTime(a, now), SortTime(b, now);
    y.Some? && (x.None? || x.value < y.value)
  }

  // The newest message with a valid ID, which is the last one of those that sort as newest.
  predicate IsPageHead(page: seq<Message>, now: Instant, headID: string) {
    if forall m <- page :: !IsValidRemoteID(m.id) then headID == ""
    else exists i | 0 <= i < |page| ::
      && page[i].id == headID && IsValidRemoteID(headID)
      && forall j | 0 <= j < |page| && IsValidRemoteID(page[j].id) ::
           !SortsBefore(page[i], page[j], now) && (j > i ==> SortsBefore(page[j], page[i], now))
  }

  method PageHead(page: seq<Message>, now: Instant) returns (headID: string)
    ensures IsPageHead(page, now, headID)
  {
    var best: Option<nat> := None;
    for i := 0 to |page|
      invariant best.None? ==> forall j | 0 <= j < i :: !IsValidRemoteID(page[j].id)
      invariant best.Some? ==> best.value < i && IsValidRemoteID(page[best.value].id)
      invariant best.Some? ==> forall j | 0 <= j < i && IsValidRemoteID(page[j].id) ::
        !SortsBefore(page[best.value], page[j], now) && (j > best.value ==> SortsBefore(page[j], page[best.value], now))
    {
      if IsValidRemoteID(page[i].id) && (best.None? || !SortsBefore(page[i], page[best.value], now)) {
        best := Some(i);
      }
    }
    headID := if best.Some? then page[best.value].id else "";
  }

  // ---- The scan ----

  type Server = (nat, string) -> Reply

  // The cursor of the n-th request, if all earlier ones brought a page with a next one.
  function CursorAt(server: Server, n: nat): Option<string> {
    if n == 0 then Some("")
    else
      var before := CursorAt(server, n - 1);
      if before.None? then None
      else match server(n - 1, before.value)
        case Page(_, Some(next)) => if Trim(next) == "" then None else Some(Trim(next))
        case _ => None
  }

  predicate HasPage(server: Server, n: nat) {
    var cursor := CursorAt(server, n);
    cursor.Some? && server(n, cursor.value).Page?
  }

  function PageAt(server: Server, n: nat): Reply
    requires HasPage(server, n)
  {
    server(n, CursorAt(server, n).value)
  }

  predicate StopsAt(server: Server, n: nat, b: Boundary)
    requires HasPage(server, n)
  {
    Stops(PageAt(server, n).messages, PageAt(server, n).next, b)
  }

  predicate PagesAre(server: Server, pages: seq<seq<Message>>) {
    forall p | 0 <= p < |pages| :: HasPage(server, p) && PageAt(server, p).messages == pages[p]
  }

  predicate ReadsOn(server: Server, n: nat, b: Boundary) {
    forall p | 0 <= p < n :: HasPage(server, p) && !StopsAt(server, p, b)
  }

  // What one more page of the scan means.
  lemma ReadPage(server: Server, pages: seq<seq<Message>>, before: string, b: Boundary)
    requires PagesAre(server, pages) && CursorAt(server, |pages|) == Some(before) && server(|pages|, before).Page?
    ensures var page := server(|pages|, before);
            && HasPage(server, |pages|) && PageAt(server, |pages|) == page && PagesAre(server, pages + [page.messages])
            && (StopsAt(server, |pages|, b) <==> Stops(page.messages, page.next, b))
            && (page.next.Some? && Trim(page.next.value) != "" ==>
              CursorAt(server, |pages| + 1) == Some(Trim(page.next.value)))
            && (ReadsOn(server, |pages|, b) && !StopsAt(server, |pages|, b) ==> ReadsOn(server, |pages| + 1, b))
  {
    hide CursorAt, Stops, StopsAt, PageAt, HasPage, PagesAre, ReadsOn;
    NextCursor(server, |pages|, before);
    ThisPage(server, |pages|, before, b);
    PagesGrow(server, pages);
    ReadsGrow(server, |pages|, b);
  }

  lemma PagesGrow(server: Server, pages: seq<seq<Message>>)
    requires PagesAre(server, pages) && HasPage(server, |pages|)
    ensures PagesAre(server, pages + [PageAt(server, |pages|).messages])
  {
    hide PageAt, HasPage;
  }

  lemma ReadsGrow(server: Server, n: nat, b: Boundary)
    requires HasPage(server, n)
    ensures ReadsOn(server, n, b) && !StopsAt(server, n, b) ==> ReadsOn(server, n + 1, b)
  {
    hide StopsAt, HasPage;
  }

  lemma ThisPage(server: Server, n: nat, before: string, b: Boundary)
    requires CursorAt(server, n) == Some(before) && server(n, before).Page?
    ensures HasPage(server, n) && PageAt(server, n) == server(n, before)
    ensures StopsAt(server, n, b) <==> Stops(server(n, before).messages, server(n, before).next, b)
  {
    hide CursorAt, Stops;
  }

  lemma NextCursor(server: Server, n: nat, before: string)
    requires CursorAt(server, n) == Some(before) && server(n, before).Page?
    ensures var next := server(n, before).next;
      next.Some? && Trim(next.value) != "" ==> CursorAt(server, n + 1) == Some(Trim(next.value))
  {
  }

  /** The next request carries the cursor as it came, but for spaces around it. */
  lemma CursorIsSent(server: Server, n: nat, cursor: string)
    requires HasPage(server, n) && PageAt(server, n).next.Some?
    ensures CursorAt(server, n + 1) == Some(cursor) <==> cursor != "" && IsTrimmed(PageAt(server, n).next.value, cursor)
    ensures PageAt(server, n).next == Some(cursor) && cursor != "" && !HasOuterSpace(cursor) ==>
      CursorAt(server, n + 1) == Some(cursor)
  {
    TrimmedExactly(PageAt(server, n).next.value, cursor);
    assert cursor == "" + cursor + "" && IsBlank("");
  }

  predicate CursorRepeats(server: Server, n: nat) {
    exists i | 0 < i < n :: CursorAt(server, i).Some? && CursorAt(server, i) == CursorAt(server, n)
  }

  // The n-th request brings no page.
  predicate LacksPage(server: Server, n: nat, cause: Cause) {
    CursorAt(server, n).Some? && server(n, CursorAt(server, n).value) == NoPage(cause)
  }

  predicate HasNoCursor(server: Server, n: nat) {
    HasPage(server, n) && PageAt(server, n).next == None
  }

  // The scan ends at the first page that stops it, or where it cannot go on, with the error that says why.
  ghost predicate IsOutcome(server: Server, b: Boundary, now: Instant, pages: seq<seq<Message>>,
    r: Result<Fetched, Error>) {
    var n := |pages|;
    && n <= MAX_MESSAGE_PAGES && PagesAre(server, pages)
    && (forall k | 0 < k < n :: !CursorRepeats(server, k))
    && match r
       case Ok(fetched) =>
         && n > 0 && ReadsOn(server, n - 1, b) && StopsAt(server, n - 1, b)
         && fetched.messages == Collected(pages) && IsPageHead(pages[0], now, fetched.headID)
       case Err(e) =>
         && ReadsOn(server, n, b)
         && match e
            case Unavailable(cause) => n < MAX_MESSAGE_PAGES && LacksPage(server, n, cause)
              && !CursorRepeats(server, n) && (n > 0 ==> cause != NotFound)
            case PageDisappeared => 0 < n < MAX_MESSAGE_PAGES && LacksPage(server, n, NotFound)
              && !CursorRepeats(server, n)
            case BadCursor => n > 0 && HasNoCursor(server, n - 1)
            case CursorRepeated => n > 0 && CursorRepeats(server, n)
            case TooManyPages => n == MAX_MESSAGE_PAGES && CursorAt(server, n).Some? && !CursorRepeats(server, n)
  }

  method FetchConversation(server: Server, b: Boundary, now: Instant)
    returns (r: Result<Fetched, Error>, ghost pages: seq<seq<Message>>)
    ensures IsOutcome(server, b, now, pages, r)
    ensures r == Err(Unavailable(NotFound)) <==> server(0, "") == NoPage(NotFound)
  {
    hide IsPageHead, Collected, ContainsHead, ReachesTime, CursorRepeats, CursorAt, HasPage, PageAt, StopsAt, PagesAre,
      ReadsOn, LacksPage, HasNoCursor, KnowsCursor;
    assert PagesAre(server, []) && ReadsOn(server, 0, b) && CursorAt(server, 0) == Some("") by {
      ScanStarts(server, b);
    }
    NoCursorYet(server);
    pages := [];
    var before := "";
    var headID := "";
    var messagePages: seq<seq<Message>> := [];
    var seenCursors: map<string, nat> := map[];
    for page := 0 to MAX_MESSAGE_PAGES
      invariant |pages| == page && messagePages == pages && PagesAre(server, pages)
      invariant CursorAt(server, page) == Some(before)
      invariant ReadsOn(server, page, b)
      invariant page == 0 ==> before == ""
      invariant forall k | 0 < k <= page :: !CursorRepeats(server, k)
      invariant page == 0 ==> !CursorRepeats(server, 0)
      invariant forall k | 0 < k <= page :: KnowsCursor(server, seenCursors, k)
      invariant page > 0 ==> server(0, "").Page? && IsPageHead(pages[0], now, headID)
      invariant forall c <- seenCursors :: 0 < seenCursors[c] <= page && CursorAt(server, seenCursors[c]) == Some(c)
    {
      var reply := server(page, before);
      match reply {
        case NoPage(cause) =>
          assert LacksPage(server, page, cause) by {
            ThisIsNoPage(server, page, before);
          }
          return Err(if page > 0 && cause == NotFound then PageDisappeared else Unavailable(cause)), pages;
        case Page(messages, next) =>
          if page == 0 {
            headID := PageHead(messages, now);
          }
          ReadPage(server, pages, before, b);
          messagePages := messagePages + [messages];
          pages := pages + [messages];
          if !b.catchUp || ContainsHead(messages, b.headID)
            || (b.headID != "" && ReachesTime(messages, b.savedAt - BOUNDARY_TIME_SLACK)) {
            var collected := AggregatePages(messagePages);
            return Ok(Fetched(collected, headID)), pages;
          }
          if next.None? {
            assert HasNoCursor(server, page) by {
              ThisHasNoCursor(server, page);
            }
            return Err(BadCursor), pages;
          }
          var cursor := Trim(next.value);
          if cursor == "" {
            var collected := AggregatePages(messagePages);
            return Ok(Fetched(collected, headID)), pages;
          }
          if cursor in seenCursors {
            RepeatedCursor(server, seenCursors[cursor], page + 1);
            return Err(CursorRepeated), pages;
          }
          CursorIsNew(server, seenCursors, seenCursors[cursor := page + 1], page + 1, cursor);
          seenCursors := seenCursors[cursor := page + 1];
          before := cursor;
      }
    }
    return Err(TooManyPages), pages;
  }

  lemma ThisIsNoPage(server: Server, n: nat, before: string)
    requires CursorAt(server, n) == Some(before) && server(n, before).NoPage?
    ensures LacksPage(server, n, server(n, before).cause)
  {
  }

  lemma ThisHasNoCursor(server: Server, n: nat)
    requires HasPage(server, n) && PageAt(server, n).next == None
    ensures HasNoCursor(server, n)
  {
  }

  predicate KnowsCursor(server: Server, seenCursors: map<string, nat>, k: nat) {
    CursorAt(server, k).Some? && CursorAt(server, k).value in seenCursors
  }

  lemma CursorIsNew(server: Server, seenCursors: map<string, nat>, known: map<string, nat>, n: nat, cursor: string)
    requires CursorAt(server, n) == Some(cursor) && cursor !in seenCursors && known == seenCursors[cursor := n]
    requires forall k | 0 < k < n :: KnowsCursor(server, seenCursors, k)
    ensures !CursorRepeats(server, n)
    ensures forall k | 0 < k <= n :: KnowsCursor(server, known, k)
  {
    hide CursorAt;
    forall k | 0 < k < n ensures CursorAt(server, k) != CursorAt(server, n) {
      assert KnowsCursor(server, seenCursors, k);
    }
    forall k | 0 < k <= n ensures KnowsCursor(server, known, k) {
      assert k < n ==> KnowsCursor(server, seenCursors, k);
    }
  }

  lemma NoCursorYet(server: Server)
    ensures !CursorRepeats(server, 0)
  {
  }

  /** The outcome of a scan is determined by the server's replies: each error has its own cause. */
  lemma OneOutcome(
    server: Server, b: Boundary, now: Instant,
    pages: seq<seq<Message>>, r: Result<Fetched, Error>, pages': seq<seq<Message>>, r': Result<Fetched, Error>)
    requires IsOutcome(server, b, now, pages, r) && IsOutcome(server, b, now, pages', r')
    ensures pages == pages' && r == r'
  {
    if |pages| < |pages'| {
      ShorterIsNoOutcome(server, b, now, pages, r, pages', r');
    } else if |pages'| < |pages| {
      ShorterIsNoOutcome(server, b, now, pages', r', pages, r);
    } else {
      SamePages(server, pages, pages');
      SameLengthOutcome(server, b, now, pages, r, r');
    }
  }

  /**
   A scan asks for no page beyond the first one with the saved head or with a message from before its time, and
   for one page only when it is no catch-up.
   */
  lemma HeadEndsScan(
    server: Server, b: Boundary, now: Instant, pages: seq<seq<Message>>, r: Result<Fetched, Error>, k: nat, m: Message)
    requires IsOutcome(server, b, now, pages, r) && k < |pages|
    requires !b.catchUp
      || (b.headID != "" && m in pages[k]
          && (m.id == b.headID
              || (m.timestamp > 0 && b.savedAt - BOUNDARY_TIME_SLACK >= MILLISECOND
                  && TimeOf(m.timestamp) <= b.savedAt - BOUNDARY_TIME_SLACK)))
    ensures r.Ok? && |pages| == k + 1
  {
    OutcomeReads(server, b, now, pages, r);
    SuccessStops(server, b, now, pages, r);
    PageStops(server, b, pages, k, m);
    hide StopsAt, HasPage, PagesAre, Collected, IsPageHead, CursorRepeats, LacksPage, HasNoCursor;
  }

  lemma PageStops(server: Server, b: Boundary, pages: seq<seq<Message>>, k: nat, m: Message)
    requires PagesAre(server, pages) && k < |pages|
    ensures HasPage(server, k)
    ensures !b.catchUp
            || (b.headID != "" && m in pages[k]
                && (m.id == b.headID
                    || (m.timestamp > 0 && b.savedAt - BOUNDARY_TIME_SLACK >= MILLISECOND
                        && TimeOf(m.timestamp) <= b.savedAt - BOUNDARY_TIME_SLACK)))
      ==> StopsAt(server, k, b)
  {
    hide CursorAt;
  }

  lemma SamePages(server: Server, pages: seq<seq<Message>>, pages': seq<seq<Message>>)
    requires |pages| == |pages'| && PagesAre(server, pages) && PagesAre(server, pages')
    ensures pages == pages'
  {
    hide CursorAt;
    assert forall p | 0 <= p < |pages| :: HasPage(server, p) && PageAt(server, p).messages == pages[p];
  }

  lemma SameLengthOutcome(
    server: Server, b: Boundary, now: Instant,
    pages: seq<seq<Message>>, r: Result<Fetched, Error>, r': Result<Fetched, Error>)
    requires IsOutcome(server, b, now, pages, r) && IsOutcome(server, b, now, pages, r')
    ensures r == r'
  {
    SuccessStops(server, b, now, pages, r);
    SuccessStops(server, b, now, pages, r');
    if r.Ok? {
      SameSuccess(server, b, now, pages, r.value, r'.value);
    } else {
      SameError(server, b, now, pages, r.error, r'.error);
    }
  }

  lemma SuccessStops(server: Server, b: Boundary, now: Instant, pages: seq<seq<Message>>, r: Result<Fetched, Error>)
    requires IsOutcome(server, b, now, pages, r)
    ensures r.Ok? <==> |pages| > 0 && HasPage(server, |pages| - 1) && StopsAt(server, |pages| - 1, b)
  {
    hide HasPage, StopsAt, IsPageHead, Collected, CursorRepeats, LacksPage, HasNoCursor;
    assert PagesAre(server, pages);
  }

  lemma SameSuccess(server: Server, b: Boundary, now: Instant, pages: seq<seq<Message>>, f: Fetched, f': Fetched)
    requires IsOutcome(server, b, now, pages, Ok(f)) && IsOutcome(server, b, now, pages, Ok(f'))
    ensures f == f'
  {
    hide PagesAre, ReadsOn, StopsAt, IsPageHead, Collected, CursorRepeats;
    OnePageHead(pages[0], now, f.headID, f'.headID);
  }

  lemma SameError(server: Server, b: Boundary, now: Instant, pages: seq<seq<Message>>, e: Error, e': Error)
    requires IsOutcome(server, b, now, pages, Err(e)) && IsOutcome(server, b, now, pages, Err(e'))
    ensures e == e'
  {
    if |pages| > 0 {
      NoCursorAfter(server, |pages| - 1);
    }
    RepeatsCursor(server, |pages|);
    hide PagesAre, ReadsOn, CursorAt, HasNoCursor, CursorRepeats;
  }

  lemma NoCursorAfter(server: Server, n: nat)
    ensures HasNoCursor(server, n) ==> CursorAt(server, n + 1) == None
  {
  }

  lemma RepeatsCursor(server: Server, n: nat)
    ensures CursorRepeats(server, n) ==> CursorAt(server, n).Some?
  {
    hide CursorAt;
  }

  // A scan that ended cannot have gone on.
  lemma ShorterIsNoOutcome(
    server: Server, b: Boundary, now: Instant,
    pages: seq<seq<Message>>, r: Result<Fetched, Error>, pages': seq<seq<Message>>, r': Result<Fetched, Error>)
    requires IsOutcome(server, b, now, pages, r) && IsOutcome(server, b, now, pages', r')
    ensures |pages| >= |pages'|
  {
    OutcomeReads(server, b, now, pages', r');
    hide StopsAt, Collected, IsPageHead, CursorRepeats, CursorAt, HasNoCursor, PagesAre, ReadsOn;
    if |pages| > 0 {
      NoCursorAfter(server, |pages| - 1);
    }
    if |pages| < |pages'| {
      PageIsRead(server, pages', |pages|, b);
    }
  }

  lemma OutcomeReads(server: Server, b: Boundary, now: Instant, pages: seq<seq<Message>>, r: Result<Fetched, Error>)
    requires IsOutcome(server, b, now, pages, r)
    ensures |pages| <= MAX_MESSAGE_PAGES && PagesAre(server, pages)
    ensures forall k | 0 < k < |pages| :: !CursorRepeats(server, k)
    ensures |pages| > 0 ==> ReadsOn(server, |pages| - 1, b)
  {
    hide StopsAt, Collected, IsPageHead, CursorRepeats, CursorAt, HasNoCursor, PagesAre, LacksPage;
  }

  lemma PageIsRead(server: Server, pages: seq<seq<Message>>, n: nat, b: Boundary)
    requires PagesAre(server, pages) && n < |pages|
    ensures HasPage(server, n) && CursorAt(server, n).Some?
    ensures forall cause :: !LacksPage(server, n, cause)
    ensures n > 0 ==> HasPage(server, n - 1) && (ReadsOn(server, |pages| - 1, b) ==> !StopsAt(server, n - 1, b))
  {
    assert forall p | 0 <= p < |pages| :: HasPage(server, p) && PageAt(server, p).messages == pages[p];
    hide StopsAt;
  }

  lemma OnePageHead(page: seq<Message>, now: Instant, a: string, b: string)
    requires IsPageHead(page, now, a) && IsPageHead(page, now, b)
    ensures a == b
  {
    hide SortsBefore, IsValidRemoteID;
  }

  lemma ScanStarts(server: Server, b: Boundary)
    ensures PagesAre(server, []) && ReadsOn(server, 0, b) && CursorAt(server, 0) == Some("")
  {
  }

  lemma RepeatedCursor(server: Server, i: nat, n: nat)
    requires 0 < i < n && CursorAt(server, i).Some? && CursorAt(server, i) == CursorAt(server, n)
    ensures CursorRepeats(server, n)
  {
  }

  // ---- Completeness ----

  predicate IsLastPage(page: Reply)
    requires page.Page?
  {
    page.next.Some? && Trim(page.next.value) == ""
  }

  // The pages cut the history, oldest message first, into consecutive pieces, newest piece first; the
  // page without a next one is the oldest.
  ghost predicate IsCut(server: Server, history: seq<Message>, cuts: seq<nat>, n: nat) {
    && |cuts| == n + 1 && cuts[0] == |history|
    && (forall p | 0 <= p < n ::
          && cuts[p + 1] <= cuts[p] <= |history| && HasPage(server, p)
          && multiset(PageAt(server, p).messages) == multiset(history[cuts[p + 1]..cuts[p]])
          && (IsLastPage(PageAt(server, p)) ==> cuts[p + 1] == 0))
  }

  lemma {:induction false} FindPiece(cuts: seq<nat>, n: nat, k: nat) returns (p: nat)
    requires |cuts| == n + 1 && cuts[n] <= k < cuts[0]
    ensures p < n && cuts[p + 1] <= k < cuts[p]
    decreases n
  {
    if k < cuts[n - 1] {
      p := n - 1;
    } else {
      p := FindPiece(cuts[..n], n - 1, k);
    }
  }

  // The messages from this index on are the ones after the saved head.
  ghost predicate IsAfterHead(history: seq<Message>, b: Boundary, first: nat) {
    && first <= |history|
    && (forall k | 0 <= k < |history| && b.headID != "" && history[k].id == b.headID :: k < first)
    && (forall k | first <= k < |history| && b.headID != "" ::
      TimeOf(history[k].timestamp) > b.savedAt - BOUNDARY_TIME_SLACK)
  }

  lemma PieceMember(history: seq<Message>, lo: nat, hi: nat, page: seq<Message>, m: Message)
    requires lo <= hi <= |history| && multiset(page) == multiset(history[lo..hi]) && m in page
    ensures exists k :: lo <= k < hi && history[k] == m
  {
    assert m in multiset(history[lo..hi]);
    var i :| 0 <= i < hi - lo && history[lo..hi][i] == m;
    assert history[lo + i] == m;
  }

  // Whichever rule stopped the scan, it has reached the messages after the head.
  lemma StopReachesHead(server: Server, history: seq<Message>, cuts: seq<nat>, n: nat, b: Boundary, first: nat)
    requires 0 < n && IsCut(server, history, cuts, n) && IsAfterHead(history, b, first)
    requires b.catchUp && StopsAt(server, n - 1, b)
    ensures cuts[n] <= first
  {
    var page := PageAt(server, n - 1).messages;
    if ContainsHead(page, b.headID) {
      var i :| 0 <= i < |page| && page[i].id == b.headID;
      PieceMember(history, cuts[n], cuts[n - 1], page, page[i]);
    } else if b.headID != "" && ReachesTime(page, b.savedAt - BOUNDARY_TIME_SLACK) {
      var m :| m in page && m.timestamp > 0 && TimeOf(m.timestamp) <= b.savedAt - BOUNDARY_TIME_SLACK;
      PieceMember(history, cuts[n], cuts[n - 1], page, m);
    }
  }

  /**
   A successful catch-up scan returns every message after the saved head, and each valid ID once,
   whichever rule stopped it: the head was found, a message older than its save time was found, or the
   history ended.
   */
  lemma ScanIsComplete(
    server: Server, history: seq<Message>, cuts: seq<nat>, pages: seq<seq<Message>>, b: Boundary, first: nat)
    requires 0 < |pages| && PagesAre(server, pages) && b.catchUp && StopsAt(server, |pages| - 1, b)
    requires IsCut(server, history, cuts, |pages|) && IsAfterHead(history, b, first)
    ensures forall k | first <= k < |history| :: IsCollected(Collected(pages), history[k])
    ensures HasUniqueIDs(Collected(pages))
    ensures forall m <- Collected(pages) :: m in history
  {
    var n := |pages|;
    PagesAreCollected(pages);
    StopReachesHead(server, history, cuts, n, b, first);
    forall k | first <= k < |history| ensures IsCollected(Collected(pages), history[k]) {
      var p := FindPiece(cuts, n, k);
      assert history[cuts[p + 1]..cuts[p]][k - cuts[p + 1]] == history[k];
      assert history[k] in multiset(pages[p]);
    }
    forall m | m in Collected(pages) ensures m in history {
      var p :| 0 <= p < |pages| && m in pages[p];
      PieceMember(history, cuts[p + 1], cuts[p], pages[p], m);
    }
  }
}
