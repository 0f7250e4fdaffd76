/** The catalog browser as a step system: typing, the debounce timer, page buttons, and
    responses that arrive in any order, late, or not at all. */
module CatalogProtocol {
  import opened Basics

  datatype Opportunity = AllWork | Formalize | Advance | Verified

  datatype Scope = AllScopes | Bounded | LongHorizon

  datatype Sort = Recommended | ByTitle | BySubject

  datatype Criteria = Criteria(q: string, opportunity: Opportunity, scope: Scope, subject: string, sort: Sort)

  datatype FilterChange =
    | SetQuery(q: string)
    | SetOpportunity(opportunity: Opportunity)
    | SetScope(scope: Scope)
    | SetSubject(subject: string)
    | SetSort(sort: Sort)
    | Reset

  function ApplyChange(criteria: Criteria, change: FilterChange): Criteria {
    match change
    case SetQuery(q) => criteria.(q := q)
    case SetOpportunity(opportunity) => criteria.(opportunity := opportunity)
    case SetScope(scope) => criteria.(scope := scope)
    case SetSubject(subject) => criteria.(subject := subject)
    case SetSort(sort) => criteria.(sort := sort)
    case Reset => Criteria("", AllWork, AllScopes, "all", Recommended)
  }

  type Cursor = Option<string>

  /** A cursor that is sent and that enables Next: neither absent nor empty. */
  predicate Usable(cursor: Cursor) {
    cursor.Some? && cursor.value != ""
  }

  datatype Page = Page(records: seq<string>, nextCursor: Cursor)

  /** The catalog service: the page it holds for given criteria at a given cursor. */
  type Server = (Criteria, Cursor) -> Page

  datatype PageRequest = PageRequest(criteria: Criteria, cursor: Cursor, previous: seq<Cursor>)

  function Answer(server: Server, request: PageRequest): Page {
    server(request.criteria, if Usable(request.cursor) then request.cursor else None)
  }

  datatype Timer = Timer(delay: nat, criteria: Criteria)

  /** The state and refs of the component. A request number also names the abort
      controller made for that request; `aborted` holds the controllers told to abort. */
  datatype State = State(
    criteria: Criteria,
    page: Page,
    pageCursor: Cursor,
    previous: seq<Cursor>,
    pending: bool,
    error: bool,
    controller: Option<nat>,
    aborted: set<nat>,
    requestNumber: nat,
    failedRequest: PageRequest,
    previousSearch: string,
    timer: Option<Timer>,
    inFlight: map<nat, PageRequest>)

  datatype Event =
    | Change(change: FilterChange)
    | TimerFires
    | Next
    | Previous
    | Retry
    | Respond(number: nat, ok: bool)

  function Initial(server: Server, query: Criteria): State {
    State(query, server(query, None), None, [], false, false, None, {}, 0,
          PageRequest(query, None, []), query.q, None, map[])
  }

  // ----- Steps -------------------------------------------------------------------------

  function Abort(controller: Option<nat>): set<nat> {
    if controller.Some? then {controller.value} else {}
  }

  function RequestPage(s: State, request: PageRequest): State {
    var number := s.requestNumber + 1;
    s.(aborted := s.aborted + Abort(s.controller),
       controller := Some(number),
       requestNumber := number,
       failedRequest := request,
       pending := true,
       error := false,
       inFlight := s.inFlight[number := request])
  }

  /** A filter change commits and its effect runs: the old timer and request are dropped
      and a new timer starts, at once unless the search text changed. */
  function ChangeCriteria(s: State, change: FilterChange): State {
    var criteria := ApplyChange(s.criteria, change);
    s.(criteria := criteria,
       aborted := s.aborted + Abort(s.controller),
       requestNumber := s.requestNumber + 1,
       pending := true,
       error := false,
       previousSearch := criteria.q,
       timer := Some(Timer(if s.previousSearch == criteria.q then 0 else 300, criteria)))
  }

  /** Request `number` settles. Only an un-aborted response carrying the current number
      reaches the page, the error flag or the pending flag. */
  function Settle(server: Server, s: State, number: nat, ok: bool): State
    requires number in s.inFlight
  {
    var request := s.inFlight[number];
    var landed := s.(inFlight := s.inFlight - {number});
    if number != s.requestNumber || number in s.aborted then landed
    else if ok then
      landed.(page := Answer(server, request), pageCursor := request.cursor, previous := request.previous,
              pending := false)
    else
      landed.(error := true, pending := false)
  }

  /** Buttons act only while they are shown and not disabled; a timer fires only while it
      is armed; only a request in flight settles. */
  predicate Enabled(s: State, event: Event) {
    match event
    case Change(_) => true
    case TimerFires => s.timer.Some?
    case Next => !s.pending && !s.error && Usable(s.page.nextCursor)
    case Previous => !s.pending && !s.error && s.previous != []
    case Retry => s.error && !s.pending
    case Respond(number, _) => number in s.inFlight
  }

  function Step(server: Server, s: State, event: Event): State
    requires Enabled(s, event)
  {
    match event
    case Change(change) => ChangeCriteria(s, change)
    case TimerFires => RequestPage(s.(timer := None), PageRequest(s.timer.value.criteria, None, []))
    case Next => RequestPage(s, PageRequest(s.criteria, s.page.nextCursor, s.previous + [s.pageCursor]))
    case Previous =>
      var last := |s.previous| - 1;
      RequestPage(s, PageRequest(s.criteria, s.previous[last], s.previous[..last]))
    case Retry => RequestPage(s, s.failedRequest)
    case Respond(number, ok) => Settle(server, s, number, ok)
  }

  /** A run: each event is enabled when its turn comes. */
  ghost predicate IsRun(server: Server, s: State, events: seq<Event>)
    decreases |events|
  {
    events == [] || (Enabled(s, events[0]) && IsRun(server, Step(server, s, events[0]), events[1..]))
  }

  ghost function After(server: Server, s: State, events: seq<Event>): State
    requires IsRun(server, s, events)
    decreases |events|
  {
    if events == [] then s else After(server, Step(server, s, events[0]), events[1..])
  }

  // ----- The cursor chain ----------------------------------------------------------------

  /** The cursor of page `depth`: none for the first page, then whatever the service
      names as the next one. */
  ghost function CursorAt(server: Server, criteria: Criteria, depth: nat): Cursor {
    if depth == 0 then None else server(criteria, CursorAt(server, criteria, depth - 1)).nextCursor
  }

  /** `cursors` are the cursors of pages 0, 1, 2, ... of these criteria. */
  ghost predicate IsChain(server: Server, criteria: Criteria, cursors: seq<Cursor>) {
    && cursors != []
    && forall k | 0 <= k < |cursors| ::
         cursors[k] == CursorAt(server, criteria, k) && (k > 0 ==> Usable(cursors[k]))
  }

  // ----- The invariant ---------------------------------------------------------------------

  /** Request `number` can still reach the page. */
  predicate Live(s: State, number: nat) {
    number in s.inFlight && number == s.requestNumber && number !in s.aborted
  }

  ghost predicate GoodRequest(server: Server, s: State, request: PageRequest) {
    request.criteria == s.criteria && IsChain(server, s.criteria, request.previous + [request.cursor])
  }

  ghost predicate Numbered(s: State) {
    && (forall n | n in s.inFlight :: 1 <= n <= s.requestNumber)
    && (forall n | n in s.aborted :: n <= s.requestNumber)
    && (s.controller.Some? ==> s.controller.value <= s.requestNumber)
    && (forall n | n in s.inFlight && n !in s.aborted :: n == s.requestNumber && s.controller == Some(n))
  }

  ghost predicate Pending(s: State) {
    && (s.pending <==> s.timer.Some? || Live(s, s.requestNumber))
    && !(s.timer.Some? && Live(s, s.requestNumber))
    && !(s.error && s.pending)
  }

  ghost predicate Agreement(server: Server, s: State) {
    && (s.timer.Some? ==> s.timer.value.criteria == s.criteria)
    && s.previousSearch == s.criteria.q
    && (Live(s, s.requestNumber) ==>
          s.inFlight[s.requestNumber] == s.failedRequest && GoodRequest(server, s, s.failedRequest))
    && (s.error ==> GoodRequest(server, s, s.failedRequest))
    && (!s.pending && !s.error ==>
          s.page == server(s.criteria, s.pageCursor) && IsChain(server, s.criteria, s.previous + [s.pageCursor]))
  }

  ghost predicate Inv(server: Server, s: State) {
    Numbered(s) && Pending(s) && Agreement(server, s)
  }

  lemma {:induction false} InitialInv(server: Server, query: Criteria)
    ensures Inv(server, Initial(server, query))
  {
  }

  /** Requests are always for a page of the current criteria that the service has named. */
  lemma {:induction false} RequestKeepsInv(server: Server, s: State, request: PageRequest)
    requires Numbered(s) && s.timer.None? && s.previousSearch == s.criteria.q
    requires GoodRequest(server, s, request)
    ensures Inv(server, RequestPage(s, request))
  {
  }

  lemma {:induction false} ChangeKeepsInv(server: Server, s: State, change: FilterChange)
    requires Inv(server, s)
    ensures Inv(server, ChangeCriteria(s, change))
  {
  }

  lemma {:induction false} SettleKeepsInv(server: Server, s: State, number: nat, ok: bool)
    requires Inv(server, s)
    requires number in s.inFlight
    ensures Inv(server, Settle(server, s, number, ok))
  {
    var t := Settle(server, s, number, ok);
    if Live(s, number) {
      var request := s.inFlight[number];
      var cursors := request.previous + [request.cursor];
      var last := |request.previous|;
      assert cursors[last] == request.cursor;
      assert Answer(server, request) == server(s.criteria, request.cursor);
    } else {
      assert Live(s, s.requestNumber) <==> Live(t, t.requestNumber);
    }
  }

  lemma {:induction false} NextIsGood(server: Server, s: State)
    requires Inv(server, s) && Enabled(s, Next)
    ensures GoodRequest(server, s, PageRequest(s.criteria, s.page.nextCursor, s.previous + [s.pageCursor]))
  {
  }

  lemma {:induction false} PreviousIsGood(server: Server, s: State)
    requires Inv(server, s) && Enabled(s, Previous)
    ensures
      var last := |s.previous| - 1;
      GoodRequest(server, s, PageRequest(s.criteria, s.previous[last], s.previous[..last]))
  {
  }

  /** Every step keeps the invariant. */
  lemma {:induction false} StepKeepsInv(server: Server, s: State, event: Event)
    requires Inv(server, s) && Enabled(s, event)
    ensures Inv(server, Step(server, s, event))
  {
    match event
    case Change(change) => ChangeKeepsInv(server, s, change);
    case TimerFires =>
      var none: seq<Cursor> := [];
      assert none + [None] == [None];
      RequestKeepsInv(server, s.(timer := None), PageRequest(s.criteria, None, []));
    case Next =>
      NextIsGood(server, s);
      RequestKeepsInv(server, s, PageRequest(s.criteria, s.page.nextCursor, s.previous + [s.pageCursor]));
    case Previous =>
      PreviousIsGood(server, s);
      var last := |s.previous| - 1;
      RequestKeepsInv(server, s, PageRequest(s.criteria, s.previous[last], s.previous[..last]));
    case Retry => RequestKeepsInv(server, s, s.failedRequest);
    case Respond(number, ok) => SettleKeepsInv(server, s, number, ok);
  }

  lemma {:induction false} RunKeepsInv(server: Server, s: State, events: seq<Event>)
    requires Inv(server, s) && IsRun(server, s, events)
    ensures Inv(server, After(server, s, events))
    decreases |events|
  {
    if events != [] {
      StepKeepsInv(server, s, events[0]);
      RunKeepsInv(server, Step(server, s, events[0]), events[1..]);
    }
  }

  // ----- Safety over whole runs --------------------------------------------------------------

  /** Agreement: after any interleaving, a settled page is the service's answer for the
      criteria on screen, and after an error Retry would ask for those criteria. */
  lemma {:induction false} SettledPageAnswersCriteria(server: Server, query: Criteria, events: seq<Event>)
    requires IsRun(server, Initial(server, query), events)
    ensures
      var s := After(server, Initial(server, query), events);
      && (!s.pending && !s.error ==> s.page == server(s.criteria, s.pageCursor))
      && (s.error ==> s.failedRequest.criteria == s.criteria && !s.pending)
  {
    InitialInv(server, query);
    RunKeepsInv(server, Initial(server, query), events);
  }

  /** The page number shown, `previous.length + 1`, is the depth of the page in the
      service's own chain of cursors, and the back-stack holds exactly the cursors before it. */
  lemma {:induction false} BackStackIsChain(server: Server, query: Criteria, events: seq<Event>)
    requires IsRun(server, Initial(server, query), events)
    ensures
      var s := After(server, Initial(server, query), events);
      !s.pending && !s.error ==>
        && s.pageCursor == CursorAt(server, s.criteria, |s.previous|)
        && forall k | 0 <= k < |s.previous| :: s.previous[k] == CursorAt(server, s.criteria, k)
  {
    InitialInv(server, query);
    RunKeepsInv(server, Initial(server, query), events);
    var s := After(server, Initial(server, query), events);
    var chain := s.previous + [s.pageCursor];
    assert chain[|s.previous|] == s.pageCursor;
    assert forall k | 0 <= k < |s.previous| :: chain[k] == s.previous[k];
  }

  /** Loading is shown exactly while one thing is still to come: the timer, or one live
      request; never both, and never two un-aborted requests. */
  lemma {:induction false} PendingMeansOneThingToCome(server: Server, query: Criteria, events: seq<Event>)
    requires IsRun(server, Initial(server, query), events)
    ensures
      var s := After(server, Initial(server, query), events);
      && (s.pending <==> (s.timer.Some? || Live(s, s.requestNumber)))
      && !(s.timer.Some? && Live(s, s.requestNumber))
      && forall m, n | m in s.inFlight && m !in s.aborted && n in s.inFlight && n !in s.aborted :: m == n && Live(s, n)
  {
    InitialInv(server, query);
    RunKeepsInv(server, Initial(server, query), events);
  }

  // ----- Superseded requests --------------------------------------------------------------------

  predicate Superseded(s: State, number: nat) {
    number < s.requestNumber || number in s.aborted
  }

  lemma {:induction false} SupersededForGood(server: Server, s: State, events: seq<Event>, number: nat)
    requires IsRun(server, s, events)
    requires Superseded(s, number)
    ensures Superseded(After(server, s, events), number)
    decreases |events|
  {
    if events != [] {
      SupersededForGood(server, Step(server, s, events[0]), events[1..], number);
    }
  }

  lemma {:induction false} UserEventSupersedes(server: Server, s: State, events: seq<Event>, number: nat)
    requires Inv(server, s) && IsRun(server, s, events)
    requires number in s.inFlight
    requires exists e :: e in events && !e.Respond?
    ensures Superseded(After(server, s, events), number)
    decreases |events|
  {
    var t := Step(server, s, events[0]);
    StepKeepsInv(server, s, events[0]);
    if !events[0].Respond? || number !in t.inFlight {
      assert Superseded(t, number) || events[0].Respond?;
      if events[0].Respond? {
        SettledThenSuperseded(server, t, events[1..], number);
      } else {
        SupersededForGood(server, t, events[1..], number);
      }
    } else {
      UserEventSupersedes(server, t, events[1..], number);
    }
  }

  lemma {:induction false} SettledThenSuperseded(server: Server, s: State, events: seq<Event>, number: nat)
    requires Inv(server, s) && IsRun(server, s, events)
    requires number <= s.requestNumber
    requires exists e :: e in events && !e.Respond?
    ensures Superseded(After(server, s, events), number)
    decreases |events|
  {
    var t := Step(server, s, events[0]);
    StepKeepsInv(server, s, events[0]);
    if events[0].Respond? {
      SettledThenSuperseded(server, t, events[1..], number);
    } else {
      SupersededForGood(server, t, events[1..], number);
    }
  }

  /** Once anything but a response has happened since a request was in flight, its response
      changes nothing but the set of requests in flight. */
  lemma {:induction false} StaleResponseIsIgnored(server: Server, s: State, events: seq<Event>, number: nat, ok: bool)
    requires Inv(server, s) && IsRun(server, s, events)
    requires number in s.inFlight
    requires exists e :: e in events && !e.Respond?
    requires Enabled(After(server, s, events), Respond(number, ok))
    ensures
      var t := After(server, s, events);
      Step(server, t, Respond(number, ok)) == t.(inFlight := t.inFlight - {number})
  {
    UserEventSupersedes(server, s, events, number);
  }

  /** What a filter change leaves behind: every request in flight is aborted and can never
      reach the page, and all that is to come is one timer, for the criteria now on screen,
      which waits exactly when the search text is what changed. */
  lemma {:induction false} ChangeLeavesOneTimer(server: Server, s: State, change: FilterChange)
    requires Inv(server, s)
    ensures
      var t := Step(server, s, Change(change));
      && (match change
          case SetQuery(q) => t.criteria == s.criteria.(q := q)
          case SetOpportunity(opportunity) => t.criteria == s.criteria.(opportunity := opportunity)
          case SetScope(scope) => t.criteria == s.criteria.(scope := scope)
          case SetSubject(subject) => t.criteria == s.criteria.(subject := subject)
          case SetSort(sort) => t.criteria == s.criteria.(sort := sort)
          case Reset => t.criteria == Criteria("", AllWork, AllScopes, "all", Recommended))
      && t.timer == Some(Timer(if t.criteria.q == s.criteria.q then 0 else 300, t.criteria))
      && t.pending && !t.error
      && (forall n | n in t.inFlight :: n in t.aborted && Superseded(t, n) && !Live(t, n))
      && t.page == s.page && t.pageCursor == s.pageCursor && t.previous == s.previous
  {
    assert Numbered(s);
  }

  // ----- One request, answered or retried --------------------------------------------------------------

  predicate Sends(s: State, event: Event) {
    Enabled(s, event) && event in {TimerFires, Next, Previous, Retry}
  }

  /** The event sends a request and its response arrives. */
  function Sent(server: Server, s: State, event: Event, ok: bool): State
    requires Sends(s, event)
  {
    var waiting := Step(server, s, event);
    Step(server, waiting, Respond(waiting.requestNumber, ok))
  }

  lemma {:induction false} SentLands(server: Server, s: State, event: Event, ok: bool)
    requires Inv(server, s) && Sends(s, event)
    ensures
      var waiting := Step(server, s, event);
      var t := Sent(server, s, event, ok);
      && Inv(server, t) && !t.pending && t.error == !ok && t.criteria == s.criteria
      && t.failedRequest == waiting.inFlight[waiting.requestNumber]
      && (!ok ==> t.page == s.page && t.pageCursor == s.pageCursor && t.previous == s.previous)
  {
    StepKeepsInv(server, s, event);
    var waiting := Step(server, s, event);
    StepKeepsInv(server, waiting, Respond(waiting.requestNumber, ok));
  }

  /** What is shown when the response arrives: after the debounce the first page of the new
      criteria; after Next the page its cursor named, one deeper; after Previous the page
      before, one less deep. */
  lemma {:induction false} SuccessShows(server: Server, s: State, event: Event)
    requires Inv(server, s) && Sends(s, event)
    ensures
      var t := Sent(server, s, event, true);
      match event
      case TimerFires => t.page == server(s.criteria, None) && t.pageCursor == None && t.previous == []
      case Next =>
        && t.page == server(s.criteria, s.page.nextCursor)
        && t.pageCursor == s.page.nextCursor
        && t.previous == s.previous + [s.pageCursor]
      case Previous =>
        && t.page == server(s.criteria, t.pageCursor)
        && t.previous + [t.pageCursor] == s.previous
      case _ => t.page == server(s.criteria, t.pageCursor)
  {
    SentLands(server, s, event, true);
  }

  /** A request that fails can be retried, and Retry sends that very request again: when it
      succeeds, the page is the one the first attempt would have brought. This holds for
      Retry itself too, so it does not matter how often it fails. */
  lemma {:induction false} RetryRepeats(server: Server, s: State, event: Event)
    requires Inv(server, s) && Sends(s, event)
    ensures
      var first := Step(server, s, event);
      var failed := Sent(server, s, event, false);
      && Sends(failed, Retry)
      && var again := Step(server, failed, Retry);
      && again.inFlight[again.requestNumber] == first.inFlight[first.requestNumber]
      && var t, u := Sent(server, failed, Retry, true), Sent(server, s, event, true);
      t.page == u.page && t.pageCursor == u.pageCursor && t.previous == u.previous
  {
    SentLands(server, s, event, false);
    SentLands(server, s, event, true);
  }

  /** While loading nothing can be clicked; on an error only Retry; otherwise Next while the
      service names a further page, and Previous on every page but the first. */
  lemma {:induction false} WhatCanBeClicked(server: Server, s: State)
    requires Inv(server, s)
    ensures Sends(s, Retry) <==> !s.pending && s.error
    ensures Sends(s, Next) <==> !s.pending && !s.error && s.page.nextCursor !in {None, Some("")}
    ensures Sends(s, Previous) <==> !s.pending && !s.error && s.pageCursor != None
    ensures Sends(s, TimerFires) <==> s.timer != None
  {
    if !s.pending && !s.error {
      var cursors := s.previous + [s.pageCursor];
      assert cursors[0] == CursorAt(server, s.criteria, 0) == None;
      if s.previous != [] {
        assert cursors[|s.previous|] == s.pageCursor && Usable(s.pageCursor);
      }
    }
  }

  // ----- Next then Previous --------------------------------------------------------------------------

  /** A successful Next followed by a successful Previous restores page, cursor and stack. */
  lemma {:induction false} NextThenPrevious(server: Server, s: State)
    requires Inv(server, s) && Enabled(s, Next)
    ensures
      var s1 := Step(server, s, Next);
      Enabled(s1, Respond(s1.requestNumber, true)) &&
      var s2 := Step(server, s1, Respond(s1.requestNumber, true));
      Enabled(s2, Previous) &&
      var s3 := Step(server, s2, Previous);
      Enabled(s3, Respond(s3.requestNumber, true)) &&
      var s4 := Step(server, s3, Respond(s3.requestNumber, true));
      && s2.previous == s.previous + [s.pageCursor]
      && s4.page == s.page && s4.pageCursor == s.pageCursor && s4.previous == s.previous
      && !s4.pending && !s4.error
  {
  }

  // ----- Progress ---------------------------------------------------------------------------------------

  /** What the system still owes when the user keeps still. */
  function Outstanding(s: State): nat {
    (if s.timer.Some? then 2 else 0) + |s.inFlight|
  }

  predicate BySystem(event: Event) {
    event.TimerFires? || event.Respond?
  }

  lemma {:induction false} SystemStepsAreFew(server: Server, s: State, event: Event)
    requires Inv(server, s) && Enabled(s, event) && BySystem(event)
    ensures Outstanding(Step(server, s, event)) < Outstanding(s)
  {
  }

  /** Loading never sticks: while the user keeps still only so many timer and response
      events can occur, and when no more can, the page has settled. */
  lemma {:induction false} LoadingNeverSticks(server: Server, s: State, events: seq<Event>)
    requires Inv(server, s) && IsRun(server, s, events)
    requires forall e | e in events :: BySystem(e)
    ensures |events| <= Outstanding(s)
    ensures
      var t := After(server, s, events);
      (forall e | BySystem(e) :: !Enabled(t, e)) ==> !t.pending && t.criteria == s.criteria
    decreases |events|
  {
    if events == [] {
      if s.pending {
        if s.timer.Some? {
          assert Enabled(s, TimerFires) && BySystem(TimerFires);
        } else {
          var response := Respond(s.requestNumber, true);
          assert Enabled(s, response) && BySystem(response);
        }
      }
    } else {
      assert events[0] in events;
      SystemStepsAreFew(server, s, events[0]);
      StepKeepsInv(server, s, events[0]);
      LoadingNeverSticks(server, Step(server, s, events[0]), events[1..]);
    }
  }
}
