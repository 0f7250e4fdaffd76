/** The catalog component itself: refs and state fields updated step by step by its
    handlers. Every method performs exactly one step of `CatalogProtocol`. */
module ExploreCatalog {
  import opened Basics
  import opened CatalogProtocol

  class Component {
    const server: Server
    var criteria: Criteria
    var page: Page
    var pageCursor: Cursor
    var previous: seq<Cursor>
    var pending: bool
    var error: bool
    var controller: Option<nat>
    var aborted: set<nat>
    var requestNumber: nat
    var failedRequest: PageRequest
    var previousSearch: string
    var timer: Option<Timer>
    var inFlight: map<nat, PageRequest>

    ghost function View(): State
      reads this
    {
      State(criteria, page, pageCursor, previous, pending, error, controller, aborted,
            requestNumber, failedRequest, previousSearch, timer, inFlight)
    }

    ghost predicate Valid()
      reads this
    {
      Inv(server, View())
    }

    /** The server-rendered first page arrives with the query it answers. */
    constructor (server: Server, initialQuery: Criteria, initialPage: Page)
      requires initialPage == server(initialQuery, None)
      ensures this.server == server
      ensures View() == Initial(server, initialQuery) && Valid()
    {
      this.server := server;
      criteria, page, pageCursor, previous := initialQuery, initialPage, None, [];
      pending, error := false, false;
      controller, aborted, requestNumber := None, {}, 0;
      failedRequest := PageRequest(initialQuery, None, []);
      previousSearch := initialQuery.q;
      timer, inFlight := None, map[];
      new;
      InitialInv(server, initialQuery);
    }

    method AbortCurrent()
      modifies this`aborted
      ensures aborted == old(aborted) + Abort(controller)
    {
      if controller.Some? {
        aborted := aborted + {controller.value};
      }
    }

    method RequestPage(request: PageRequest)
      modifies this`aborted, this`requestNumber, this`controller, this`failedRequest, this`pending, this`error
      modifies this`inFlight
      ensures View() == CatalogProtocol.RequestPage(old(View()), request)
    {
      AbortCurrent();
      requestNumber := requestNumber + 1;
      controller := Some(requestNumber);
      failedRequest := request;
      pending := true;
      error := false;
      inFlight := inFlight[requestNumber := request];
    }

    /** The cleanup of the previous effect. */
    method CleanUp()
      modifies this`timer, this`aborted
      ensures timer == None && aborted == old(aborted) + Abort(controller)
    {
      timer := None;
      AbortCurrent();
    }

    /** The effect that runs after a commit with new criteria. */
    method RunEffect()
      modifies this`aborted, this`requestNumber, this`pending, this`error, this`previousSearch, this`timer
      ensures aborted == old(aborted) + Abort(controller)
      ensures requestNumber == old(requestNumber) + 1 && pending && !error
      ensures previousSearch == criteria.q
      ensures timer == Some(Timer(if old(previousSearch) == criteria.q then 0 else 300, criteria))
    {
      AbortCurrent();
      requestNumber := requestNumber + 1;
      pending := true;
      error := false;
      var delay := if previousSearch == criteria.q then 0 else 300;
      previousSearch := criteria.q;
      timer := Some(Timer(delay, criteria));
    }

    /** `updateFilter` or `resetResults`, with the commit and the effects it leads to. */
    method ChangeFilter(change: FilterChange)
      requires Valid()
      modifies this
      ensures Valid() && View() == Step(server, old(View()), Change(change))
    {
      ghost var before := View();
      criteria := ApplyChange(criteria, change);
      CleanUp();
      RunEffect();
      StepKeepsInv(server, before, Change(change));
    }

    method FireTimer()
      requires Valid() && timer.Some?
      modifies this
      ensures Valid() && View() == Step(server, old(View()), TimerFires)
    {
      ghost var before := View();
      var fired := timer.value;
      timer := None;
      RequestPage(PageRequest(fired.criteria, None, []));
      StepKeepsInv(server, before, TimerFires);
    }

    method ClickNext()
      requires Valid() && Enabled(View(), Next)
      modifies this
      ensures Valid() && View() == Step(server, old(View()), Next)
    {
      ghost var before := View();
      RequestPage(PageRequest(criteria, page.nextCursor, previous + [pageCursor]));
      StepKeepsInv(server, before, Next);
    }

    method ClickPrevious()
      requires Valid() && Enabled(View(), Previous)
      modifies this
      ensures Valid() && View() == Step(server, old(View()), Previous)
    {
      ghost var before := View();
      RequestPage(PageRequest(criteria, previous[|previous| - 1], previous[..|previous| - 1]));
      StepKeepsInv(server, before, Previous);
    }

    method ClickRetry()
      requires Valid() && Enabled(View(), Retry)
      modifies this
      ensures Valid() && View() == Step(server, old(View()), Retry)
    {
      ghost var before := View();
      RequestPage(failedRequest);
      StepKeepsInv(server, before, Retry);
    }

    /** Request `number` settles: with the service's page, or with a failure (a rejected
        fetch, a bad status, unreadable JSON, or an abort). */
    method Settled(number: nat, result: Option<Page>)
      requires Valid() && number in inFlight
      requires result.Some? ==> result.value == Answer(server, inFlight[number])
      modifies this
      ensures Valid() && View() == Step(server, old(View()), Respond(number, result.Some?))
    {
      ghost var before := View();
      var request := inFlight[number];
      inFlight := inFlight - {number};
      var current := number == requestNumber && number !in aborted;
      if result.Some? {
        if current {
          page := result.value;
          pageCursor := request.cursor;
          previous := request.previous;
        }
      } else if current {
        error := true;
      }
      if current {
        pending := false;
      }
      StepKeepsInv(server, before, Respond(number, result.Some?));
    }
  }
}
