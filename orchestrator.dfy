/** The batch availability search of `src/main.ts` as a state machine.

    The script chains asynchronous calls: a search posts a request, and the response handler
    calls the callback of the batch in progress, which inserts the results and starts the
    next search. Here each step is a method of `Batch` that updates the state and returns the
    `Effect` it leaves for the environment: a request to post, a callback to run at once, a
    new tab key to fetch, or a navigation to the search page. The environment answers by
    calling `OnResponse`, `OnMint` or `Callback`. */
module Orchestrator {
  import opened Text
  import opened Dict
  import opened Calendar
  import opened DateStrings
  import opened Cabins
  import opened Sorting
  import opened SavedStore
  import opened Results
  import opened Checkpoint
  import opened Requests
  import opened AirportCheck

  /** The search form as last read (`uef`). */
  datatype Form = Form(from: string, to: string, date: string, passengers: Passengers)

  /** The callback chain in progress: the closure state of `bulkSearch` (the routes still to
      search on the current date and the one being searched) or of `savedSearch` (the queries
      still to search and the one being searched). */
  datatype Chain =
    | NoChain
    | BulkChain(singleDate: bool, routes: seq<Route>, route: Route)
    | SavedChain(queries: seq<Query>, query: Query)

  /** What a step leaves for the environment to do. */
  datatype Effect =
    | Idle
      /** POST this body to the availability URL; answer with `OnResponse`. */
    | Post(body: string)
      /** Call the callback now with this page; answer with `Callback`. */
    | Invoke(page: PageBom)
      /** Fetch a new tab key, then search `retry` again; answer with `OnMint`. */
    | Mint(retry: Query)
      /** Create the award search, store the checkpoint `flags` and submit the search page
          (`RegularSearch`). */
    | Navigate(payload: Payload, flags: Cont)
      /** The handler threw an uncaught exception: nothing further happens, and the state
          stays as the handler left it. */
    | Throw

  /** An availability response: its status, whether its body parses as JSON (`json`) and,
      when the `pageBom` string inside it parses too, that page (`page`). */
  datatype Response = Response(status: int, json: bool, page: Option<PageBom>)

  /** The tab-key response: its status, the request parameters parsed from it (`None`
      when they cannot be parsed) and the error page parsed from it, if any. */
  datatype MintResult = MintResult(status: int, params: Option<Dict<string>>, error: Option<ErrorPage>)

  /** Language entries shown in the error banner. */
  const InvalidCode := "invalid_code"
  const KeyExhausted := "key_exhausted"
  const GettingKey := "getting_key"
  const NotJson := "Response not valid JSON"

  /** The days a batch searches when reset (`remainingDays = 20`). */
  const BatchDays := 20

  /** The page handed to the callback for a destination that is not an airport code. */
  const InvalidCodePage := ErrorBom([InvalidCode])

  /** Every field of the state, for stating what a step changes. */
  datatype State = State(searching: bool, stopSearch: bool, remainingDays: int, bulkDate: string,
                         routeChanged: bool, requestParams: Option<Dict<string>>, form: Form, chain: Chain, banner: string)

  /** The routes `bulkSearch` expands the form into. */
  function FormRoutes(f: Form): seq<Route>
  {
    Product(Split(f.from, ','), Split(f.to, ','))
  }

  /** A form always has a first route, followed by the rest. */
  lemma FormRoutesSplit(f: Form)
    ensures |FormRoutes(f)| >= 1 && [FormRoutes(f)[0]] + FormRoutes(f)[1..] == FormRoutes(f)
  {
    var froms, tos := Split(f.from, ','), Split(f.to, ',');
    ProductLength(froms, tos);
    MulMonotone(1, |froms|, |tos|);
  }

  /** What `searchAvailability` leaves to do for a search from `from` to `to` on `date`, given
      whether a stop is pending and the shared parameters before it (`None` for the `false` a
      failed key mint leaves, on which setting `B_DATE_1` throws in strict mode). */
  function SearchRequest(stop: bool, params: Option<Dict<string>>, from: string, to: string, date: string): Effect
  {
    if stop then Idle
    else if !IsAirportCode(to) then Invoke(InvalidCodePage)
    else if params.None? then Throw
    else Post(Body(PrepareParams(params.value, date, from, to)))
  }

  /** The shared parameters after that search: prepared only when a request is posted. */
  function ParamsAfter(stop: bool, params: Option<Dict<string>>, from: string, to: string, date: string): Option<Dict<string>>
  {
    if !stop && IsAirportCode(to) && params.Some? then Some(PrepareParams(params.value, date, from, to)) else params
  }

  /** A search posts exactly when no stop is pending, the destination is an airport code and
      the shared parameters are an object, and the body it posts is that of the new shared
      parameters, which name the searched date, origin and destination and keep none of the
      dropped keys; with a valid destination and no object it throws instead. */
  lemma SearchRequestPosts(stop: bool, params: Option<Dict<string>>, from: string, to: string, date: string)
    ensures SearchRequest(stop, params, from, to, date).Post? <==> !stop && IsAirportCode(to) && params.Some?
    ensures SearchRequest(stop, params, from, to, date) == Invoke(InvalidCodePage) <==> !stop && !IsAirportCode(to)
    ensures SearchRequest(stop, params, from, to, date) == Throw <==> !stop && IsAirportCode(to) && params.None?
    ensures SearchRequest(stop, params, from, to, date).Post? ==>
      var after := ParamsAfter(stop, params, from, to, date);
      after.Some? && SearchRequest(stop, params, from, to, date).body == Body(after.value)
      && Get(after.value, "B_DATE_1") == Some(date + "0000") && Get(after.value, "B_LOCATION_1") == Some(from)
      && Get(after.value, "E_LOCATION_1") == Some(to)
      && forall k :: k in Dropped ==> Get(after.value, k).None?
    ensures !SearchRequest(stop, params, from, to, date).Post? ==> ParamsAfter(stop, params, from, to, date) == params
  {
    if !stop && IsAirportCode(to) && params.Some? {
      var p := params.value;
      PrepareParamsGet(p, date, from, to, "B_DATE_1");
      PrepareParamsGet(p, date, from, to, "B_LOCATION_1");
      PrepareParamsGet(p, date, from, to, "E_LOCATION_1");
      forall k | k in Dropped ensures Get(PrepareParams(p, date, from, to), k).None? {
        PrepareParamsGet(p, date, from, to, k);
      }
    }
  }

  /** A search that fetches a fresh key when the shared parameters are not an object, as the
      404 and other error statuses already do, instead of writing into `false`. */
  function SearchRequestRecovering(stop: bool, params: Option<Dict<string>>, from: string, to: string, date: string): Effect
  {
    if !stop && IsAirportCode(to) && params.None? then Mint(Query(date, from, to))
    else SearchRequest(stop, params, from, to, date)
  }

  /** The recovering search never throws: with an object it makes the request `SearchRequest`
      makes, and without one it asks for a new key and retries the same search, which with
      the key's parameters `minted` posts the searched date, origin and destination. */
  lemma RecoveringNeverThrows(stop: bool, params: Option<Dict<string>>, from: string, to: string, date: string,
                              minted: Dict<string>)
    ensures SearchRequestRecovering(stop, params, from, to, date) != Throw
    ensures params.Some? ==> SearchRequestRecovering(stop, params, from, to, date) == SearchRequest(stop, params, from, to, date)
    ensures !stop && IsAirportCode(to) && params.None? ==>
      var retry := Query(date, from, to);
      var after := ParamsAfter(false, Some(minted), retry.from, retry.to, retry.date);
      SearchRequestRecovering(stop, params, from, to, date) == Mint(retry)
      && after.Some? && SearchRequest(false, Some(minted), retry.from, retry.to, retry.date) == Post(Body(after.value))
      && Get(after.value, "B_DATE_1") == Some(date + "0000") && Get(after.value, "B_LOCATION_1") == Some(from)
      && Get(after.value, "E_LOCATION_1") == Some(to)
  {
    SearchRequestPosts(false, Some(minted), from, to, date);
  }

  /** As written, a key mint whose parameters do not parse leaves `false` behind, and the next
      search of an airport code then throws with the search marked as running, so the batch
      stops without a message and the search button stays busy. */
  method MintFailureStallsSearch(b: Batch, retry: Query, next: Query) returns (e: Effect)
    requires b.Valid() && !b.stopSearch && IsAirportCode(next.to)
    modifies b
    ensures b.requestParams.None? && e == Throw && b.searching
  {
    var failed := b.OnMint(MintResult(200, None, None), retry);
    e := b.SearchAvailability(next.from, next.to, next.date);
  }

  /** `rtFrom.length * rtTo.length` */
  function QueryCount(f: Form): (n: nat)
    ensures n >= 1
  {
    var a := |Split(f.from, ',')|;
    var b := |Split(f.to, ',')|;
    MulMonotone(1, a, b);
    a * b
  }

  /** The queries of the saved-queries search: every saved key read as a query, ascending by date. */
  function SavedQueriesInOrder(keys: seq<string>): seq<Query>
  {
    SortByKey(seq(|keys|, i requires 0 <= i < |keys| => QueryStringToQuery(keys[i])), QueryDateKey)
  }

  /** The next date string is never empty, so `bulkDate ||= ...` keeps it. */
  lemma DateAddNonEmpty(n: int, s: string, today: Date)
    requires Calendar.Valid(today)
    ensures DateAdd(n, Some(s), today) != ""
  {
    var base := DateStringToDate(s);
    if base.Some? {
      var d := AddDays(base.value, n);
      assert |YearString(d.year)| >= 1;
    }
  }

  /** `regularSearch`: one route makes a one-way payload, several a multi-city one, none
      nothing at all; once the award search exists the checkpoint is stored with the current
      time and the page leaves for the search. */
  method RegularSearch(ckpt: CheckpointStore, routes: seq<Query>, p: Passengers, cabinClass: string, flags: Cont, now: int)
    returns (payload: Option<Payload>)
    modifies ckpt
    ensures payload == SearchPayload(routes, p, cabinClass)
    ensures payload.Some? <==> |routes| > 0
    ensures payload.Some? ==> ckpt.stored == flags.(ts := now)
    ensures payload.None? ==> ckpt.stored == old(ckpt.stored)
  {
    SearchPayloadSpec(routes, p, cabinClass);
    payload := SearchPayload(routes, p, cabinClass);
    if payload.Some? {
      ckpt.Save(flags, now);
    }
  }

  class Batch {
    var searching: bool
    var stopSearch: bool
    var remainingDays: int
    var bulkDate: string
    var routeChanged: bool
    /** The shared request parameters, updated in place by every search; `None` stands for
        the `false` that a failed key mint leaves in it. */
    var requestParams: Option<Dict<string>>
    var form: Form
    var chain: Chain
    /** The error banner (`batchError`); empty when cleared. */
    var banner: string
    /** The checkpoint this page loaded. */
    const cont: Cont
    const store: Saved

    ghost predicate Valid()
      reads this, store
    {
      store.Valid() && 0 <= remainingDays <= BatchDays
      && (requestParams.Some? ==> DistinctKeys(requestParams.value))
    }

    ghost function St(): State
      reads this
    {
      State(searching, stopSearch, remainingDays, bulkDate, routeChanged, requestParams, form, chain, banner)
    }

    constructor (cont: Cont, store: Saved, form: Form, requestParams: Dict<string>)
      requires store.Valid() && DistinctKeys(requestParams)
      ensures Valid()
      ensures St() == State(false, false, BatchDays, "", false, Some(requestParams), form, NoChain, "")
      ensures this.cont == cont && this.store == store
    {
      this.cont := cont;
      this.store := store;
      this.form := form;
      this.requestParams := Some(requestParams);
      searching := false;
      stopSearch := false;
      remainingDays := BatchDays;
      bulkDate := "";
      routeChanged := false;
      chain := NoChain;
      banner := "";
    }

    /** `resetSearch` */
    method ResetSearch()
      modifies this
      ensures St() == old(St()).(searching := false, remainingDays := BatchDays)
    {
      searching := false;
      remainingDays := BatchDays;
    }

    /** `stopBatch`: asks the chain to stop at its next search and resets the batch. */
    method StopBatch()
      modifies this
      ensures St() == old(St()).(stopSearch := true, searching := false, remainingDays := BatchDays, banner := "")
      ensures bulkDate == old(bulkDate) && chain == old(chain) && form == old(form) && routeChanged == old(routeChanged)
        && requestParams == old(requestParams)
    {
      stopSearch := true;
      ResetSearch();
      banner := "";
    }

    /** The change handler of the origin (`origin`) or destination field, given the field's
        text: the airport check keeps the listed codes and reports the rest (`None` when
        nothing is reported), the checked text becomes the form's field, and the next batch
        starts afresh. */
    method RouteEdited(origin: bool, value: string, airports: set<string>) returns (alert: Option<string>)
      modifies this
      ensures var checked := CheckField(value, KeepListed(airports));
        St() == old(St()).(routeChanged := true,
                           form := if origin then old(form).(from := checked) else old(form).(to := checked))
      ensures alert == Alert(FilterCodes(Split(value, ','), KeepListed(airports)).rejected, false)
      ensures "" !in airports ==>
        FilterCodes(Split(if origin then form.from else form.to, ','), KeepListed(airports)).rejected == []
    {
      var keep := KeepListed(airports);
      var checked := CheckField(value, keep);
      if "" !in airports {
        CheckFieldIdempotent(value, keep);
      }
      alert := Alert(FilterCodes(Split(value, ','), keep).rejected, false);
      if origin {
        form := form.(from := checked);
      } else {
        form := form.(to := checked);
      }
      routeChanged := true;
    }

    /** The change handler of the date field, given its text: a valid date makes the next
        batch start afresh; any other text is refused and the field shows the form's date
        again. Returns the text the field shows afterwards. */
    method DateEdited(value: string, now: int) returns (shown: string)
      modifies this
      ensures IsValidDate(value, now) ==> shown == value && St() == old(St()).(routeChanged := true)
      ensures !IsValidDate(value, now) ==> shown == form.date && St() == old(St())
    {
      if IsValidDate(value, now) {
        routeChanged := true;
        shown := value;
      } else {
        shown := form.date;
      }
    }

    /** `searchAvailability`: a pending stop ends the chain here; a destination that is not an
        airport code goes to the callback as an error page; otherwise the shared parameters
        are prepared and posted, unless a failed key mint left `false` in them, on which the
        first assignment throws with the search marked as running. */
    method SearchAvailability(from: string, to: string, date: string) returns (e: Effect)
      requires Valid()
      modifies this
      ensures Valid()
      ensures e == SearchRequest(old(stopSearch), old(requestParams), from, to, date)
      ensures requestParams == ParamsAfter(old(stopSearch), old(requestParams), from, to, date)
      ensures !stopSearch && searching == !old(stopSearch)
      // the batch's own fields are left alone in every case
      ensures remainingDays == old(remainingDays) && bulkDate == old(bulkDate) && chain == old(chain)
        && form == old(form) && routeChanged == old(routeChanged) && banner == old(banner)
    {
      if stopSearch {
        stopSearch := false;
        searching := false;
        return Idle;
      }
      searching := true;
      if !IsAirportCode(to) {
        return Invoke(InvalidCodePage);
      }
      if requestParams.None? {
        return Throw;
      }
      var prepared := PrepareParams(requestParams.value, date, from, to);
      PrepareParamsDistinct(requestParams.value, date, from, to);
      requestParams := Some(prepared);
      e := Post(Body(prepared));
    }

    /** The response handler of `searchAvailability` for the search of `request`: a 200 with
        a JSON body goes to the callback, a 200 without one stops with a message, a 200 whose
        `pageBom` does not parse throws with the banner cleared, a 404 or any other status from
        300 up fetches a new key and searches again, anything else does nothing. */
    method OnResponse(resp: Response, request: Query) returns (e: Effect)
      modifies this
      ensures resp.status == 200 && resp.json && resp.page.Some? ==> e == Invoke(resp.page.value) && St() == old(St()).(banner := "")
      ensures resp.status == 200 && resp.json && resp.page.None? ==> e == Throw && St() == old(St()).(banner := "")
      ensures resp.status == 200 && !resp.json ==> e == Idle && St() == old(St()).(banner := NotJson)
      ensures resp.status == 404 ==> e == Mint(request) && St() == old(St()).(banner := KeyExhausted)
      ensures resp.status >= 300 && resp.status != 404 ==> e == Mint(request) && St() == old(St()).(banner := GettingKey)
      ensures resp.status != 200 && resp.status < 300 ==> e == Idle && St() == old(St())
    {
      if resp.status == 200 {
        banner := "";
        if !resp.json {
          banner := NotJson;
          return Idle;
        }
        if resp.page.None? {
          return Throw;
        }
        return Invoke(resp.page.value);
      } else if resp.status == 404 {
        banner := KeyExhausted;
        return Mint(request);
      } else if resp.status >= 300 {
        banner := GettingKey;
        return Mint(request);
      }
      return Idle;
    }

    /** `newTabID(searchAgain)` once its second response is in: parameters that parse to a
        non-empty object replace the shared ones and the search is retried; otherwise the
        batch is reset with the error message and the callback is never called. On a 200 the
        parse result replaces the shared parameters even when it fails (`false`, here `None`). */
    method OnMint(result: MintResult, retry: Query) returns (e: Effect)
      requires Valid()
      requires result.params.Some? ==> DistinctKeys(result.params.value)
      modifies this
      ensures Valid()
      ensures var ok := result.status == 200 && result.params.Some? && |result.params.value| > 0;
        !ok ==>
          e == Idle
          && St() == old(St()).(searching := false, remainingDays := BatchDays, banner := TabErrorMessage(result.error),
                                requestParams := if result.status == 200 then result.params else old(requestParams))
      ensures var ok := result.status == 200 && result.params.Some? && |result.params.value| > 0;
        ok ==>
          e == SearchRequest(old(stopSearch), result.params, retry.from, retry.to, retry.date)
          && St() == old(St()).(banner := "", stopSearch := false, searching := !old(stopSearch),
                                requestParams := ParamsAfter(old(stopSearch), result.params, retry.from, retry.to, retry.date))
    {
      if result.status == 200 {
        requestParams := result.params;
        if result.params.None? || |result.params.value| == 0 {
          banner := TabErrorMessage(result.error);
          ResetSearch();
          return Idle;
        }
        banner := "";
        e := SearchAvailability(retry.from, retry.to, retry.date);
      } else {
        ResetSearch();
        banner := TabErrorMessage(result.error);
        e := Idle;
      }
    }

    /** `bulkSearch`: spends a day of the quota (stopping the batch when none is left), leaves
        for the search page when this page was not reached by our search, otherwise expands
        the routes, clamps the days left to the quota and searches the first route. */
    method BulkSearch(singleDate: bool) returns (e: Effect)
      requires Valid()
      modifies this
      ensures Valid()
      ensures old(remainingDays) == 0 ==> remainingDays == BatchDays && (cont.query ==> e == Idle && !searching && !stopSearch)
      ensures old(remainingDays) > 0 && cont.query ==>
        remainingDays == ClampDays(old(remainingDays) - 1, QueryCount(form)) && remainingDays < old(remainingDays)
      ensures old(remainingDays) > 0 && !cont.query ==> remainingDays == old(remainingDays) - 1
      ensures !cont.query ==>
        e == Navigate(QueryPayload(Query(form.date, Substring(form.from, 0, 3), Substring(form.to, 0, 3)), form.passengers, "Y"),
                      Cont(true, true, false, 0))
        && bulkDate == old(bulkDate) && chain == old(chain) && requestParams == old(requestParams)
        && searching == (old(searching) && old(remainingDays) > 0) && stopSearch == (old(stopSearch) || old(remainingDays) == 0)
      ensures cont.query ==>
        chain.BulkChain? && chain.singleDate == singleDate && [chain.route] + chain.routes == FormRoutes(form)
        && bulkDate == (if old(bulkDate) == "" then form.date else old(bulkDate))
      // the first route is searched, unless a stop is pending or the days have run out
      ensures cont.query ==>
        var stop := old(stopSearch) || old(remainingDays) == 0;
        e == SearchRequest(stop, old(requestParams), chain.route.from, chain.route.to, bulkDate)
        && requestParams == ParamsAfter(stop, old(requestParams), chain.route.from, chain.route.to, bulkDate)
        && searching == !stop && !stopSearch
      ensures banner == (if old(remainingDays) == 0 then "" else old(banner))
      ensures form == old(form) && routeChanged == old(routeChanged)
    {
      var noContinue := false;
      if remainingDays == 0 {
        StopBatch();
        noContinue := true;
      } else {
        remainingDays := remainingDays - 1;
      }
      if !cont.query {
        var q := Query(form.date, Substring(form.from, 0, 3), Substring(form.to, 0, 3));
        return Navigate(QueryPayload(q, form.passengers, "Y"), Cont(true, true, false, 0));
      }
      e := SearchDate(singleDate, !noContinue);
    }

    /** The rest of `bulkSearch` on a page reached by our search: the date defaults to the
        form's, the days left are clamped to the quota (`clamp`: unless the batch just ran
        out), the routes are expanded and the first one is searched. */
    method SearchDate(singleDate: bool, clamp: bool) returns (e: Effect)
      requires Valid()
      modifies this
      ensures Valid()
      ensures bulkDate == (if old(bulkDate) == "" then form.date else old(bulkDate))
      ensures remainingDays == if clamp then ClampDays(old(remainingDays), QueryCount(form)) else old(remainingDays)
      ensures chain.BulkChain? && chain.singleDate == singleDate && [chain.route] + chain.routes == FormRoutes(form)
      ensures e == SearchRequest(old(stopSearch), old(requestParams), chain.route.from, chain.route.to, bulkDate)
      ensures requestParams == ParamsAfter(old(stopSearch), old(requestParams), chain.route.from, chain.route.to, bulkDate)
      ensures !stopSearch && searching == !old(stopSearch)
      ensures form == old(form) && routeChanged == old(routeChanged) && banner == old(banner)
    {
      if bulkDate == "" {
        bulkDate := form.date;
      }
      var froms := Split(form.from, ',');
      var tos := Split(form.to, ',');
      var queryCount := QueryCount(form);
      if clamp {
        remainingDays := ClampDays(remainingDays, queryCount);
      }
      var routes := Cartesian(froms, tos);
      FormRoutesSplit(form);
      var first := routes[0];
      chain := BulkChain(singleDate, routes[1..], first);
      ghost var stop, params := stopSearch, requestParams;
      e := SearchAvailability(first.from, first.to, bulkDate);
      assert e == SearchRequest(stop, params, first.from, first.to, bulkDate);
    }

    /** `bulkClick`: stops a running batch; otherwise reads the form, starts over from the
        form's date after an edit, and runs `bulkSearch`. */
    method BulkClick(singleDate: bool, input: Form) returns (e: Effect)
      requires Valid()
      modifies this
      ensures Valid()
      ensures old(searching) ==>
        e == Idle && St() == old(St()).(stopSearch := true, searching := false, remainingDays := BatchDays, banner := "")
      ensures !old(searching) ==> form == input && !routeChanged
      ensures !old(searching) && cont.query ==>
        bulkDate == (if old(routeChanged) || old(bulkDate) == "" then input.date else old(bulkDate))
        && chain.BulkChain? && chain.singleDate == singleDate && [chain.route] + chain.routes == FormRoutes(input)
      ensures !old(searching) && cont.query ==>
        var stop := old(stopSearch) || old(remainingDays) == 0;
        e == SearchRequest(stop, old(requestParams), chain.route.from, chain.route.to, bulkDate)
        && requestParams == ParamsAfter(stop, old(requestParams), chain.route.from, chain.route.to, bulkDate)
      ensures !old(searching) && !cont.query ==>
        e == Navigate(QueryPayload(Query(input.date, Substring(input.from, 0, 3), Substring(input.to, 0, 3)), input.passengers, "Y"),
                      Cont(true, true, false, 0))
        && bulkDate == (if old(routeChanged) then input.date else old(bulkDate))
    {
      if searching {
        StopBatch();
        return Idle;
      }
      form := input;
      if routeChanged {
        bulkDate := input.date;
        routeChanged := false;
      }
      e := BulkSearch(singleDate);
    }

    /** `savedSearch`: searches every saved query, ascending by date, one at a time; from a
        page not reached by our search it first leaves for the search page with the earliest.
        With nothing saved the first query is `undefined` and the search throws. */
    method SavedSearch() returns (e: Effect)
      requires Valid()
      modifies this
      ensures Valid()
      ensures store.queries == [] ==> e == Throw && St() == old(St()).(routeChanged := old(routeChanged) || cont.query)
      ensures store.queries != [] && !cont.query ==>
        e == Navigate(QueryPayload(SavedQueriesInOrder(store.queries)[0], Passengers(1, 0), "Y"), Cont(false, true, true, 0))
        && St() == old(St())
      ensures store.queries != [] && cont.query ==>
        chain.SavedChain? && [chain.query] + chain.queries == SavedQueriesInOrder(store.queries)
        && e == SearchRequest(old(stopSearch), old(requestParams), chain.query.from, chain.query.to, chain.query.date)
        && requestParams == ParamsAfter(old(stopSearch), old(requestParams), chain.query.from, chain.query.to, chain.query.date)
        && routeChanged && !stopSearch && searching == !old(stopSearch)
      ensures remainingDays == old(remainingDays) && bulkDate == old(bulkDate) && form == old(form) && banner == old(banner)
    {
      var toSearch := SavedQueriesInOrder(store.queries);
      if toSearch == [] {
        // `ssQuery` is undefined, and reading its fields throws
        if cont.query {
          routeChanged := true;
        }
        return Throw;
      }
      var first := toSearch[0];
      if !cont.query {
        return Navigate(QueryPayload(first, Passengers(1, 0), "Y"), Cont(false, true, true, 0));
      }
      assert [first] + toSearch[1..] == toSearch;
      e := StartQueries(toSearch);
    }

    /** The end of `savedSearch` on a page reached by our search: the results table is to be
        cleared, and the first of `toSearch` is searched with the rest to follow. */
    method StartQueries(toSearch: seq<Query>) returns (e: Effect)
      requires Valid() && toSearch != []
      modifies this
      ensures Valid()
      ensures chain == SavedChain(toSearch[1..], toSearch[0])
      ensures e == SearchRequest(old(stopSearch), old(requestParams), toSearch[0].from, toSearch[0].to, toSearch[0].date)
      ensures requestParams == ParamsAfter(old(stopSearch), old(requestParams), toSearch[0].from, toSearch[0].to, toSearch[0].date)
      ensures routeChanged && !stopSearch && searching == !old(stopSearch)
      ensures remainingDays == old(remainingDays) && bulkDate == old(bulkDate) && form == old(form) && banner == old(banner)
    {
      var first := toSearch[0];
      routeChanged := true;
      chain := SavedChain(toSearch[1..], first);
      e := SearchAvailability(first.from, first.to, first.date);
    }

    /** The callback of the chain in progress, given the page of the search just made: the
        results are inserted, then the next route of the same date is searched; after the last
        route the date moves on by one day and `bulkSearch` runs again (stopping first for a
        single-date search). The saved-queries chain searches its next query, and after the last
        one stops the batch and clears the stop request. */
    method Callback(page: PageBom, now: int, today: Date) returns (e: Effect, listed: seq<FlightOutcome>)
      requires Valid() && !chain.NoChain? && Calendar.Valid(today)
      modifies this, store
      ensures Valid()
      ensures store.queries == old(store.queries)
      ensures old(chain).BulkChain? && page.Availability? ==>
        store.flights == RefreshAll(old(store.flights), old(bulkDate), old(chain).route.from, old(chain).route.to, page.flights, |page.flights|, now)
        && listed == Listed(old(bulkDate), old(chain).route.from, old(chain).route.to, page.flights, |page.flights|)
      ensures old(chain).SavedChain? && page.Availability? ==>
        store.flights == RefreshAll(old(store.flights), old(chain).query.date, old(chain).query.from, old(chain).query.to, page.flights, |page.flights|, now)
        && listed == Listed(old(chain).query.date, old(chain).query.from, old(chain).query.to, page.flights, |page.flights|)
      ensures page.ErrorBom? ==> store.flights == old(store.flights) && listed == []
      ensures form == old(form)
      // the next route of the same date
      ensures old(chain).BulkChain? && old(chain).routes != [] ==>
        var next := old(chain).routes[0];
        bulkDate == old(bulkDate) && chain == BulkChain(old(chain).singleDate, old(chain).routes[1..], next)
        && e == SearchRequest(old(stopSearch), old(requestParams), next.from, next.to, old(bulkDate))
        && requestParams == ParamsAfter(old(stopSearch), old(requestParams), next.from, next.to, old(bulkDate))
      // after the last route, `bulkSearch` on the next date (a single-date search stops first)
      ensures old(chain).BulkChain? && old(chain).routes == [] && cont.query ==>
        var stop := old(chain).singleDate || old(stopSearch) || old(remainingDays) == 0;
        bulkDate == DateAdd(1, Some(old(bulkDate)), today)
        && chain.BulkChain? && !chain.singleDate && [chain.route] + chain.routes == FormRoutes(form)
        && e == SearchRequest(stop, old(requestParams), chain.route.from, chain.route.to, bulkDate)
        && requestParams == ParamsAfter(stop, old(requestParams), chain.route.from, chain.route.to, bulkDate)
      ensures old(chain).BulkChain? && old(chain).routes == [] && !cont.query ==>
        e == Navigate(QueryPayload(Query(form.date, Substring(form.from, 0, 3), Substring(form.to, 0, 3)), form.passengers, "Y"),
                      Cont(true, true, false, 0))
      // the next saved query
      ensures old(chain).SavedChain? && old(chain).queries != [] ==>
        var next := old(chain).queries[0];
        chain == SavedChain(old(chain).queries[1..], next)
        && e == SearchRequest(old(stopSearch), old(requestParams), next.from, next.to, next.date)
        && requestParams == ParamsAfter(old(stopSearch), old(requestParams), next.from, next.to, next.date)
      ensures old(chain).SavedChain? && old(chain).queries == [] ==>
        e == Idle && !searching && !stopSearch && remainingDays == BatchDays && requestParams == old(requestParams)
    {
      if chain.BulkChain? {
        e, listed := NextRoute(page, now, today);
      } else {
        e, listed := NextQuery(page, now);
      }
    }

    /** `populateNextRoute`, the callback of `bulkSearch`. */
    method NextRoute(page: PageBom, now: int, today: Date) returns (e: Effect, listed: seq<FlightOutcome>)
      requires Valid() && chain.BulkChain? && Calendar.Valid(today)
      modifies this, store
      ensures Valid()
      ensures store.queries == old(store.queries)
      ensures page.Availability? ==>
        store.flights == RefreshAll(old(store.flights), old(bulkDate), old(chain).route.from, old(chain).route.to, page.flights, |page.flights|, now)
        && listed == Listed(old(bulkDate), old(chain).route.from, old(chain).route.to, page.flights, |page.flights|)
      ensures page.ErrorBom? ==> store.flights == old(store.flights) && listed == []
      ensures form == old(form)
      ensures old(chain).routes != [] ==>
        var next := old(chain).routes[0];
        bulkDate == old(bulkDate) && chain == BulkChain(old(chain).singleDate, old(chain).routes[1..], next)
        && e == SearchRequest(old(stopSearch), old(requestParams), next.from, next.to, old(bulkDate))
        && requestParams == ParamsAfter(old(stopSearch), old(requestParams), next.from, next.to, old(bulkDate))
      ensures old(chain).routes == [] && cont.query ==>
        var stop := old(chain).singleDate || old(stopSearch) || old(remainingDays) == 0;
        bulkDate == DateAdd(1, Some(old(bulkDate)), today)
        && chain.BulkChain? && !chain.singleDate && [chain.route] + chain.routes == FormRoutes(form)
        && e == SearchRequest(stop, old(requestParams), chain.route.from, chain.route.to, bulkDate)
        && requestParams == ParamsAfter(stop, old(requestParams), chain.route.from, chain.route.to, bulkDate)
      ensures old(chain).routes == [] && !cont.query ==>
        e == Navigate(QueryPayload(Query(form.date, Substring(form.from, 0, 3), Substring(form.to, 0, 3)), form.passengers, "Y"),
                      Cont(true, true, false, 0))
    {
      var BulkChain(singleDate, routes, route) := chain;
      listed := InsertResults(store, bulkDate, route.from, route.to, page, now);
      if routes != [] {
        chain := BulkChain(singleDate, routes[1..], routes[0]);
        e := SearchAvailability(routes[0].from, routes[0].to, bulkDate);
      } else {
        DateAddNonEmpty(1, bulkDate, today);
        bulkDate := DateAdd(1, Some(bulkDate), today);
        if singleDate {
          StopBatch();
        }
        e := BulkSearch(false);
      }
    }

    /** `populateNextQuery`, the callback of `savedSearch`: after the last query the batch is
        stopped and the stop request cleared again. */
    method NextQuery(page: PageBom, now: int) returns (e: Effect, listed: seq<FlightOutcome>)
      requires Valid() && chain.SavedChain?
      modifies this, store
      ensures Valid()
      ensures store.queries == old(store.queries)
      ensures page.Availability? ==>
        store.flights == RefreshAll(old(store.flights), old(chain).query.date, old(chain).query.from, old(chain).query.to, page.flights, |page.flights|, now)
        && listed == Listed(old(chain).query.date, old(chain).query.from, old(chain).query.to, page.flights, |page.flights|)
      ensures page.ErrorBom? ==> store.flights == old(store.flights) && listed == []
      ensures form == old(form)
      ensures old(chain).queries != [] ==>
        var next := old(chain).queries[0];
        chain == SavedChain(old(chain).queries[1..], next)
        && e == SearchRequest(old(stopSearch), old(requestParams), next.from, next.to, next.date)
        && requestParams == ParamsAfter(old(stopSearch), old(requestParams), next.from, next.to, next.date)
      ensures old(chain).queries == [] ==>
        e == Idle && !searching && !stopSearch && remainingDays == BatchDays && requestParams == old(requestParams)
    {
      var SavedChain(queries, query) := chain;
      listed := InsertResults(store, query.date, query.from, query.to, page, now);
      if queries != [] {
        chain := SavedChain(queries[1..], queries[0]);
        e := SearchAvailability(queries[0].from, queries[0].to, queries[0].date);
      } else {
        StopBatch();
        stopSearch := false;
        e := Idle;
      }
    }

    /** The search a fresh checkpoint resumes. */
    method Resume(r: Resume, input: Form) returns (e: Effect)
      requires Valid()
      modifies this
      ensures Valid()
      ensures r == NoResume ==> e == Idle && St() == old(St())
      ensures r == ResumeSaved && store.queries == [] ==>
        e == Throw && St() == old(St()).(routeChanged := old(routeChanged) || cont.query)
      ensures r == ResumeSaved && store.queries != [] && !cont.query ==>
        e == Navigate(QueryPayload(SavedQueriesInOrder(store.queries)[0], Passengers(1, 0), "Y"), Cont(false, true, true, 0))
      ensures r == ResumeSaved && store.queries != [] && cont.query ==>
        chain.SavedChain? && [chain.query] + chain.queries == SavedQueriesInOrder(store.queries)
        && e == SearchRequest(old(stopSearch), old(requestParams), chain.query.from, chain.query.to, chain.query.date)
      ensures r.ResumeBulk? && old(searching) ==> e == Idle && !searching && stopSearch
      ensures r.ResumeBulk? && !old(searching) ==> form == input
      ensures r.ResumeBulk? && !old(searching) && cont.query ==>
        chain.BulkChain? && chain.singleDate == r.singleDate && [chain.route] + chain.routes == FormRoutes(input)
        && e == SearchRequest(old(stopSearch) || old(remainingDays) == 0, old(requestParams), chain.route.from, chain.route.to, bulkDate)
      ensures r.ResumeBulk? && !old(searching) && !cont.query ==>
        e == Navigate(QueryPayload(Query(input.date, Substring(input.from, 0, 3), Substring(input.to, 0, 3)), input.passengers, "Y"),
                      Cont(true, true, false, 0))
    {
      match r {
        case NoResume => e := Idle;
        case ResumeSaved => e := SavedSearch();
        case ResumeBulk(singleDate) => e := BulkClick(singleDate, input);
      }
    }

    /** The end of `initSearchBox`: the saved lists are pruned, and a checkpoint left by our
        search is cleared and, when fresh, resumes the saved-queries search or a batch. */
    method InitSearchBox(ckpt: CheckpointStore, now: int, input: Form) returns (e: Effect)
      requires Valid()
      modifies this, store, ckpt
      ensures Valid()
      ensures store.queries == KeepQueries(old(store.queries), now)
      ensures store.flights == KeepFlights(old(store.flights), now)
      ensures cont.query ==> ckpt.stored == Default
      ensures Decide(cont, now, false) == NoResume ==> e == Idle && St() == old(St())
      ensures Decide(cont, now, false) == ResumeSaved && store.queries == [] ==> e == Throw
      ensures Decide(cont, now, false) == ResumeSaved && store.queries != [] ==>
        chain.SavedChain? && [chain.query] + chain.queries == SavedQueriesInOrder(store.queries)
        && e == SearchRequest(old(stopSearch), old(requestParams), chain.query.from, chain.query.to, chain.query.date)
      ensures Decide(cont, now, false).ResumeBulk? && !old(searching) ==>
        form == input && chain.BulkChain? && chain.singleDate == !cont.batch && [chain.route] + chain.routes == FormRoutes(input)
        && e == SearchRequest(old(stopSearch) || old(remainingDays) == 0, old(requestParams), chain.route.from, chain.route.to, bulkDate)
    {
      var list1, n2 := store.UpdateSavedCount(now);
      var list2, n3 := store.UpdateSavedFlights(now);
      var r := ckpt.Consume(cont, now);
      e := Resume(r, input);
    }
  }
}
