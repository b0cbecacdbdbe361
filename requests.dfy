/** The pure request-building parts of the search: award-creation payloads, the
    availability form body, the shared request parameters prepared for one search,
    the day quota, the route list of a batch and the tab-key error message. */
module Requests {
  import opened Text
  import opened Dict
  import opened DateStrings

  // ---------------------------------------------------------------
  // Award-creation payloads
  // ---------------------------------------------------------------

  datatype Passengers = Passengers(adults: int, children: int)

  /** `recent_search=ow` or `recent_search=mc` in the payload's return addresses. */
  datatype TripKind = OneWay | MultiCity

  /** The fields of a payload that depend on the search (the rest is constant text). */
  datatype Payload = Payload(kind: TripKind, cabinClass: string, numAdult: int, numChild: int, segments: seq<Segment>)

  /** `newQueryPayload`: a one-way search of one route. */
  function QueryPayload(route: Query, p: Passengers, cabinClass: string): (r: Payload)
    ensures r.kind == OneWay && r.segments == [QueryToSegment(route)]
    ensures r.numAdult == p.adults && r.numChild == p.children && r.cabinClass == cabinClass
  {
    Payload(OneWay, cabinClass, p.adults, p.children, [QueryToSegment(route)])
  }

  /** `newMultiPayload`: a multi-city search, one segment per route in the given order. */
  function MultiPayload(routes: seq<Query>, p: Passengers, cabinClass: string): (r: Payload)
    ensures r.kind == MultiCity && |r.segments| == |routes|
    ensures forall i :: 0 <= i < |routes| ==> r.segments[i] == QueryToSegment(routes[i])
    ensures r.numAdult == p.adults && r.numChild == p.children && r.cabinClass == cabinClass
  {
    Payload(MultiCity, cabinClass, p.adults, p.children, seq(|routes|, i requires 0 <= i < |routes| => QueryToSegment(routes[i])))
  }

  /** The payload `regularSearch` posts: none for no route, a one-way payload for one,
      a multi-city payload for several. */
  function SearchPayload(routes: seq<Query>, p: Passengers, cabinClass: string): Option<Payload>
  {
    if |routes| == 1 then Some(QueryPayload(routes[0], p, cabinClass))
    else if |routes| > 0 then Some(MultiPayload(routes, p, cabinClass))
    else None
  }

  /** There is a request exactly when there is a route; its segments are the routes in input
      order, and it is one-way exactly for a single route. */
  lemma SearchPayloadSpec(routes: seq<Query>, p: Passengers, cabinClass: string)
    ensures SearchPayload(routes, p, cabinClass).Some? <==> |routes| > 0
    ensures SearchPayload(routes, p, cabinClass).Some? ==>
      var r := SearchPayload(routes, p, cabinClass).value;
      |r.segments| == |routes|
      && (forall i :: 0 <= i < |routes| ==> r.segments[i] == QueryToSegment(routes[i]))
      && (r.kind == OneWay <==> |routes| == 1)
  {
  }

  // ---------------------------------------------------------------
  // The availability form body
  // ---------------------------------------------------------------

  /** One `key=value` field. */
  function Field(e: (string, string)): string
  {
    e.0 + "=" + e.1
  }

  /** The body posted for a search: the entries as `key=value` joined by `&`, in insertion
      order, with nothing encoded. */
  function Body(params: Dict<string>): string
  {
    Join(seq(|params|, i requires 0 <= i < |params| => Field(params[i])), "&")
  }

  /** Splits a field at its first `=`. */
  function SplitField(s: string): (string, string)
  {
    if s == [] then ("", "")
    else if s[0] == '=' then ("", s[1..])
    else
      var kv := SplitField(s[1..]);
      ([s[0]] + kv.0, kv.1)
  }

  /** Reads a body back into its entries. */
  function ParseBody(body: string): Dict<string>
  {
    if body == "" then []
    else
      var fields := Split(body, '&');
      seq(|fields|, i requires 0 <= i < |fields| => SplitField(fields[i]))
  }

  lemma {:induction false} SplitFieldAt(k: string, v: string)
    requires '=' !in k
    ensures SplitField(Field((k, v))) == (k, v)
    decreases |k|
  {
    if k == [] {
      assert Field((k, v)) == ['='] + v;
    } else {
      var f := Field((k, v));
      assert k[0] != '=' by { assert k[0] in k; }
      assert f[0] == k[0];
      assert f[1..] == Field((k[1..], v));
      SplitFieldAt(k[1..], v);
      assert [k[0]] + k[1..] == k;
    }
  }

  /** Without `&` in any key or value, without `=` in any key and with a first key that is not
      empty, the body reads back as the parameters. */
  lemma BodyRoundTrip(params: Dict<string>)
    requires forall i :: 0 <= i < |params| ==> '&' !in params[i].0 && '&' !in params[i].1 && '=' !in params[i].0
    requires |params| > 0 ==> params[0].0 != ""
    ensures ParseBody(Body(params)) == params
  {
    var fields := seq(|params|, i requires 0 <= i < |params| => Field(params[i]));
    if |params| > 0 {
      forall i | 0 <= i < |fields| ensures '&' !in fields[i] {
        assert fields[i] == params[i].0 + "=" + params[i].1;
      }
      SplitJoin(fields, '&');
      assert Body(params) != "" by {
        assert Join(fields, "&")[0] == fields[0][0] by {
          if |fields| > 1 {
            assert Join(fields, "&") == fields[0] + "&" + Join(fields[1..], "&");
          }
        }
      }
      forall i | 0 <= i < |params| ensures SplitField(fields[i]) == params[i] {
        SplitFieldAt(params[i].0, params[i].1);
      }
    }
  }

  // ---------------------------------------------------------------
  // The request parameters of one search
  // ---------------------------------------------------------------

  /** The parameters `searchAvailability` removes before posting. */
  const Dropped: seq<string> := ["ENCT", "SERVICE_ID", "DIRECT_LOGIN", "ENC"]

  /** `searchAvailability` sets the date (with `0000` appended), origin and destination on the
      shared parameters and deletes the four dropped ones. */
  function PrepareParams(rp: Dict<string>, date: string, from: string, to: string): Dict<string>
  {
    var set3 := Put(Put(Put(rp, "B_DATE_1", date + "0000"), "B_LOCATION_1", from), "E_LOCATION_1", to);
    Remove(Remove(Remove(Remove(set3, "ENCT"), "SERVICE_ID"), "DIRECT_LOGIN"), "ENC")
  }

  /** The date, origin and destination read as set, the dropped keys are absent, every other
      key reads as before. */
  lemma PrepareParamsGet(rp: Dict<string>, date: string, from: string, to: string, k: string)
    ensures Get(PrepareParams(rp, date, from, to), k) ==
      if k in Dropped then None
      else if k == "E_LOCATION_1" then Some(to)
      else if k == "B_LOCATION_1" then Some(from)
      else if k == "B_DATE_1" then Some(date + "0000")
      else Get(rp, k)
  {
    var p1 := Put(rp, "B_DATE_1", date + "0000");
    var p2 := Put(p1, "B_LOCATION_1", from);
    var p3 := Put(p2, "E_LOCATION_1", to);
    var r1 := Remove(p3, "ENCT");
    var r2 := Remove(r1, "SERVICE_ID");
    var r3 := Remove(r2, "DIRECT_LOGIN");
    GetRemove(p3, "ENCT", k);
    GetRemove(r1, "SERVICE_ID", k);
    GetRemove(r2, "DIRECT_LOGIN", k);
    GetRemove(r3, "ENC", k);
    GetPut(rp, "B_DATE_1", date + "0000", k);
    GetPut(p1, "B_LOCATION_1", from, k);
    GetPut(p2, "E_LOCATION_1", to, k);
  }

  /** Preparing keeps every key once. */
  lemma PrepareParamsDistinct(rp: Dict<string>, date: string, from: string, to: string)
    requires DistinctKeys(rp)
    ensures DistinctKeys(PrepareParams(rp, date, from, to))
  {
    var p1 := Put(rp, "B_DATE_1", date + "0000");
    var p2 := Put(p1, "B_LOCATION_1", from);
    var p3 := Put(p2, "E_LOCATION_1", to);
    var r1 := Remove(p3, "ENCT");
    var r2 := Remove(r1, "SERVICE_ID");
    var r3 := Remove(r2, "DIRECT_LOGIN");
    DistinctPut(rp, "B_DATE_1", date + "0000");
    DistinctPut(p1, "B_LOCATION_1", from);
    DistinctPut(p2, "E_LOCATION_1", to);
    DistinctRemove(p3, "ENCT");
    DistinctRemove(r1, "SERVICE_ID");
    DistinctRemove(r2, "DIRECT_LOGIN");
    DistinctRemove(r3, "ENC");
  }

  // ---------------------------------------------------------------
  // The day quota
  // ---------------------------------------------------------------

  /** `Math.ceil(a / b)` for positive `b`. */
  function CeilDiv(a: nat, b: nat): (c: nat)
    requires b > 0
    ensures a >= 1 ==> c >= 1
  {
    (a + b - 1) / b
  }

  /** The ceiling is the least multiple count covering `a`. */
  lemma CeilDivSpec(a: nat, b: nat)
    requires b > 0
    ensures CeilDiv(a, b) * b >= a
    ensures (CeilDiv(a, b) - 1) * b < a
  {
    var q := (a + b - 1) / b;
    var r := (a + b - 1) % b;
    assert q * b + r == a + b - 1;
    assert (q - 1) * b == q * b - b;
  }

  /** The requests a batch may spend before it stops. */
  const QuotaRequests := 25

  /** The clamp `bulkSearch` applies to the days left: never more than
      `ceil(25 / queryCount) - 1` once over `ceil(25 / queryCount)`. */
  function ClampDays(days: int, queryCount: nat): (r: int)
    requires queryCount > 0
    ensures r <= days
    ensures r <= CeilDiv(QuotaRequests, queryCount)
    ensures days > CeilDiv(QuotaRequests, queryCount) ==> r == CeilDiv(QuotaRequests, queryCount) - 1
    ensures days >= 0 ==> r >= 0
  {
    if days > CeilDiv(QuotaRequests, queryCount) then CeilDiv(QuotaRequests, queryCount) - 1 else days
  }

  /** A clamped batch of `queryCount` routes a day stops once the quota is covered:
      the days it may still search cover the quota, and one fewer would not. */
  lemma ClampCoversQuota(days: int, queryCount: nat)
    requires queryCount > 0 && days > CeilDiv(QuotaRequests, queryCount)
    ensures (ClampDays(days, queryCount) + 1) * queryCount >= QuotaRequests
    ensures ClampDays(days, queryCount) * queryCount < QuotaRequests
  {
    CeilDivSpec(QuotaRequests, queryCount);
  }

  // ---------------------------------------------------------------
  // The routes of a batch
  // ---------------------------------------------------------------

  datatype Route = Route(from: string, to: string)

  /** The routes from one origin to every destination, in destination order. */
  function Row(from: string, tos: seq<string>): (r: seq<Route>)
    ensures |r| == |tos|
    ensures forall j :: 0 <= j < |tos| ==> r[j] == Route(from, tos[j])
  {
    seq(|tos|, j requires 0 <= j < |tos| => Route(from, tos[j]))
  }

  /** Every origin with every destination, origin-major. */
  function Product(froms: seq<string>, tos: seq<string>): seq<Route>
    decreases |froms|
  {
    if froms == [] then [] else Product(froms[..|froms| - 1], tos) + Row(froms[|froms| - 1], tos)
  }

  lemma {:induction false} ProductLength(froms: seq<string>, tos: seq<string>)
    ensures |Product(froms, tos)| == |froms| * |tos|
    decreases |froms|
  {
    if froms != [] {
      var n := |froms| - 1;
      ProductLength(froms[..n], tos);
      MulSucc(n, |tos|);
    }
  }

  /** The route from the `i`th origin to the `j`th destination sits at `i * |tos| + j`. */
  lemma {:induction false} ProductAt(froms: seq<string>, tos: seq<string>, i: nat, j: nat)
    requires i < |froms| && j < |tos|
    ensures i * |tos| + j < |Product(froms, tos)|
    ensures Product(froms, tos)[i * |tos| + j] == Route(froms[i], tos[j])
    decreases |froms|
  {
    var n := |froms| - 1;
    var init := froms[..n];
    var t := |tos|;
    ProductLength(init, tos);
    ProductLength(froms, tos);
    MulSucc(i, t);
    MulSucc(n, t);
    if i < n {
      ProductAt(init, tos, i, j);
      MulMonotone(i + 1, n, t);
      assert init[i] == froms[i];
    } else {
      assert i * t == |Product(init, tos)|;
    }
  }

  lemma MulSucc(a: nat, b: nat)
    ensures (a + 1) * b == a * b + b
  {
  }

  lemma MulMonotone(a: nat, b: nat, c: nat)
    requires a <= b
    ensures a * c <= b * c
  {
  }

  /** A route is in the product exactly when its origin and destination are listed. */
  lemma {:induction false} ProductMembers(froms: seq<string>, tos: seq<string>, r: Route)
    ensures r in Product(froms, tos) <==> r.from in froms && r.to in tos
    decreases |froms|
  {
    if froms != [] {
      var n := |froms| - 1;
      ProductMembers(froms[..n], tos, r);
      assert froms == froms[..n] + [froms[n]];
      if r.from == froms[n] && r.to in tos {
        var j :| 0 <= j < |tos| && tos[j] == r.to;
        assert Row(froms[n], tos)[j] == r;
      }
    }
  }

  /** `rtFrom.forEach(from => rtTo.forEach(to => routes.push({ from, to })))` */
  method Cartesian(froms: seq<string>, tos: seq<string>) returns (routes: seq<Route>)
    ensures routes == Product(froms, tos)
  {
    routes := [];
    var i := 0;
    while i < |froms|
      invariant 0 <= i <= |froms|
      invariant routes == Product(froms[..i], tos)
    {
      var j := 0;
      while j < |tos|
        invariant 0 <= j <= |tos|
        invariant routes == Product(froms[..i], tos) + Row(froms[i], tos[..j])
      {
        assert Row(froms[i], tos[..j + 1]) == Row(froms[i], tos[..j]) + [Route(froms[i], tos[j])];
        routes := routes + [Route(froms[i], tos[j])];
        j := j + 1;
      }
      assert tos[..j] == tos;
      assert froms[..i + 1][..i] == froms[..i];
      i := i + 1;
    }
    assert froms[..i] == froms;
  }

  // ---------------------------------------------------------------
  // Tab-key errors
  // ---------------------------------------------------------------

  /** The error page's `modelObject`: its step and the first message's `subText`, if any. */
  datatype ErrorPage = ErrorPage(step: string, subText: Option<string>)

  /** The language entry shown when the tab key cannot be read (`tab_retrieve_fail`). */
  const TabRetrieveFail := "tab_retrieve_fail"

  /** `errorBom?.modelObject?.step === 'Error' ? messages[0]?.subText ?? fallback : fallback` */
  function TabErrorMessage(e: Option<ErrorPage>): (m: string)
    ensures e.Some? && e.value.step == "Error" && e.value.subText.Some? ==> m == e.value.subText.value
    ensures !(e.Some? && e.value.step == "Error" && e.value.subText.Some?) ==> m == TabRetrieveFail
  {
    if e.Some? && e.value.step == "Error" && e.value.subText.Some? then e.value.subText.value else TabRetrieveFail
  }
}
