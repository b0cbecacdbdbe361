/** `insertResults`: what one availability response does to the results table and to the
    saved flights. For every flight it computes the counts shown (`InsertAvail`) and the
    flight key; a flight with a seat in some cabin is listed, and a flight whose key is
    already saved has its saved counts overwritten and the saved list pruned again. */
module Results {
  import opened Text
  import opened Dict
  import opened Cabins
  import opened SavedStore

  /** The parsed `pageBom` of a response: an error message list (`isContainingErrors`),
      or the flights of the first bound. */
  datatype PageBom = ErrorBom(messages: seq<string>) | Availability(flights: seq<ReadableFlight>)

  /** What `insertResults` derives from one flight. */
  datatype FlightOutcome = FlightOutcome(key: string, avail: Avail, listed: bool)

  /** A flight `insertResults` can read: it reads the first segment unconditionally and, for
      a connection, the transit code captured from `flightIdString` (a flight of another
      shape makes it throw). */
  predicate WellFormed(f: Flight)
  {
    |f.segments| >= 1 && (|f.segments| >= 2 ==> TransitCode(f.flightIdString).Some?)
  }

  /** A flight of a response `insertResults` reads to the end. */
  type ReadableFlight = f: Flight | WellFormed(f)
    witness Flight([FlightSegment("", "", SegmentCabins(None, None, None, None, None))], "")

  /** The key, counts and listing decision for one flight searched on `date` from `from` to `to`. */
  function InsertFlight(date: string, from: string, to: string, f: Flight): (o: FlightOutcome)
    requires WellFormed(f)
    ensures o.listed <==> AnySeat(o.avail)
    ensures o.avail == InsertAvail(f.segments)
  {
    var segs := f.segments;
    var avail := InsertAvail(segs);
    var connection := if |segs| == 1 then None else Some((TransitCode(f.flightIdString).value, LegName(segs[1])));
    FlightOutcome(FlightKey(date, from, to, LegName(segs[0]), connection), avail, AnySeat(avail))
  }

  /** A direct flight's key is `<date><from><to>_<leg>`; a connection's adds the transit
      code and the second leg, and the saved-flights list reads those parts back. */
  lemma InsertFlightKey(date: string, from: string, to: string, f: Flight)
    requires WellFormed(f)
    requires |date| == 8 && |from| == 3 && |to| == 3
    requires '_' !in date + from + to && '_' !in LegName(f.segments[0])
    requires |f.segments| >= 2 ==> '_' !in TransitCode(f.flightIdString).value && '_' !in LegName(f.segments[1])
    ensures var row := ToFlightRow((InsertFlight(date, from, to, f).key, InsertFlight(date, from, to, f).avail));
      row.date == date && row.leg1 == LegName(f.segments[0])
      && (|f.segments| == 1 ==> row.stop == "" && row.leg2 == "")
      && (|f.segments| >= 2 ==> row.stop == TransitCode(f.flightIdString).value && row.leg2 == LegName(f.segments[1]))
  {
    var segs := f.segments;
    var connection := if |segs| == 1 then None else Some((TransitCode(f.flightIdString).value, LegName(segs[1])));
    FlightKeyDecomposition(date, from, to, LegName(segs[0]), connection, InsertAvail(segs));
  }

  /** The legs `insertResults` reads: the only one, or the first two. */
  function FirstLegs(segs: seq<FlightSegment>): (legs: seq<FlightSegment>)
    requires |segs| >= 1
    ensures 1 <= |legs| <= 2 && legs <= segs
  {
    if |segs| == 1 then segs else segs[..2]
  }

  /** `insertResults` lists a flight exactly when `FlightResult` would render it with its
      first two legs, and both show the same counts. */
  lemma InsertFlightListed(date: string, from: string, to: string, f: Flight)
    requires WellFormed(f)
    ensures var g := Flight(FirstLegs(f.segments), f.flightIdString);
      InsertFlight(date, from, to, f).listed <==> RenderFlight(g).Some?
    ensures var g := Flight(FirstLegs(f.segments), f.flightIdString);
      RenderFlight(g).Some? ==> RenderFlight(g).value.avail == InsertFlight(date, from, to, f).avail
  {
    InsertAvailIsMinOfLegs(f.segments);
  }

  /** The saved flights after the refreshes triggered by the first `n` of `flights`, taken in order. */
  function RefreshAll(fs: Dict<Avail>, date: string, from: string, to: string, flights: seq<ReadableFlight>, n: nat, now: int): Dict<Avail>
    requires n <= |flights|
  {
    if n == 0 then fs
    else
      var prev := RefreshAll(fs, date, from, to, flights, n - 1, now);
      var o := InsertFlight(date, from, to, flights[n - 1]);
      Refreshed(prev, o.key, o.avail, now)
  }

  /** Results never add a saved flight: every key left was saved before. */
  lemma {:induction false} RefreshAllNeverAdds(fs: Dict<Avail>, date: string, from: string, to: string, flights: seq<ReadableFlight>, n: nat, now: int)
    requires n <= |flights|
    ensures forall k :: k in Keys(RefreshAll(fs, date, from, to, flights, n, now)) ==> k in Keys(fs)
  {
    if n > 0 {
      RefreshAllNeverAdds(fs, date, from, to, flights, n - 1, now);
      var prev := RefreshAll(fs, date, from, to, flights, n - 1, now);
      var o := InsertFlight(date, from, to, flights[n - 1]);
      RefreshKeepsKeys(prev, o.key, o.avail, now);
      assert RefreshAll(fs, date, from, to, flights, n, now) == Refreshed(prev, o.key, o.avail, now);
    }
  }

  /** The outcomes of the first `n` of `flights`, in response order. */
  function Outcomes(date: string, from: string, to: string, flights: seq<ReadableFlight>, n: nat): (os: seq<FlightOutcome>)
    requires n <= |flights|
    ensures |os| == n
    ensures forall i :: 0 <= i < n ==> os[i] == InsertFlight(date, from, to, flights[i])
  {
    seq(n, i requires 0 <= i < n => InsertFlight(date, from, to, flights[i]))
  }

  /** The outcomes among `os` that are listed, in order. */
  function ListedAmong(os: seq<FlightOutcome>): (r: seq<FlightOutcome>)
    ensures |r| <= |os|
    ensures forall o :: o in r ==> o.listed && o in os
  {
    if os == [] then []
    else
      var prev := ListedAmong(os[..|os| - 1]);
      var o := os[|os| - 1];
      if o.listed then prev + [o] else prev
  }

  /** The first `n` of `flights` as listed in the results table, in response order. */
  function Listed(date: string, from: string, to: string, flights: seq<ReadableFlight>, n: nat): (r: seq<FlightOutcome>)
    requires n <= |flights|
    ensures |r| <= n
    ensures forall o :: o in r ==> o.listed && AnySeat(o.avail)
  {
    ListedAmong(Outcomes(date, from, to, flights, n))
  }

  /** Filtering a prefix gives a prefix, and an outcome that is listed comes right after the
      outcomes filtered before it. */
  lemma {:induction false} ListedAmongPrefix(os: seq<FlightOutcome>, i: nat)
    requires i <= |os|
    ensures |ListedAmong(os[..i])| <= |ListedAmong(os)|
    ensures forall k :: 0 <= k < |ListedAmong(os[..i])| ==> ListedAmong(os)[k] == ListedAmong(os[..i])[k]
    decreases |os|
  {
    if i < |os| {
      var init := os[..|os| - 1];
      assert init[..i] == os[..i];
      ListedAmongPrefix(init, i);
    } else {
      assert os[..i] == os;
    }
  }

  lemma ListedAmongComplete(os: seq<FlightOutcome>, i: nat)
    requires i < |os| && os[i].listed
    ensures |ListedAmong(os[..i])| < |ListedAmong(os)|
    ensures ListedAmong(os)[|ListedAmong(os[..i])|] == os[i]
  {
    var upto := os[..i + 1];
    assert upto[..i] == os[..i];
    assert ListedAmong(upto) == ListedAmong(os[..i]) + [os[i]];
    ListedAmongPrefix(os, i + 1);
  }

  lemma RefreshAllStep(fs: Dict<Avail>, date: string, from: string, to: string, flights: seq<ReadableFlight>, i: nat, now: int)
    requires i < |flights|
    ensures var o := InsertFlight(date, from, to, flights[i]);
      RefreshAll(fs, date, from, to, flights, i + 1, now) == Refreshed(RefreshAll(fs, date, from, to, flights, i, now), o.key, o.avail, now)
  {
  }

  lemma ListedStep(date: string, from: string, to: string, flights: seq<ReadableFlight>, i: nat)
    requires i < |flights|
    ensures var o := InsertFlight(date, from, to, flights[i]);
      Listed(date, from, to, flights, i + 1) == if o.listed then Listed(date, from, to, flights, i) + [o] else Listed(date, from, to, flights, i)
  {
    var os := Outcomes(date, from, to, flights, i + 1);
    assert os[..i] == Outcomes(date, from, to, flights, i);
  }

  /** Rows come in response order: the rows of the first `i` flights are the first rows. */
  lemma ListedPrefix(date: string, from: string, to: string, flights: seq<ReadableFlight>, i: nat, n: nat)
    requires i <= n <= |flights|
    ensures |Listed(date, from, to, flights, i)| <= |Listed(date, from, to, flights, n)|
    ensures forall k :: 0 <= k < |Listed(date, from, to, flights, i)| ==>
      Listed(date, from, to, flights, n)[k] == Listed(date, from, to, flights, i)[k]
  {
    var os := Outcomes(date, from, to, flights, n);
    assert os[..i] == Outcomes(date, from, to, flights, i);
    ListedAmongPrefix(os, i);
  }

  /** Every flight with a seat is listed, right after the rows of the flights before it. */
  lemma ListedComplete(date: string, from: string, to: string, flights: seq<ReadableFlight>, i: nat, n: nat)
    requires i < n <= |flights|
    requires InsertFlight(date, from, to, flights[i]).listed
    ensures |Listed(date, from, to, flights, i)| < |Listed(date, from, to, flights, n)|
    ensures Listed(date, from, to, flights, n)[|Listed(date, from, to, flights, i)|] == InsertFlight(date, from, to, flights[i])
  {
    var os := Outcomes(date, from, to, flights, n);
    assert os[..i] == Outcomes(date, from, to, flights, i);
    ListedAmongComplete(os, i);
  }

  /** Every row is the outcome of one of the flights. */
  lemma ListedFromFlights(date: string, from: string, to: string, flights: seq<ReadableFlight>, n: nat)
    requires n <= |flights|
    ensures forall o :: o in Listed(date, from, to, flights, n) ==>
      exists j :: 0 <= j < n && o == InsertFlight(date, from, to, flights[j])
  {
    var os := Outcomes(date, from, to, flights, n);
    forall o | o in Listed(date, from, to, flights, n)
      ensures exists j :: 0 <= j < n && o == InsertFlight(date, from, to, flights[j])
    {
      var j :| 0 <= j < |os| && os[j] == o;
    }
  }

  /** `insertResults`: an error response lists its message and touches nothing saved;
      otherwise each flight is listed when it has a seat, and a saved flight is refreshed. */
  method InsertResults(store: Saved, date: string, from: string, to: string, bom: PageBom, now: int)
    returns (listed: seq<FlightOutcome>)
    requires store.Valid()
    modifies store
    ensures store.Valid()
    ensures store.queries == old(store.queries)
    ensures bom.ErrorBom? ==> store.flights == old(store.flights) && listed == []
    ensures bom.Availability? ==>
      store.flights == RefreshAll(old(store.flights), date, from, to, bom.flights, |bom.flights|, now)
      && listed == Listed(date, from, to, bom.flights, |bom.flights|)
  {
    listed := [];
    if bom.Availability? {
      listed := InsertFlights(store, date, from, to, bom.flights, now);
    }
  }

  /** The loop of `insertResults` over the flights of a response, in order. */
  method InsertFlights(store: Saved, date: string, from: string, to: string, flights: seq<ReadableFlight>, now: int)
    returns (listed: seq<FlightOutcome>)
    requires store.Valid()
    modifies store
    ensures store.Valid()
    ensures store.queries == old(store.queries)
    ensures store.flights == RefreshAll(old(store.flights), date, from, to, flights, |flights|, now)
    ensures listed == Listed(date, from, to, flights, |flights|)
  {
    listed := [];
    var i := 0;
    while i < |flights|
      invariant 0 <= i <= |flights|
      invariant store.Valid()
      invariant store.queries == old(store.queries)
      invariant store.flights == RefreshAll(old(store.flights), date, from, to, flights, i, now)
      invariant listed == Listed(date, from, to, flights, i)
    {
      listed := InsertFlightAt(store, date, from, to, flights, i, now, listed, old(store.flights));
      i := i + 1;
    }
  }

  /** One pass of that loop: flight `i` is read, listed when it has a seat, and refreshed
      when saved. */
  method InsertFlightAt(store: Saved, date: string, from: string, to: string, flights: seq<ReadableFlight>, i: nat, now: int,
                        listed: seq<FlightOutcome>, ghost fs: Dict<Avail>)
    returns (listed': seq<FlightOutcome>)
    requires store.Valid() && i < |flights|
    requires store.flights == RefreshAll(fs, date, from, to, flights, i, now)
    requires listed == Listed(date, from, to, flights, i)
    modifies store
    ensures store.Valid()
    ensures store.queries == old(store.queries)
    ensures store.flights == RefreshAll(fs, date, from, to, flights, i + 1, now)
    ensures listed' == Listed(date, from, to, flights, i + 1)
  {
    var o := InsertFlight(date, from, to, flights[i]);
    RefreshAllStep(fs, date, from, to, flights, i, now);
    ListedStep(date, from, to, flights, i);
    listed' := if o.listed then listed + [o] else listed;
    store.RefreshFlight(o.key, o.avail, now);
  }
}
