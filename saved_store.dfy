/** The saved queries (a `Set` of `YYYYMMDDFROMTO` keys, in insertion order) and
    the saved flights (an object from flight key to seat counts): toggling,
    removal, pruning of past dates with the sorted lists that go with it, and
    the in-place refresh of a saved flight from a fresh result. */
module SavedStore {
  import opened Text
  import opened Dict
  import opened Calendar
  import opened DateStrings
  import opened Cabins
  import opened Sorting

  // ---------------------------------------------------------------
  // The Set of saved queries
  // ---------------------------------------------------------------

  predicate NoDups(s: seq<string>)
  {
    forall i, j :: 0 <= i < j < |s| ==> s[i] != s[j]
  }

  /** `set.delete(x)` */
  function SetDelete(s: seq<string>, x: string): (r: seq<string>)
    ensures forall y :: y in r <==> y in s && y != x
    ensures NoDups(s) ==> NoDups(r)
    decreases |s|
  {
    if s == [] then []
    else if s[0] == x then SetDelete(s[1..], x)
    else
      var rest := SetDelete(s[1..], x);
      assert NoDups(s) ==> s[0] !in s[1..] && NoDups(s[1..]);
      [s[0]] + rest
  }

  /** `set.add(x)`: a new element goes last. */
  function SetAdd(s: seq<string>, x: string): (r: seq<string>)
    ensures NoDups(s) ==> NoDups(r)
    ensures forall y :: y in r <==> y in s || y == x
  {
    if x in s then s else s + [x]
  }

  /** `new Set(list)`: the first occurrence of each element, in order. */
  function Dedup(s: seq<string>): (r: seq<string>)
    ensures NoDups(r)
    ensures forall y :: y in r <==> y in s
    decreases |s|
  {
    if s == [] then []
    else
      var init := Dedup(s[..|s| - 1]);
      assert forall y :: y in s <==> y in s[..|s| - 1] || y == s[|s| - 1] by {
        assert s == s[..|s| - 1] + [s[|s| - 1]];
      }
      SetAdd(init, s[|s| - 1])
  }

  /** Deleting an element stored once removes exactly that element. */
  lemma {:induction false} SetDeleteAt(a: seq<string>, x: string, b: seq<string>)
    requires NoDups(a + [x] + b)
    ensures SetDelete(a + [x] + b, x) == a + b
    decreases |a|
  {
    var d := a + [x] + b;
    if a == [] {
      assert d[1..] == b;
      assert x !in b by {
        forall i | 0 <= i < |b| ensures b[i] != x { assert d[i + 1] == b[i]; }
      }
      SetDeleteAbsent(b, x);
    } else {
      assert d[1..] == a[1..] + [x] + b;
      assert d[0] != x by { assert d[|a|] == x; }
      assert NoDups(d[1..]) by {
        forall i, j | 0 <= i < j < |d| - 1 ensures d[1..][i] != d[1..][j] { assert d[1..][i] == d[i + 1]; }
      }
      SetDeleteAt(a[1..], x, b);
      assert [a[0]] + (a[1..] + b) == a + b;
    }
  }

  lemma {:induction false} SetDeleteAbsent(s: seq<string>, x: string)
    requires x !in s
    ensures SetDelete(s, x) == s
    decreases |s|
  {
    if s != [] {
      assert x !in s[1..];
      SetDeleteAbsent(s[1..], x);
    }
  }

  // ---------------------------------------------------------------
  // Pruning and listing
  // ---------------------------------------------------------------

  /** A saved key is past when its date is a date and its local midnight is not after now
      (`new Date(+y, +m - 1, +d) <= new Date()`); an unparsable date never compares as past. */
  predicate Expired(key: string, now: int)
  {
    var d := DateStringToDate(key);
    d.Some? && DayMs(d.value) <= now
  }

  /** The saved queries left after pruning, in their original order. */
  function KeepQueries(qs: seq<string>, now: int): (r: seq<string>)
    ensures |r| <= |qs|
    decreases |qs|
  {
    if qs == [] then []
    else
      var init := KeepQueries(qs[..|qs| - 1], now);
      var last := qs[|qs| - 1];
      if Expired(last, now) then init else init + [last]
  }

  /** Pruning keeps exactly the queries dated after now, each once. */
  lemma {:induction false} KeepQueriesSpec(qs: seq<string>, now: int)
    ensures forall q :: q in KeepQueries(qs, now) <==> q in qs && !Expired(q, now)
    ensures NoDups(qs) ==> NoDups(KeepQueries(qs, now))
    decreases |qs|
  {
    if qs != [] {
      var init := qs[..|qs| - 1];
      var last := qs[|qs| - 1];
      assert qs == init + [last];
      KeepQueriesSpec(init, now);
      assert NoDups(qs) ==> NoDups(init) && last !in init;
    }
  }

  /** The saved flights left after pruning, in their original order. */
  function KeepFlights(fs: Dict<Avail>, now: int): (r: Dict<Avail>)
    ensures |r| <= |fs|
    decreases |fs|
  {
    if fs == [] then []
    else
      var init := KeepFlights(fs[..|fs| - 1], now);
      var last := fs[|fs| - 1];
      if Expired(last.0, now) then init else init + [last]
  }

  /** Pruning keeps exactly the flights dated after now, with their counts, each key once. */
  lemma KeepFlightsSpec(fs: Dict<Avail>, now: int)
    requires DistinctKeys(fs)
    ensures DistinctKeys(KeepFlights(fs, now))
    ensures forall k :: k in Keys(KeepFlights(fs, now)) <==> k in Keys(fs) && !Expired(k, now)
    ensures forall k :: k in Keys(KeepFlights(fs, now)) ==> Get(KeepFlights(fs, now), k) == Get(fs, k)
  {
    KeepFlightsSubsequence(fs, now);
    KeepFlightsKeys(fs, now);
    KeepFlightsGet(fs, now);
  }

  /** The kept entries are a subsequence of the stored ones: kept entries map increasingly into them. */
  lemma {:induction false} KeepFlightsSubsequence(fs: Dict<Avail>, now: int)
    requires DistinctKeys(fs)
    ensures DistinctKeys(KeepFlights(fs, now))
    ensures forall e :: e in KeepFlights(fs, now) ==> e in fs
    decreases |fs|
  {
    if fs != [] {
      var init := fs[..|fs| - 1];
      var last := fs[|fs| - 1];
      assert fs == init + [last];
      assert DistinctKeys(init) by {
        forall i, j | 0 <= i < j < |init| ensures init[i].0 != init[j].0 { assert init[i] == fs[i] && init[j] == fs[j]; }
      }
      KeepFlightsSubsequence(init, now);
      var r0 := KeepFlights(init, now);
      if !Expired(last.0, now) {
        var r := r0 + [last];
        forall i, j | 0 <= i < j < |r| ensures r[i].0 != r[j].0 {
          if j == |r| - 1 {
            assert r[i] in init;
            var m :| 0 <= m < |init| && init[m] == r[i];
            assert fs[m] == r[i];
          }
        }
      }
    }
  }

  lemma {:induction false} KeepFlightsKeys(fs: Dict<Avail>, now: int)
    ensures forall k :: k in Keys(KeepFlights(fs, now)) <==> k in Keys(fs) && !Expired(k, now)
    decreases |fs|
  {
    if fs != [] {
      var init := fs[..|fs| - 1];
      var last := fs[|fs| - 1];
      assert fs == init + [last];
      KeepFlightsKeys(init, now);
      assert Keys(fs) == Keys(init) + [last.0];
      var r0 := KeepFlights(init, now);
      if !Expired(last.0, now) {
        assert Keys(r0 + [last]) == Keys(r0) + [last.0];
      }
    }
  }

  lemma {:induction false} KeepFlightsGet(fs: Dict<Avail>, now: int)
    requires DistinctKeys(fs)
    ensures forall k :: k in Keys(KeepFlights(fs, now)) ==> Get(KeepFlights(fs, now), k) == Get(fs, k)
    decreases |fs|
  {
    if fs != [] {
      var init := fs[..|fs| - 1];
      var last := fs[|fs| - 1];
      assert fs == init + [last];
      assert DistinctKeys(init) by {
        forall i, j | 0 <= i < j < |init| ensures init[i].0 != init[j].0 { assert init[i] == fs[i] && init[j] == fs[j]; }
      }
      KeepFlightsGet(init, now);
      KeepFlightsKeys(init, now);
      assert last.0 !in Keys(init) by {
        forall i | 0 <= i < |init| ensures init[i].0 != last.0 { assert init[i] == fs[i]; }
      }
      GetAppend(init, last);
      var r0 := KeepFlights(init, now);
      if !Expired(last.0, now) {
        GetAppend(r0, last);
        assert Keys(r0 + [last]) == Keys(r0) + [last.0];
      }
    }
  }

  lemma {:induction false} GetAppend(d: Dict<Avail>, e: (string, Avail))
    ensures forall k :: k in Keys(d) ==> Get(d + [e], k) == Get(d, k)
    ensures e.0 !in Keys(d) ==> Get(d + [e], e.0) == Some(e.1)
    decreases |d|
  {
    if d != [] {
      assert (d + [e])[1..] == d[1..] + [e];
      GetAppend(d[1..], e);
      assert forall k :: k in Keys(d) <==> k == d[0].0 || k in Keys(d[1..]);
    }
  }

  /** One more key looked at by the pruning walk. */
  lemma KeepQueriesStep(qs: seq<string>, i: nat, now: int)
    requires i < |qs|
    ensures KeepQueries(qs[..i + 1], now) == KeepQueries(qs[..i], now) + (if Expired(qs[i], now) then [] else [qs[i]])
  {
    assert qs[..i + 1][..i] == qs[..i];
  }

  lemma KeepFlightsStep(fs: Dict<Avail>, i: nat, now: int)
    requires i < |fs|
    ensures KeepFlights(fs[..i + 1], now) == KeepFlights(fs[..i], now) + (if Expired(fs[i].0, now) then [] else [fs[i]])
  {
    assert fs[..i + 1][..i] == fs[..i];
  }

  lemma SplitAt<T>(k: seq<T>, s: seq<T>, i: nat)
    requires i < |s|
    ensures k + s[i..] == k + [s[i]] + s[i + 1..]
  {
    assert s[i..] == [s[i]] + s[i + 1..];
  }

  lemma NoDupsDropMiddle(a: seq<string>, x: string, b: seq<string>)
    requires NoDups(a + [x] + b)
    ensures NoDups(a + b)
  {
    var d := a + [x] + b;
    var r := a + b;
    forall i, j | 0 <= i < j < |r| ensures r[i] != r[j] {
      var i' := if i < |a| then i else i + 1;
      var j' := if j < |a| then j else j + 1;
      assert r[i] == d[i'] && r[j] == d[j'];
    }
  }

  /** Pruning a second time with the same clock removes nothing more. */
  lemma {:induction false} KeepQueriesIdempotent(qs: seq<string>, now: int)
    ensures KeepQueries(KeepQueries(qs, now), now) == KeepQueries(qs, now)
    decreases |qs|
  {
    if qs != [] {
      var init := qs[..|qs| - 1];
      KeepQueriesIdempotent(init, now);
      var k := KeepQueries(init, now);
      if !Expired(qs[|qs| - 1], now) {
        assert (k + [qs[|qs| - 1]])[..|k|] == k;
      }
    }
  }

  lemma {:induction false} KeepFlightsIdempotent(fs: Dict<Avail>, now: int)
    ensures KeepFlights(KeepFlights(fs, now), now) == KeepFlights(fs, now)
    decreases |fs|
  {
    if fs != [] {
      var init := fs[..|fs| - 1];
      KeepFlightsIdempotent(init, now);
      var k := KeepFlights(init, now);
      if !Expired(fs[|fs| - 1].0, now) {
        assert (k + [fs[|fs| - 1]])[..|k|] == k;
      }
    }
  }

  /** The numeric value of an eight-character date, the sort key of both lists
      (`parseInt(a.date) - parseInt(b.date)`); a non-numeric date sorts as 0. */
  function DateKey(date: string): int
  {
    match ToNumber(date)
    case None => 0
    case Some(v) => v
  }

  function QueryDateKey(q: Query): int { DateKey(q.date) }

  function RowDateKey(r: FlightRow): int { DateKey(r.date) }

  function ViewDateKey(v: SavedFlightView): int { DateKey(v.date) }

  /** One line of the saved-queries list. */
  function QueryRow(key: string): Query
  {
    Query(Substring(key, 0, 8), ToUpper(Substring(key, 8, 11)), ToUpper(Substring(key, 11, 14)))
  }

  function QueryRows(qs: seq<string>): (rows: seq<Query>)
    ensures |rows| == |qs|
    ensures forall i :: 0 <= i < |qs| ==> rows[i] == QueryRow(qs[i])
  {
    seq(|qs|, i requires 0 <= i < |qs| => QueryRow(qs[i]))
  }

  /** One line of the saved-flights list: the key split into its date, route and legs. */
  datatype FlightRow = FlightRow(fullKey: string, date: string, from: string, to: string,
                                 leg1: string, stop: string, leg2: string, avail: Avail)

  function ToFlightRow(e: (string, Avail)): FlightRow
  {
    var k := e.0;
    var parts := Split(k, '_');
    FlightRow(k, Substring(k, 0, 8), ToUpper(Substring(k, 8, 11)), ToUpper(Substring(k, 11, 14)),
              FieldOr(parts, 1), FieldOr(parts, 2), FieldOr(parts, 3), e.1)
  }

  function FlightRows(fs: Dict<Avail>): (rows: seq<FlightRow>)
    ensures |rows| == |fs|
    ensures forall i :: 0 <= i < |fs| ==> rows[i] == ToFlightRow(fs[i])
  {
    seq(|fs|, i requires 0 <= i < |fs| => ToFlightRow(fs[i]))
  }

  /** The route shown for a saved flight: the stop between origin and destination when there is one. */
  function RouteText(from: string, stop: string, to: string): string
  {
    from + "-" + (if stop != "" then stop + "-" else "") + to
  }

  /** The legs shown for a saved flight: ` + leg2` only for a connection. */
  function LegsText(leg1: string, leg2: string): string
  {
    leg1 + (if leg2 != "" then " + " + leg2 else "")
  }

  /** A flight key's parts read back from the key: date, origin, destination, the first
      leg, and for a connection the stop and the second leg (otherwise empty). */
  lemma FlightKeyDecomposition(date: string, from: string, to: string, leg1: string, connection: Option<(string, string)>, avail: Avail)
    requires |date| == 8 && |from| == 3 && |to| == 3
    requires '_' !in date + from + to && '_' !in leg1
    requires connection.Some? ==> '_' !in connection.value.0 && '_' !in connection.value.1
    ensures var row := ToFlightRow((FlightKey(date, from, to, leg1, connection), avail));
      row.date == date && row.from == ToUpper(from) && row.to == ToUpper(to) && row.leg1 == leg1
      && row.stop == (if connection.Some? then connection.value.0 else "")
      && row.leg2 == (if connection.Some? then connection.value.1 else "")
      && row.fullKey == FlightKey(date, from, to, leg1, connection)
  {
    var head := date + from + to;
    var key := FlightKey(date, from, to, leg1, connection);
    var parts := if connection.Some? then [head, leg1, connection.value.0, connection.value.1] else [head, leg1];
    if connection.Some? {
      assert Join(parts[3..], "_") == connection.value.1;
      assert Join(parts[2..], "_") == connection.value.0 + "_" + connection.value.1;
      assert Join(parts[1..], "_") == leg1 + "_" + (connection.value.0 + "_" + connection.value.1);
    } else {
      assert Join(parts[1..], "_") == leg1;
    }
    assert key == Join(parts, ['_']);
    SplitJoin(parts, '_');
    HeadSlices(date, from, to, key[14..]);
    assert key == head + key[14..];
  }

  /** The date, origin and destination sit at fixed offsets at the start of a key. */
  lemma HeadSlices(date: string, from: string, to: string, rest: string)
    requires |date| == 8 && |from| == 3 && |to| == 3
    ensures var key := date + from + to + rest;
      key[..8] == date && key[8..11] == from && key[11..14] == to
  {
  }

  // ---------------------------------------------------------------
  // The store
  // ---------------------------------------------------------------

  class Saved {
    /** `savedQueries`: a Set, so no key twice, in insertion order. */
    var queries: seq<string>
    /** `savedFlights`: flight key to seat counts. */
    var flights: Dict<Avail>

    ghost predicate Valid()
      reads this
    {
      NoDups(queries) && DistinctKeys(flights)
    }

    /** Loaded from storage: the stored list goes through `new Set(...)`. */
    constructor (storedQueries: seq<string>, storedFlights: Dict<Avail>)
      requires DistinctKeys(storedFlights)
      ensures Valid()
      ensures queries == Dedup(storedQueries) && flights == storedFlights
    {
      queries := Dedup(storedQueries);
      flights := storedFlights;
    }

    /** `updateSavedCount`: walks the Set, deleting every past key as it goes, then
        lists the rest in ascending date order; the count shown is their number. */
    method UpdateSavedCount(now: int) returns (list: seq<Query>, count: nat)
      requires Valid()
      modifies this
      ensures Valid()
      ensures queries == KeepQueries(old(queries), now) && flights == old(flights)
      ensures list == SortByKey(QueryRows(queries), QueryDateKey)
      ensures count == |queries|
    {
      var snapshot := queries;
      var kept: seq<string> := [];
      var i := 0;
      while i < |snapshot|
        invariant 0 <= i <= |snapshot|
        invariant kept == KeepQueries(snapshot[..i], now)
        invariant queries == kept + snapshot[i..]
        invariant NoDups(queries)
        invariant flights == old(flights)
      {
        var q := snapshot[i];
        KeepQueriesStep(snapshot, i, now);
        SplitAt(kept, snapshot, i);
        if Expired(q, now) {
          SetDeleteAt(kept, q, snapshot[i + 1..]);
          NoDupsDropMiddle(kept, q, snapshot[i + 1..]);
          queries := SetDelete(queries, q);
        } else {
          kept := kept + [q];
        }
        i := i + 1;
      }
      assert snapshot[..i] == snapshot;
      list := SortByKey(QueryRows(queries), QueryDateKey);
      count := |list|;
    }

    /** `updateSavedFlights`: walks the keys, deleting every past flight as it goes, then
        lists the rest in ascending date order with each key split into its parts. */
    method UpdateSavedFlights(now: int) returns (list: seq<FlightRow>, count: nat)
      requires Valid()
      modifies this
      ensures Valid()
      ensures flights == KeepFlights(old(flights), now) && queries == old(queries)
      ensures list == SortByKey(FlightRows(flights), RowDateKey)
      ensures count == |flights|
    {
      var snapshot := flights;
      var kept: Dict<Avail> := [];
      var i := 0;
      while i < |snapshot|
        invariant 0 <= i <= |snapshot|
        invariant kept == KeepFlights(snapshot[..i], now)
        invariant flights == kept + snapshot[i..]
        invariant DistinctKeys(flights)
        invariant queries == old(queries)
      {
        var e := snapshot[i];
        KeepFlightsStep(snapshot, i, now);
        SplitAt(kept, snapshot, i);
        if Expired(e.0, now) {
          RemoveAt(kept, e, snapshot[i + 1..]);
          DistinctRemove(flights, e.0);
          flights := Remove(flights, e.0);
        } else {
          kept := kept + [e];
        }
        i := i + 1;
      }
      assert snapshot[..i] == snapshot;
      list := SortByKey(FlightRows(flights), RowDateKey);
      count := |list|;
    }

    /** The heart on a result row: unsaves when the heart is shown as saved, saves otherwise,
        then relists. `shownSaved` is the heart's `bulk_saved` class. */
    method ToggleQuery(key: string, shownSaved: bool, now: int) returns (list: seq<Query>, count: nat)
      requires Valid()
      modifies this
      ensures Valid()
      ensures queries == KeepQueries(if shownSaved then SetDelete(old(queries), key) else SetAdd(old(queries), key), now)
      ensures flights == old(flights)
      ensures list == SortByKey(QueryRows(queries), QueryDateKey)
      ensures count == |queries|
    {
      if shownSaved {
        queries := SetDelete(queries, key);
      } else {
        queries := SetAdd(queries, key);
      }
      list, count := UpdateSavedCount(now);
    }

    /** The heart on a flight: unsaves when the flight is shown as saved, otherwise saves it
        with the counts shown on it (its `data-flight-avail`, read back by `AvailStringRoundTrip`). */
    method ToggleFlight(key: string, avail: Avail, shownSaved: bool, now: int) returns (list: seq<FlightRow>, count: nat)
      requires Valid()
      modifies this
      ensures Valid()
      ensures flights == KeepFlights(if shownSaved then Remove(old(flights), key) else Put(old(flights), key, avail), now)
      ensures queries == old(queries)
      ensures list == SortByKey(FlightRows(flights), RowDateKey)
      ensures count == |flights|
    {
      if shownSaved {
        DistinctRemove(flights, key);
        flights := Remove(flights, key);
      } else {
        DistinctPut(flights, key, avail);
        flights := Put(flights, key, avail);
      }
      list, count := UpdateSavedFlights(now);
    }

    /** The remove link: the key leaves both the saved flights and the saved queries. */
    method RemoveSaved(key: string, now: int) returns (queryList: seq<Query>, flightList: seq<FlightRow>)
      requires Valid()
      modifies this
      ensures Valid()
      ensures queries == KeepQueries(SetDelete(old(queries), key), now)
      ensures flights == KeepFlights(Remove(old(flights), key), now)
      ensures key !in queries && key !in Keys(flights)
      ensures queryList == SortByKey(QueryRows(queries), QueryDateKey)
      ensures flightList == SortByKey(FlightRows(flights), RowDateKey)
    {
      DistinctRemove(flights, key);
      KeysRemove(flights, key);
      flights := Remove(flights, key);
      queries := SetDelete(queries, key);
      ghost var q0, f0 := queries, flights;
      var n: nat;
      queryList, n := UpdateSavedCount(now);
      flightList, n := UpdateSavedFlights(now);
      KeepQueriesSpec(q0, now);
      KeepFlightsKeys(f0, now);
    }

    /** A fresh result for a flight that is already saved overwrites its counts and relists;
        a flight that is not saved is left unsaved. */
    method RefreshFlight(key: string, avail: Avail, now: int)
      requires Valid()
      modifies this
      ensures Valid()
      ensures flights == Refreshed(old(flights), key, avail, now)
      ensures queries == old(queries)
    {
      if key in Keys(flights) {
        DistinctPut(flights, key, avail);
        flights := Put(flights, key, avail);
        var list, count := UpdateSavedFlights(now);
      }
    }
  }

  /** The saved flights after a fresh result for `key` with counts `avail`. */
  function Refreshed(fs: Dict<Avail>, key: string, avail: Avail, now: int): Dict<Avail>
  {
    if key in Keys(fs) then KeepFlights(Put(fs, key, avail), now) else fs
  }

  /** Refreshing never adds a key, and a refreshed flight that is still ahead reads the new counts. */
  lemma RefreshKeepsKeys(fs: Dict<Avail>, key: string, avail: Avail, now: int)
    ensures forall k :: k in Keys(Refreshed(fs, key, avail, now)) ==> k in Keys(fs)
    ensures DistinctKeys(fs) && key in Keys(fs) && !Expired(key, now) ==> Get(Refreshed(fs, key, avail, now), key) == Some(avail)
  {
    if key in Keys(fs) {
      var put := Put(fs, key, avail);
      KeysPut(fs, key, avail);
      GetPut(fs, key, avail, key);
      KeepFlightsKeys(put, now);
      if DistinctKeys(fs) {
        DistinctPut(fs, key, avail);
        KeepFlightsSpec(put, now);
      }
    }
  }

  /** After pruning, every saved query and flight is dated after now, and nothing dated after now was lost. */
  lemma PrunedAreFuture(qs: seq<string>, fs: Dict<Avail>, now: int)
    ensures forall q :: q in KeepQueries(qs, now) <==> q in qs && !Expired(q, now)
    ensures forall k :: k in Keys(KeepFlights(fs, now)) <==> k in Keys(fs) && !Expired(k, now)
  {
    KeepQueriesSpec(qs, now);
    KeepFlightsKeys(fs, now);
  }

  /** The saved entry a row shows: its full key and its counts. */
  function RowEntry(r: FlightRow): (string, Avail)
  {
    (r.fullKey, r.avail)
  }

  /** The listed rows show the saved entries, each once with its own counts, in ascending
      date order. */
  lemma ListedRows(fs: Dict<Avail>)
    ensures var list := SortByKey(FlightRows(fs), RowDateKey);
      multiset(Project(list, RowEntry)) == multiset(fs) && SortedBy(list, RowDateKey)
  {
    var list := SortByKey(FlightRows(fs), RowDateKey);
    ProjectPermutation(list, FlightRows(fs), RowEntry);
    assert Project(FlightRows(fs), RowEntry) == fs;
  }

  // ---------------------------------------------------------------
  // The `SavedFlights` component
  // ---------------------------------------------------------------

  /** What the component shows for one saved flight. */
  datatype SavedFlightView = SavedFlightView(flightKey: string, date: string, route: string, legs: string,
                                             badges: seq<Cabin>, removeKey: string)

  /** The badges as the component writes them: it reads `avail.PY`, which a
      `FlightAvailability` never has (the field is `P`), so premium economy never shows. */
  function ComponentSavedBadges(a: Avail): seq<Cabin>
  {
    (if a.F > 0 then [First] else []) + (if a.J > 0 then [Business] else []) + (if a.Y > 0 then [Economy] else [])
  }

  function SavedFlightEntry(e: (string, Avail), badges: seq<Cabin>): SavedFlightView
  {
    var row := ToFlightRow(e);
    var q := QueryStringToQuery(e.0);
    SavedFlightView(e.0, q.date, RouteText(q.from, row.stop, q.to), LegsText(row.leg1, row.leg2), badges, e.0)
  }

  /** `SavedFlights` as written: one entry per saved flight, in ascending date order. */
  function SavedFlightsAsWritten(fs: Dict<Avail>): seq<SavedFlightView>
  {
    var entries := seq(|fs|, i requires 0 <= i < |fs| => SavedFlightEntry(fs[i], ComponentSavedBadges(fs[i].1)));
    SortByKey(entries, ViewDateKey)
  }

  /** `SavedFlights` with the premium count read from `P`: the badges are those of a result row. */
  function SavedFlightsView(fs: Dict<Avail>): seq<SavedFlightView>
  {
    var entries := seq(|fs|, i requires 0 <= i < |fs| => SavedFlightEntry(fs[i], Badges(fs[i].1)));
    SortByKey(entries, ViewDateKey)
  }

  function RemoveKey(v: SavedFlightView): string
  {
    v.removeKey
  }

  /** The keys the remove links of the entries carry, in order. */
  function RemoveKeys(v: seq<SavedFlightView>): (ks: seq<string>)
    ensures |ks| == |v|
    ensures forall i :: 0 <= i < |v| ==> ks[i] == v[i].removeKey
  {
    Project(v, RemoveKey)
  }

  /** One entry per saved flight, sorted by date, each removable by its full key and
      showing a badge for exactly the cabins with a seat. */
  lemma SavedFlightsViewSpec(fs: Dict<Avail>)
    ensures |SavedFlightsView(fs)| == |fs|
    ensures SortedBy(SavedFlightsView(fs), ViewDateKey)
    ensures multiset(RemoveKeys(SavedFlightsView(fs))) == multiset(Keys(fs))
    ensures forall v :: v in SavedFlightsView(fs) ==> exists j :: 0 <= j < |fs| && v.flightKey == fs[j].0 && v.badges == Badges(fs[j].1)
  {
    var entries := seq(|fs|, i requires 0 <= i < |fs| => SavedFlightEntry(fs[i], Badges(fs[i].1)));
    var v := SavedFlightsView(fs);
    assert v == SortByKey(entries, ViewDateKey);
    RemoveKeysPermutation(v, entries);
    assert RemoveKeys(entries) == Keys(fs);
    forall x | x in v ensures exists j :: 0 <= j < |fs| && x.flightKey == fs[j].0 && x.badges == Badges(fs[j].1) {
      assert x in multiset(entries);
      var j :| 0 <= j < |entries| && entries[j] == x;
    }
  }

  lemma RemoveKeysPermutation(a: seq<SavedFlightView>, b: seq<SavedFlightView>)
    requires multiset(a) == multiset(b)
    ensures multiset(RemoveKeys(a)) == multiset(RemoveKeys(b))
  {
    ProjectPermutation(a, b, RemoveKey);
  }

  /** A saved flight with only premium economy seats shows no badge as written, and the PY
      badge once `P` is read. */
  lemma ComponentSavedBadgesMissPremium(key: string)
    ensures SavedFlightsAsWritten([(key, Avail(0, 0, 2, 0))])[0].badges == []
    ensures SavedFlightsView([(key, Avail(0, 0, 2, 0))])[0].badges == [Premium]
  {
    var fs := [(key, Avail(0, 0, 2, 0))];
    var asWritten := seq(|fs|, i requires 0 <= i < |fs| => SavedFlightEntry(fs[i], ComponentSavedBadges(fs[i].1)));
    var corrected := seq(|fs|, i requires 0 <= i < |fs| => SavedFlightEntry(fs[i], Badges(fs[i].1)));
    assert asWritten == [asWritten[0]] && corrected == [corrected[0]];
  }

  /** The premium badge is the only difference. */
  lemma ComponentSavedBadgesDiffer(a: Avail)
    ensures ComponentSavedBadges(a) == Badges(a) <==> a.P == 0
  {
    if a.P > 0 {
      assert Premium in Badges(a);
    }
  }
}
