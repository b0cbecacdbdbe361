/** Where the legacy userscript `cx.user.js` differs from `src/main.ts` in the modelled core,
    each difference next to a lemma relating it to the current model. */
module Legacy {
  import opened Text
  import opened Dict
  import opened Calendar
  import opened DateStrings
  import opened Cabins
  import opened SavedStore
  import opened Requests

  // ---------------------------------------------------------------
  // Saved queries: an object of keys mapped to 1, not a Set
  // ---------------------------------------------------------------

  /** The legacy save button of a results row: with the row shown as saved (`bulk_saved`)
      the key is deleted, otherwise it is stored with the value 1. */
  function CxToggleQuery(saved: Dict<int>, key: string, shownSaved: bool): (r: Dict<int>)
    ensures !shownSaved ==> Get(r, key) == Some(1)
    ensures shownSaved ==> Get(r, key).None?
  {
    if shownSaved then
      GetRemove(saved, key, key);
      Remove(saved, key)
    else
      GetPut(saved, key, 1, key);
      Put(saved, key, 1)
  }

  /** The keys of the legacy object follow the current script's Set: a toggle removes or
      appends the key exactly as `delete` and `add` do on the Set. */
  lemma CxToggleQueryKeys(saved: Dict<int>, key: string, shownSaved: bool)
    ensures Keys(CxToggleQuery(saved, key, shownSaved))
      == if shownSaved then SetDelete(Keys(saved), key) else SetAdd(Keys(saved), key)
  {
    if shownSaved {
      KeysRemoveIsSetDelete(saved, key);
    } else {
      KeysPut(saved, key, 1);
    }
  }

  lemma {:induction false} KeysRemoveIsSetDelete<V>(d: Dict<V>, k: string)
    ensures Keys(Remove(d, k)) == SetDelete(Keys(d), k)
    decreases |d|
  {
    if d != [] {
      KeysRemoveIsSetDelete(d[1..], k);
      assert Keys(d)[1..] == Keys(d[1..]);
      if d[0].0 != k {
        KeysCons(d[0], Remove(d[1..], k));
      }
    }
  }

  // ---------------------------------------------------------------
  // Saved flights: the counts are kept as the strings of the button
  // ---------------------------------------------------------------

  /** A legacy saved flight: the pieces of `data-flightavail` split on `_`, stored without
      conversion; a piece that is missing is `None` (`undefined`). */
  datatype CxAvail = CxAvail(f: Option<string>, j: Option<string>, p: Option<string>, y: Option<string>)

  function Piece(parts: seq<string>, i: nat): (r: Option<string>)
    ensures r.Some? <==> i < |parts|
  {
    if i < |parts| then Some(parts[i]) else None
  }

  /** The legacy flight save handler's value for the button text `s`. */
  function CxStoredAvail(s: string): CxAvail
  {
    var parts := Split(s, '_');
    CxAvail(Piece(parts, 0), Piece(parts, 1), Piece(parts, 2), Piece(parts, 3))
  }

  /** For the text a rendered flight carries, the four stored strings read back as the counts
      the current script stores as numbers. */
  lemma CxStoredAvailReadsBack(a: Avail)
    ensures var c := CxStoredAvail(AvailString(a));
      c.f.Some? && c.j.Some? && c.p.Some? && c.y.Some?
      && ToNumber(c.f.value) == Some(a.F) && ToNumber(c.j.value) == Some(a.J)
      && ToNumber(c.p.value) == Some(a.P) && ToNumber(c.y.value) == Some(a.Y)
  {
    var parts := [NatToString(a.F), NatToString(a.J), NatToString(a.P), NatToString(a.Y)];
    forall k | 0 <= k < 4 ensures '_' !in parts[k] {
      assert AllDigits(parts[k]);
    }
    SplitJoin(parts, '_');
    NatToStringValue(a.F);
    NatToStringValue(a.J);
    NatToStringValue(a.P);
    NatToStringValue(a.Y);
  }

  // ---------------------------------------------------------------
  // Dates
  // ---------------------------------------------------------------

  /** The legacy `dateAdd(days, date)`: an empty date string counts as no date, so it moves
      from today; the current `dateAdd` treats only a missing argument that way. */
  function CxDateAdd(days: int, date: string, today: Date): string
    requires Calendar.Valid(today)
  {
    DateAdd(days, if date == "" then None else Some(date), today)
  }

  /** The two agree on every non-empty date string; on the empty one the legacy script moves
      from today while the current one reads the empty fields as 0 and moves from the
      normalised date 0-00-00 (30 November 1899). */
  lemma CxDateAddDiffers(days: int, date: string, today: Date)
    requires Calendar.Valid(today)
    ensures date != "" ==> CxDateAdd(days, date, today) == DateAdd(days, Some(date), today)
    ensures CxDateAdd(days, "", today) == DateToDateString(AddDays(today, days))
    ensures DateAdd(days, Some(""), today) == DateToDateString(AddDays(MakeDate(0, -1, 0), days))
  {
    EmptyDateString();
  }

  /** The current script reads the three fields of the empty string as 0. */
  lemma EmptyDateString()
    ensures DateStringToDate("") == Some(MakeDate(0, -1, 0))
  {
    assert Substring("", 0, 4) == "" && Substring("", 4, 6) == "" && Substring("", 6, 8) == "";
    assert ToNumber("") == Some(0);
  }

  // ---------------------------------------------------------------
  // The new tab key
  // ---------------------------------------------------------------

  /** The legacy error message: the page's message is used only when it is non-empty (`||`). */
  function CxTabErrorMessage(e: Option<ErrorPage>): (m: string)
    ensures m != ""
  {
    if e.Some? && e.value.step == "Error" && e.value.subText.Some? && e.value.subText.value != ""
    then e.value.subText.value else TabRetrieveFail
  }

  /** The two messages differ exactly for an error page whose message is empty: the current
      script (`??`) shows it empty, the legacy one falls back to its own. */
  lemma TabMessagesDiffer(e: Option<ErrorPage>)
    ensures CxTabErrorMessage(e) != TabErrorMessage(e)
      <==> e.Some? && e.value.step == "Error" && e.value.subText == Some("")
  {
  }

  /** The legacy script gives up on the key only when no parameters were found; the current
      one also when they parse to an empty object. */
  predicate CxMintFails(params: Option<Dict<string>>)
  {
    params.None?
  }

  predicate MainMintFails(params: Option<Dict<string>>)
  {
    params.None? || |params.value| == 0
  }

  lemma MintFailureDiffers(params: Option<Dict<string>>)
    ensures CxMintFails(params) ==> MainMintFails(params)
    ensures MainMintFails(params) && !CxMintFails(params) <==> params == Some([])
  {
  }

  // ---------------------------------------------------------------
  // Batch routes
  // ---------------------------------------------------------------

  /** The legacy route list: the full product of origins and destinations when the advanced
      features are unlocked (`r == t`), otherwise only the first origin to the first destination. */
  function CxRoutes(froms: seq<string>, tos: seq<string>, unlocked: bool): (routes: seq<Route>)
    requires |froms| >= 1 && |tos| >= 1
    ensures |routes| >= 1
  {
    ProductLength(froms, tos);
    MulMonotone(1, |froms|, |tos|);
    if unlocked then Product(froms, tos) else [Route(froms[0], tos[0])]
  }

  /** Unlocked, the legacy routes are the current script's; locked, the legacy batch searches
      only the route the current one searches first. */
  lemma CxRoutesFirst(froms: seq<string>, tos: seq<string>, unlocked: bool)
    requires |froms| >= 1 && |tos| >= 1
    ensures unlocked ==> CxRoutes(froms, tos, unlocked) == Product(froms, tos)
    ensures CxRoutes(froms, tos, unlocked)[0] == Product(froms, tos)[0]
    ensures !unlocked ==> |CxRoutes(froms, tos, unlocked)| == 1
  {
    ProductAt(froms, tos, 0, 0);
  }
}
