/** Seat counts per cabin for one flight of an availability response: the
    per-segment statuses, the reduction over the legs (the component takes the
    minimum over every segment; `insertResults` looks at the first two legs and
    keeps a count only when both are at least 1), the badges, the
    `F_J_PY_Y` availability text, the direct flag, the transit code and the flight key. */
module Cabins {
  import opened Text
  import opened DateStrings

  /** The `status` strings of the cabins of one segment, `undefined` as None:
      first (F), business (B), premium economy (N) and the two economy fare buckets (E, R). */
  datatype SegmentCabins = SegmentCabins(f: Option<string>, b: Option<string>, n: Option<string>, e: Option<string>, r: Option<string>)

  datatype FlightSegment = FlightSegment(airline: string, flightNumber: string, cabins: SegmentCabins)

  datatype Flight = Flight(segments: seq<FlightSegment>, flightIdString: string)

  /** `FlightAvailability`: first, business, premium economy and economy seats. */
  datatype Avail = Avail(F: nat, J: nat, P: nat, Y: nat)

  datatype Cabin = First | Business | Premium | Economy

  function Count(a: Avail, c: Cabin): nat
  {
    match c
    case First => a.F
    case Business => a.J
    case Premium => a.P
    case Economy => a.Y
  }

  /** Display order of the badges. */
  function Rank(c: Cabin): nat
  {
    match c
    case First => 0
    case Business => 1
    case Premium => 2
    case Economy => 3
  }

  function Label(c: Cabin): string
  {
    match c
    case First => "F"
    case Business => "J"
    case Premium => "PY"
    case Economy => "Y"
  }

  /** `parseCabinStatus`, and `+status || 0` in `insertResults`: a missing or
      non-numeric status counts as 0. */
  function CabinStatus(status: Option<string>): (n: nat)
    ensures status.None? ==> n == 0
    ensures status.Some? && !AllDigits(status.value) ==> n == 0
  {
    if status.None? then 0
    else match ToNumber(status.value)
      case None => 0
      case Some(v) => v
  }

  /** A count written out as a status reads back as that count. */
  lemma CabinStatusOfCount(n: nat)
    ensures CabinStatus(Some(NatToString(n))) == n
  {
    NatToStringValue(n);
  }

  /** One segment's counts; economy is the sum of the E and R buckets. */
  function SegmentAvail(s: FlightSegment): Avail
  {
    var c := s.cabins;
    Avail(CabinStatus(c.f), CabinStatus(c.b), CabinStatus(c.n), CabinStatus(c.e) + CabinStatus(c.r))
  }

  /** `Math.min(...xs)` on a non-empty list. */
  function MinOf(xs: seq<nat>): (m: nat)
    requires |xs| >= 1
    ensures m in xs
    ensures forall i :: 0 <= i < |xs| ==> m <= xs[i]
  {
    if |xs| == 1 then xs[0]
    else
      var rest := MinOf(xs[1..]);
      if xs[0] <= rest then xs[0] else rest
  }

  function CabinColumn(segs: seq<FlightSegment>, c: Cabin): (col: seq<nat>)
    ensures |col| == |segs|
    ensures forall i :: 0 <= i < |segs| ==> col[i] == Count(SegmentAvail(segs[i]), c)
  {
    seq(|segs|, i requires 0 <= i < |segs| => Count(SegmentAvail(segs[i]), c))
  }

  /** The counts `FlightResult` shows: each cabin's minimum over all segments. A flight
      always has a segment (the component reads the first one unconditionally). */
  function ComponentAvail(segs: seq<FlightSegment>): (a: Avail)
    requires |segs| >= 1
    ensures forall c: Cabin, i :: 0 <= i < |segs| ==> Count(a, c) <= CabinColumn(segs, c)[i]
    ensures forall c: Cabin :: Count(a, c) in CabinColumn(segs, c)
  {
    var a := Avail(MinOf(CabinColumn(segs, First)), MinOf(CabinColumn(segs, Business)),
                   MinOf(CabinColumn(segs, Premium)), MinOf(CabinColumn(segs, Economy)));
    assert forall c: Cabin :: Count(a, c) == MinOf(CabinColumn(segs, c)) by {
      forall c: Cabin ensures Count(a, c) == MinOf(CabinColumn(segs, c)) {
        assert c == First || c == Business || c == Premium || c == Economy;
      }
    }
    a
  }

  /** `f1 >= 1 && f2 >= 1 ? Math.min(f1, f2) : 0` */
  function BothAtLeastOne(x: nat, y: nat): nat
  {
    if x >= 1 && y >= 1 then Min(x, y) else 0
  }

  /** The counts `insertResults` shows and saves: a direct flight's counts as they are;
      otherwise each cabin needs at least one seat on both of the first two legs. */
  function InsertAvail(segs: seq<FlightSegment>): Avail
    requires |segs| >= 1
  {
    var a1 := SegmentAvail(segs[0]);
    if |segs| == 1 then a1
    else
      var a2 := SegmentAvail(segs[1]);
      Avail(BothAtLeastOne(a1.F, a2.F), BothAtLeastOne(a1.J, a2.J), BothAtLeastOne(a1.P, a2.P), BothAtLeastOne(a1.Y, a2.Y))
  }

  /** For one or two legs both renderings agree; with more legs `insertResults` agrees with
      the component applied to the first two legs only. */
  lemma InsertAvailIsMinOfLegs(segs: seq<FlightSegment>)
    requires |segs| >= 1
    ensures |segs| <= 2 ==> InsertAvail(segs) == ComponentAvail(segs)
    ensures |segs| >= 2 ==> InsertAvail(segs) == ComponentAvail(segs[..2])
  {
    if |segs| <= 2 {
      MinOfLegs(segs);
      assert segs[..|segs|] == segs;
    } else {
      var two := segs[..2];
      MinOfLegs(two);
      InsertAvailFirstTwo(segs);
    }
  }

  /** `insertResults` reads only the first two legs. */
  lemma InsertAvailFirstTwo(segs: seq<FlightSegment>)
    requires |segs| >= 2
    ensures InsertAvail(segs) == InsertAvail(segs[..2])
  {
    var two := segs[..2];
    assert two[0] == segs[0] && two[1] == segs[1];
  }

  lemma MinOfLegs(segs: seq<FlightSegment>)
    requires 1 <= |segs| <= 2
    ensures InsertAvail(segs) == ComponentAvail(segs)
  {
    forall c: Cabin ensures Count(InsertAvail(segs), c) == Count(ComponentAvail(segs), c) {
      MinOfLegsCabin(segs, c);
    }
    AvailEquality(InsertAvail(segs), ComponentAvail(segs));
  }

  /** Two counts agreeing on every cabin are the same counts. */
  lemma AvailEquality(x: Avail, y: Avail)
    requires forall c: Cabin :: Count(x, c) == Count(y, c)
    ensures x == y
  {
    assert Count(x, First) == Count(y, First) && Count(x, Business) == Count(y, Business);
    assert Count(x, Premium) == Count(y, Premium) && Count(x, Economy) == Count(y, Economy);
  }

  lemma MinOfLegsCabin(segs: seq<FlightSegment>, c: Cabin)
    requires 1 <= |segs| <= 2
    ensures Count(InsertAvail(segs), c) == Count(ComponentAvail(segs), c)
  {
    MinOfOneOrTwo(CabinColumn(segs, c));
  }

  lemma MinOfOneOrTwo(xs: seq<nat>)
    requires 1 <= |xs| <= 2
    ensures MinOf(xs) == if |xs| == 1 then xs[0] else BothAtLeastOne(xs[0], xs[1])
  {
    if |xs| == 2 {
      assert MinOf(xs[1..]) == xs[1];
    }
  }

  /** Whether the flight is listed at all: some cabin has a seat. */
  predicate AnySeat(a: Avail)
  {
    a.F > 0 || a.J > 0 || a.P > 0 || a.Y > 0
  }

  /** The cabin badges, in F, J, PY, Y order, one for each cabin with a seat. */
  function Badges(a: Avail): (r: seq<Cabin>)
    ensures forall c: Cabin :: c in r <==> Count(a, c) > 0
    ensures forall i, j :: 0 <= i < j < |r| ==> Rank(r[i]) < Rank(r[j])
    ensures |r| == 0 <==> !AnySeat(a)
  {
    (if a.F > 0 then [First] else []) + (if a.J > 0 then [Business] else [])
      + (if a.P > 0 then [Premium] else []) + (if a.Y > 0 then [Economy] else [])
  }

  /** `data-flight-avail`: the four counts joined by `_`. */
  function AvailString(a: Avail): string
  {
    Join([NatToString(a.F), NatToString(a.J), NatToString(a.P), NatToString(a.Y)], "_")
  }

  /** The save handler's reading of `data-flight-avail`: split on `_`, each field through `parseInt`. */
  function ParseAvail(s: string): Option<Avail>
  {
    var parts := Split(s, '_');
    if |parts| < 4 then None
    else
      var f, j, p, y := ToNumber(parts[0]), ToNumber(parts[1]), ToNumber(parts[2]), ToNumber(parts[3]);
      if f.Some? && j.Some? && p.Some? && y.Some? then Some(Avail(f.value, j.value, p.value, y.value)) else None
  }

  /** What a flight shows is what saving it stores. */
  lemma AvailStringRoundTrip(a: Avail)
    ensures ParseAvail(AvailString(a)) == Some(a)
  {
    var parts := [NatToString(a.F), NatToString(a.J), NatToString(a.P), NatToString(a.Y)];
    forall k | 0 <= k < 4 ensures '_' !in parts[k] {
      assert AllDigits(parts[k]);
    }
    SplitJoin(parts, '_');
    NatToStringValue(a.F);
    NatToStringValue(a.J);
    NatToStringValue(a.P);
    NatToStringValue(a.Y);
  }

  /** The group of `/^[A-Z]{3}:([A-Z:]{3,7}):[A-Z]{3}_/` can be `k` characters long. */
  predicate GroupFits(s: string, k: nat)
  {
    |s| >= 9 + k
    && (forall i :: 0 <= i < 3 ==> IsUpper(s[i])) && s[3] == ':'
    && (forall i :: 4 <= i < 4 + k ==> IsUpper(s[i]) || s[i] == ':')
    && s[4 + k] == ':'
    && (forall i :: 5 + k <= i < 8 + k ==> IsUpper(s[i])) && s[8 + k] == '_'
  }

  /** The captured group: the quantifier is greedy, so the longest length that fits wins. */
  function TransitCapture(s: string): (r: Option<string>)
    ensures r.Some? ==> 3 <= |r.value| <= 7
  {
    if GroupFits(s, 7) then Some(s[4..11])
    else if GroupFits(s, 6) then Some(s[4..10])
    else if GroupFits(s, 5) then Some(s[4..9])
    else if GroupFits(s, 4) then Some(s[4..8])
    else if GroupFits(s, 3) then Some(s[4..7])
    else None
  }

  /** The transit code shown for a connecting flight: the captured middle of the
      flight id with its first `:` written as ` / `. None where the pattern does not
      match (the source then fails on `null[1]`). */
  function TransitCode(flightIdString: string): Option<string>
  {
    match TransitCapture(flightIdString)
    case None => None
    case Some(g) => Some(ReplaceFirst(g, ':', " / "))
  }

  /** One stop: `AAA:BBB:CCC_...` has transit code `BBB`. */
  lemma TransitCodeOneStop(o: string, t: string, d: string, rest: string)
    requires IsAirportCode(o) && IsAirportCode(t) && IsAirportCode(d)
    ensures TransitCode(o + ":" + t + ":" + d + "_" + rest) == Some(t)
  {
    var s := o + ":" + t + ":" + d + "_" + rest;
    assert s[11] == '_' && s[10] == d[2] && s[9] == d[1] && s[8] == d[0];
    assert !GroupFits(s, 7) && !GroupFits(s, 6) && !GroupFits(s, 5) && !GroupFits(s, 4);
    assert s[4..7] == t;
    assert GroupFits(s, 3);
    assert ':' !in t;
  }

  /** Two stops: `AAA:BBB:CCC:DDD_...` has transit code `BBB / CCC`. */
  lemma TransitCodeTwoStops(o: string, t1: string, t2: string, d: string, rest: string)
    requires IsAirportCode(o) && IsAirportCode(t1) && IsAirportCode(t2) && IsAirportCode(d)
    ensures TransitCode(o + ":" + t1 + ":" + t2 + ":" + d + "_" + rest) == Some(t1 + " / " + t2)
  {
    var s := o + ":" + t1 + ":" + t2 + ":" + d + "_" + rest;
    var g := t1 + ":" + t2;
    assert s[4..11] == g;
    assert GroupFits(s, 7);
    assert ':' !in t1;
    ReplaceFirstAt(t1, ':', t2, " / ");
  }

  /** The flight key: `YYYYMMDDFROMTO_<leg1>` for a direct flight,
      `YYYYMMDDFROMTO_<leg1>_<transit>_<leg2>` for a connection. */
  function FlightKey(date: string, from: string, to: string, leg1: string, connection: Option<(string, string)>): string
  {
    var head := date + from + to + "_" + leg1;
    match connection
    case None => head
    case Some(c) => head + "_" + c.0 + "_" + c.1
  }

  /** A flight's leg designator: airline code and flight number. */
  function LegName(s: FlightSegment): string
  {
    s.airline + s.flightNumber
  }

  /** What the results list shows for one flight. */
  datatype FlightView = FlightView(avail: Avail, badges: seq<Cabin>, availText: string, direct: bool, transit: Option<string>)

  /** `FlightResult`: nothing when no cabin has a seat; otherwise the badges, the
      availability text, the `direct` class for a single segment and, for a
      connection, the transit code. */
  function RenderFlight(f: Flight): Option<FlightView>
    requires |f.segments| >= 1
  {
    var a := ComponentAvail(f.segments);
    if Badges(a) == [] then None
    else
      var direct := |f.segments| == 1;
      Some(FlightView(a, Badges(a), AvailString(a), direct, if direct then None else TransitCode(f.flightIdString)))
  }

  /** Every leg has at least one seat in cabin `c`. */
  predicate SeatOnEveryLeg(segs: seq<FlightSegment>, c: Cabin)
  {
    forall i :: 0 <= i < |segs| ==> CabinColumn(segs, c)[i] > 0
  }

  /** A flight is rendered exactly when some cabin has a seat on every leg; the
      rendered availability text reads back as the counts; the direct flag marks
      single-segment flights; each badge names a cabin with a seat. */
  lemma RenderFlightSpec(f: Flight)
    requires |f.segments| >= 1
    ensures RenderFlight(f).Some? <==> exists c: Cabin :: SeatOnEveryLeg(f.segments, c)
    ensures RenderFlight(f).Some? ==>
      var v := RenderFlight(f).value;
      ParseAvail(v.availText) == Some(v.avail)
      && (v.direct <==> |f.segments| == 1)
      && (forall c: Cabin :: c in v.badges <==> Count(v.avail, c) > 0)
  {
    var segs := f.segments;
    var a := ComponentAvail(segs);
    AvailStringRoundTrip(a);
    if Badges(a) != [] {
      var c := Badges(a)[0];
      SeatIffCount(segs, c);
    } else {
      forall c: Cabin ensures !SeatOnEveryLeg(segs, c) {
        SeatIffCount(segs, c);
      }
    }
  }

  /** The component shows a cabin exactly when every leg has a seat in it. */
  lemma SeatIffCount(segs: seq<FlightSegment>, c: Cabin)
    requires |segs| >= 1
    ensures Count(ComponentAvail(segs), c) > 0 <==> SeatOnEveryLeg(segs, c)
  {
    var col := CabinColumn(segs, c);
    assert Count(ComponentAvail(segs), c) in col;
  }
}
