/** The check run on the origin and destination fields after an edit: the field is split on
    commas, the codes that pass are kept, every other non-empty piece is reported, and the
    field is rewritten to the kept codes only when something was reported. `src/main.ts`
    keeps the codes of the airport list (`checkAirportCodes`); `cx.user.js` keeps any three
    upper-case letters (`checkCities`). The kept test is a parameter here. */
module AirportCheck {
  import opened Text

  /** The kept codes and the reported pieces, both in field order. */
  datatype Checked = Checked(kept: seq<string>, rejected: seq<string>)

  /** The filter of the check: a piece that passes is kept, a non-empty one that fails is
      reported, and an empty one (from `,,` or a blank field) is dropped silently. */
  function FilterCodes(codes: seq<string>, keep: string -> bool): (r: Checked)
    ensures forall c :: c in r.kept ==> keep(c) && c in codes
    ensures forall c :: c in r.rejected ==> !keep(c) && c != "" && c in codes
    ensures |r.kept| + |r.rejected| <= |codes|
    decreases |codes|
  {
    if codes == [] then Checked([], [])
    else
      var prev := FilterCodes(codes[..|codes| - 1], keep);
      var c := codes[|codes| - 1];
      if keep(c) then Checked(prev.kept + [c], prev.rejected)
      else if c != "" then Checked(prev.kept, prev.rejected + [c])
      else prev
  }

  /** Nothing is lost: every piece is kept, reported, or empty. */
  lemma {:induction false} FilterCodesComplete(codes: seq<string>, keep: string -> bool, c: string)
    requires c in codes
    ensures keep(c) ==> c in FilterCodes(codes, keep).kept
    ensures !keep(c) && c != "" ==> c in FilterCodes(codes, keep).rejected
    decreases |codes|
  {
    var init := codes[..|codes| - 1];
    if c != codes[|codes| - 1] {
      assert c in init by { var i :| 0 <= i < |codes| && codes[i] == c; assert init[i] == c; }
      FilterCodesComplete(init, keep, c);
    }
  }

  /** Filtering codes that all pass keeps them all and reports nothing. */
  lemma {:induction false} FilterCodesAllPass(codes: seq<string>, keep: string -> bool)
    requires forall i :: 0 <= i < |codes| ==> keep(codes[i])
    ensures FilterCodes(codes, keep) == Checked(codes, [])
    decreases |codes|
  {
    if codes != [] {
      var init := codes[..|codes| - 1];
      FilterCodesAllPass(init, keep);
      assert init + [codes[|codes| - 1]] == codes;
    }
  }

  /** The field after the check. */
  function CheckField(value: string, keep: string -> bool): (r: string)
  {
    var checked := FilterCodes(Split(value, ','), keep);
    if checked.rejected != [] then Join(checked.kept, ",") else value
  }

  /** The check leaves only codes that pass (the blank field aside), and a second check
      changes nothing, provided the empty piece never passes. */
  lemma CheckFieldIdempotent(value: string, keep: string -> bool)
    requires !keep("")
    ensures FilterCodes(Split(CheckField(value, keep), ','), keep).rejected == []
    ensures CheckField(CheckField(value, keep), keep) == CheckField(value, keep)
  {
    var parts := Split(value, ',');
    var checked := FilterCodes(parts, keep);
    if checked.rejected != [] {
      var kept := checked.kept;
      if kept == [] {
        assert Split("", ',') == [""];
        assert FilterCodes([""], keep).rejected == [] by {
          assert [""][..0] == [];
        }
      } else {
        forall k | 0 <= k < |kept| ensures ',' !in kept[k] {
          assert kept[k] in kept;
        }
        SplitJoin(kept, ',');
        FilterCodesAllPass(kept, keep);
      }
    } else {
      forall i | 0 <= i < |parts| ensures keep(parts[i]) || parts[i] == "" {
        FilterCodesComplete(parts, keep, parts[i]);
      }
      PassingOrEmptyReportsNothing(parts, keep);
    }
  }

  /** A list of passing or empty pieces reports nothing. */
  lemma {:induction false} PassingOrEmptyReportsNothing(codes: seq<string>, keep: string -> bool)
    requires forall i :: 0 <= i < |codes| ==> keep(codes[i]) || codes[i] == ""
    ensures FilterCodes(codes, keep).rejected == []
    decreases |codes|
  {
    if codes != [] {
      PassingOrEmptyReportsNothing(codes[..|codes| - 1], keep);
    }
  }

  /** The alert after the check, `None` when nothing was reported: the current script writes
      "Removing <invalid_airport>[s]: <pieces>", the legacy one picks the singular or plural
      language entry and appends " Removed: <pieces>". */
  function Alert(rejected: seq<string>, legacy: bool): (m: Option<string>)
    ensures m.Some? <==> rejected != []
  {
    if rejected == [] then None
    else if legacy then Some((if |rejected| > 1 then "invalid_airports" else "invalid_airport") + " Removed: " + Join(rejected, ","))
    else Some("Removing " + "invalid_airport" + (if |rejected| > 1 then "s" else "") + ": " + Join(rejected, ","))
  }

  /** `checkAirportCodes`: keep a code exactly when the airport list has it. */
  function KeepListed(airports: set<string>): string -> bool
  {
    c => c in airports
  }

  /** `checkCities`: keep a code exactly when it is three upper-case letters. */
  function KeepShaped(): string -> bool
  {
    c => IsAirportCode(c)
  }

  /** When the airport list holds only three-letter codes, the current check keeps no code the
      legacy check would drop, and reports every piece the legacy check reports. */
  lemma ListedIsStricter(airports: set<string>, value: string)
    requires forall a :: a in airports ==> IsAirportCode(a)
    ensures forall c :: c in FilterCodes(Split(value, ','), KeepListed(airports)).kept ==>
      c in FilterCodes(Split(value, ','), KeepShaped()).kept
    ensures forall c :: c in FilterCodes(Split(value, ','), KeepShaped()).rejected ==>
      c in FilterCodes(Split(value, ','), KeepListed(airports)).rejected
  {
    var parts := Split(value, ',');
    forall c | c in FilterCodes(parts, KeepListed(airports)).kept
      ensures c in FilterCodes(parts, KeepShaped()).kept
    {
      FilterCodesComplete(parts, KeepShaped(), c);
    }
    forall c | c in FilterCodes(parts, KeepShaped()).rejected
      ensures c in FilterCodes(parts, KeepListed(airports)).rejected
    {
      FilterCodesComplete(parts, KeepListed(airports), c);
    }
  }
}
