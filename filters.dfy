/** The results-table filters of `src/main.ts`: each filter checkbox toggles one class on the
    table, which hides the rows or columns it names. */
module Filters {
  import opened Text

  /** The filters the table knows. */
  const FilterNames: seq<string> := ["nonstop", "first", "business", "premium", "economy"]

  /** `filterToClassName`: `nonstop` becomes `nonstop_only`, a cabin becomes `show_<cabin>`,
      and any other name is an error (`None`). */
  function FilterToClassName(filter: string): (r: Option<string>)
    ensures r.Some? <==> filter in FilterNames
  {
    if filter == "nonstop" then Some(filter + "_only")
    else if filter in FilterNames then Some("show_" + filter)
    else None
  }

  /** The filter a table class stands for, read back from its suffix or prefix. */
  function ClassNameToFilter(cls: string): Option<string>
  {
    if |cls| >= 5 && cls[|cls| - 5..] == "_only" then Some(cls[..|cls| - 5])
    else if |cls| >= 5 && cls[..5] == "show_" then Some(cls[5..])
    else None
  }

  /** Every known filter has its own class, from which it can be read back. */
  lemma FilterClassRoundTrip(filter: string)
    requires filter in FilterNames
    ensures FilterToClassName(filter).Some?
    ensures ClassNameToFilter(FilterToClassName(filter).value) == Some(filter)
  {
    var cls := FilterToClassName(filter).value;
    if filter == "nonstop" {
      assert cls[|cls| - 5..] == "_only";
      assert cls[..|cls| - 5] == filter;
    } else {
      assert cls[..5] == "show_";
      assert cls[5..] == filter;
      assert cls[|cls| - 5..] != "_only" by {
        assert |filter| >= 5 && cls[|cls| - 5] == filter[|filter| - 5];
        assert filter[|filter| - 5] != '_';
      }
    }
  }

  /** Two filters never toggle the same class. */
  lemma FilterClassInjective(f1: string, f2: string)
    requires FilterToClassName(f1).Some? && FilterToClassName(f1) == FilterToClassName(f2)
    ensures f1 == f2
  {
    FilterClassRoundTrip(f1);
    FilterClassRoundTrip(f2);
  }
}
