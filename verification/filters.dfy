/**
 The two cascading dropdown filters: district (`alcaldia_hecho`, sentinel
 "TODAS") and then crime category (`categoria_delito`, sentinel "(Todos)"),
 together with the option lists the dropdowns offer.
 */
module Filters {
  import opened Options
  import opened Incidents
  import opened Subsequences
  import opened StringOrder

  const AllDistricts: string := "TODAS"
  const AllCategories: string := "(Todos)"

  function DistrictOf(x: Incident): Option<string> { x.district }
  function CategoryOf(x: Incident): Option<string> { x.category }

  /** `frame[column].dropna()`, in row order. */
  function PresentValues(ds: seq<Incident>, column: Incident -> Option<string>): (vs: seq<string>)
    ensures forall v :: v in vs <==> exists x :: x in ds && column(x) == Some(v)
  {
    if |ds| == 0 then []
    else
      var rest := PresentValues(ds[1..], column);
      assert forall x :: x in ds <==> x == ds[0] || x in ds[1..];
      match column(ds[0])
      case None => rest
      case Some(v) => [v] + rest
  }

  /** A dropdown list: the sentinel, then the column's non-empty values once each, sorted. */
  function ChoiceList(ds: seq<Incident>, column: Incident -> Option<string>, sentinel: string): (choices: seq<string>)
    ensures |choices| >= 1 && choices[0] == sentinel
    ensures StrictlySorted(choices[1..])
    ensures forall v :: v in choices[1..] <==> exists x :: x in ds && column(x) == Some(v)
  {
    [sentinel] + SortedDistinct(PresentValues(ds, column))
  }

  /** The district dropdown: "TODAS" first, then every district once, in order. */
  function DistrictChoices(ds: seq<Incident>): (choices: seq<string>)
    ensures |choices| >= 1 && choices[0] == AllDistricts
    ensures StrictlySorted(choices[1..])
    ensures forall v :: v in choices[1..] <==> exists x :: x in ds && x.district == Some(v)
  {
    ChoiceList(ds, DistrictOf, AllDistricts)
  }

  /** The category dropdown, listed from the cleaned table (not the district-filtered one). */
  function CategoryChoices(ds: seq<Incident>): (choices: seq<string>)
    ensures |choices| >= 1 && choices[0] == AllCategories
    ensures StrictlySorted(choices[1..])
    ensures forall v :: v in choices[1..] <==> exists x :: x in ds && x.category == Some(v)
  {
    ChoiceList(ds, CategoryOf, AllCategories)
  }

  /** A choice other than the sentinel keeps rows whose cell equals it; an empty cell never matches. */
  predicate Admits(cell: Option<string>, choice: string, sentinel: string)
  {
    choice == sentinel || cell == Some(choice)
  }

  /** The whole table if the sentinel is chosen, else the rows whose cell equals the choice. */
  function FilterColumn(ds: seq<Incident>, column: Incident -> Option<string>, choice: string, sentinel: string): (r: seq<Incident>)
    ensures choice == sentinel ==> r == ds
    ensures IsSubsequence(r, ds)
    ensures forall i :: 0 <= i < |r| ==> Admits(column(r[i]), choice, sentinel)
    ensures forall x :: multiset(r)[x] == if Admits(column(x), choice, sentinel) then multiset(ds)[x] else 0
  {
    if choice == sentinel then
      SubsequenceReflexive(ds);
      ds
    else
      Filter(ds, Selects(column, choice))
  }

  /** The row test behind a non-sentinel choice: the cell holds exactly that value. */
  function Selects(column: Incident -> Option<string>, choice: string): Incident -> bool
  {
    (x: Incident) => column(x) == Some(choice)
  }

  function FilterByDistrict(ds: seq<Incident>, district: string): (r: seq<Incident>)
    ensures district == AllDistricts ==> r == ds
    ensures IsSubsequence(r, ds)
    ensures district != AllDistricts ==> forall i :: 0 <= i < |r| ==> r[i].district == Some(district)
    ensures forall x :: x in ds && Admits(x.district, district, AllDistricts) ==> x in r
    ensures forall x :: multiset(r)[x] == if Admits(x.district, district, AllDistricts) then multiset(ds)[x] else 0
  {
    var r := FilterColumn(ds, DistrictOf, district, AllDistricts);
    assert forall x :: x in ds ==> multiset(ds)[x] > 0;
    r
  }

  function FilterByCategory(ds: seq<Incident>, category: string): (r: seq<Incident>)
    ensures category == AllCategories ==> r == ds
    ensures IsSubsequence(r, ds)
    ensures category != AllCategories ==> forall i :: 0 <= i < |r| ==> r[i].category == Some(category)
    ensures forall x :: x in ds && Admits(x.category, category, AllCategories) ==> x in r
    ensures forall x :: multiset(r)[x] == if Admits(x.category, category, AllCategories) then multiset(ds)[x] else 0
  {
    var r := FilterColumn(ds, CategoryOf, category, AllCategories);
    assert forall x :: x in ds ==> multiset(ds)[x] > 0;
    r
  }

  /** Both dropdown choices admit the row. */
  predicate MatchesSelection(x: Incident, district: string, category: string)
  {
    Admits(x.district, district, AllDistricts) && Admits(x.category, category, AllCategories)
  }

  /** `df_filtrado` after both filters: district first, then category. */
  function ApplyFilters(ds: seq<Incident>, district: string, category: string): (r: seq<Incident>)
    ensures IsSubsequence(r, ds)
    ensures forall i :: 0 <= i < |r| ==> MatchesSelection(r[i], district, category)
    ensures forall x :: multiset(r)[x] == if MatchesSelection(x, district, category) then multiset(ds)[x] else 0
  {
    var byDistrict := FilterColumn(ds, DistrictOf, district, AllDistricts);
    var r := FilterColumn(byDistrict, CategoryOf, category, AllCategories);
    SubsequenceTransitive(r, byDistrict, ds);
    r
  }

  /**
   The order of the two filters does not matter: filtering by category first
   and district second selects the same rows in the same order.
   */
  lemma FilterOrderIrrelevant(ds: seq<Incident>, district: string, category: string)
    ensures FilterByDistrict(FilterByCategory(ds, category), district) == ApplyFilters(ds, district, category)
  {
    if district != AllDistricts && category != AllCategories {
      FilterCommute(ds, Selects(CategoryOf, category), Selects(DistrictOf, district));
    }
  }
}
