/** Worked example: two thefts in district "A", one assault in district "B". */
module Scenarios {
  import opened Options
  import opened Incidents
  import opened Cleaning
  import opened Filters
  import opened Colors
  import opened Scene
  import opened App
  import opened Subsequences
  import opened StringOrder

  function ThreeRows(): seq<RawRecord>
  {
    [ RawRecord(Some(19.40), Some(-99.10), Some("A"), Some("theft")),
      RawRecord(Some(19.41), Some(-99.11), Some("A"), Some("theft")),
      RawRecord(Some(19.42), Some(-99.12), Some("B"), Some("assault")) ]
  }

  function CleanRows(): seq<Incident>
  {
    [ Incident(19.40, -99.10, Some("A"), Some("theft")),
      Incident(19.41, -99.11, Some("A"), Some("theft")),
      Incident(19.42, -99.12, Some("B"), Some("assault")) ]
  }

  lemma ScenarioClean()
    ensures Clean(ThreeRows()) == CleanRows()
  {
    FilterKeepsAll(ThreeRows(), HasCoordinates);
  }

  lemma ScenarioSelection()
    ensures Filter(CleanRows(), (x: Incident) => MatchesSelection(x, "A", AllCategories)) == CleanRows()[..2]
  {
    var ds := CleanRows();
    var kept := ds[..2];
    var p := (x: Incident) => MatchesSelection(x, "A", AllCategories);
    assert ds == kept + [ds[2]];
    PrefixIsSubsequence(kept, [ds[2]]);
    forall x
      ensures multiset(kept)[x] == if p(x) then multiset(ds)[x] else 0
    {
      assert multiset(ds)[x] == multiset(kept)[x] + multiset([ds[2]])[x];
      if x != ds[0] && x != ds[1] {
        assert x !in kept;
      }
    }
    FilterUnique(ds, p, kept);
  }

  lemma ScenarioFilter()
    ensures Filtered(ThreeRows(), "A", AllCategories) == CleanRows()[..2]
  {
    ScenarioClean();
    FilteredIsSelection(ThreeRows(), "A", AllCategories);
    ScenarioSelection();
  }

  lemma ScenarioCategories()
    ensures Categories(CleanRows()) == ["assault", "theft"]
  {
    var cats := Categories(CleanRows());
    var expected := ["assault", "theft"];
    assert Less("assault", "theft");
    assert StrictlySorted(expected);
    assert CleanRows()[0] in CleanRows() && CleanRows()[2] in CleanRows();
    forall c
      ensures c in cats <==> c in expected
    {
      assert (exists x :: x in CleanRows() && x.category == Some(c)) <==> c == "assault" || c == "theft";
    }
    SortedUnique(cats, expected);
  }

  lemma ScenarioColor(ds: seq<Incident>, i: int, k: int)
    requires Categories(ds) == ["assault", "theft"]
    requires 0 <= i < |ds| && 0 <= k < 2
    requires ds[i].category == Some(["assault", "theft"][k])
    ensures Encode(ds)[i].colorId == k * 13
  {
    ColorOfCategory(ds, i, k);
  }

  lemma ScenarioColors()
    ensures Encode(CleanRows())[0].colorId == 13
    ensures Encode(CleanRows())[1].colorId == 13
    ensures Encode(CleanRows())[2].colorId == 0
  {
    ScenarioCategories();
    var ds := CleanRows();
    ScenarioColor(ds, 0, 1);
    ScenarioColor(ds, 1, 1);
    ScenarioColor(ds, 2, 0);
  }

  lemma ScenarioPage()
    ensures var page := SimplePage(CleanRows()[..2], "A");
      page[1].PointMap? && |page[1].points| == 3 && page[1].points[2] == Point(CenterLatitude, CenterLongitude)
  {
  }

  /**
   Filtering on "A" keeps the two thefts; on the whole table assault sorts
   first (colour 0) and both thefts second (colour 13); the simple map of
   district "A" shows its two points and then the city centre.
   */
  lemma ThreeRowScenario()
    ensures |Filtered(ThreeRows(), "A", AllCategories)| == 2
    ensures Clean(ThreeRows()) == CleanRows()
    ensures var colored := Encode(CleanRows());
      colored[0].colorId == 13 && colored[1].colorId == 13 && colored[2].colorId == 0
    ensures var page := SimplePage(Filtered(ThreeRows(), "A", AllCategories), "A");
      page[1].PointMap? && |page[1].points| == 3 && page[1].points[2] == Point(CenterLatitude, CenterLongitude)
  {
    ScenarioClean();
    ScenarioFilter();
    ScenarioColors();
    ScenarioPage();
  }
}
