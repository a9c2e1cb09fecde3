/**
 The whole script run once for one set of widget values: clean the loaded
 table, apply the two dropdown filters, and render the chosen map kind.
 */
module App {
  import opened Incidents
  import opened Subsequences
  import opened Cleaning
  import opened Filters
  import opened Scene
  import opened Sampling

  /** The radio "Mapa simple (st.map)" / "Mapa avanzado (Pydeck)". */
  datatype MapKind = SimpleMap | AdvancedMap

  /** Every widget value the script reads. */
  datatype Selection = Selection(district: string, category: string, kind: MapKind, settings: AdvancedSettings)

  /** `df_filtrado`. */
  function Filtered(raw: seq<RawRecord>, district: string, category: string): (ds: seq<Incident>)
    ensures IsSubsequence(ds, Clean(raw))
    ensures forall i :: 0 <= i < |ds| ==> MatchesSelection(ds[i], district, category)
  {
    ApplyFilters(Clean(raw), district, category)
  }

  /** `df_filtrado` is the order-preserving selection of the cleaned rows both dropdown choices admit. */
  lemma FilteredIsSelection(raw: seq<RawRecord>, district: string, category: string)
    ensures Filtered(raw, district, category) == Filter(Clean(raw), (x: Incident) => MatchesSelection(x, district, category))
  {
    FilterUnique(Clean(raw), (x: Incident) => MatchesSelection(x, district, category), Filtered(raw, district, category));
  }

  /** Some loaded row has both coordinates and passes both dropdown choices. */
  predicate SomeRowShown(raw: seq<RawRecord>, district: string, category: string)
  {
    exists row :: row in raw && HasCoordinates(row)
      && Admits(row.district, district, AllDistricts) && Admits(row.category, category, AllCategories)
  }

  /** The filtered table is empty exactly when no loaded row survives cleaning and both filters. */
  lemma FilteredEmptyIff(raw: seq<RawRecord>, district: string, category: string)
    ensures |Filtered(raw, district, category)| > 0 <==> SomeRowShown(raw, district, category)
  {
    var ds := Clean(raw);
    var rows := DropMissingCoordinates(raw);
    var f := Filtered(raw, district, category);
    assert AsRawTable(ds) == rows;
    if |f| > 0 {
      var x := f[0];
      assert multiset(f)[x] > 0;
      assert x in ds;
      var j :| 0 <= j < |ds| && ds[j] == x;
      assert rows[j] == AsRaw(x);
      assert multiset(rows)[AsRaw(x)] > 0;
    }
    if SomeRowShown(raw, district, category) {
      var row :| row in raw && HasCoordinates(row)
        && Admits(row.district, district, AllDistricts) && Admits(row.category, category, AllCategories);
      assert multiset(raw)[row] > 0;
      assert row in rows;
      var j :| 0 <= j < |rows| && rows[j] == row;
      assert AsRaw(ds[j]) == row;
      assert ds[j] == RenameRow(row);
      assert multiset(ds)[ds[j]] > 0;
      assert multiset(f)[ds[j]] > 0;
    }
  }

  /** The page for an already filtered table. */
  function Render(filtered: seq<Incident>, selection: Selection, sampler: Sampler): (page: seq<Widget>)
    requires SamplerSound(sampler, |filtered|)
    ensures |page| >= 2
    ensures selection.kind == SimpleMap ==> page[0] == Subheader(SimpleTitle + selection.district)
    ensures selection.kind == AdvancedMap ==> page[0] == Subheader(AdvancedTitle + selection.district)
    ensures selection.kind == AdvancedMap ==> forall i :: 0 <= i < |page| ==> !page[i].PointMap?
    ensures selection.kind == SimpleMap ==> forall i :: 0 <= i < |page| ==> !page[i].DeckChart?
    ensures selection.kind == AdvancedMap ==>
      forall i :: 0 <= i < |page| - 1 ==> !page[i].DeckChart? && !page[i].Info?
  {
    match selection.kind
    case SimpleMap => SimplePage(filtered, selection.district)
    case AdvancedMap => AdvancedPage(filtered, selection.district, selection.settings, sampler)
  }

  /**
   What the script emits below the dropdowns. Simple mode draws the point
   map exactly when some loaded row survives cleaning and both filters, and
   warns otherwise; advanced mode ends with a deck exactly when a layer is
   selected and some loaded row survives.
   */
  function Page(raw: seq<RawRecord>, selection: Selection, sampler: Sampler): (page: seq<Widget>)
    requires SamplerSound(sampler, |Filtered(raw, selection.district, selection.category)|)
    ensures |page| >= 2
    ensures selection.kind == SimpleMap ==>
      (page[1].PointMap? <==> SomeRowShown(raw, selection.district, selection.category))
    ensures selection.kind == SimpleMap ==>
      (page[1] == Warning(NoRecordsText) <==> !SomeRowShown(raw, selection.district, selection.category))
    ensures selection.kind == AdvancedMap ==>
      forall i :: 0 <= i < |page| - 1 ==> !page[i].DeckChart? && !page[i].Info?
    ensures selection.kind == AdvancedMap ==>
      (page[|page| - 1].DeckChart? <==> selection.settings.selected != {} && SomeRowShown(raw, selection.district, selection.category))
  {
    var filtered := Filtered(raw, selection.district, selection.category);
    FilteredEmptyIff(raw, selection.district, selection.category);
    DeckIffSelectionAndRows(filtered, selection.settings, sampler);
    Render(filtered, selection, sampler)
  }
}
