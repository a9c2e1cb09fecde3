/**
 What the page shows for a filtered table: in simple mode a point map with
 the city-centre anchor, in advanced mode a deck of heatmap and scatter
 layers over a fixed view, and the warnings and notices in between. The
 page is modelled as the sequence of Streamlit elements it emits.
 */
module Scene {
  import opened Incidents
  import opened Colors
  import opened Sampling

  /** Centre of Mexico City, the anchor of both map kinds. */
  const CenterLatitude: real := 19.4326
  const CenterLongitude: real := -99.1332
  const Pitch: int := 40
  const Bearing: int := 0

  const NoRecordsText: string := " No hay registros para esta combinación de filtros."
  const SelectLayerText: string := "Selecciona al menos una capa para visualizar el mapa."
  const SimpleTitle: string := "Mapa básico de incidentes en "
  const AdvancedTitle: string := "Mapa avanzado de incidentes en "
  const TooltipText: string := " Alcaldía: {alcaldia_hecho}\n Delito: {categoria_delito}"

  datatype Point = Point(latitude: real, longitude: real)

  datatype ViewState = ViewState(latitude: real, longitude: real, zoom: real, pitch: int, bearing: int)

  /** The multiselect's two options, "Heatmap" and "Puntos". */
  datatype LayerChoice = HeatmapChoice | PointsChoice

  /** The style radio's two options, "Oscuro" and "Claro". */
  datatype MapStyle = Dark | Light

  /** The sidebar controls of advanced mode. */
  datatype AdvancedSettings = AdvancedSettings(
    selected: set<LayerChoice>,
    style: MapStyle,
    zoom: real,
    pointRadius: int)

  datatype Layer =
    | HeatmapLayer(heatData: seq<Incident>, opacity: real, threshold: real, aggregation: string, weight: int)
    | ScatterplotLayer(scatterData: seq<ColoredIncident>, fill: seq<Rgba>, radius: int, pickable: bool)

  datatype Deck = Deck(mapStyle: string, view: ViewState, layers: seq<Layer>, tooltip: string)

  /** The Streamlit elements the core emits. */
  datatype Widget =
    | Subheader(title: string)
    | Warning(warning: string)
    | Info(notice: string)
    | PointMap(points: seq<Point>)
    | DeckChart(deck: Deck)

  const DarkMatterUrl: string := "https://basemaps.cartocdn.com/gl/dark-matter-gl-style/style.json"
  const PositronUrl: string := "https://basemaps.cartocdn.com/gl/positron-gl-style/style.json"

  /** The style table: each style has its own Carto style document. */
  function StyleUrl(style: MapStyle): (url: string)
    ensures url == DarkMatterUrl <==> style == Dark
    ensures url == PositronUrl <==> style == Light
  {
    match style
    case Dark => DarkMatterUrl
    case Light => PositronUrl
  }

  /** The fill colour the scatter layer gives each of its points. */
  function Fills(points: seq<ColoredIncident>): (fs: seq<Rgba>)
    ensures |fs| == |points|
    ensures forall i :: 0 <= i < |points| ==> fs[i] == FillColor(points[i])
  {
    seq(|points|, i requires 0 <= i < |points| => FillColor(points[i]))
  }

  function Coordinates(ds: seq<Incident>): (ps: seq<Point>)
    ensures |ps| == |ds|
    ensures forall i :: 0 <= i < |ds| ==> ps[i] == Point(ds[i].latitude, ds[i].longitude)
  {
    seq(|ds|, i requires 0 <= i < |ds| => Point(ds[i].latitude, ds[i].longitude))
  }

  /** Simple mode: the filtered points and the anchor, or a warning when nothing is left. */
  function SimplePage(filtered: seq<Incident>, district: string): (page: seq<Widget>)
    ensures |page| == 2 && page[0] == Subheader(SimpleTitle + district)
    ensures !page[1].DeckChart?
    ensures page[1].Warning? <==> |filtered| == 0
    ensures page[1].Warning? ==> page[1].warning == NoRecordsText
    ensures !page[1].Warning? ==> (
      && page[1].PointMap?
      && |page[1].points| == |filtered| + 1
      && page[1].points[|filtered|] == Point(CenterLatitude, CenterLongitude)
      && forall i :: 0 <= i < |filtered| ==> page[1].points[i] == Point(filtered[i].latitude, filtered[i].longitude))
  {
    var anchored := Coordinates(filtered) + [Point(CenterLatitude, CenterLongitude)];
    [Subheader(SimpleTitle + district)]
      + if |filtered| == 0 then [Warning(NoRecordsText)] else [PointMap(anchored)]
  }

  /** The view every deck opens on: the city centre, tilted, facing north. */
  function View(zoom: real): (v: ViewState)
    ensures v.latitude == CenterLatitude && v.longitude == CenterLongitude
    ensures v.pitch == Pitch && v.bearing == Bearing && v.zoom == zoom
  {
    ViewState(CenterLatitude, CenterLongitude, zoom, Pitch, Bearing)
  }

  function HeatmapLayers(filtered: seq<Incident>, settings: AdvancedSettings): (ls: seq<Layer>)
    ensures |ls| <= 1
    ensures |ls| == 1 <==> HeatmapChoice in settings.selected && |filtered| > 0
    ensures forall l :: l in ls ==> l == HeatmapLayer(filtered, 0.9, 0.3, "MEAN", 1)
  {
    if HeatmapChoice in settings.selected && |filtered| > 0 then
      [HeatmapLayer(filtered, 0.9, 0.3, "MEAN", 1)]
    else []
  }

  function ScatterLayers(filtered: seq<Incident>, settings: AdvancedSettings, sampler: Sampler): (ls: seq<Layer>)
    requires SamplerSound(sampler, |filtered|)
    ensures |ls| <= 1
    ensures |ls| == 1 <==> PointsChoice in settings.selected && |filtered| > 0
    ensures forall l :: l in ls ==> (
      && l.ScatterplotLayer? && l.radius == settings.pointRadius && l.pickable
      && |l.scatterData| == (if |filtered| <= MaxScatterRows then |filtered| else MaxScatterRows)
      && (|filtered| <= MaxScatterRows ==> l.scatterData == Encode(filtered))
      && multiset(l.scatterData) <= multiset(Encode(filtered))
      && |l.fill| == |l.scatterData|
      && forall i :: 0 <= i < |l.fill| ==> l.fill[i] == FillColor(l.scatterData[i]))
  {
    if PointsChoice in settings.selected && |filtered| > 0 then
      var points := CapRows(Encode(filtered), sampler);
      [ScatterplotLayer(points, Fills(points), settings.pointRadius, true)]
    else []
  }

  /** The layer list of the deck: the heatmap (if any) before the scatter layer (if any). */
  function Layers(filtered: seq<Incident>, settings: AdvancedSettings, sampler: Sampler): (ls: seq<Layer>)
    requires SamplerSound(sampler, |filtered|)
    ensures |ls| <= 2
    ensures forall i, j :: 0 <= i < j < |ls| ==> ls[i].HeatmapLayer? && ls[j].ScatterplotLayer?
  {
    HeatmapLayers(filtered, settings) + ScatterLayers(filtered, settings, sampler)
  }

  /** The deck when there are layers, the notice to pick a layer otherwise. */
  function Chart(layers: seq<Layer>, settings: AdvancedSettings): (w: Widget)
    ensures w.DeckChart? <==> layers != []
    ensures w.Info? <==> layers == []
    ensures w.Info? ==> w.notice == SelectLayerText
    ensures w.DeckChart? ==> w.deck == Deck(StyleUrl(settings.style), View(settings.zoom), layers, TooltipText)
  {
    if layers != [] then DeckChart(Deck(StyleUrl(settings.style), View(settings.zoom), layers, TooltipText))
    else Info(SelectLayerText)
  }

  /** The advanced page around its final chart: the title, then the warning if any. */
  function Frame(district: string, warned: bool, chart: Widget): (page: seq<Widget>)
    requires !chart.PointMap? && !chart.Warning?
    ensures |page| == if warned then 3 else 2
    ensures page[0] == Subheader(AdvancedTitle + district) && page[|page| - 1] == chart
    ensures |page| == 3 ==> page[1] == Warning(NoRecordsText)
    ensures forall i :: 0 <= i < |page| ==> !page[i].PointMap?
    ensures Warning(NoRecordsText) in page <==> warned
  {
    var warnings := if warned then [Warning(NoRecordsText)] else [];
    [Subheader(AdvancedTitle + district)] + warnings + [chart]
  }

  /**
   Advanced mode: a "no records" warning when points are asked for but
   nothing is left, then the deck if any layer was built, otherwise the
   notice to pick a layer.
   */
  function AdvancedPage(filtered: seq<Incident>, district: string, settings: AdvancedSettings, sampler: Sampler): (page: seq<Widget>)
    requires SamplerSound(sampler, |filtered|)
    ensures |page| == if PointsChoice in settings.selected && |filtered| == 0 then 3 else 2
    ensures page[0] == Subheader(AdvancedTitle + district)
    ensures |page| == 3 ==> page[1] == Warning(NoRecordsText)
    ensures forall i :: 0 <= i < |page| ==> !page[i].PointMap?
    ensures Warning(NoRecordsText) in page <==> PointsChoice in settings.selected && |filtered| == 0
    ensures page[|page| - 1] == Chart(Layers(filtered, settings, sampler), settings)
  {
    Frame(district, PointsChoice in settings.selected && |filtered| == 0, Chart(Layers(filtered, settings, sampler), settings))
  }

  /** A heatmap is drawn iff it is selected and rows are left; it always covers every filtered row. */
  lemma HeatmapPresence(filtered: seq<Incident>, settings: AdvancedSettings, sampler: Sampler)
    requires SamplerSound(sampler, |filtered|)
    ensures (exists l :: l in Layers(filtered, settings, sampler) && l.HeatmapLayer?)
      <==> HeatmapChoice in settings.selected && |filtered| > 0
    ensures forall l :: l in Layers(filtered, settings, sampler) && l.HeatmapLayer? ==> l.heatData == filtered
  {
    var h := HeatmapLayers(filtered, settings);
    var s := ScatterLayers(filtered, settings, sampler);
    assert forall l :: l in h + s <==> l in h || l in s;
    if HeatmapChoice in settings.selected && |filtered| > 0 {
      assert h[0] in h + s;
    }
  }

  /** A scatter layer is drawn iff points are selected and rows are left; it holds at most 1000 rows. */
  lemma ScatterPresence(filtered: seq<Incident>, settings: AdvancedSettings, sampler: Sampler)
    requires SamplerSound(sampler, |filtered|)
    ensures (exists l :: l in Layers(filtered, settings, sampler) && l.ScatterplotLayer?)
      <==> PointsChoice in settings.selected && |filtered| > 0
    ensures forall l :: l in Layers(filtered, settings, sampler) && l.ScatterplotLayer? ==> |l.scatterData| <= MaxScatterRows
  {
    var h := HeatmapLayers(filtered, settings);
    var s := ScatterLayers(filtered, settings, sampler);
    assert forall l :: l in h + s <==> l in h || l in s;
    if PointsChoice in settings.selected && |filtered| > 0 {
      assert s[0] in h + s;
    }
  }

  /** A deck is drawn iff some layer is selected and rows are left; otherwise the page ends with the notice. */
  lemma DeckIffSelectionAndRows(filtered: seq<Incident>, settings: AdvancedSettings, sampler: Sampler)
    requires SamplerSound(sampler, |filtered|)
    ensures Chart(Layers(filtered, settings, sampler), settings).DeckChart? <==> settings.selected != {} && |filtered| > 0
  {
    if settings.selected != {} && |filtered| > 0 {
      var c :| c in settings.selected;
      if c == HeatmapChoice {
        assert |HeatmapLayers(filtered, settings)| == 1;
      } else {
        assert |ScatterLayers(filtered, settings, sampler)| == 1;
      }
    }
  }
}
