/**
 Colour encoding of the scatter layer: each row's crime category is
 replaced by its position among the sorted distinct categories of the
 filtered table (pandas' categorical codes, -1 for an empty cell), and the
 absolute code is spread over 0..255 as `(|code| * 13) % 256`.
 */
module Colors {
  import opened Options
  import opened Incidents
  import opened StringOrder
  import Filters

  const Spread: int := 13
  const Channels: int := 256

  /** The categories of `astype("category")`: every non-empty category once, sorted. */
  function Categories(ds: seq<Incident>): (cats: seq<string>)
    ensures StrictlySorted(cats)
    ensures forall c :: c in cats <==> exists x :: x in ds && x.category == Some(c)
  {
    SortedDistinct(Filters.PresentValues(ds, Filters.CategoryOf))
  }

  /** `.cat.codes`: position among `cats`, or -1 for an empty or unknown cell. */
  function CategoryCode(category: Option<string>, cats: seq<string>): (code: int)
    ensures -1 <= code < |cats|
    ensures code >= 0 <==> category.Some? && category.value in cats
    ensures code >= 0 ==> cats[code] == category.value
  {
    match category
    case None => -1
    case Some(c) => IndexOf(cats, c)
  }

  function Abs(n: int): (m: nat)
    ensures m == n || m == -n
  {
    if n < 0 then -n else n
  }

  /** The absolute code times 13, modulo 256. */
  function ColorId(code: int): (c: int)
    ensures 0 <= c < Channels
  {
    (Abs(code) * Spread) % Channels
  }

  /** A filtered row together with its `color_id` column. */
  datatype ColoredIncident = ColoredIncident(incident: Incident, colorId: int)

  /** Adds the `color_id` column to the filtered table. */
  function Encode(ds: seq<Incident>): (r: seq<ColoredIncident>)
    ensures |r| == |ds|
    ensures forall i :: 0 <= i < |ds| ==> r[i].incident == ds[i] && 0 <= r[i].colorId < Channels
    ensures forall i :: 0 <= i < |ds| && ds[i].category.Some? ==>
      exists k :: 0 <= k < |Categories(ds)| && Categories(ds)[k] == ds[i].category.value && r[i].colorId == (k * Spread) % Channels
    ensures forall i :: 0 <= i < |ds| && ds[i].category.None? ==> r[i].colorId == Spread
  {
    var cats := Categories(ds);
    seq(|ds|, i requires 0 <= i < |ds| => ColoredIncident(ds[i], ColorId(CategoryCode(ds[i].category, cats))))
  }

  /** The colour of a category is its sorted position, spread: the position is the only one it has. */
  lemma ColorOfCategory(ds: seq<Incident>, i: int, k: int)
    requires 0 <= i < |ds| && 0 <= k < |Categories(ds)|
    requires ds[i].category == Some(Categories(ds)[k])
    ensures Encode(ds)[i].colorId == (k * Spread) % Channels
  {
    IndexOfSorted(Categories(ds), k);
  }

  /** Rows of the same category are drawn in the same colour. */
  lemma SameCategorySameColor(ds: seq<Incident>, i: int, j: int)
    requires 0 <= i < |ds| && 0 <= j < |ds|
    requires ds[i].category == ds[j].category
    ensures Encode(ds)[i].colorId == Encode(ds)[j].colorId
  {
  }

  /**
   Multiplying by 13 permutes 0..255 (13 * 197 == 10 * 256 + 1), so two
   distinct category positions below 256 never share a colour.
   */
  lemma SpreadInjective(a: int, b: int)
    requires 0 <= a < Channels && 0 <= b < Channels
    requires (a * Spread) % Channels == (b * Spread) % Channels
    ensures a == b
  {
    var qa := (a * 13) / 256;
    var qb := (b * 13) / 256;
    assert a * 13 == 256 * qa + (a * 13) % 256;
    assert b * 13 == 256 * qb + (b * 13) % 256;
    var d := a - b;
    assert 13 * d == 256 * (qa - qb);
    assert 2561 * d == 256 * (197 * (qa - qb));
    assert d == 256 * (197 * (qa - qb) - 10 * d);
  }

  /** While there are at most 256 categories, distinct categories get distinct colours. */
  lemma DistinctCategoriesDistinctColors(ds: seq<Incident>, i: int, j: int)
    requires 0 <= i < |ds| && 0 <= j < |ds|
    requires |Categories(ds)| <= Channels
    requires ds[i].category.Some? && ds[j].category.Some? && ds[i].category != ds[j].category
    ensures Encode(ds)[i].colorId != Encode(ds)[j].colorId
  {
    var cats := Categories(ds);
    assert ds[i] in ds && ds[j] in ds;
    var ki := IndexOf(cats, ds[i].category.value);
    var kj := IndexOf(cats, ds[j].category.value);
    if Encode(ds)[i].colorId == Encode(ds)[j].colorId {
      SpreadInjective(ki, kj);
    }
  }

  /** RGBA channels of `get_fill_color`. */
  datatype Rgba = Rgba(red: int, green: int, blue: int, alpha: int)

  /** The per-point fill: red from the colour code, green its complement to 200, fixed blue and alpha. */
  function FillColor(p: ColoredIncident): (c: Rgba)
    ensures c.red == p.colorId && c.red + c.green == 200
    ensures c.blue == 160 && c.alpha == 120
  {
    Rgba(p.colorId, 200 - p.colorId, 160, 120)
  }

  /**
   Fill colours of encoded rows: red is the category's colour code, in
   0..255, green is what red leaves of 200, and rows of one category share
   their fill.
   */
  lemma FillColorOfEncoded(ds: seq<Incident>, i: int, j: int)
    requires 0 <= i < |ds| && 0 <= j < |ds|
    ensures 0 <= FillColor(Encode(ds)[i]).red < Channels
    ensures -56 < FillColor(Encode(ds)[i]).green <= 200
    ensures ds[i].category == ds[j].category ==> FillColor(Encode(ds)[i]) == FillColor(Encode(ds)[j])
  {
  }
}
