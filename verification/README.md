# Crime-incident map pipeline, modelled in Dafny

A model of the data pipeline inside `app_advanced_map.py`, a Streamlit page
that shows crime incidents in Mexico City (CDMX) on a map. The page loads a
table of incidents, drops rows without coordinates, lets the user narrow the
table by district (`alcaldia_hecho`, sentinel `"TODAS"`) and by crime
category (`categoria_delito`, sentinel `"(Todos)"`), and then draws either a
simple point map (`st.map`, the filtered points plus a fixed city-centre
anchor) or a pydeck map with an optional heatmap layer and an optional
scatter layer. The scatter layer colours each point by the position of its
category among the sorted distinct categories, spread over 0..255 as
`(|code| * 13) % 256`, and is capped at 1000 rows by pandas' seeded sampling.

The model is functional: the table is a `seq` of row datatypes, every stage
is a pure function, and the page is the sequence of Streamlit elements the
script emits (`Subheader`, `Warning`, `Info`, `PointMap`, `DeckChart`).

| file | module | what |
|---|---|---|
| options.dfy | `Options` | empty cells (`NaN`/`None`) |
| subsequences.dfy | `Subsequences` | order-preserving row selection (boolean masks, `dropna`) |
| string_order.dfy | `StringOrder` | Python string order, `sorted(set(...))`, positions in the sorted list |
| incidents.dfy | `Incidents` | raw rows (`latitud`/`longitud`) and cleaned rows (`latitude`/`longitude`) |
| cleaning.dfy | `Cleaning` | `dropna` on the coordinates and the column rename |
| filters.dfy | `Filters` | dropdown option lists and the two cascading filters |
| colors.dfy | `Colors` | categorical codes, `color_id`, fill colour |
| sampling.dfy | `Sampling` | the 1000-row cap of the scatter layer |
| scene.dfy | `Scene` | view state, layers, deck, simple and advanced pages |
| app.dfy | `App` | the whole script for one set of widget values |
| scenarios.dfy | `Scenarios` | a worked three-row example |

Inputs that the script gets from outside become parameters: the loaded table
(`seq<RawRecord>`), every widget value (`Selection`, `AdvancedSettings`), and
pandas' sampler (`Sampler`, a function from population size, sample size and
seed to the drawn row positions). The only thing assumed of the sampler
(`SamplerSound`) is that for a table of more than 1000 rows it draws 1000
distinct positions inside the table.

Behaviour of the script worth knowing:

- The colour code is in 0..255 inclusive, because of `% 256`.
- The category dropdown lists the categories of the whole cleaned table, not
  those left after the district filter.
- pandas gives an empty category cell the code -1; `.abs()` turns that into 1,
  so such rows get `color_id` 13, the colour of the second category.
- In advanced mode, when "Puntos" is selected and nothing is left, the page
  shows the "no records" warning and then, since no layer was built, also the
  notice asking to select a layer. When only "Heatmap" is selected and nothing
  is left, only that notice is shown.
- A district actually named `"TODAS"` (or a category named `"(Todos)"`) could
  not be selected on its own: choosing it means "no filter".

## Model

| member | source | states |
|---|---|---|
| Subsequences.Filter | app_advanced_map.py:35-36 | a boolean-mask selection is an order-preserving subsequence, every kept row passes the mask, and each passing row is kept exactly as often as it occurs |
| Subsequences.FilterUnique | app_advanced_map.py:25 | any order-preserving selection holding exactly the passing rows, with their multiplicities, is the mask selection |
| Subsequences.FilterIdempotent | app_advanced_map.py:11 | applying the same row filter twice is the same as once |
| Subsequences.FilterCommute | app_advanced_map.py:22-36 | two row filters give the same rows in the same order whichever is applied first |
| StringOrder.LessTransitive | app_advanced_map.py:15 | Python's string order is transitive |
| StringOrder.LessTotal | app_advanced_map.py:15 | any two different strings are ordered one way or the other |
| StringOrder.SortedDistinct | app_advanced_map.py:15 | `sorted(unique(values))` is strictly increasing and holds exactly the values present |
| StringOrder.SortedUnique | app_advanced_map.py:15 | a strictly sorted list is determined by its elements, so the sorted distinct list is unique |
| StringOrder.IndexOf | app_advanced_map.py:123 | the position of a value is -1 iff the value is absent, else the first position holding it |
| StringOrder.IndexOfSorted | app_advanced_map.py:120-123 | in a strictly sorted list each element's position is its only one |
| Cleaning.DropMissingCoordinates | app_advanced_map.py:11 | `dropna` keeps, in order and with multiplicity, exactly the rows with both coordinates |
| Cleaning.RenameCoordinates | app_advanced_map.py:12 | the rename keeps every row and every value, only under the new column names |
| Cleaning.Clean | app_advanced_map.py:11-12 | the cleaned table, read back under the source column names, is the `dropna` result, and is no longer than the input |
| Cleaning.RenameRoundTrip | app_advanced_map.py:12 | renaming back and forth loses nothing |
| Cleaning.CleanKeepsExactlyLocatedRows | app_advanced_map.py:11-12 | cleaning equals every order-preserving selection that holds exactly the rows with both coordinates |
| Cleaning.CleanIdempotent | app_advanced_map.py:11-12 | cleaning an already clean table changes nothing |
| Filters.PresentValues | app_advanced_map.py:15 | `column.dropna()` holds a value iff some row has it in that column |
| Filters.ChoiceList | app_advanced_map.py:15-18 | a dropdown list is the sentinel first, then the present values once each in increasing order |
| Filters.DistrictChoices | app_advanced_map.py:15-19 | the district dropdown starts with "TODAS" and then lists every district present, once, sorted |
| Filters.CategoryChoices | app_advanced_map.py:29-33 | the category dropdown starts with "(Todos)" and then lists every category of the cleaned table, once, sorted |
| Filters.FilterColumn | app_advanced_map.py:22-25 | the sentinel leaves the table as is; any other choice keeps, in order and with multiplicity, exactly the rows whose cell equals it |
| Filters.FilterByDistrict | app_advanced_map.py:21-25 | "TODAS" is the identity; otherwise an order-preserving subsequence holding every row of that district exactly as often as the table does, and no other row |
| Filters.FilterByCategory | app_advanced_map.py:35-36 | "(Todos)" is the identity; otherwise an order-preserving subsequence holding every row of that category exactly as often as the table does, and no other row |
| Filters.ApplyFilters | app_advanced_map.py:21-36 | the filtered table is the order-preserving selection of exactly the rows both choices admit |
| Filters.FilterOrderIrrelevant | app_advanced_map.py:21-36 | filtering by category first and district second gives the same table |
| Colors.Categories | app_advanced_map.py:120-123 | the categories of the filtered column are strictly sorted and are exactly the non-empty categories present |
| Colors.CategoryCode | app_advanced_map.py:120-124 | a category's code is its position among the categories, and -1 exactly for an empty or unknown cell |
| Colors.ColorId | app_advanced_map.py:125-129 | the spread code is always in 0..255 |
| Colors.Encode | app_advanced_map.py:120-130 | every row keeps its values and gets one colour in 0..255, equal to `(k * 13) % 256` for the position k of its category, and 13 for an empty category |
| Colors.ColorOfCategory | app_advanced_map.py:120-130 | a row whose category sits at position k of the sorted categories gets colour `(k * 13) % 256` |
| Colors.SameCategorySameColor | app_advanced_map.py:120-130 | rows of the same category get the same colour |
| Colors.SpreadInjective | app_advanced_map.py:129 | multiplying by 13 modulo 256 maps distinct positions below 256 to distinct colours |
| Colors.DistinctCategoriesDistinctColors | app_advanced_map.py:120-130 | with at most 256 categories, rows of different categories get different colours |
| Colors.FillColor | app_advanced_map.py:140 | red is the colour code, red and green add up to 200, blue is 160 and alpha 120 |
| Colors.FillColorOfEncoded | app_advanced_map.py:129-140 | for encoded rows red lies in 0..255 and green in -55..200, and rows of one category share their fill |
| Sampling.Take | app_advanced_map.py:135 | the sample holds, in draw order, the rows at the drawn positions |
| Sampling.TakeDistinctSubMultiset | app_advanced_map.py:135 | rows drawn at distinct positions form a sub-multiset of the table |
| Sampling.CapRows | app_advanced_map.py:135-136 | the scatter data has `min(n, 1000)` rows, is the table itself up to 1000 rows, and never repeats a row beyond its multiplicity |
| Scene.Coordinates | app_advanced_map.py:55 | the point table keeps, row by row and in order, exactly the latitude and longitude of each filtered row |
| Scene.StyleUrl | app_advanced_map.py:78-82 | "Oscuro" selects the Carto dark-matter style and "Claro" the positron style, and the two never coincide |
| Scene.SimplePage | app_advanced_map.py:50-60 | simple mode warns iff the filtered table is empty; otherwise it maps the filtered points in order followed by the city-centre anchor |
| Scene.View | app_advanced_map.py:89-95 | the view is centred on (19.4326, -99.1332) with pitch 40, bearing 0 and the chosen zoom |
| Scene.HeatmapLayers | app_advanced_map.py:100-112 | a heatmap layer is built iff "Heatmap" is selected and rows are left, over the whole filtered table with opacity 0.9, threshold 0.3, MEAN aggregation and weight 1 |
| Scene.Fills | app_advanced_map.py:140 | one fill per point, each the point's colour from its `color_id` |
| Scene.ScatterLayers | app_advanced_map.py:114-143 | a scatter layer is built iff "Puntos" is selected and rows are left; it is pickable, has the chosen radius, holds the capped encoded rows and gives each drawn point the fill of its own `color_id` |
| Scene.Layers | app_advanced_map.py:98-143 | at most two layers, the heatmap always before the scatter layer |
| Scene.Chart | app_advanced_map.py:145-158 | the deck is shown iff there is a layer, with the chosen style, the fixed view, the layers and the tooltip; otherwise the notice to select a layer |
| Scene.AdvancedPage | app_advanced_map.py:65-158 | advanced mode shows the title, then the warning iff "Puntos" is selected and nothing is left, then the deck-or-notice decision, and nothing else |
| Scene.HeatmapPresence | app_advanced_map.py:100-112 | the layer list holds a heatmap iff "Heatmap" is selected and rows are left, and it is never sampled |
| Scene.ScatterPresence | app_advanced_map.py:114-143 | the layer list holds a scatter layer iff "Puntos" is selected and rows are left, with at most 1000 rows |
| Scene.DeckIffSelectionAndRows | app_advanced_map.py:98-158 | a deck is shown iff some layer is selected and rows are left |
| App.Filtered | app_advanced_map.py:11-36 | the filtered table is an order-preserving subsequence of the cleaned table and every row passes both choices |
| App.FilteredIsSelection | app_advanced_map.py:11-36 | the filtered table is exactly the cleaned rows both choices admit, in order |
| App.FilteredEmptyIff | app_advanced_map.py:11-36 | the filtered table is non-empty iff some loaded row has both coordinates and passes both choices |
| App.Render | app_advanced_map.py:50-158 | each mode shows its own title and never the other mode's map; in advanced mode only the last widget is a deck or the notice |
| App.Page | app_advanced_map.py:11-158 | simple mode draws the map iff some loaded row survives cleaning and both filters, and warns otherwise; advanced mode ends with a deck iff a layer is selected and some loaded row survives, and no widget before the last is a deck or the notice |
| Scenarios.ThreeRowScenario | app_advanced_map.py:11-60 | with two thefts in "A" and one assault in "B": district "A" keeps two rows, assault gets colour 0 and both thefts 13, and the simple map shows two points and the anchor |

## Left out

- Streamlit widgets (`selectbox`, `radio`, `multiselect`, `slider`) and the title and sidebar header: their values are the fields of `Selection` and `AdvancedSettings`, and they draw nothing the pipeline depends on.
- `pd.read_csv`: file I/O; the loaded table is a parameter.
- pandas' `sample(1000, random_state=42)`: its random-number algorithm is a foreign library; it is the `Sampler` parameter, assumed only to draw distinct positions inside the table. That the same seed gives the same rows follows from `Sampler` being a function.
- The slider bounds (zoom 8.0 to 15.0, radius 10 to 100): the script passes the slider's value through unchanged, so the model accepts any value.
- pydeck and deck.gl rendering: what opacity, threshold, aggregation, `get_position`, the style URLs, the chart height and a fill channel outside 0..255 mean on screen.
- Coordinates are opaque `real` payloads; NaN is modelled as an empty cell, and no arithmetic is done on them.
- A loaded table missing one of the four columns: pandas raises `KeyError`; the record datatypes always have every column, so this failure cannot be expressed.
- Columns other than coordinates, district and category: pandas passes them through untouched.
- `.astype(str)` in the option lists: district and category cells are modelled as strings already, so the conversion is the identity.
- The heatmap layer is modelled without the `color_id` column that the script adds to the same frame afterwards.
- Colors.DistinctCategoriesDistinctColors: only claims distinct colours for up to 256 categories, because the spread repeats after 256 positions.
