/**
 Rows of the incident table. `RawRecord` is a row as read from the CSV,
 with the coordinate columns `latitud`/`longitud` possibly empty;
 `Incident` is a row after cleaning, under the renamed columns
 `latitude`/`longitude`, which are always present. `alcaldia_hecho`
 (the district) and `categoria_delito` (the crime category) may be empty
 in both. Other columns are passed through untouched by the pipeline and
 are not represented.
 */
module Incidents {
  import opened Options

  datatype RawRecord = RawRecord(
    latitud: Option<real>,
    longitud: Option<real>,
    district: Option<string>,
    category: Option<string>)

  datatype Incident = Incident(
    latitude: real,
    longitude: real,
    district: Option<string>,
    category: Option<string>)

  /** Kept by `dropna` on the two coordinate columns. */
  predicate HasCoordinates(row: RawRecord)
  {
    row.latitud.Some? && row.longitud.Some?
  }
}
