/** Coordinate cleaning: drop rows missing a coordinate, then rename the coordinate columns. */
module Cleaning {
  import opened Options
  import opened Incidents
  import opened Subsequences

  /** pandas `dropna` restricted to the two coordinate columns. */
  function DropMissingCoordinates(raw: seq<RawRecord>): (rows: seq<RawRecord>)
    ensures IsSubsequence(rows, raw)
    ensures forall i :: 0 <= i < |rows| ==> HasCoordinates(rows[i])
    ensures forall row :: multiset(rows)[row] == if HasCoordinates(row) then multiset(raw)[row] else 0
  {
    Filter(raw, HasCoordinates)
  }

  /** One row under the cleaned schema: same values, coordinate columns renamed. */
  function RenameRow(row: RawRecord): (x: Incident)
    requires HasCoordinates(row)
    ensures AsRaw(x) == row
  {
    Incident(row.latitud.value, row.longitud.value, row.district, row.category)
  }

  /** An incident seen under the source schema again. */
  function AsRaw(x: Incident): (row: RawRecord)
    ensures HasCoordinates(row)
  {
    RawRecord(Some(x.latitude), Some(x.longitude), x.district, x.category)
  }

  /** The column rename from `latitud`/`longitud` to `latitude`/`longitude`. */
  function RenameCoordinates(rows: seq<RawRecord>): (ds: seq<Incident>)
    requires forall i :: 0 <= i < |rows| ==> HasCoordinates(rows[i])
    ensures |ds| == |rows|
    ensures forall i :: 0 <= i < |rows| ==> AsRaw(ds[i]) == rows[i]
  {
    seq(|rows|, i requires 0 <= i < |rows| => RenameRow(rows[i]))
  }

  function AsRawTable(ds: seq<Incident>): (rows: seq<RawRecord>)
    ensures |rows| == |ds|
    ensures forall i :: 0 <= i < |ds| ==> HasCoordinates(rows[i])
  {
    seq(|ds|, i requires 0 <= i < |ds| => AsRaw(ds[i]))
  }

  /** The cleaned table every later stage works on. */
  function Clean(raw: seq<RawRecord>): (ds: seq<Incident>)
    ensures |ds| <= |raw|
    ensures AsRawTable(ds) == DropMissingCoordinates(raw)
  {
    var rows := DropMissingCoordinates(raw);
    SubsequenceLength(rows, raw);
    RenameCoordinates(rows)
  }

  /** Renaming loses nothing: every cleaned row comes back as the raw row it was made from. */
  lemma RenameRoundTrip(ds: seq<Incident>)
    ensures RenameCoordinates(AsRawTable(ds)) == ds
  {
  }

  /**
   Cleaning keeps exactly the rows that have both coordinates, in their
   original order and with their values: it equals any order-preserving
   selection that holds each such row as often as the input does.
   */
  lemma CleanKeepsExactlyLocatedRows(raw: seq<RawRecord>, kept: seq<RawRecord>)
    requires IsSubsequence(kept, raw)
    requires forall row :: multiset(kept)[row] == if HasCoordinates(row) then multiset(raw)[row] else 0
    ensures AsRawTable(Clean(raw)) == kept
  {
    FilterUnique(raw, HasCoordinates, kept);
  }

  /** Cleaning an already clean table (seen under the source schema) changes nothing. */
  lemma CleanIdempotent(raw: seq<RawRecord>)
    ensures Clean(AsRawTable(Clean(raw))) == Clean(raw)
  {
    var ds := Clean(raw);
    FilterIdempotent(raw, HasCoordinates);
    assert DropMissingCoordinates(AsRawTable(ds)) == AsRawTable(ds);
    RenameRoundTrip(ds);
  }
}
