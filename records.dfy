/** The tabular records that pass from the extractors to the senders: a CSV row as
    the mapping from column name to cell that `csv.DictWriter` writes and
    `csv.DictReader` reads back, the lines of the written table, and the JSON
    payload `{provider, metadata}` the senders post. */
module Records {
  import opened Collections

  type CsvRow = map<string, string>

  /** Cell `i` of a column built from `xs`: `xs[i] if i < len(xs) else ''`. */
  function Cell(xs: seq<string>, i: nat): string {
    if i < |xs| then xs[i] else ""
  }

  /** `xs` followed by empty cells up to length `n`. */
  function Padded(xs: seq<string>, n: nat): (r: seq<string>)
    requires |xs| <= n
    ensures |r| == n && r[..|xs|] == xs
    ensures forall i :: |xs| <= i < n ==> r[i] == ""
  {
    xs + seq(n - |xs|, _ => "")
  }

  predicate HasColumn(rows: seq<CsvRow>, name: string) {
    forall i :: 0 <= i < |rows| ==> name in rows[i]
  }

  /** The cells of one column, top to bottom. */
  function Column(rows: seq<CsvRow>, name: string): (r: seq<string>)
    requires HasColumn(rows, name)
    ensures |r| == |rows| && forall i :: 0 <= i < |rows| ==> r[i] == rows[i][name]
  {
    seq(|rows|, i requires 0 <= i < |rows| => rows[i][name])
  }

  /** A column whose cells are `Cell(xs, i)` reads back as `xs` padded with empty
      cells: no value is lost, moved or invented. */
  lemma ColumnOfCells(rows: seq<CsvRow>, name: string, xs: seq<string>)
    requires |xs| <= |rows| && HasColumn(rows, name)
    requires forall i :: 0 <= i < |rows| ==> rows[i][name] == Cell(xs, i)
    ensures Column(rows, name) == Padded(xs, |rows|)
  {
    var c := Column(rows, name);
    var p := Padded(xs, |rows|);
    forall i | 0 <= i < |rows| ensures c[i] == p[i] {
      if i < |xs| { assert p[i] == p[..|xs|][i]; }
    }
  }

  /** A written line: the row's cells in `fieldnames` order, '' for a missing key
      (the `restval` of `csv.DictWriter`). */
  function WriteLine(fieldnames: seq<string>, row: CsvRow): (line: seq<string>)
    ensures |line| == |fieldnames|
    ensures forall j :: 0 <= j < |fieldnames| && fieldnames[j] in row ==> line[j] == row[fieldnames[j]]
  {
    seq(|fieldnames|, j requires 0 <= j < |fieldnames| =>
      if fieldnames[j] in row then row[fieldnames[j]] else "")
  }

  /** `writer.writeheader()` then `writer.writerows(rows)`: the table as lines of
      fields (the CSV quoting of each field is not modelled). */
  function WriteTable(fieldnames: seq<string>, rows: seq<CsvRow>): (table: seq<seq<string>>)
    ensures |table| == |rows| + 1 && table[0] == fieldnames
    ensures forall i :: 0 <= i < |rows| ==> table[i + 1] == WriteLine(fieldnames, rows[i])
  {
    [fieldnames] + seq(|rows|, i requires 0 <= i < |rows| => WriteLine(fieldnames, rows[i]))
  }

  /** The JSON object `{"provider": ..., "metadata": {...}}` posted for one row. */
  datatype Payload = Payload(provider: string, metadata: map<string, string>)

  /** The LiveKit CSV columns and the metadata key each becomes in a payload. */
  const Renames: seq<(string, string)> := [
    ("email", "email"),
    ("LIVE_KIT_URL", "LIVEKIT_URL"),
    ("LIVEKIT_API_KEYS", "LIVEKIT_API_KEY"),
    ("LIVEKIT_SECRET_KEYS", "LIVEKIT_API_SECRET")
  ]

  /** The metadata keys of a LiveKit payload: the new name of every renamed column. */
  function MetadataKeys(): set<string> {
    {"email", "LIVEKIT_URL", "LIVEKIT_API_KEY", "LIVEKIT_API_SECRET"}
  }
}
