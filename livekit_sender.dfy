/** The one-by-one sender: every row of the LiveKit CSV becomes a payload whose four
    values are the row's cells with surrounding whitespace removed (an absent column
    gives an empty value); each payload is posted once, and every post is counted as
    a success (status 200 or 201) or a failure (any other status, or an exception).
    The responses of the server are inputs of the model. */
module LiveKitSender {
  import opened Text
  import opened Records
  import LiveKitBatchSender

  /** `row.get(column, "")`. */
  function Field(row: CsvRow, column: string): (v: string)
    ensures column in row ==> v == row[column]
    ensures column !in row ==> v == ""
  {
    if column in row then row[column] else ""
  }

  /** `row.get(column, "").strip()`. */
  function Cleaned(row: CsvRow, column: string): string {
    Strip(Field(row, column))
  }

  /** The payload for the four values, under their metadata names. */
  function MetadataPayload(email: string, url: string, apiKey: string, apiSecret: string): (p: Payload)
    ensures p.provider == "livekit"
    ensures p.metadata.Keys == MetadataKeys()
    ensures p.metadata[Renames[0].1] == email && p.metadata[Renames[1].1] == url
    ensures p.metadata[Renames[2].1] == apiKey && p.metadata[Renames[3].1] == apiSecret
  {
    Payload("livekit", map[
      "email" := email, "LIVEKIT_URL" := url, "LIVEKIT_API_KEY" := apiKey, "LIVEKIT_API_SECRET" := apiSecret])
  }

  /** The payload built for one row. */
  function SenderPayload(row: CsvRow): Payload {
    MetadataPayload(Cleaned(row, "email"), Cleaned(row, "LIVE_KIT_URL"),
      Cleaned(row, "LIVEKIT_API_KEYS"), Cleaned(row, "LIVEKIT_SECRET_KEYS"))
  }

  /** A row's payload: provider `livekit` and, under each metadata name, the
      stripped cell of the column it renames. */
  lemma SenderPayloadValues(row: CsvRow)
    ensures SenderPayload(row).provider == "livekit"
    ensures SenderPayload(row).metadata.Keys == MetadataKeys()
    ensures forall i :: 0 <= i < |Renames| ==> SenderPayload(row).metadata[Renames[i].1] == Cleaned(row, Renames[i].0)
  {
  }

  /** What `strip` leaves of a cell: no whitespace at either end, and nothing at
      all exactly when the cell is absent or all whitespace. */
  lemma CleanedSpec(row: CsvRow, column: string)
    ensures var v := Cleaned(row, column);
      && Unpadded(v)
      && (v == [] <==> (column in row ==> forall k :: 0 <= k < |row[column]| ==> IsSpace(row[column][k])))
  {
    StripSpec(Field(row, column));
  }

  /** Both senders post the same payload for a row that has the four columns and no
      whitespace around its cells. */
  lemma SendersAgree(row: CsvRow)
    requires LiveKitBatchSender.HasColumns(row)
    requires forall i :: 0 <= i < |Renames| ==> Unpadded(row[Renames[i].0])
    ensures SenderPayload(row) == LiveKitBatchSender.BatchPayload(row)
  {
    SenderPayloadValues(row);
    var p := SenderPayload(row);
    var q := LiveKitBatchSender.BatchPayload(row);
    forall i | 0 <= i < |Renames| ensures p.metadata[Renames[i].1] == q.metadata[Renames[i].1] {
      StripUnchanged(row[Renames[i].0]);
    }
    assert p.metadata.Keys == q.metadata.Keys;
    assert forall key :: key in p.metadata.Keys ==> exists i :: 0 <= i < |Renames| && key == Renames[i].1;
  }

  /** The loop over the CSV reader: one payload per row, in order. */
  method BuildPayloads(rows: seq<CsvRow>) returns (payloads: seq<Payload>)
    ensures |payloads| == |rows|
    ensures forall i :: 0 <= i < |rows| ==> payloads[i] == SenderPayload(rows[i])
  {
    payloads := [];
    for i := 0 to |rows|
      invariant |payloads| == i
      invariant forall k :: 0 <= k < i ==> payloads[k] == SenderPayload(rows[k])
    {
      var payload := SenderPayload(rows[i]);
      payloads := payloads + [payload];
    }
  }

  /** What one `requests.post` came back with: a response with its status code, or
      an exception (a timeout, a refused connection). */
  datatype Response = Status(code: int) | Raised

  predicate Succeeded(r: Response) {
    r.Status? && (r.code == 200 || r.code == 201)
  }

  /** The number of successful posts. */
  function Successes(responses: seq<Response>): (n: nat)
    ensures n <= |responses|
    ensures n == 0 <==> forall j :: 0 <= j < |responses| ==> !Succeeded(responses[j])
    ensures n == |responses| <==> forall j :: 0 <= j < |responses| ==> Succeeded(responses[j])
  {
    if responses == [] then 0
    else Successes(responses[..|responses| - 1]) + (if Succeeded(responses[|responses| - 1]) then 1 else 0)
  }

  /** `Successes` counts each response once: over a concatenation it adds up. */
  lemma {:induction false} SuccessesAppend(a: seq<Response>, b: seq<Response>)
    ensures Successes(a + b) == Successes(a) + Successes(b)
    decreases |b|
  {
    if b == [] {
      assert a + b == a;
    } else {
      var b' := b[..|b| - 1];
      assert (a + b)[..|a + b| - 1] == a + b';
      SuccessesAppend(a, b');
    }
  }

  /** The sending loop: payload `i` is posted once and answered by `responses[i]`;
      it counts as a success or as a failure, never both and never neither. */
  method SendAll(payloads: seq<Payload>, responses: seq<Response>)
    returns (posted: seq<Payload>, successCount: nat, failureCount: nat)
    requires |responses| == |payloads|
    ensures posted == payloads
    ensures successCount == Successes(responses)
    ensures successCount + failureCount == |payloads|
  {
    successCount := 0;
    failureCount := 0;
    posted := [];
    for idx := 0 to |payloads|
      invariant posted == payloads[..idx]
      invariant successCount == Successes(responses[..idx])
      invariant successCount + failureCount == idx
    {
      posted := posted + [payloads[idx]];
      assert responses[..idx + 1][..idx] == responses[..idx];
      var response := responses[idx];
      if response.Status? && (response.code == 200 || response.code == 201) {
        successCount := successCount + 1;
      } else {
        failureCount := failureCount + 1;
      }
    }
    assert responses[..|payloads|] == responses;
  }

  /** The whole script once the CSV has been read into `rows`. */
  method Run(rows: seq<CsvRow>, responses: seq<Response>)
    returns (posted: seq<Payload>, successCount: nat, failureCount: nat)
    requires |responses| == |rows|
    ensures |posted| == |rows| && forall i :: 0 <= i < |rows| ==> posted[i] == SenderPayload(rows[i])
    ensures successCount == Successes(responses)
    ensures successCount + failureCount == |rows|
  {
    var payloads := BuildPayloads(rows);
    posted, successCount, failureCount := SendAll(payloads, responses);
  }
}
