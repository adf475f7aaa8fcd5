/** The batch sender: the rows of the LiveKit CSV, turned into payloads, are posted
    to the store's `set` endpoint in batches of five, each under its own numbered key;
    a last, shorter batch holds the rows left over. */
module LiveKitBatchSender {
  import opened Collections
  import opened Text
  import opened Records

  const BaseKey: string := "livekit_credentials_test_batch"
  const BatchSize: nat := 5

  /** `row[column]` succeeds for every column the payload reads. */
  predicate HasColumns(row: CsvRow) {
    forall i :: 0 <= i < |Renames| ==> Renames[i].0 in row
  }

  /** The payload for one row: the four columns under their metadata names, the
      values unchanged. */
  function BatchPayload(row: CsvRow): (p: Payload)
    requires HasColumns(row)
    ensures p.provider == "livekit"
    ensures p.metadata.Keys == MetadataKeys()
    ensures forall i :: 0 <= i < |Renames| ==> p.metadata[Renames[i].1] == row[Renames[i].0]
  {
    assert Renames[0].0 in row && Renames[1].0 in row && Renames[2].0 in row && Renames[3].0 in row;
    Payload("livekit", map[
      "email" := row["email"],
      "LIVEKIT_URL" := row["LIVE_KIT_URL"],
      "LIVEKIT_API_KEY" := row["LIVEKIT_API_KEYS"],
      "LIVEKIT_API_SECRET" := row["LIVEKIT_SECRET_KEYS"]])
  }

  function BatchPayloads(rows: seq<CsvRow>): (ps: seq<Payload>)
    requires forall i :: 0 <= i < |rows| ==> HasColumns(rows[i])
    ensures |ps| == |rows| && forall i :: 0 <= i < |rows| ==> ps[i] == BatchPayload(rows[i])
  {
    seq(|rows|, i requires 0 <= i < |rows| => BatchPayload(rows[i]))
  }

  lemma BatchPayloadsPrefix(rows: seq<CsvRow>, n: nat)
    requires n <= |rows| && forall i :: 0 <= i < |rows| ==> HasColumns(rows[i])
    ensures BatchPayloads(rows)[..n] == BatchPayloads(rows[..n])
  {
  }

  /** `f"{BASE_KEY}:{batch_number}"`. */
  function BatchKey(n: nat): string {
    BaseKey + ":" + Decimal(n)
  }

  /** Different batches are stored under different keys. */
  lemma BatchKeyInjective(m: nat, n: nat)
    requires BatchKey(m) == BatchKey(n)
    ensures m == n
  {
    var prefix := BaseKey + ":";
    assert BatchKey(m)[|prefix|..] == Decimal(m);
    assert BatchKey(n)[|prefix|..] == Decimal(n);
    DecimalInjective(m, n);
  }

  /** `f"{UPSTASH_URL}/set/{key}"`. */
  function BatchUrl(upstashUrl: string, n: nat): string {
    upstashUrl + "/set/" + BatchKey(n)
  }

  /** One `requests.post(api_url, json=batch, ...)`. */
  datatype Request = Request(url: string, body: seq<Payload>)

  /** The script runs to the end, or stops with the KeyError of row `row`. */
  datatype Outcome = Finished | KeyMissing(row: nat)

  function Bodies(sent: seq<Request>): (bs: seq<seq<Payload>>)
    ensures |bs| == |sent| && forall j :: 0 <= j < |sent| ==> bs[j] == sent[j].body
  {
    seq(|sent|, j requires 0 <= j < |sent| => sent[j].body)
  }

  lemma BodiesSnoc(sent: seq<Request>, r: Request)
    ensures Bodies(sent + [r]) == Bodies(sent) + [r.body]
  {
  }

  /** Posting `batch` as batch number `|sent| + 1` extends what has been sent by
      exactly that batch, under its own key. */
  lemma PostStep(upstashUrl: string, sent: seq<Request>, batch: seq<Payload>)
    requires forall j :: 0 <= j < |sent| ==> sent[j].url == BatchUrl(upstashUrl, j + 1)
    ensures var sent' := sent + [Request(upstashUrl + "/set/" + (BaseKey + ":" + Decimal(|sent| + 1)), batch)];
      && Flatten(Bodies(sent')) == Flatten(Bodies(sent)) + batch
      && forall j :: 0 <= j < |sent'| ==> sent'[j].url == BatchUrl(upstashUrl, j + 1)
  {
    var r := Request(upstashUrl + "/set/" + (BaseKey + ":" + Decimal(|sent| + 1)), batch);
    BodiesSnoc(sent, r);
    FlattenSnoc(Bodies(sent), batch);
  }

  /** Posting a full `batch` keeps every sent batch at five payloads, numbered in
      order, with nothing pending afterwards. */
  lemma PostFull(upstashUrl: string, sent: seq<Request>, batch: seq<Payload>)
    requires |batch| == BatchSize
    requires forall j :: 0 <= j < |sent| ==> |sent[j].body| == BatchSize
    requires forall j :: 0 <= j < |sent| ==> sent[j].url == BatchUrl(upstashUrl, j + 1)
    ensures var sent' := sent + [Request(upstashUrl + "/set/" + (BaseKey + ":" + Decimal(|sent| + 1)), batch)];
      && Flatten(Bodies(sent')) + [] == Flatten(Bodies(sent)) + batch
      && (forall j :: 0 <= j < |sent'| ==> |sent'[j].body| == BatchSize)
      && forall j :: 0 <= j < |sent'| ==> sent'[j].url == BatchUrl(upstashUrl, j + 1)
  {
    PostStep(upstashUrl, sent, batch);
    var sent' := sent + [Request(upstashUrl + "/set/" + (BaseKey + ":" + Decimal(|sent| + 1)), batch)];
    assert Flatten(Bodies(sent')) + [] == Flatten(Bodies(sent'));
  }

  /** `n` rows make `full` batches of five and `left` rows over. */
  lemma BatchCounts(n: nat, full: nat, left: nat)
    requires BatchSize * full + left == n && left < BatchSize
    ensures full == n / BatchSize && left == n % BatchSize
    ensures full + (if left == 0 then 0 else 1) == (n + BatchSize - 1) / BatchSize
  {
  }

  /** Row `i`, once it has all its columns, adds its payload to the pending batch. */
  lemma AddRow(rows: seq<CsvRow>, i: nat, done: seq<Payload>, batch: seq<Payload>)
    requires i < |rows| && forall k :: 0 <= k <= i ==> HasColumns(rows[k])
    requires done + batch == BatchPayloads(rows[..i])
    ensures done + (batch + [BatchPayload(rows[i])]) == BatchPayloads(rows[..i + 1])
  {
    assert rows[..i + 1][..i] == rows[..i];
  }

  /** When row `i` lacks a column, the full batches sent so far carry exactly the
      payloads of the rows before the pending, unsent batch. */
  lemma StopsBeforeBatch(rows: seq<CsvRow>, i: nat, sent: seq<Request>, batch: seq<Payload>)
    requires i <= |rows| && BatchSize * |sent| + |batch| == i && |batch| < BatchSize
    requires forall k :: 0 <= k < i ==> HasColumns(rows[k])
    requires Flatten(Bodies(sent)) + batch == BatchPayloads(rows[..i])
    ensures |sent| == i / BatchSize
    ensures Flatten(Bodies(sent)) == BatchPayloads(rows[..BatchSize * |sent|])
  {
    var done := Flatten(Bodies(sent));
    assert done == (done + batch)[..|done|];
    BatchPayloadsPrefix(rows[..i], |done|);
    assert rows[..i][..|done|] == rows[..|done|];
    BatchCounts(i, |sent|, |batch|);
  }

  /** Once every row has been read, the full batches and the final one (sent only
      when rows are left over) carry every payload, five to a batch but the last. */
  lemma Finishes(rows: seq<CsvRow>, sent: seq<Request>, batch: seq<Payload>, final: seq<Request>)
    requires BatchSize * |sent| + |batch| == |rows| && |batch| < BatchSize
    requires forall k :: 0 <= k < |rows| ==> HasColumns(rows[k])
    requires Flatten(Bodies(sent)) + batch == BatchPayloads(rows)
    requires forall j :: 0 <= j < |sent| ==> |sent[j].body| == BatchSize
    requires if batch == [] then final == sent
             else |final| == |sent| + 1 && final[..|sent|] == sent && final[|sent|].body == batch
    ensures Flatten(Bodies(final)) == BatchPayloads(rows)
    ensures |final| == (|rows| + BatchSize - 1) / BatchSize && |rows| / BatchSize <= |final|
    ensures forall j :: 0 <= j < |rows| / BatchSize ==> |final[j].body| == BatchSize
    ensures |rows| % BatchSize != 0 ==>
      |final| == |rows| / BatchSize + 1 && |final[|final| - 1].body| == |rows| % BatchSize
  {
    BatchCounts(|rows|, |sent|, |batch|);
    if batch != [] {
      assert final == sent + [final[|sent|]];
      BodiesSnoc(sent, final[|sent|]);
      FlattenSnoc(Bodies(sent), batch);
    }
  }

  /** The batches, numbered from 1, carry every row's payload once and in order:
      every batch but a final one holds exactly five; the final one holds the rest
      and is sent only when some are left. A row without one of the four columns
      stops the script before its batch is sent, so only the full batches before it
      have gone out. */
  method SendBatches(upstashUrl: string, rows: seq<CsvRow>) returns (sent: seq<Request>, outcome: Outcome)
    ensures forall j :: 0 <= j < |sent| ==> sent[j].url == BatchUrl(upstashUrl, j + 1)
    ensures outcome.Finished? ==>
      && (forall i :: 0 <= i < |rows| ==> HasColumns(rows[i]))
      && Flatten(Bodies(sent)) == BatchPayloads(rows)
      && |sent| == (|rows| + BatchSize - 1) / BatchSize
      && |rows| / BatchSize <= |sent|
      && (forall j :: 0 <= j < |rows| / BatchSize ==> |sent[j].body| == BatchSize)
      && (|rows| % BatchSize != 0 ==>
            |sent| == |rows| / BatchSize + 1 && |sent[|sent| - 1].body| == |rows| % BatchSize)
    ensures outcome.KeyMissing? ==>
      var r := outcome.row;
      && r < |rows| && !HasColumns(rows[r])
      && (forall i :: 0 <= i < r ==> HasColumns(rows[i]))
      && |sent| == r / BatchSize
      && (forall j :: 0 <= j < |sent| ==> |sent[j].body| == BatchSize)
      && Flatten(Bodies(sent)) == BatchPayloads(rows[..BatchSize * |sent|])
  {
    var batch: seq<Payload> := [];
    var batchNumber := 1;
    sent := [];
    for i := 0 to |rows|
      invariant batchNumber == |sent| + 1
      invariant BatchSize * |sent| + |batch| == i && |batch| < BatchSize
      invariant forall k :: 0 <= k < i ==> HasColumns(rows[k])
      invariant Flatten(Bodies(sent)) + batch == BatchPayloads(rows[..i])
      invariant forall j :: 0 <= j < |sent| ==> |sent[j].body| == BatchSize
      invariant forall j :: 0 <= j < |sent| ==> sent[j].url == BatchUrl(upstashUrl, j + 1)
    {
      if !HasColumns(rows[i]) {
        StopsBeforeBatch(rows, i, sent, batch);
        outcome := KeyMissing(i);
        return;
      }
      var payload := BatchPayload(rows[i]);
      AddRow(rows, i, Flatten(Bodies(sent)), batch);
      batch := batch + [payload];
      if |batch| == BatchSize {
        var key := BaseKey + ":" + Decimal(batchNumber);
        var apiUrl := upstashUrl + "/set/" + key;
        PostFull(upstashUrl, sent, batch);
        sent := sent + [Request(apiUrl, batch)];
        batch := [];
        batchNumber := batchNumber + 1;
      }
    }
    assert rows[..|rows|] == rows;
    ghost var full := sent;
    if batch != [] {
      var key := BaseKey + ":" + Decimal(batchNumber);
      var apiUrl := upstashUrl + "/set/" + key;
      PostStep(upstashUrl, sent, batch);
      sent := sent + [Request(apiUrl, batch)];
    }
    Finishes(rows, full, batch, sent);
    outcome := Finished;
  }
}
