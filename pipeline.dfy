/** The three scripts as one pipeline: the LiveKit extractor writes its CSV table,
    and either sender reads the rows back. The scripts name different files (the
    extractor writes `livekit_data.csv`, the batch sender reads `extracted_data.csv`
    and the one-by-one sender `extracted2_data copy.csv`), so the composition assumes
    the table is copied to the file a sender reads. The rows are taken to be read back
    as written (`csv.DictReader` over the file `csv.DictWriter` wrote). */
module Pipeline {
  import opened Collections
  import opened Text
  import opened Scan
  import opened Records
  import Emails
  import LiveKitExtractor
  import LiveKitBatchSender
  import LiveKitSender

  /** No value of `d` holds whitespace. */
  predicate ValuesNoSpace(d: LiveKitExtractor.Extracted) {
    && (forall e :: e in d.emails ==> NoSpace(e))
    && (forall u :: u in d.urls ==> NoSpace(u))
    && (forall k :: k in d.apiKeys ==> NoSpace(k))
    && (forall k :: k in d.secretKeys ==> NoSpace(k))
  }

  lemma CleanedEmailsNoSpace(text: string)
    ensures forall e :: e in Emails.CleanedEmails(text) ==> NoSpace(e)
  {
    var emails := FindAllIn(Email, text);
    var cleaned := Emails.CleanedEmails(text);
    forall e | e in cleaned ensures NoSpace(e) {
      var i :| 0 <= i < |cleaned| && cleaned[i] == e;
      var m := emails[i];
      assert m in emails && e == Emails.CleanEmail(m);
      assert Captured(Email, m);
      EmailNoSpace(m);
      CleanEmailNoSpace(m);
    }
  }

  lemma CleanEmailNoSpace(m: string)
    requires NoSpace(m)
    ensures NoSpace(Emails.CleanEmail(m))
  {
    var e := Emails.CleanEmail(m);
    SliceNoSpace(m, |m| - |e|, |m|);
    assert m[|m| - |e|..|m|] == e;
  }

  /** A part of a string without whitespace has none either. */
  lemma SliceNoSpace(m: string, lo: nat, hi: nat)
    requires lo <= hi <= |m| && NoSpace(m)
    ensures NoSpace(m[lo..hi])
  {
    forall j | 0 <= j < hi - lo ensures !IsSpace(m[lo..hi][j]) {
      assert m[lo..hi][j] == m[lo + j];
    }
  }

  lemma CleanedUrlsNoSpace(text: string)
    ensures forall u :: u in LiveKitExtractor.CleanedUrls(text) ==> NoSpace(u)
  {
    var urls := FindAllIn(Url, text);
    var cleaned := LiveKitExtractor.CleanedUrls(text);
    forall u | u in cleaned ensures NoSpace(u) {
      var i :| 0 <= i < |cleaned| && cleaned[i] == u;
      var m := urls[i];
      assert m in urls;
      UrlNoSpace(m);
      SliceNoSpace(m, 0, |u|);
    }
  }

  lemma KeysNoSpace(text: string, toApi: bool)
    ensures forall k :: k in LiveKitExtractor.Pick(LiveKitExtractor.KeysSpec(text), toApi) ==> NoSpace(k)
  {
    LiveKitExtractor.KeysProvenance(text, toApi);
    forall k | k in LiveKitExtractor.Pick(LiveKitExtractor.KeysSpec(text), toApi) ensures NoSpace(k) {
      KeyNoSpace(k);
    }
  }

  /** No extracted value holds whitespace: e-mail addresses, URLs and keys are made
      of characters their patterns allow, and none of those is whitespace. */
  lemma ExtractedNoSpace(text: string)
    ensures ValuesNoSpace(LiveKitExtractor.ExtractedSpec(text))
  {
    var keys := LiveKitExtractor.KeysSpec(text);
    var d := LiveKitExtractor.Extracted(Dedup(Emails.CleanedEmails(text)),
      Dedup(LiveKitExtractor.CleanedUrls(text)), keys.api, keys.secret);
    assert LiveKitExtractor.ExtractedSpec(text) == d;
    CleanedEmailsNoSpace(text);
    CleanedUrlsNoSpace(text);
    KeysNoSpace(text, true);
    KeysNoSpace(text, false);
    assert LiveKitExtractor.Pick(keys, true) == d.apiKeys && LiveKitExtractor.Pick(keys, false) == d.secretKeys;
  }

  /** A cell of a column built from values without whitespace is its own `strip()`. */
  lemma CellUnpadded(xs: seq<string>, i: nat)
    requires forall x :: x in xs ==> NoSpace(x)
    ensures Unpadded(Cell(xs, i))
  {
    if i < |xs| {
      assert xs[i] in xs;
    }
  }

  /** Every row of a table whose values hold no whitespace has the four columns the
      batch sender reads, and the two senders build the same payload for it:
      stripping the cells, as the one-by-one sender does, changes nothing. */
  lemma SendersAgreeOnRow(d: LiveKitExtractor.Extracted, i: nat)
    requires ValuesNoSpace(d)
    ensures var row := LiveKitExtractor.RowAt(d, i);
      && LiveKitBatchSender.HasColumns(row)
      && LiveKitSender.SenderPayload(row) == LiveKitBatchSender.BatchPayload(row)
  {
    var row := LiveKitExtractor.RowAt(d, i);
    CellUnpadded(d.emails, i);
    CellUnpadded(d.urls, i);
    CellUnpadded(d.apiKeys, i);
    CellUnpadded(d.secretKeys, i);
    assert Renames[0].0 == "email" && Renames[1].0 == "LIVE_KIT_URL";
    assert Renames[2].0 == "LIVEKIT_API_KEYS" && Renames[3].0 == "LIVEKIT_SECRET_KEYS";
    forall j | 0 <= j < |Renames| ensures Renames[j].0 in row && Unpadded(row[Renames[j].0]) {
      assert j == 0 || j == 1 || j == 2 || j == 3;
    }
    LiveKitSender.SendersAgree(row);
  }

  /** For the table the extractor writes from any text, both senders post the same
      payload for every row. */
  lemma SendersAgreeOnTable(text: string, i: nat)
    ensures var row := LiveKitExtractor.RowAt(LiveKitExtractor.ExtractedSpec(text), i);
      && LiveKitBatchSender.HasColumns(row)
      && LiveKitSender.SenderPayload(row) == LiveKitBatchSender.BatchPayload(row)
  {
    ExtractedNoSpace(text);
    SendersAgreeOnRow(LiveKitExtractor.ExtractedSpec(text), i);
  }
}
