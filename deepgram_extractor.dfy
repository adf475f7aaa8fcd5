/** The Deepgram `DataExtractor`: e-mail addresses, `DEEPGRAM_API_KEY = ...` values
    of exactly forty characters, and `PROJECT_ID = ...` values, written as a
    three-column CSV table. */
module DeepgramExtractor {
  import opened Collections
  import opened Text
  import opened Scan
  import opened Records
  import Emails

  /** `DEEPGRAM_API_KEY\s*=\s*([A-Za-z0-9]{10,})` */
  const DeepgramKey: Pattern := Assign("DEEPGRAM_API_KEY", Alnum, 10)
  /** `PROJECT_ID\s*=\s*([A-Za-z0-9\-]{20,})` */
  const ProjectId: Pattern := Assign("PROJECT_ID", AlnumDash, 20)

  /** `extract_emails`. */
  function ExtractEmails(text: string): (r: seq<string>)
    ensures NoDup(r)
    ensures forall e :: e in r <==> e in Emails.CleanedEmails(text)
    ensures InFirstOccurrenceOrder(r, Emails.CleanedEmails(text))
  {
    Dedup(Emails.CleanedEmails(text))
  }

  predicate HasKeyLength(key: string) { |key| == 40 }

  /** `extract_deepgram_keys`: the captured values of exactly forty characters (the
      others are only reported as invalid), de-duplicated in first-occurrence order. */
  function ExtractDeepgramKeys(text: string): (r: seq<string>)
    ensures NoDup(r)
    ensures forall k :: k in r <==> k in FindAllIn(DeepgramKey, text) && |k| == 40
    ensures forall k :: k in r ==> AllIn(k, Alnum)
    ensures InFirstOccurrenceOrder(r, Filter(FindAllIn(DeepgramKey, text), HasKeyLength))
  {
    var rawKeys := FindAllIn(DeepgramKey, text);
    var validKeys := Filter(rawKeys, HasKeyLength);
    Dedup(validKeys)
  }

  /** `extract_project_ids`. */
  function ExtractProjectIds(text: string): (r: seq<string>)
    ensures NoDup(r)
    ensures forall id :: id in r <==> id in FindAllIn(ProjectId, text)
    ensures forall id :: id in r ==> |id| >= 20 && AllIn(id, AlnumDash)
    ensures InFirstOccurrenceOrder(r, FindAllIn(ProjectId, text))
  {
    Dedup(FindAllIn(ProjectId, text))
  }

  /** The dictionary `extract_all` returns. */
  datatype Extracted = Extracted(emails: seq<string>, deepgramKeys: seq<string>, projectIds: seq<string>)

  /** `extract_all` once the file has been read. */
  function ExtractAll(content: string): Extracted {
    Extracted(ExtractEmails(content), ExtractDeepgramKeys(content), ExtractProjectIds(content))
  }

  const Fieldnames: seq<string> := ["email", "PROJECT_ID", "DEEPGRAM_API_KEY"]

  /** `max_len`: the longest of the three lists (possibly 0, for a header alone). */
  function RowCount(d: Extracted): (n: nat)
    ensures n >= |d.emails| && n >= |d.deepgramKeys| && n >= |d.projectIds|
    ensures n == |d.emails| || n == |d.deepgramKeys| || n == |d.projectIds|
  {
    Max(Max(|d.emails|, |d.deepgramKeys|), |d.projectIds|)
  }

  function RowAt(d: Extracted, i: nat): CsvRow {
    map["email" := Cell(d.emails, i), "PROJECT_ID" := Cell(d.projectIds, i),
        "DEEPGRAM_API_KEY" := Cell(d.deepgramKeys, i)]
  }

  /** The rows of `save_to_csv`: each list comes back as its column, padded with
      empty cells to the height of the longest. */
  method SaveRows(d: Extracted) returns (rows: seq<CsvRow>)
    ensures |rows| == RowCount(d)
    ensures forall i :: 0 <= i < |rows| ==> rows[i] == RowAt(d, i)
    ensures forall i :: 0 <= i < |rows| ==> rows[i].Keys == {"email", "PROJECT_ID", "DEEPGRAM_API_KEY"}
    ensures HasColumn(rows, "email") && Column(rows, "email") == Padded(d.emails, |rows|)
    ensures HasColumn(rows, "PROJECT_ID") && Column(rows, "PROJECT_ID") == Padded(d.projectIds, |rows|)
    ensures HasColumn(rows, "DEEPGRAM_API_KEY") && Column(rows, "DEEPGRAM_API_KEY") == Padded(d.deepgramKeys, |rows|)
  {
    var maxLen := RowCount(d);
    rows := [];
    for i := 0 to maxLen
      invariant |rows| == i
      invariant forall k :: 0 <= k < i ==> rows[k] == RowAt(d, k)
    {
      rows := rows + [map[
        "email" := if i < |d.emails| then d.emails[i] else "",
        "PROJECT_ID" := if i < |d.projectIds| then d.projectIds[i] else "",
        "DEEPGRAM_API_KEY" := if i < |d.deepgramKeys| then d.deepgramKeys[i] else ""]];
    }
    ColumnOfCells(rows, "email", d.emails);
    ColumnOfCells(rows, "PROJECT_ID", d.projectIds);
    ColumnOfCells(rows, "DEEPGRAM_API_KEY", d.deepgramKeys);
  }

  /** A row is written as its three cells in the order email, PROJECT_ID,
      DEEPGRAM_API_KEY. */
  lemma WriteRowAt(d: Extracted, i: nat)
    ensures WriteLine(Fieldnames, RowAt(d, i)) == [Cell(d.emails, i), Cell(d.projectIds, i), Cell(d.deepgramKeys, i)]
  {
    var line := WriteLine(Fieldnames, RowAt(d, i));
    assert line[0] == Cell(d.emails, i) && line[1] == Cell(d.projectIds, i) && line[2] == Cell(d.deepgramKeys, i);
  }

  /** `run`: `content` is what `read_file` returned (None when the file could not be
      read); the result is the table written, None when nothing is written. */
  method Run(content: Option<string>) returns (table: Option<seq<seq<string>>>)
    ensures content.None? <==> table.None?
    ensures content.Some? ==>
      var d := ExtractAll(content.value);
      && |table.value| == RowCount(d) + 1
      && table.value[0] == Fieldnames
      && forall i :: 0 <= i < RowCount(d) ==>
           table.value[i + 1] == [Cell(d.emails, i), Cell(d.projectIds, i), Cell(d.deepgramKeys, i)]
  {
    if content.None? {
      return None;
    }
    var data := ExtractAll(content.value);
    var rows := SaveRows(data);
    var t := WriteTable(Fieldnames, rows);
    forall i | 0 <= i < |rows|
      ensures t[i + 1] == [Cell(data.emails, i), Cell(data.projectIds, i), Cell(data.deepgramKeys, i)]
    {
      WriteRowAt(data, i);
    }
    table := Some(t);
  }

  // ------------------------------------------------------------ a worked example

  const SampleKey: string := "1234567890123456789012345678901234567890"

  /** A file holding one address and one well-formed `DEEPGRAM_API_KEY` line. */
  const Sample: string := "a@x.com DEEPGRAM_API_KEY=" + SampleKey

  /** The characters of the sample the scanners look at. */
  lemma SampleText()
    ensures |Sample| == 65 && Sample[25..] == SampleKey
    ensures Sample[..7] == "a@x.com" && Sample[7] == ' ' && Sample[24] == '='
    ensures StartsWith(Sample[8..], "DEEPGRAM_API_KEY")
    ensures forall k :: 25 <= k < 65 ==> IsDigit(Sample[k])
    ensures forall k :: 7 <= k < 65 ==> Sample[k] != '@'
    ensures forall k :: 0 <= k < 8 ==> Sample[k] != 'D'
    ensures forall k :: 0 <= k < 65 ==> Sample[k] != 'J'
  {
    var pre := "a@x.com DEEPGRAM_API_KEY=";
    assert Sample == pre + SampleKey && |Sample| == 65;
    assert Sample[..25] == pre && Sample[25..] == SampleKey;
    assert Sample[..7] == pre[..7] == "a@x.com";
    assert Sample[8..][..16] == pre[8..24] == "DEEPGRAM_API_KEY";
    forall k | 0 <= k < 25 ensures Sample[k] == pre[k] {
      assert Sample[..25][k] == Sample[k];
    }
    PrefixChars();
    KeyDigits();
    forall k | 25 <= k < 65 ensures Sample[k] == SampleKey[k - 25] {
      assert Sample[25..][k - 25] == Sample[k];
    }
  }

  lemma PrefixChars()
    ensures var pre := "a@x.com DEEPGRAM_API_KEY=";
      && pre[7] == ' ' && pre[24] == '='
      && forall k :: 0 <= k < 25 ==> pre[k] != 'J' && (7 <= k ==> pre[k] != '@') && (k < 8 ==> pre[k] != 'D')
  {
  }

  lemma KeyDigits()
    ensures forall i :: 0 <= i < 40 ==> IsDigit(SampleKey[i])
  {
  }

  /** A text whose first `e` characters hold no whitespace has none before `e`. */
  lemma PrefixNoSpace(s: string, e: nat)
    requires e <= |s| && NoSpace(s[..e])
    ensures forall x :: 0 <= x < e ==> !IsSpace(s[x])
  {
    forall x | 0 <= x < e ensures !IsSpace(s[x]) {
      assert s[..e][x] == s[x];
    }
  }

  /** The sample's only address is found, once. */
  lemma SampleEmails()
    ensures FindAllIn(Email, Sample) == ["a@x.com"]
  {
    SampleText();
    var s := Sample;
    forall i | 0 <= i < 7 ensures s[i] == "a@x.com"[i] {
      assert s[..7][i] == s[i];
    }
    assert EmailAt(s, 0, 1, 3, 7);
    MatchEmailAtComplete(s, 0, 1, 3, 7);
    var m := MatchAt(Email, s, 0).value;
    EmailNoSpace(s[0..m.end]);
    assert s[0..m.end] == s[..m.end];
    PrefixNoSpace(s, m.end);
    assert Reported(s, m) == s[..7];
    FindAllFirst(Email, s, 0, 0);
    forall q | 7 <= q <= |s| ensures MatchAt(Email, s, q).None? {
      EmailHasAt(s, q);
    }
    FindAllEmpty(Email, s, 7);
  }

  /** The sample's key line is found, its forty digits captured. */
  lemma SampleKeys()
    ensures FindAllIn(DeepgramKey, Sample) == [SampleKey]
  {
    SampleText();
    var s := Sample;
    AssignNeedsName(s, DeepgramKey, 0, 8, 0);
    assert Scan.Run(s, 25, 65, Alnum);
    MatchAssignAtComplete(s, 8, "DEEPGRAM_API_KEY", Alnum, 10, 24, 25, 65);
    var m := MatchAt(DeepgramKey, s, 8).value;
    assert m.at == 25 && m.stop == 65 && m.end == 65;
    assert Reported(s, m) == s[25..] == SampleKey;
    FindAllFirst(DeepgramKey, s, 0, 8);
    FindAllEmpty(DeepgramKey, s, 65);
    assert FindAll(DeepgramKey, s, 65) == [];
  }

  /** The sample names no project: it holds no 'J', which `PROJECT_ID` needs. */
  lemma SampleIds()
    ensures FindAllIn(ProjectId, Sample) == []
  {
    SampleText();
    AssignNeedsName(Sample, ProjectId, 0, 66, 3);
    FindAllEmpty(ProjectId, Sample, 0);
  }

  /** A file holding one address and one forty-character key gives one address, one
      key and no project ID, and so a table of one row under the header. */
  lemma SampleExtracted()
    ensures ExtractAll(Sample) == Extracted(["a@x.com"], [SampleKey], [])
    ensures RowCount(ExtractAll(Sample)) == 1
  {
    SampleEmailList();
    SampleKeyList();
    SampleIds();
  }

  lemma SampleEmailList()
    ensures ExtractEmails(Sample) == ["a@x.com"]
  {
    SampleEmails();
    assert !StartsWith(Lower("a@x.com"), "mail-") by {
      var l := Lower("a@x.com");
      assert l[..5][0] == l[0] == 'a';
    }
    var c := Emails.CleanedEmails(Sample);
    assert |c| == 1 && c[0] == Emails.CleanEmail("a@x.com") == "a@x.com";
    assert c == ["a@x.com"];
    DedupOfNoDup(["a@x.com"]);
  }

  lemma SampleKeyList()
    ensures ExtractDeepgramKeys(Sample) == [SampleKey]
  {
    SampleKeys();
    assert Filter([SampleKey], HasKeyLength) == [SampleKey];
    DedupOfNoDup([SampleKey]);
  }
}
