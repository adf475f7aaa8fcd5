# Credential extractor and LiveKit senders, modelled in Dafny

This project models the core of a small credential-harvesting toolkit written in Python.
It has four parts:

- **The LiveKit `DataExtractor`** (`livekit_extractor.py`). It scans a text for e-mail addresses, LiveKit URLs, API keys and secret keys, and writes them as a four-column CSV table.
  - E-mail addresses lose a leading `mail-`.
  - URLs lose trailing punctuation.
  - Keys are classified by four strategies, applied in this order:
    1. labelled assignments such as `API_KEY = ...`;
    2. keywords on the key's line or the line before;
    3. a context window of up to 100 characters on either side;
    4. a prefix fallback.
  - Every list is de-duplicated in first-occurrence order, and URL-looking keys are dropped.
  - The lists are written side by side, padded with empty cells. The table always has at least one row.
- **The Deepgram `DataExtractor`** (`deepgram_extractor.py`). It does the same for e-mail addresses, `DEEPGRAM_API_KEY` values and `PROJECT_ID` values.
  - Only keys of exactly forty characters are kept.
  - The table has as many rows as the longest list, which may be none.
- **The batch sender** (`livekit_batch_sender.py`). It turns each CSV row into a `{provider, metadata}` payload, renaming the columns. It posts the payloads in batches of five to the key/value store's `set` endpoint, under the keys `livekit_credentials_test_batch:1`, `:2` and so on. A final, shorter batch carries any rows left over. A row without one of the four columns stops the script with a `KeyError`.
- **The one-by-one sender** (`livekit_sender.py`). It builds the same payload from the whitespace-stripped cells, with `''` for a missing column. It posts each payload once and counts successes (status 200 or 201) and failures (any other status, or an exception).

How the Dafny is organised:

- **Regular expressions.** Each pattern is an explicit scanner in module `Scan`, which backtracks in the same order as Python's engine for that pattern. Each scanner has a soundness lemma (what a match looks like) and a completeness lemma (text of that shape at a position is matched there). `Scan.Attempts` tries the pattern at every position, and `Scan.ScanFrom` walks those attempts left to right, resuming after each match, as `re.findall` does.
- **`list(dict.fromkeys(xs))`** is `Collections.Dedup`. It is proved duplicate-free, to keep exactly the elements of `xs`, and to keep them in first-occurrence order. `Collections.DedupUnique` proves that these three properties determine the result.
- **Loops.** The scripts' loops are Dafny methods with loop invariants. Each is proved equal to a specification function. The properties the scripts promise are then proved as lemmas about those functions.
- **Module `Pipeline`** connects the scripts. The extractor writes `livekit_data.csv` (`livekit_extractor.py:241`) while the senders read `extracted_data.csv` (`livekit_batch_sender.py:78`) and `extracted2_data copy.csv` (`livekit_sender.py:82`), so the composition assumes the table is copied to the file a sender reads. No value the LiveKit extractor writes contains whitespace, so for every row of its table the two senders post the same payload.

The two extractors differ in how they treat an empty table:

| | row count | zero rows possible? |
|---|---|---|
| LiveKit `save_to_csv` | `max(len(list) or 1)` | no |
| Deepgram `save_to_csv` | the longest list's length | yes |

The LiveKit code writes at least one row (`livekit_extractor.py:198-203`), while the Deepgram code writes `max(len(...))` rows (`deepgram_extractor.py:77`), and the model follows each.

## Model

| member | source | states |
|---|---|---|
| Collections.Dedup | livekit_extractor.py:38-39 | `list(dict.fromkeys(xs))` has no repeats, holds exactly the elements of `xs`, and lists them in the order of their first occurrences |
| Collections.DedupUnique | livekit_extractor.py:39 | any repeat-free list with the elements of `xs` in first-occurrence order is the de-duplication of `xs`, so these properties pin down the result |
| Collections.DedupOfNoDup | livekit_extractor.py:142-143 | de-duplicating a list without repeats leaves it unchanged |
| Collections.Filter | livekit_extractor.py:146-147 | a conditional comprehension keeps exactly the elements that pass, and keeps a repeat-free list repeat-free |
| Collections.FilterPositions | livekit_extractor.py:115 | the comprehension's result is the elements at exactly the positions whose element passes, in increasing order of position |
| Collections.FilterAppend | livekit_extractor.py:146-147 | filtering a concatenation filters each part and concatenates the results |
| Collections.FilterKeepsOrder | livekit_extractor.py:146-147 | a list in first-occurrence order of another list stays in that order after filtering |
| Collections.AddNew | livekit_extractor.py:105-110 | `if key not in xs: xs.append(key)` contains the key afterwards, and changes the list only when the key was absent |
| Text.Lower | livekit_extractor.py:88 | `str.lower()` with ASCII folding only: it keeps the length and folds each character on its own, leaving no ASCII capital, keeping letters letters and whitespace whitespace, and leaving every character that is not an ASCII capital unchanged |
| Text.StripSpec | livekit_sender.py:99-102 | `strip()` keeps a contiguous part of the string with only whitespace removed on either side. The result neither starts nor ends with whitespace, and it is empty exactly when the string is all whitespace |
| Text.StripUnchanged | livekit_sender.py:99-102 | `strip()` of a string without surrounding whitespace is the string itself |
| Text.Lines | livekit_extractor.py:86 | `split('\n')` gives at least one piece, and no piece holds a newline |
| Text.JoinLines | livekit_extractor.py:86 | joining the pieces of `split('\n')` with newlines gives back the text |
| Text.DecimalRoundTrip | livekit_batch_sender.py:107 | the batch number written into a key reads back as the same number |
| Scan.RunEnd | livekit_extractor.py:60 | a greedy character-class run ends at the first character outside the class |
| Scan.LastBoundary | livekit_extractor.py:60 | a greedy run followed by `\b` ends at the last word boundary within its reach |
| Scan.MatchEmailAt | livekit_extractor.py:11 | a match of the e-mail pattern is the text at the match position, with the shape local@domain.tld (at least two characters of top-level domain) |
| Scan.MatchEmailAtComplete | livekit_extractor.py:11 | conversely, text of the shape local@domain.tld at a position is matched there, and the match reaches at least as far with the same local part |
| Scan.EmailHasAt | livekit_extractor.py:11 | the e-mail pattern matches at no position after the last `@` of the text |
| Scan.EmailNoSpace | livekit_extractor.py:11 | an e-mail match holds no whitespace |
| Scan.MatchUrlScheme | livekit_extractor.py:12 | a URL match starts with one of `https://`, `http://`, `wss://`, `ws://`, followed by at least one allowed character |
| Scan.MatchUrlSchemeComplete | livekit_extractor.py:12 | conversely, one of the schemes followed by an allowed character is matched as a URL |
| Scan.UrlNoSpace | livekit_extractor.py:12 | a URL match holds no whitespace |
| Scan.MatchKeyTokenAt | livekit_extractor.py:60 | a key-like token has at least 20 characters, all from `[A-Za-z0-9_.\-*]` |
| Scan.MatchKeyTokenAtComplete | livekit_extractor.py:60 | conversely, 20 or more key characters between two word boundaries are matched as a token reaching at least that far |
| Scan.KeyNoSpace | livekit_extractor.py:60 | a key-like token or labelled value holds no whitespace |
| Scan.MatchLabelledAt | livekit_extractor.py:64-72 | the value a labelled pattern captures has at least 10 characters from `[A-Za-z0-9_.*-]` |
| Scan.MatchLabelledAtComplete | livekit_extractor.py:64-72 | conversely, the optional `LIVEKIT` prefix, the label, a `:` or `=` and ten or more key characters, with the optional quotes and spaces, are matched |
| Scan.MatchFromSecondComplete | livekit_extractor.py:64-72 | from the label's second word on, the match captures the value the text holds, reaching at least as far |
| Scan.MatchAssignAt | deepgram_extractor.py:12-13 | the value a `NAME = value` pattern captures has at least the minimum length, and every character is in its class |
| Scan.MatchAssignAtComplete | deepgram_extractor.py:12-13 | conversely, `NAME`, spaces, `=`, spaces and a long enough run of the class are matched, capturing from the first value character and at least to the run's end |
| Scan.AssignNeedsName | deepgram_extractor.py:12-13 | a `NAME = value` pattern matches at no position where the text lacks the name's characters |
| Scan.FindAllIn | livekit_extractor.py:29 | every string `re.findall` reports has the shape its pattern captures |
| Scan.FindAllFirst | livekit_extractor.py:29 | the scan reports first the match at the first position where the pattern matches, then resumes at that match's end |
| Scan.FindAllEmpty | livekit_extractor.py:29 | the scan reports nothing exactly when the pattern matches at no position |
| Scan.FindAllReported | livekit_extractor.py:29 | every reported string is the capture of a match at some position of the text |
| Scan.FindAllInOccurs | livekit_extractor.py:29 | every reported string occurs in the text |
| Emails.CleanEmail | livekit_extractor.py:33-36 | a match whose lower-case form starts with `mail-` loses exactly its first five characters; any other match is unchanged |
| Emails.CleanEmailKeepsDomain | livekit_extractor.py:34-35 | the removed `mail-` lies inside the local part, so the `@` and the domain survive |
| Emails.CleanedEmails | livekit_extractor.py:29-36 | one cleaned address per match, in text order |
| LiveKitExtractor.ExtractEmails | livekit_extractor.py:27-39 | the returned addresses are the cleaned matches without repeats, in first-occurrence order |
| LiveKitExtractor.CleanUrl | livekit_extractor.py:48 | `rstrip('.,;:)]}')` keeps a prefix of the URL, removes only those characters, and leaves none of them at the end |
| LiveKitExtractor.CleanUrlKeepsScheme | livekit_extractor.py:48 | trimming never reaches into the scheme of a URL match |
| LiveKitExtractor.CleanedUrls | livekit_extractor.py:44-49 | one cleaned URL per match, in text order |
| LiveKitExtractor.CleanedUrlsShape | livekit_extractor.py:44-49 | every cleaned URL keeps its scheme and does not end in trailing punctuation |
| LiveKitExtractor.ExtractUrls | livekit_extractor.py:42-50 | the returned URLs are the cleaned matches without repeats, in first-occurrence order; each has a scheme and ends in something other than `.,;:)]}` |
| LiveKitExtractor.LabelledValues | livekit_extractor.py:63-83 | strategy 2 collects only values of at least ten key characters |
| LiveKitExtractor.LineTokens | livekit_extractor.py:98 | a line's tokens are found in that line alone, and each has at least 20 key characters |
| LiveKitExtractor.TokensPassAdds | livekit_extractor.py:100-110 | one line of strategy 3 only appends, and never a key already listed. It adds to the API list only when the context names `api` and `key` but not `secret`, and to the secret list only when it names `secret` and `key` |
| LiveKitExtractor.LinePassAdds | livekit_extractor.py:87-110 | a blank line adds nothing; every key added by a non-blank line is one of its tokens, and the line's context justifies the list it went to |
| LiveKitExtractor.LinesPassAdds | livekit_extractor.py:85-110 | strategy 3 over the first `n` lines only appends, and every key it appends is justified by one of those lines |
| LiveKitExtractor.JustifiedBeforeWitness | livekit_extractor.py:87-110 | a key justified by the first `n` lines is justified by a particular one of them |
| LiveKitExtractor.LastKeyAt | livekit_extractor.py:122 | the greedy `.{0,100}` before the key gives characters back until the key follows, so the lead it takes is the longest that works |
| LiveKitExtractor.Reach | livekit_extractor.py:122 | `.{0,100}` from a start takes the longest run of non-newline characters, up to 100 |
| LiveKitExtractor.WindowAt | livekit_extractor.py:122 | the attempt at one start fails exactly when the key starts nowhere within the reach of `.{0,100}`. Otherwise the window is the greedy lead (the longest after which the key follows) plus the key plus the trailing `.{0,100}`; it is at most 200 characters longer than the key and holds the key within its first 100 characters |
| LiveKitExtractor.SearchFrom | livekit_extractor.py:122 | a window `re.search` reports is at most 200 characters longer than the key, and holds the key within its first 100 characters |
| LiveKitExtractor.SearchFromFirst | livekit_extractor.py:122 | `re.search` reports nothing exactly when every start fails, and otherwise the window of the first start that succeeds |
| LiveKitExtractor.ContextWindow | livekit_extractor.py:122 | the window of strategy 4 is at most 200 characters longer than the key, and holds the key within its first 100 characters |
| LiveKitExtractor.ContextWindowFirst | livekit_extractor.py:122-124 | the window of strategy 4 is missing exactly when no start of the text succeeds, and is otherwise the window of the first start that does |
| LiveKitExtractor.ContextWindowFound | livekit_extractor.py:122-124 | the search always finds a window for a key that occurs in the text |
| LiveKitExtractor.TokensHaveWindows | livekit_extractor.py:122-124 | every strategy-1 token has a context window, so the `if context_match` test never fails for one |
| LiveKitExtractor.Categorized | livekit_extractor.py:114 | `set(api_keys + secret_keys)` holds exactly the keys of either list |
| LiveKitExtractor.Uncategorized | livekit_extractor.py:115 | the uncategorised keys are exactly the strategy-1 tokens in neither list; as a comprehension over the tokens they keep the tokens' order, as `Collections.FilterPositions` states |
| LiveKitExtractor.ContextPassAdds | livekit_extractor.py:119-139 | strategy 4 only appends keys of its input, each to the list its verdict names, and never to a list that already holds it |
| LiveKitExtractor.StrategyFourAdds | livekit_extractor.py:114-139 | strategy 4 places only strategy-1 tokens that neither list held, and never places one key in both lists |
| LiveKitExtractor.ListProvenance | livekit_extractor.py:60-147 | for either list: the reported keys have no repeats and no URL-like key. Each comes from strategy 2, a justifying line, or a strategy-4 verdict |
| LiveKitExtractor.KeysProvenance | livekit_extractor.py:52-149 | every reported key is at least ten key characters and not URL-like; neither list repeats a key. Each key comes from strategy 2, from a line whose context names that kind of key, or from strategy 4 for a token the earlier strategies left |
| LiveKitExtractor.CollectLabelled | livekit_extractor.py:75-83 | the loop over one label group extends the list by each pattern's matches in turn |
| LiveKitExtractor.ScanLineTokens | livekit_extractor.py:100-110 | the loop over a line's tokens computes strategy 3 for that line |
| LiveKitExtractor.ScanLines | livekit_extractor.py:86-110 | the loop over the lines computes strategy 3 over the whole text |
| LiveKitExtractor.ScanContexts | livekit_extractor.py:117-139 | the loop over the uncategorised keys computes strategy 4 |
| LiveKitExtractor.ExtractKeys | livekit_extractor.py:52-149 | `extract_keys` returns the two specified lists: repeat-free, no key shorter than ten characters or outside `[A-Za-z0-9_.*-]`, none starting with `http`, `https` or `www` in any case |
| LiveKitExtractor.KeysOrder | livekit_extractor.py:142-147 | each reported list holds exactly the keys of the list strategy 4 leaves that are not URL-like, in the order of their first occurrences there |
| LiveKitExtractor.ExtractAll | livekit_extractor.py:151-189 | `extract_all` returns the four specified lists |
| LiveKitExtractor.RowCount | livekit_extractor.py:198-203 | `max_len` is at least one and at least every list's length, and is one of those |
| LiveKitExtractor.SaveRows | livekit_extractor.py:205-214 | `max_len` rows with the four columns. Each list reads back as its column, in order, padded with `''` |
| LiveKitExtractor.WriteRowAt | livekit_extractor.py:219-223 | a row is written as its four cells in field-name order |
| LiveKitExtractor.Run | livekit_extractor.py:230-235 | nothing is written when the file could not be read. Otherwise the header is the four field names, and line `i + 1` holds entry `i` of each list or `''` |
| DeepgramExtractor.ExtractEmails | deepgram_extractor.py:28-32 | the cleaned e-mail matches without repeats, in first-occurrence order |
| DeepgramExtractor.ExtractDeepgramKeys | deepgram_extractor.py:34-41 | a key is returned exactly when it was captured and has exactly 40 characters; the keys are alphanumeric, repeat-free and in first-occurrence order |
| DeepgramExtractor.ExtractProjectIds | deepgram_extractor.py:43-48 | the captured IDs without repeats, in first-occurrence order, each at least 20 characters of `[A-Za-z0-9-]` |
| DeepgramExtractor.RowCount | deepgram_extractor.py:77 | `max_len` is the longest list's length, zero when all are empty |
| DeepgramExtractor.SaveRows | deepgram_extractor.py:78-85 | `max_len` rows with the three columns. Each list reads back as its column, padded with `''` |
| DeepgramExtractor.WriteRowAt | deepgram_extractor.py:90-92 | a row is written in the column order email, PROJECT_ID, DEEPGRAM_API_KEY |
| DeepgramExtractor.Run | deepgram_extractor.py:98-103 | nothing is written when the file could not be read. Otherwise the header is the three field names and one line per row |
| DeepgramExtractor.SampleEmails | deepgram_extractor.py:11 | in the text `a@x.com DEEPGRAM_API_KEY=` followed by forty digits, the e-mail pattern finds `a@x.com` alone |
| DeepgramExtractor.SampleKeys | deepgram_extractor.py:12 | in that text the key pattern finds the forty digits alone |
| DeepgramExtractor.SampleIds | deepgram_extractor.py:13 | in that text the project-id pattern finds nothing |
| DeepgramExtractor.SampleExtracted | deepgram_extractor.py:28-77 | `extract_all` of that text gives one e-mail address, one forty-character key and no project ID, so the table has one row |
| Records.Padded | livekit_extractor.py:209-212 | a padded column starts with the list, and every cell after it is `''` |
| Records.ColumnOfCells | livekit_extractor.py:206-214 | a column built cell by cell from a list reads back as that list padded with `''` |
| Records.WriteLine | livekit_extractor.py:222-223 | a written line holds the row's cells in field-name order |
| Records.WriteTable | livekit_extractor.py:222-223 | the written table is the header followed by one line per row |
| LiveKitBatchSender.BatchPayload | livekit_batch_sender.py:95-103 | a row maps to provider `livekit`, with exactly the four metadata names, each holding its renamed column's value unchanged |
| LiveKitBatchSender.BatchPayloads | livekit_batch_sender.py:94-104 | one payload per row, in row order |
| LiveKitBatchSender.BatchKeyInjective | livekit_batch_sender.py:107 | different batch numbers give different keys |
| LiveKitBatchSender.BatchCounts | livekit_batch_sender.py:106-121 | `n` rows make `n / 5` full batches and `n % 5` left over, so ⌈n/5⌉ batches in all |
| LiveKitBatchSender.PostFull | livekit_batch_sender.py:106-113 | posting a full batch of five as number `len(sent) + 1` appends exactly its payloads to those sent, and every batch sent so far still holds five payloads and went to its own number's key |
| LiveKitBatchSender.PostStep | livekit_batch_sender.py:106-113 | posting a batch as number `len(sent) + 1` extends the sent payloads by exactly that batch, under that number's key |
| LiveKitBatchSender.StopsBeforeBatch | livekit_batch_sender.py:94-98 | at a row lacking a column, the batches already sent are the full batches before the pending one |
| LiveKitBatchSender.Finishes | livekit_batch_sender.py:116-121 | with the final batch, the sent batches carry every payload. There are ⌈rows/5⌉ of them, five to a batch but the last, which holds the remainder |
| LiveKitBatchSender.SendBatches | livekit_batch_sender.py:89-121 | batch `n` goes to `UPSTASH_URL/set/BASE_KEY:n`, counting from 1. Run to the end, the batches carry every payload once, in row order: there are ⌈rows/5⌉ of them, five each but a shorter last one. A row missing a column stops the run, after only the full batches before it have been sent |
| LiveKitSender.Field | livekit_sender.py:99-102 | `row.get(column, "")` is the cell when the column is present and `''` otherwise |
| LiveKitSender.MetadataPayload | livekit_sender.py:96-104 | the payload has provider `livekit` and exactly the four metadata names, each holding its value |
| LiveKitSender.SenderPayloadValues | livekit_sender.py:95-104 | under each metadata name, a row's payload holds the stripped cell of the column that name renames |
| LiveKitSender.CleanedSpec | livekit_sender.py:99-102 | a stripped field has no surrounding whitespace, and is empty exactly when the column is absent or all whitespace |
| LiveKitSender.SendersAgree | livekit_sender.py:95-104 | for a row with the four columns and no whitespace around its cells, both senders build the same payload |
| LiveKitSender.BuildPayloads | livekit_sender.py:91-105 | one payload per row, in row order |
| LiveKitSender.Successes | livekit_sender.py:119-121 | the success count is at most the number of posts: zero exactly when none succeeded, and all of them exactly when all did |
| LiveKitSender.SuccessesAppend | livekit_sender.py:115-132 | successes add up over consecutive runs of posts |
| LiveKitSender.SendAll | livekit_sender.py:112-132 | every payload is posted exactly once, in order. The successes are the responses with status 200 or 201; successes and failures add up to the number of payloads |
| LiveKitSender.Run | livekit_sender.py:91-132 | the script posts one stripped payload per row, in row order, and counts every post once |
| Pipeline.ExtractedNoSpace | livekit_extractor.py:151-189 | no value `extract_all` returns holds whitespace |
| Pipeline.SendersAgreeOnRow | livekit_extractor.py:206-214 | every row built from whitespace-free lists has the four columns the batch sender reads, and both senders build the same payload for it |
| Pipeline.SendersAgreeOnTable | livekit_batch_sender.py:95-103 | for the table the extractor writes from any text, the batch sender never hits a missing column, and both senders post the same payload for every row |

## Left out

- Reading and writing files is not modelled.
  - `read_file` becomes an `Option<string>` argument: `None` when the file could not be read.
  - The output file is the value the `Run` methods return.
  - The directory listing and path handling of `main` are not modelled.
- Console output is not modelled: every `print`, including the first-three previews, key truncation and invalid-key reports.
- CSV quoting is not modelled. A table is a sequence of lines of fields.
  - The senders' rows are taken to be what `csv.DictReader` reads back from a written table.
  - Rows from a malformed file, where `DictReader` fills missing cells with `None` and `.strip()` would fail, are not modelled.
- Network, environment and time are not modelled. `requests.post`, its headers and `time.sleep` are outside the model. `UPSTASH_URL` is a string argument; the case where it is `None` in the environment is not modelled.
  - For the one-by-one sender, each post's response (a status code, or an exception) is an input, one per payload.
- LiveKitBatchSender.SendBatches: does not model a post that raises. An exception from `requests.post` would end the script; the model treats every post as completing.
- The model folds case for ASCII letters only, and its `\w` and `\b` count only ASCII letters, digits and `_` as word characters. Whitespace is Python's full `str.isspace()` set. Python's `str` patterns are Unicode-aware, and these cases differ from the model:
  - `re.IGNORECASE` also lets `[a-z]`, `i`, `s` and `k` match `İ` (U+0130), `ı` (U+0131), `ſ` (U+017F) and the Kelvin sign (U+212A) in the labelled patterns and the context search (`livekit_extractor.py:77`, `:82`, `:122`).
- Text.Lower: folds ASCII capitals only. Python's `str.lower()` also maps `İ` to two characters, the Kelvin sign to `k`, and other non-ASCII capitals to their lower case (`livekit_extractor.py:34`, `:88`, `:95`, `:125`, `:146`).
  - `\w` and `\b` in Python count every Unicode letter and digit as a word character, so a token next to a non-ASCII letter has no boundary there in Python.
- `re.IGNORECASE` is modelled only for the labelled patterns of strategy 2 and the context search of strategy 4, the two places the scripts use it.
- LiveKitSender.SenderPayload has no ensures of its own. What it builds is stated by LiveKitSender.SenderPayloadValues.
- The two other sender scripts of the repository (`send_data.py`, `deepgram_sender.py`) are not part of this model, nor is the commented-out code of the two LiveKit senders.
