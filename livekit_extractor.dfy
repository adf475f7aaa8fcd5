/** The LiveKit `DataExtractor`: e-mail addresses, LiveKit URLs, and API and secret
    keys found in free text by four strategies, written as a four-column CSV table
    whose columns are padded with empty cells to a common height. */
module LiveKitExtractor {
  import opened Collections
  import opened Text
  import opened Scan
  import opened Records
  import Emails

  // ------------------------------------------------------------------ e-mails

  /** `extract_emails`: the cleaned matches, de-duplicated in first-occurrence order. */
  method ExtractEmails(text: string) returns (emails: seq<string>)
    ensures NoDup(emails)
    ensures forall e :: e in emails <==> e in Emails.CleanedEmails(text)
    ensures InFirstOccurrenceOrder(emails, Emails.CleanedEmails(text))
  {
    var found := FindAllIn(Email, text);
    ghost var spec := Emails.CleanedEmails(text);
    var cleanedEmails: seq<string> := [];
    for i := 0 to |found|
      invariant cleanedEmails == spec[..i]
    {
      var email := found[i];
      if StartsWith(Lower(email), "mail-") {
        email := email[5..];
      }
      assert spec[i] == Emails.CleanEmail(found[i]) == email;
      assert spec[..i + 1] == spec[..i] + [email];
      cleanedEmails := cleanedEmails + [email];
    }
    assert spec[..|found|] == spec;
    emails := Dedup(cleanedEmails);
  }

  // --------------------------------------------------------------------- URLs

  predicate IsTrailingPunct(c: char) { c in ".,;:)]}" }

  /** `url.rstrip('.,;:)]}')`. */
  function CleanUrl(url: string): (r: string)
    ensures |r| <= |url| && r == url[..|r|]
    ensures forall i :: |r| <= i < |url| ==> IsTrailingPunct(url[i])
    ensures r == [] || !IsTrailingPunct(r[|r| - 1])
  {
    TrimEndPrefix(url, IsTrailingPunct);
    TrimEnd(url, IsTrailingPunct)
  }

  /** Trimming never reaches into the scheme: every scheme ends with '/', which is
      not trailing punctuation. */
  lemma CleanUrlKeepsScheme(m: string)
    requires UrlShape(m)
    ensures exists i :: 0 <= i < |Schemes| && StartsWith(CleanUrl(m), Schemes[i])
  {
    var i :| 0 <= i < |Schemes| && StartsWith(m, Schemes[i]) && |m| > |Schemes[i]| &&
      AllIn(m[|Schemes[i]|..], UrlChar);
    var n := |Schemes[i]|;
    assert Schemes[i][n - 1] == '/';
    assert m[n - 1] == m[..n][n - 1];
    assert !IsTrailingPunct(m[n - 1]);
    var r := CleanUrl(m);
    assert r[..n] == m[..n];
  }

  predicate HasScheme(u: string) {
    exists i :: 0 <= i < |Schemes| && StartsWith(u, Schemes[i])
  }

  /** The cleaned URL matches of `text`, in text order. */
  function CleanedUrls(text: string): (r: seq<string>)
    ensures |r| == |FindAllIn(Url, text)|
    ensures forall i :: 0 <= i < |r| ==> r[i] == CleanUrl(FindAllIn(Url, text)[i])
  {
    var found := FindAllIn(Url, text);
    seq(|found|, i requires 0 <= i < |found| => CleanUrl(found[i]))
  }

  /** Every cleaned URL keeps its scheme and ends in something other than trailing
      punctuation. */
  lemma CleanedUrlsShape(text: string)
    ensures forall u :: u in CleanedUrls(text) ==> HasScheme(u) && !IsTrailingPunct(u[|u| - 1])
  {
    var found := FindAllIn(Url, text);
    var cleaned := CleanedUrls(text);
    forall u | u in cleaned ensures HasScheme(u) && |u| > 0 {
      var i :| 0 <= i < |cleaned| && cleaned[i] == u;
      assert found[i] in found;
      CleanUrlKeepsScheme(found[i]);
    }
  }

  /** `extract_urls`. */
  method ExtractUrls(text: string) returns (urls: seq<string>)
    ensures NoDup(urls)
    ensures forall u :: u in urls <==> u in CleanedUrls(text)
    ensures InFirstOccurrenceOrder(urls, CleanedUrls(text))
    ensures forall u :: u in urls ==> HasScheme(u) && !IsTrailingPunct(u[|u| - 1])
  {
    var found := FindAllIn(Url, text);
    var cleanedUrls: seq<string> := [];
    for i := 0 to |found|
      invariant cleanedUrls == CleanedUrls(text)[..i]
    {
      var url := found[i];
      url := CleanUrl(url);
      cleanedUrls := cleanedUrls + [url];
    }
    assert cleanedUrls == CleanedUrls(text);
    CleanedUrlsShape(text);
    urls := Dedup(cleanedUrls);
  }

  // --------------------------------------------------------------------- keys

  /** Strategy 2's labels. `Label(a, b, true)` is `a[_\s-]?b`, `Label(a, "", false)`
      is `a` alone; each is preceded by an optional `LIVEKIT[_\s-]?`. */
  const ApiLabels: seq<Label> := [Label("API", "KEY", true), Label("APIKEY", "", false)]
  const SecretLabels: seq<Label> := [
    Label("SECRET", "KEY", true), Label("SECRETKEY", "", false),
    Label("API", "SECRET", true), Label("APISECRET", "", false)
  ]

  /** Strategy 2: the captured values of each labelled pattern in turn, each pattern's
      values in text order (`keys.extend(re.findall(pattern, text, re.IGNORECASE))`). */
  function LabelledValues(text: string, labels: seq<Label>): (r: seq<string>)
    ensures forall v :: v in r ==> |v| >= 10 && AllIn(v, KeyChar)
    decreases |labels|
  {
    if labels == [] then []
    else LabelledValues(text, labels[..|labels| - 1]) + FindAllIn(Labelled(labels[|labels| - 1]), text)
  }

  /** The two lists being built, `api_keys` and `secret_keys`. */
  datatype Buckets = Buckets(api: seq<string>, secret: seq<string>)

  predicate ApiContext(ctx: string) {
    Contains(ctx, "api") && Contains(ctx, "key") && !Contains(ctx, "secret")
  }

  predicate SecretContext(ctx: string) {
    Contains(ctx, "secret") && Contains(ctx, "key")
  }

  /** Strategy 3 for one token: the API test and then, independently, the secret test. */
  function LineStep(b: Buckets, ctx: string, key: string): Buckets {
    Buckets(if ApiContext(ctx) then AddNew(b.api, key) else b.api,
            if SecretContext(ctx) then AddNew(b.secret, key) else b.secret)
  }

  /** Strategy 3 for the tokens of one line, in order. */
  function TokensPass(b: Buckets, ctx: string, keys: seq<string>): Buckets
    decreases |keys|
  {
    if keys == [] then b
    else LineStep(TokensPass(b, ctx, keys[..|keys| - 1]), ctx, keys[|keys| - 1])
  }

  /** `combined_context`: the previous line (or nothing) and this line, lower-cased,
      joined by a space. */
  function LineContext(lines: seq<string>, i: nat): string
    requires i < |lines|
  {
    (if i > 0 then Lower(lines[i - 1]) else "") + " " + Lower(lines[i])
  }

  /** The key-like tokens of each line (`line_keys`), found in the line alone. */
  function LineTokens(lines: seq<string>): (toks: seq<seq<string>>)
    ensures |toks| == |lines|
    ensures forall i :: 0 <= i < |lines| ==> toks[i] == FindAllIn(KeyToken, lines[i])
    ensures forall i, k :: 0 <= i < |lines| && k in toks[i] ==> |k| >= 20 && AllIn(k, KeyChar)
  {
    seq(|lines|, i requires 0 <= i < |lines| => FindAllIn(KeyToken, lines[i]))
  }

  /** Strategy 3 for line `i`, whose tokens are `toks[i]`: blank lines are skipped,
      otherwise the line's own key-like tokens are judged by its context. */
  function LinePass(b: Buckets, lines: seq<string>, toks: seq<seq<string>>, i: nat): Buckets
    requires i < |lines| == |toks|
  {
    if Strip(lines[i]) == [] then b
    else TokensPass(b, LineContext(lines, i), toks[i])
  }

  /** Strategy 3 over the first `n` lines. */
  function LinesPass(b: Buckets, lines: seq<string>, toks: seq<seq<string>>, n: nat): Buckets
    requires n <= |lines| == |toks|
    decreases n
  {
    if n == 0 then b else LinePass(LinesPass(b, lines, toks, n - 1), lines, toks, n - 1)
  }

  // The context search of strategy 4: `re.search(r'.{0,100}' + re.escape(key) +
  // r'.{0,100}', text, re.IGNORECASE)`, where `.` does not match a newline.

  /** The longest lead `j <= m` such that `key` follows `s[p..p + j]`: the greedy
      `.{0,100}` giving characters back one at a time. */
  function LastKeyAt(s: string, key: string, p: nat, m: nat): (r: Option<nat>)
    requires p + m <= |s|
    ensures r.Some? ==> r.value <= m && MatchesAt(s, p + r.value, key)
    ensures r.Some? ==> forall j :: p + r.value < j <= p + m ==> !MatchesAt(s, j, key)
    ensures r.None? ==> forall j :: p <= j <= p + m ==> !MatchesAt(s, j, key)
    decreases m
  {
    if MatchesAt(s, p + m, key) then Some(m)
    else if m == 0 then None
    else LastKeyAt(s, key, p, m - 1)
  }

  /** Where a greedy `.{0,100}` from `p` stops: after 100 characters, or before the
      first newline or the end of the text. */
  function Reach(s: string, p: nat): (e: nat)
    requires p <= |s|
    ensures p <= e <= p + 100 && Scan.Run(s, p, e, NotNewline)
    ensures e == p + 100 || !InAt(s, e, NotNewline)
  {
    Min(p + 100, RunEnd(s, p, NotNewline))
  }

  /** The lead the greedy `.{0,100}` before the key settles on at start `p`: `key`
      follows it, and follows no longer lead within the reach from `p`. */
  ghost predicate GreedyLead(s: string, key: string, p: nat, m: nat) {
    && p <= |s| && p + m <= Reach(s, p) && MatchesAt(s, p + m, key)
    && forall j :: p + m < j <= Reach(s, p) ==> !MatchesAt(s, j, key)
  }

  /** The search attempted at start `p`: it fails exactly when the key starts nowhere
      within the reach of the lead; otherwise the window runs from `p` over the
      greedy lead and the key to the reach of the trailing `.{0,100}`. */
  function WindowAt(s: string, key: string, p: nat): (r: Option<string>)
    requires p <= |s|
    ensures r.None? <==> forall j :: p <= j <= Reach(s, p) ==> !MatchesAt(s, j, key)
    ensures r.Some? ==> exists m :: GreedyLead(s, key, p, m) && r.value == s[p..Reach(s, p + m + |key|)]
    ensures r.Some? ==> |r.value| <= |key| + 200
    ensures r.Some? ==> exists j :: 0 <= j <= 100 && MatchesAt(r.value, j, key)
  {
    match LastKeyAt(s, key, p, Reach(s, p) - p)
    case None => None
    case Some(m) =>
      WindowOfLead(s, key, p, m);
      Some(s[p..Reach(s, p + m + |key|)])
  }

  /** The window of a greedy lead holds the key at the lead's end. */
  lemma WindowOfLead(s: string, key: string, p: nat, m: nat)
    requires p <= |s| && p + m <= Reach(s, p) && MatchesAt(s, p + m, key)
    requires forall j :: p + m < j <= Reach(s, p) ==> !MatchesAt(s, j, key)
    ensures GreedyLead(s, key, p, m) && m <= 100
    ensures p + m + |key| <= Reach(s, p + m + |key|) <= p + m + |key| + 100
    ensures MatchesAt(s[p..Reach(s, p + m + |key|)], m, key)
  {
    MatchesAtSlice(s, p, Reach(s, p + m + |key|), p + m, key);
  }

  lemma MatchesAtSlice(s: string, lo: nat, hi: nat, i: nat, key: string)
    requires lo <= i && i + |key| <= hi <= |s| && MatchesAt(s, i, key)
    ensures MatchesAt(s[lo..hi], i - lo, key)
  {
    var w := s[lo..hi];
    var a := w[i - lo..i - lo + |key|];
    var b := s[i..i + |key|];
    forall t | 0 <= t < |key| ensures a[t] == b[t] {
      assert w[i - lo + t] == s[i + t];
    }
    assert a == b;
  }

  /** `re.search`: the first start position at which the pattern matches. */
  function SearchFrom(s: string, key: string, p: nat): (r: Option<string>)
    requires p <= |s|
    ensures r.Some? ==> |r.value| <= |key| + 200
    ensures r.Some? ==> exists j :: 0 <= j <= 100 && MatchesAt(r.value, j, key)
    decreases |s| - p
  {
    match WindowAt(s, key, p)
    case Some(w) => Some(w)
    case None => if p == |s| then None else SearchFrom(s, key, p + 1)
  }

  /** `re.search` from `p` fails exactly when every attempt from `p` on fails, and
      otherwise reports the window of the first start whose attempt succeeds. */
  lemma {:induction false} SearchFromFirst(s: string, key: string, p: nat)
    requires p <= |s|
    ensures SearchFrom(s, key, p).None? <==> forall q :: p <= q <= |s| ==> WindowAt(s, key, q).None?
    ensures SearchFrom(s, key, p).Some? ==> exists q :: FirstWindow(s, key, p, q) && WindowAt(s, key, q) == SearchFrom(s, key, p)
    decreases |s| - p
  {
    if WindowAt(s, key, p).Some? {
      assert FirstWindow(s, key, p, p);
    } else if p < |s| {
      SearchFromFirst(s, key, p + 1);
      if SearchFrom(s, key, p + 1).Some? {
        var q :| FirstWindow(s, key, p + 1, q) && WindowAt(s, key, q) == SearchFrom(s, key, p + 1);
        assert FirstWindow(s, key, p, q);
      }
    }
  }

  /** `q` is the first start from `p` on whose attempt succeeds. */
  ghost predicate FirstWindow(s: string, key: string, p: nat, q: nat) {
    p <= q <= |s| && WindowAt(s, key, q).Some? && forall q' :: p <= q' < q ==> WindowAt(s, key, q').None?
  }

  /** The context window of strategy 4: `re.search` over the whole text. */
  function ContextWindow(text: string, key: string): (r: Option<string>)
    ensures r.Some? ==> |r.value| <= |key| + 200
    ensures r.Some? ==> exists j :: 0 <= j <= 100 && MatchesAt(r.value, j, key)
  {
    SearchFrom(text, key, 0)
  }

  /** The context window is the window of the first start in the text whose attempt
      succeeds, and there is none exactly when every attempt fails. */
  lemma ContextWindowFirst(text: string, key: string)
    ensures ContextWindow(text, key).None? <==> forall q :: 0 <= q <= |text| ==> WindowAt(text, key, q).None?
    ensures ContextWindow(text, key).Some? ==>
      exists q :: FirstWindow(text, key, 0, q) && WindowAt(text, key, q) == ContextWindow(text, key)
  {
    SearchFromFirst(text, key, 0);
  }

  /** The search always succeeds for a key that occurs in the text (as every token
      of strategy 1 does): the attempt at the key's own position already matches. */
  lemma {:induction false} ContextWindowFound(text: string, key: string, q: nat)
    requires OccursAt(text, key, q)
    ensures ContextWindow(text, key).Some?
  {
    assert MatchesAt(text, q, key);
    assert WindowAt(text, key, q).Some?;
    ContextWindowFirst(text, key);
  }

  /** Every token strategy 1 collects occurs in the text and so has a context
      window: strategy 4 never passes over an uncategorised key for want of a match. */
  lemma TokensHaveWindows(text: string)
    ensures forall k :: k in FindAllIn(KeyToken, text) ==> ContextWindow(text, k).Some?
  {
    forall k | k in FindAllIn(KeyToken, text) ensures ContextWindow(text, k).Some? {
      FindAllInOccurs(KeyToken, text, k);
      var i: nat :| i <= |text| && OccursAt(text, k, i);
      ContextWindowFound(text, k, i);
    }
  }

  datatype Verdict = ToApi | ToSecret | NoVerdict

  /** Strategy 4's decision for an uncategorised key: the words in its context
      window first, then the key's own prefix. */
  function ContextVerdict(text: string, key: string): Verdict {
    match ContextWindow(text, key)
    case None => NoVerdict
    case Some(w) =>
      var context := Lower(w);
      if Contains(context, "api") && Contains(context, "key") && !Contains(context, "secret") then ToApi
      else if Contains(context, "secret") then ToSecret
      else if StartsWith(key, "API") || StartsWith(key, "api") then ToApi
      else if StartsWith(key, "SK") || StartsWith(key, "sk") || StartsWith(key, "SECRET") || StartsWith(key, "secret") then ToSecret
      else NoVerdict
  }

  function ContextStep(b: Buckets, text: string, key: string): Buckets {
    match ContextVerdict(text, key)
    case ToApi => b.(api := AddNew(b.api, key))
    case ToSecret => b.(secret := AddNew(b.secret, key))
    case NoVerdict => b
  }

  /** Strategy 4 over the uncategorised keys, in order. */
  function ContextPass(b: Buckets, text: string, keys: seq<string>): Buckets
    decreases |keys|
  {
    if keys == [] then b
    else ContextStep(ContextPass(b, text, keys[..|keys| - 1]), text, keys[|keys| - 1])
  }

  /** `set(api_keys + secret_keys)`. */
  function Categorized(b: Buckets): (r: set<string>)
    ensures forall k :: k in r <==> k in b.api || k in b.secret
  {
    (set k | k in b.api) + (set k | k in b.secret)
  }

  /** `[k for k in keys if k not in categorized]`: the order of `keys` is kept, as
      `Filter` keeps it (`FilterAppend`). */
  function Uncategorized(keys: seq<string>, categorized: set<string>): (r: seq<string>)
    ensures forall k :: k in r <==> k in keys && k !in categorized
  {
    Filter(keys, k => k !in categorized)
  }

  /** A key the final filter drops: `k.lower().startswith(('http', 'https', 'www'))`. */
  predicate UrlLike(k: string) {
    StartsWith(Lower(k), "http") || StartsWith(Lower(k), "https") || StartsWith(Lower(k), "www")
  }

  predicate NotUrlLike(k: string) { !UrlLike(k) }

  function AfterLabels(text: string): Buckets {
    Buckets(LabelledValues(text, ApiLabels), LabelledValues(text, SecretLabels))
  }

  function AfterLines(text: string): Buckets {
    var lines := Lines(text);
    LinesPass(AfterLabels(text), lines, LineTokens(lines), |lines|)
  }

  function AfterContext(text: string): Buckets {
    var b := AfterLines(text);
    ContextPass(b, text, Uncategorized(FindAllIn(KeyToken, text), Categorized(b)))
  }

  /** The result of `extract_keys`. */
  function KeysSpec(text: string): Buckets {
    var b := AfterContext(text);
    Buckets(Filter(Dedup(b.api), NotUrlLike), Filter(Dedup(b.secret), NotUrlLike))
  }

  /** Each reported list holds exactly the keys of its list after the four
      strategies that do not look like URLs, once each, in the order in which they
      were first added. */
  lemma KeysOrder(text: string)
    ensures var (b, r) := (AfterContext(text), KeysSpec(text));
      && (forall k :: k in r.api <==> k in b.api && !UrlLike(k))
      && (forall k :: k in r.secret <==> k in b.secret && !UrlLike(k))
      && InFirstOccurrenceOrder(r.api, b.api) && InFirstOccurrenceOrder(r.secret, b.secret)
  {
    var b := AfterContext(text);
    FilterKeepsOrder(Dedup(b.api), b.api, NotUrlLike);
    FilterKeepsOrder(Dedup(b.secret), b.secret, NotUrlLike);
  }

  // ------------------------------------------------------- what each strategy adds

  /** Strategy 3 on one line only appends: to the API list, tokens of the line whose
      context names an API key and no secret; to the secret list, tokens whose
      context names a secret key; never a key the list already holds. */
  lemma {:induction false} TokensPassAdds(b0: Buckets, ctx: string, keys: seq<string>)
    ensures var b := TokensPass(b0, ctx, keys);
      && b0.api <= b.api && b0.secret <= b.secret
      && (forall k :: k in b.api[|b0.api|..] ==> k in keys && k !in b0.api && ApiContext(ctx))
      && (forall k :: k in b.secret[|b0.secret|..] ==> k in keys && k !in b0.secret && SecretContext(ctx))
    decreases |keys|
  {
    if keys != [] {
      var init := keys[..|keys| - 1];
      var key := keys[|keys| - 1];
      TokensPassAdds(b0, ctx, init);
      var b1 := TokensPass(b0, ctx, init);
      assert keys == init + [key];
      if ApiContext(ctx) {
        AddNewExtends(b0.api, b1.api, key);
      }
      if SecretContext(ctx) {
        AddNewExtends(b0.secret, b1.secret, key);
      }
    }
  }

  /** Strategy 3 adds `k` to the API list (when `toApi`) or to the secret list
      because of line `i`: the line is not blank, `k` is one of its tokens, and the
      context of the line names that kind of key. */
  ghost predicate ByLine(lines: seq<string>, toks: seq<seq<string>>, i: nat, k: string, toApi: bool)
    requires i < |lines| == |toks|
  {
    && Strip(lines[i]) != [] && k in toks[i]
    && if toApi then ApiContext(LineContext(lines, i)) else SecretContext(LineContext(lines, i))
  }

  /** Strategy 3 on line `i`: what it appends to either list is justified by that
      line. */
  lemma LinePassAdds(b1: Buckets, lines: seq<string>, toks: seq<seq<string>>, i: nat, toApi: bool)
    requires i < |lines| == |toks|
    ensures Pick(b1, toApi) <= Pick(LinePass(b1, lines, toks, i), toApi)
    ensures forall k :: k in Pick(LinePass(b1, lines, toks, i), toApi)[|Pick(b1, toApi)|..] ==>
              k !in Pick(b1, toApi) && ByLine(lines, toks, i, k, toApi)
  {
    if Strip(lines[i]) != [] {
      TokensPassAdds(b1, LineContext(lines, i), toks[i]);
    }
  }

  /** Some line before line `n` justifies `k` (for the API list when `toApi`). */
  ghost predicate JustifiedBefore(lines: seq<string>, toks: seq<seq<string>>, n: nat, k: string, toApi: bool)
    requires n <= |lines| == |toks|
    decreases n
  {
    n > 0 && (ByLine(lines, toks, n - 1, k, toApi) || JustifiedBefore(lines, toks, n - 1, k, toApi))
  }

  lemma {:induction false} JustifiedBeforeWitness(lines: seq<string>, toks: seq<seq<string>>, n: nat, k: string, toApi: bool)
    requires n <= |lines| == |toks| && JustifiedBefore(lines, toks, n, k, toApi)
    ensures exists i :: 0 <= i < n && ByLine(lines, toks, i, k, toApi)
    decreases n
  {
    if !ByLine(lines, toks, n - 1, k, toApi) {
      JustifiedBeforeWitness(lines, toks, n - 1, k, toApi);
    }
  }

  /** One step of the induction below, over the lists alone: a key appended to `a`
      on the way to `b` was appended either by the first `n - 1` lines or by line
      `n - 1`. */
  lemma ChainStep(a: seq<string>, b1: seq<string>, b: seq<string>, lines: seq<string>, toks: seq<seq<string>>, n: nat, toApi: bool)
    requires 0 < n <= |lines| == |toks|
    requires a <= b1 <= b
    requires forall k :: k in b1[|a|..] ==> k !in a && JustifiedBefore(lines, toks, n - 1, k, toApi)
    requires forall k :: k in b[|b1|..] ==> k !in b1 && ByLine(lines, toks, n - 1, k, toApi)
    ensures a <= b
    ensures forall k :: k in b[|a|..] ==> k !in a && JustifiedBefore(lines, toks, n, k, toApi)
  {
    forall k | k in b[|a|..] ensures k !in a && JustifiedBefore(lines, toks, n, k, toApi) {
      AppendedSplit(a, b1, b, k);
    }
  }

  /** One of the two lists: the API list when `toApi`, else the secret list. */
  function Pick(b: Buckets, toApi: bool): seq<string> {
    if toApi then b.api else b.secret
  }

  /** Strategy 3 over the first `n` lines only appends to each list, and every key it
      appends was found on a non-blank line whose context (that line and the one
      before) justifies the list it went to. */
  lemma {:induction false} LinesPassAdds(b0: Buckets, lines: seq<string>, toks: seq<seq<string>>, n: nat, toApi: bool)
    requires n <= |lines| == |toks|
    ensures Pick(b0, toApi) <= Pick(LinesPass(b0, lines, toks, n), toApi)
    ensures forall k :: k in Pick(LinesPass(b0, lines, toks, n), toApi)[|Pick(b0, toApi)|..] ==>
              k !in Pick(b0, toApi) && JustifiedBefore(lines, toks, n, k, toApi)
    decreases n
  {
    if n > 0 {
      LinesPassAdds(b0, lines, toks, n - 1, toApi);
      var b1 := LinesPass(b0, lines, toks, n - 1);
      LinePassAdds(b1, lines, toks, n - 1, toApi);
      var b2 := LinePass(b1, lines, toks, n - 1);
      ChainStep(Pick(b0, toApi), Pick(b1, toApi), Pick(b2, toApi), lines, toks, n, toApi);
      assert Pick(b0, toApi) <= Pick(b2, toApi);
    }
  }

  /** Strategy 4 only appends, and only keys of its input, each to the list its
      verdict names and never to a list that already holds it. */
  lemma {:induction false} ContextPassAdds(b0: Buckets, text: string, keys: seq<string>)
    ensures var b := ContextPass(b0, text, keys);
      && b0.api <= b.api && b0.secret <= b.secret
      && (forall k :: k in b.api[|b0.api|..] ==> k in keys && k !in b0.api && ContextVerdict(text, k) == ToApi)
      && (forall k :: k in b.secret[|b0.secret|..] ==> k in keys && k !in b0.secret && ContextVerdict(text, k) == ToSecret)
    decreases |keys|
  {
    if keys != [] {
      var init := keys[..|keys| - 1];
      var key := keys[|keys| - 1];
      ContextPassAdds(b0, text, init);
      var b1 := ContextPass(b0, text, init);
      InitIn(keys);
      match ContextVerdict(text, key)
      case ToApi => AddNewExtends(b0.api, b1.api, key);
      case ToSecret => AddNewExtends(b0.secret, b1.secret, key);
      case NoVerdict =>
    }
  }

  /** Strategy 4 places only key-like tokens of the text that strategies 2 and 3 left
      in neither list, and it never places one key in both lists. */
  lemma StrategyFourAdds(text: string)
    ensures var (b3, b4) := (AfterLines(text), AfterContext(text));
      && b3.api <= b4.api && b3.secret <= b4.secret
      && (forall k :: k in b4.api[|b3.api|..] ==>
            k in FindAllIn(KeyToken, text) && k !in b3.api && k !in b3.secret && k !in b4.secret[|b3.secret|..])
      && (forall k :: k in b4.secret[|b3.secret|..] ==>
            k in FindAllIn(KeyToken, text) && k !in b3.api && k !in b3.secret)
  {
    var b3 := AfterLines(text);
    ContextPassAdds(b3, text, Uncategorized(FindAllIn(KeyToken, text), Categorized(b3)));
  }

  function VerdictFor(toApi: bool): Verdict {
    if toApi then ToApi else ToSecret
  }

  /** The argument of `KeysProvenance` for one of the two lists, over the lists alone:
      `labelled` after strategy 2, `b3` after strategy 3, `b4` after strategy 4 and
      `r` the reported list. */
  lemma ListProvenance(text: string, lines: seq<string>, toks: seq<seq<string>>, cat: set<string>, toApi: bool,
                       labelled: seq<string>, b3: seq<string>, b4: seq<string>, r: seq<string>)
    requires toks == LineTokens(lines)
    requires labelled <= b3 <= b4
    requires forall v :: v in labelled ==> |v| >= 10 && AllIn(v, KeyChar)
    requires forall k :: k in b3[|labelled|..] ==> JustifiedBefore(lines, toks, |lines|, k, toApi)
    requires forall k :: k in b4[|b3|..] ==>
      k in FindAllIn(KeyToken, text) && k !in cat && ContextVerdict(text, k) == VerdictFor(toApi)
    requires r == Filter(Dedup(b4), NotUrlLike)
    ensures NoDup(r)
    ensures forall k :: k in r ==>
      && |k| >= 10 && AllIn(k, KeyChar) && !UrlLike(k)
      && (|| k in labelled
          || (exists i :: 0 <= i < |lines| && ByLine(lines, toks, i, k, toApi))
          || (k in FindAllIn(KeyToken, text) && k !in cat && ContextVerdict(text, k) == VerdictFor(toApi)))
  {
    forall k | k in r
      ensures |k| >= 10 && AllIn(k, KeyChar)
      ensures || k in labelled
              || (exists i :: 0 <= i < |lines| && ByLine(lines, toks, i, k, toApi))
              || (k in FindAllIn(KeyToken, text) && k !in cat && ContextVerdict(text, k) == VerdictFor(toApi))
    {
      assert k in b4 && b4[0..] == b4;
      AppendedSplit([], b3, b4, k);
      if k in b3[0..] {
        AppendedSplit([], labelled, b3, k);
        if k !in labelled[0..] {
          JustifiedBeforeWitness(lines, toks, |lines|, k, toApi);
          var i :| 0 <= i < |lines| && ByLine(lines, toks, i, k, toApi);
          assert k in FindAllIn(KeyToken, lines[i]);
          assert Captured(KeyToken, k);
        }
      } else {
        assert k in b4[|b3|..];
        assert Captured(KeyToken, k);
      }
    }
  }

  /** The labels of strategy 2 for one list. */
  function LabelsFor(toApi: bool): seq<Label> {
    if toApi then ApiLabels else SecretLabels
  }

  /** Where each reported key comes from. An API key is a value labelled as an API
      key (strategy 2), a token of a line whose context names an API key and no
      secret (strategy 3), or a key-like token of the text that neither earlier
      strategy placed and whose context window or prefix calls it an API key
      (strategy 4); secret keys likewise (`toApi` false). Every key has at least ten
      characters from `[A-Za-z0-9_.*-]`, none looks like a URL, and no list repeats a
      key. */
  lemma KeysProvenance(text: string, toApi: bool)
    ensures var (lines, b3, r) := (Lines(text), AfterLines(text), Pick(KeysSpec(text), toApi));
      var toks := LineTokens(lines);
      && NoDup(r)
      && forall k :: k in r ==>
           && |k| >= 10 && AllIn(k, KeyChar) && !UrlLike(k)
           && (|| k in LabelledValues(text, LabelsFor(toApi))
               || (exists i :: 0 <= i < |lines| && ByLine(lines, toks, i, k, toApi))
               || (k in FindAllIn(KeyToken, text) && k !in Categorized(b3) && ContextVerdict(text, k) == VerdictFor(toApi)))
  {
    var lines := Lines(text);
    var toks := LineTokens(lines);
    var b2 := AfterLabels(text);
    var b3 := AfterLines(text);
    var b4 := AfterContext(text);
    var cat := Categorized(b3);
    LinesPassAdds(b2, lines, toks, |lines|, toApi);
    ContextPassAdds(b3, text, Uncategorized(FindAllIn(KeyToken, text), cat));
    assert Pick(b2, toApi) == LabelledValues(text, LabelsFor(toApi));
    assert Pick(KeysSpec(text), toApi) == Filter(Dedup(Pick(b4, toApi)), NotUrlLike);
    ListProvenance(text, lines, toks, cat, toApi, Pick(b2, toApi), Pick(b3, toApi), Pick(b4, toApi), Pick(KeysSpec(text), toApi));
  }

  // ---------------------------------------------------------------- extract_keys

  /** Strategy 2 for one group of labels: `for pattern in patterns:
      keys.extend(re.findall(pattern, text, re.IGNORECASE))`. */
  method CollectLabelled(text: string, labels: seq<Label>) returns (keys: seq<string>)
    ensures keys == LabelledValues(text, labels)
    ensures forall k :: k in keys ==> |k| >= 10 && AllIn(k, KeyChar)
  {
    keys := [];
    for p := 0 to |labels|
      invariant keys == LabelledValues(text, labels[..p])
    {
      assert labels[..p + 1][..p] == labels[..p];
      keys := keys + FindAllIn(Labelled(labels[p]), text);
    }
    assert labels[..|labels|] == labels;
  }

  /** Strategy 3 for the tokens of one line, against its combined context. */
  method ScanLineTokens(b: Buckets, combinedContext: string, lineKeys: seq<string>) returns (r: Buckets)
    ensures r == TokensPass(b, combinedContext, lineKeys)
  {
    var api, secret := b.api, b.secret;
    for j := 0 to |lineKeys|
      invariant Buckets(api, secret) == TokensPass(b, combinedContext, lineKeys[..j])
    {
      var key := lineKeys[j];
      if Contains(combinedContext, "api") && Contains(combinedContext, "key") {
        if !Contains(combinedContext, "secret") && key !in api {
          api := api + [key];
        }
      }
      if Contains(combinedContext, "secret") && Contains(combinedContext, "key") {
        if key !in secret {
          secret := secret + [key];
        }
      }
      assert lineKeys[..j + 1][..j] == lineKeys[..j];
    }
    assert lineKeys[..|lineKeys|] == lineKeys;
    r := Buckets(api, secret);
  }

  /** Strategy 3: the lines of the text in order. */
  method ScanLines(text: string, b: Buckets) returns (r: Buckets)
    ensures var lines := Lines(text); r == LinesPass(b, lines, LineTokens(lines), |lines|)
  {
    var lines := Lines(text);
    ghost var toks := LineTokens(lines);
    r := b;
    for i := 0 to |lines|
      invariant r == LinesPass(b, lines, toks, i)
    {
      var lineLower := Lower(lines[i]);
      var lineStripped := Strip(lines[i]);
      if lineStripped == [] {
        continue;
      }
      var prevLine := if i > 0 then Lower(lines[i - 1]) else "";
      var lineKeys := FindAllIn(KeyToken, lines[i]);
      r := ScanLineTokens(r, prevLine + " " + lineLower, lineKeys);
    }
  }

  /** Strategy 4 over the uncategorised keys. */
  method ScanContexts(text: string, b: Buckets, uncategorized: seq<string>) returns (r: Buckets)
    ensures r == ContextPass(b, text, uncategorized)
  {
    var api, secret := b.api, b.secret;
    for j := 0 to |uncategorized|
      invariant Buckets(api, secret) == ContextPass(b, text, uncategorized[..j])
    {
      var key := uncategorized[j];
      var contextMatch := ContextWindow(text, key);
      if contextMatch.Some? {
        var context := Lower(contextMatch.value);
        if Contains(context, "api") && Contains(context, "key") && !Contains(context, "secret") {
          if key !in api {
            api := api + [key];
          }
        } else if Contains(context, "secret") {
          if key !in secret {
            secret := secret + [key];
          }
        } else if StartsWith(key, "API") || StartsWith(key, "api") {
          if key !in api {
            api := api + [key];
          }
        } else if StartsWith(key, "SK") || StartsWith(key, "sk") || StartsWith(key, "SECRET") || StartsWith(key, "secret") {
          if key !in secret {
            secret := secret + [key];
          }
        }
      }
      assert uncategorized[..j + 1][..j] == uncategorized[..j];
    }
    assert uncategorized[..|uncategorized|] == uncategorized;
    r := Buckets(api, secret);
  }

  /** `extract_keys`: the four strategies, then de-duplication and the URL filter. */
  method ExtractKeys(text: string) returns (apiKeys: seq<string>, secretKeys: seq<string>)
    ensures Buckets(apiKeys, secretKeys) == KeysSpec(text)
    ensures NoDup(apiKeys) && NoDup(secretKeys)
    ensures forall k :: k in apiKeys ==> |k| >= 10 && AllIn(k, KeyChar) && !UrlLike(k)
    ensures forall k :: k in secretKeys ==> |k| >= 10 && AllIn(k, KeyChar) && !UrlLike(k)
  {
    var allPotentialKeys := FindAllIn(KeyToken, text);
    var api := CollectLabelled(text, ApiLabels);
    var secret := CollectLabelled(text, SecretLabels);
    assert Buckets(api, secret) == AfterLabels(text);
    var b := ScanLines(text, Buckets(api, secret));
    assert b == AfterLines(text);
    var categorized := Categorized(b);
    var uncategorized := Uncategorized(allPotentialKeys, categorized);
    b := ScanContexts(text, b, uncategorized);
    assert b == AfterContext(text);
    api := Dedup(b.api);
    secret := Dedup(b.secret);
    apiKeys := Filter(api, NotUrlLike);
    secretKeys := Filter(secret, NotUrlLike);
    assert Buckets(apiKeys, secretKeys) == KeysSpec(text);
    assert Pick(KeysSpec(text), true) == apiKeys && Pick(KeysSpec(text), false) == secretKeys;
    KeysProvenance(text, true);
    KeysProvenance(text, false);
  }

  // ------------------------------------------------------- extract_all and the CSV

  /** The dictionary `extract_all` returns. */
  datatype Extracted = Extracted(emails: seq<string>, urls: seq<string>, apiKeys: seq<string>, secretKeys: seq<string>)

  /** What `extract_all` returns for the file's contents. */
  function ExtractedSpec(text: string): Extracted {
    var keys := KeysSpec(text);
    Extracted(Dedup(Emails.CleanedEmails(text)), Dedup(CleanedUrls(text)), keys.api, keys.secret)
  }

  /** `extract_all` once the file has been read. */
  method ExtractAll(content: string) returns (data: Extracted)
    ensures data == ExtractedSpec(content)
  {
    var emails := ExtractEmails(content);
    DedupUnique(Emails.CleanedEmails(content), emails);
    var urls := ExtractUrls(content);
    DedupUnique(CleanedUrls(content), urls);
    var apiKeys, secretKeys := ExtractKeys(content);
    data := Extracted(emails, urls, apiKeys, secretKeys);
  }

  const Fieldnames: seq<string> := ["email", "LIVE_KIT_URL", "LIVEKIT_API_KEYS", "LIVEKIT_SECRET_KEYS"]

  /** `len(xs) if xs else 1`. */
  function HeightOf(xs: seq<string>): nat {
    if xs == [] then 1 else |xs|
  }

  /** `max_len`: the number of rows written. */
  function RowCount(d: Extracted): (n: nat)
    ensures n >= 1 && n >= |d.emails| && n >= |d.urls| && n >= |d.apiKeys| && n >= |d.secretKeys|
    ensures n == 1 || n == |d.emails| || n == |d.urls| || n == |d.apiKeys| || n == |d.secretKeys|
  {
    Max(Max(HeightOf(d.emails), HeightOf(d.urls)), Max(HeightOf(d.apiKeys), HeightOf(d.secretKeys)))
  }

  /** Row `i`: the `i`-th entry of each list, or '' past its end. */
  function RowAt(d: Extracted, i: nat): CsvRow {
    map["email" := Cell(d.emails, i), "LIVE_KIT_URL" := Cell(d.urls, i),
        "LIVEKIT_API_KEYS" := Cell(d.apiKeys, i), "LIVEKIT_SECRET_KEYS" := Cell(d.secretKeys, i)]
  }

  /** The rows of `save_to_csv`. Every list comes back as its column, in order and
      padded with empty cells; the table is as tall as the longest list, and never
      empty. */
  method SaveRows(d: Extracted) returns (rows: seq<CsvRow>)
    ensures |rows| == RowCount(d)
    ensures forall i :: 0 <= i < |rows| ==> rows[i] == RowAt(d, i)
    ensures forall i :: 0 <= i < |rows| ==> rows[i].Keys == {"email", "LIVE_KIT_URL", "LIVEKIT_API_KEYS", "LIVEKIT_SECRET_KEYS"}
    ensures HasColumn(rows, "email") && Column(rows, "email") == Padded(d.emails, |rows|)
    ensures HasColumn(rows, "LIVE_KIT_URL") && Column(rows, "LIVE_KIT_URL") == Padded(d.urls, |rows|)
    ensures HasColumn(rows, "LIVEKIT_API_KEYS") && Column(rows, "LIVEKIT_API_KEYS") == Padded(d.apiKeys, |rows|)
    ensures HasColumn(rows, "LIVEKIT_SECRET_KEYS") && Column(rows, "LIVEKIT_SECRET_KEYS") == Padded(d.secretKeys, |rows|)
  {
    var maxLen := RowCount(d);
    rows := [];
    for i := 0 to maxLen
      invariant |rows| == i
      invariant forall k :: 0 <= k < i ==> rows[k] == RowAt(d, k)
    {
      var row := map[
        "email" := if i < |d.emails| then d.emails[i] else "",
        "LIVE_KIT_URL" := if i < |d.urls| then d.urls[i] else "",
        "LIVEKIT_API_KEYS" := if i < |d.apiKeys| then d.apiKeys[i] else "",
        "LIVEKIT_SECRET_KEYS" := if i < |d.secretKeys| then d.secretKeys[i] else ""];
      assert row == RowAt(d, i);
      rows := rows + [row];
    }
    RowsColumns(d, rows);
  }

  /** Rows built by `RowAt` have the four field names as keys, and each list is its
      column, padded. */
  lemma RowsColumns(d: Extracted, rows: seq<CsvRow>)
    requires |rows| == RowCount(d)
    requires forall i :: 0 <= i < |rows| ==> rows[i] == RowAt(d, i)
    ensures forall i :: 0 <= i < |rows| ==> rows[i].Keys == {"email", "LIVE_KIT_URL", "LIVEKIT_API_KEYS", "LIVEKIT_SECRET_KEYS"}
    ensures HasColumn(rows, "email") && Column(rows, "email") == Padded(d.emails, |rows|)
    ensures HasColumn(rows, "LIVE_KIT_URL") && Column(rows, "LIVE_KIT_URL") == Padded(d.urls, |rows|)
    ensures HasColumn(rows, "LIVEKIT_API_KEYS") && Column(rows, "LIVEKIT_API_KEYS") == Padded(d.apiKeys, |rows|)
    ensures HasColumn(rows, "LIVEKIT_SECRET_KEYS") && Column(rows, "LIVEKIT_SECRET_KEYS") == Padded(d.secretKeys, |rows|)
  {
    forall i | 0 <= i < |rows|
      ensures rows[i].Keys == {"email", "LIVE_KIT_URL", "LIVEKIT_API_KEYS", "LIVEKIT_SECRET_KEYS"}
      ensures rows[i]["email"] == Cell(d.emails, i) && rows[i]["LIVE_KIT_URL"] == Cell(d.urls, i)
      ensures rows[i]["LIVEKIT_API_KEYS"] == Cell(d.apiKeys, i) && rows[i]["LIVEKIT_SECRET_KEYS"] == Cell(d.secretKeys, i)
    {
      assert rows[i] == RowAt(d, i);
    }
    ColumnOfCells(rows, "email", d.emails);
    ColumnOfCells(rows, "LIVE_KIT_URL", d.urls);
    ColumnOfCells(rows, "LIVEKIT_API_KEYS", d.apiKeys);
    ColumnOfCells(rows, "LIVEKIT_SECRET_KEYS", d.secretKeys);
  }

  /** A row is written as its four cells in field-name order. */
  lemma WriteRowAt(d: Extracted, i: nat)
    ensures WriteLine(Fieldnames, RowAt(d, i)) == [Cell(d.emails, i), Cell(d.urls, i), Cell(d.apiKeys, i), Cell(d.secretKeys, i)]
  {
    var line := WriteLine(Fieldnames, RowAt(d, i));
    assert line[0] == Cell(d.emails, i) && line[1] == Cell(d.urls, i);
    assert line[2] == Cell(d.apiKeys, i) && line[3] == Cell(d.secretKeys, i);
  }

  /** `run`: `content` is what `read_file` returned (None when the file could not be
      read); the result is the table written to the output file, None when nothing is
      written. The header is the four field names, and line `i + 1` holds entry `i`
      of each extracted list, or '' past its end. */
  method Run(content: Option<string>) returns (table: Option<seq<seq<string>>>)
    ensures content.None? <==> table.None?
    ensures content.Some? ==>
      var d := ExtractedSpec(content.value);
      && |table.value| == RowCount(d) + 1
      && table.value[0] == Fieldnames
      && forall i :: 0 <= i < RowCount(d) ==>
           table.value[i + 1] == [Cell(d.emails, i), Cell(d.urls, i), Cell(d.apiKeys, i), Cell(d.secretKeys, i)]
  {
    if content.None? {
      return None;
    }
    var data := ExtractAll(content.value);
    var rows := SaveRows(data);
    var t := WriteTable(Fieldnames, rows);
    forall i | 0 <= i < |rows|
      ensures t[i + 1] == [Cell(data.emails, i), Cell(data.urls, i), Cell(data.apiKeys, i), Cell(data.secretKeys, i)]
    {
      WriteRowAt(data, i);
    }
    table := Some(t);
  }
}
