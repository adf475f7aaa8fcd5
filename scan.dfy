/** Explicit scanners for the regular expressions of the two extractors, and the
    left-to-right scan of `re.findall`. Each matcher follows the backtracking order of
    Python's engine for its one pattern: greedy quantifiers take the longest run first
    and give characters back one at a time, alternatives are tried left to right. */
module Scan {
  import opened Collections
  import opened Text

  /** The character classes the patterns use. */
  datatype Class =
    | Local       // [A-Za-z0-9._%+-]    local part of an e-mail address
    | Domain      // [A-Za-z0-9.-]       domain of an e-mail address
    | Tld         // [A-Z|a-z]           top-level domain (the '|' is literal)
    | KeyChar     // [A-Za-z0-9_.\-*]    key-like tokens and labelled values
    | Alnum       // [A-Za-z0-9]         DEEPGRAM_API_KEY values
    | AlnumDash   // [A-Za-z0-9\-]       PROJECT_ID values
    | UrlChar     // [^\s<>"{}|\\^`\[\]',;]
    | Space       // \s
    | NotNewline  // .

  predicate In(k: Class, c: char) {
    match k
    case Local => IsAlnum(c) || c == '.' || c == '_' || c == '%' || c == '+' || c == '-'
    case Domain => IsAlnum(c) || c == '.' || c == '-'
    case Tld => IsLetter(c) || c == '|'
    case KeyChar => IsAlnum(c) || c == '_' || c == '.' || c == '-' || c == '*'
    case Alnum => IsAlnum(c)
    case AlnumDash => IsAlnum(c) || c == '-'
    case UrlChar => !IsSpace(c) && !IsUrlStop(c)
    case Space => IsSpace(c)
    case NotNewline => c != '\n'
  }

  /** The characters `[^\s<>"{}|\\^`\[\]',;]` excludes besides whitespace. */
  predicate IsUrlStop(c: char) {
    c == '<' || c == '>' || c == '"' || c == '{' || c == '}' || c == '|' || c == '\\' || c == '^' ||
    c == '`' || c == '[' || c == ']' || c == '\'' || c == ',' || c == ';'
  }

  predicate AllIn(x: string, k: Class) {
    forall i :: 0 <= i < |x| ==> In(k, x[i])
  }

  /** `s` has a character at `t`, and it is in `k`. */
  predicate InAt(s: string, t: nat, k: Class) {
    t < |s| && In(k, s[t])
  }

  /** Every character of `s` from `i` up to `j` is in `k`. The scanners state their
      runs by position in the text rather than on slices of it. */
  predicate Run(s: string, i: nat, j: nat, k: Class) {
    i <= j <= |s| && forall t :: i <= t < j ==> InAt(s, t, k)
  }

  lemma RunAllIn(s: string, i: nat, j: nat, k: Class)
    requires Run(s, i, j, k)
    ensures AllIn(s[i..j], k)
  {
    forall t | 0 <= t < j - i ensures In(k, s[i..j][t]) {
      assert s[i..j][t] == s[i + t] && InAt(s, i + t, k);
    }
  }

  /** The end of the longest run of `k` characters starting at `i`: a greedy `[...]*`. */
  function RunEnd(s: string, i: nat, k: Class): (e: nat)
    requires i <= |s|
    ensures i <= e <= |s|
    ensures Run(s, i, e, k)
    ensures !InAt(s, e, k)
    decreases |s| - i
  {
    if InAt(s, i, k) then RunEnd(s, i + 1, k) else i
  }

  /** Any run of `k` characters from `i` ends no later than the greedy run. */
  lemma RunEndCovers(s: string, i: nat, j: nat, k: Class)
    requires Run(s, i, j, k)
    ensures j <= RunEnd(s, i, k)
  {
  }

  /** A run of `k` characters followed by the end or a character outside `k` is the
      greedy run. */
  lemma RunEndIs(s: string, i: nat, j: nat, k: Class)
    requires Run(s, i, j, k) && !InAt(s, j, k)
    ensures RunEnd(s, i, k) == j
  {
    RunEndCovers(s, i, j, k);
  }

  predicate WordAt(s: string, i: int) {
    0 <= i < |s| && IsWordChar(s[i])
  }

  /** `\b` at position `i`: a word character on exactly one side. */
  predicate Boundary(s: string, i: nat) {
    WordAt(s, i - 1) != WordAt(s, i)
  }

  /** The largest `j` in `[lo, hi]` with a word boundary: a greedy run followed by `\b`
      gives characters back until the boundary holds. */
  function LastBoundary(s: string, lo: nat, hi: nat): (r: Option<nat>)
    ensures r.Some? ==> lo <= r.value <= hi && Boundary(s, r.value)
    ensures r.Some? ==> forall j :: r.value < j <= hi ==> !Boundary(s, j)
    ensures r.None? ==> forall j :: lo <= j <= hi ==> !Boundary(s, j)
    decreases hi
  {
    if hi < lo then None
    else if Boundary(s, hi) then Some(hi)
    else if hi == lo then None
    else LastBoundary(s, lo, hi - 1)
  }

  /** A successful match: where the reported text starts, where the scan resumes, and
      what `findall` reports (the whole match, or the one group when the pattern has a
      group). */
  datatype Match = Match(at: nat, stop: nat, end: nat)

  /** The reported text of `m` lies in `s` between the start `p` of the attempt and the
      end of the match. */
  predicate Within(s: string, p: nat, m: Match) {
    p <= m.at <= m.stop <= m.end <= |s|
  }

  /** The text `findall` reports for `m`. */
  function Reported(s: string, m: Match): string
    requires m.at <= m.stop <= |s|
  {
    s[m.at..m.stop]
  }

  /** `FIRST[_\s-]?SECOND` when `separated`, the literal `FIRST` + `SECOND` otherwise. */
  datatype Label = Label(first: string, second: string, separated: bool)

  datatype Pattern =
    | Email                                      // \b[A-Za-z0-9._%+-]+@[A-Za-z0-9.-]+\.[A-Z|a-z]{2,}\b
    | Url                                        // (?:https?|wss?)://[^\s<>"{}|\\^`\[\]',;]+
    | KeyToken                                   // \b[A-Za-z0-9_.\-*]{20,}\b
    | Labelled(tag: Label)                       // (?:LIVEKIT[_\s-]?)?LABEL["']?\s*[:=]\s*["']?([A-Za-z0-9_.*-]{10,})["']?, ignoring case
    | Assign(name: string, value: Class, min: nat) // NAME\s*=\s*(VALUE{min,})

  // ---------------------------------------------------------------- e-mail addresses

  ghost predicate EmailParts(m: string, a: nat, d: nat) {
    && 0 < a && a + 1 < d && d + 3 <= |m|
    && m[a] == '@' && m[d] == '.'
    && AllIn(m[..a], Local) && AllIn(m[a + 1..d], Domain) && AllIn(m[d + 1..], Tld)
  }

  /** local@domain.tld with a non-empty local part and domain and at least two
      characters of top-level domain. */
  ghost predicate EmailShape(m: string) {
    exists a: nat, d: nat :: EmailParts(m, a, d)
  }

  /** An e-mail match holds no whitespace. */
  lemma EmailNoSpace(m: string)
    requires EmailShape(m)
    ensures NoSpace(m)
  {
    var a: nat, d: nat :| EmailParts(m, a, d);
    forall j | 0 <= j < |m| ensures !IsSpace(m[j]) {
      if j < a {
        assert m[j] == m[..a][j];
      } else if a < j < d {
        assert m[j] == m[a + 1..d][j - a - 1];
      } else if d < j {
        assert m[j] == m[d + 1..][j - d - 1];
      }
    }
  }

  /** A key-like token or labelled value holds no whitespace. */
  lemma KeyNoSpace(k: string)
    requires AllIn(k, KeyChar)
    ensures NoSpace(k)
  {
    forall j | 0 <= j < |k| ensures !IsSpace(k[j]) {
      assert In(KeyChar, k[j]);
    }
  }

  /** The backtracking of `[A-Za-z0-9.-]+\.[A-Z|a-z]{2,}\b` after the `@` at `q`: the
      domain is taken to end at `k`, then `k - 1`, and so on down to one character;
      for each, `.` must follow and then the longest top-level domain that ends on a
      boundary. Returns the position of that dot and the end of the match. */
  function MatchDomainFrom(s: string, q: nat, k: nat): (r: Option<(nat, nat)>)
    requires q < k <= |s|
    ensures r.Some? ==> var (d, j) := r.value;
      q + 2 <= d && d + 3 <= j <= |s| && s[d] == '.' && d <= k && Run(s, d + 1, j, Tld) &&
      Boundary(s, j)
    decreases k
  {
    if k < q + 2 then None
    else if k < |s| && s[k] == '.' then
      var t := RunEnd(s, k + 1, Tld);
      match LastBoundary(s, k + 3, t)
      case Some(j) => Some((k, j))
      case None => MatchDomainFrom(s, q, k - 1)
    else MatchDomainFrom(s, q, k - 1)
  }

  function MatchEmailAt(s: string, p: nat): (r: Option<Match>)
    requires p <= |s|
    ensures r.Some? ==> r.value.at == p < r.value.end <= |s| && r.value.stop == r.value.end
    ensures r.Some? ==> EmailShape(s[p..r.value.end])
    ensures r.Some? ==> Boundary(s, p) && Boundary(s, r.value.end)
  {
    if !Boundary(s, p) then None
    else
      var q := RunEnd(s, p, Local);
      if q == p || q == |s| || s[q] != '@' then None
      else
        var e := RunEnd(s, q + 1, Domain);
        match MatchDomainFrom(s, q, e)
        case None => None
        case Some((d, j)) =>
          assert EmailAt(s, p, q, d, j);
          EmailAtShape(s, p, q, d, j);
          Some(Match(p, j, j))
  }

  lemma SliceOfSlice(s: string, p: nat, j: nat, a: nat, b: nat)
    requires p <= a <= b <= j <= |s|
    ensures s[p..j][a - p..b - p] == s[a..b]
  {
    forall t | a <= t < b ensures s[p..j][a - p..b - p][t - a] == s[t] { }
  }

  /** An address found in the text has the shape of an address. */
  lemma EmailAtShape(s: string, p: nat, q: nat, d: nat, j: nat)
    requires EmailAt(s, p, q, d, j)
    ensures EmailParts(s[p..j], q - p, d - p)
  {
    var m := s[p..j];
    RunAllIn(s, p, q, Local);
    RunAllIn(s, q + 1, d, Domain);
    RunAllIn(s, d + 1, j, Tld);
    assert m[..q - p] == s[p..q];
    SliceOfSlice(s, p, j, q + 1, d);
    assert m[d - p + 1..] == s[d + 1..j];
    assert m[q - p] == '@' && m[d - p] == '.';
  }

  /** An e-mail address in `s` from `p` to `j`, with its `@` at `q` and the dot before
      its top-level domain at `d`, between word boundaries. */
  ghost predicate EmailAt(s: string, p: nat, q: nat, d: nat, j: nat) {
    && p < q && q + 1 < d && d + 3 <= j <= |s|
    && s[q] == '@' && s[d] == '.'
    && Run(s, p, q, Local) && Run(s, q + 1, d, Domain) && Run(s, d + 1, j, Tld)
    && Boundary(s, p) && Boundary(s, j)
  }

  /** The domain backtracking finds a dot at `d` or later when a top-level domain after
      `d` ends on a boundary at `j`, and with the dot at `d` it reaches `j` at least. */
  lemma {:induction false} MatchDomainFromComplete(s: string, q: nat, k: nat, d: nat, j: nat)
    requires q < k <= |s| && q + 2 <= d <= k && d + 3 <= j <= |s| && s[d] == '.'
    requires Run(s, d + 1, j, Tld) && Boundary(s, j)
    ensures var r := MatchDomainFrom(s, q, k);
      r.Some? && d <= r.value.0 && (r.value.0 == d ==> j <= r.value.1)
    decreases k
  {
    if k < |s| && s[k] == '.' {
      if k == d {
        RunEndCovers(s, d + 1, j, Tld);
      } else if LastBoundary(s, k + 3, RunEnd(s, k + 1, Tld)).None? {
        MatchDomainFromComplete(s, q, k - 1, d, j);
      }
    } else {
      MatchDomainFromComplete(s, q, k - 1, d, j);
    }
  }

  /** Every e-mail address starting at `p` is found there, and the match is the longest
      one: it reaches at least as far as any address at `p`, and it is an address. */
  lemma MatchEmailAtComplete(s: string, p: nat, q: nat, d: nat, j: nat)
    requires EmailAt(s, p, q, d, j)
    ensures var r := MatchEmailAt(s, p);
      r.Some? && j <= r.value.end && exists d' :: EmailAt(s, p, q, d', r.value.end)
  {
    assert !InAt(s, q, Local);
    RunEndIs(s, p, q, Local);
    var e := RunEnd(s, q + 1, Domain);
    RunEndCovers(s, q + 1, d, Domain);
    MatchDomainFromComplete(s, q, e, d, j);
    var r := MatchDomainFrom(s, q, e).value;
    assert !InAt(s, r.0, Tld);
    assert MatchEmailAt(s, p).Some? && MatchEmailAt(s, p).value.end == r.1;
    assert EmailAt(s, p, q, r.0, r.1);
  }

  /** An address holds an '@' at or after the position it is matched from. */
  lemma EmailHasAt(s: string, q: nat)
    requires q <= |s|
    ensures MatchEmailAt(s, q).Some? ==> exists k :: q <= k < |s| && s[k] == '@'
  {
    if MatchEmailAt(s, q).Some? {
      var m := s[q..MatchEmailAt(s, q).value.end];
      var a: nat, d: nat :| EmailParts(m, a, d);
      assert s[q + a] == m[a];
    }
  }

  // --------------------------------------------------------------------------- URLs

  /** The schemes in the order the alternation `(?:https?|wss?)://` tries them. */
  const Schemes: seq<string> := ["https://", "http://", "wss://", "ws://"]

  ghost predicate UrlShape(m: string) {
    exists i :: 0 <= i < |Schemes| && StartsWith(m, Schemes[i]) && |m| > |Schemes[i]| &&
      AllIn(m[|Schemes[i]|..], UrlChar)
  }

  /** A URL match holds no whitespace: the schemes hold none and `UrlChar` excludes
      it. */
  lemma UrlNoSpace(m: string)
    requires UrlShape(m)
    ensures NoSpace(m)
  {
    var i :| 0 <= i < |Schemes| && StartsWith(m, Schemes[i]) && |m| > |Schemes[i]| &&
      AllIn(m[|Schemes[i]|..], UrlChar);
    var n := |Schemes[i]|;
    assert NoSpace(Schemes[i]) by {
      assert i == 0 || i == 1 || i == 2 || i == 3;
    }
    forall j | 0 <= j < |m| ensures !IsSpace(m[j]) {
      if j < n {
        assert m[j] == m[..n][j];
      } else {
        assert m[j] == m[n..][j - n];
      }
    }
  }

  function MatchUrlScheme(s: string, p: nat, i: nat): (r: Option<Match>)
    requires p <= |s|
    ensures r.Some? ==> r.value.at == p < r.value.end <= |s| && r.value.stop == r.value.end
    ensures r.Some? ==> UrlShape(s[p..r.value.end])
    ensures r.Some? ==> r.value.end == |s| || !In(UrlChar, s[r.value.end])
    decreases |Schemes| - i
  {
    if i >= |Schemes| then None
    else
      var scheme := Schemes[i];
      if StartsWith(s[p..], scheme) then
        var e := RunEnd(s, p + |scheme|, UrlChar);
        if e > p + |scheme| then
          var m := s[p..e];
          RunAllIn(s, p + |scheme|, e, UrlChar);
          assert m[..|scheme|] == scheme && m[|scheme|..] == s[p + |scheme|..e];
          Some(Match(p, e, e))
        else MatchUrlScheme(s, p, i + 1)
      else MatchUrlScheme(s, p, i + 1)
  }

  /** A scheme from the `i0`-th on, followed by at least one URL character, is found;
      with the maximal-run clause above, the match is the whole URL. */
  lemma {:induction false} MatchUrlSchemeComplete(s: string, p: nat, i0: nat, i: nat)
    requires p <= |s| && i0 <= i < |Schemes|
    requires StartsWith(s[p..], Schemes[i]) && p + |Schemes[i]| < |s| && InAt(s, p + |Schemes[i]|, UrlChar)
    ensures MatchUrlScheme(s, p, i0).Some?
    decreases i - i0
  {
    if i0 < i {
      MatchUrlSchemeComplete(s, p, i0 + 1, i);
    }
  }

  // -------------------------------------------------------------- key-like tokens

  function MatchKeyTokenAt(s: string, p: nat): (r: Option<Match>)
    requires p <= |s|
    ensures r.Some? ==> r.value.at == p < r.value.end <= |s| && r.value.stop == r.value.end
    ensures r.Some? ==> r.value.end - p >= 20 && Run(s, p, r.value.end, KeyChar)
    ensures r.Some? ==> Boundary(s, p) && Boundary(s, r.value.end)
  {
    if !Boundary(s, p) then None
    else
      var e := RunEnd(s, p, KeyChar);
      match LastBoundary(s, p + 20, e)
      case None => None
      case Some(j) => Some(Match(p, j, j))
  }

  /** Every token of at least twenty key characters between boundaries at `p` and `j`
      is found, and the match is the longest such token. */
  lemma MatchKeyTokenAtComplete(s: string, p: nat, j: nat)
    requires Boundary(s, p) && p + 20 <= j && Run(s, p, j, KeyChar) && Boundary(s, j)
    ensures MatchKeyTokenAt(s, p).Some? && j <= MatchKeyTokenAt(s, p).value.end
  {
    RunEndCovers(s, p, j, KeyChar);
  }

  // --------------------------------------------------------------- labelled values

  /** `lit` at `i`, ignoring (ASCII) case. */
  predicate MatchesAt(s: string, i: nat, lit: string) {
    i + |lit| <= |s| && forall t :: 0 <= t < |lit| ==> LowerChar(s[i + t]) == LowerChar(lit[t])
  }

  predicate IsSep(c: char) { c == '_' || c == '-' || IsSpace(c) }
  predicate IsQuote(c: char) { c == '"' || c == '\'' }

  /** `["']?`: one optional quote. */
  function SkipQuote(s: string, i: nat): (j: nat)
    requires i <= |s|
    ensures i <= j <= |s|
  {
    if i < |s| && IsQuote(s[i]) then i + 1 else i
  }

  /** Everything from SECOND on: `SECOND["']?\s*[:=]\s*["']?(VALUE{10,})["']?`.
      After SECOND the pattern has a single way to succeed: giving back a quote or a
      whitespace character leaves a quote or a space where `[:=]` or a value character
      is needed, and the value is followed only by an optional quote, so its longest
      run is the one taken. */
  function MatchFromSecond(s: string, i: nat, second: string): (r: Option<Match>)
    requires i <= |s|
    ensures r.Some? ==> i < r.value.end <= |s| && r.value.stop - r.value.at >= 10 && Run(s, r.value.at, r.value.stop, KeyChar)
    ensures r.Some? ==> Within(s, i, r.value)
  {
    if !MatchesAt(s, i, second) then None
    else
      var i1 := SkipQuote(s, i + |second|);
      var i2 := RunEnd(s, i1, Space);
      if i2 == |s| || (s[i2] != ':' && s[i2] != '=') then None
      else MatchValueFrom(s, i2 + 1)
  }

  /** After the operator: `\s*["']?(VALUE{10,})["']?` from `o`. */
  function MatchValueFrom(s: string, o: nat): (r: Option<Match>)
    requires 0 < o <= |s|
    ensures r.Some? ==> o <= r.value.at && r.value.end <= |s| && r.value.stop - r.value.at >= 10 && Run(s, r.value.at, r.value.stop, KeyChar)
    ensures r.Some? ==> Within(s, o, r.value)
  {
    var v := SkipQuote(s, RunEnd(s, o, Space));
    var e := RunEnd(s, v, KeyChar);
    if e - v < 10 then None
    else Some(Match(v, e, SkipQuote(s, e)))
  }

  /** `FIRST[_\s-]?SECOND...`: the optional separator is tried taken, then not taken. */
  function MatchFromFirst(s: string, i: nat, tag: Label): (r: Option<Match>)
    requires i <= |s|
    ensures r.Some? ==> i < r.value.end <= |s| && r.value.stop - r.value.at >= 10 && Run(s, r.value.at, r.value.stop, KeyChar)
    ensures r.Some? ==> Within(s, i, r.value)
  {
    if !MatchesAt(s, i, tag.first) then None
    else
      var j := i + |tag.first|;
      if tag.separated then
        var taken := if j < |s| && IsSep(s[j]) then MatchFromSecond(s, j + 1, tag.second) else None;
        if taken.Some? then taken else MatchFromSecond(s, j, tag.second)
      else MatchFromSecond(s, j, tag.second)
  }

  /** `(?:LIVEKIT[_\s-]?)?FIRST...`: the optional prefix is tried first (with and then
      without its separator), then the label alone at `p`. */
  function MatchLabelledAt(s: string, p: nat, tag: Label): (r: Option<Match>)
    requires p <= |s|
    ensures r.Some? ==> p < r.value.end <= |s| && r.value.stop - r.value.at >= 10 && Run(s, r.value.at, r.value.stop, KeyChar)
    ensures r.Some? ==> Within(s, p, r.value)
  {
    var withPrefix :=
      if MatchesAt(s, p, "LIVEKIT") then
        var i := p + 7;
        var taken := if i < |s| && IsSep(s[i]) then MatchFromFirst(s, i + 1, tag) else None;
        if taken.Some? then taken else MatchFromFirst(s, i, tag)
      else None;
    if withPrefix.Some? then withPrefix else MatchFromFirst(s, p, tag)
  }

  /** The positions a reading of `SECOND["']?\s*[:=]\s*["']?(VALUE{10,})` passes: the
      end of the optional quote, the operator, the end of the spaces after it, and the
      start and end of the value. */
  datatype Reading = Reading(quoted: nat, op: nat, spaced: nat, start: nat, end: nat)

  /** `s` reads SECOND at `i` and then a value as `w` says, in one of the ways the
      optional quotes and the whitespace allow. */
  ghost predicate ReadsValue(s: string, i: nat, second: string, w: Reading) {
    && MatchesAt(s, i, second)
    && w.quoted <= w.op < |s|
    && (w.quoted == i + |second| || (w.quoted == i + |second| + 1 && IsQuote(s[i + |second|])))
    && Run(s, w.quoted, w.op, Space) && (s[w.op] == ':' || s[w.op] == '=')
    && w.op < w.spaced <= w.start && w.start + 10 <= w.end <= |s|
    && Run(s, w.op + 1, w.spaced, Space)
    && (w.start == w.spaced || (w.start == w.spaced + 1 && IsQuote(s[w.spaced])))
    && Run(s, w.start, w.end, KeyChar)
  }

  /** `s` reads FIRST at `i`, then (when the label allows one) an optional separator,
      and SECOND starts at `j`. */
  ghost predicate ReadsLabel(s: string, i: nat, tag: Label, j: nat) {
    && MatchesAt(s, i, tag.first)
    && (j == i + |tag.first| ||
        (tag.separated && i + |tag.first| < |s| && IsSep(s[i + |tag.first|]) && j == i + |tag.first| + 1))
  }

  /** `s` reads the optional prefix `LIVEKIT[_\s-]?` from `p`, and the label starts at
      `i`. */
  ghost predicate ReadsPrefix(s: string, p: nat, i: nat) {
    i == p ||
    (MatchesAt(s, p, "LIVEKIT") && (i == p + 7 || (p + 7 < |s| && IsSep(s[p + 7]) && i == p + 8)))
  }

  /** `["']?\s*[:=]` from `x`, read as skipping to `quoted` and meeting the operator
      at `op`, is the reading the scanner takes: a quote left unskipped would stand
      where a space or the operator is needed. */
  lemma OperatorAt(s: string, x: nat, quoted: nat, op: nat)
    requires x <= quoted && Run(s, quoted, op, Space) && op < |s| && (s[op] == ':' || s[op] == '=')
    requires quoted == x || (quoted == x + 1 && IsQuote(s[x]))
    ensures SkipQuote(s, x) == quoted && RunEnd(s, quoted, Space) == op
  {
    if quoted == x && quoted < op {
      assert InAt(s, quoted, Space);
    }
    RunEndIs(s, quoted, op, Space);
  }

  /** `\s*["']?` from `o`, read as spaces up to `spaced` and a value starting at `v`, is
      the reading the scanner takes: a space or a quote cannot start a value. */
  lemma ValueStartAt(s: string, o: nat, spaced: nat, v: nat, e: nat)
    requires Run(s, o, spaced, Space) && spaced <= v < e && Run(s, v, e, KeyChar)
    requires v == spaced || (v == spaced + 1 && IsQuote(s[spaced]))
    ensures SkipQuote(s, RunEnd(s, o, Space)) == v
  {
    assert InAt(s, v, KeyChar);
    RunEndIs(s, o, spaced, Space);
  }

  /** Whichever way a value is read after SECOND, the scanner finds it: the same start,
      and a value reaching at least as far. */
  lemma MatchFromSecondComplete(s: string, i: nat, second: string, w: Reading)
    requires i <= |s| && ReadsValue(s, i, second, w)
    ensures var r := MatchFromSecond(s, i, second);
      r.Some? && r.value.at == w.start && w.end <= r.value.stop
  {
    OperatorAt(s, i + |second|, w.quoted, w.op);
    MatchValueFromComplete(s, w.op + 1, w.spaced, w.start, w.end);
  }

  /** A value read after the operator, as spaces up to `spaced` and a value from `v`
      to `e`, is found: the same start, and a value reaching at least as far. */
  lemma MatchValueFromComplete(s: string, o: nat, spaced: nat, v: nat, e: nat)
    requires 0 < o && Run(s, o, spaced, Space) && spaced <= v && v + 10 <= e && Run(s, v, e, KeyChar)
    requires v == spaced || (v == spaced + 1 && IsQuote(s[spaced]))
    ensures var r := MatchValueFrom(s, o);
      r.Some? && r.value.at == v && e <= r.value.stop
  {
    ValueStartAt(s, o, spaced, v, e);
    RunEndCovers(s, v, e, KeyChar);
  }

  /** A labelled assignment at `p`, with or without the prefix and separators, is
      captured there. */
  lemma MatchLabelledAtComplete(s: string, p: nat, tag: Label, i: nat, j: nat, w: Reading)
    requires p <= |s| && ReadsPrefix(s, p, i) && ReadsLabel(s, i, tag, j)
    requires j <= |s| && ReadsValue(s, j, tag.second, w)
    ensures MatchLabelledAt(s, p, tag).Some?
  {
    MatchFromSecondComplete(s, j, tag.second, w);
    MatchFromFirstComplete(s, i, tag, j);
    MatchLabelledAtFrom(s, p, tag, i);
  }

  /** Whichever way the prefix is read, a label matched after it is found. */
  lemma MatchLabelledAtFrom(s: string, p: nat, tag: Label, i: nat)
    requires i <= |s| && ReadsPrefix(s, p, i) && MatchFromFirst(s, i, tag).Some?
    ensures MatchLabelledAt(s, p, tag).Some?
  {
    if i != p {
      if i == p + 8 {
        assert p + 7 < |s| && IsSep(s[p + 7]);
      }
    }
  }

  /** The same after the prefix: a label and a value read from `i` are captured. */
  lemma MatchFromFirstComplete(s: string, i: nat, tag: Label, j: nat)
    requires i <= |s| && ReadsLabel(s, i, tag, j) && j <= |s| && MatchFromSecond(s, j, tag.second).Some?
    ensures MatchFromFirst(s, i, tag).Some?
  {
    var k := i + |tag.first|;
    if j == k {
      assert MatchFromSecond(s, k, tag.second).Some?;
    } else {
      assert tag.separated && k < |s| && IsSep(s[k]);
    }
  }

  // ------------------------------------------------------------ NAME = value lines

  /** `NAME\s*=\s*(VALUE{min,})`, case-sensitive. As above, backtracking cannot
      help: a space is neither `=` nor a value character. */
  function MatchAssignAt(s: string, p: nat, name: string, value: Class, min: nat): (r: Option<Match>)
    requires p <= |s|
    ensures r.Some? ==> p < r.value.end <= |s| && r.value.stop - r.value.at >= min && Run(s, r.value.at, r.value.end, value)
    ensures r.Some? ==> Within(s, p, r.value) && r.value.stop == r.value.end
  {
    if !StartsWith(s[p..], name) then None
    else
      var i := RunEnd(s, p + |name|, Space);
      if i == |s| || s[i] != '=' then None
      else
        var v := RunEnd(s, i + 1, Space);
        var e := RunEnd(s, v, value);
        if e - v < min then None
        else Some(Match(v, e, e))
  }

  /** `NAME = value` at `p` is captured: the value found starts where the value
      does and reaches at least as far. The value class must exclude whitespace, as
      both classes the extractors use do. */
  lemma MatchAssignAtComplete(s: string, p: nat, name: string, value: Class, min: nat, i: nat, v: nat, e: nat)
    requires value != Space && value != NotNewline && 0 < min
    requires p <= |s| && StartsWith(s[p..], name) && p + |name| <= i < |s| && Run(s, p + |name|, i, Space)
    requires s[i] == '=' && i < v && v + min <= e && Run(s, i + 1, v, Space) && Run(s, v, e, value)
    ensures var r := MatchAssignAt(s, p, name, value, min);
      r.Some? && r.value.at == v && e <= r.value.end
  {
    RunEndIs(s, p + |name|, i, Space);
    assert InAt(s, v, value);
    RunEndIs(s, i + 1, v, Space);
    RunEndCovers(s, v, e, value);
  }

  /** A `NAME = value` line is matched only where its name starts: a position that
      does not hold the name's `t`-th character `t` places on matches nothing. */
  lemma AssignNeedsName(s: string, pat: Pattern, lo: nat, hi: nat, t: nat)
    requires pat.Assign? && hi <= |s| + 1 && t < |pat.name|
    requires forall k :: lo + t <= k < hi + t && k < |s| ==> s[k] != pat.name[t]
    ensures forall q :: lo <= q < hi ==> MatchAt(pat, s, q).None?
  {
    forall q | lo <= q < hi ensures MatchAt(pat, s, q).None? {
      StartsWithChar(s, q, pat.name, t);
    }
  }

  lemma StartsWithChar(s: string, q: nat, name: string, t: nat)
    requires q <= |s| && t < |name|
    ensures StartsWith(s[q..], name) ==> q + t < |s| && s[q + t] == name[t]
  {
    if StartsWith(s[q..], name) {
      assert s[q..][..|name|][t] == s[q + t];
    }
  }

  // ------------------------------------------------------------------ re.findall

  /** What `findall` reports for `pat`, as a property of the reported string. */
  ghost predicate Captured(pat: Pattern, m: string) {
    match pat
    case Email => EmailShape(m)
    case Url => UrlShape(m)
    case KeyToken => |m| >= 20 && AllIn(m, KeyChar)
    case Labelled(_) => |m| >= 10 && AllIn(m, KeyChar)
    case Assign(_, value, min) => |m| >= min && AllIn(m, value)
  }

  /** The attempt of `pat` at position `p` (`pattern.match(s, p)`). */
  function MatchAt(pat: Pattern, s: string, p: nat): (r: Option<Match>)
    requires p <= |s|
    ensures r.Some? ==> p < r.value.end <= |s| && Within(s, p, r.value)
    ensures r.Some? && (pat.Email? || pat.Url? || pat.KeyToken?) ==> r.value.at == p && r.value.stop == r.value.end
  {
    match pat
    case Email => MatchEmailAt(s, p)
    case Url => MatchUrlScheme(s, p, 0)
    case KeyToken => MatchKeyTokenAt(s, p)
    case Labelled(tag) => MatchLabelledAt(s, p, tag)
    case Assign(name, value, min) => MatchAssignAt(s, p, name, value, min)
  }

  lemma MatchAtCaptured(pat: Pattern, s: string, p: nat)
    requires p <= |s| && MatchAt(pat, s, p).Some?
    ensures Captured(pat, Reported(s, MatchAt(pat, s, p).value))
  {
    var m := MatchAt(pat, s, p).value;
    match pat
    case Email =>
    case Url =>
    case KeyToken => RunAllIn(s, m.at, m.stop, KeyChar);
    case Labelled(_) => RunAllIn(s, m.at, m.stop, KeyChar);
    case Assign(_, value, _) => RunAllIn(s, m.at, m.stop, value);
  }

  /** The attempts of `pat` at every position of `s`, from 0 to `|s|`. */
  function Attempts(pat: Pattern, s: string): (t: seq<Option<Match>>)
    ensures Attempted(s, t)
    ensures forall q :: 0 <= q <= |s| ==> t[q] == MatchAt(pat, s, q)
  {
    seq(|s| + 1, q requires 0 <= q <= |s| => MatchAt(pat, s, q))
  }

  /** One attempt per position of `s`; each match lies in `s` and ends past the
      position it was tried at. */
  predicate Attempted(s: string, t: seq<Option<Match>>) {
    |t| == |s| + 1 &&
    forall q :: 0 <= q < |t| && t[q].Some? ==> q < t[q].value.end <= |s| && Within(s, q, t[q].value)
  }

  /** The scan of `re.findall` over the attempts `t`, from position `p`: a position
      where the attempt fails is passed over, and after a match the scan resumes where
      the match ended. */
  function ScanFrom(s: string, t: seq<Option<Match>>, p: nat): (r: seq<string>)
    requires Attempted(s, t) && p <= |s|
    decreases |s| - p
  {
    match t[p]
    case Some(m) => [Reported(s, m)] + ScanFrom(s, t, m.end)
    case None => if p == |s| then [] else ScanFrom(s, t, p + 1)
  }

  /** Positions whose attempt fails are passed over. */
  lemma {:induction false} ScanSkip(s: string, t: seq<Option<Match>>, p: nat, q: nat)
    requires Attempted(s, t) && p <= q <= |s| && forall q' :: p <= q' < q ==> t[q'].None?
    ensures ScanFrom(s, t, p) == ScanFrom(s, t, q)
    decreases q - p
  {
    if p < q {
      assert t[p].None?;
      ScanSkip(s, t, p + 1, q);
    }
  }

  /** The scan reports nothing exactly when every attempt from `p` on fails. */
  lemma {:induction false} ScanEmpty(s: string, t: seq<Option<Match>>, p: nat)
    requires Attempted(s, t) && p <= |s|
    ensures ScanFrom(s, t, p) == [] <==> forall q :: p <= q <= |s| ==> t[q].None?
    decreases |s| - p
  {
    if t[p].None? && p < |s| {
      ScanEmpty(s, t, p + 1);
    }
  }

  /** Every string the scan reports is the text of a match tried at `p` or later. */
  lemma {:induction false} ScanReported(s: string, t: seq<Option<Match>>, p: nat, m: string) returns (q: nat)
    requires Attempted(s, t) && p <= |s| && m in ScanFrom(s, t, p)
    ensures p <= q <= |s| && t[q].Some? && Reported(s, t[q].value) == m
    decreases |s| - p
  {
    match t[p]
    case Some(x) =>
      if m == Reported(s, x) {
        q := p;
      } else {
        q := ScanReported(s, t, x.end, m);
      }
    case None =>
      q := ScanReported(s, t, p + 1, m);
  }

  /** `re.findall(pat, s[p..])` with boundaries judged on the whole of `s`. */
  function FindAll(pat: Pattern, s: string, p: nat): (r: seq<string>)
    requires p <= |s|
  {
    ScanFrom(s, Attempts(pat, s), p)
  }

  /** The first position at or after `p` where `pat` matches gives the first string
      reported, and the scan resumes where that match ends. */
  lemma FindAllFirst(pat: Pattern, s: string, p: nat, q: nat)
    requires p <= q <= |s| && forall q' :: p <= q' < q ==> MatchAt(pat, s, q').None?
    requires MatchAt(pat, s, q).Some?
    ensures FindAll(pat, s, p) == [Reported(s, MatchAt(pat, s, q).value)] + FindAll(pat, s, MatchAt(pat, s, q).value.end)
  {
    var t := Attempts(pat, s);
    ScanSkip(s, t, p, q);
  }

  /** Nothing is reported exactly when `pat` matches at no position from `p` on. */
  lemma FindAllEmpty(pat: Pattern, s: string, p: nat)
    requires p <= |s|
    ensures FindAll(pat, s, p) == [] <==> forall q :: p <= q <= |s| ==> MatchAt(pat, s, q).None?
  {
    ScanEmpty(s, Attempts(pat, s), p);
  }

  /** Every string reported is the text of a match of `pat` at `p` or later. */
  lemma FindAllReported(pat: Pattern, s: string, p: nat, m: string) returns (q: nat)
    requires p <= |s| && m in FindAll(pat, s, p)
    ensures p <= q <= |s| && MatchAt(pat, s, q).Some? && Reported(s, MatchAt(pat, s, q).value) == m
  {
    q := ScanReported(s, Attempts(pat, s), p, m);
  }

  /** Every string `findall` reports has the shape of the pattern. */
  lemma FindAllInCaptured(pat: Pattern, s: string)
    ensures forall m :: m in FindAll(pat, s, 0) ==> Captured(pat, m)
  {
    forall m | m in FindAll(pat, s, 0) ensures Captured(pat, m) {
      var q := FindAllReported(pat, s, 0, m);
      MatchAtCaptured(pat, s, q);
    }
  }

  /** Every string `findall` reports is a substring of the text. */
  lemma FindAllInOccurs(pat: Pattern, s: string, m: string)
    requires m in FindAllIn(pat, s)
    ensures Contains(s, m)
  {
    var q := FindAllReported(pat, s, 0, m);
    var x := MatchAt(pat, s, q).value;
    assert OccursAt(s, m, x.at);
  }

  /** `re.findall(pat, s)`. */
  function FindAllIn(pat: Pattern, s: string): (r: seq<string>)
    ensures forall m :: m in r ==> Captured(pat, m)
  {
    FindAllInCaptured(pat, s);
    FindAll(pat, s, 0)
  }
}
