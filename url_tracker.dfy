/**
 * Which source URLs the log monitor marks as processed: URLs are normalised, found in
 * text by the pattern /https?:\/\/[^\s<>"'`]+/gi, and collected from the processed
 * list (Markdown) and from the parsed log entries.
 *
 * The browser's URL parser is a parameter: given trimmed text it either fails or
 * returns the serialised URL with its fragment removed.
 */
module UrlTracker {
  import opened Wrappers
  import opened Text
  import opened LogParser
  import opened Seqs

  /** `new URL(text)` followed by clearing the hash and reading `href`; None when it throws. */
  type UrlParser = string -> Option<string>

  predicate IsSlash(c: char) {
    c == '/'
  }

  /**
   * `normalizeUrl`: nothing for a missing or blank value; otherwise the parsed URL, or
   * the trimmed text when parsing fails, without trailing slashes.
   */
  function NormalizeUrl(value: Option<string>, parse: UrlParser): (r: Option<string>)
    ensures r.None? <==> value.None? || TrimJs(value.value) == ""
    ensures r.Some? ==> r.value == [] || !IsSlash(r.value[|r.value| - 1])
  {
    if value.None? then None
    else
      var trimmed := TrimJs(value.value);
      if trimmed == "" then None
      else match parse(trimmed)
        case Some(href) => Some(DropTrailing(href, IsSlash))
        case None => Some(DropTrailing(trimmed, IsSlash))
  }

  /** When the parser rejects the text, the result is the trimmed text without trailing slashes. */
  lemma NormalizeUnparsable(value: string, parse: UrlParser)
    requires TrimJs(value) != "" && parse(TrimJs(value)).None?
    ensures NormalizeUrl(Some(value), parse) == Some(DropTrailing(TrimJs(value), IsSlash))
    ensures StartsWith(TrimJs(value), NormalizeUrl(Some(value), parse).value)
  {
  }

  // ---------------------------------------------------------------------------
  // The URL pattern
  // ---------------------------------------------------------------------------

  /** Characters the pattern's `[^\s<>"'`]` accepts. */
  predicate IsUrlChar(c: char) {
    !IsJsSpace(c) && c != '<' && c != '>' && c != '"' && c != '\'' && c != '`'
  }

  /**
   * The length of "https://" or "http://" at `i` (letters compared ignoring case), or 0.
   * `https?` tries the longer form first and falls back to the shorter one.
   */
  function SchemeAt(s: string, i: nat): (n: nat)
    ensures n == 0 || n == 7 || n == 8
    ensures n > 0 ==> i + n <= |s|
  {
    if OccursIgnoringCase(s, "HTTPS", i) && OccursAt(s, "://", i + 5) then 8
    else if OccursIgnoringCase(s, "HTTP", i) && OccursAt(s, "://", i + 4) then 7
    else 0
  }

  /** Where a match starting at `i` ends: the scheme followed by the longest non-empty run of URL characters. */
  function MatchEnd(s: string, i: nat): (r: Option<nat>)
    requires i <= |s|
    ensures r.Some? ==> i + SchemeAt(s, i) < r.value <= |s| && SchemeAt(s, i) > 0
    ensures r.Some? ==> forall k :: i + SchemeAt(s, i) <= k < r.value ==> IsUrlChar(s[k])
    ensures r.Some? ==> r.value == |s| || !IsUrlChar(s[r.value])
  {
    var n := SchemeAt(s, i);
    if n == 0 then None
    else
      var run := Run(s, i + n, IsUrlChar);
      if run == 0 then None else Some(i + n + run)
  }

  /** What the pattern accepts as a whole: a scheme followed by at least one URL character, and nothing else. */
  predicate IsUrlMatch(m: string) {
    var n := SchemeAt(m, 0);
    0 < n < |m| && forall k :: n <= k < |m| ==> IsUrlChar(m[k])
  }

  lemma SchemeOfSlice(s: string, i: nat, j: nat)
    requires i <= j <= |s| && i + SchemeAt(s, i) <= j
    ensures SchemeAt(s[i..j], 0) == SchemeAt(s, i)
  {
    var t := s[i..j];
    assert forall k :: 0 <= k < j - i ==> t[k] == s[i + k];
    if i + 5 <= j {
      assert OccursIgnoringCase(t, "HTTPS", 0) == OccursIgnoringCase(s, "HTTPS", i);
    }
    if i + 8 <= j {
      assert OccursAt(t, "://", 5) == OccursAt(s, "://", i + 5) by {
        assert t[5..8] == s[i + 5..i + 8];
      }
    }
    if i + 4 <= j {
      assert OccursIgnoringCase(t, "HTTP", 0) == OccursIgnoringCase(s, "HTTP", i);
    }
    if i + 7 <= j {
      assert OccursAt(t, "://", 4) == OccursAt(s, "://", i + 4) by {
        assert t[4..7] == s[i + 4..i + 7];
      }
    }
  }

  /** The successive matches of the global pattern from `from` on, each search resuming where the last match ended. */
  function UrlMatches(s: string, from: nat): (ms: seq<string>)
    requires from <= |s|
    ensures forall k :: 0 <= k < |ms| ==> IsUrlMatch(ms[k])
    decreases |s| - from
  {
    if from == |s| then []
    else match MatchEnd(s, from)
      case Some(end) =>
        SchemeOfSlice(s, from, end);
        [s[from..end]] + UrlMatches(s, end)
      case None => UrlMatches(s, from + 1)
  }

  /** A match has no white space at either end, so it always normalises to something. */
  lemma MatchNormalises(m: string, parse: UrlParser)
    requires IsUrlMatch(m)
    ensures NormalizeUrl(Some(m), parse).Some?
  {
    var n := SchemeAt(m, 0);
    assert IsUrlChar(m[|m| - 1]);
    if OccursIgnoringCase(m, "HTTPS", 0) && OccursAt(m, "://", 5) {
      assert AsciiUpperChar(m[0]) == "HTTPS"[0];
    } else {
      assert AsciiUpperChar(m[0]) == "HTTP"[0];
    }
    assert m[0] == 'h' || m[0] == 'H';
    StripUnchanged(m, IsJsSpace);
  }

  /** The non-empty normalised forms of the matches (`if (normalized)` skips the empty string). */
  function Harvest(ms: seq<string>, parse: UrlParser): (urls: set<string>)
    ensures forall u :: u in urls ==> u != [] && !IsSlash(u[|u| - 1])
  {
    if ms == [] then {}
    else
      var rest := Harvest(ms[1..], parse);
      match NormalizeUrl(Some(ms[0]), parse)
      case Some(u) => if u != "" then {u} + rest else rest
      case None => rest
  }

  /** The normalised URLs the pattern finds in `text`. */
  function UrlsIn(text: string, parse: UrlParser): set<string> {
    Harvest(UrlMatches(text, 0), parse)
  }

  /**
   * The `while (urlRegex.exec(text))` loop: each call of `exec` yields the next match,
   * which is normalised and, when not empty, collected.
   */
  method ScanUrls(text: string, parse: UrlParser) returns (found: set<string>)
    ensures found == UrlsIn(text, parse)
  {
    var matches := UrlMatches(text, 0);
    found := {};
    for k := 0 to |matches|
      invariant found + Harvest(matches[k..], parse) == UrlsIn(text, parse)
    {
      assert matches[k..][1..] == matches[k + 1..];
      var normalized := NormalizeUrl(Some(matches[k]), parse);
      if normalized.Some? && normalized.value != "" {
        found := found + {normalized.value};
      }
    }
  }

  // ---------------------------------------------------------------------------
  // URLs from the log entries
  // ---------------------------------------------------------------------------

  /** Entries that can mark URLs as processed: from an indexed source and not errors. */
  predicate Contributes(e: LogEntry) {
    e.source in IndexedSources && e.severity != Error
  }

  /** The URLs found in an entry's raw line and, when it differs, in its display message. */
  function EntryUrls(e: LogEntry, parse: UrlParser): set<string> {
    UrlsIn(e.line, parse) + (if e.message != e.line then UrlsIn(e.message, parse) else {})
  }

  /** What one entry adds to the logs bucket. */
  function EntryContribution(e: LogEntry, parse: UrlParser): set<string> {
    if Contributes(e) then EntryUrls(e, parse) else {}
  }

  /** The logs bucket after the first `n` entries have been visited. */
  function LogUrls(entries: seq<LogEntry>, n: nat, parse: UrlParser): set<string>
    requires n <= |entries|
  {
    UnionOf(entries, n, ContributionOf(parse))
  }

  function ContributionOf(parse: UrlParser): LogEntry -> set<string> {
    e => EntryContribution(e, parse)
  }

  /**
   * The `parsedLogEntries.forEach` of `refreshProcessedUrlsFromLogs`: for each
   * contributing entry, the matches in its line and, when it differs, in its message.
   */
  method CollectLogUrls(entries: seq<LogEntry>, parse: UrlParser) returns (urls: set<string>)
    ensures urls == LogUrls(entries, |entries|, parse)
  {
    urls := {};
    for i := 0 to |entries|
      invariant urls == LogUrls(entries, i, parse)
    {
      var e := entries[i];
      if Contributes(e) {
        var found := ScanUrls(e.line, parse);
        urls := urls + found;
        if e.message != e.line {
          found := ScanUrls(e.message, parse);
          urls := urls + found;
        }
      }
    }
  }

  /** A URL is in the logs bucket exactly when some contributing entry mentions it. */
  lemma LogUrlsExactly(entries: seq<LogEntry>, n: nat, parse: UrlParser, u: string)
    requires n <= |entries|
    ensures u in LogUrls(entries, n, parse) <==>
      exists k :: 0 <= k < n && Contributes(entries[k]) && u in EntryUrls(entries[k], parse)
  {
    UnionOfExactly(entries, n, ContributionOf(parse), u);
  }

  /** Entries that do not contribute can be added or removed without changing the logs bucket. */
  lemma {:induction false} NonContributingIgnored(entries: seq<LogEntry>, e: LogEntry, parse: UrlParser)
    requires !Contributes(e)
    ensures LogUrls(entries + [e], |entries| + 1, parse) == LogUrls(entries, |entries|, parse)
  {
    SamePrefixSameUrls(entries + [e], entries, |entries|, parse);
  }

  lemma {:induction false} SamePrefixSameUrls(a: seq<LogEntry>, b: seq<LogEntry>, n: nat, parse: UrlParser)
    requires n <= |a| && n <= |b| && a[..n] == b[..n]
    ensures LogUrls(a, n, parse) == LogUrls(b, n, parse)
  {
    if n > 0 {
      assert a[n - 1] == a[..n][n - 1] == b[..n][n - 1] == b[n - 1];
      assert a[..n - 1] == a[..n][..n - 1];
      assert b[..n - 1] == b[..n][..n - 1];
      SamePrefixSameUrls(a, b, n - 1, parse);
    }
  }
}
