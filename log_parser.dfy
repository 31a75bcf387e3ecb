/**
 * The log monitor's parser: the raw text of the activity log becomes a sequence of
 * entries, each with a time, a source, an optional level, an optional source index
 * ("#N"), a severity, a display message and a CSS class for its source. A "last seen
 * index" is carried from line to line.
 */
module LogParser {
  import opened Wrappers
  import opened Text
  import opened Seqs

  /** The field separator of a log line: space, U+00B7, space. */
  const LogSeparator: string := " \U{B7} "
  /** How the remaining message parts are joined for display: space, U+2013, space. */
  const MessageJoiner: string := " \U{2013} "

  // ---------------------------------------------------------------------------
  // Severity
  // ---------------------------------------------------------------------------

  datatype Severity = Error | Warning | Debug | Info

  /** The severity's name as the filter buttons and CSS classes spell it. */
  function SeverityName(s: Severity): string {
    match s
    case Error => "error"
    case Warning => "warning"
    case Debug => "debug"
    case Info => "info"
  }

  lemma SeverityNameInjective(a: Severity, b: Severity)
    ensures SeverityName(a) == SeverityName(b) <==> a == b
  {
  }

  /**
   * `detectLogSeverity`: the upper-cased line is searched for ERROR, then for WARNING
   * or WARN, then for DEBUG; a line with none of them is info.
   */
  function DetectLogSeverity(line: string): (s: Severity)
    ensures s == Error <==> Contains(ToUpper(line), "ERROR")
    ensures s == Warning <==> !Contains(ToUpper(line), "ERROR") && Contains(ToUpper(line), "WARN")
    ensures s == Debug <==> !Contains(ToUpper(line), "ERROR") && !Contains(ToUpper(line), "WARN")
                            && Contains(ToUpper(line), "DEBUG")
  {
    var upper := ToUpper(line);
    WarningContainsWarn(upper);
    if Contains(upper, "ERROR") then Error
    else if Contains(upper, "WARNING") || Contains(upper, "WARN") then Warning
    else if Contains(upper, "DEBUG") then Debug
    else Info
  }

  /** Any text containing WARNING contains WARN, so the WARNING test never decides anything on its own. */
  lemma WarningContainsWarn(s: string)
    ensures Contains(s, "WARNING") ==> Contains(s, "WARN")
  {
    if Contains(s, "WARNING") {
      var i := IndexOf(s, "WARNING", 0).value;
      assert s[i..i + 4] == s[i..i + 7][..4];
      assert OccursAt(s, "WARN", i);
      ContainsIff(s, "WARN");
    }
  }

  /** The upper-case level words that `severityFromLevel` recognises, with their severities. */
  const LevelSeverities: map<string, Severity> :=
    map["ERROR" := Error, "WARNING" := Warning, "WARN" := Warning, "DEBUG" := Debug, "INFO" := Info]

  /** `severityFromLevel`: a recognised level decides; anything else falls back to scanning the line. */
  function SeverityFromLevel(level: string, fallbackLine: string): (s: Severity)
    ensures level in LevelSeverities ==> s == LevelSeverities[level]
    ensures level !in LevelSeverities ==> s == DetectLogSeverity(fallbackLine)
  {
    if level == "ERROR" then Error
    else if level == "WARNING" || level == "WARN" then Warning
    else if level == "DEBUG" then Debug
    else if level == "INFO" then Info
    else DetectLogSeverity(fallbackLine)
  }

  // ---------------------------------------------------------------------------
  // Sources
  // ---------------------------------------------------------------------------

  /** Level tokens that the parser consumes from the third field (INFO is not among them). */
  const LevelTokens: set<string> := {"ERROR", "WARNING", "WARN", "DEBUG"}

  /** Sources whose entries inherit the last seen source index. */
  const IndexedSources: set<string> := {"Scrapy", "Spider", "Download", "Downloader", "Pipeline", "Engine"}

  const SourceClasses: map<string, string> := map[
    "Scrapy" := "log-source--scrapy",
    "Spider" := "log-source--spider",
    "Pipeline" := "log-source--pipeline",
    "Sistema" := "log-source--sistema",
    "Download" := "log-source--downloader",
    "Downloader" := "log-source--downloader",
    "Engine" := "log-source--engine",
    "Extensions" := "log-source--engine"
  ]

  const DefaultSourceClass: string := "log-source--default"

  /** `getSourceClass`: the class of a known source, the default class for any other. */
  function SourceClass(source: string): string {
    if source in SourceClasses then SourceClasses[source] else DefaultSourceClass
  }

  // ---------------------------------------------------------------------------
  // Message formatting
  // ---------------------------------------------------------------------------

  /** The lower-cased prefixes the formatter recognises, and the label it strips from an exclusion detail. */
  const TermsPrefix: string := "t\U{E9}rminos encontrados en "
  const ExclusionPrefix: string := "exclusi\U{F3}n en "
  const TermLabel: string := "t\U{E9}rmino:"
  const DetailJoiner: string := " | "

  /** The sentences the formatter writes: a label before a detail, or a heading without one, then the URL. */
  const TermsLabel: string := "T\U{E9}rminos encontrados: "
  const TermsHeading: string := "T\U{E9}rminos encontrados en "
  const ExclusionLabel: string := "Exclusi\U{F3}n: "
  const ExclusionHeading: string := "Exclusi\U{F3}n en "
  const UrlJoiner: string := " en "

  predicate IsTemplated(parts: seq<string>) {
    parts != [] && (StartsWith(ToLower(parts[0]), TermsPrefix) || StartsWith(ToLower(parts[0]), ExclusionPrefix))
  }

  /**
   * `formatLogMessage`: a first part starting (case-insensitively) with "términos
   * encontrados en " or "exclusión en " is rewritten into a sentence about the URL
   * that follows it and the remaining parts; anything else is the parts joined with
   * an en dash and trimmed.
   */
  function FormatLogMessage(parts: seq<string>): (r: string)
    ensures parts == [] ==> r == ""
    ensures !IsTemplated(parts) ==> r == TrimJs(Join(parts, MessageJoiner))
    ensures IsTemplated(parts) ==> r != ""
  {
    if parts == [] then ""
    else
      var first, rest := parts[0], parts[1..];
      var firstLower := ToLower(first);
      if StartsWith(firstLower, TermsPrefix) then
        var url := TrimJs(first[|TermsPrefix|..]);
        var terms := TrimJs(Join(rest, DetailJoiner));
        Sentence(TermsLabel, TermsHeading, terms, url)
      else if StartsWith(firstLower, ExclusionPrefix) then
        var url := TrimJs(first[|ExclusionPrefix|..]);
        var detail := StripTermLabel(TrimJs(Join(rest, DetailJoiner)));
        Sentence(ExclusionLabel, ExclusionHeading, detail, url)
      else TrimJs(Join(parts, MessageJoiner))
  }

  /** One leading "término:" label, in any case, removed and the rest trimmed. */
  function StripTermLabel(detail: string): string {
    if StartsWith(ToLower(detail), TermLabel) then TrimJs(detail[|TermLabel|..]) else detail
  }

  /** The label is removed once: a detail that repeats it still opens with it afterwards. */
  lemma TermLabelStrippedOnce()
    ensures var d := StripTermLabel(TermLabel + " " + (TermLabel + "x"));
      d == TermLabel + "x" && StartsWith(ToLower(d), TermLabel)
  {
    var rest := TermLabel + "x";
    var detail := TermLabel + " " + rest;
    LowerLabelPrefix(detail);
    LowerLabelPrefix(rest);
    assert detail[|TermLabel|..] == " " + rest;
    TrimOneSpace(rest);
  }

  /** One leading space before a text with no white space at either end is trimmed away. */
  lemma TrimOneSpace(rest: string)
    requires rest != [] && !IsJsSpace(rest[0]) && !IsJsSpace(rest[|rest| - 1])
    ensures TrimJs(" " + rest) == rest
  {
    var t := " " + rest;
    assert t[1..] == rest;
    assert DropLeading(t, IsJsSpace) == rest;
  }

  /** A text opening with the label still opens with it once lower-cased. */
  lemma LowerLabelPrefix(s: string)
    requires StartsWith(s, TermLabel)
    ensures StartsWith(ToLower(s), TermLabel)
  {
    ToLowerPrefix(s, |TermLabel|);
    assert forall i :: 0 <= i < |TermLabel| ==> LowerChar(TermLabel[i]) == TermLabel[i];
    assert ToLower(TermLabel) == TermLabel;
  }

  /** A label, the detail and the URL when there is a detail; the heading and the URL otherwise. */
  function Sentence(lead: string, heading: string, detail: string, url: string): string {
    if detail != "" then lead + detail + UrlJoiner + url else heading + url
  }

  /**
   * When the heading ends with " en " and differs from the label at some position, a
   * sentence ends with " en " and the URL, opens with the label exactly when there is a
   * detail, and then holds the detail between the two.
   */
  lemma SentenceShape(lead: string, heading: string, detail: string, url: string, i: nat)
    requires EndsWith(heading, UrlJoiner) && i < |lead| && i < |heading| && lead[i] != heading[i]
    ensures var r := Sentence(lead, heading, detail, url);
      && EndsWith(r, UrlJoiner + url)
      && (StartsWith(r, lead) <==> detail != "")
      && (detail != "" ==> |lead| + |UrlJoiner + url| <= |r| && r[|lead|..|r| - |UrlJoiner + url|] == detail)
      && (detail == "" ==> r == heading + url)
  {
    var r := Sentence(lead, heading, detail, url);
    var tail := UrlJoiner + url;
    if detail != "" {
      assert r == lead + detail + tail;
      assert r[|r| - |tail|..] == tail;
      assert r[..|lead|] == lead;
      assert r[|lead|..|r| - |tail|] == detail;
    } else {
      var stem := heading[..|heading| - |UrlJoiner|];
      assert heading == stem + UrlJoiner;
      assert r == stem + tail;
      assert r[|r| - |tail|..] == tail;
      assert r[i] == heading[i];
    }
  }

  /**
   * A keyword line becomes one sentence ending with the URL that follows the prefix: it
   * opens with the "Términos encontrados: " label exactly when the remaining parts, joined
   * with " | " and trimmed, are not blank, and those terms then stand between the label
   * and the URL; otherwise it is the heading followed by the URL.
   */
  lemma TermsSentence(parts: seq<string>)
    requires parts != [] && StartsWith(ToLower(parts[0]), TermsPrefix)
    ensures var r := FormatLogMessage(parts);
      var url := TrimJs(parts[0][|TermsPrefix|..]);
      var terms := TrimJs(Join(parts[1..], DetailJoiner));
      && EndsWith(r, UrlJoiner + url)
      && (StartsWith(r, TermsLabel) <==> terms != "")
      && (terms != "" ==> |TermsLabel| + |UrlJoiner + url| <= |r| && r[|TermsLabel|..|r| - |UrlJoiner + url|] == terms)
      && (terms == "" ==> r == TermsHeading + url)
  {
    var url := TrimJs(parts[0][|TermsPrefix|..]);
    var terms := TrimJs(Join(parts[1..], DetailJoiner));
    assert FormatLogMessage(parts) == Sentence(TermsLabel, TermsHeading, terms, url);
    SentenceShape(TermsLabel, TermsHeading, terms, url, 20);
  }

  /**
   * An exclusion line becomes one sentence ending with the URL that follows the prefix.
   * The detail is the remaining parts joined with " | " and trimmed, with one leading
   * "término:" label (in any case) removed and the rest trimmed again; the sentence opens
   * with the "Exclusión: " label exactly when that detail is not blank, and the detail
   * then stands between the label and the URL; otherwise it is the heading followed by the URL.
   */
  lemma ExclusionSentence(parts: seq<string>)
    requires parts != [] && StartsWith(ToLower(parts[0]), ExclusionPrefix)
    ensures var r := FormatLogMessage(parts);
      var url := TrimJs(parts[0][|ExclusionPrefix|..]);
      var joined := TrimJs(Join(parts[1..], DetailJoiner));
      var detail := if StartsWith(ToLower(joined), TermLabel) then TrimJs(joined[|TermLabel|..]) else joined;
      && EndsWith(r, UrlJoiner + url)
      && (StartsWith(r, ExclusionLabel) <==> detail != "")
      && (detail != "" ==> |ExclusionLabel| + |UrlJoiner + url| <= |r| && r[|ExclusionLabel|..|r| - |UrlJoiner + url|] == detail)
      && (detail == "" ==> r == ExclusionHeading + url)
  {
    var lower := ToLower(parts[0]);
    assert !StartsWith(lower, TermsPrefix) by {
      assert lower[0] == ExclusionPrefix[0] != TermsPrefix[0];
    }
    var url := TrimJs(parts[0][|ExclusionPrefix|..]);
    var joined := TrimJs(Join(parts[1..], DetailJoiner));
    var detail := StripTermLabel(joined);
    assert FormatLogMessage(parts) == Sentence(ExclusionLabel, ExclusionHeading, detail, url);
    SentenceShape(ExclusionLabel, ExclusionHeading, detail, url, 9);
  }

  // ---------------------------------------------------------------------------
  // Tokens of one line
  // ---------------------------------------------------------------------------

  /** The trimmed, non-empty pieces of a line split on the separator. */
  function Tokens(line: string): (parts: seq<string>)
    ensures forall k :: 0 <= k < |parts| ==> parts[k] != ""
  {
    var pieces := Split(line, LogSeparator);
    Filter(TrimEach(pieces), NonEmpty)
  }

  predicate NonEmpty(t: string) {
    t != ""
  }

  /** Every piece trimmed, in order. */
  function TrimEach(pieces: seq<string>): (r: seq<string>)
    ensures |r| == |pieces| && forall k :: 0 <= k < |r| ==> r[k] == TrimJs(pieces[k])
  {
    seq(|pieces|, k requires 0 <= k < |pieces| => TrimJs(pieces[k]))
  }

  /** A token matching `^#\d+$`. */
  predicate IsIndexToken(t: string) {
    |t| >= 2 && t[0] == '#' && IsDigits(t[1..])
  }

  function IndexValue(t: string): nat
    requires IsIndexToken(t)
  {
    DigitsValue(t[1..])
  }

  /** What the parser takes from the front of a line's tokens. */
  datatype Header = Header(time: string, source: string, level: string, index: Option<nat>, messageParts: seq<string>)

  /**
   * The tokens are consumed in order: the time, the source, a level when the next
   * token upper-cases to a level word, then an index when the next token is "#N".
   * What remains is the message; when nothing remains the whole line is.
   */
  function ReadHeader(line: string, parts: seq<string>): (h: Header)
    requires parts != []
    ensures h.time == parts[0]
    ensures h.source == (if |parts| >= 2 then parts[1] else "")
    ensures h.level != "" <==> |parts| >= 3 && ToUpper(parts[2]) in LevelTokens
    ensures h.level != "" ==> h.level == ToUpper(parts[2])
    ensures var k := if h.level != "" then 3 else 2;
      (h.index.Some? <==> |parts| > k && IsIndexToken(parts[k]))
      && (h.index.Some? ==> h.index.value == IndexValue(parts[k]))
      && (var m := if h.index.Some? then k + 1 else k;
          h.messageParts == if |parts| > m then parts[m..] else [line])
  {
    var time := parts[0];
    var source := if |parts| >= 2 then parts[1] else "";
    var rest := if |parts| >= 2 then parts[2..] else [];
    var level := if rest != [] && ToUpper(rest[0]) in LevelTokens then ToUpper(rest[0]) else "";
    var rest := if level != "" then rest[1..] else rest;
    var index := if rest != [] && IsIndexToken(rest[0]) then Some(IndexValue(rest[0])) else None;
    var rest := if index.Some? then rest[1..] else rest;
    Header(time, source, level, index, if rest != [] then rest else [line])
  }

  // ---------------------------------------------------------------------------
  // The progress pattern /Progreso\s+(\d+)\s*\/\s*(\d+)/i
  // ---------------------------------------------------------------------------

  const ProgressWord: string := "PROGRESO"

  /**
   * The rest of the pattern, `\s+(\d+)\s*\/\s*(\d+)`, matched at position `a`, giving the
   * first number. White space and digits are disjoint, so each repetition takes its
   * whole run and the match, when there is one, is unique.
   */
  function NumbersAt(s: string, a: nat): Option<nat>
    requires a <= |s|
  {
    var spaces := Run(s, a, IsJsSpace);
    var b := a + spaces;
    var digits := Run(s, b, IsDigit);
    var c := b + digits + Run(s, b + digits, IsJsSpace);
    if spaces == 0 || digits == 0 || c == |s| || s[c] != '/' then None
    else
      var e := c + 1 + Run(s, c + 1, IsJsSpace);
      if Run(s, e, IsDigit) == 0 then None
      else Some(DigitsValue(s[b..b + digits]))
  }

  /** The progress pattern matched at position `i`. */
  function ProgressAt(s: string, i: nat): Option<nat>
    requires i <= |s|
  {
    if OccursIgnoringCase(s, ProgressWord, i) then NumbersAt(s, i + |ProgressWord|) else None
  }

  /** The leftmost match of the progress pattern at or after `i`. */
  function ProgressFrom(s: string, i: nat): (r: Option<nat>)
    requires i <= |s|
    decreases |s| - i
  {
    match ProgressAt(s, i)
    case Some(n) => Some(n)
    case None => if i == |s| then None else ProgressFrom(s, i + 1)
  }

  /** The first number of the leftmost progress match in the line, if any. */
  function ProgressIndex(line: string): Option<nat> {
    ProgressFrom(line, 0)
  }

  // ---------------------------------------------------------------------------
  // One line
  // ---------------------------------------------------------------------------

  datatype LogEntry = LogEntry(
    id: nat, line: string, severity: Severity, time: string, source: string,
    level: string, message: string, sourceClass: string, urlIndex: Option<nat>)

  /** A parsed entry and the last seen index to hand to the next line. */
  datatype Step = Step(entry: LogEntry, lastSeen: Option<nat>)

  /** The entry of a line that is nothing but separators. */
  function DegradedEntry(line: string, id: nat): LogEntry {
    LogEntry(id, line, Info, "", "", "", line, DefaultSourceClass, None)
  }

  /**
   * One step of `parseLogContent`'s map callback. The index rules apply in order: an
   * explicit "#N" sets the entry's index and the last seen index; a progress match
   * sets the last seen index and fills the entry's index only if it is still empty;
   * otherwise an entry from an indexed source inherits the last seen index.
   */
  function ParseLine(line: string, id: nat, last: Option<nat>): (step: Step)
    ensures step.entry.id == id && step.entry.line == line
    ensures Tokens(line) == [] ==> step == Step(DegradedEntry(line, id), last)
    ensures Tokens(line) != [] ==>
      var h := ReadHeader(line, Tokens(line));
      var progress := ProgressIndex(line);
      && step.entry.time == h.time && step.entry.source == h.source && step.entry.level == h.level
      && step.entry.sourceClass == SourceClass(h.source)
      && step.entry.severity == SeverityFromLevel(h.level, line)
      && step.lastSeen == (if progress.Some? then progress else if h.index.Some? then h.index else last)
      && step.entry.urlIndex == (if h.index.Some? then h.index
                                 else if progress.Some? then progress
                                 else if h.source in IndexedSources then last
                                 else None)
  {
    var parts := Tokens(line);
    if parts == [] then Step(DegradedEntry(line, id), last)
    else
      var h := ReadHeader(line, parts);
      var lastUrlIndex := if h.index.Some? then h.index else last;
      var progress := ProgressIndex(line);
      var lastUrlIndex := if progress.Some? then progress else lastUrlIndex;
      var urlIndex := if h.index.None? && progress.Some? then progress else h.index;
      var urlIndex := if urlIndex.None? && h.source in IndexedSources && lastUrlIndex.Some? then lastUrlIndex else urlIndex;
      var level := ToUpper(h.level);
      var formatted := FormatLogMessage(h.messageParts);
      var joined := TrimJs(Join(h.messageParts, MessageJoiner));
      var message := if formatted != "" then formatted else if joined != "" then joined else line;
      ToUpperIdempotent(if |parts| >= 3 then parts[2] else "");
      Step(LogEntry(id, line, SeverityFromLevel(level, line), h.time, h.source, level, message, SourceClass(h.source), urlIndex),
           lastUrlIndex)
  }

  /** An entry's level is empty or a consumed level token, and a consumed level decides the severity. */
  lemma ParseLineLevel(line: string, id: nat, last: Option<nat>)
    ensures var e := ParseLine(line, id, last).entry;
      (e.level == "" || e.level in LevelTokens)
      && (e.level != "" ==> e.severity == LevelSeverities[e.level])
  {
  }

  /** Without a consumed level the severity comes from scanning the line; a degraded entry is info. */
  lemma ParseLineScannedSeverity(line: string, id: nat, last: Option<nat>)
    ensures var e := ParseLine(line, id, last).entry;
      e.level == "" ==> e.severity == if Tokens(line) == [] then Info else DetectLogSeverity(line)
  {
  }

  /** A line whose message is the raw line or the rewritten parts is never shown with an empty message. */
  lemma ParseLineMessage(line: string, id: nat, last: Option<nat>)
    requires TrimJs(line) != ""
    ensures var e := ParseLine(line, id, last).entry;
      e.message != ""
      && (Tokens(line) != [] && !IsTemplated(ReadHeader(line, Tokens(line)).messageParts) ==>
          e.message == (if TrimJs(Join(ReadHeader(line, Tokens(line)).messageParts, MessageJoiner)) != ""
                        then TrimJs(Join(ReadHeader(line, Tokens(line)).messageParts, MessageJoiner)) else line))
  {
  }

  // ---------------------------------------------------------------------------
  // The whole content
  // ---------------------------------------------------------------------------

  /** One trailing carriage return removed. */
  function DropCarriageReturn(l: string): string {
    if |l| > 0 && l[|l| - 1] == '\r' then l[..|l| - 1] else l
  }

  /** The lines that `parseLogContent` keeps: those with something other than white space. */
  function Lines(content: string): (lines: seq<string>)
    ensures forall k :: 0 <= k < |lines| ==> TrimJs(lines[k]) != ""
  {
    var pieces := Split(content, "\n");
    Filter(DropCarriageReturns(pieces), NonBlank)
  }

  /** A non-blank text with no newline is the only line, kept whole, a final '\r' included. */
  lemma UnterminatedLineKept(content: string)
    requires '\n' !in content && TrimJs(content) != ""
    ensures Lines(content) == [content]
  {
    CharAbsent(content, '\n');
    assert DropCarriageReturns([content]) == [content];
    assert Filter([content], NonBlank) == Filter([], NonBlank) + [content];
  }

  /** JavaScript's `line.trim().length > 0`. */
  predicate NonBlank(l: string) {
    TrimJs(l) != ""
  }

  /**
   * Splitting on `\r?\n` is splitting on `\n` and then this: every piece but the last was
   * followed by a newline, so it loses one '\r' before it; the last piece keeps its '\r'.
   */
  function DropCarriageReturns(pieces: seq<string>): (r: seq<string>)
    ensures |r| == |pieces|
    ensures forall k :: 0 <= k < |r| - 1 ==> r[k] == DropCarriageReturn(pieces[k])
    ensures |r| > 0 ==> r[|r| - 1] == pieces[|pieces| - 1]
  {
    seq(|pieces|, k requires 0 <= k < |pieces| => if k < |pieces| - 1 then DropCarriageReturn(pieces[k]) else pieces[k])
  }

  /** The entries of the first `n` lines and the last seen index after them. */
  datatype Progress = Progress(entries: seq<LogEntry>, lastSeen: Option<nat>)

  /**
   * The first `n` lines mapped left to right by `parse`, each call receiving the line,
   * its position and the last seen index left by the previous call; the index starts
   * empty on every call.
   */
  function Scan(lines: seq<string>, n: nat, parse: (string, nat, Option<nat>) -> Step): (p: Progress)
    requires n <= |lines|
    ensures |p.entries| == n
  {
    if n == 0 then Progress([], None)
    else
      var before := Scan(lines, n - 1, parse);
      var step := parse(lines[n - 1], n - 1, before.lastSeen);
      Progress(before.entries + [step.entry], step.lastSeen)
  }

  /** Entry `k` of the scan is line `k` parsed with the last seen index left by the lines before it. */
  lemma {:induction false} ScanEntry(lines: seq<string>, n: nat, k: nat, parse: (string, nat, Option<nat>) -> Step)
    requires k < n <= |lines|
    ensures Scan(lines, n, parse).entries[k] == parse(lines[k], k, Scan(lines, k, parse).lastSeen).entry
  {
    var before := Scan(lines, n - 1, parse);
    var step := parse(lines[n - 1], n - 1, before.lastSeen);
    assert Scan(lines, n, parse).entries == before.entries + [step.entry];
    if k < n - 1 {
      ScanEntry(lines, n - 1, k, parse);
      assert Scan(lines, n, parse).entries[k] == before.entries[k];
    }
  }

  /** Each entry of the parsed content keeps its line and its position. */
  lemma ParsedEntryIdentity(lines: seq<string>, k: nat)
    requires k < |lines|
    ensures Scan(lines, |lines|, ParseLine).entries[k].id == k
    ensures Scan(lines, |lines|, ParseLine).entries[k].line == lines[k]
  {
    ScanEntry(lines, |lines|, k, ParseLine);
    var _ := ParseLine(lines[k], k, Scan(lines, k, ParseLine).lastSeen);
  }

  /**
   * The map step of `parseLogContent`: the kept lines handed left to right to the line
   * parser (`parseLine` in the program) while threading the last seen index.
   */
  method ParseLines(lines: seq<string>, parse: (string, nat, Option<nat>) -> Step) returns (entries: seq<LogEntry>)
    ensures entries == Scan(lines, |lines|, parse).entries
  {
    var lastUrlIndex: Option<nat> := None;
    entries := [];
    var i := 0;
    while i < |lines|
      invariant 0 <= i <= |lines|
      invariant Progress(entries, lastUrlIndex) == Scan(lines, i, parse)
    {
      var step := parse(lines[i], i, lastUrlIndex);
      entries := entries + [step.entry];
      lastUrlIndex := step.lastSeen;
      i := i + 1;
    }
  }

  /** The entries of a whole log text: its non-blank lines parsed left to right. */
  function ParsedLog(content: string): seq<LogEntry> {
    Scan(Lines(content), |Lines(content)|, ParseLine).entries
  }

  /** `parseLogContent`: split into lines, drop the blank ones, parse the rest. */
  method ParseLogContent(content: string) returns (entries: seq<LogEntry>)
    ensures entries == ParsedLog(content)
  {
    entries := ParseLines(Lines(content), ParseLine);
  }
}
