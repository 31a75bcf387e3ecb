/**
 * The text helpers of the monitor page that work on the sources list (`fuentes.csv`)
 * and on HTML: escaping, the duplicate-URL cleaner, the table of numbered sources the
 * preview builds, and the stored log-panel width.
 */
module Sources {
  import opened Wrappers
  import opened Text
  import opened Seqs
  import opened LogParser
  import opened UrlTracker
  import opened Presentation

  // ---------------------------------------------------------------------------
  // escapeHtml
  // ---------------------------------------------------------------------------

  /** `s.replace(/c/g, entity)`: every occurrence of `c` replaced by `entity`. */
  function ReplaceChar(s: string, c: char, entity: string): string
  {
    if s == [] then []
    else (if s[0] == c then entity else [s[0]]) + ReplaceChar(s[1..], c, entity)
  }

  /** `escapeHtml`: nothing for a missing value; otherwise the five replacements, ampersand first. */
  function EscapeHtml(value: Option<string>): string
  {
    match value
    case None => ""
    case Some(s) =>
      ReplaceChar(ReplaceChar(ReplaceChar(ReplaceChar(ReplaceChar(
        s, '&', "&amp;"), '<', "&lt;"), '>', "&gt;"), '"', "&quot;"), '\'', "&#39;")
  }

  /** The entity one character becomes. */
  function EscapeChar(c: char): string {
    if c == '&' then "&amp;"
    else if c == '<' then "&lt;"
    else if c == '>' then "&gt;"
    else if c == '"' then "&quot;"
    else if c == '\'' then "&#39;"
    else [c]
  }

  /** Character-by-character escaping: the reference the chain of replacements is compared with. */
  function Escaped(s: string): string {
    if s == [] then [] else EscapeChar(s[0]) + Escaped(s[1..])
  }

  function EscapeChain(s: string): string {
    EscapeHtml(Some(s))
  }

  lemma {:induction false} ReplaceCharAppend(a: string, b: string, c: char, entity: string)
    ensures ReplaceChar(a + b, c, entity) == ReplaceChar(a, c, entity) + ReplaceChar(b, c, entity)
    decreases |a|
  {
    if a != [] {
      assert (a + b)[1..] == a[1..] + b;
      ReplaceCharAppend(a[1..], b, c, entity);
    } else {
      assert a + b == b;
    }
  }

  lemma ChainAppend(a: string, b: string)
    ensures EscapeChain(a + b) == EscapeChain(a) + EscapeChain(b)
  {
    var a1, b1 := ReplaceChar(a, '&', "&amp;"), ReplaceChar(b, '&', "&amp;");
    ReplaceCharAppend(a, b, '&', "&amp;");
    var a2, b2 := ReplaceChar(a1, '<', "&lt;"), ReplaceChar(b1, '<', "&lt;");
    ReplaceCharAppend(a1, b1, '<', "&lt;");
    var a3, b3 := ReplaceChar(a2, '>', "&gt;"), ReplaceChar(b2, '>', "&gt;");
    ReplaceCharAppend(a2, b2, '>', "&gt;");
    var a4, b4 := ReplaceChar(a3, '"', "&quot;"), ReplaceChar(b3, '"', "&quot;");
    ReplaceCharAppend(a3, b3, '"', "&quot;");
    ReplaceCharAppend(a4, b4, '\'', "&#39;");
  }

  /** Replacing a character that does not occur changes nothing. */
  lemma {:induction false} ReplaceAbsent(s: string, c: char, entity: string)
    requires c !in s
    ensures ReplaceChar(s, c, entity) == s
    decreases |s|
  {
    if s != [] {
      ReplaceAbsent(s[1..], c, entity);
    }
  }

  lemma ReplaceSingle(c: char, entity: string)
    ensures ReplaceChar([c], c, entity) == entity
  {
    assert [c][1..] == [];
  }

  /** The chain turns a single character into its entity. */
  lemma ChainOfChar(c: char)
    ensures EscapeChain([c]) == EscapeChar(c)
  {
    if c == '&' {
      ChainAmp(c, [c], "&amp;");
    } else if c == '<' {
      ChainLt(c, [c], "&lt;");
    } else if c == '>' {
      ChainGt(c, [c], "&gt;");
    } else if c == '"' {
      ChainQuot(c, [c], "&quot;");
    } else if c == '\'' {
      ChainApos(c, [c], "&#39;");
    } else {
      ReplaceAbsent([c], '&', "&amp;");
      ReplaceAbsent([c], '<', "&lt;");
      ReplaceAbsent([c], '>', "&gt;");
      ReplaceAbsent([c], '"', "&quot;");
      ReplaceAbsent([c], '\'', "&#39;");
    }
  }

  lemma ChainAmp(c: char, s: string, e: string)
    requires c == '&' && s == [c] && e == "&amp;"
    ensures EscapeChain(s) == e
  {
    ReplaceSingle(c, e);
    ReplaceAbsent(e, '<', "&lt;");
    ReplaceAbsent(e, '>', "&gt;");
    ReplaceAbsent(e, '"', "&quot;");
    ReplaceAbsent(e, '\'', "&#39;");
  }

  lemma ChainLt(c: char, s: string, e: string)
    requires c == '<' && s == [c] && e == "&lt;"
    ensures EscapeChain(s) == e
  {
    ReplaceAbsent(s, '&', "&amp;");
    ReplaceSingle(c, e);
    ReplaceAbsent(e, '>', "&gt;");
    ReplaceAbsent(e, '"', "&quot;");
    ReplaceAbsent(e, '\'', "&#39;");
  }

  lemma ChainGt(c: char, s: string, e: string)
    requires c == '>' && s == [c] && e == "&gt;"
    ensures EscapeChain(s) == e
  {
    ReplaceAbsent(s, '&', "&amp;");
    ReplaceAbsent(s, '<', "&lt;");
    ReplaceSingle(c, e);
    ReplaceAbsent(e, '"', "&quot;");
    ReplaceAbsent(e, '\'', "&#39;");
  }

  lemma ChainQuot(c: char, s: string, e: string)
    requires c == '"' && s == [c] && e == "&quot;"
    ensures EscapeChain(s) == e
  {
    ReplaceAbsent(s, '&', "&amp;");
    ReplaceAbsent(s, '<', "&lt;");
    ReplaceAbsent(s, '>', "&gt;");
    ReplaceSingle(c, e);
    ReplaceAbsent(e, '\'', "&#39;");
  }

  lemma ChainApos(c: char, s: string, e: string)
    requires c == '\'' && s == [c] && e == "&#39;"
    ensures EscapeChain(s) == e
  {
    ReplaceAbsent(s, '&', "&amp;");
    ReplaceAbsent(s, '<', "&lt;");
    ReplaceAbsent(s, '>', "&gt;");
    ReplaceAbsent(s, '"', "&quot;");
    ReplaceSingle(c, e);
  }

  /** The chain of replacements escapes each character on its own: no entity is escaped twice. */
  lemma {:induction false} EscapeHtmlCharwise(s: string)
    ensures EscapeHtml(Some(s)) == Escaped(s)
    decreases |s|
  {
    if s != [] {
      assert s == [s[0]] + s[1..];
      ChainAppend([s[0]], s[1..]);
      ChainOfChar(s[0]);
      EscapeHtmlCharwise(s[1..]);
    }
  }

  /** Reading the five entities back; every other character stands for itself. */
  function Unescape(t: string): string
    decreases |t|
  {
    if t == [] then []
    else if StartsWith(t, "&amp;") then "&" + Unescape(t[5..])
    else if StartsWith(t, "&lt;") then "<" + Unescape(t[4..])
    else if StartsWith(t, "&gt;") then ">" + Unescape(t[4..])
    else if StartsWith(t, "&quot;") then "\"" + Unescape(t[6..])
    else if StartsWith(t, "&#39;") then "'" + Unescape(t[5..])
    else [t[0]] + Unescape(t[1..])
  }

  /** Reading back the entity of one character, whatever follows it. */
  lemma UnescapeChar(c: char, rest: string)
    ensures Unescape(EscapeChar(c) + rest) == [c] + Unescape(rest)
  {
    if c == '&' {
      UnescapeAmp(rest);
    } else if c == '<' {
      UnescapeLt(rest);
    } else if c == '>' {
      UnescapeGt(rest);
    } else if c == '"' {
      UnescapeQuot(rest);
    } else if c == '\'' {
      UnescapeApos(rest);
    } else {
      UnescapePlain(c, rest);
    }
  }

  /** A character other than '&' opens no entity and stands for itself. */
  lemma UnescapePlain(c: char, rest: string)
    requires c != '&'
    ensures Unescape([c] + rest) == [c] + Unescape(rest)
  {
    var t := [c] + rest;
    assert t[0] == c && t[1..] == rest;
    NoEntityAt(t, "&amp;");
    NoEntityAt(t, "&lt;");
    NoEntityAt(t, "&gt;");
    NoEntityAt(t, "&quot;");
    NoEntityAt(t, "&#39;");
  }

  lemma NoEntityAt(t: string, entity: string)
    requires t != [] && entity != [] && t[0] != entity[0]
    ensures !StartsWith(t, entity)
  {
    assert |entity| <= |t| ==> t[..|entity|][0] == t[0];
  }

  lemma UnescapeAmp(rest: string)
    ensures Unescape("&amp;" + rest) == "&" + Unescape(rest)
  {
    var t := "&amp;" + rest;
    assert t[..5] == "&amp;" && t[5..] == rest;
  }

  lemma UnescapeLt(rest: string)
    ensures Unescape("&lt;" + rest) == "<" + Unescape(rest)
  {
    var t := "&lt;" + rest;
    assert t[1] == 'l';
    assert t[..4] == "&lt;" && t[4..] == rest;
  }

  lemma UnescapeGt(rest: string)
    ensures Unescape("&gt;" + rest) == ">" + Unescape(rest)
  {
    var t := "&gt;" + rest;
    assert t[1] == 'g';
    assert t[..4] == "&gt;" && t[4..] == rest;
  }

  lemma UnescapeQuot(rest: string)
    ensures Unescape("&quot;" + rest) == "\"" + Unescape(rest)
  {
    var t := "&quot;" + rest;
    assert t[1] == 'q';
    assert t[..6] == "&quot;" && t[6..] == rest;
  }

  lemma UnescapeApos(rest: string)
    ensures Unescape("&#39;" + rest) == "'" + Unescape(rest)
  {
    var t := "&#39;" + rest;
    assert t[1] == '#';
    assert t[..5] == "&#39;" && t[5..] == rest;
  }

  /** Markup characters other than the ampersand never appear in escaped text. */
  predicate IsMarkup(c: char) {
    c == '<' || c == '>' || c == '"' || c == '\''
  }

  lemma {:induction false} EscapedHasNoMarkup(s: string)
    ensures forall k :: 0 <= k < |Escaped(s)| ==> !IsMarkup(Escaped(s)[k])
    decreases |s|
  {
    if s != [] {
      EscapedHasNoMarkup(s[1..]);
      var head, tail := EscapeChar(s[0]), Escaped(s[1..]);
      assert forall k :: 0 <= k < |head| ==> !IsMarkup(head[k]);
      assert forall k :: |head| <= k < |head + tail| ==> (head + tail)[k] == tail[k - |head|];
    }
  }

  /** `escapeHtml` leaves no character that could open a tag or close an attribute. */
  lemma EscapeHtmlHasNoMarkup(value: Option<string>)
    ensures forall k :: 0 <= k < |EscapeHtml(value)| ==> !IsMarkup(EscapeHtml(value)[k])
  {
    if value.Some? {
      EscapeHtmlCharwise(value.value);
      EscapedHasNoMarkup(value.value);
    }
  }

  /** Escaping loses nothing: unescaping gives the original text back. */
  lemma {:induction false} EscapeHtmlRoundTrip(s: string)
    ensures Unescape(EscapeHtml(Some(s))) == s
  {
    EscapeHtmlCharwise(s);
    UnescapeEscaped(s);
  }

  lemma {:induction false} UnescapeEscaped(s: string)
    ensures Unescape(Escaped(s)) == s
    decreases |s|
  {
    if s != [] {
      UnescapeChar(s[0], Escaped(s[1..]));
      UnescapeEscaped(s[1..]);
      assert s == [s[0]] + s[1..];
    }
  }

  // ---------------------------------------------------------------------------
  // dedupeFuentes
  // ---------------------------------------------------------------------------

  /** `text.split(/\r?\n/)`: the pieces between newlines, without a '\r' right before a newline; the last piece keeps a final '\r'. */
  function RawLines(text: string): (lines: seq<string>)
    ensures |lines| >= 1
  {
    DropCarriageReturns(Split(text, "\n"))
  }

  /** A text with no newline is one line, kept whole: a final '\r' is not followed by a newline, so it stays. */
  lemma UnterminatedLineKept(text: string)
    requires '\n' !in text
    ensures RawLines(text) == [text]
  {
    CharAbsent(text, '\n');
  }

  /**
   * The URL a line of the sources list is compared by: the trimmed second `;` cell of
   * the trimmed line. Blank lines, lines with one cell and lines whose URL cell is empty
   * have none and are always kept.
   */
  function DedupeKey(line: string): Option<string> {
    var trimmed := TrimJs(line);
    if trimmed == "" then None
    else
      var cells := Split(trimmed, ";");
      if |cells| < 2 then None
      else
        var url := TrimJs(cells[1]);
        if url == "" then None else Some(url)
  }

  /** The lines `dedupeFuentes` keeps: the first line of each URL and every line without one, in order. */
  function Deduped(lines: seq<string>): (kept: seq<string>)
    ensures |kept| <= |lines|
  {
    FirstOfEachKey(lines, DedupeKey)
  }

  /** The `forEach` with the `seen` set and the `duplicates` counter. */
  method DedupeLines(lines: seq<string>) returns (cleaned: seq<string>, duplicates: nat)
    ensures cleaned == Deduped(lines)
    ensures duplicates == |lines| - |cleaned|
  {
    cleaned, duplicates := KeepFirstOfEachKey(lines, DedupeKey);
  }

  /** After cleaning, no two lines share a URL, and every URL of the list is still on some line. */
  lemma DedupedDistinct(lines: seq<string>)
    ensures DistinctKeys(Deduped(lines), DedupeKey)
    ensures KeysOf(Deduped(lines), DedupeKey) == KeysOf(lines, DedupeKey)
  {
    FirstOfEachKeyDistinct(lines, DedupeKey);
  }

  /** Cleaning twice is cleaning once. */
  lemma DedupedIdempotent(lines: seq<string>)
    ensures Deduped(Deduped(lines)) == Deduped(lines)
  {
    FirstOfEachKeyIdempotent(lines, DedupeKey);
  }

  /** Blank lines, one-cell lines and lines with an empty URL all survive, in their order. */
  lemma UnkeyedLinesSurvive(lines: seq<string>)
    ensures Filter(Deduped(lines), Keyless(DedupeKey)) == Filter(lines, Keyless(DedupeKey))
  {
    KeylessSurvive(lines, DedupeKey);
  }

  /** What the cleaner reports. */
  datatype DedupeOutcome =
    | ArchivedRun                               // refused while an archived run is shown
    | NothingToClean                            // the list is blank
    | Cleaned(content: string, duplicates: nat) // the new list and how many lines were removed

  /** The outcome `dedupeFuentes` produces for the editor's text. */
  function DedupeResult(historical: bool, content: string): DedupeOutcome {
    if historical then ArchivedRun
    else if TrimJs(content) == "" then NothingToClean
    else
      var lines := RawLines(content);
      Cleaned(Join(Deduped(lines), "\n"), |lines| - |Deduped(lines)|)
  }

  /** `dedupeFuentes`. */
  method DedupeFuentes(historical: bool, content: string) returns (outcome: DedupeOutcome)
    ensures outcome == DedupeResult(historical, content)
  {
    if historical {
      return ArchivedRun;
    }
    if TrimJs(content) == "" {
      return NothingToClean;
    }
    var cleaned, duplicates := DedupeLines(RawLines(content));
    outcome := Cleaned(Join(cleaned, "\n"), duplicates);
  }

  /** A '\r' that `split(/\r?\n/)` leaves at the end of a line does not change its URL. */
  lemma KeyWithoutCarriageReturn(line: string)
    ensures DedupeKey(DropCarriageReturn(line)) == DedupeKey(line)
  {
    if |line| > 0 && line[|line| - 1] == '\r' {
      StripWithoutLast(line, IsJsSpace);
    }
  }

  /** Running the cleaner on its own output removes nothing. */
  lemma DedupeTwice(content: string)
    requires DedupeResult(false, content).Cleaned?
    ensures var again := DedupeResult(false, DedupeResult(false, content).content);
      again == NothingToClean || (again.Cleaned? && again.duplicates == 0)
  {
    var lines := RawLines(content);
    var kept := Deduped(lines);
    var text := Join(kept, "\n");
    if kept == [] {
      assert text == "";
    } else {
      var again := RawLines(text);
      DedupedDistinct(lines);
      LinesHaveNoNewline(content);
      FirstOfEachKeyKeeps(lines, DedupeKey, (l: string) => '\n' !in l);
      SplitJoinChar(kept, '\n');
      assert Split(text, "\n") == kept;
      forall k | 0 <= k < |again|
        ensures DedupeKey(again[k]) == DedupeKey(kept[k])
      {
        if k < |again| - 1 {
          KeyWithoutCarriageReturn(kept[k]);
        }
      }
      assert DistinctKeys(again, DedupeKey) by {
        forall i, j | 0 <= i < j < |again| && DedupeKey(again[i]).Some?
          ensures DedupeKey(again[i]) != DedupeKey(again[j])
        {
          assert DedupeKey(kept[i]).Some?;
        }
      }
      DistinctKeptWhole(again, DedupeKey);
    }
  }

  lemma LinesHaveNoNewline(content: string)
    ensures forall k :: 0 <= k < |RawLines(content)| ==> '\n' !in RawLines(content)[k]
  {
    var pieces := Split(content, "\n");
    SplitPiecesAvoidSeparator(content, "\n");
    forall k | 0 <= k < |pieces|
      ensures '\n' !in pieces[k] && '\n' !in DropCarriageReturn(pieces[k])
    {
      var piece := pieces[k];
      if '\n' in piece {
        var j :| 0 <= j < |piece| && piece[j] == '\n';
        assert OccursAt(piece, "\n", j);
        ContainsIff(piece, "\n");
      }
    }
  }

  // ---------------------------------------------------------------------------
  // The numbered sources of the preview (`renderSourcesPreview`)
  // ---------------------------------------------------------------------------

  /** One card of the preview: the trimmed description and URL and the non-empty extra cells. */
  datatype SourceCard = SourceCard(description: string, url: string, extra: seq<string>)

  /** The card a line yields: at least two `;` cells and a URL cell starting with http:// or https://. */
  function CardOf(line: string): (card: Option<SourceCard>)
    ensures card.Some? ==> SchemeAt(card.value.url, 0) > 0
    ensures card.Some? ==> forall k :: 0 <= k < |card.value.extra| ==> card.value.extra[k] != ""
  {
    var cells := Split(line, ";");
    if |cells| < 2 then None
    else
      var url := TrimJs(cells[1]);
      if SchemeAt(url, 0) == 0 then None
      else
        Some(SourceCard(TrimJs(cells[0]), url, Filter(TrimEach(cells[2..]), NonEmpty)))
  }

  /** The cards of the lines, in order. */
  function CardsOf(lines: seq<string>): (cards: seq<SourceCard>)
    ensures |cards| <= |lines|
  {
    FilterMap(lines, CardOf)
  }

  /** The lines of the preview: those of the trimmed text that are not blank. */
  function PreviewLines(csv: string): seq<string> {
    var trimmed := TrimJs(csv);
    if trimmed == "" then [] else Lines(trimmed)
  }

  /** The `lines.forEach` that collects the cards. */
  method BuildSourceCards(csv: string) returns (cards: seq<SourceCard>)
    ensures cards == CardsOf(PreviewLines(csv))
  {
    cards := CollectDefined(PreviewLines(csv), CardOf);
  }

  /** `sourceMetaByIndex`: card `n` (counting from 1) under key `n`. */
  function SourceIndex(cards: seq<SourceCard>): map<nat, SourceMeta> {
    if cards == [] then map[]
    else
      var last := cards[|cards| - 1];
      SourceIndex(cards[..|cards| - 1])[|cards| := SourceMeta(last.description, last.url)]
  }

  /** The `entries.forEach((entry, idx) => sourceMetaByIndex.set(idx + 1, ...))` loop on a cleared map. */
  method IndexSources(cards: seq<SourceCard>) returns (index: map<nat, SourceMeta>)
    ensures index == SourceIndex(cards)
  {
    index := map[];
    for i := 0 to |cards|
      invariant index == SourceIndex(cards[..i])
    {
      assert cards[..i + 1][..i] == cards[..i];
      index := index[i + 1 := SourceMeta(cards[i].description, cards[i].url)];
    }
    assert cards[..|cards|] == cards;
  }

  /** The keys are exactly 1..|cards| and key `n` holds the description and URL of card `n`. */
  lemma {:induction false} SourceIndexExactly(cards: seq<SourceCard>)
    ensures forall n :: n in SourceIndex(cards) <==> 1 <= n <= |cards|
    ensures forall n :: n in SourceIndex(cards) ==>
      SourceIndex(cards)[n] == SourceMeta(cards[n - 1].description, cards[n - 1].url)
  {
    if cards != [] {
      var init := cards[..|cards| - 1];
      SourceIndexExactly(init);
      forall n | 1 <= n < |cards| && n in SourceIndex(cards)
        ensures SourceIndex(cards)[n] == SourceMeta(cards[n - 1].description, cards[n - 1].url)
      {
        assert n in SourceIndex(init);
        assert init[n - 1] == cards[n - 1];
      }
    }
  }

  /** Every numbered source has a URL starting with http:// or https://. */
  lemma CardsHaveUrls(lines: seq<string>)
    ensures forall k :: 0 <= k < |CardsOf(lines)| ==> SchemeAt(CardsOf(lines)[k].url, 0) > 0
  {
    FilterMapAll(lines, CardOf, (card: SourceCard) => SchemeAt(card.url, 0) > 0);
  }

  // ---------------------------------------------------------------------------
  // Log panel width
  // ---------------------------------------------------------------------------

  const MinLogPanelWidth: int := 320
  const MaxLogPanelWidth: int := 900

  /** `Math.max(MIN, Math.min(MAX, w))`. */
  function ClampWidth(w: int): (r: int)
    ensures MinLogPanelWidth <= r <= MaxLogPanelWidth
    ensures MinLogPanelWidth <= w <= MaxLogPanelWidth ==> r == w
    ensures w < MinLogPanelWidth ==> r == MinLogPanelWidth
    ensures w > MaxLogPanelWidth ==> r == MaxLogPanelWidth
  {
    if w > MaxLogPanelWidth then MaxLogPanelWidth
    else if w < MinLogPanelWidth then MinLogPanelWidth
    else w
  }

  /**
   * `parseInt(text, 10)`: leading white space, an optional sign and the longest run of
   * digits; nothing (NaN) when there are no digits.
   */
  function ParseInt(text: string): (r: Option<int>)
    ensures r.Some? ==> exists k :: 0 <= k < |text| && IsDigit(text[k])
  {
    var s := DropLeading(text, IsJsSpace);
    var negative := s != [] && s[0] == '-';
    var start := if s != [] && (s[0] == '-' || s[0] == '+') then 1 else 0;
    var n := Run(s, start, IsDigit);
    if n == 0 then None
    else
      assert IsDigit(text[|text| - |s| + start]);
      var value: int := DigitsValue(s[start..start + n]);
      Some(if negative then -value else value)
  }

  /** Reading a number written in decimal gives it back. */
  lemma ParseIntOfNat(n: nat)
    ensures ParseInt(NatToString(n)) == Some(n)
  {
    var s := NatToString(n);
    assert !IsJsSpace(s[0]);
    assert DropLeading(s, IsJsSpace) == s;
    assert Run(s, 0, IsDigit) == |s| by {
      RunAll(s, 0);
    }
    assert s[0..|s|] == s;
    DigitsValueOfNatToString(n);
  }

  lemma {:induction false} RunAll(s: string, i: nat)
    requires i <= |s| && forall k :: 0 <= k < |s| ==> IsDigit(s[k])
    ensures Run(s, i, IsDigit) == |s| - i
    decreases |s| - i
  {
    if i < |s| {
      RunAll(s, i + 1);
    }
  }

  /** `applyStoredLogWidth`: the stored width, when there is one and it reads as a number, clamped. */
  function StoredLogWidth(stored: Option<string>): (width: Option<int>)
    ensures width.Some? ==> MinLogPanelWidth <= width.value <= MaxLogPanelWidth
  {
    if stored.None? || stored.value == "" then None
    else match ParseInt(stored.value)
      case Some(w) => Some(ClampWidth(w))
      case None => None
  }

  /** A width that was saved after clamping is restored as it was. */
  lemma StoredWidthRoundTrip(w: int)
    requires MinLogPanelWidth <= w <= MaxLogPanelWidth
    ensures StoredLogWidth(Some(NatToString(w))) == Some(w)
  {
    ParseIntOfNat(w);
  }
}
