/**
 * The in-memory rules of the crawl runner: which rows of the sources file become start
 * URLs, the URL-to-source lookup, the term and exclusion maps read from the two text
 * files, and the progress status written while the crawl runs.
 *
 * Reading the files is left out: rows arrive as the CSV reader splits them on ';', and
 * term files as their lines. `normalize_text` is a parameter.
 */
module RunScraper {
  import opened Wrappers
  import opened Text
  import opened Seqs
  import ActivityLog

  // ---------------------------------------------------------------------------
  // load_sources / load_start_urls
  // ---------------------------------------------------------------------------

  /** One row of `fuentes.csv`: its cells. */
  type Row = seq<string>

  datatype Source = Source(description: string, url: string, extra: seq<string>)

  /** An extra cell is kept as its stripped text when that is not empty. */
  function ExtraCell(col: string): Option<string> {
    var s := StripPy(col);
    if s != "" then Some(s) else None
  }

  /** What `load_sources` makes of one row: None for a row with fewer than two cells or without an http URL. */
  function SourceOfRow(row: Row): (r: Option<Source>)
    ensures r.Some? <==> |row| >= 2 && StripPy(row[1]) != "" && StartsWith(StripPy(row[1]), "http")
    ensures r.Some? ==> r.value.description == StripPy(row[0]) && r.value.url == StripPy(row[1])
  {
    if |row| < 2 then None
    else
      var url := StripPy(row[1]);
      if url == "" || !StartsWith(url, "http") then None
      else Some(Source(StripPy(row[0]), url, FilterMap(row[2..], ExtraCell)))
  }

  /** The `for row in reader` loop of `load_sources`. */
  method LoadSources(rows: seq<Row>) returns (sources: seq<Source>)
    ensures sources == FilterMap(rows, SourceOfRow)
  {
    sources := [];
    for i := 0 to |rows|
      invariant sources == FilterMap(rows[..i], SourceOfRow)
    {
      assert rows[..i + 1][..i] == rows[..i];
      var row := rows[i];
      if |row| < 2 {
        continue;
      }
      var url := StripPy(row[1]);
      if url == "" || !StartsWith(url, "http") {
        continue;
      }
      var extra := CollectDefined(row[2..], ExtraCell);
      sources := sources + [Source(StripPy(row[0]), url, extra)];
    }
    assert rows[..|rows|] == rows;
  }

  /** A loaded source: a stripped http URL, a stripped description, and stripped non-empty extras. */
  predicate WellFormedSource(s: Source) {
    && s.url != "" && StartsWith(s.url, "http") && StripPy(s.url) == s.url
    && StripPy(s.description) == s.description
    && forall k :: 0 <= k < |s.extra| ==> s.extra[k] != "" && StripPy(s.extra[k]) == s.extra[k]
  }

  /** Every loaded source is well formed. */
  lemma LoadedSourcesWellFormed(rows: seq<Row>)
    ensures forall k :: 0 <= k < |FilterMap(rows, SourceOfRow)| ==> WellFormedSource(FilterMap(rows, SourceOfRow)[k])
  {
    forall i | 0 <= i < |rows| && SourceOfRow(rows[i]).Some?
      ensures WellFormedSource(SourceOfRow(rows[i]).value)
    {
      var row := rows[i];
      StripIdempotent(row[0], IsPySpace);
      StripIdempotent(row[1], IsPySpace);
      var cells := row[2..];
      forall j | 0 <= j < |cells| && ExtraCell(cells[j]).Some?
        ensures ExtraCell(cells[j]).value != "" && StripPy(ExtraCell(cells[j]).value) == ExtraCell(cells[j]).value
      {
        StripIdempotent(cells[j], IsPySpace);
      }
      FilterMapAll(cells, ExtraCell, NonEmptyStripped);
    }
    FilterMapAll(rows, SourceOfRow, WellFormedSource);
  }

  predicate NonEmptyStripped(s: string) {
    s != "" && StripPy(s) == s
  }

  /** A source is loaded exactly when some row yields it. */
  lemma LoadSourcesExactly(rows: seq<Row>, s: Source)
    ensures s in FilterMap(rows, SourceOfRow) <==> exists i :: 0 <= i < |rows| && SourceOfRow(rows[i]) == Some(s)
  {
    FilterMapMembers(rows, SourceOfRow, s);
  }

  /** Rows are read in order: the sources of two blocks of rows follow each other. */
  lemma LoadSourcesInOrder(a: seq<Row>, b: seq<Row>)
    ensures FilterMap(a + b, SourceOfRow) == FilterMap(a, SourceOfRow) + FilterMap(b, SourceOfRow)
  {
    FilterMapAppend(a, b, SourceOfRow);
  }

  /** `load_start_urls`: the URLs of the loaded sources, in order. */
  function StartUrls(sources: seq<Source>): (urls: seq<string>)
    ensures |urls| == |sources|
    ensures forall k :: 0 <= k < |urls| ==> urls[k] == sources[k].url
  {
    seq(|sources|, k requires 0 <= k < |sources| => sources[k].url)
  }

  /** Every start URL is a stripped string starting with "http". */
  lemma StartUrlsAreHttp(rows: seq<Row>)
    ensures forall k :: 0 <= k < |StartUrls(FilterMap(rows, SourceOfRow))| ==>
      var u := StartUrls(FilterMap(rows, SourceOfRow))[k];
      StartsWith(u, "http") && StripPy(u) == u
  {
    LoadedSourcesWellFormed(rows);
  }

  // ---------------------------------------------------------------------------
  // source_lookup
  // ---------------------------------------------------------------------------

  datatype LookupEntry = LookupEntry(description: string, extra: seq<string>, index: nat)

  /** The `source_lookup` comprehension: each URL to its source's position; a later duplicate overwrites. */
  function SourceLookup(sources: seq<Source>): map<string, LookupEntry> {
    if sources == [] then map[]
    else
      var n := |sources| - 1;
      SourceLookup(sources[..n])[sources[n].url := LookupEntry(sources[n].description, sources[n].extra, n)]
  }

  /**
   * A URL is in the lookup exactly when some source has it, and its entry describes the
   * last source with that URL.
   */
  lemma {:induction false} SourceLookupExactly(sources: seq<Source>, u: string)
    ensures u in SourceLookup(sources) <==> exists i :: 0 <= i < |sources| && sources[i].url == u
    ensures u in SourceLookup(sources) ==>
      var e := SourceLookup(sources)[u];
      && e.index < |sources| && sources[e.index].url == u
      && e.description == sources[e.index].description && e.extra == sources[e.index].extra
      && forall j :: e.index < j < |sources| ==> sources[j].url != u
  {
    if sources != [] {
      var n := |sources| - 1;
      var init := sources[..n];
      SourceLookupExactly(init, u);
      if exists i :: 0 <= i < |init| && init[i].url == u {
        var i :| 0 <= i < |init| && init[i].url == u;
        assert sources[i].url == u;
      }
      if u != sources[n].url && exists i :: 0 <= i < |sources| && sources[i].url == u {
        var i :| 0 <= i < |sources| && sources[i].url == u;
        assert init[i].url == u;
      }
    }
  }

  // ---------------------------------------------------------------------------
  // Term and exclusion maps
  // ---------------------------------------------------------------------------

  /** A line of a terms file that counts: stripped, not empty, not a '#' comment. */
  function TermOf(line: string): (r: Option<string>)
    ensures r.Some? ==> r.value != "" && !StartsWith(r.value, "#") && r.value == StripPy(line)
  {
    var stripped := StripPy(line);
    if stripped != "" && !StartsWith(stripped, "#") then Some(stripped) else None
  }

  /** The counted lines, stripped, in file order. */
  function Terms(lines: seq<string>): seq<string> {
    FilterMap(lines, TermOf)
  }

  /** The map the line loop builds: normalised term to the stripped line; a later duplicate overwrites. */
  function TermMap(lines: seq<string>, normalize: string -> string): map<string, string> {
    KeyedBy(Terms(lines), normalize)
  }

  /** The `for line in f` loop that fills `keywords_map` (and, the same way, `exclusions_map`). */
  method LoadTermMap(lines: seq<string>, normalize: string -> string) returns (terms: map<string, string>)
    ensures terms == TermMap(lines, normalize)
  {
    terms := map[];
    for i := 0 to |lines|
      invariant terms == TermMap(lines[..i], normalize)
    {
      assert lines[..i + 1][..i] == lines[..i];
      var stripped := StripPy(lines[i]);
      if stripped != "" && !StartsWith(stripped, "#") {
        terms := terms[normalize(stripped) := stripped];
      }
    }
    assert lines[..|lines|] == lines;
  }

  /** A term is counted exactly when some line yields it. */
  lemma TermsExactly(lines: seq<string>, t: string)
    ensures t in Terms(lines) <==> exists i :: 0 <= i < |lines| && TermOf(lines[i]) == Some(t)
  {
    FilterMapMembers(lines, TermOf, t);
  }

  /** A key is in the map exactly when some counted line normalises to it. */
  lemma TermMapKeys(lines: seq<string>, normalize: string -> string, k: string)
    ensures k in TermMap(lines, normalize) <==>
      exists i :: 0 <= i < |lines| && TermOf(lines[i]).Some? && normalize(TermOf(lines[i]).value) == k
  {
    var terms := Terms(lines);
    KeyedByKeys(terms, normalize, k);
    if k in TermMap(lines, normalize) {
      var j :| 0 <= j < |terms| && normalize(terms[j]) == k;
      TermsExactly(lines, terms[j]);
    }
    if exists i :: 0 <= i < |lines| && TermOf(lines[i]).Some? && normalize(TermOf(lines[i]).value) == k {
      var i :| 0 <= i < |lines| && TermOf(lines[i]).Some? && normalize(TermOf(lines[i]).value) == k;
      var t := TermOf(lines[i]).value;
      TermsExactly(lines, t);
      var j :| 0 <= j < |terms| && terms[j] == t;
    }
  }

  /** A key maps to the last counted line that normalises to it. */
  lemma TermMapLast(lines: seq<string>, normalize: string -> string, k: string) returns (i: nat)
    requires k in TermMap(lines, normalize)
    ensures i < |Terms(lines)| && Terms(lines)[i] == TermMap(lines, normalize)[k]
    ensures normalize(TermMap(lines, normalize)[k]) == k
    ensures forall j :: i < j < |Terms(lines)| ==> normalize(Terms(lines)[j]) != k
  {
    i := KeyedByLast(Terms(lines), normalize, k);
  }

  /** Every value of the map is a counted line: stripped, not empty, not a comment. */
  lemma TermMapValues(lines: seq<string>, normalize: string -> string, k: string)
    requires k in TermMap(lines, normalize)
    ensures var v := TermMap(lines, normalize)[k];
      v != "" && !StartsWith(v, "#") && normalize(v) == k
      && exists i :: 0 <= i < |lines| && StripPy(lines[i]) == v
  {
    var j := KeyedByLast(Terms(lines), normalize, k);
    var v := TermMap(lines, normalize)[k];
    TermsExactly(lines, v);
  }

  // ---------------------------------------------------------------------------
  // update_progress
  // ---------------------------------------------------------------------------

  /** What `update_progress` writes into the status file. */
  datatype ProgressStatus = ProgressStatus(
    current: nat, total: nat, url: string, description: Option<string>, index: nat, message: string)

  /** `max(0, min(processed, total))`. */
  function Capped(processed: int, total: nat): (c: nat)
    ensures c <= total
    ensures 0 <= processed <= total ==> c == processed
    ensures processed <= 0 ==> c == 0
    ensures processed >= total ==> c == total
  {
    var m := if processed < total then processed else total;
    if m > 0 then m else 0
  }

  /** The status message when nothing else can be said. */
  const DefaultProgressMessage: string := "Scraping en progreso..."

  /** "Procesando c/t" when there are sources, then the description or else the URL. */
  function ProgressParts(current: nat, total: nat, url: string, description: Option<string>): seq<string> {
    (if total > 0 then ["Procesando " + NatToString(current) + "/" + NatToString(total)] else [])
    + (if description.Some? then [description.value] else if url != "" then [url] else [])
  }

  /** `current_index`: the 1-based position of the URL's source, or the capped count for an unknown URL. */
  function CurrentIndex(current: nat, url: string, lookup: map<string, LookupEntry>): (i: nat)
    ensures url in lookup ==> i == lookup[url].index + 1
    ensures url !in lookup ==> i == current
  {
    if url in lookup then lookup[url].index + 1 else if current > 0 then current else 0
  }

  /** `source_info.get('description') or None`. */
  function DescriptionOf(url: string, lookup: map<string, LookupEntry>): (d: Option<string>)
    ensures d.Some? <==> url in lookup && lookup[url].description != ""
    ensures d.Some? ==> d.value == lookup[url].description
  {
    if url in lookup && lookup[url].description != "" then Some(lookup[url].description) else None
  }

  /** `progress_message`: the parts joined by the activity separator, or the default when there are none. */
  function ProgressMessageOf(current: nat, total: nat, url: string, description: Option<string>): string {
    var parts := ProgressParts(current, total, url, description);
    if parts != [] then Join(parts, ActivityLog.Separator) else DefaultProgressMessage
  }

  /**
   * `update_progress(processed, url, depth)` over `len(start_urls)` sources and the
   * lookup: the capped count, the source's 1-based position (or the capped count for an
   * unknown URL), its description unless empty, and the message.
   */
  function UpdateProgress(processed: int, url: string, total: nat, lookup: map<string, LookupEntry>): (s: ProgressStatus)
    ensures s.current == Capped(processed, total) && s.total == total && s.url == url
    ensures url in lookup ==> s.index == lookup[url].index + 1
    ensures url !in lookup ==> s.index == s.current
    ensures s.description.Some? <==> url in lookup && lookup[url].description != ""
    ensures s.description.Some? ==> s.description.value == lookup[url].description
    ensures s.message == ProgressMessageOf(s.current, total, url, s.description)
  {
    var current := Capped(processed, total);
    var description := DescriptionOf(url, lookup);
    ProgressStatus(current, total, url, description, CurrentIndex(current, url, lookup),
      ProgressMessageOf(current, total, url, description))
  }

  /**
   * The message: the default only when there is nothing to say; without sources, the
   * description or else the URL alone; with sources, the count comes first.
   */
  lemma ProgressMessage(current: nat, total: nat, url: string, description: Option<string>)
    ensures total == 0 && description.None? && url == "" ==>
      ProgressMessageOf(current, total, url, description) == DefaultProgressMessage
    ensures total == 0 && description.Some? ==> ProgressMessageOf(current, total, url, description) == description.value
    ensures total == 0 && description.None? && url != "" ==> ProgressMessageOf(current, total, url, description) == url
    ensures total > 0 ==> StartsWith(ProgressMessageOf(current, total, url, description),
      "Procesando " + NatToString(current) + "/" + NatToString(total))
  {
    if total > 0 {
      JoinStartsWithFirst(ProgressParts(current, total, url, description), ActivityLog.Separator);
    }
  }

  /** The positional parameters `update_progress` takes: `processed`, `url` and `depth`. */
  const UpdateProgressArity: nat := 3

  /** The arguments the spider passes to its status updater: the root count and the URL. */
  const SpiderUpdaterArity: nat := 2

  /**
   * The status file after the spider calls the updater with `argc` positional arguments,
   * as written. A call whose count differs from the three parameters raises `TypeError`
   * before the body runs, and the spider swallows the error, so the status stays as it was.
   */
  function StatusAfterCallAsWritten(argc: nat, processed: int, url: string, total: nat,
                                    lookup: map<string, LookupEntry>, previous: Option<ProgressStatus>): (r: Option<ProgressStatus>)
    ensures argc != UpdateProgressArity ==> r == previous
    ensures argc == UpdateProgressArity ==> r.Some? && r.value.current == Capped(processed, total) && r.value.url == url
  {
    if argc == UpdateProgressArity then Some(UpdateProgress(processed, url, total, lookup)) else previous
  }

  /**
   * As written, no call from the spider ever writes a progress status, although the
   * intended status names the root being parsed.
   */
  lemma ProgressNeverWritten(processed: int, url: string, total: nat, lookup: map<string, LookupEntry>,
                             previous: Option<ProgressStatus>)
    ensures StatusAfterCallAsWritten(SpiderUpdaterArity, processed, url, total, lookup, previous) == previous
    ensures UpdateProgress(processed, url, total, lookup).url == url
  {
  }

  /** With the lookup built from the sources, a known URL's index points back at its last source. */
  lemma ProgressIndexNamesSource(current: nat, url: string, sources: seq<Source>)
    requires url in SourceLookup(sources)
    ensures var i := CurrentIndex(current, url, SourceLookup(sources));
      1 <= i <= |sources| && sources[i - 1].url == url
  {
    SourceLookupExactly(sources, url);
  }
}
