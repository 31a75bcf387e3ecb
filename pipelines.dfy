/**
 * The item pipelines of the crawler: how a saved page is named and what is written for
 * it, the Last-Modified window that can skip a download, and how skipped downloads are
 * dropped from an item's results.
 *
 * The MD5 hex digest of the URL and the URL's path (`urlparse(url).path`) are
 * parameters. Dates arrive already parsed and are compared as integers on one time line.
 */
module Pipelines {
  import opened Wrappers
  import opened Text
  import opened Seqs
  import opened PosixPath

  // ---------------------------------------------------------------------------
  // sanitize_component
  // ---------------------------------------------------------------------------

  /** `SAFE_CHARS`: ASCII letters and digits, '-' and '_'. */
  predicate IsSafeChar(c: char) {
    'a' <= c <= 'z' || 'A' <= c <= 'Z' || '0' <= c <= '9' || c == '-' || c == '_'
  }

  predicate IsUnderscore(c: char) {
    c == '_'
  }

  /** Every character outside `SAFE_CHARS` replaced by '_'. */
  function Underscored(value: string): (r: string)
    ensures |r| == |value|
    ensures forall i :: 0 <= i < |r| ==> IsSafeChar(r[i])
  {
    seq(|value|, i requires 0 <= i < |value| => if IsSafeChar(value[i]) then value[i] else '_')
  }

  /** A name made only of safe characters that neither starts nor ends with '_'. */
  predicate IsCleanName(s: string) {
    s != [] && s[0] != '_' && s[|s| - 1] != '_' && forall i :: 0 <= i < |s| ==> IsSafeChar(s[i])
  }

  /**
   * `sanitize_component`: unsafe characters become '_', leading and trailing '_' are
   * stripped, and an empty result becomes "index".
   */
  function SanitizeComponent(value: string): (r: string)
    ensures IsCleanName(r)
  {
    var u := Underscored(value);
    var stripped := Strip(u, IsUnderscore);
    if stripped == [] then "index" else stripped
  }

  /** A clean name is left as it is. */
  lemma SanitizeKeepsCleanNames(value: string)
    requires IsCleanName(value)
    ensures SanitizeComponent(value) == value
  {
    assert Underscored(value) == value;
    StripUnchanged(value, IsUnderscore);
  }

  /** Sanitizing twice is sanitizing once. */
  lemma SanitizeIdempotent(value: string)
    ensures SanitizeComponent(SanitizeComponent(value)) == SanitizeComponent(value)
  {
    SanitizeKeepsCleanNames(SanitizeComponent(value));
  }

  // ---------------------------------------------------------------------------
  // TextFilePipeline
  // ---------------------------------------------------------------------------

  /** What the pipeline reads of an item: its URL and the optional page text and HTML. */
  datatype Item = Item(url: string, text: Option<string>, html: Option<string>)

  /** A file written: where, and what. */
  datatype SavedFile = SavedFile(path: string, content: string)

  /** Python truthiness of an optional string. */
  predicate Truthy(s: Option<string>) {
    s.Some? && s.value != ""
  }

  function Min(a: nat, b: nat): nat {
    if a <= b then a else b
  }

  /** The first 8 characters of the digest (`hexdigest()[:8]`). */
  function DigestPrefix(digest: string): (p: string)
    ensures |digest| >= 8 ==> p == digest[..8]
  {
    digest[..Min(8, |digest|)]
  }

  /**
   * The sanitized stem of the path's last component. An empty component is replaced by
   * "index", which neither `splitext` nor `sanitize_component` changes (lemma
   * `IndexUnchanged`).
   */
  function StemName(urlPath: string): (s: string)
    ensures IsCleanName(s)
  {
    var name := BaseName(urlPath);
    if name == "" then "index" else SanitizeComponent(Stem(name))
  }

  lemma EndsWithAppend(a: string, b: string)
    ensures EndsWith(a + b, b)
  {
  }

  /** The file name without extension: the stem name, '_' and 8 digest characters. */
  function FileBase(urlPath: string, digest: string): (base: string)
    ensures EndsWith(base, "_" + DigestPrefix(digest))
  {
    var suffix := "_" + DigestPrefix(digest);
    EndsWithAppend(StemName(urlPath), suffix);
    StemName(urlPath) + suffix
  }

  /** `os.path.splitext` and `sanitize_component` leave the fallback name as it is. */
  lemma IndexUnchanged(name: string)
    requires name == "index"
    ensures Stem(name) == name && SanitizeComponent(Stem(name)) == name
  {
    NoDotNoExtension(name);
    SanitizeKeepsCleanNames(name);
  }

  /** `os.path.join(store, name)` for a name that does not start with '/'. */
  function JoinPath(store: string, name: string): (path: string)
    ensures EndsWith(path, name)
  {
    if store == "" || EndsWith(store, "/") then store + name else store + "/" + name
  }

  /** The '=' rule of 80 characters under the URL line. */
  const Rule: string := "================================================================================"

  /** A text file: the URL line, the rule, a blank line, then the page text. */
  function TextFileContent(url: string, text: string): (content: string)
    ensures StartsWith(content, "URL: " + url + "\n") && EndsWith(content, text)
  {
    "URL: " + url + "\n" + Rule + "\n\n" + text
  }

  /**
   * `TextFilePipeline.process_item`: nothing without a store directory; otherwise a text
   * file when the item has text, then an HTML file when it has HTML, both named from the
   * same base.
   */
  function ProcessItem(store: Option<string>, item: Item, urlPath: string, digest: string): (files: seq<SavedFile>)
    ensures files == [] <==> !Truthy(store) || (!Truthy(item.text) && !Truthy(item.html))
    ensures |files| == if !Truthy(store) then 0 else (if Truthy(item.text) then 1 else 0) + (if Truthy(item.html) then 1 else 0)
    ensures Truthy(store) && Truthy(item.text) ==>
      files[0] == SavedFile(JoinPath(store.value, FileBase(urlPath, digest) + ".txt"), TextFileContent(item.url, item.text.value))
    ensures Truthy(store) && Truthy(item.html) ==>
      files[|files| - 1] == SavedFile(JoinPath(store.value, FileBase(urlPath, digest) + ".html"), item.html.value)
  {
    if !Truthy(store) then []
    else
      var base := FileBase(urlPath, digest);
      var text := if Truthy(item.text) then [SavedFile(JoinPath(store.value, base + ".txt"), TextFileContent(item.url, item.text.value))] else [];
      var html := if Truthy(item.html) then [SavedFile(JoinPath(store.value, base + ".html"), item.html.value)] else [];
      text + html
  }

  /** How `process_item` ends: with the item returned, or with an exception raised. */
  datatype Ending = Returned | Raised

  /**
   * `process_item` as written: each file written is followed by a `write_activity` call
   * with a `url_index` keyword the function does not take, which raises `TypeError`. So
   * the first file written is the last, and the item is not returned.
   */
  function ProcessItemAsWritten(store: Option<string>, item: Item, urlPath: string, digest: string): (r: (seq<SavedFile>, Ending))
    ensures r.1 == Raised <==> ProcessItem(store, item, urlPath, digest) != []
    ensures r.0 == ProcessItem(store, item, urlPath, digest)[..if r.1 == Raised then 1 else 0]
  {
    var files := ProcessItem(store, item, urlPath, digest);
    if files == [] then ([], Returned) else ([files[0]], Raised)
  }

  /** As written, an item with both text and HTML never gets its HTML file. */
  lemma HtmlFileNeverWritten(store: Option<string>, item: Item, urlPath: string, digest: string)
    requires Truthy(store) && Truthy(item.text) && Truthy(item.html)
    ensures |ProcessItem(store, item, urlPath, digest)| == 2
    ensures var (written, ending) := ProcessItemAsWritten(store, item, urlPath, digest);
      ending == Raised && |written| == 1 && !EndsWith(written[0].path, ".html")
  {
    var name := FileBase(urlPath, digest) + ".txt";
    assert name[|name| - 4] == '.';
    DotBeforeLastThree(JoinPath(store.value, name), name);
  }

  /** A path ending in a name whose fourth-last character is '.' does not end in ".html". */
  lemma DotBeforeLastThree(path: string, name: string)
    requires EndsWith(path, name) && |name| >= 4 && name[|name| - 4] == '.'
    ensures !EndsWith(path, ".html")
  {
    assert path[|path| - 4] == path[|path| - |name|..][|name| - 4];
    assert |path| >= 5 ==> path[|path| - 5..][1] == path[|path| - 4];
  }

  /** An MD5 hex digest: 32 lower-case hexadecimal digits. */
  predicate IsHexDigest(d: string) {
    |d| == 32 && forall i :: 0 <= i < |d| ==> ('0' <= d[i] <= '9' || 'a' <= d[i] <= 'f')
  }

  /** With a real digest the base is a clean name: safe characters only, so no dots or slashes. */
  lemma FileBaseIsClean(urlPath: string, digest: string)
    requires IsHexDigest(digest)
    ensures IsCleanName(FileBase(urlPath, digest))
  {
    var d := DigestPrefix(digest);
    assert forall i :: 0 <= i < |d| ==> d[i] == digest[i];
    CleanNamesJoin(StemName(urlPath), d);
  }

  /** A clean name, '_' and a non-empty run of letters and digits make a clean name. */
  lemma CleanNamesJoin(s: string, d: string)
    requires IsCleanName(s) && d != []
    requires forall i :: 0 <= i < |d| ==> ('0' <= d[i] <= '9' || 'a' <= d[i] <= 'f')
    ensures IsCleanName(s + ("_" + d))
  {
    var base := s + ("_" + d);
    forall i | 0 <= i < |base|
      ensures IsSafeChar(base[i])
    {
      if i > |s| {
        assert base[i] == d[i - |s| - 1];
      }
    }
  }


  /** In any directory, the ".txt" and ".html" names of one base are different paths. */
  lemma SavedPathsDiffer(store: string, base: string)
    ensures JoinPath(store, base + ".txt") != JoinPath(store, base + ".html")
  {
    var dir := if store == "" || EndsWith(store, "/") then store else store + "/";
    assert JoinPath(store, base + ".txt") == dir + (base + ".txt");
    assert JoinPath(store, base + ".html") == dir + (base + ".html");
    assert |base + ".txt"| != |base + ".html"|;
  }

  /** The text file and the HTML file of one item never share a path. */
  lemma SavedFilesDistinct(store: Option<string>, item: Item, urlPath: string, digest: string)
    requires |ProcessItem(store, item, urlPath, digest)| == 2
    ensures ProcessItem(store, item, urlPath, digest)[0].path != ProcessItem(store, item, urlPath, digest)[1].path
  {
    SavedPathsDiffer(store.value, FileBase(urlPath, digest));
  }

  /** Pages whose digests differ in the first 8 characters get different bases, whatever their paths. */
  lemma DigestSeparatesBases(p1: string, d1: string, p2: string, d2: string)
    requires |d1| >= 8 && |d2| >= 8 && d1[..8] != d2[..8]
    ensures FileBase(p1, d1) != FileBase(p2, d2)
  {
    var x, y := "_" + d1[..8], "_" + d2[..8];
    assert x[1..] == d1[..8] && y[1..] == d2[..8];
    SuffixesSeparate(StemName(p1), x, StemName(p2), y);
  }

  /** Two strings ending in different suffixes of the same length differ. */
  lemma SuffixesSeparate(a: string, x: string, b: string, y: string)
    requires |x| == |y| && x != y
    ensures a + x != b + y
  {
    assert (a + x)[|a|..] == x;
    assert (b + y)[|b|..] == y;
  }


  // ---------------------------------------------------------------------------
  // FilteredFilesPipeline
  // ---------------------------------------------------------------------------

  /** `_is_within_range`: no date is always inside; each present bound is inclusive. */
  function WithinRange(start: Option<int>, end: Option<int>, date: Option<int>): (r: bool)
    ensures r <==> date.None? || ((start.None? || start.value <= date.value) && (end.None? || date.value <= end.value))
  {
    if date.None? then true
    else if start.Some? && date.value < start.value then false
    else if end.Some? && date.value > end.value then false
    else true
  }

  /** Without bounds every date is inside. */
  lemma NoBoundsAlwaysWithin(date: Option<int>)
    ensures WithinRange(None, None, date)
  {
  }

  /** What `media_downloaded` does with a response: hand it to the files pipeline, or skip it. */
  datatype MediaResult =
    | Delegated
    | FilteredOut(url: string, path: Option<string>, checksum: Option<string>, status: string)

  /**
   * `media_downloaded`: without bounds the download is handed on; with a bound, a
   * response whose Last-Modified date (already parsed; None when missing or unreadable)
   * is outside the window is reported as filtered out, without a path.
   */
  function MediaDownloaded(start: Option<int>, end: Option<int>, lastModified: Option<int>, url: string): (r: MediaResult)
    ensures start.None? && end.None? ==> r == Delegated
    ensures r.FilteredOut? <==> lastModified.Some? && !WithinRange(start, end, lastModified)
    ensures r.FilteredOut? ==> r == FilteredOut(url, None, None, "filtered-out")
  {
    if start.None? && end.None? then Delegated
    else if lastModified.Some? && !WithinRange(start, end, lastModified) then FilteredOut(url, None, None, "filtered-out")
    else Delegated
  }

  /**
   * `media_downloaded` as written: when the spider has an activity log, reporting a skipped
   * download calls `write_activity` with a `url_index` keyword the function does not take,
   * which raises `TypeError` (None here) instead of returning the filtered-out result.
   */
  function MediaDownloadedAsWritten(start: Option<int>, end: Option<int>, lastModified: Option<int>, url: string,
                                    logging: bool): (r: Option<MediaResult>)
    ensures r.None? <==> logging && MediaDownloaded(start, end, lastModified, url).FilteredOut?
    ensures r.Some? ==> r.value == MediaDownloaded(start, end, lastModified, url)
  {
    var r := MediaDownloaded(start, end, lastModified, url);
    if logging && r.FilteredOut? then None else Some(r)
  }

  /** As written, with an activity log a download dated before the window raises instead of being skipped. */
  lemma EarlyDownloadRaises(start: int, lastModified: int, url: string)
    requires lastModified < start
    ensures MediaDownloadedAsWritten(Some(start), None, Some(lastModified), url, true).None?
    ensures MediaDownloaded(Some(start), None, Some(lastModified), url).FilteredOut?
  {
    assert !WithinRange(Some(start), None, Some(lastModified));
  }

  /** One `(ok, result)` pair of an item's downloads: the result is a dict (with an optional status) or something else. */
  datatype DownloadResult = ResultDict(status: Option<string>) | OtherResult
  datatype Outcome = Outcome(ok: bool, result: DownloadResult)

  /** A successful download that `media_downloaded` reported as filtered out. */
  predicate IsFilteredOut(o: Outcome) {
    o.ok && o.result.ResultDict? && o.result.status == Some("filtered-out")
  }

  predicate KeepOutcome(o: Outcome) {
    !IsFilteredOut(o)
  }

  /** `item_completed`'s list comprehension: the results without the filtered-out ones. */
  function ItemCompleted(results: seq<Outcome>): (kept: seq<Outcome>)
    ensures forall i :: 0 <= i < |kept| ==> !IsFilteredOut(kept[i])
  {
    Filter(results, KeepOutcome)
  }

  /** A result survives exactly when it was there and is not a filtered-out one. */
  lemma ItemCompletedExactly(results: seq<Outcome>, o: Outcome)
    ensures o in ItemCompleted(results) <==> o in results && !IsFilteredOut(o)
  {
    FilterMembers(results, KeepOutcome, o);
  }

  /** The survivors keep their order: the results can be filtered piece by piece. */
  lemma ItemCompletedInOrder(a: seq<Outcome>, b: seq<Outcome>)
    ensures ItemCompleted(a + b) == ItemCompleted(a) + ItemCompleted(b)
  {
    FilterAppend(a, b, KeepOutcome);
  }

  /** Without filtered-out results nothing is removed. */
  lemma ItemCompletedKeepsAll(results: seq<Outcome>)
    requires forall i :: 0 <= i < |results| ==> !IsFilteredOut(results[i])
    ensures ItemCompleted(results) == results
  {
    FilterAll(results, KeepOutcome);
  }
}
