# Scraper monitor and crawler, modelled in Dafny

This project models two halves of a self-consumption (autoconsumo) document scraper.

**The crawler side, in Python:**
- the activity-log line writer;
- the pipelines that name and write page files and filter downloads by date;
- the two spiders: the configurable `GenericSpider` and the older `MitecoSpider`;
- the runner's in-memory rules: sources file, term maps, progress status.

**The browser side:** the log-monitor page (`static/script.js`). This covers:
- how it parses the activity log into entries, filters, truncates, groups and titles them;
- the processed-URL buckets it fills from the Markdown list and from the log;
- HTML escaping;
- the sources preview and its duplicate cleaner;
- the page session: live or archived run, the timers that load and poll data, and how each server reply changes the state.

**How the model is written:**
- Pure code becomes datatypes and functions with lemmas.
- Loops become methods proved against those functions.
- The page's mutable state becomes the class `Session.LogMonitor`. Its invariant `Valid()` says:
  - every armed timer is held by one of the page's handle variables;
  - no timer runs while an archived run is shown;
  - the processed set is the union of its two buckets.
- Library calls the code relies on are parameters of the model: the browser's URL parser, `encodeURIComponent`, `normalize_text`, `urljoin`/`urlparse`, the MD5 digest.

The module `LogRoundTrip` ties the two halves together. It proves that a line written by `format_line` is read back by `parseLogContent` with the same time, source, message and recognised level.

## Model

| member | source | states |
|---|---|---|
| `ActivityLog.Fields` | autoconsumo_scraper_scrapy/autoconsumo_scraper_scrapy/activity_log.py:8-12 | timestamp and source come first and the message last; the upper-cased level is a third field exactly when it is neither empty nor INFO |
| `ActivityLog.FormatLine` | autoconsumo_scraper_scrapy/autoconsumo_scraper_scrapy/activity_log.py:6-13 | every written line ends with a newline |
| `ActivityLog.FormatLineSplitsIntoFields` | autoconsumo_scraper_scrapy/autoconsumo_scraper_scrapy/activity_log.py:6-13 | when no field holds the middle dot, splitting the line (without its newline) on " · " gives back exactly the fields: the format is unambiguous |
| `ActivityLog.WriteActivity` | autoconsumo_scraper_scrapy/autoconsumo_scraper_scrapy/activity_log.py:15-21 | nothing is appended exactly when the log path is missing or empty; otherwise the appended text is the formatted line |
| `Pipelines.Underscored` | autoconsumo_scraper_scrapy/autoconsumo_scraper_scrapy/pipelines.py:15 | same length as the input, and every character is in `SAFE_CHARS` |
| `Pipelines.SanitizeComponent` | autoconsumo_scraper_scrapy/autoconsumo_scraper_scrapy/pipelines.py:11-17 | the result is a clean name: non-empty, only safe characters, no leading or trailing '_' |
| `Pipelines.SanitizeKeepsCleanNames` | autoconsumo_scraper_scrapy/autoconsumo_scraper_scrapy/pipelines.py:13-17 | a name that is already clean is returned unchanged |
| `Pipelines.SanitizeIdempotent` | autoconsumo_scraper_scrapy/autoconsumo_scraper_scrapy/pipelines.py:13-17 | sanitizing twice gives the same as sanitizing once |
| `Pipelines.DigestPrefix` | autoconsumo_scraper_scrapy/autoconsumo_scraper_scrapy/pipelines.py:35 | for a digest of at least 8 characters, its first 8 characters |
| `Pipelines.StemName` | autoconsumo_scraper_scrapy/autoconsumo_scraper_scrapy/pipelines.py:36-41 | the name taken from the URL path is always a clean name |
| `Pipelines.FileBase` | autoconsumo_scraper_scrapy/autoconsumo_scraper_scrapy/pipelines.py:44 | the base name ends with '_' and the digest prefix |
| `Pipelines.IndexUnchanged` | autoconsumo_scraper_scrapy/autoconsumo_scraper_scrapy/pipelines.py:37-41 | the fallback name "index" passes through `splitext` and sanitizing unchanged |
| `Pipelines.JoinPath` | autoconsumo_scraper_scrapy/autoconsumo_scraper_scrapy/pipelines.py:49 | the joined path ends with the file name |
| `Pipelines.TextFileContent` | autoconsumo_scraper_scrapy/autoconsumo_scraper_scrapy/pipelines.py:52-56 | the text file starts with "URL: " and the URL on its own line, and ends with the page text |
| `Pipelines.ProcessItem` | autoconsumo_scraper_scrapy/autoconsumo_scraper_scrapy/pipelines.py:23-87 | no file without a store directory; otherwise exactly one ".txt" file when the text is truthy and one ".html" file when the HTML is, the text file first and the HTML file last, both named from the same base |
| `Pipelines.ProcessItemAsWritten` | autoconsumo_scraper_scrapy/autoconsumo_scraper_scrapy/pipelines.py:46-85 | as written, the call raises exactly when the corrected call would write a file, and then only the first of those files is written |
| `Pipelines.HtmlFileNeverWritten` | autoconsumo_scraper_scrapy/autoconsumo_scraper_scrapy/pipelines.py:60-85 | as written, an item with text and HTML raises after its text file, and no ".html" file is written |
| `Pipelines.FileBaseIsClean` | autoconsumo_scraper_scrapy/autoconsumo_scraper_scrapy/pipelines.py:35-44 | with an MD5 hex digest the base name is clean, so it holds no dots or slashes |
| `Pipelines.SavedPathsDiffer` | autoconsumo_scraper_scrapy/autoconsumo_scraper_scrapy/pipelines.py:48-71 | in any directory the ".txt" and ".html" names of one base are different paths |
| `Pipelines.SavedFilesDistinct` | autoconsumo_scraper_scrapy/autoconsumo_scraper_scrapy/pipelines.py:47-75 | the text file and the HTML file of one item never overwrite each other |
| `Pipelines.DigestSeparatesBases` | autoconsumo_scraper_scrapy/autoconsumo_scraper_scrapy/pipelines.py:35-44 | pages whose digests differ in the first 8 characters get different base names, whatever their paths |
| `Pipelines.WithinRange` | autoconsumo_scraper_scrapy/autoconsumo_scraper_scrapy/pipelines.py:134-141 | an undated response is always inside; otherwise each present bound is inclusive |
| `Pipelines.NoBoundsAlwaysWithin` | autoconsumo_scraper_scrapy/autoconsumo_scraper_scrapy/pipelines.py:134-141 | with neither bound every date is inside |
| `Pipelines.MediaDownloaded` | autoconsumo_scraper_scrapy/autoconsumo_scraper_scrapy/pipelines.py:151-178 | without bounds the download is handed on; it is filtered out exactly when it has a date outside the window, and then the result is the "filtered-out" record with no path or checksum |
| `Pipelines.MediaDownloadedAsWritten` | autoconsumo_scraper_scrapy/autoconsumo_scraper_scrapy/pipelines.py:155-169 | as written, with an activity log the call raises exactly when the download would be filtered out, and otherwise agrees with the corrected result |
| `Pipelines.EarlyDownloadRaises` | autoconsumo_scraper_scrapy/autoconsumo_scraper_scrapy/pipelines.py:156-169 | as written, a download dated before the window raises instead of being skipped, where the corrected pipeline filters it out |
| `Pipelines.ItemCompleted` | autoconsumo_scraper_scrapy/autoconsumo_scraper_scrapy/pipelines.py:180-186 | no kept result is a successful "filtered-out" record |
| `Pipelines.ItemCompletedExactly` | autoconsumo_scraper_scrapy/autoconsumo_scraper_scrapy/pipelines.py:181-185 | a result is kept exactly when it was there and is not a filtered-out record |
| `Pipelines.ItemCompletedInOrder` | autoconsumo_scraper_scrapy/autoconsumo_scraper_scrapy/pipelines.py:181-185 | the filter keeps the order: filtering a concatenation is concatenating the filtered parts |
| `Pipelines.ItemCompletedKeepsAll` | autoconsumo_scraper_scrapy/autoconsumo_scraper_scrapy/pipelines.py:181-185 | with no filtered-out record nothing is removed |
| `PosixPath.BaseName` | autoconsumo_scraper_scrapy/autoconsumo_scraper_scrapy/pipelines.py:37 | `os.path.basename`: a suffix of the path without '/' |
| `PosixPath.DirName` | autoconsumo_scraper_scrapy/autoconsumo_scraper_scrapy/spiders/generic_spider.py:157 | `os.path.dirname`: a prefix of the path |
| `PosixPath.Extension` | autoconsumo_scraper_scrapy/autoconsumo_scraper_scrapy/spiders/generic_spider.py:186 | `os.path.splitext(p)[1]`: empty, or a dot followed by neither dots nor slashes |
| `PosixPath.StemThenExtension` | autoconsumo_scraper_scrapy/autoconsumo_scraper_scrapy/pipelines.py:40 | a path is its stem followed by its extension |
| `PosixPath.NoDotNoExtension` | autoconsumo_scraper_scrapy/autoconsumo_scraper_scrapy/pipelines.py:40 | a last component without a dot has no extension, and its stem is the whole path |
| `PosixPath.LeadingDotIsNotExtension` | autoconsumo_scraper_scrapy/autoconsumo_scraper_scrapy/pipelines.py:40 | a hidden name such as ".profile" has no extension |
| `Crawl.ScanExclusions` | autoconsumo_scraper_scrapy/autoconsumo_scraper_scrapy/spiders/generic_spider.py:94-104 | a term is reported exactly when some exclusion occurs in the page text, and the reported spelling is that of an occurring term |
| `Crawl.CollectKeywords` | autoconsumo_scraper_scrapy/autoconsumo_scraper_scrapy/spiders/generic_spider.py:107-113 | the found set is the original spellings of the keywords that occur, and `has_keywords` is true exactly when one occurs |
| `Crawl.KeywordsOnPage` | autoconsumo_scraper_scrapy/autoconsumo_scraper_scrapy/spiders/generic_spider.py:107-116 | the found set is non-empty exactly when some keyword occurs, and a spelling is found exactly when an occurring keyword has it |
| `Crawl.FollowRequests` | autoconsumo_scraper_scrapy/autoconsumo_scraper_scrapy/spiders/generic_spider.py:155-180 | the link loop yields the follow requests of the specification function, in link order |
| `Crawl.FollowsExactly` | autoconsumo_scraper_scrapy/autoconsumo_scraper_scrapy/spiders/generic_spider.py:159-180 | a request is yielded exactly when some link resolves to an allowed target, and it goes one level deeper |
| `Crawl.FollowsWithinScope` | autoconsumo_scraper_scrapy/autoconsumo_scraper_scrapy/spiders/generic_spider.py:166-180 | every yielded request goes one level deeper to a target whose domain, and under base-path its path, are allowed |
| `GenericSpider.FileTypesOrDefault` | autoconsumo_scraper_scrapy/autoconsumo_scraper_scrapy/spiders/generic_spider.py:32 | never empty, and a non-empty list is kept as it is |
| `GenericSpider.BuildFileExtensions` | autoconsumo_scraper_scrapy/autoconsumo_scraper_scrapy/spiders/generic_spider.py:54-70 | an extension is recognised exactly when some listed category stands for it |
| `GenericSpider.DefaultRecognizesDocuments` | autoconsumo_scraper_scrapy/autoconsumo_scraper_scrapy/spiders/generic_spider.py:32-59 | with no `file_types`, exactly the seven document extensions are recognised |
| `GenericSpider.AllowedDomains` | autoconsumo_scraper_scrapy/autoconsumo_scraper_scrapy/spiders/generic_spider.py:42 | a domain is allowed exactly when it is the network location of a non-empty start URL |
| `GenericSpider.FileRequests` | autoconsumo_scraper_scrapy/autoconsumo_scraper_scrapy/spiders/generic_spider.py:183-207 | the download loop yields the file items of the specification function, in link order |
| `GenericSpider.ParseOutputs` | autoconsumo_scraper_scrapy/autoconsumo_scraper_scrapy/spiders/generic_spider.py:89-207 | the scans and yields of `parse` produce exactly the specified outputs, in order |
| `GenericSpider.Spider.constructor` | autoconsumo_scraper_scrapy/autoconsumo_scraper_scrapy/spiders/generic_spider.py:19-45 | the configuration holds the given settings, the allowed domains and the recognised extensions; no root has been seen |
| `GenericSpider.Spider.Parse` | autoconsumo_scraper_scrapy/autoconsumo_scraper_scrapy/spiders/generic_spider.py:72-207 | a depth-0 response records its URL as a root; the updater is called only for a new root, with the root count and the URL; the outputs are the specified ones |
| `GenericSpider.FilesExactly` | autoconsumo_scraper_scrapy/autoconsumo_scraper_scrapy/spiders/generic_spider.py:184-207 | a file item is yielded exactly when some link resolves to a URL with a recognised extension within the download scope |
| `GenericSpider.ExcludedPageYieldsNothing` | autoconsumo_scraper_scrapy/autoconsumo_scraper_scrapy/spiders/generic_spider.py:94-104 | a page containing an exclusion term yields nothing at all |
| `GenericSpider.PageItemExactly` | autoconsumo_scraper_scrapy/autoconsumo_scraper_scrapy/spiders/generic_spider.py:115-140 | a page item is yielded exactly when the page is not excluded and some keyword occurs; it comes first and carries the URL and, as configured, the text and HTML |
| `GenericSpider.OnlyFirstIsItem` | autoconsumo_scraper_scrapy/autoconsumo_scraper_scrapy/spiders/generic_spider.py:115-207 | only the first output can be the page item; every later one is a follow request or a file item |
| `GenericSpider.FollowRequestsBounded` | autoconsumo_scraper_scrapy/autoconsumo_scraper_scrapy/spiders/generic_spider.py:142-180 | follow requests come only from below the depth bound (and under "stop" only from pages with keywords), go one level deeper, stay on allowed domains and, under base-path, below the page's directory |
| `GenericSpider.DownloadsNeedKeywords` | autoconsumo_scraper_scrapy/autoconsumo_scraper_scrapy/spiders/generic_spider.py:182-207 | file items come only from pages with keywords, have a recognised extension and, under same-domain, the page's domain |
| `Miteco.NewSpider` | autoconsumo_scraper_scrapy/autoconsumo_scraper_scrapy/spiders/miteco.py:18-26 | the spider keeps the given maps and depth, and allows exactly the domains of the non-empty start URLs |
| `Miteco.ShouldDownload` | autoconsumo_scraper_scrapy/autoconsumo_scraper_scrapy/spiders/miteco.py:79-85 | the early-exit keyword loop answers true exactly when some keyword occurs in the link text or the page text |
| `Miteco.DownloadRequests` | autoconsumo_scraper_scrapy/autoconsumo_scraper_scrapy/spiders/miteco.py:72-90 | the download loop yields the file items of the specification function for the links before the first document link holding a double quote, in link order, and reports a raise exactly when such a link exists |
| `Miteco.FirstFailure` | autoconsumo_scraper_scrapy/autoconsumo_scraper_scrapy/spiders/miteco.py:73-79 | the position returned is the first document link holding a double quote (treated as the one whose text query at line 79 raises), or the number of links when there is none |
| `Miteco.Parse` | autoconsumo_scraper_scrapy/autoconsumo_scraper_scrapy/spiders/miteco.py:29-90 | `parse` yields exactly the specified outputs, in order, and raises exactly when the page is not excluded and a document link holds a double quote |
| `Miteco.QuotedDocumentLinkRaises` | autoconsumo_scraper_scrapy/autoconsumo_scraper_scrapy/spiders/miteco.py:73-79 | a document link holding a double quote, treated as a failing text query, on a page that is not excluded makes `parse` raise, and no file item is yielded for it or any later link |
| `Miteco.DownloadsExactly` | autoconsumo_scraper_scrapy/autoconsumo_scraper_scrapy/spiders/miteco.py:73-90 | a file item is yielded exactly when some link resolves to a document URL and a keyword matches |
| `Miteco.ExcludedPageYieldsNothing` | autoconsumo_scraper_scrapy/autoconsumo_scraper_scrapy/spiders/miteco.py:34-39 | a page containing an exclusion term yields nothing at all |
| `Miteco.OnlyFirstIsItem` | autoconsumo_scraper_scrapy/autoconsumo_scraper_scrapy/spiders/miteco.py:48-90 | only the first output can be the page item; every later one is a follow request or a file item |
| `Miteco.PageItemExactly` | autoconsumo_scraper_scrapy/autoconsumo_scraper_scrapy/spiders/miteco.py:41-54 | a page item is yielded exactly when the page is not excluded and some keyword occurs; it comes first with the page's URL and raw text |
| `Miteco.FollowRequestsBounded` | autoconsumo_scraper_scrapy/autoconsumo_scraper_scrapy/spiders/miteco.py:56-70 | follow requests come only from below the depth bound, go one level deeper, to an allowed domain, below the page's directory |
| `Miteco.DownloadsNeedKeywords` | autoconsumo_scraper_scrapy/autoconsumo_scraper_scrapy/spiders/miteco.py:72-90 | every file item comes from a page link before the first failing text query, with a document extension, whose link text or page text matches a keyword |
| `Miteco.NoKeywordsNoDownloads` | autoconsumo_scraper_scrapy/autoconsumo_scraper_scrapy/spiders/miteco.py:80-87 | with an empty keyword map nothing is downloaded |
| `Miteco.KeywordPageDownloadsEveryDocument` | autoconsumo_scraper_scrapy/autoconsumo_scraper_scrapy/spiders/miteco.py:72-90 | on a page that is not excluded and has a keyword, every document link before the first failing text query is downloaded |
| `RunScraper.SourceOfRow` | run_scraper.py:63-74 | a row is loaded exactly when it has two cells and a stripped URL cell starting with "http"; the source holds the stripped description and URL |
| `RunScraper.LoadSources` | run_scraper.py:57-75 | the row loop yields the sources of the specification function, in row order |
| `RunScraper.LoadedSourcesWellFormed` | run_scraper.py:63-74 | every loaded source has a stripped http URL, a stripped description and stripped non-empty extra cells |
| `RunScraper.LoadSourcesExactly` | run_scraper.py:62-74 | a source is loaded exactly when some row yields it |
| `RunScraper.LoadSourcesInOrder` | run_scraper.py:62-74 | loading two blocks of rows is loading each and concatenating |
| `RunScraper.StartUrls` | run_scraper.py:78-80 | one URL per source, the source's URL, in order |
| `RunScraper.StartUrlsAreHttp` | run_scraper.py:66-80 | every start URL is stripped and starts with "http" |
| `RunScraper.SourceLookupExactly` | run_scraper.py:195-202 | a URL is in the lookup exactly when some source has it, and its entry points at a source with that URL |
| `RunScraper.TermOf` | run_scraper.py:209-210 | a counted line is stripped, non-empty and not a '#' comment |
| `RunScraper.LoadTermMap` | run_scraper.py:205-211 | the line loop builds the map of the specification function |
| `RunScraper.TermsExactly` | run_scraper.py:208-211 | a term is counted exactly when some line yields it |
| `RunScraper.TermMapKeys` | run_scraper.py:208-211 | a key is present exactly when some counted line normalises to it |
| `RunScraper.TermMapLast` | run_scraper.py:208-211 | a key maps to the last counted line that normalises to it |
| `RunScraper.TermMapValues` | run_scraper.py:208-211 | every value is a stripped, non-empty, non-comment line of the file that normalises to its key |
| `RunScraper.Capped` | run_scraper.py:261 | the count is clamped to the range from 0 to the total |
| `RunScraper.CurrentIndex` | run_scraper.py:262-268 | a known URL's 1-based source position; otherwise the capped count |
| `RunScraper.DescriptionOf` | run_scraper.py:269 | the source's description when the URL is known and the description is not empty; otherwise none |
| `RunScraper.UpdateProgress` | run_scraper.py:259-287 | the status holds the capped count, the total, the URL, the source position or count, the description unless empty, and the message |
| `RunScraper.ProgressMessage` | run_scraper.py:270-277 | the default message only when there is nothing to say; without sources, the description or else the URL alone; with sources, "Procesando c/t" first |
| `RunScraper.ProgressIndexNamesSource` | run_scraper.py:195-268 | a known URL's index is between 1 and the number of sources and names a source with that URL |
| `RunScraper.StatusAfterCallAsWritten` | autoconsumo_scraper_scrapy/autoconsumo_scraper_scrapy/spiders/generic_spider.py:77-81 | as written, an updater call whose argument count differs from `update_progress`'s three parameters leaves the status as it was |
| `RunScraper.ProgressNeverWritten` | run_scraper.py:259-308 | as written, the spider's two-argument call never changes the status, where the intended status names the root being parsed |
| `LogParser.SeverityNameInjective` | static/script.js:858-882 | different severities have different names, so a severity filter button keeps exactly its own severity (used by `Presentation.FilterEntriesExactly`) |
| `LogParser.DetectLogSeverity` | static/script.js:858-864 | error exactly when the upper-cased line has ERROR; warning exactly when it has WARN (WARNING included) and not ERROR; debug exactly when it has DEBUG and neither of those; info when it has none of them |
| `LogParser.WarningContainsWarn` | static/script.js:858-864 | a line with WARNING also has WARN, so the WARNING test never decides on its own |
| `LogParser.SeverityFromLevel` | static/script.js:868-882 | a recognised level decides the severity; any other level falls back to scanning the line |
| `LogParser.FormatLogMessage` | static/script.js:886-923 | no parts give an empty message; parts that are not a recognised template give their trimmed join; a template never gives an empty message |
| `LogParser.TermsSentence` | static/script.js:894-901 | a keyword line becomes a sentence ending with " en " and the trimmed URL after the prefix; it opens with "Términos encontrados: " exactly when the other parts, joined with " \| " and trimmed, are not blank, and those terms then stand between the label and the URL; otherwise it is "Términos encontrados en " and the URL |
| `LogParser.ExclusionSentence` | static/script.js:903-920 | an exclusion line becomes a sentence ending with " en " and the trimmed URL; its detail is the other parts joined and trimmed, with one leading "término:" (in any case) removed and the rest trimmed; it opens with "Exclusión: " exactly when that detail is not blank, and the detail then stands between the label and the URL; otherwise it is "Exclusión en " and the URL |
| `LogParser.TermLabelStrippedOnce` | static/script.js:911-913 | the "término:" label is removed only once: a detail repeating it still opens with it afterwards |
| `LogParser.Tokens` | static/script.js:933-936 | the pieces of a line are never empty |
| `LogParser.TrimEach` | static/script.js:935 | every piece is trimmed, in order |
| `LogParser.ReadHeader` | static/script.js:952-974 | the time and source are the first two pieces; a level is taken exactly when the third piece is a level word; a "#N" piece after them sets the index; the rest is the message |
| `LogParser.ParseLine` | static/script.js:932-1006 | a blank line gives the degraded entry; otherwise the entry has the header's fields, its source class and severity; the last seen index becomes the progress number, else the explicit index, else stays; the entry's index is explicit, else progress, else inherited for indexed sources |
| `LogParser.ParseLineLevel` | static/script.js:957-992 | an entry's level is empty or a level word, and a level word decides its severity |
| `LogParser.ParseLineScannedSeverity` | static/script.js:938-992 | without a level the severity comes from scanning the line; a degraded entry is info |
| `LogParser.ParseLineMessage` | static/script.js:974-994 | a non-blank line never gets an empty message; without a template the message is the trimmed join, else the raw line |
| `LogParser.Lines` | static/script.js:929-931 | every kept line has something other than white space |
| `LogParser.DropCarriageReturns` | static/script.js:930 | every piece followed by a newline loses one trailing carriage return; the last piece is kept as it is, as `split(/\r?\n/)` does |
| `LogParser.UnterminatedLineKept` | static/script.js:929-931 | a non-blank log text with no newline is one line, kept whole, a final carriage return included |
| `LogParser.Scan` | static/script.js:929-1007 | one entry per line |
| `LogParser.ScanEntry` | static/script.js:932-1007 | entry k is line k parsed with the last seen index left by the lines before it |
| `LogParser.ParsedEntryIdentity` | static/script.js:996-998 | every entry keeps its line and its position as id |
| `LogParser.ParseLines` | static/script.js:932-1007 | the loop threading the last seen index produces the entries of the scan |
| `LogParser.ParseLogContent` | static/script.js:925-1008 | the entries of the non-blank lines (split on `\r?\n`, the last line keeping a final carriage return), parsed left to right |
| `LogRoundTrip.FieldsClean` | autoconsumo_scraper_scrapy/autoconsumo_scraper_scrapy/activity_log.py:8-12 | every field the writer emits is clean when its inputs are |
| `LogRoundTrip.LinesOfFormattedLine` | static/script.js:929-931 | the written text reads as exactly one line: the joined fields |
| `LogRoundTrip.LineKept` | static/script.js:929-931 | a one-line text that starts and ends with a visible character, followed by a newline, keeps just that line |
| `LogRoundTrip.TokensOfFields` | static/script.js:933-936 | splitting the joined clean fields and trimming gives the fields back |
| `LogRoundTrip.HeaderOfFields` | static/script.js:952-974 | the parser reads the written time, source, recognised level and message from the written fields |
| `LogRoundTrip.FormatThenParse` | static/script.js:925-1008 | a line written by `format_line` parses into one entry with the written time, source, message and recognised level |
| `UrlTracker.NormalizeUrl` | static/script.js:408-427 | none exactly for a missing or blank value; the result never ends with '/' |
| `UrlTracker.NormalizeUnparsable` | static/script.js:424-426 | text the parser rejects becomes the trimmed text without trailing slashes, a prefix of it |
| `UrlTracker.SchemeAt` | static/script.js:458 | the case-insensitive "http://" or "https://" at a position has length 7 or 8, or there is none |
| `UrlTracker.MatchEnd` | static/script.js:458 | a match is the scheme and the longest non-empty run of URL characters after it |
| `UrlTracker.UrlMatches` | static/script.js:458-466 | every successive match of the global pattern is a scheme followed by URL characters |
| `UrlTracker.MatchNormalises` | static/script.js:459-463 | every match normalises to some URL |
| `UrlTracker.Harvest` | static/script.js:459-465 | every harvested URL is non-empty and does not end with '/' |
| `UrlTracker.ScanUrls` | static/script.js:455-469 | the match loop collects exactly the normalised URLs the pattern finds |
| `UrlTracker.CollectLogUrls` | static/script.js:471-500 | the entry loop builds the logs bucket of the specification function |
| `UrlTracker.LogUrlsExactly` | static/script.js:475-497 | a URL is in the logs bucket exactly when an indexed, non-error entry mentions it in its line or message |
| `UrlTracker.NonContributingIgnored` | static/script.js:476-478 | an entry that does not contribute leaves the bucket unchanged |
| `UrlTracker.SamePrefixSameUrls` | static/script.js:471-500 | the bucket after n entries depends only on those n entries |
| `Presentation.FilterEntries` | static/script.js:1010-1015 | never more entries than given |
| `Presentation.FilterEntriesExactly` | static/script.js:1010-1015 | "all" keeps every entry; any other filter keeps exactly the entries whose severity it names, and the button of a severity keeps exactly the entries of that severity |
| `Presentation.LastEntries` | static/script.js:1085-1090 | the last 400 filtered entries (all when fewer), as a suffix in order |
| `Presentation.GroupStep` | static/script.js:1103-1108 | adding an entry to its group, created when missing, keeps every group exact |
| `Presentation.GroupByIndex` | static/script.js:1101-1109 | distinct keys, one per group present; each group holds exactly the entries with its key, in order, and every entry's key has a group |
| `Presentation.Insert` | static/script.js:1111-1115 | inserting a new key keeps the keys increasing and adds exactly that key |
| `Presentation.SortKeys` | static/script.js:1111-1115 | the sorted keys are increasing (0 first) and are exactly the given keys |
| `Presentation.UpdateLogDisplay` | static/script.js:1079-1155 | the truncation line appears exactly when more than 400 entries match; the counter shows the filtered total and the shown count; the body is flat or the grouped view |
| `Presentation.BuildGroups` | static/script.js:1101-1132 | one group per key, keys increasing, each with exactly its entries, its title and its count |
| `Presentation.RemoveSpaces` | static/script.js:1034 | a character is in the result exactly when it is in the text and is not white space |
| `Presentation.DescribeLogGroup` | static/script.js:1024-1042 | "General" exactly for key 0; any other key's title starts with "Fuente #n" |
| `Sources.EscapeHtmlCharwise` | static/script.js:396-406 | the chain of five replacements, ampersand first, escapes each character on its own, with no double escaping |
| `Sources.EscapeHtmlHasNoMarkup` | static/script.js:396-406 | escaped text holds no '<', '>', '"' or ''' |
| `Sources.EscapeHtmlRoundTrip` | static/script.js:396-406 | unescaping the five entities gives the original text back |
| `Sources.RawLines` | static/script.js:696 | splitting gives at least one line; a carriage return is removed only before a newline |
| `Sources.UnterminatedLineKept` | static/script.js:696 | a text with no newline is a single line, kept whole, a final carriage return included |
| `Sources.LinesHaveNoNewline` | static/script.js:696 | no split line holds a newline |
| `Sources.Deduped` | static/script.js:700-724 | never more lines than given |
| `Sources.DedupeLines` | static/script.js:700-724 | the line loop keeps the lines of the specification function and counts the removed ones as duplicates |
| `Sources.DedupedDistinct` | static/script.js:700-724 | after cleaning no two lines share a URL, and every URL of the list is still present |
| `Sources.DedupedIdempotent` | static/script.js:700-724 | cleaning twice is cleaning once |
| `Sources.UnkeyedLinesSurvive` | static/script.js:702-716 | blank lines, one-cell lines and lines with an empty URL all survive, in order |
| `Sources.DedupeFuentes` | static/script.js:679-742 | refused for an archived run; nothing to clean for a blank list; otherwise the cleaned lines joined by newlines and the number removed |
| `Sources.KeyWithoutCarriageReturn` | static/script.js:696-712 | a trailing carriage return does not change a line's URL |
| `Sources.DedupeTwice` | static/script.js:679-742 | running the cleaner on its own output finds no duplicates |
| `Sources.CardOf` | static/script.js:543-559 | a card has a URL starting with http:// or https:// and no empty extra cell |
| `Sources.CardsOf` | static/script.js:542-560 | never more cards than lines |
| `Sources.BuildSourceCards` | static/script.js:532-560 | the line loop builds the cards of the non-blank lines of the trimmed text |
| `Sources.IndexSources` | static/script.js:567-573 | the index loop builds the numbered source table |
| `Sources.SourceIndexExactly` | static/script.js:567-573 | the keys are exactly 1 to the number of cards, and key n holds the description and URL of card n |
| `Sources.CardsHaveUrls` | static/script.js:550-552 | every numbered source has an http or https URL |
| `Sources.ClampWidth` | static/script.js:299-313 | the width is clamped between 320 and 900, and a width already inside is kept |
| `Sources.ParseInt` | static/script.js:311 | a number is read only from text holding a digit |
| `Sources.ParseIntOfNat` | static/script.js:311 | reading a decimal numeral gives the number back |
| `Sources.StoredLogWidth` | static/script.js:302-316 | a restored width is always between 320 and 900 |
| `Sources.StoredWidthRoundTrip` | static/script.js:813-817 | a width saved after clamping is restored as it was |
| `Session.BuildApiUrl` | static/script.js:57-63 | live mode keeps the path; an archived run appends "execution=" and the encoded id after '?' or, when the path has a query, '&' |
| `Session.BuildApiUrlHasOneQuery` | static/script.js:57-63 | an archived run's URL always has a query, with exactly one '?' when neither the path nor the encoded id had one |
| `Session.FormatExecutionLabel` | static/script.js:67-74 | empty exactly for an empty id; otherwise the id or the label of a run with that id |
| `Session.FindExecution` | static/script.js:65 | the first run with the id, or none when no run has it |
| `Session.LoadRequests` | static/script.js:1199-1209 | a files load sends one request per editor file; a status load sends nothing for an archived run; every request is a GET |
| `Session.FileRequests` | static/script.js:598-606 | one GET per editor file, in order, through `buildApiUrl` |
| `Session.PlaceholderEntry` | static/script.js:1294-1299 | an info entry showing the line, which never contributes processed URLs |
| `Session.RunningMessage` | static/script.js:1226-1240 | never empty; the server's message wins when it has one |
| `Session.SelectedAfterRender` | static/script.js:237-262 | the shown archived run is kept exactly when the new list still has it |
| `Session.LiveSchedule` | static/script.js:205-235 | the five timers of live mode agree with the handle variables |
| `Session.FiredLoadSchedule` | static/script.js:208-214 | a fired first load leaves the table and the initial list, and the rest still agrees |
| `Session.FiredIntervalKeepsInitial` | static/script.js:124-142 | a firing interval is never on the initial list |
| `Session.PollingStartHeld` | static/script.js:231-233 | the firing polling start is the one its variable holds |
| `Session.PollingStartFired` | static/script.js:231-233 | after the polling start fires, its variable is empty and the rest still agrees |
| `Session.PollersCleared` | static/script.js:96-109 | clearing the pollers keeps the table and the variables in agreement |
| `Session.PollersArmed` | static/script.js:120-143 | arming both pollers into empty variables keeps the agreement |
| `Session.ArmStatusSchedule` | static/script.js:1312-1314 | arming the status interval into an empty variable keeps the agreement |
| `Session.AtMostOnePoller` | static/script.js:120-143 | at most one logs poller and one processed-list poller are ever armed |
| `Session.LogMonitor.constructor` | static/script.js:40-53 | live mode, no timers, an empty log and empty buckets |
| `Session.LogMonitor.ClearLiveInitialTimeouts` | static/script.js:91-94 | every initial timeout is disarmed and the list is emptied |
| `Session.LogMonitor.ClearDataPollingIntervals` | static/script.js:96-109 | the polling start and both pollers are disarmed and their variables emptied |
| `Session.LogMonitor.ClearStatusInterval` | static/script.js:113-116 | the status interval is disarmed and its variable emptied |
| `Session.LogMonitor.StopAllIntervals` | static/script.js:111-118 | every variable is emptied, and nothing stays armed when every timer was held by one |
| `Session.LogMonitor.ScheduleLiveDataLoads` | static/script.js:205-219 | the old initial timeouts are cleared, and the four first loads are armed at 500, 1000, 1500 and 2000 ms and remembered |
| `Session.LogMonitor.StartPollingNow` | static/script.js:120-143 | the polling variables are cleared; in live mode only, the logs (5000 ms) and processed-list (10000 ms) pollers are armed; the agreement is kept |
| `Session.LogMonitor.ResetProcessedUrlTracking` | static/script.js:448-453 | both buckets and the processed set are emptied |
| `Session.LogMonitor.RecomputeProcessedUrlSet` | static/script.js:442-446 | the processed set is the union of the buckets |
| `Session.LogMonitor.RefreshProcessedUrlsFromMarkdown` | static/script.js:455-469 | the Markdown bucket is empty for blank text and otherwise the URLs found in it; the processed set is the union |
| `Session.LogMonitor.RefreshProcessedUrlsFromLogs` | static/script.js:471-500 | the logs bucket is rebuilt from the parsed entries; the processed set is the union |
| `Session.LogMonitor.RenderSourcesPreview` | static/script.js:529-573 | the numbered source table is rebuilt from the editor's text |
| `Session.LogMonitor.SwitchToHistorical` | static/script.js:187-203 | for an empty id or the run already shown, no request and no field changed; otherwise the run is shown, every timer stopped, the buckets and last log text reset, and its files, processed list and log requested |
| `Session.LogMonitor.ShowExecution` | static/script.js:192-198 | the run is shown with no timer armed and the buckets and last log text reset |
| `Session.LogMonitor.SwitchToLiveMode` | static/script.js:221-235 | back to live mode with the buckets and last log text reset; exactly the four first loads and the polling start are armed |
| `Session.LogMonitor.ArmLiveTimers` | static/script.js:230-234 | on a stopped table, arms the four first loads and the 3000 ms polling start, in agreement with the variables |
| `Session.LogMonitor.Fire` | static/script.js:205-235 | a firing load sends its live requests, a timeout leaving the table and the initial list while an interval stays, with the handles and the polling variables unchanged; the polling start sends nothing, leaves the table and re-arms both pollers at the next two handles; the invariant is kept |
| `Session.LogMonitor.FireLoad` | static/script.js:208-218 | a timeout leaves the table and the initial list, an interval stays; the load's requests are sent |
| `Session.LogMonitor.FirePollingStart` | static/script.js:231-233 | the firing timeout is the held polling start; it leaves the table and both pollers are re-armed at the next two handles |
| `Session.LogMonitor.DisarmPollingStart` | static/script.js:231-233 | the fired timeout is the polling start its variable still names; it leaves the table and the rest still agrees |
| `Session.LogMonitor.ReceiveLogs` | static/script.js:1446-1470 | an unchanged text changes nothing; a new text is parsed and refreshes the logs bucket; a missing text empties the log |
| `Session.LogMonitor.ReceiveProcesados` | static/script.js:1413-1430 | the Markdown bucket is rebuilt; in live mode only, the runs list is requested |
| `Session.LogMonitor.ReceiveExecutions` | static/script.js:264-272 | the list is stored (empty when not an array), and the shown run is dropped when it is no longer listed |
| `Session.LogMonitor.ReceiveFile` | static/script.js:611-617 | a non-empty sources file replaces the editor text and redraws the table; anything else changes nothing |
| `Session.LogMonitor.ReceiveFileError` | static/script.js:619-625 | the sources editor shows the error text; the table is not redrawn |
| `Session.LogMonitor.EditFuentes` | static/script.js:631-634 | typing replaces the text and redraws the table |
| `Session.LogMonitor.DedupeEditor` | static/script.js:679-742 | the cleaner's outcome; a cleaned list replaces the editor text and redraws the table, otherwise nothing changes |
| `Session.LogMonitor.ClearLog` | static/script.js:1180-1190 | the log and last text are emptied and the logs bucket rebuilt |
| `Session.LogMonitor.RefreshLog` | static/script.js:1192-1197 | the last text is forgotten and the log is requested |
| `Session.LogMonitor.StartScrape` | static/script.js:1288-1319 | refused for an archived run, which changes nothing; otherwise the preview is redrawn, the log shows only a placeholder, the status interval is armed unless one exists (taking the next handle), and the scrape is requested |
| `Session.LogMonitor.BeginScrape` | static/script.js:1294-1314 | the placeholder log and the status interval, armed only when missing |
| `Session.LogMonitor.EnsureStatusInterval` | static/script.js:1312-1314 | a status interval exists afterwards; an existing one is kept with the table and handle counter; otherwise a new one gets the next handle, which then advances by one |
| `Session.LogMonitor.ReceiveScrapeStart` | static/script.js:1329-1357 | an error or a failed request stops the status interval; a message changes nothing |
| `Session.LogMonitor.Cancel` | static/script.js:1361-1378 | no request for an archived run or an unconfirmed cancel; otherwise the cancel is posted |
| `Session.LogMonitor.ReceiveCancel` | static/script.js:1380-1394 | a reply with a message stops the status interval; a reply without one changes nothing |
| `Session.LogMonitor.ReceiveStatus` | static/script.js:1214-1278 | while running, the running message with the timers unchanged; otherwise the status interval is stopped and the text is, for an error, its message or the default text, else the message |
| `Session.LogMonitor.ReloadFiles` | static/script.js:750-772 | for an archived run, back to live mode with exactly the live timers armed, the last log text forgotten and the runs list requested; otherwise the files requested, a placeholder log and every bucket emptied |

## Findings

| source | as written | input that shows it | evidently intended | confidence | as-written member | corrected member |
|---|---|---|---|---|---|---|
| autoconsumo_scraper_scrapy/autoconsumo_scraper_scrapy/pipelines.py:60-66 | `process_item` calls `write_activity(..., url_index=...)`, but `write_activity` (activity_log.py:15) has no `url_index` parameter, so the call raises `TypeError` right after the first file is written | an item with text and HTML under a set `TEXT_FILES_STORE`: the `.txt` file is written, then the call raises and the `.html` file is never written | write the text file, then the HTML file, log both and return the item | high (not executed) | `Pipelines.ProcessItemAsWritten`, `Pipelines.HtmlFileNeverWritten` | `Pipelines.ProcessItem` |
| autoconsumo_scraper_scrapy/autoconsumo_scraper_scrapy/pipelines.py:163-169 | `media_downloaded` passes the same unknown `url_index` keyword when the spider has an activity log, so a download outside the date window raises instead of being skipped | a start date after the file's `Last-Modified` date, with an activity log: the call raises | return the "filtered-out" record so that `item_completed` drops it | high (not executed) | `Pipelines.MediaDownloadedAsWritten`, `Pipelines.EarlyDownloadRaises` | `Pipelines.MediaDownloaded` |
| autoconsumo_scraper_scrapy/autoconsumo_scraper_scrapy/spiders/generic_spider.py:77-81 | the spider calls `status_updater(len(roots), url)` with two arguments, but `update_progress` (run_scraper.py:259) takes three (`processed`, `url`, `depth`); the `TypeError` is swallowed and logged at debug level, so progress is never written | any crawl with a status updater: the first root at depth 0 calls the updater with two arguments | write the progress status for each new root | high (not executed) | `RunScraper.StatusAfterCallAsWritten`, `RunScraper.ProgressNeverWritten` | `RunScraper.UpdateProgress` |

The rest of the model uses the corrected members.

## Left out

**Browser environment:**
- The DOM and rendering: markup strings, CSS classes, button states, `alert`/`confirm` texts, the tab switcher and the config panel. The model keeps the state these read and write.
- The network, the 5- and 10-second abort timeouts, and the race between replies: requests are returned, and each reply is a separate method call. A reply that arrives after a mode switch is applied as it comes, as in the source.
- `highlightSourceByUrl`, `updateProcessedSourceCards` and `createLogLineElement` only restyle existing elements.
- `saveFile` and the config form: they only send what the editors hold.
- `marked.parse`, which renders the Markdown list. The processed URLs are taken from the raw text, as the source does.
- `Session.LogMonitor.SwitchToHistorical` and `Session.LogMonitor.StartScrape` redraw the source table after the other updates rather than before. The redraw reads only the editor text and writes only the table, so the final state is the same.
- The panel-resize drag handlers: only the clamp and the stored width are modelled.

**Stand-ins for library behaviour:**
- Timers are a table from handles to what they run; handles start at 1 and grow, as browsers hand them out.
- The URL parser, `encodeURIComponent`, `normalize_text`, `urljoin`, `urlparse` and MD5 are parameters, so their own behaviour is not modelled.
- Date parsing and time zones (`_parse_iso_datetime`, `_normalize_http_datetime`, `_describe_datetime`): dates are integers.
- Case mapping covers ASCII and the few other characters whose mapping is a single ASCII letter (upper) or Latin-1 (lower). The rest of Unicode case mapping is not modelled.
- JavaScript numbers are unbounded integers: `Number()` on a very long digit run, and `NaN`/`Infinity` totals, are not modelled (non-numeric totals arrive as 0).
- The key sort in `updateLogDisplay` is modelled as an insertion sort with the same ordering.
- Dictionary iteration order in the spiders' exclusion loop is an arbitrary choice: which spelling is reported among several matching terms is left open.
- `GenericSpider.Spider.Parse`: absent `keywords_map`, `exclusions_map` and `file_types` are passed as empty.
- The anchor text of a link is a map from `href` to its first text node. XPath evaluation is not modelled, except for one failure.
- `Miteco.QueryFails`: every document link holding a double quote is treated as making the text query at miteco.py:79 raise, which ends `parse`. This over-approximates. A quote that still leaves a valid XPath expression, such as the link `a"or"b.pdf` (giving `@href="a"or"b.pdf"`), does not raise in the spider, which goes on and may download that link and later ones. For such links the anchor text the query selects is not modelled either.
- `LogParser.ParseLines` takes the line parser as a parameter.

**Omitted operations and contracts:**
- `LogParser.FormatLogMessage`: the fallback at static/script.js:907-909 is unreachable (it needs both more than one part and no remaining parts), so it is not modelled.
- `Session.PlaceholderEntry`: the placeholder's time, source and level, which the source leaves undefined, are empty strings.
- `Session.LogMonitor.ReloadFiles`: the alert and the processed panel's text are left out.
- Reading and writing files: CSV quoting, encodings, `os.makedirs` and the lock are left out. Rows arrive split on ';', and term files as lines.
- `get_media_requests` only copies a log index into request metadata; it is not modelled.
- `inc_stats` and the spiders' and pipelines' logger calls are not modelled.
- The spiders' and runner's `write_activity` lines are not modelled.
- `build_summary`, `write_status`, the rest of the runner's `main`, and the Flask server are not part of this model.
- `logformatter.py`, `app.py` and `script_safe.js` are not part of this model.
