/**
 * The configurable spider: the file extensions it recognises, the domains it may crawl,
 * the roots it has seen, and what `parse` yields for one response.
 *
 * Logging and the activity lines the spider writes are left out; the status updater is
 * reduced to the arguments it is called with.
 */
module GenericSpider {
  import opened Wrappers
  import opened Text
  import opened PosixPath
  import opened Pipelines
  import opened Crawl
  import opened Seqs

  // ---------------------------------------------------------------------------
  // _build_file_extensions
  // ---------------------------------------------------------------------------

  const DocumentExts: set<string> := {".pdf", ".doc", ".docx", ".xls", ".xlsx", ".ppt", ".pptx"}
  const ImageExts: set<string> := {".jpg", ".jpeg", ".png", ".gif", ".svg", ".webp", ".bmp"}
  const ArchiveExts: set<string> := {".zip", ".rar", ".7z", ".tar", ".gz", ".bz2"}
  const OtherExts: set<string> := {".txt", ".csv", ".json", ".xml", ".md"}

  /** The extensions a `file_types` category stands for; an unknown category stands for none. */
  function ExtensionsOf(category: string): set<string> {
    if category == "documents" then DocumentExts
    else if category == "images" then ImageExts
    else if category == "archives" then ArchiveExts
    else if category == "other" then OtherExts
    else {}
  }

  /** `file_types or ['documents']`: an absent or empty list means documents only. */
  function FileTypesOrDefault(fileTypes: seq<string>): (r: seq<string>)
    ensures r != []
    ensures fileTypes != [] ==> r == fileTypes
  {
    if fileTypes == [] then ["documents"] else fileTypes
  }

  /** `_build_file_extensions`: the set grown category by category. */
  method BuildFileExtensions(fileTypes: seq<string>) returns (exts: set<string>)
    ensures forall e :: e in exts <==> exists c :: c in fileTypes && e in ExtensionsOf(c)
  {
    exts := {};
    if "documents" in fileTypes {
      exts := exts + DocumentExts;
    }
    if "images" in fileTypes {
      exts := exts + ImageExts;
    }
    if "archives" in fileTypes {
      exts := exts + ArchiveExts;
    }
    if "other" in fileTypes {
      exts := exts + OtherExts;
    }
    forall e | exists c :: c in fileTypes && e in ExtensionsOf(c)
      ensures e in exts
    {
      var c :| c in fileTypes && e in ExtensionsOf(c);
    }
  }

  /** The extensions recognised for a `file_types` list. */
  function RecognizedExtensions(fileTypes: seq<string>): set<string> {
    set c, e | c in fileTypes && e in ExtensionsOf(c) :: e
  }

  /** With no `file_types`, exactly the document extensions are recognised. */
  lemma DefaultRecognizesDocuments()
    ensures RecognizedExtensions(FileTypesOrDefault([])) == DocumentExts
  {
    assert FileTypesOrDefault([]) == ["documents"];
    forall e | e in DocumentExts
      ensures e in RecognizedExtensions(["documents"])
    {
      assert "documents" in ["documents"] && e in ExtensionsOf("documents");
    }
  }

  // ---------------------------------------------------------------------------
  // The spider's configuration
  // ---------------------------------------------------------------------------

  /** `allowed_domains`: the network locations of the non-empty start URLs. */
  function AllowedDomains(startUrls: seq<string>, lib: Library): (domains: set<string>)
    ensures forall d :: d in domains <==> exists u :: u in startUrls && u != "" && lib.split(u).netloc == d
  {
    set u | u in startUrls && u != "" :: lib.split(u).netloc
  }

  datatype Config = Config(
    keywords: map<string, string>,
    exclusions: map<string, string>,
    maxDepth: int,
    crawlStrategy: string,
    downloadScope: string,
    pathRestriction: string,
    savePageText: bool,
    saveHtml: bool,
    hasUpdater: bool,
    allowedDomains: set<string>,
    recognizedExts: set<string>)

  /** Where followed links may lead under a configuration. */
  function ScopeOf(c: Config): Scope {
    Scope(c.allowedDomains, c.pathRestriction == "base-path")
  }

  // ---------------------------------------------------------------------------
  // What parse yields
  // ---------------------------------------------------------------------------

  /** The page item: its URL, and its text and HTML when the configuration saves them. */
  function PageItem(c: Config, page: Page): Item {
    Item(page.url, if c.savePageText then Some(RawText(page)) else None, if c.saveHtml then Some(page.html) else None)
  }

  /** Links are followed below the depth bound, unless the strategy stops at pages without keywords. */
  predicate FollowsLinks(c: Config, hasKeywords: bool, depth: int) {
    !(c.crawlStrategy == "stop" && !hasKeywords) && depth < c.maxDepth
  }

  /**
   * A resolved link is downloaded when its lower-cased extension is recognised and, under
   * the same-domain scope, it is on the page's domain.
   */
  predicate MayDownload(c: Config, lib: Library, pageUrl: string, fileUrl: string) {
    && ToLower(Extension(lib.split(fileUrl).path)) in c.recognizedExts
    && (c.downloadScope == "same-domain" ==> lib.split(fileUrl).netloc == lib.split(pageUrl).netloc)
  }

  /** The file item the link resolving to `fileUrl` yields, if it is downloaded. */
  function FileOf(c: Config, lib: Library, pageUrl: string): string -> Option<Output> {
    link => var fileUrl := lib.join(pageUrl, link);
      if MayDownload(c, lib, pageUrl, fileUrl) then Some(Download(fileUrl)) else None
  }

  /** The file items the download loop yields over `links`, in order. */
  function Files(c: Config, lib: Library, pageUrl: string, links: seq<string>): seq<Output> {
    FilterMap(links, FileOf(c, lib, pageUrl))
  }

  /** Everything `parse` yields for a response at `depth`, in the order it yields it. */
  function Outputs(c: Config, lib: Library, page: Page, depth: int): seq<Output> {
    var text := lib.normalize(RawText(page));
    if Excluded(c.exclusions, text) then [] else Yields(c, lib, page, depth, KeywordsOn(c.keywords, text) != {})
  }

  /** What a page that is not excluded yields: its item, its follow requests, its file items. */
  function Yields(c: Config, lib: Library, page: Page, depth: int, hasKeywords: bool): seq<Output> {
    (if hasKeywords then [Scraped(PageItem(c, page))] else [])
    + (if FollowsLinks(c, hasKeywords, depth) then Follows(lib, ScopeOf(c), page.url, depth, page.links) else [])
    + (if hasKeywords then Files(c, lib, page.url, page.links) else [])
  }

  /** The download loop. */
  method FileRequests(c: Config, lib: Library, page: Page) returns (files: seq<Output>)
    ensures files == Files(c, lib, page.url, page.links)
  {
    files := [];
    var links := page.links;
    for i := 0 to |links|
      invariant files == Files(c, lib, page.url, links[..i])
    {
      assert links[..i + 1][..i] == links[..i];
      var fileUrl := lib.join(page.url, links[i]);
      var ext := ToLower(Extension(lib.split(fileUrl).path));
      if ext in c.recognizedExts {
        if c.downloadScope == "same-domain" && lib.split(fileUrl).netloc != lib.split(page.url).netloc {
          continue;
        }
        files := files + [Download(fileUrl)];
      }
    }
    assert links[..|links|] == links;
  }

  /** The body of `parse` after the root bookkeeping: the scans, then the yields in order. */
  method ParseOutputs(c: Config, lib: Library, page: Page, depth: int) returns (out: seq<Output>)
    ensures out == Outputs(c, lib, page, depth)
  {
    var raw := Join(page.texts, " ");
    var text := lib.normalize(raw);
    var excluded := ScanExclusions(c.exclusions, text);
    if excluded.Some? {
      return [];
    }
    var found, has := CollectKeywords(c.keywords, text);
    KeywordsOnPage(c.keywords, text, "");
    var head := [];
    if has {
      var item := Item(page.url, if c.savePageText then Some(raw) else None,
        if c.saveHtml then Some(page.html) else None);
      head := [Scraped(item)];
    }
    var requests := [];
    var shouldContinue := !(c.crawlStrategy == "stop" && !has);
    if shouldContinue && depth < c.maxDepth {
      requests := FollowRequests(lib, ScopeOf(c), page, depth);
    }
    var files := [];
    if has {
      files := FileRequests(c, lib, page);
    }
    out := head + requests + files;
    assert out == Yields(c, lib, page, depth, has);
  }

  // ---------------------------------------------------------------------------
  // The spider
  // ---------------------------------------------------------------------------

  class Spider {
    const config: Config
    const lib: Library
    /** `_processed_roots`: the URLs already seen at depth 0. */
    var processedRoots: set<string>

    /** `__init__`: an absent keyword or exclusion map is passed as an empty one. */
    constructor(startUrls: seq<string>, keywords: map<string, string>, exclusions: map<string, string>,
                maxDepth: int, crawlStrategy: string, fileTypes: seq<string>, downloadScope: string,
                pathRestriction: string, savePageText: bool, saveHtml: bool, hasUpdater: bool, lib: Library)
      ensures config == Config(keywords, exclusions, maxDepth, crawlStrategy, downloadScope, pathRestriction,
        savePageText, saveHtml, hasUpdater, AllowedDomains(startUrls, lib), RecognizedExtensions(FileTypesOrDefault(fileTypes)))
      ensures this.lib == lib && processedRoots == {}
    {
      var exts := BuildFileExtensions(FileTypesOrDefault(fileTypes));
      config := Config(keywords, exclusions, maxDepth, crawlStrategy, downloadScope, pathRestriction,
        savePageText, saveHtml, hasUpdater, AllowedDomains(startUrls, lib), exts);
      this.lib := lib;
      processedRoots := {};
    }

    /**
     * `parse(response, current_depth)`: records a new root at depth 0 (and the arguments
     * the status updater is called with), then yields the outputs of the page.
     */
    method Parse(page: Page, depth: int) returns (out: seq<Output>, updaterCall: Option<(nat, string)>)
      modifies this`processedRoots
      ensures processedRoots == (if depth == 0 then old(processedRoots) + {page.url} else old(processedRoots))
      ensures updaterCall == (if depth == 0 && page.url !in old(processedRoots) && config.hasUpdater
        then Some((|processedRoots|, page.url)) else None)
      ensures out == Outputs(config, lib, page, depth)
    {
      updaterCall := None;
      if depth == 0 && page.url !in processedRoots {
        processedRoots := processedRoots + {page.url};
        if config.hasUpdater {
          updaterCall := Some((|processedRoots|, page.url));
        }
      }
      out := ParseOutputs(config, lib, page, depth);
    }
  }

  // ---------------------------------------------------------------------------
  // Properties of parse
  // ---------------------------------------------------------------------------

  /** The file items are exactly one per downloadable link. */
  lemma FilesExactly(c: Config, lib: Library, pageUrl: string, links: seq<string>, o: Output)
    ensures o in Files(c, lib, pageUrl, links) <==>
      exists i :: 0 <= i < |links| && MayDownload(c, lib, pageUrl, lib.join(pageUrl, links[i]))
        && o == Download(lib.join(pageUrl, links[i]))
  {
    FilterMapMembers(links, FileOf(c, lib, pageUrl), o);
  }


  /** A page that contains an exclusion term yields nothing at all. */
  lemma ExcludedPageYieldsNothing(c: Config, lib: Library, page: Page, depth: int)
    requires exists k :: k in c.exclusions && Contains(lib.normalize(RawText(page)), k)
    ensures Outputs(c, lib, page, depth) == []
  {
  }

  /**
   * A page item is yielded exactly when the page is not excluded and some normalised
   * keyword occurs in its text; it is the first output, and carries the page's URL and,
   * as configured, its text and HTML.
   */
  lemma PageItemExactly(c: Config, lib: Library, page: Page, depth: int)
    ensures var out := Outputs(c, lib, page, depth);
      var text := lib.normalize(RawText(page));
      (exists i :: 0 <= i < |out| && out[i].Scraped?) <==>
        !Excluded(c.exclusions, text) && exists k :: k in c.keywords && Contains(text, k)
    ensures var out := Outputs(c, lib, page, depth);
      forall i :: 0 <= i < |out| && out[i].Scraped? ==> i == 0 && out[i].item == PageItem(c, page)
  {
    var out := Outputs(c, lib, page, depth);
    var text := lib.normalize(RawText(page));
    KeywordsOnPage(c.keywords, text, "");
    forall i | 0 <= i < |out| && out[i].Scraped?
      ensures i == 0 && out[i].item == PageItem(c, page)
      ensures !Excluded(c.exclusions, text) && KeywordsOn(c.keywords, text) != {}
    {
      OnlyFirstIsItem(c, lib, page, depth, i);
    }
    if !Excluded(c.exclusions, text) && KeywordsOn(c.keywords, text) != {} {
      assert out[0] == Scraped(PageItem(c, page));
    }
  }

  /** Only the first output can be the page item; every other is a follow request or a file item. */
  lemma OnlyFirstIsItem(c: Config, lib: Library, page: Page, depth: int, i: int)
    requires 0 <= i < |Outputs(c, lib, page, depth)|
    ensures var o := Outputs(c, lib, page, depth)[i];
      o.Scraped? ==> i == 0 && KeywordsOn(c.keywords, lib.normalize(RawText(page))) != {} && o.item == PageItem(c, page)
    ensures i > 0 ==> Outputs(c, lib, page, depth)[i].Follow? || Outputs(c, lib, page, depth)[i].Download?
  {
    var out := Outputs(c, lib, page, depth);
    var text := lib.normalize(RawText(page));
    var has := KeywordsOn(c.keywords, text) != {};
    var follows := if FollowsLinks(c, has, depth) then Follows(lib, ScopeOf(c), page.url, depth, page.links) else [];
    var files := if has then Files(c, lib, page.url, page.links) else [];
    var head := if has then [Scraped(PageItem(c, page))] else [];
    assert out == head + follows + files;
    if i >= |head| {
      var o := out[i];
      assert o in follows + files;
      if o in follows {
        FollowsWithinScope(lib, ScopeOf(c), page.url, depth, page.links, o);
      } else {
        FilesExactly(c, lib, page.url, page.links, o);
      }
    }
  }

  /**
   * A follow request is only yielded below the depth bound and, under the 'stop'
   * strategy, from a page with keywords; it goes one level deeper, to an allowed domain
   * and, under the base-path restriction, below the page's directory. So a crawl started
   * within the bound stays within it.
   */
  lemma FollowRequestsBounded(c: Config, lib: Library, page: Page, depth: int, o: Output)
    requires o in Outputs(c, lib, page, depth) && o.Follow?
    ensures depth < c.maxDepth && o.depth == depth + 1 && o.depth <= c.maxDepth
    ensures c.crawlStrategy == "stop" ==> KeywordsOn(c.keywords, lib.normalize(RawText(page))) != {}
    ensures lib.split(o.target).netloc in c.allowedDomains
    ensures c.pathRestriction == "base-path" ==>
      StartsWith(lib.split(o.target).path, DirName(lib.split(page.url).path))
  {
    var text := lib.normalize(RawText(page));
    var has := KeywordsOn(c.keywords, text) != {};
    var follows := if FollowsLinks(c, has, depth) then Follows(lib, ScopeOf(c), page.url, depth, page.links) else [];
    var files := if has then Files(c, lib, page.url, page.links) else [];
    if o in files {
      FilesExactly(c, lib, page.url, page.links, o);
    }
    assert o in follows;
    FollowsWithinScope(lib, ScopeOf(c), page.url, depth, page.links, o);
  }

  /**
   * A file item is only yielded from a page with keywords, for a link whose lower-cased
   * extension is recognised and, under the same-domain scope, on the page's domain.
   */
  lemma DownloadsNeedKeywords(c: Config, lib: Library, page: Page, depth: int, o: Output)
    requires o in Outputs(c, lib, page, depth) && o.Download?
    ensures KeywordsOn(c.keywords, lib.normalize(RawText(page))) != {}
    ensures ToLower(Extension(lib.split(o.fileUrl).path)) in c.recognizedExts
    ensures c.downloadScope == "same-domain" ==> lib.split(o.fileUrl).netloc == lib.split(page.url).netloc
  {
    var text := lib.normalize(RawText(page));
    var has := KeywordsOn(c.keywords, text) != {};
    var follows := if FollowsLinks(c, has, depth) then Follows(lib, ScopeOf(c), page.url, depth, page.links) else [];
    if o in follows {
      FollowsWithinScope(lib, ScopeOf(c), page.url, depth, page.links, o);
    }
    assert has && o in Files(c, lib, page.url, page.links);
    FilesExactly(c, lib, page.url, page.links, o);
  }
}
