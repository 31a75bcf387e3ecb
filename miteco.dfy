/**
 * The MITECO spider: the first, fixed-policy crawler. It always follows links below the
 * page's directory, always saves the page text, and downloads a document link when some
 * keyword occurs in the link's own text or anywhere on the page.
 *
 * The spider's logging is left out.
 */
module Miteco {
  import opened Wrappers
  import opened Text
  import opened PosixPath
  import opened Pipelines
  import opened Crawl
  import GenericSpider
  import opened Seqs

  /** The spider's configuration; it never changes after `__init__`. */
  datatype Spider = Spider(
    keywords: map<string, string>,
    exclusions: map<string, string>,
    maxDepth: int,
    allowedDomains: set<string>)

  /** `__init__`: `allowed_domains` from the non-empty start URLs; absent maps are passed as empty ones. */
  function NewSpider(startUrls: seq<string>, keywords: map<string, string>, exclusions: map<string, string>,
                     maxDepth: int, lib: Library): (s: Spider)
    ensures s.keywords == keywords && s.exclusions == exclusions && s.maxDepth == maxDepth
    ensures forall d :: d in s.allowedDomains <==> exists u :: u in startUrls && u != "" && lib.split(u).netloc == d
  {
    Spider(keywords, exclusions, maxDepth, GenericSpider.AllowedDomains(startUrls, lib))
  }

  /** The extensions this spider downloads: the office documents, the same set as the generic spider's "documents". */
  const RecognizedExts: set<string> := GenericSpider.DocumentExts

  /** The page item: the page's URL and its text, always; this spider sets no HTML. */
  function PageItem(page: Page): Item {
    Item(page.url, Some(RawText(page)), None)
  }

  /** `response.xpath(...).get() or ''`: the anchor's text, or empty when there is none. */
  function LinkTextOf(page: Page, link: string): string {
    if link in page.linkText then page.linkText[link] else ""
  }

  /** Some normalised keyword occurs in the normalised link text or in the normalised page text. */
  predicate LinkMatches(keywords: map<string, string>, linkText: string, pageText: string) {
    exists k :: k in keywords && (Contains(linkText, k) || Contains(pageText, k))
  }

  /** The link's resolved path has a document extension, so the download loop looks up its text. */
  predicate IsDocumentLink(lib: Library, page: Page, link: string) {
    ToLower(Extension(lib.split(lib.join(page.url, link)).path)) in RecognizedExts
  }

  /**
   * The text lookup `//a[@href="<link>"]//text()` is taken to fail when the link holds a
   * double quote, which ends the string literal early: `response.xpath` then raises, and
   * `parse` stops there. This over-approximates: a quoted link that still forms a valid
   * expression, such as `a"or"b.pdf`, does not raise.
   */
  predicate QueryFails(lib: Library, page: Page, link: string) {
    IsDocumentLink(lib, page, link) && '"' in link
  }

  /** The position of the first link from `i` on whose text lookup fails, or the number of links when none does. */
  function FirstFailureFrom(lib: Library, page: Page, links: seq<string>, i: nat): (n: nat)
    requires i <= |links|
    ensures i <= n <= |links|
    ensures forall j :: i <= j < n ==> !QueryFails(lib, page, links[j])
    ensures n < |links| ==> QueryFails(lib, page, links[n])
    decreases |links| - i
  {
    if i == |links| || QueryFails(lib, page, links[i]) then i
    else FirstFailureFrom(lib, page, links, i + 1)
  }

  /** The position of the first link whose text lookup fails, or the number of links when none does. */
  function FirstFailure(lib: Library, page: Page, links: seq<string>): (n: nat)
    ensures n <= |links|
    ensures forall j :: 0 <= j < n ==> !QueryFails(lib, page, links[j])
    ensures n < |links| ==> QueryFails(lib, page, links[n])
  {
    FirstFailureFrom(lib, page, links, 0)
  }

  /** Where the scan stands relative to the first failing lookup, once link `i` has been looked at. */
  lemma FirstFailureAt(lib: Library, page: Page, links: seq<string>, i: int)
    requires 0 <= i < |links| && i <= FirstFailure(lib, page, links)
    ensures QueryFails(lib, page, links[i]) ==> i == FirstFailure(lib, page, links)
    ensures !QueryFails(lib, page, links[i]) ==> i + 1 <= FirstFailure(lib, page, links)
  {
  }

  /** The links the download loop gets through before a failing lookup ends `parse`. */
  function Reached(lib: Library, page: Page): seq<string> {
    page.links[..FirstFailure(lib, page, page.links)]
  }

  /** `parse` raises: the page is not excluded and one of its document links holds a double quote. */
  predicate Raises(s: Spider, lib: Library, page: Page) {
    !Excluded(s.exclusions, lib.normalize(RawText(page))) && FirstFailure(lib, page, page.links) < |page.links|
  }

  /** A link is downloaded when its resolved path has a document extension and a keyword matches. */
  predicate MayDownload(s: Spider, lib: Library, page: Page, pageText: string, link: string) {
    && IsDocumentLink(lib, page, link)
    && LinkMatches(s.keywords, lib.normalize(LinkTextOf(page, link)), pageText)
  }

  /** The file item a link yields, if it is downloaded. */
  function DownloadOf(s: Spider, lib: Library, page: Page, pageText: string): string -> Option<Output> {
    link => if MayDownload(s, lib, page, pageText, link) then Some(Download(lib.join(page.url, link))) else None
  }

  /** The file items the download loop yields over `links`, in order. */
  function Downloads(s: Spider, lib: Library, page: Page, pageText: string, links: seq<string>): seq<Output> {
    FilterMap(links, DownloadOf(s, lib, page, pageText))
  }

  /** Where this spider's links may lead: the allowed domains, always below the page's directory. */
  function ScopeOf(s: Spider): Scope {
    Scope(s.allowedDomains, true)
  }

  /**
   * What a page that is not excluded yields: its item, its follow requests, and the file
   * items of the links reached before a failing text lookup.
   */
  function Yields(s: Spider, lib: Library, page: Page, depth: int, pageText: string): seq<Output> {
    (if KeywordsOn(s.keywords, pageText) != {} then [Scraped(PageItem(page))] else [])
    + (if depth < s.maxDepth then Follows(lib, ScopeOf(s), page.url, depth, page.links) else [])
    + Downloads(s, lib, page, pageText, Reached(lib, page))
  }

  /** Everything `parse` yields for a response at `depth`, in the order it yields it, up to an exception. */
  function Outputs(s: Spider, lib: Library, page: Page, depth: int): seq<Output> {
    var text := lib.normalize(RawText(page));
    if Excluded(s.exclusions, text) then [] else Yields(s, lib, page, depth, text)
  }

  /** The `should_download` loop, which stops at the first matching keyword. */
  method ShouldDownload(keywords: map<string, string>, linkText: string, pageText: string) returns (download: bool)
    ensures download <==> LinkMatches(keywords, linkText, pageText)
  {
    download := false;
    var pending := keywords.Keys;
    while pending != {}
      invariant pending <= keywords.Keys
      invariant forall k :: k in keywords && k !in pending ==> !Contains(linkText, k) && !Contains(pageText, k)
      decreases |pending|
    {
      var k :| k in pending;
      if Contains(linkText, k) || Contains(pageText, k) {
        download := true;
        break;
      }
      pending := pending - {k};
    }
  }

  /**
   * The download loop: the file items yielded, and whether a document link's text lookup
   * raised and ended it.
   */
  method DownloadRequests(s: Spider, lib: Library, page: Page, pageText: string) returns (files: seq<Output>, raised: bool)
    ensures files == Downloads(s, lib, page, pageText, Reached(lib, page))
    ensures raised <==> FirstFailure(lib, page, page.links) < |page.links|
  {
    files := [];
    var links := page.links;
    var i := 0;
    while i < |links|
      invariant i <= FirstFailure(lib, page, links)
      invariant files == Downloads(s, lib, page, pageText, links[..i])
    {
      assert links[..i + 1][..i] == links[..i];
      FirstFailureAt(lib, page, links, i);
      var fileUrl := lib.join(page.url, links[i]);
      var ext := ToLower(Extension(lib.split(fileUrl).path));
      if ext in RecognizedExts {
        if '"' in links[i] {
          assert QueryFails(lib, page, links[i]);
          assert Reached(lib, page) == links[..i];
          return files, true;
        }
        var linkText := lib.normalize(LinkTextOf(page, links[i]));
        var download := ShouldDownload(s.keywords, linkText, pageText);
        if download {
          files := files + [Download(fileUrl)];
        }
      }
      i := i + 1;
    }
    assert Reached(lib, page) == links[..|links|] == links;
    return files, false;
  }

  /** `parse(response, current_depth)`: the outputs, and whether it ended with an exception. */
  method Parse(s: Spider, lib: Library, page: Page, depth: int) returns (out: seq<Output>, raised: bool)
    ensures out == Outputs(s, lib, page, depth)
    ensures raised <==> Raises(s, lib, page)
  {
    var raw := Join(page.texts, " ");
    var text := lib.normalize(raw);
    var excluded := ScanExclusions(s.exclusions, text);
    if excluded.Some? {
      return [], false;
    }
    var found, has := CollectKeywords(s.keywords, text);
    var head := [];
    if found != {} {
      head := [Scraped(Item(page.url, Some(raw), None))];
    }
    var requests := [];
    if depth < s.maxDepth {
      requests := FollowRequests(lib, ScopeOf(s), page, depth);
    }
    var files;
    files, raised := DownloadRequests(s, lib, page, text);
    out := head + requests + files;
    assert out == Yields(s, lib, page, depth, text);
  }

  // ---------------------------------------------------------------------------
  // Properties of parse
  // ---------------------------------------------------------------------------

  /** Link `i` is downloaded. */
  predicate DownloadsLink(s: Spider, lib: Library, page: Page, pageText: string, links: seq<string>, i: int)
    requires 0 <= i < |links|
  {
    MayDownload(s, lib, page, pageText, links[i])
  }

  /** The file items are exactly one per downloadable link. */
  lemma DownloadsExactly(s: Spider, lib: Library, page: Page, pageText: string, links: seq<string>, o: Output)
    ensures o in Downloads(s, lib, page, pageText, links) <==>
      exists i :: 0 <= i < |links| && DownloadsLink(s, lib, page, pageText, links, i)
        && o == Download(lib.join(page.url, links[i]))
  {
    FilterMapMembers(links, DownloadOf(s, lib, page, pageText), o);
  }


  /** A page that contains an exclusion term yields nothing at all. */
  lemma ExcludedPageYieldsNothing(s: Spider, lib: Library, page: Page, depth: int)
    requires exists k :: k in s.exclusions && Contains(lib.normalize(RawText(page)), k)
    ensures Outputs(s, lib, page, depth) == []
  {
  }

  /** Only the first output can be the page item; every other is a follow request or a file item. */
  lemma OnlyFirstIsItem(s: Spider, lib: Library, page: Page, depth: int, i: int)
    requires 0 <= i < |Outputs(s, lib, page, depth)|
    ensures var o := Outputs(s, lib, page, depth)[i];
      o.Scraped? ==> i == 0 && KeywordsOn(s.keywords, lib.normalize(RawText(page))) != {} && o.item == PageItem(page)
    ensures i > 0 ==> Outputs(s, lib, page, depth)[i].Follow? || Outputs(s, lib, page, depth)[i].Download?
  {
    var out := Outputs(s, lib, page, depth);
    var text := lib.normalize(RawText(page));
    var has := KeywordsOn(s.keywords, text) != {};
    var follows := if depth < s.maxDepth then Follows(lib, ScopeOf(s), page.url, depth, page.links) else [];
    var files := Downloads(s, lib, page, text, Reached(lib, page));
    var head := if has then [Scraped(PageItem(page))] else [];
    assert out == head + follows + files;
    if i >= |head| {
      var o := out[i];
      assert o in follows + files;
      if o in follows {
        FollowsWithinScope(lib, ScopeOf(s), page.url, depth, page.links, o);
      } else {
        DownloadsExactly(s, lib, page, text, Reached(lib, page), o);
      }
    }
  }

  /**
   * A page item is yielded exactly when the page is not excluded and some normalised
   * keyword occurs in its text; it comes first and carries the page's URL and raw text.
   */
  lemma PageItemExactly(s: Spider, lib: Library, page: Page, depth: int)
    ensures var out := Outputs(s, lib, page, depth);
      var text := lib.normalize(RawText(page));
      (exists i :: 0 <= i < |out| && out[i].Scraped?) <==>
        !Excluded(s.exclusions, text) && exists k :: k in s.keywords && Contains(text, k)
    ensures var out := Outputs(s, lib, page, depth);
      forall i :: 0 <= i < |out| && out[i].Scraped? ==>
        i == 0 && out[i].item.url == page.url && out[i].item.text == Some(RawText(page))
  {
    var out := Outputs(s, lib, page, depth);
    var text := lib.normalize(RawText(page));
    KeywordsOnPage(s.keywords, text, "");
    forall i | 0 <= i < |out| && out[i].Scraped?
      ensures i == 0 && out[i].item == PageItem(page)
      ensures !Excluded(s.exclusions, text) && KeywordsOn(s.keywords, text) != {}
    {
      OnlyFirstIsItem(s, lib, page, depth, i);
    }
    if !Excluded(s.exclusions, text) && KeywordsOn(s.keywords, text) != {} {
      assert out[0] == Scraped(PageItem(page));
    }
  }

  /**
   * A follow request is only yielded below the depth bound; it goes one level deeper, to
   * an allowed domain, below the page's directory.
   */
  lemma FollowRequestsBounded(s: Spider, lib: Library, page: Page, depth: int, o: Output)
    requires o in Outputs(s, lib, page, depth) && o.Follow?
    ensures depth < s.maxDepth && o.depth == depth + 1 && o.depth <= s.maxDepth
    ensures lib.split(o.target).netloc in s.allowedDomains
    ensures StartsWith(lib.split(o.target).path, DirName(lib.split(page.url).path))
  {
    var text := lib.normalize(RawText(page));
    var follows := if depth < s.maxDepth then Follows(lib, ScopeOf(s), page.url, depth, page.links) else [];
    var files := Downloads(s, lib, page, text, Reached(lib, page));
    if o in files {
      DownloadsExactly(s, lib, page, text, Reached(lib, page), o);
    }
    assert o in follows;
    FollowsWithinScope(lib, ScopeOf(s), page.url, depth, page.links, o);
  }

  /**
   * A file item is only yielded for a link before any failing text lookup, with a document
   * extension, when some keyword occurs in the link's text or in the page's text.
   */
  lemma DownloadsNeedKeywords(s: Spider, lib: Library, page: Page, depth: int, o: Output)
    requires o in Outputs(s, lib, page, depth) && o.Download?
    ensures exists i :: (0 <= i < FirstFailure(lib, page, page.links) && o.fileUrl == lib.join(page.url, page.links[i])
      && ToLower(Extension(lib.split(o.fileUrl).path)) in RecognizedExts
      && LinkMatches(s.keywords, lib.normalize(LinkTextOf(page, page.links[i])), lib.normalize(RawText(page))))
  {
    var text := lib.normalize(RawText(page));
    var reached := Reached(lib, page);
    var follows := if depth < s.maxDepth then Follows(lib, ScopeOf(s), page.url, depth, page.links) else [];
    if o in follows {
      FollowsWithinScope(lib, ScopeOf(s), page.url, depth, page.links, o);
    }
    assert o in Downloads(s, lib, page, text, reached);
    DownloadsExactly(s, lib, page, text, reached, o);
    var i :| 0 <= i < |reached| && DownloadsLink(s, lib, page, text, reached, i)
      && o == Download(lib.join(page.url, reached[i]));
    assert reached[i] == page.links[i];
  }

  /**
   * A document link holding a double quote on a page that is not excluded makes `parse`
   * raise, and no link from it on is reached.
   */
  lemma QuotedDocumentLinkRaises(s: Spider, lib: Library, page: Page, i: int)
    requires 0 <= i < |page.links| && IsDocumentLink(lib, page, page.links[i]) && '"' in page.links[i]
    requires !Excluded(s.exclusions, lib.normalize(RawText(page)))
    ensures Raises(s, lib, page) && |Reached(lib, page)| <= i
  {
    assert QueryFails(lib, page, page.links[i]);
  }

  /** With no keywords at all nothing is ever downloaded. */
  lemma NoKeywordsNoDownloads(s: Spider, lib: Library, page: Page, depth: int, o: Output)
    requires s.keywords == map[]
    ensures o in Outputs(s, lib, page, depth) ==> !o.Download?
  {
    if o in Outputs(s, lib, page, depth) && o.Download? {
      DownloadsNeedKeywords(s, lib, page, depth, o);
    }
  }

  /**
   * On a page that is not excluded and has keywords, every link with a document extension
   * reached before a failing text lookup is downloaded, whatever its own text.
   */
  lemma KeywordPageDownloadsEveryDocument(s: Spider, lib: Library, page: Page, depth: int, i: int)
    requires 0 <= i < FirstFailure(lib, page, page.links)
    requires !Excluded(s.exclusions, lib.normalize(RawText(page)))
    requires exists k :: k in s.keywords && Contains(lib.normalize(RawText(page)), k)
    requires ToLower(Extension(lib.split(lib.join(page.url, page.links[i])).path)) in RecognizedExts
    ensures Download(lib.join(page.url, page.links[i])) in Outputs(s, lib, page, depth)
  {
    var text := lib.normalize(RawText(page));
    var reached := Reached(lib, page);
    assert reached[i] == page.links[i];
    assert DownloadsLink(s, lib, page, text, reached, i);
    DownloadsExactly(s, lib, page, text, reached, Download(lib.join(page.url, page.links[i])));
  }
}
