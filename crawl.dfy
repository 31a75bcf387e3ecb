/**
 * What both spiders share: the response `parse` is handed, what it yields, the library
 * functions it calls, the exclusion and keyword scans over the normalised page text, and
 * the rule for which links are followed.
 */
module Crawl {
  import opened Wrappers
  import opened Text
  import opened PosixPath
  import opened Pipelines

  /** The two parts of `urlparse(u)` the spiders read. */
  datatype UrlParts = UrlParts(netloc: string, path: string)

  /** `normalize_text`, `urljoin` and `urlparse`, taken as given. */
  datatype Library = Library(
    normalize: string -> string,
    join: (string, string) -> string,
    split: string -> UrlParts)

  /**
   * A response: its URL, the text nodes under `body`, its HTML, the `href` of each anchor
   * in document order, and the first text node of the first anchor carrying each `href`.
   */
  datatype Page = Page(url: string, texts: seq<string>, html: string, links: seq<string>, linkText: map<string, string>)

  /** What `parse` yields. */
  datatype Output =
    | Scraped(item: Item)                  // a page item with an empty `file_urls`
    | Download(fileUrl: string)            // an item whose `file_urls` is `[fileUrl]`
    | Follow(target: string, depth: int)   // a request back into `parse` at `depth`

  /** `' '.join(response.css('body *::text').getall())`. */
  function RawText(page: Page): string {
    Join(page.texts, " ")
  }

  /** Some normalised exclusion term occurs in the normalised page text. */
  predicate Excluded(exclusions: map<string, string>, text: string) {
    exists k :: k in exclusions && Contains(text, k)
  }

  /** `keywords_on_page`: the original spelling of every normalised keyword found in the text. */
  function KeywordsOn(keywords: map<string, string>, text: string): set<string> {
    set k | k in keywords && Contains(text, k) :: keywords[k]
  }

  /**
   * The exclusion loop: the original spelling of a term found in the text (the one the
   * spider reports before returning), or None when no term occurs.
   */
  method ScanExclusions(exclusions: map<string, string>, text: string) returns (hit: Option<string>)
    ensures hit.Some? <==> Excluded(exclusions, text)
    ensures hit.Some? ==> exists k :: k in exclusions && Contains(text, k) && exclusions[k] == hit.value
  {
    var pending := exclusions.Keys;
    while pending != {}
      invariant pending <= exclusions.Keys
      invariant forall k :: k in exclusions && k !in pending ==> !Contains(text, k)
      decreases |pending|
    {
      var k :| k in pending;
      if Contains(text, k) {
        return Some(exclusions[k]);
      }
      pending := pending - {k};
    }
    return None;
  }

  /** The keyword loop: the set of original spellings found, and whether any was. */
  method CollectKeywords(keywords: map<string, string>, text: string) returns (found: set<string>, has: bool)
    ensures found == KeywordsOn(keywords, text)
    ensures has <==> exists k :: k in keywords && Contains(text, k)
  {
    found := {};
    has := false;
    var pending := keywords.Keys;
    while pending != {}
      invariant pending <= keywords.Keys
      invariant found == set k | k in keywords && k !in pending && Contains(text, k) :: keywords[k]
      invariant has <==> exists k :: k in keywords && k !in pending && Contains(text, k)
      decreases |pending|
    {
      var k :| k in pending;
      if Contains(text, k) {
        found := found + {keywords[k]};
        has := true;
      }
      pending := pending - {k};
    }
  }

  /**
   * The page has keywords exactly when some normalised keyword occurs in its text, and
   * what is found are the original spellings of those keywords.
   */
  lemma KeywordsOnPage(keywords: map<string, string>, text: string, v: string)
    ensures KeywordsOn(keywords, text) != {} <==> exists k :: k in keywords && Contains(text, k)
    ensures v in KeywordsOn(keywords, text) <==> exists k :: k in keywords && Contains(text, k) && keywords[k] == v
  {
    if exists k :: k in keywords && Contains(text, k) {
      var k :| k in keywords && Contains(text, k);
      assert keywords[k] in KeywordsOn(keywords, text);
    }
  }

  // ---------------------------------------------------------------------------
  // Following links
  // ---------------------------------------------------------------------------

  /** Where links may lead: the allowed domains, and whether the base directory also binds. */
  datatype Scope = Scope(allowedDomains: set<string>, basePathOnly: bool)

  /**
   * A resolved link is followed when its domain is allowed and, under the base-path
   * restriction, its path starts with `os.path.dirname` of the page's path.
   */
  predicate MayFollow(lib: Library, scope: Scope, pageUrl: string, target: string) {
    && lib.split(target).netloc in scope.allowedDomains
    && (scope.basePathOnly ==> StartsWith(lib.split(target).path, DirName(lib.split(pageUrl).path)))
  }

  /** The requests the link loop yields over `links`, in order. */
  function Follows(lib: Library, scope: Scope, pageUrl: string, depth: int, links: seq<string>): seq<Output> {
    if links == [] then []
    else
      var init := Follows(lib, scope, pageUrl, depth, links[..|links| - 1]);
      var target := lib.join(pageUrl, links[|links| - 1]);
      if MayFollow(lib, scope, pageUrl, target) then init + [Follow(target, depth + 1)] else init
  }

  /** The link loop that yields the follow requests. */
  method FollowRequests(lib: Library, scope: Scope, page: Page, depth: int) returns (requests: seq<Output>)
    ensures requests == Follows(lib, scope, page.url, depth, page.links)
  {
    requests := [];
    var links := page.links;
    for i := 0 to |links|
      invariant requests == Follows(lib, scope, page.url, depth, links[..i])
    {
      assert links[..i + 1][..i] == links[..i];
      var target := lib.join(page.url, links[i]);
      var parts := lib.split(target);
      if parts.netloc !in scope.allowedDomains {
        continue;
      }
      if scope.basePathOnly && !StartsWith(parts.path, DirName(lib.split(page.url).path)) {
        continue;
      }
      requests := requests + [Follow(target, depth + 1)];
    }
    assert links[..|links|] == links;
  }

  /** Link `i` leads to a target that may be followed. */
  predicate FollowsLink(lib: Library, scope: Scope, pageUrl: string, links: seq<string>, i: int)
    requires 0 <= i < |links|
  {
    MayFollow(lib, scope, pageUrl, lib.join(pageUrl, links[i]))
  }

  /**
   * The requests are exactly one per followable link: a request to its resolved target,
   * one level deeper.
   */
  lemma {:induction false} FollowsExactly(lib: Library, scope: Scope, pageUrl: string, depth: int, links: seq<string>, o: Output)
    ensures o in Follows(lib, scope, pageUrl, depth, links) <==>
      exists i :: 0 <= i < |links| && FollowsLink(lib, scope, pageUrl, links, i)
        && o == Follow(lib.join(pageUrl, links[i]), depth + 1)
  {
    if links != [] {
      var n := |links| - 1;
      var init := links[..n];
      FollowsExactly(lib, scope, pageUrl, depth, init, o);
      if o in Follows(lib, scope, pageUrl, depth, links) {
        if o !in Follows(lib, scope, pageUrl, depth, init) {
          assert FollowsLink(lib, scope, pageUrl, links, n);
        } else {
          var i :| 0 <= i < |init| && FollowsLink(lib, scope, pageUrl, init, i)
            && o == Follow(lib.join(pageUrl, init[i]), depth + 1);
          assert links[i] == init[i];
          assert FollowsLink(lib, scope, pageUrl, links, i);
        }
      } else {
        forall i | 0 <= i < |links| && FollowsLink(lib, scope, pageUrl, links, i)
          ensures o != Follow(lib.join(pageUrl, links[i]), depth + 1)
        {
          if i < n {
            assert links[i] == init[i];
            assert FollowsLink(lib, scope, pageUrl, init, i);
          }
        }
      }
    }
  }

  /** Every request is a follow one level deeper, to a target the scope allows. */
  lemma FollowsWithinScope(lib: Library, scope: Scope, pageUrl: string, depth: int, links: seq<string>, o: Output)
    requires o in Follows(lib, scope, pageUrl, depth, links)
    ensures o.Follow? && o.depth == depth + 1 && MayFollow(lib, scope, pageUrl, o.target)
  {
    FollowsExactly(lib, scope, pageUrl, depth, links, o);
  }
}
