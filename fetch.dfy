/** The two extraction tiers and the router between them (`fetch_content_local`,
    `fetch_content_jina`, `fetch_url_smart`). The HTTP requests and the HTML libraries are
    replaced by what they return: a `LocalPage` for a direct fetch, an `HttpResponse` for the
    remote reader, with `None` for a request or a parse that raised. */
module Fetch {
  import opened Wrappers
  import opened Text
  import opened Slices

  /** A phrase the remote reader sometimes puts into its pages; it is removed before cleaning. */
  const Boilerplate: string := "Input the URL to scrape another page."

  /** What the local tier learns from one direct fetch of an article URL. */
  datatype LocalPage = LocalPage(
    status: int,                // HTTP status code of the response
    extracted: Option<string>,  // what the rich-text extractor returns for the body
    article: Option<string>,    // text of the first `<article>` element once the script, style, nav,
                                // footer, header, iframe and aside tags are removed, its text
                                // nodes joined by '\n'
    paragraphs: seq<string>)    // text of every `<p>` element after those tags are removed,
                                // in document order

  /** The remote reader's reply: its status code and its body as text. */
  datatype HttpResponse = HttpResponse(status: int, text: string)

  /** The network as the pipeline sees it: one outcome per URL for each tier, and whether
      the rich-text extractor is installed. */
  datatype Web = Web(
    local: string -> Option<LocalPage>,
    remote: string -> Option<HttpResponse>,
    hasExtractor: bool)

  /** The paragraphs longer than 20 characters, in order. */
  function LongParagraphs(ps: seq<string>): (r: seq<string>)
    ensures forall p :: p in r ==> p in ps && |p| > 20
    ensures forall p :: p in ps && |p| > 20 ==> p in r
  {
    if ps == [] then []
    else (if |ps[0]| > 20 then [ps[0]] else []) + LongParagraphs(ps[1..])
  }

  /** The paragraph fallback of the local tier (app/RSS.py:47-49). */
  function ParagraphText(ps: seq<string>): string {
    CleanText(Join(LongParagraphs(ps)))
  }

  /** `fetch_content_local` over the outcome of its request (app/RSS.py:30-52). */
  function FetchLocal(page: Option<LocalPage>, hasExtractor: bool): Option<string> {
    match page
    case None => None
    case Some(p) =>
      if p.status != 200 then None
      else if hasExtractor && p.extracted.Some? && p.extracted.value != "" then
        Some(CleanText(p.extracted.value))
      else if p.article.Some? then Some(CleanText(p.article.value))
      else Some(ParagraphText(p.paragraphs))
  }

  /** `s.replace(pat, "")`: removes the non-overlapping occurrences of `pat` found scanning
      left to right. */
  function RemoveAll(s: string, pat: string): (r: string)
    requires pat != ""
    ensures |r| <= |s|
    decreases |s|
  {
    if |s| < |pat| then s
    else if s[..|pat|] == pat then RemoveAll(s[|pat|..], pat)
    else [s[0]] + RemoveAll(s[1..], pat)
  }

  /** `fetch_content_jina` over the outcome of its request (app/RSS.py:54-64). */
  function FetchRemote(resp: Option<HttpResponse>): Option<string> {
    match resp
    case None => None
    case Some(r) =>
      if r.status == 200 && |r.text| > 100 then Some(CleanText(RemoveAll(r.text, Boilerplate)))
      else None
  }

  /** The routing decision of `fetch_url_smart` (app/RSS.py:68-71): the local result wins only
      when it is non-empty and longer than 100 characters. */
  function Route(local: Option<string>, remote: Option<string>): Option<string> {
    if local.Some? && local.value != "" && |local.value| > 100 then local else remote
  }

  /** `fetch_url_smart(url)` (app/RSS.py:66-71). */
  function FetchUrlSmart(web: Web, url: string): Option<string> {
    Route(FetchLocal(web.local(url), web.hasExtractor), FetchRemote(web.remote(url)))
  }

  // ---------------------------------------------------------------------------
  // properties

  /** `pat` occurs in `s` starting at position `i`. */
  predicate OccursAt(s: string, pat: string, i: nat) {
    i + |pat| <= |s| && s[i..i + |pat|] == pat
  }

  /** A text in which `pat` does not occur is left alone by `RemoveAll`. */
  lemma {:induction false} RemoveAllAbsent(s: string, pat: string)
    requires pat != ""
    requires forall i: nat :: !OccursAt(s, pat, i)
    ensures RemoveAll(s, pat) == s
    decreases |s|
  {
    if |s| >= |pat| {
      assert !OccursAt(s, pat, 0);
      assert s[0..|pat|] == s[..|pat|];
      forall i: nat ensures !OccursAt(s[1..], pat, i) {
        if i + |pat| <= |s[1..]| {
          assert s[1..][i..i + |pat|] == s[i + 1..i + 1 + |pat|];
          assert !OccursAt(s, pat, i + 1);
        }
      }
      RemoveAllAbsent(s[1..], pat);
      assert [s[0]] + s[1..] == s;
    }
  }

  /** The filter works entry by entry: filtering a concatenation is concatenating the
      filtered parts, so the kept paragraphs keep their order and multiplicity. */
  lemma {:induction false} LongParagraphsAppend(a: seq<string>, b: seq<string>)
    ensures LongParagraphs(a + b) == LongParagraphs(a) + LongParagraphs(b)
    decreases |a|
  {
    if a == [] {
      assert a + b == b;
    } else {
      assert (a + b)[0] == a[0];
      assert (a + b)[1..] == a[1..] + b;
      LongParagraphsAppend(a[1..], b);
      ConcatAssoc(if |a[0]| > 20 then [a[0]] else [], LongParagraphs(a[1..]), LongParagraphs(b));
    }
  }

  /** One paragraph is kept exactly when it is longer than 20 characters. */
  lemma LongParagraphsSingle(p: string)
    ensures LongParagraphs([p]) == (if |p| > 20 then [p] else [])
  {
    assert [p][1..] == [];
  }

  /** The first occurrence of `pat` is removed: when `pat` does not occur in `a + pat + b`
      at any position inside `a`, the scan keeps `a` and drops that `pat`. With
      `RemoveAllAbsent` this pins the left-to-right, non-overlapping removal. */
  lemma {:induction false} RemoveAllFirst(a: string, pat: string, b: string)
    requires pat != ""
    requires forall i: nat :: i < |a| ==> !OccursAt(a + pat + b, pat, i)
    ensures RemoveAll(a + pat + b, pat) == a + RemoveAll(b, pat)
    decreases |a|
  {
    var s := a + pat + b;
    if a == [] {
      assert s == pat + b;
      assert s[..|pat|] == pat;
      assert s[|pat|..] == b;
    } else {
      var s' := a[1..] + pat + b;
      assert s == [a[0]] + s';
      assert !OccursAt(s, pat, 0);
      RemoveAllKeepHead(s, pat);
      forall i: nat | i < |a[1..]| ensures !OccursAt(s', pat, i) {
        assert !OccursAt(s, pat, i + 1);
        OccursAtTail(s, pat, i);
        assert s[1..] == s';
      }
      RemoveAllFirst(a[1..], pat, b);
      assert [a[0]] + a[1..] == a;
    }
  }

  /** A text long enough for `pat` that does not start with it keeps its first character. */
  lemma RemoveAllKeepHead(s: string, pat: string)
    requires pat != "" && |s| > |pat| && !OccursAt(s, pat, 0)
    ensures RemoveAll(s, pat) == [s[0]] + RemoveAll(s[1..], pat)
  {
    assert s[0..|pat|] == s[..|pat|];
  }

  /** No occurrence at position `i + 1` of the text means none at position `i` of its tail. */
  lemma OccursAtTail(s: string, pat: string, i: nat)
    requires s != [] && !OccursAt(s, pat, i + 1)
    ensures !OccursAt(s[1..], pat, i)
  {
    if i + |pat| <= |s[1..]| {
      assert s[1..][i..i + |pat|] == s[i + 1..i + 1 + |pat|];
    }
  }

  /** The local tier fails exactly when it raised (the request, the extractor or the HTML parser,
      all modelled by `page == None`) or the status is not 200; what it returns is always a
      fixed point of `clean_text`. */
  lemma FetchLocalOutcome(page: Option<LocalPage>, hasExtractor: bool)
    ensures FetchLocal(page, hasExtractor).None? <==> page.None? || page.value.status != 200
    ensures FetchLocal(page, hasExtractor).Some? ==>
              CleanText(FetchLocal(page, hasExtractor).value) == FetchLocal(page, hasExtractor).value
  {
    match page
    case None =>
    case Some(p) =>
      if p.status == 200 {
        if hasExtractor && p.extracted.Some? && p.extracted.value != "" {
          CleanTextIdempotent(p.extracted.value);
        } else if p.article.Some? {
          CleanTextIdempotent(p.article.value);
        } else {
          CleanTextIdempotent(Join(LongParagraphs(p.paragraphs)));
        }
      }
  }

  /** The extractor's text is used only when it is installed and returns a non-empty text;
      otherwise the page's `<article>` wins over its paragraphs. */
  lemma FetchLocalTiers(p: LocalPage, hasExtractor: bool)
    requires p.status == 200
    ensures hasExtractor && p.extracted.Some? && p.extracted.value != "" ==>
              FetchLocal(Some(p), hasExtractor) == Some(CleanText(p.extracted.value))
    ensures !(hasExtractor && p.extracted.Some? && p.extracted.value != "") && p.article.Some? ==>
              FetchLocal(Some(p), hasExtractor) == Some(CleanText(p.article.value))
    ensures !(hasExtractor && p.extracted.Some? && p.extracted.value != "") && p.article.None? ==>
              FetchLocal(Some(p), hasExtractor) == Some(ParagraphText(p.paragraphs))
  {
  }

  /** A page with no paragraph longer than 20 characters yields no paragraph text. */
  lemma ParagraphTextAllShort(ps: seq<string>)
    requires forall p :: p in ps ==> |p| <= 20
    ensures ParagraphText(ps) == ""
  {
  }

  /** Paragraphs that are already clean lines come out as the long ones joined by '\n'. */
  lemma ParagraphTextOfCleanLines(ps: seq<string>)
    requires forall p :: p in ps ==> CleanLine(p)
    ensures ParagraphText(ps) == Join(LongParagraphs(ps))
  {
    var long := LongParagraphs(ps);
    if long != [] {
      assert long[0] in long;
      JoinNonEmpty(long);
      SplitJoin(long);
      CleanLinesFixed(long);
    }
  }

  /** The remote tier yields a text exactly on status 200 with a raw body longer than 100
      characters (checked before cleaning); the text is clean and no longer than the body. */
  lemma FetchRemoteOutcome(resp: Option<HttpResponse>)
    ensures FetchRemote(resp).Some? <==> resp.Some? && resp.value.status == 200 && |resp.value.text| > 100
    ensures FetchRemote(resp).Some? ==>
              CleanText(FetchRemote(resp).value) == FetchRemote(resp).value
              && |FetchRemote(resp).value| <= |resp.value.text|
  {
    if resp.Some? && resp.value.status == 200 && |resp.value.text| > 100 {
      var stripped := RemoveAll(resp.value.text, Boilerplate);
      CleanTextIdempotent(stripped);
      CleanTextShorter(stripped);
    }
  }

  /** The router keeps the local result exactly when it is longer than 100 characters, and
      otherwise hands back the remote result unchanged. The source's separate test that the
      local text is non-empty (app/RSS.py:69) is implied by the length test, so it never
      decides the route. */
  lemma RouteChoice(local: Option<string>, remote: Option<string>)
    ensures local.Some? && |local.value| > 100 ==> Route(local, remote) == local
    ensures !(local.Some? && |local.value| > 100) ==> Route(local, remote) == remote
  {
  }

  /** `fetch_url_smart` fails only when the local text is missing or at most 100 characters
      long and the remote tier fails too; any text it returns is clean. */
  lemma FetchUrlSmartOutcome(web: Web, url: string)
    ensures FetchUrlSmart(web, url).None? <==>
              (FetchLocal(web.local(url), web.hasExtractor).None?
               || |FetchLocal(web.local(url), web.hasExtractor).value| <= 100)
              && FetchRemote(web.remote(url)).None?
    ensures FetchUrlSmart(web, url).Some? ==>
              CleanText(FetchUrlSmart(web, url).value) == FetchUrlSmart(web, url).value
  {
    FetchLocalOutcome(web.local(url), web.hasExtractor);
    FetchRemoteOutcome(web.remote(url));
  }
}
