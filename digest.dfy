/** Content collection and digest assembly of `fetch_rss_content` (app/RSS.py:73-168):
    one fetch per selected entry, collected in whatever order the fetches complete, then one
    rendered block per entry in feed order. */
module Digest {
  import opened Wrappers
  import opened Slices
  import opened Fetch
  import opened Selection

  const EmptyFeedText: string := "RSS源为空或无法访问。"
  const SystemErrorPrefix: string := "系统错误: "
  const FailureMarker: string := "[抓取失败] 摘要: "
  const Ellipsis: string := "..."
  /** The summary is cut to this many characters only when markup stripping fails. */
  const SummaryCut: nat := 200

  /** One block of the digest. */
  datatype DigestLine = DigestLine(index: nat, title: string, link: string, published: string, body: string)

  /** What `fetch_rss_content` returns: a digest, the empty-feed sentinel, or the system error
      raised when a selected entry has no `link` (attribute access at app/RSS.py:136). */
  datatype Report = Rendered(text: string) | EmptyFeed | MissingLink

  // ---------------------------------------------------------------------------
  // collection

  /** `order` lists every index below `n` exactly once: the order in which the fetches for
      the `n` selected entries complete. */
  predicate IsCompletionOrder(order: seq<nat>, n: nat) {
    && |order| == n
    && (forall k :: 0 <= k < n ==> order[k] < n)
    && (forall k, l :: 0 <= k < l < n ==> order[k] != order[l])
  }

  /** The indices below `n`. */
  function Range(n: nat): (r: set<nat>)
    ensures forall i: nat :: i in r <==> i < n
    decreases n
  {
    if n == 0 then {} else Range(n - 1) + {n - 1}
  }

  predicate AllLinked(targets: seq<Entry>) {
    forall i :: 0 <= i < |targets| ==> targets[i].link.Some?
  }

  /** The slot of every selected entry holds the outcome of fetching its link. */
  function ResultsMap(targets: seq<Entry>, web: Web): (m: map<nat, Option<string>>)
    requires AllLinked(targets)
    ensures m.Keys == Range(|targets|)
  {
    map i: nat | i < |targets| :: FetchUrlSmart(web, targets[i].link.value)
  }

  /** The `as_completed` loop (app/RSS.py:133-142): each completion writes its own slot. */
  method CollectResults(targets: seq<Entry>, order: seq<nat>, web: Web)
    returns (results: map<nat, Option<string>>)
    requires AllLinked(targets)
    requires IsCompletionOrder(order, |targets|)
    ensures results == ResultsMap(targets, web)
  {
    results := map[];
    var j := 0;
    while j < |order|
      invariant 0 <= j <= |order|
      invariant results.Keys == set k | 0 <= k < j :: order[k]
      invariant forall i :: i in results ==> i < |targets| && results[i] == FetchUrlSmart(web, targets[i].link.value)
    {
      var idx := order[j];
      assert idx !in results;  // no slot is written twice
      results := results[idx := FetchUrlSmart(web, targets[idx].link.value)];
      j := j + 1;
    }
    CompletionCoversAll(order, |targets|);
  }

  // ---------------------------------------------------------------------------
  // rendering

  /** `results_map.get(i)`. */
  function Lookup(results: map<nat, Option<string>>, i: nat): Option<string> {
    if i in results then results[i] else None
  }

  /** Python truthiness of a fetch outcome: `None` and `""` are both failures. */
  predicate Succeeded(content: Option<string>) {
    content.Some? && content.value != ""
  }

  /** `entry.get('summary', '') or entry.get('description', '')`. */
  function Description(e: Entry): string {
    if e.summary.Some? && e.summary.value != "" then e.summary.value else e.description.GetOr("")
  }

  /** The summary with its markup stripped; `stripMarkup` returns `None` when the HTML parser
      raises, and only then is the raw summary cut to 200 characters (app/RSS.py:154-155). */
  function CleanDescription(desc: string, stripMarkup: string -> Option<string>): string {
    match stripMarkup(desc)
    case Some(t) => t
    case None => Take(desc, SummaryCut)
  }

  /** The body of one block (app/RSS.py:152-160). */
  function Body(e: Entry, content: Option<string>, maxLength: int, stripMarkup: string -> Option<string>): string {
    if !Succeeded(content) then FailureMarker + CleanDescription(Description(e), stripMarkup)
    else if |content.value| > maxLength then Take(content.value, maxLength) + Ellipsis
    else content.value
  }

  function LineOf(i: nat, e: Entry, content: Option<string>, maxLength: int,
                  stripMarkup: string -> Option<string>): DigestLine {
    DigestLine(i + 1, e.title.GetOr(DefaultTitle), e.link.GetOr(""), e.published.GetOr(DefaultPublished),
               Body(e, content, maxLength, stripMarkup))
  }

  /** The digest's blocks, one per selected entry, in feed order. */
  function Lines(targets: seq<Entry>, results: map<nat, Option<string>>, maxLength: int,
                 stripMarkup: string -> Option<string>): seq<DigestLine> {
    seq(|targets|, i requires 0 <= i < |targets| => LineOf(i, targets[i], Lookup(results, i), maxLength, stripMarkup))
  }

  function DigitChar(d: nat): char
    requires d < 10
  {
    (48 + d) as char
  }

  /** `str(n)` for a natural number. */
  function Decimal(n: nat): string
    decreases n
  {
    if n < 10 then [DigitChar(n)] else Decimal(n / 10) + [DigitChar(n % 10)]
  }

  /** The value of a string of decimal digits. */
  function DecimalValue(s: string): int
    decreases |s|
  {
    if s == [] then 0 else DecimalValue(s[..|s| - 1]) * 10 + (s[|s| - 1] as int - 48)
  }

  const HeaderOpen: string := "【情报汇总】(来源: "
  const HeaderClose: string := ")\n\n"
  const DefaultFeedTitle: string := "RSS"
  const DefaultTitle: string := "无标题"
  const DefaultPublished: string := "未知"

  /** The fixed pieces of one block's text. */
  const BlockOpen: string := "=== "
  const BlockNumberEnd: string := ". "
  const BlockLinkLabel: string := " ===\n链接: "
  const BlockTimeLabel: string := "\n发布时间: "
  const BlockBodyLabel: string := "\n内容:\n"
  const BlockEnd: string := "\n\n"

  /** The text of one block (the f-string at app/RSS.py:162). */
  function RenderLine(l: DigestLine): string {
    BlockOpen + Decimal(l.index) + BlockNumberEnd + l.title + BlockLinkLabel + l.link
    + BlockTimeLabel + l.published + BlockBodyLabel + l.body + BlockEnd
  }

  /** The strings `f(x)` for the elements `x` of `xs`, concatenated in order. */
  function ConcatMap<T>(f: T -> string, xs: seq<T>): string
    decreases |xs|
  {
    if xs == [] then "" else ConcatMap(f, xs[..|xs| - 1]) + f(xs[|xs| - 1])
  }

  /** The blocks of the digest, one after another. */
  function RenderLines(ls: seq<DigestLine>): string {
    ConcatMap(RenderLine, ls)
  }

  /** The digest header (app/RSS.py:145), naming the feed or "RSS". */
  function Header(feedTitle: Option<string>): string {
    HeaderOpen + feedTitle.GetOr(DefaultFeedTitle) + HeaderClose
  }

  function DigestText(feedTitle: Option<string>, targets: seq<Entry>, results: map<nat, Option<string>>,
                      maxLength: int, stripMarkup: string -> Option<string>): string {
    Header(feedTitle) + RenderLines(Lines(targets, results, maxLength, stripMarkup))
  }

  /** The number of the first `n` slots whose fetch succeeded. */
  function SuccessCount(results: map<nat, Option<string>>, n: nat): nat
    decreases n
  {
    if n == 0 then 0 else SuccessCount(results, n - 1) + (if Succeeded(Lookup(results, n - 1)) then 1 else 0)
  }

  /** The body of one block and whether the fetch succeeded (app/RSS.py:150-160). */
  method BlockBody(entry: Entry, content: Option<string>, maxLength: int, stripMarkup: string -> Option<string>)
    returns (body: string, succeeded: bool)
    ensures body == Body(entry, content, maxLength, stripMarkup)
    ensures succeeded == Succeeded(content)
  {
    if content.None? || content.value == "" {
      var desc := Description(entry);
      var cleanDesc := match stripMarkup(desc) case Some(t) => t case None => Take(desc, SummaryCut);
      body := FailureMarker + cleanDesc;
      succeeded := false;
    } else {
      succeeded := true;
      body := content.value;
      if |body| > maxLength {
        body := Take(body, maxLength) + Ellipsis;
      }
    }
  }

  /** The text of block `i + 1` and whether its fetch succeeded (app/RSS.py:148-162). */
  method RenderBlock(i: nat, entry: Entry, content: Option<string>, maxLength: int,
                     stripMarkup: string -> Option<string>)
    returns (block: string, succeeded: bool)
    ensures block == RenderLine(LineOf(i, entry, content, maxLength, stripMarkup))
    ensures succeeded == Succeeded(content)
  {
    var title := entry.title.GetOr(DefaultTitle);
    var link := entry.link.GetOr("");
    var body;
    body, succeeded := BlockBody(entry, content, maxLength, stripMarkup);
    var line := DigestLine(i + 1, title, link, entry.published.GetOr(DefaultPublished), body);
    block := RenderLine(line);
  }

  /** The rendering loop (app/RSS.py:145-162), with the `success_c` counter. */
  method RenderDigest(feedTitle: Option<string>, targets: seq<Entry>, results: map<nat, Option<string>>,
                      maxLength: int, stripMarkup: string -> Option<string>)
    returns (context: string, successC: nat)
    ensures context == DigestText(feedTitle, targets, results, maxLength, stripMarkup)
    ensures successC == SuccessCount(results, |targets|)
  {
    ghost var lines := Lines(targets, results, maxLength, stripMarkup);
    context := Header(feedTitle);
    successC := 0;
    var i := 0;
    assert lines[..0] == [];
    while i < |targets|
      invariant 0 <= i <= |targets|
      invariant context == Header(feedTitle) + RenderLines(lines[..i])
      invariant successC == SuccessCount(results, i)
    {
      var block, succeeded := RenderBlock(i, targets[i], Lookup(results, i), maxLength, stripMarkup);
      assert SuccessCount(results, i + 1) == successC + (if succeeded then 1 else 0);
      if succeeded {
        successC := successC + 1;
      }
      DigestStep(Header(feedTitle), lines, i, context, block);
      context := context + block;
      i := i + 1;
    }
    assert lines[..i] == lines;
  }

  // ---------------------------------------------------------------------------
  // the whole call

  /** `fetch_rss_content` over a parsed feed (app/RSS.py:87-168). */
  function Pipeline(feed: Feed, now: int, hoursLimit: int, maxItemsSafety: int, maxLength: int,
                    web: Web, stripMarkup: string -> Option<string>): Report {
    if feed.entries == [] then EmptyFeed
    else
      var targets := Targets(feed.entries, now, hoursLimit, maxItemsSafety);
      if !AllLinked(targets) then MissingLink
      else Rendered(DigestText(feed.title, targets, ResultsMap(targets, web), maxLength, stripMarkup))
  }

  /** The text the caller receives; `errorDetail` is the library's message for the missing
      attribute. */
  function ReportText(r: Report, errorDetail: string): string {
    match r
    case Rendered(t) => t
    case EmptyFeed => EmptyFeedText
    case MissingLink => SystemErrorPrefix + errorDetail
  }

  /** `fetch_rss_content` from the parsed feed on: selection, collection in the completion
      order `order`, rendering. The result does not mention `order`: every completion order
      gives the same report. */
  method FetchRssContent(feed: Feed, now: int, hoursLimit: int, maxItemsSafety: int, maxLength: int,
                         order: seq<nat>, web: Web, stripMarkup: string -> Option<string>)
    returns (report: Report)
    requires IsCompletionOrder(order, |Targets(feed.entries, now, hoursLimit, maxItemsSafety)|)
    ensures report == Pipeline(feed, now, hoursLimit, maxItemsSafety, maxLength, web, stripMarkup)
  {
    if feed.entries == [] {
      return EmptyFeed;
    }
    var targets := SelectEntries(feed.entries, now, hoursLimit, maxItemsSafety);
    if exists i :: 0 <= i < |targets| && targets[i].link.None? {
      return MissingLink;
    }
    var results := CollectResults(targets, order, web);
    var context, successC := RenderDigest(feed.title, targets, results, maxLength, stripMarkup);
    report := Rendered(context);
  }

  // ---------------------------------------------------------------------------
  // properties

  lemma {:induction false} ImageSize(order: seq<nat>, n: nat, j: nat)
    requires IsCompletionOrder(order, n) && j <= n
    ensures |set k | 0 <= k < j :: order[k]| == j
    decreases j
  {
    if j > 0 {
      ImageSize(order, n, j - 1);
      var prev := set k | 0 <= k < j - 1 :: order[k];
      assert order[j - 1] !in prev;
      assert (set k | 0 <= k < j :: order[k]) == prev + {order[j - 1]};
    }
  }

  lemma {:induction false} RangeSize(n: nat)
    ensures |Range(n)| == n
    decreases n
  {
    if n > 0 {
      RangeSize(n - 1);
      var r := Range(n - 1);
      assert n - 1 !in r;
      assert Range(n) == r + {n - 1};
      assert |r + {n - 1}| == |r| + 1;
    }
  }

  /** A completion order reaches every slot: after the loop every index `0..n-1` is written. */
  lemma CompletionCoversAll(order: seq<nat>, n: nat)
    requires IsCompletionOrder(order, n)
    ensures (set k | 0 <= k < n :: order[k]) == Range(n)
  {
    var s := set k | 0 <= k < n :: order[k];
    var r := Range(n);
    ImageSize(order, n, n);
    RangeSize(n);
    assert s <= r;
    assert s + (r - s) == r;
    assert |r - s| == 0;
    assert r - s == {};
  }

  /** `str(n)` is a non-empty string of digits that reads back as `n`, with no leading zero. */
  lemma {:induction false} DecimalRoundTrip(n: nat)
    ensures Decimal(n) != [] && forall c :: c in Decimal(n) ==> '0' <= c <= '9'
    ensures DecimalValue(Decimal(n)) == n
    ensures n > 0 ==> Decimal(n)[0] != '0'
    decreases n
  {
    if n >= 10 {
      DecimalRoundTrip(n / 10);
      var s := Decimal(n);
      assert s[..|s| - 1] == Decimal(n / 10);
      assert s[0] == Decimal(n / 10)[0];
    }
  }

  /** One block per selected entry, in feed order, numbered from 1, with the entry's own title,
      link and display time (or their defaults), and never an empty body. */
  lemma LinesMatchEntries(targets: seq<Entry>, results: map<nat, Option<string>>, maxLength: int,
                          stripMarkup: string -> Option<string>, i: nat)
    requires i < |targets|
    ensures |Lines(targets, results, maxLength, stripMarkup)| == |targets|
    ensures Lines(targets, results, maxLength, stripMarkup)[i].index == i + 1
    ensures Lines(targets, results, maxLength, stripMarkup)[i].title == targets[i].title.GetOr(DefaultTitle)
    ensures Lines(targets, results, maxLength, stripMarkup)[i].link == targets[i].link.GetOr("")
    ensures Lines(targets, results, maxLength, stripMarkup)[i].published == targets[i].published.GetOr(DefaultPublished)
    ensures Lines(targets, results, maxLength, stripMarkup)[i].body != ""
  {
  }

  /** Successful content longer than `maxLength` is cut to `maxLength` characters plus "...",
      shorter content is kept as it is, and a failed fetch shows the marked summary, cut to 200
      characters only when markup stripping raised. */
  lemma BodyCases(e: Entry, content: Option<string>, maxLength: int, stripMarkup: string -> Option<string>)
    ensures Succeeded(content) && maxLength >= 0 && |content.value| > maxLength ==>
              Body(e, content, maxLength, stripMarkup) == content.value[..maxLength] + "..."
              && |Body(e, content, maxLength, stripMarkup)| == maxLength + 3
    ensures Succeeded(content) && |content.value| <= maxLength ==>
              Body(e, content, maxLength, stripMarkup) == content.value
    ensures !Succeeded(content) && stripMarkup(Description(e)).Some? ==>
              Body(e, content, maxLength, stripMarkup) == "[抓取失败] 摘要: " + stripMarkup(Description(e)).value
    ensures !Succeeded(content) && stripMarkup(Description(e)).None? ==>
              Body(e, content, maxLength, stripMarkup) == "[抓取失败] 摘要: " + Take(Description(e), 200)
  {
  }

  /** The counter never exceeds the number of entries and reaches it exactly when every slot
      holds non-empty content. */
  lemma {:induction false} SuccessCountAll(results: map<nat, Option<string>>, n: nat)
    ensures SuccessCount(results, n) <= n
    ensures SuccessCount(results, n) == n <==> forall i: nat :: i < n ==> Succeeded(Lookup(results, i))
    decreases n
  {
    if n > 0 {
      SuccessCountAll(results, n - 1);
    }
  }

  /** Concatenating the images of a list is concatenating those of any prefix, then those of
      the rest. */
  lemma {:induction false} ConcatMapSplit<T>(f: T -> string, xs: seq<T>, i: nat)
    requires i <= |xs|
    ensures ConcatMap(f, xs) == ConcatMap(f, xs[..i]) + ConcatMap(f, xs[i..])
    decreases |xs|
  {
    if i == |xs| {
      assert xs[..i] == xs;
      assert xs[i..] == [];
    } else {
      var p, last := xs[..|xs| - 1], xs[|xs| - 1];
      ConcatMapSplit(f, p, i);
      assert p[..i] == xs[..i];
      var t := xs[i..];
      assert t[..|t| - 1] == p[i..];
      assert t[|t| - 1] == last;
      assert ConcatMap(f, t) == ConcatMap(f, p[i..]) + f(last);
      ConcatAssoc(ConcatMap(f, xs[..i]), ConcatMap(f, p[i..]), f(last));
    }
  }

  /** Rendering one more block appends its text. */
  lemma RenderLinesSnoc(ls: seq<DigestLine>, i: nat)
    requires i < |ls|
    ensures RenderLines(ls[..i + 1]) == RenderLines(ls[..i]) + RenderLine(ls[i])
  {
    assert ls[..i + 1][..i] == ls[..i];
  }

  /** Appending the text of block `i` to the digest so far gives the digest of the first
      `i + 1` blocks. */
  lemma DigestStep(header: string, ls: seq<DigestLine>, i: nat, context: string, block: string)
    requires i < |ls|
    requires context == header + RenderLines(ls[..i]) && block == RenderLine(ls[i])
    ensures context + block == header + RenderLines(ls[..i + 1])
  {
    RenderLinesSnoc(ls, i);
    ConcatAssoc(header, RenderLines(ls[..i]), block);
  }

  /** Rendering a list of blocks is rendering any prefix followed by the rest: blocks appear
      in list order. */
  lemma RenderLinesSplit(ls: seq<DigestLine>, i: nat)
    requires i <= |ls|
    ensures RenderLines(ls) == RenderLines(ls[..i]) + RenderLines(ls[i..])
  {
    ConcatMapSplit(RenderLine, ls, i);
  }

  /** An empty feed gives the sentinel; otherwise a feed whose selected entries all have links
      gives the header followed by exactly one block per selected entry, in order. */
  lemma PipelineShape(feed: Feed, now: int, hoursLimit: int, maxItemsSafety: int, maxLength: int,
                      web: Web, stripMarkup: string -> Option<string>)
    ensures feed.entries == [] ==>
              ReportText(Pipeline(feed, now, hoursLimit, maxItemsSafety, maxLength, web, stripMarkup), "") == "RSS源为空或无法访问。"
    ensures feed.entries != [] && AllLinked(Targets(feed.entries, now, hoursLimit, maxItemsSafety)) ==>
              var targets := Targets(feed.entries, now, hoursLimit, maxItemsSafety);
              var ls := Lines(targets, ResultsMap(targets, web), maxLength, stripMarkup);
              && |ls| == |targets|
              && Pipeline(feed, now, hoursLimit, maxItemsSafety, maxLength, web, stripMarkup)
                 == Rendered("【情报汇总】(来源: " + feed.title.GetOr("RSS") + ")\n\n" + RenderLines(ls))
              && (forall i :: 0 <= i < |ls| ==>
                    (ls[i].index == i + 1 && ls[i].body != "" && ls[i].link == targets[i].link.value))
    ensures feed.entries != [] && !AllLinked(Targets(feed.entries, now, hoursLimit, maxItemsSafety)) ==>
              Pipeline(feed, now, hoursLimit, maxItemsSafety, maxLength, web, stripMarkup) == MissingLink
  {
  }
}
