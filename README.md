# RSS feed-to-digest pipeline, modelled in Dafny

This project models the core of `app/RSS.py`: the function `fetch_rss_content`, which turns
one RSS feed into one text digest, together with the helpers it calls. The pipeline has four stages:

- **Text normalisation.** `clean_text` splits a text on `'\n'` and strips every line. It drops
  blank lines and joins the rest with `'\n'`.
- **Content fetching.** `fetch_url_smart` tries a local extraction first and falls back to a
  remote reader service. The local extraction uses the rich-text extractor first, then an
  `<article>` element, then the `<p>` elements longer than 20 characters.
- **The recency filter.**
  - A dated entry is kept when it is younger than `hours_limit` hours and less than one day in the future (both bounds strict).
  - An undated entry is kept while fewer than five entries have been selected so far.
  - If nothing is kept, the first three entries are used.
  - The result is cut to `max_items_safety`.
- **Digest assembly.** One fetch runs per selected entry. Results are collected in whatever
  order they complete, then rendered in feed order. Long content is truncated with `"..."`.
  A failed fetch gets a visible failure body built from the entry's summary. A success counter is kept.

Modules (one file each):

| file | module | models |
|---|---|---|
| `wrappers.dfy` | `Wrappers` | `Option`, Python's `None`/value and `dict.get(key, default)` |
| `slices.dfy` | `Slices` | Python's prefix slice `s[:n]`, negative `n` included |
| `text.dfy` | `Text` | `str.isspace`, `strip`, `split('\n')`, `'\n'.join`, `clean_text` |
| `fetch.dfy` | `Fetch` | `fetch_content_local`, `fetch_content_jina`, `fetch_url_smart` |
| `selection.dfy` | `Selection` | feed entries, timestamps, the selection loop and its fallbacks |
| `digest.dfy` | `Digest` | the `results_map` collection, rendering, and the whole call |

How the outside world enters the model:

- **`now`** is a parameter, read once for the whole scan. Timestamps are whole UTC seconds.
  A timestamp the feed parser could not produce or convert is `None`.
- **The network** is a `Web` value. It maps each URL to what the direct fetch would have
  yielded (a `LocalPage`: status, extractor output, `<article>` text, paragraph texts) and to
  the remote reader's reply (status and body). `None` stands for a tier that raised: the request,
  or, for the local tier, the extractor or the HTML parser (all inside the same `try`, app/RSS.py:32-52).
- **Markup stripping of summaries** is a parameter `string -> Option<string>`. `None` means the HTML parser raised.
- **Completion order** of the concurrent fetches is an arbitrary permutation `order` of the
  target indices. `Digest.FetchRssContent` is proved equal to the function `Digest.Pipeline`,
  which does not take `order`. So every completion order yields the same report.
- **The caller-visible text** comes from `Digest.ReportText`. It gives the digest, the
  empty-feed sentinel `"RSS源为空或无法访问。"`, or `"系统错误: "` followed by the library's error message.

Behaviour of the code that is easy to misread:

- **Local result of exactly 100 characters.** The local text is kept only when it is longer
  than 100 characters (app/RSS.py:69 tests `> 100`), so a local text of exactly 100 characters
  goes to the remote tier (`Fetch.RouteChoice`; the non-empty test beside it is implied by the
  length test).
- **Undated entries.** The undated cap compares the count of *all* selected entries, not only
  the undated ones (app/RSS.py:120), although the comment at app/RSS.py:119 reads as "the first
  five undated". So when five dated entries come first, no undated entry is taken at all
  (`Selection.AfterFiveOnlyDated`).
- **The 200-character cut.** The failure summary is cut to 200 characters only when markup
  stripping raises (app/RSS.py:154-155); a successfully stripped summary is kept whole.
- **Order of the local tiers.** On status 200 the local tier uses the rich-text extractor's
  result only when the extractor is installed and returns a non-empty text; otherwise the
  first `<article>` element, and only without one the long `<p>` elements (app/RSS.py:36-49;
  `Fetch.FetchLocalTiers`).
- **Unconvertible publication time.** An entry whose published time is present but fails to
  convert is undated: the updated time is consulted only when there is no published time at
  all (app/RSS.py:100-105), and the entry then falls under the undated cap
  (`Selection.PubDateSource`).
- **Entries without a link.** The rendering reads `entry.get('link', '')`. The fetch
  submission reads the attribute `entry.link` (app/RSS.py:136), which raises for an entry that
  has no link. The top-level handler then turns the whole call into a system-error text.
  This is modelled as the report `MissingLink`.
- **Empty text from the remote tier.** A remote reply of more than 100 characters that is all
  whitespace is accepted and cleaned to `""`. The digest then treats it as a failed fetch,
  because `""` is falsy.

## Model

| member | source | states |
|---|---|---|
| `Text.Split` | app/RSS.py:27 | `split('\n')` always yields at least one piece |
| `Text.StripLeft` | app/RSS.py:27 | the result is a suffix of the input, does not start with whitespace, and everything removed is whitespace |
| `Text.StripRight` | app/RSS.py:27 | the result is a prefix of the input, does not end with whitespace, and everything removed is whitespace |
| `Text.StripShape` | app/RSS.py:27 | `strip()` returns the substring left after removing a whitespace prefix and a whitespace suffix, and it has no whitespace at either end |
| `Text.StripIdempotent` | app/RSS.py:27 | stripping twice equals stripping once |
| `Text.SplitJoin` | app/RSS.py:27-28 | joining lines that contain no `'\n'` and splitting again gives back the same lines |
| `Text.JoinSplit` | app/RSS.py:27-28 | splitting on `'\n'` and joining with `'\n'` gives back the original text |
| `Text.CleanTextEmpty` | app/RSS.py:26 | `clean_text("")` is `""` |
| `Text.CleanTextLines` | app/RSS.py:24-28 | the output is empty iff the input has no non-blank line; otherwise its lines are exactly the stripped non-blank input lines, in order, and each line is non-empty, stripped and free of `'\n'` |
| `Text.CleanTextIdempotent` | app/RSS.py:24-28 | `clean_text(clean_text(x)) == clean_text(x)` |
| `Text.CleanTextNoBlankLines` | app/RSS.py:24-28 | the output never contains `"\n\n"` and has no leading or trailing whitespace |
| `Text.CleanTextShorter` | app/RSS.py:24-28 | the output is never longer than the input |
| `Fetch.LongParagraphs` | app/RSS.py:47-48 | a paragraph is kept iff it is longer than 20 characters, in both directions |
| `Fetch.LongParagraphsAppend` | app/RSS.py:47-48 | the filter works paragraph by paragraph: filtering `a + b` gives the filtered `a` followed by the filtered `b`, so the kept paragraphs keep their document order and multiplicity |
| `Fetch.LongParagraphsSingle` | app/RSS.py:48 | a single paragraph is kept iff it is longer than 20 characters |
| `Fetch.ParagraphTextAllShort` | app/RSS.py:47-49 | a page whose paragraphs are all at most 20 characters gives `""` |
| `Fetch.ParagraphTextOfCleanLines` | app/RSS.py:47-49 | for paragraphs that are already clean single lines, the result is the long ones joined by `'\n'` |
| `Fetch.FetchLocalOutcome` | app/RSS.py:30-52 | the local tier fails iff the tier raised (request, extractor or parser) or the status is not 200; any text it returns is a fixed point of `clean_text` |
| `Fetch.RemoveAll` | app/RSS.py:62 | removing the boilerplate phrase never lengthens the text |
| `Fetch.RemoveAllAbsent` | app/RSS.py:62 | a text without the phrase is unchanged |
| `Fetch.RemoveAllFirst` | app/RSS.py:62 | the leftmost occurrence of the phrase is dropped and the text before it kept: with no occurrence starting inside `a`, `replace` of `a + phrase + b` is `a` followed by `replace` of `b` |
| `Fetch.FetchRemoteOutcome` | app/RSS.py:54-64 | the remote tier yields a text iff status is 200 and the raw body is longer than 100 characters (checked before cleaning); the text is clean and no longer than the body |
| `Fetch.FetchUrlSmartOutcome` | app/RSS.py:66-71 | `fetch_url_smart` fails iff the local text is missing or at most 100 characters and the remote tier fails; any text it returns is clean |
| `Slices.Take` | app/RSS.py:129 | `s[:n]` is a prefix of `s` with length `min(n, len(s))` for `n >= 0`, and `max(0, len(s) + n)` for negative `n` |
| `Selection.SelectEntries` | app/RSS.py:91-129 | the loop, the first-three fallback and the safety cut compute `Targets`: the left-to-right selection with one `now`, or `entries[:3]` when it is empty, cut to `max_items_safety` |
| `Selection.SelectedInFeedOrder` | app/RSS.py:96-122 | the selected entries are the feed entries at strictly increasing positions: original order, no entry twice |
| `Selection.SelectedIndexIff` | app/RSS.py:109-122 | entry `i` is selected iff: when dated, `now - pub < hours_limit*3600` and `now - pub > -86400`, both strict; when undated, fewer than 5 entries of any kind were selected before it |
| `Selection.UndatedAtMostFive` | app/RSS.py:118-121 | at most five undated entries are ever selected |
| `Selection.SelectedGrows` | app/RSS.py:96-122 | the selection never shrinks as the scan proceeds |
| `Selection.AfterFiveOnlyDated` | app/RSS.py:118-121 | once five entries are selected, every later undated entry is rejected: the rest of the selection is exactly the later dated entries inside the window |
| `Selection.AllUndatedFirstFive` | app/RSS.py:118-121 | a feed with no usable timestamps yields exactly its first five entries, in order |
| `Selection.TargetsShape` | app/RSS.py:124-129 | the fetched entries are a subsequence of the feed in order; they are `entries[:3][:max_items_safety]` when nothing was selected; there are at most `max_items_safety` of them; and a non-empty feed with a positive cap never yields none |
| `Digest.ResultsMap` | app/RSS.py:133-142 | the expected map has exactly the keys `0..k-1` |
| `Digest.CompletionCoversAll` | app/RSS.py:134-142 | a completion order that lists each index once reaches every index `0..k-1` |
| `Digest.CollectResults` | app/RSS.py:133-142 | for any completion order, the loop writes each slot once and ends with slot `i` holding `fetch_url_smart(target_entries[i].link)` for every `i < k` and nothing else |
| `Digest.BlockBody` | app/RSS.py:150-160 | computes the block body and reports whether the content was truthy (the `success_c` increment) |
| `Digest.RenderBlock` | app/RSS.py:148-162 | computes the text of block `i + 1`: the entry's title or `"无标题"`, its link or `""`, its display time or `"未知"`, and the body, in the f-string's layout; and whether the content was truthy |
| `Digest.BodyCases` | app/RSS.py:150-160 | a truthy content longer than `max_length` becomes `content[:max_length] + "..."` (length `max_length + 3`); shorter content is unchanged; a falsy one becomes `"[抓取失败] 摘要: "` plus the stripped summary, or plus `summary[:200]` only when stripping raised |
| `Digest.RenderDigest` | app/RSS.py:145-162 | the rendering loop yields the header followed by the rendered blocks of `Lines`, and `success_c` equals the number of slots with non-empty content |
| `Digest.SuccessCountAll` | app/RSS.py:146-158 | `success_c` is at most the number of entries, and equals it iff every slot holds non-empty content |
| `Digest.LinesMatchEntries` | app/RSS.py:147-162 | there is one block per selected entry; block `i` is numbered `i+1` and carries that entry's title, link and display time, or `"无标题"`, `""`, `"未知"`; its body is never empty |
| `Digest.RenderLinesSplit` | app/RSS.py:147-162 | the rendered text of the blocks is the rendered text of any prefix of them followed by that of the rest: blocks appear in order |
| `Digest.DecimalRoundTrip` | app/RSS.py:162 | the block number `str(i+1)` is a non-empty digit string with no leading zero that reads back as `i+1` |
| `Digest.FetchRssContent` | app/RSS.py:73-168 | for every completion order, the whole call returns `Pipeline(...)`, which does not depend on the order |
| `Digest.PipelineShape` | app/RSS.py:87-165 | an empty feed gives `"RSS源为空或无法访问。"`; a feed whose targets all have links gives `"【情报汇总】(来源: " + title-or-"RSS" + ")\n\n"` followed by exactly one block per target, numbered in order, with non-empty bodies; a target without a link gives the system error |

## Left out

- HTTP requests (`curl_cffi`) are network I/O. They are replaced by the `Web` value of
  outcomes per URL. Two entries with the same link therefore receive the same outcome.
- `feedparser.parse` is a foreign library. Loading the feed, including the retry through the
  remote reader when the direct feed request raises (app/RSS.py:80-85), is not modelled.
  The parsed feed (title and entries) is an input.
- `trafilatura.extract` and `BeautifulSoup` are foreign libraries. Their results are fields of
  `LocalPage` or the `stripMarkup` parameter. Stripping the tags script/style/nav/footer/header/iframe/aside happens inside them.
- `ThreadPoolExecutor` and `as_completed` are concurrency. Only the completion order is
  modelled, as an arbitrary permutation. Worker limits, timeouts and interleavings are not.
- `datetime.now` is a clock and becomes the parameter `now`. Its sub-second part is not
  modelled, nor is the struct_time-to-datetime conversion beyond whether it succeeds.
- `hours_limit` is taken as an integer. A fractional number of hours is not modelled.
- `print` logging is output only.
- The top-level `except` (app/RSS.py:167-168) is modelled only for the missing-link case, as
  `MissingLink`. Its message text is a parameter of `ReportText`. Other unexpected exceptions are not modelled.
- An entry key that is present with the value None is not modelled for the string fields
  (title, link, published, summary, description): `Option` has one `None`, read as a missing
  key, so `LineOf` shows the default (`"无标题"`, `"未知"`) where `entry.get(key, default)`
  would return None and the f-string would print `None`.
- `fetch_rss.py` is not part of this model. It is a driver that hard-codes feed URLs, takes eight entries per feed and writes a JSON cache.
