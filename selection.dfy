/** The recency filter of `fetch_rss_content` (app/RSS.py:90-129): which feed entries are
    fetched. Timestamps are whole seconds since the epoch, UTC; `now` is read once. */
module Selection {
  import opened Wrappers
  import opened Slices

  /** A timestamp field as the feed parser delivers it: a time that converts to UTC seconds,
      or one whose conversion to a date raises. */
  datatype ParsedTime = Convertible(seconds: int) | Unconvertible

  /** One feed entry; `None` marks a key the entry lacks; for the two parsed times it also
      marks a value that is None or otherwise falsy (app/RSS.py:100, 102). */
  datatype Entry = Entry(
    title: Option<string>,
    link: Option<string>,
    published: Option<string>,          // the display string of the publication time
    summary: Option<string>,
    description: Option<string>,
    publishedParsed: Option<ParsedTime>,
    updatedParsed: Option<ParsedTime>)

  /** The feed: its own title and its entries in document order. */
  datatype Feed = Feed(title: Option<string>, entries: seq<Entry>)

  /** Undated entries are taken only while fewer entries than this have been selected. */
  const UndatedCap: nat := 5
  /** Entries taken from the head of the feed when the filter keeps nothing. */
  const FallbackCount: nat := 3
  const HourSeconds: int := 3600
  const DaySeconds: int := 86400

  /** The entry's publication time (app/RSS.py:97-105): the published time if the entry has
      one, else the updated time; `None` if neither exists or the chosen one fails to convert. */
  function PubDate(e: Entry): Option<int> {
    match e.publishedParsed
    case Some(Convertible(s)) => Some(s)
    case Some(Unconvertible) => None
    case None =>
      match e.updatedParsed
      case Some(Convertible(s)) => Some(s)
      case _ => None
  }

  /** The publication time comes from the published time when the entry has one, and from the
      updated time only when it has none: an unconvertible published time makes the entry
      undated and the updated time is never consulted (app/RSS.py:100-105). */
  lemma PubDateSource(e: Entry)
    ensures PubDate(e).Some? <==>
              (e.publishedParsed.Some? && e.publishedParsed.value.Convertible?)
              || (e.publishedParsed.None? && e.updatedParsed.Some? && e.updatedParsed.value.Convertible?)
    ensures e.publishedParsed.Some? ==>
              PubDate(e) == PubDate(e.(updatedParsed := None))
    ensures PubDate(e).Some? ==>
              e.publishedParsed == Some(Convertible(PubDate(e).value))
              || (e.publishedParsed.None? && e.updatedParsed == Some(Convertible(PubDate(e).value)))
  {
  }

  /** An entry `diff` seconds old is recent: younger than the limit and at most a day ahead. */
  predicate InWindow(diff: int, hoursLimit: int) {
    diff < hoursLimit * HourSeconds && diff > -DaySeconds
  }

  /** Whether the loop appends entry `e` after `count` entries have been selected. */
  predicate Admits(count: nat, e: Entry, now: int, hoursLimit: int) {
    match PubDate(e)
    case Some(pub) => InWindow(now - pub, hoursLimit)
    case None => count < UndatedCap
  }

  /** The entries the loop at app/RSS.py:96-122 appends, scanning `es` left to right. */
  function Selected(es: seq<Entry>, now: int, hoursLimit: int): seq<Entry>
    decreases |es|
  {
    if es == [] then []
    else
      var acc := Selected(es[..|es| - 1], now, hoursLimit);
      if Admits(|acc|, es[|es| - 1], now, hoursLimit) then acc + [es[|es| - 1]] else acc
  }

  /** The positions in `es` of the entries `Selected` appends. */
  function SelectedIndices(es: seq<Entry>, now: int, hoursLimit: int): seq<nat>
    decreases |es|
  {
    if es == [] then []
    else
      var p := es[..|es| - 1];
      SelectedIndices(p, now, hoursLimit)
      + (if Admits(|Selected(p, now, hoursLimit)|, es[|es| - 1], now, hoursLimit) then [|es| - 1] else [])
  }

  /** The entries that are fetched (app/RSS.py:96-129): the selection, or the first three
      entries if it is empty, cut to `maxItemsSafety`. */
  function Targets(es: seq<Entry>, now: int, hoursLimit: int, maxItemsSafety: int): seq<Entry> {
    var s := Selected(es, now, hoursLimit);
    Take(if s == [] then Take(es, FallbackCount) else s, maxItemsSafety)
  }

  /** `a` is the subsequence of `b` at the strictly increasing positions `idx`. */
  predicate SubseqAt<T(==)>(a: seq<T>, b: seq<T>, idx: seq<nat>) {
    && |idx| == |a|
    && (forall k :: 0 <= k < |idx| ==> idx[k] < |b| && a[k] == b[idx[k]])
    && (forall k, l :: 0 <= k < l < |idx| ==> idx[k] < idx[l])
  }

  /** The number of undated entries in `s`. */
  function CountUndated(s: seq<Entry>): nat
    decreases |s|
  {
    if s == [] then 0
    else CountUndated(s[..|s| - 1]) + (if PubDate(s[|s| - 1]).None? then 1 else 0)
  }

  /** The dated entries of `s` inside the window, in order. */
  function DatedInWindow(s: seq<Entry>, now: int, hoursLimit: int): seq<Entry>
    decreases |s|
  {
    if s == [] then []
    else
      var e := s[|s| - 1];
      DatedInWindow(s[..|s| - 1], now, hoursLimit)
      + (if PubDate(e).Some? && InWindow(now - PubDate(e).value, hoursLimit) then [e] else [])
  }

  // ---------------------------------------------------------------------------
  // the loop

  /** The selection loop, the empty-result fallback and the safety cut of `fetch_rss_content`
      (app/RSS.py:91-129), with one `now` for every entry. */
  method SelectEntries(entries: seq<Entry>, now: int, hoursLimit: int, maxItemsSafety: int)
    returns (targets: seq<Entry>)
    ensures targets == Targets(entries, now, hoursLimit, maxItemsSafety)
  {
    var picked: seq<Entry> := [];
    var i := 0;
    while i < |entries|
      invariant 0 <= i <= |entries|
      invariant picked == Selected(entries[..i], now, hoursLimit)
    {
      var e := entries[i];
      var pub := PubDate(e);
      if pub.Some? {
        var diff := now - pub.value;
        if diff < hoursLimit * HourSeconds && diff > -DaySeconds {
          picked := picked + [e];
        }
      } else {
        if |picked| < UndatedCap {
          picked := picked + [e];
        }
      }
      assert entries[..i + 1][..i] == entries[..i];
      i := i + 1;
    }
    assert entries[..i] == entries;
    if picked == [] {
      picked := Take(entries, FallbackCount);
    }
    targets := Take(picked, maxItemsSafety);
  }

  // ---------------------------------------------------------------------------
  // properties

  /** The selection is the subsequence of the feed at `SelectedIndices`: original order, no
      entry twice. */
  lemma {:induction false} SelectedInFeedOrder(es: seq<Entry>, now: int, hoursLimit: int)
    ensures SubseqAt(Selected(es, now, hoursLimit), es, SelectedIndices(es, now, hoursLimit))
    decreases |es|
  {
    if es != [] {
      var n := |es|;
      var p := es[..n - 1];
      SelectedInFeedOrder(p, now, hoursLimit);
      var acc, idx := Selected(p, now, hoursLimit), SelectedIndices(p, now, hoursLimit);
      forall k | 0 <= k < |idx| ensures idx[k] < n && acc[k] == es[idx[k]] {
        assert p[idx[k]] == es[idx[k]];
      }
    }
  }

  /** Entry `i` is selected exactly when the loop admits it given what was selected before it:
      a dated entry iff it lies in the window (both bounds strict), an undated one iff fewer than
      five entries of any kind were selected before it. */
  lemma {:induction false} SelectedIndexIff(es: seq<Entry>, now: int, hoursLimit: int, i: nat)
    requires i < |es|
    ensures i in SelectedIndices(es, now, hoursLimit) <==> Admits(|Selected(es[..i], now, hoursLimit)|, es[i], now, hoursLimit)
    ensures PubDate(es[i]).Some? ==>
              (i in SelectedIndices(es, now, hoursLimit) <==>
                 now - PubDate(es[i]).value < hoursLimit * 3600 && now - PubDate(es[i]).value > -86400)
    ensures PubDate(es[i]).None? ==>
              (i in SelectedIndices(es, now, hoursLimit) <==> |Selected(es[..i], now, hoursLimit)| < 5)
    decreases |es|
  {
    var n := |es|;
    var p := es[..n - 1];
    var idx := SelectedIndices(p, now, hoursLimit);
    if n == i + 1 {
      SelectedInFeedOrder(p, now, hoursLimit);
      assert i !in idx by {
        forall k | 0 <= k < |idx| ensures idx[k] != i { }
      }
      assert p == es[..i];
    } else {
      SelectedIndexIff(p, now, hoursLimit, i);
      assert p[..i] == es[..i];
    }
  }

  lemma {:induction false} CountUndatedBound(s: seq<Entry>)
    ensures CountUndated(s) <= |s|
    decreases |s|
  {
    if s != [] {
      CountUndatedBound(s[..|s| - 1]);
    }
  }

  /** At most five undated entries are ever selected. */
  lemma {:induction false} UndatedAtMostFive(es: seq<Entry>, now: int, hoursLimit: int)
    ensures CountUndated(Selected(es, now, hoursLimit)) <= 5
    decreases |es|
  {
    if es != [] {
      var p := es[..|es| - 1];
      var acc := Selected(p, now, hoursLimit);
      var e := es[|es| - 1];
      UndatedAtMostFive(p, now, hoursLimit);
      if Admits(|acc|, e, now, hoursLimit) {
        assert (acc + [e])[..|acc|] == acc;
        CountUndatedBound(acc);
      }
    }
  }

  /** The selection never shrinks as the scan proceeds. */
  lemma {:induction false} SelectedGrows(es: seq<Entry>, now: int, hoursLimit: int, i: nat)
    requires i <= |es|
    ensures |Selected(es[..i], now, hoursLimit)| <= |Selected(es, now, hoursLimit)|
    decreases |es|
  {
    if i < |es| {
      var p := es[..|es| - 1];
      SelectedGrows(p, now, hoursLimit, i);
      assert p[..i] == es[..i];
    } else {
      assert es[..i] == es;
    }
  }

  /** Once five entries are selected, no later undated entry gets in: the rest of the
      selection is exactly the later dated entries inside the window. */
  lemma {:induction false} AfterFiveOnlyDated(es: seq<Entry>, now: int, hoursLimit: int, i: nat)
    requires i <= |es|
    requires |Selected(es[..i], now, hoursLimit)| >= 5
    ensures Selected(es, now, hoursLimit) == Selected(es[..i], now, hoursLimit) + DatedInWindow(es[i..], now, hoursLimit)
    decreases |es|
  {
    if i == |es| {
      assert es[..i] == es;
      assert es[i..] == [];
    } else {
      var n := |es|;
      var p := es[..n - 1];
      assert p[..i] == es[..i];
      AfterFiveOnlyDated(p, now, hoursLimit, i);
      SelectedGrows(p, now, hoursLimit, i);
      var tail := es[i..];
      assert tail[..|tail| - 1] == p[i..];
      assert tail[|tail| - 1] == es[n - 1];
    }
  }

  /** A feed with no usable timestamps yields its first five entries. */
  lemma {:induction false} AllUndatedFirstFive(es: seq<Entry>, now: int, hoursLimit: int)
    requires forall k :: 0 <= k < |es| ==> PubDate(es[k]).None?
    ensures Selected(es, now, hoursLimit) == Take(es, 5)
    decreases |es|
  {
    if es != [] {
      var n := |es|;
      var p := es[..n - 1];
      assert forall k :: 0 <= k < |p| ==> p[k] == es[k];
      AllUndatedFirstFive(p, now, hoursLimit);
      if n - 1 < 5 {
        assert p + [es[n - 1]] == es;
      } else {
        assert p[..5] == es[..5];
      }
    }
  }

  /** The fetched entries keep feed order; they are the first three entries when the filter
      keeps nothing; there are at most `maxItemsSafety` of them; and a non-empty feed with a
      positive cap never yields an empty list. */
  lemma TargetsShape(es: seq<Entry>, now: int, hoursLimit: int, maxItemsSafety: int)
    ensures exists idx :: SubseqAt(Targets(es, now, hoursLimit, maxItemsSafety), es, idx)
    ensures Selected(es, now, hoursLimit) == [] ==>
              Targets(es, now, hoursLimit, maxItemsSafety) == Take(Take(es, 3), maxItemsSafety)
    ensures Selected(es, now, hoursLimit) != [] ==>
              Targets(es, now, hoursLimit, maxItemsSafety) == Take(Selected(es, now, hoursLimit), maxItemsSafety)
    ensures maxItemsSafety >= 0 ==> |Targets(es, now, hoursLimit, maxItemsSafety)| <= maxItemsSafety
    ensures es != [] && maxItemsSafety > 0 ==> Targets(es, now, hoursLimit, maxItemsSafety) != []
  {
    var s := Selected(es, now, hoursLimit);
    var t := Targets(es, now, hoursLimit, maxItemsSafety);
    var idx: seq<nat>;
    if s == [] {
      var h := Take(es, FallbackCount);
      idx := seq(|h|, k requires 0 <= k < |h| => k);
    } else {
      SelectedInFeedOrder(es, now, hoursLimit);
      idx := SelectedIndices(es, now, hoursLimit);
    }
    assert SubseqAt(t, es, idx[..|t|]);
  }
}
