/** The recompute step of `get_news` (main.py:168-181): concatenate the
    items of every feed in `_FEEDS` order, sort them by timestamp, newest
    first, with a stable sort, and keep the first item of each link. */
module Aggregate {
  import opened Feeds
  import Dates

  /** `_FEEDS` (main.py:74-80). */
  const FeedUrls: seq<string> := [
    "https://thehackernews.com/feeds/posts/default",
    "https://krebsonsecurity.com/feed/",
    "https://www.darkreading.com/rss.xml",
    "https://feeds.feedburner.com/OpenAIBlog",
    "https://www.schneier.com/feed/atom/"
  ]

  // ---------- Stable sort by timestamp, newest first ----------

  predicate NewestFirst(s: seq<NewsItem>)
  {
    forall i, j :: 0 <= i < j < |s| ==> s[i].timestamp >= s[j].timestamp
  }

  /** Puts `x` in front of the first element that is not newer than it, so
      `x` stays ahead of the items with its own timestamp. */
  function Insert(x: NewsItem, r: seq<NewsItem>): (out: seq<NewsItem>)
    ensures multiset(out) == multiset(r) + multiset{x}
  {
    if r == [] || x.timestamp >= r[0].timestamp then [x] + r
    else
      assert r == [r[0]] + r[1..];
      [r[0]] + Insert(x, r[1..])
  }

  lemma {:induction false} InsertNewestFirst(x: NewsItem, r: seq<NewsItem>)
    requires NewestFirst(r)
    ensures NewestFirst(Insert(x, r))
  {
    if r != [] && x.timestamp < r[0].timestamp {
      InsertNewestFirst(x, r[1..]);
      InsertBelow(x, r[1..], r[0].timestamp);
    }
  }

  /** Inserting into a list no newer than `t` an item no newer than `t`
      gives a list no newer than `t`. */
  lemma {:induction false} InsertBelow(x: NewsItem, r: seq<NewsItem>, t: int)
    requires x.timestamp <= t
    requires forall k :: 0 <= k < |r| ==> r[k].timestamp <= t
    ensures forall k :: 0 <= k < |Insert(x, r)| ==> Insert(x, r)[k].timestamp <= t
  {
    if r != [] && x.timestamp < r[0].timestamp {
      InsertBelow(x, r[1..], t);
    }
  }

  /** `sorted(all_items, key=lambda x: x["timestamp"], reverse=True)`. */
  function SortByTimestamp(s: seq<NewsItem>): (r: seq<NewsItem>)
    ensures multiset(r) == multiset(s)
    ensures NewestFirst(r)
  {
    if s == [] then []
    else
      assert s == [s[0]] + s[1..];
      InsertNewestFirst(s[0], SortByTimestamp(s[1..]));
      Insert(s[0], SortByTimestamp(s[1..]))
  }

  /** The items of `s` with timestamp `t`, in their order in `s`. */
  function WithTimestamp(s: seq<NewsItem>, t: int): seq<NewsItem>
  {
    if s == [] then []
    else (if s[0].timestamp == t then [s[0]] else []) + WithTimestamp(s[1..], t)
  }

  lemma {:induction false} InsertStable(x: NewsItem, r: seq<NewsItem>, t: int)
    ensures WithTimestamp(Insert(x, r), t) == (if x.timestamp == t then [x] else []) + WithTimestamp(r, t)
  {
    if r == [] || x.timestamp >= r[0].timestamp {
      assert ([x] + r)[1..] == r;
    } else {
      InsertStable(x, r[1..], t);
      assert ([r[0]] + Insert(x, r[1..]))[1..] == Insert(x, r[1..]);
    }
  }

  /** The sort is stable: for every timestamp, including the 0 of an
      unparsable date, the items carrying it keep their order. */
  lemma {:induction false} SortStable(s: seq<NewsItem>, t: int)
    ensures WithTimestamp(SortByTimestamp(s), t) == WithTimestamp(s, t)
  {
    if s != [] {
      SortStable(s[1..], t);
      InsertStable(s[0], SortByTimestamp(s[1..]), t);
    }
  }

  // ---------- Deduplication by link ----------

  function Links(s: seq<NewsItem>): set<string>
  {
    set i | 0 <= i < |s| :: s[i].link
  }

  predicate DistinctLinks(s: seq<NewsItem>)
  {
    forall i, j :: 0 <= i < j < |s| ==> s[i].link != s[j].link
  }

  lemma LinksSnoc(s: seq<NewsItem>, x: NewsItem)
    ensures Links(s + [x]) == Links(s) + {x.link}
  {
    var t := s + [x];
    assert forall i :: 0 <= i < |s| ==> t[i] == s[i];
    assert t[|s|] == x;
  }

  /** The dedup loop: walk the sorted list, keeping an item when its link
      is non-empty and not yet seen. */
  function Dedup(s: seq<NewsItem>): (r: seq<NewsItem>)
    ensures DistinctLinks(r)
    ensures forall k :: 0 <= k < |r| ==> r[k].link != "" && r[k] in s
    ensures Links(r) == Links(s) - {""}
  {
    if s == [] then []
    else
      var init, last := s[..|s| - 1], s[|s| - 1];
      var d := Dedup(init);
      assert s == init + [last];
      LinksSnoc(init, last);
      if last.link != "" && last.link !in Links(d) then
        LinksSnoc(d, last);
        d + [last]
      else
        d
  }

  /** Each kept item is the first item of the input with its link: it
      occurs no later than any item sharing that link. */
  lemma {:induction false} DedupKeepsFirst(s: seq<NewsItem>)
    ensures forall i, k :: 0 <= i < |s| && 0 <= k < |Dedup(s)| && s[i].link == Dedup(s)[k].link ==>
              Dedup(s)[k] in s[..i + 1]
  {
    forall i, k | 0 <= i < |s| && 0 <= k < |Dedup(s)| && s[i].link == Dedup(s)[k].link
      ensures Dedup(s)[k] in s[..i + 1]
    {
      DedupKeepsFirstAt(s, i, k);
    }
  }

  lemma {:induction false} DedupKeepsFirstAt(s: seq<NewsItem>, i: nat, k: nat)
    requires i < |s| && k < |Dedup(s)| && s[i].link == Dedup(s)[k].link
    ensures Dedup(s)[k] in s[..i + 1]
  {
    var init, last := s[..|s| - 1], s[|s| - 1];
    var d, r := Dedup(init), Dedup(s);
    assert s == init + [last];
    assert i < |init| ==> init[i].link in Links(init);
    if i < |init| && k < |d| {
      DedupKeepsFirstAt(init, i, k);
      assert init[..i + 1] == s[..i + 1];
    } else {
      // the last item is kept only when no earlier item has its link
      assert i == |init|;
      assert s[..i + 1] == s;
    }
  }

  /** The output keeps the input's order. */
  lemma {:induction false} DedupSubsequence(s: seq<NewsItem>)
    ensures IsSubsequence(Dedup(s), s)
  {
    if s != [] {
      var init, last := s[..|s| - 1], s[|s| - 1];
      DedupSubsequence(init);
      var d, r := Dedup(init), Dedup(s);
      if r == d {
        assert IsSubsequence(d, init);
      } else {
        assert r == d + [last] && r[..|r| - 1] == d;
      }
    }
  }

  /** A list whose links are already distinct and non-empty is left alone. */
  lemma {:induction false} DedupOfDistinct(s: seq<NewsItem>)
    requires DistinctLinks(s)
    requires forall k :: 0 <= k < |s| ==> s[k].link != ""
    ensures Dedup(s) == s
  {
    if s != [] {
      var init, last := s[..|s| - 1], s[|s| - 1];
      assert s == init + [last];
      assert forall k :: 0 <= k < |init| ==> init[k] == s[k];
      DedupOfDistinct(init);
      DedupSnocNew(init, last);
    }
  }

  /** An item whose link is new is kept. */
  lemma DedupSnocNew(init: seq<NewsItem>, last: NewsItem)
    requires last.link != "" && last.link !in Links(init)
    ensures Dedup(init + [last]) == Dedup(init) + [last]
  {
    var s := init + [last];
    assert s[..|s| - 1] == init;
  }

  /** Deduplicating twice is deduplicating once. */
  lemma DedupIdempotent(s: seq<NewsItem>)
    ensures Dedup(Dedup(s)) == Dedup(s)
  {
    DedupOfDistinct(Dedup(s));
  }

  /** Dropping items from a newest-first list leaves it newest-first. */
  lemma {:induction false} DedupNewestFirst(s: seq<NewsItem>)
    requires NewestFirst(s)
    ensures NewestFirst(Dedup(s))
  {
    if s != [] {
      var init, last := s[..|s| - 1], s[|s| - 1];
      DedupNewestFirst(init);
      var d := Dedup(init);
      forall k | 0 <= k < |d| ensures d[k].timestamp >= last.timestamp {
        var i :| 0 <= i < |init| && init[i] == d[k];
        assert s[i] == init[i];
      }
    }
  }

  // ---------- Concatenation of the feeds ----------

  /** What `_fetch_feed(u)` returns for every feed URL `u`, given the
      network's answers and the date parser. */
  function FeedResults(fetch: string -> FetchOutcome, parse: Dates.DateParser): string -> seq<NewsItem>
  {
    u => FeedItems(u, fetch(u), parse)
  }

  /** `all_items` after extending it with `results(u)` for each `u` in
      `urls`, in order. */
  function Collect(urls: seq<string>, results: string -> seq<NewsItem>): seq<NewsItem>
  {
    if urls == [] then []
    else
      var u := urls[|urls| - 1];
      Collect(urls[..|urls| - 1], results) + results(u)
  }

  /** The concatenation of two lists of feeds is the concatenation of their
      items: a feed's items sit after those of every feed listed before it. */
  lemma {:induction false} CollectAppend(a: seq<string>, b: seq<string>, results: string -> seq<NewsItem>)
    ensures Collect(a + b, results) == Collect(a, results) + Collect(b, results)
  {
    if b != [] {
      var b', u := b[..|b| - 1], b[|b| - 1];
      CollectAppend(a, b', results);
      assert (a + b)[..|a + b| - 1] == a + b';
      assert (a + b)[|a + b| - 1] == u;
    } else {
      assert a + b == a;
    }
  }

  lemma {:induction false} CollectWellFormed(urls: seq<string>, fetch: string -> FetchOutcome, parse: Dates.DateParser)
    ensures forall x :: x in Collect(urls, FeedResults(fetch, parse)) ==> WellFormed(x)
  {
    if urls != [] {
      var u := urls[|urls| - 1];
      CollectWellFormed(urls[..|urls| - 1], fetch, parse);
      FeedItemsWellFormed(u, fetch(u), parse);
    }
  }

  /** The list a recompute stores in the cache. */
  function Aggregated(fetch: string -> FetchOutcome, parse: Dates.DateParser): seq<NewsItem>
  {
    Dedup(SortByTimestamp(Collect(FeedUrls, FeedResults(fetch, parse))))
  }

  /** What the cache always holds. */
  predicate Servable(s: seq<NewsItem>)
  {
    NewestFirst(s) && DistinctLinks(s) && forall k :: 0 <= k < |s| ==> WellFormed(s[k])
  }

  /** A recompute yields a newest-first list of well-formed items with
      pairwise distinct links, drawn in order from the sorted concatenation. */
  lemma AggregatedServable(fetch: string -> FetchOutcome, parse: Dates.DateParser)
    ensures Servable(Aggregated(fetch, parse))
    ensures IsSubsequence(Aggregated(fetch, parse), SortByTimestamp(Collect(FeedUrls, FeedResults(fetch, parse))))
  {
    var all := Collect(FeedUrls, FeedResults(fetch, parse));
    var sorted := SortByTimestamp(all);
    CollectWellFormed(FeedUrls, fetch, parse);
    assert forall x :: x in sorted ==> x in multiset(all);
    DedupNewestFirst(sorted);
    DedupSubsequence(sorted);
  }

  lemma DedupStep(s: seq<NewsItem>, i: nat)
    requires i < |s|
    ensures var d := Dedup(s[..i]);
      Dedup(s[..i + 1]) == if s[i].link != "" && s[i].link !in Links(d) then d + [s[i]] else d
  {
    assert s[..i + 1][..i] == s[..i];
  }

  lemma CollectStep(urls: seq<string>, k: nat, results: string -> seq<NewsItem>)
    requires k < |urls|
    ensures Collect(urls[..k + 1], results) == Collect(urls[..k], results) + results(urls[k])
    ensures urls[..k + 1] == urls[..k] + [urls[k]]
  {
    assert urls[..k + 1][..k] == urls[..k];
  }

  /** The loop `for feed in _FEEDS: all_items.extend(_fetch_feed(feed))`;
      `fetched` lists the URLs requested, in order. */
  method CollectFeeds(fetch: string -> FetchOutcome, parse: Dates.DateParser)
    returns (all: seq<NewsItem>, ghost fetched: seq<string>)
    ensures all == Collect(FeedUrls, FeedResults(fetch, parse))
    ensures fetched == FeedUrls
  {
    all := [];
    fetched := [];
    for k := 0 to |FeedUrls|
      invariant all == Collect(FeedUrls[..k], FeedResults(fetch, parse))
      invariant fetched == FeedUrls[..k]
    {
      var feed := FeedUrls[k];
      var got := FetchFeed(feed, fetch(feed), parse);
      assert got == FeedResults(fetch, parse)(feed);
      CollectStep(FeedUrls, k, FeedResults(fetch, parse));
      all := all + got;
      fetched := fetched + [feed];
    }
    assert FeedUrls[..|FeedUrls|] == FeedUrls;
  }

  /** The loop that keeps each item whose link is non-empty and not in
      `seen`, then adds that link to `seen`. */
  method DedupByLink(sorted: seq<NewsItem>) returns (deduped: seq<NewsItem>)
    ensures deduped == Dedup(sorted)
  {
    var seen: set<string> := {};
    deduped := [];
    for i := 0 to |sorted|
      invariant deduped == Dedup(sorted[..i])
      invariant seen == Links(deduped)
    {
      var it := sorted[i];
      var link := it.link;
      DedupStep(sorted, i);
      if link != "" && link !in seen {
        LinksSnoc(deduped, it);
        seen := seen + {link};
        deduped := deduped + [it];
      }
    }
    assert sorted[..|sorted|] == sorted;
  }

  /** The recompute branch of `get_news`; `fetched` lists the URLs
      requested, in order. */
  method Refresh(fetch: string -> FetchOutcome, parse: Dates.DateParser)
    returns (items: seq<NewsItem>, ghost fetched: seq<string>)
    ensures items == Aggregated(fetch, parse)
    ensures Servable(items)
    ensures fetched == FeedUrls
  {
    var all;
    all, fetched := CollectFeeds(fetch, parse);
    var sorted := SortByTimestamp(all);
    items := DedupByLink(sorted);
    AggregatedServable(fetch, parse);
  }
}
