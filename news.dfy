/** `get_news` (main.py:162-185) and the module-level `_news_cache`
    (main.py:82-83): a single cache slot holding the last recomputed list
    and the time it was computed, refreshed when it is older than ten
    minutes or empty, and a response cut to the requested size. */
module News {
  import opened Feeds
  import Dates
  import opened Aggregate

  /** `_CACHE_TTL`, in seconds. */
  const CacheTtl: int := 60 * 10

  /** `max(1, min(50, limit))`. */
  function ClampLimit(limit: int): (n: int)
    ensures 1 <= n <= 50
    ensures 1 <= limit <= 50 ==> n == limit
    ensures limit < 1 ==> n == 1
    ensures limit > 50 ==> n == 50
  {
    if limit < 1 then 1 else if limit > 50 then 50 else limit
  }

  /** `items[: max(1, min(50, limit))]`: a prefix of the list as long as the
      clamped limit, or the whole list when it is shorter; so never longer
      than 50, never empty when the list is not, and as long as `limit` asks
      when that lies in 1..50 and the list is long enough. */
  function Limited(items: seq<NewsItem>, limit: int): (r: seq<NewsItem>)
    ensures r <= items
    ensures |r| <= 50
    ensures items != [] ==> r != []
    ensures |r| == if |items| < ClampLimit(limit) then |items| else ClampLimit(limit)
    ensures |items| <= 1 ==> r == items
  {
    var n := ClampLimit(limit);
    if |items| < n then items else items[..n]
  }

  class NewsCache {
    /** `_news_cache["ts"]`: when the stored list was computed. */
    var ts: int
    /** `_news_cache["items"]`. */
    var items: seq<NewsItem>
    /** The feed URLs requested so far, in order: the fetches a test would
        count with a stub. */
    ghost var fetchLog: seq<string>

    ghost predicate Valid()
      reads this
    {
      Servable(items)
    }

    /** The state at process start: `{"ts": 0, "items": []}`. */
    constructor ()
      ensures Valid()
      ensures ts == 0 && items == [] && fetchLog == []
    {
      ts := 0;
      items := [];
      fetchLog := [];
    }

    /** The cache may be served at time `now`: it is younger than the TTL
        and holds at least one item. */
    predicate IsFresh(now: int)
      reads this
    {
      now - ts < CacheTtl && items != []
    }

    /** `get_news(limit)` at wall-clock time `now`, with `limit` 12 by
        default. A fresh cache is served as it is, without fetching;
        otherwise every feed is fetched in `_FEEDS` order and the recomputed
        list replaces the cache, with timestamp `now`, even when it is empty. */
    method GetNews(now: int, limit: int := 12, fetch: string -> FetchOutcome, parse: Dates.DateParser)
      returns (response: seq<NewsItem>)
      requires Valid()
      modifies this
      ensures Valid()
      ensures old(IsFresh(now)) ==> ts == old(ts) && items == old(items) && fetchLog == old(fetchLog)
      ensures !old(IsFresh(now)) ==>
        ts == now && items == Aggregated(fetch, parse) && fetchLog == old(fetchLog) + FeedUrls
      ensures response == Limited(items, limit)
    {
      if !(now - ts < CacheTtl && items != []) {
        Recompute(now, fetch, parse);
      }
      response := Limited(items, limit);
    }

    /** The `else` branch of `get_news`: fetch every feed, then store the
        recomputed list and the time. */
    method Recompute(now: int, fetch: string -> FetchOutcome, parse: Dates.DateParser)
      modifies this
      ensures Valid()
      ensures ts == now && items == Aggregated(fetch, parse) && fetchLog == old(fetchLog) + FeedUrls
    {
      var recomputed;
      ghost var fetched;
      recomputed, fetched := Refresh(fetch, parse);
      fetchLog := fetchLog + fetched;
      items := recomputed;
      ts := now;
    }
  }

  /** Two requests less than `CacheTtl` seconds apart, the first of which
      finds the cache stale. When the first recomputes a non-empty list, the
      second is served that same list and fetches nothing; when the first
      recomputes an empty list, the second fetches every feed again. */
  method TwoRequests(
    cache: NewsCache, now1: int, now2: int, limit: int,
    fetch1: string -> FetchOutcome, fetch2: string -> FetchOutcome, parse: Dates.DateParser)
    returns (first: seq<NewsItem>, second: seq<NewsItem>)
    requires cache.Valid() && !cache.IsFresh(now1)
    requires now1 <= now2 < now1 + CacheTtl
    modifies cache
    ensures cache.Valid()
    ensures Aggregated(fetch1, parse) != [] ==>
      && second == first
      && cache.items == Aggregated(fetch1, parse) && cache.ts == now1
      && cache.fetchLog == old(cache.fetchLog) + FeedUrls
    ensures Aggregated(fetch1, parse) == [] ==>
      && first == []
      && cache.items == Aggregated(fetch2, parse) && cache.ts == now2
      && cache.fetchLog == old(cache.fetchLog) + FeedUrls + FeedUrls
  {
    first := cache.GetNews(now1, limit, fetch1, parse);
    second := cache.GetNews(now2, limit, fetch2, parse);
  }
}
