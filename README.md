# News aggregation and waitlist: a verified Dafny model

This project models the two pieces of the backend that hold algorithmic content.

The first is the news aggregator of `main.py`. `GET /api/news?limit=n` serves a process-wide cache `{"ts", "items"}`. The cache is served as it is when it is less than ten minutes old and not empty. Otherwise the five feeds of `_FEEDS` are fetched in order. Each RSS `channel/item` or Atom `entry` becomes an item `{title, link, published, timestamp, source}`. The title and link are stripped, and an item without either is dropped. The date text is tried against three date formats in a fixed order, with 0 as the default. The source is the domain of the link, or of the feed when the link gives none. The concatenation of all feeds is sorted newest first with a stable sort and deduplicated by link, keeping the first item. The result replaces the cache, and the response is its first `max(1, min(50, limit))` items.

The second is the waitlist of `backend/main.py`. `join_waitlist` lower-cases an e-mail address and loads the stored list. It answers `exists` if the address is already there. Otherwise it appends the address and saves the list.

Modules, one per concern:

- `Wrappers` (wrappers.dfy): `Option`.
- `Text` (text.dfy): `str.strip()` and `str.lower()` on ASCII.
- `Urls` (urls.dfy): `_domain`, with the part of `urlsplit` that decides the netloc.
- `Dates` (dates.dfy): `_parse_date` as an ordered first-success search.
- `Feeds` (feeds.dfy): `_fetch_feed`, from a parsed document to items.
- `Aggregate` (aggregate.dfy): the recompute step, which concatenates, sorts stably and deduplicates.
- `News` (news.dfy): the cache as a class, `get_news` and the limit clamp.
- `Waitlist` (waitlist.dfy): `load_waitlist`, `save_waitlist` and `join_waitlist` over the stored file.

Some behaviour is outside the model and enters as parameters:

- The network is `fetch: string -> FetchOutcome`. A request or parse failure is `Failed`, and a feed that failed yields no items.
- `datetime.strptime(text, fmt).timestamp()` is `parse: (DateFormat, string) -> Option<int>`.
- The wall clock is the `now` argument of `GetNews`.
- A ghost log `fetchLog` in the cache class records the feeds requested, so that "no fetch when fresh" can be stated.

Behaviour of the code that the model keeps and that is easy to miss:

- `get_news` takes one parameter, `limit`, 12 by default (main.py:163). The response is the first `max(1, min(50, limit))` items.
- `_domain` removes every `"www."` in the netloc (`str.replace`), not only a leading one.
- An Atom `title` element without text, or a `link` element without `href`, makes `.strip()` raise on `None`. The whole feed then yields nothing (main.py:145-146, 158-159).
- An Atom `updated` element without text gives `published = None` and timestamp 0.
- Two requests less than ten minutes apart return the same list only when the cache they find is fresh. A cache served because it was younger than ten minutes at the first request may have expired by the second. `TwoRequests` states the guarantee the code does give.

## Model

| member | source | states |
|---|---|---|
| Text.Strip | main.py:126-127 | `str.strip()`: the result has no whitespace at either end |
| Text.StripIsSlice | main.py:126-127 | the stripped text is a slice `s[i..j]` of the input with only whitespace outside it |
| Text.StripFixedPoint | main.py:126-127 | stripping leaves a string unchanged exactly when it has no surrounding whitespace |
| Text.StripIdempotent | main.py:126-127 | stripping twice equals stripping once |
| Text.StripEmpty | main.py:130 | the stripped text is empty exactly when the input is all whitespace: when `if title and link` drops an item |
| Text.Lower | backend/main.py:61 | `str.lower()`: same length, no upper-case letter left, a character changes exactly when it is an upper-case letter, and 'A'..'Z' become the letter 32 code points above ('a'..'z') |
| Text.LowerIdempotent | backend/main.py:61-63 | lower-casing twice equals lower-casing once |
| Text.LowerIgnoresCase | backend/main.py:61-63 | two addresses that agree at every position up to the case of an ASCII letter have the same lower-case form, so they are one waitlist entry |
| Urls.AfterScheme | main.py:105 | `urlsplit` cuts the URL after a ':' exactly when that ':' ends a scheme (a letter, then scheme characters only), and then goes on with the text after it; otherwise with the whole URL |
| Urls.NetlocSpanUnique | main.py:105 | the netloc of a text is unique: one longest prefix without `/`, `?` or `#` |
| Urls.Netloc | main.py:105 | without "//" the netloc is ""; after "//" it is the longest prefix without `/`, `?` or `#`, and the split fails (`None`) exactly when that prefix holds one square bracket but not the other |
| Urls.RemoveWww | main.py:105 | `replace("www.", "")` never makes the text longer; the result on every input is fixed by `Urls.RemoveWwwUnchanged` (no `"www."`) and `Urls.RemoveWwwFirst` (otherwise) |
| Urls.RemoveWwwFirst | main.py:105 | `replace` scans left to right: everything before the first `"www."` is kept, that occurrence is dropped, and the scan goes on with the rest, so every non-overlapping occurrence goes |
| Urls.RemoveWwwUnchanged | main.py:105 | the text is left unchanged exactly when it holds no `"www."`, and is strictly shorter when it does |
| Urls.RemoveLeadingWww | main.py:105 | a leading `"www."` is dropped and the rest is treated as if it were the whole text (so `"www.x.com"` becomes `"x.com"`) |
| Urls.Domain | main.py:103-107 | `_domain(url)`: "" on a failed split, else the netloc with `replace("www.", "")`; its properties are stated by `Urls.DomainOfNetloc` |
| Urls.DomainOfNetloc | main.py:103-107 | `_domain` gives `""` when the URL cannot be split; otherwise it gives the netloc with `"www."` removed: never longer, unchanged if it holds no `"www."`, strictly shorter if it does, and equal to the text before the first `"www."` followed by the rest with `"www."` removed |
| Dates.Timestamp | main.py:86-100 | the value `_parse_date` returns: the first successful format's value, else 0; its properties are stated by the three lemmas below and `Dates.ParseDate` |
| Dates.FirstSuccess | main.py:89-97 | the index of the first format whose attempt succeeds: every earlier attempt failed, and the attempt at that index succeeded unless the index is past the end |
| Dates.TimestampFirstWins | main.py:89-95 | when format `i` is the first to parse, its value is the timestamp, whatever later formats would give |
| Dates.TimestampDefault | main.py:100 | when no format parses, the timestamp is 0 |
| Dates.TimestampOfNone | main.py:95-97 | a `None` date text (Atom `updated` without text) gets timestamp 0 |
| Dates.ParseDate | main.py:86-100 | the loop with early return computes the first-success timestamp over RFC 822, ISO 8601 with offset, then ISO 8601 with `Z` |
| Feeds.RssDate | main.py:128 | the RSS date text `pubDate or date or ''`; what an item carries is stated by `Feeds.FeedItemsOrigin` |
| Feeds.RssUndatedTimestamp | main.py:128-129 | an RSS item with neither `pubDate` nor `date` carries `published: ""` and, when no format accepts the empty text, timestamp 0 |
| Feeds.AtomDate | main.py:147 | the Atom date text, `None` for an `updated` element without text; what an item carries is stated by `Feeds.FeedItemsOrigin` |
| Feeds.Source | main.py:136 | `_domain(link) or _domain(url)`; stated for every emitted item by `Feeds.FeedItemsOrigin` |
| Feeds.KeepAll | main.py:130-131 | the filter `if title and link` over the candidates; stated by `Feeds.KeepAllFilters` |
| Feeds.KeepAllFilters | main.py:130-137 | the filter keeps exactly the candidates with non-empty title and link, each as many times as it occurs, in their original order |
| Feeds.CandidatesTrimmed | main.py:126-127 | every candidate built from a document has a trimmed title and link |
| Feeds.FeedItemsWellFormed | main.py:125-156 | every item `_fetch_feed` returns has a non-empty, trimmed title and link |
| Feeds.FeedItems | main.py:110-159 | what `_fetch_feed(url)` returns for a fetch outcome; stated by `Feeds.FeedItemsFromDocument`, `Feeds.FeedItemsWellFormed`, `Feeds.FeedItemsOrigin` and `Feeds.FetchFeed` |
| Feeds.FeedItemsFromDocument | main.py:110-159 | a failed fetch or a raising Atom entry gives `[]`; otherwise the output holds each kept candidate as many times as the candidates do and in their order; with a `channel`, Atom entries play no part |
| Feeds.FeedItemsOrigin | main.py:125-156 | every emitted item comes from one `item` (stripped `title` and `link`, unstripped `pubDate or date`) or one Atom `entry` (stripped `title` and `href`, `updated` text) of the document; its `source` is its own link's domain, else the feed's; its `timestamp` is `_parse_date` of its own `published` |
| Feeds.FetchRss | main.py:123-138 | the RSS loop appends exactly the kept candidates of the `channel` items, in order |
| Feeds.FetchAtom | main.py:140-157 | the Atom loop gives `[]` if some entry raises, else exactly the kept candidates in order |
| Feeds.FetchFeed | main.py:110-159 | `_fetch_feed` returns the specified items of the fetch outcome |
| Aggregate.Insert | main.py:172 | an insertion step of the sort: the result is the input with `x` added (as a multiset) |
| Aggregate.InsertNewestFirst | main.py:172 | inserting into a newest-first list keeps it newest-first |
| Aggregate.SortByTimestamp | main.py:172 | `sorted(..., reverse=True)` is a permutation of its input ordered by non-increasing timestamp |
| Aggregate.InsertStable | main.py:172 | an inserted item is placed before the items with the same timestamp, and those items keep their order |
| Aggregate.SortStable | main.py:171-172 | the sort is stable: for every timestamp, including 0, the items carrying it keep their concatenation order |
| Aggregate.Dedup | main.py:174-181 | the output has pairwise distinct, non-empty links, takes every item from the input, and covers every non-empty link of the input |
| Aggregate.DedupKeepsFirst | main.py:176-180 | each kept item is the first occurrence of its link in the sorted list |
| Aggregate.DedupSubsequence | main.py:176-181 | the output is a subsequence of the sorted list |
| Aggregate.DedupOfDistinct | main.py:174-181 | a list whose links are distinct and non-empty is left unchanged |
| Aggregate.DedupIdempotent | main.py:174-181 | deduplicating twice equals deduplicating once |
| Aggregate.DedupNewestFirst | main.py:172-181 | deduplicating a newest-first list keeps it newest-first |
| Aggregate.Collect | main.py:168-170 | `all_items` after extending it with each feed's items in order; stated by `Aggregate.CollectAppend` and `Aggregate.CollectFeeds` |
| Aggregate.CollectAppend | main.py:168-170 | the items of two consecutive runs of feeds are the items of the first run followed by those of the second |
| Aggregate.CollectWellFormed | main.py:168-170 | every item of the concatenation has a non-empty, trimmed title and link |
| Aggregate.Aggregated | main.py:168-181 | the list a recompute stores: collect, sort, deduplicate; stated by `Aggregate.AggregatedServable` and `Aggregate.Refresh` |
| Aggregate.AggregatedServable | main.py:168-181 | a recompute yields a newest-first list of well-formed items with distinct links, a subsequence of the sorted concatenation |
| Aggregate.CollectFeeds | main.py:168-170 | the `extend` loop concatenates the feeds' items in `_FEEDS` order, and requests exactly the `_FEEDS` URLs, in order |
| Aggregate.DedupByLink | main.py:174-181 | the loop with its `seen` set computes the deduplication |
| Aggregate.Refresh | main.py:168-181 | the recompute branch yields the specified list, that list is servable, and the URLs requested are `_FEEDS` |
| News.ClampLimit | main.py:185 | `max(1, min(50, limit))` lies in 1..50, equals `limit` inside that range, and is 1 below it and 50 above it |
| News.Limited | main.py:185 | the response is the prefix of the items of length `min(len(items), max(1, min(50, limit)))`: at most 50 long, non-empty when the items are (even for `limit <= 0`), and `limit` long when 1 <= `limit` <= 50 and enough items exist |
| News.NewsCache.IsFresh | main.py:165 | the cache test: younger than `_CACHE_TTL` and non-empty; `News.NewsCache.GetNews` states what each outcome does |
| News.NewsCache.constructor | main.py:82 | the cache starts with `ts = 0` and no items |
| News.NewsCache.GetNews | main.py:162-185 | `limit` is 12 by default; when fresh (age under 600 s and non-empty), the cache is served unchanged and nothing is fetched; otherwise all feeds are fetched and the cache becomes `(now, recomputed)`, even when that is empty; the response is the limited cache; the cache stays servable |
| News.NewsCache.Recompute | main.py:167-183 | the `else` branch: the cache becomes `(now, recomputed list)`, stays servable, and the fetch log grows by exactly the URLs the collecting loop requested, `_FEEDS` in order |
| News.TwoRequests | main.py:164-183 | after a stale request, a second request within 600 s gets the same response without fetching when the recomputed list is non-empty, and fetches every feed again when it was empty |
| Waitlist.LoadWaitlist | backend/main.py:37-46 | a file that is absent, unreadable or not a JSON list loads as `[]` |
| Waitlist.SaveWaitlist | backend/main.py:49-51 | `save_waitlist(emails)`: the file afterwards holds the list |
| Waitlist.LoadSaved | backend/main.py:37-51 | loading what `save_waitlist` wrote gives the saved list back; with the file modelled as the list it holds, this holds by that abstraction and states no more than it |
| Waitlist.Joined | backend/main.py:61-66 | after joining, the lower-cased address is in the list, earlier entries are a prefix, the list grows by at most one, it is unchanged exactly when the address was present, and a duplicate-free list stays duplicate-free |
| Waitlist.JoinTwice | backend/main.py:61-66 | joining again with the same address in any letter case changes nothing |
| Waitlist.WaitlistStore.constructor | backend/main.py:15 | the store starts with the given file content |
| Waitlist.WaitlistStore.Join | backend/main.py:59-67 | `exists` exactly when the lower-cased address is present, and then the file is untouched; otherwise `ok` and the file holds the loaded list plus the address |

## Left out

- The HTTP request (`requests.get` with its 8-second timeout and `raise_for_status`) is not modelled. Each feed's outcome is an input, and a failure yields no items.
- XML parsing with `ElementTree` and namespace handling are not modelled. A parsed feed is a record of the elements `_fetch_feed` looks up.
- The record does not capture that `.text` is only the text before an element's first child. Nor does it capture which `link` element `find` returns first.
- `strptime` format matching is not modelled. Neither are float timestamps or the local-timezone reading of the `Z` format. Timestamps are integers given by the `parse` parameter.
- `urlsplit` is modelled only in the parts that decide the netloc: scheme detection, the `//` authority and the unbalanced-bracket `ValueError`. Left out are its stripping of leading control characters, its removal of tab and newline characters, its validation of bracketed hosts and its NFKC netloc check.
- `str.strip` and `str.lower` are modelled on ASCII. Python applies them to all of Unicode.
- Concurrent requests are not modelled. Two requests can both find a stale cache and both recompute, because nothing locks `_news_cache`. The model has one sequential caller.
- The FastAPI routing, CORS middleware and the `/`, `/api/hello` and `/test` endpoints are not modelled. Neither are the database probe, `/api/report`, directory creation or uvicorn start-up. None of them holds logic beyond library calls.
- JSON encoding of the waitlist is not modelled. The stored list is a list of strings, although `load_waitlist` returns a JSON list of any element types as it is.
- A `save_waitlist` that raises is not modelled.
- The `EmailStr` validation and normalisation done by Pydantic are not modelled. The address is the string the handler receives.
- schemas.py is not part of this model. It declares Pydantic models and holds no logic of the repository's own.
