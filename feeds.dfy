/** `_fetch_feed` (main.py:110-159): turn one feed's parsed document into
    news items. The HTTP request and the XML parser are outside the model:
    a feed arrives as a `FetchOutcome`, either the parsed document or a
    failure of the request or of the parse, both of which yield no items. */
module Feeds {
  import opened Wrappers
  import Text
  import Urls
  import Dates

  /** A child element looked up by tag: absent, present without text (for
      an Atom `link`: present without an `href` attribute), or present with
      the given text. */
  datatype Elem = Missing | NoText | WithText(s: string)

  /** An RSS `item` with its `title`, `link`, `pubDate` and `date` children. */
  datatype RssItem = RssItem(title: Elem, link: Elem, pubDate: Elem, date: Elem)

  /** An Atom `entry` with its `title`, `link` (`href`) and `updated`. */
  datatype AtomEntry = AtomEntry(title: Elem, link: Elem, updated: Elem)

  /** The root of a parsed feed: the `item`s of its `channel` child when it
      has one, and the Atom `entry` children of the root. */
  datatype Document = Document(channel: Option<seq<RssItem>>, entries: seq<AtomEntry>)

  datatype FetchOutcome = Fetched(doc: Document) | Failed

  /** One news item. `published` is the date text as found, `None` when an
      Atom `updated` element has no text. */
  datatype NewsItem = NewsItem(
    title: string,
    link: string,
    published: Option<string>,
    timestamp: int,
    source: string)

  /** The filter `_fetch_feed` applies to every candidate. */
  predicate Keep(x: NewsItem)
  {
    x.title != "" && x.link != ""
  }

  /** What every item leaving `_fetch_feed` satisfies. */
  predicate WellFormed(x: NewsItem)
  {
    Keep(x) && Text.Trimmed(x.title) && Text.Trimmed(x.link)
  }

  /** `(item.findtext(tag) or '')`. */
  function FindText(e: Elem): string
  {
    if e.WithText? then e.s else ""
  }

  /** `item.findtext('pubDate') or item.findtext('date') or ''`. */
  function RssDate(it: RssItem): string
  {
    if FindText(it.pubDate) != "" then FindText(it.pubDate)
    else if FindText(it.date) != "" then FindText(it.date)
    else ""
  }

  /** `_domain(link) or _domain(url)`. */
  function Source(link: string, feedUrl: string): string
  {
    var d := Urls.Domain(link);
    if d != "" then d else Urls.Domain(feedUrl)
  }

  /** The record built for an RSS item, before the filter. */
  function RssCandidate(feedUrl: string, it: RssItem, parse: Dates.DateParser): NewsItem
  {
    var title := Text.Strip(FindText(it.title));
    var link := Text.Strip(FindText(it.link));
    var pub := RssDate(it);
    NewsItem(title, link, Some(pub), Dates.Timestamp(Some(pub), parse), Source(link, feedUrl))
  }

  /** An entry on which `_fetch_feed` raises: `.strip()` is called on the
      `None` of a title element without text or of a link without `href`. */
  predicate AtomRaises(e: AtomEntry)
  {
    e.title.NoText? || e.link.NoText?
  }

  /** `(updated_el.text if updated_el is not None else '')`. */
  function AtomDate(e: AtomEntry): Option<string>
  {
    match e.updated
    case Missing => Some("")
    case NoText => None
    case WithText(s) => Some(s)
  }

  /** The record built for an Atom entry that does not raise. */
  function AtomCandidate(feedUrl: string, e: AtomEntry, parse: Dates.DateParser): NewsItem
  {
    var title := Text.Strip(FindText(e.title));
    var link := Text.Strip(FindText(e.link));
    var pub := AtomDate(e);
    NewsItem(title, link, pub, Dates.Timestamp(pub, parse), Source(link, feedUrl))
  }

  /** `f` applied to every element of `s`, in order. */
  function Map<A, B>(f: A -> B, s: seq<A>): (r: seq<B>)
    ensures |r| == |s|
    ensures forall i :: 0 <= i < |s| ==> r[i] == f(s[i])
  {
    seq(|s|, i requires 0 <= i < |s| => f(s[i]))
  }

  function RssCandidates(feedUrl: string, items: seq<RssItem>, parse: Dates.DateParser): (cs: seq<NewsItem>)
    ensures |cs| == |items|
    ensures forall i {:trigger cs[i]} :: 0 <= i < |items| ==> cs[i] == RssCandidate(feedUrl, items[i], parse)
  {
    Map(it => RssCandidate(feedUrl, it, parse), items)
  }

  function AtomCandidates(feedUrl: string, entries: seq<AtomEntry>, parse: Dates.DateParser): (cs: seq<NewsItem>)
    ensures |cs| == |entries|
    ensures forall i {:trigger cs[i]} :: 0 <= i < |entries| ==> cs[i] == AtomCandidate(feedUrl, entries[i], parse)
  {
    Map(e => AtomCandidate(feedUrl, e, parse), entries)
  }

  /** The candidates that pass `if title and link`, in document order. */
  function KeepAll(cs: seq<NewsItem>): seq<NewsItem>
  {
    if cs == [] then []
    else
      var last := cs[|cs| - 1];
      KeepAll(cs[..|cs| - 1]) + (if Keep(last) then [last] else [])
  }

  /** `a` is `b` with some elements left out, the rest in the same order. */
  ghost predicate IsSubsequence<T>(a: seq<T>, b: seq<T>)
    decreases |b|
  {
    a == [] ||
    (b != [] &&
      ((a[|a| - 1] == b[|b| - 1] && IsSubsequence(a[..|a| - 1], b[..|b| - 1])) ||
       IsSubsequence(a, b[..|b| - 1])))
  }

  /** The candidates of a document: the RSS items when it has a `channel`,
      the Atom entries otherwise. */
  function Candidates(feedUrl: string, doc: Document, parse: Dates.DateParser): seq<NewsItem>
  {
    if doc.channel.Some? then RssCandidates(feedUrl, doc.channel.value, parse)
    else AtomCandidates(feedUrl, doc.entries, parse)
  }

  /** `_fetch_feed` raises on this document: it has no `channel` and one of
      its entries raises. */
  predicate Raises(doc: Document)
  {
    doc.channel.None? && SomeEntryRaises(doc.entries)
  }

  predicate SomeEntryRaises(entries: seq<AtomEntry>)
  {
    exists i :: 0 <= i < |entries| && AtomRaises(entries[i])
  }

  /** The items `_fetch_feed(url)` returns. */
  function FeedItems(feedUrl: string, outcome: FetchOutcome, parse: Dates.DateParser): seq<NewsItem>
  {
    match outcome
    case Failed => []
    case Fetched(doc) => if Raises(doc) then [] else KeepAll(Candidates(feedUrl, doc, parse))
  }

  /** The filter keeps exactly the candidates with a non-empty title and
      link, each as often as it occurs, and keeps their order. */
  lemma KeepAllFilters(cs: seq<NewsItem>)
    ensures forall x :: x in KeepAll(cs) <==> x in cs && Keep(x)
    ensures forall x :: multiset(KeepAll(cs))[x] == if Keep(x) then multiset(cs)[x] else 0
    ensures IsSubsequence(KeepAll(cs), cs)
  {
    KeepAllCount(cs);
    KeepAllOrder(cs);
    forall x ensures x in KeepAll(cs) <==> x in cs && Keep(x) {
      assert x in KeepAll(cs) <==> multiset(KeepAll(cs))[x] > 0;
      assert x in cs <==> multiset(cs)[x] > 0;
    }
  }

  lemma {:induction false} KeepAllCount(cs: seq<NewsItem>)
    ensures forall x :: multiset(KeepAll(cs))[x] == if Keep(x) then multiset(cs)[x] else 0
  {
    if cs != [] {
      var init, last := cs[..|cs| - 1], cs[|cs| - 1];
      KeepAllCount(init);
      assert cs == init + [last];
      assert multiset(cs) == multiset(init) + multiset{last};
      assert multiset(KeepAll(cs)) == multiset(KeepAll(init)) + (if Keep(last) then multiset{last} else multiset{});
    }
  }

  lemma {:induction false} KeepAllOrder(cs: seq<NewsItem>)
    ensures IsSubsequence(KeepAll(cs), cs)
  {
    if cs != [] {
      var init, last := cs[..|cs| - 1], cs[|cs| - 1];
      KeepAllOrder(init);
      var r := KeepAll(cs);
      assert cs[..|cs| - 1] == init;
      if Keep(last) {
        assert r == KeepAll(init) + [last];
        assert r[..|r| - 1] == KeepAll(init);
      } else {
        assert r == KeepAll(init);
      }
    }
  }

  /** Every candidate built from a document has a trimmed title and link. */
  lemma CandidatesTrimmed(feedUrl: string, doc: Document, parse: Dates.DateParser)
    ensures forall x :: x in Candidates(feedUrl, doc, parse) ==> Text.Trimmed(x.title) && Text.Trimmed(x.link)
  {
  }

  /** An item leaves `_fetch_feed` only with a non-empty trimmed title and
      link: the stripped text of its element. */
  lemma FeedItemsWellFormed(feedUrl: string, outcome: FetchOutcome, parse: Dates.DateParser)
    ensures forall x :: x in FeedItems(feedUrl, outcome, parse) ==> WellFormed(x)
  {
    if outcome.Fetched? {
      CandidatesTrimmed(feedUrl, outcome.doc, parse);
      KeepAllFilters(Candidates(feedUrl, outcome.doc, parse));
    }
  }

  /** A feed whose request or parse failed, or on which `_fetch_feed`
      raises, gives nothing. Otherwise exactly the candidates with a
      non-empty title and link come out, in document order; with a `channel`
      these are the RSS items, and the Atom entries play no part. */
  lemma FeedItemsFromDocument(feedUrl: string, outcome: FetchOutcome, parse: Dates.DateParser)
    ensures outcome.Failed? || Raises(outcome.doc) ==> FeedItems(feedUrl, outcome, parse) == []
    ensures outcome.Fetched? && !Raises(outcome.doc) ==>
      var out := FeedItems(feedUrl, outcome, parse);
      var cs := Candidates(feedUrl, outcome.doc, parse);
      && IsSubsequence(out, cs)
      && (forall x :: x in out <==> x in cs && Keep(x))
      && forall x :: multiset(out)[x] == if Keep(x) then multiset(cs)[x] else 0
    ensures outcome.Fetched? && outcome.doc.channel.Some? ==>
      var doc := outcome.doc;
      FeedItems(feedUrl, outcome, parse) == FeedItems(feedUrl, Fetched(Document(doc.channel, [])), parse)
  {
    if outcome.Fetched? {
      KeepAllFilters(Candidates(feedUrl, outcome.doc, parse));
    }
  }

  /** The derived fields of an item: its `source` is the domain of its own
      link, or of the feed URL when that is empty; its `timestamp` is what
      `_parse_date` gives for its own `published` text. */
  predicate DerivedFields(x: NewsItem, feedUrl: string, parse: Dates.DateParser)
  {
    && x.source == (if Urls.Domain(x.link) != "" then Urls.Domain(x.link) else Urls.Domain(feedUrl))
    && x.timestamp == Dates.Timestamp(x.published, parse)
  }

  /** What every item `_fetch_feed(url)` emits carries. Each comes from one
      element of the document: for an RSS `item`, the stripped `title` and
      `link` texts and the unstripped date text of `pubDate` or `date`; for
      an Atom `entry`, the stripped `title` text and `href`, and the
      `updated` text. Its `source` and `timestamp` are derived from its own
      link and date text. */
  lemma FeedItemsOrigin(feedUrl: string, outcome: FetchOutcome, parse: Dates.DateParser)
    ensures forall x :: x in FeedItems(feedUrl, outcome, parse) ==> DerivedFields(x, feedUrl, parse)
    ensures outcome.Fetched? && outcome.doc.channel.Some? ==>
      forall x :: x in FeedItems(feedUrl, outcome, parse) ==>
        exists it :: it in outcome.doc.channel.value && FromRssItem(x, it)
    ensures outcome.Fetched? && outcome.doc.channel.None? ==>
      forall x :: x in FeedItems(feedUrl, outcome, parse) ==>
        exists e :: e in outcome.doc.entries && FromAtomEntry(x, e)
  {
    if outcome.Fetched? {
      var doc := outcome.doc;
      if doc.channel.Some? {
        RssOrigin(feedUrl, doc.channel.value, parse);
      } else {
        AtomOrigin(feedUrl, doc.entries, parse);
      }
    }
  }

  lemma RssOrigin(feedUrl: string, items: seq<RssItem>, parse: Dates.DateParser)
    ensures forall x :: x in KeepAll(RssCandidates(feedUrl, items, parse)) ==>
      DerivedFields(x, feedUrl, parse) && exists it :: it in items && FromRssItem(x, it)
  {
    var cs := RssCandidates(feedUrl, items, parse);
    KeepAllFilters(cs);
    forall x | x in KeepAll(cs)
      ensures DerivedFields(x, feedUrl, parse) && exists it :: it in items && FromRssItem(x, it)
    {
      var i :| 0 <= i < |cs| && cs[i] == x;
      RssCandidateFields(feedUrl, items[i], parse);
    }
  }

  lemma AtomOrigin(feedUrl: string, entries: seq<AtomEntry>, parse: Dates.DateParser)
    ensures forall x :: x in KeepAll(AtomCandidates(feedUrl, entries, parse)) ==>
      DerivedFields(x, feedUrl, parse) && exists e :: e in entries && FromAtomEntry(x, e)
  {
    var cs := AtomCandidates(feedUrl, entries, parse);
    KeepAllFilters(cs);
    forall x | x in KeepAll(cs)
      ensures DerivedFields(x, feedUrl, parse) && exists e :: e in entries && FromAtomEntry(x, e)
    {
      var i :| 0 <= i < |cs| && cs[i] == x;
      AtomCandidateFields(feedUrl, entries[i], parse);
    }
  }

  lemma RssCandidateFields(feedUrl: string, it: RssItem, parse: Dates.DateParser)
    ensures DerivedFields(RssCandidate(feedUrl, it, parse), feedUrl, parse)
    ensures FromRssItem(RssCandidate(feedUrl, it, parse), it)
  {
  }

  /** An RSS item with neither `pubDate` nor `date` keeps `published: ""`
      and, since no format accepts the empty text, is stamped 0. */
  lemma RssUndatedTimestamp(feedUrl: string, it: RssItem, parse: Dates.DateParser)
    requires FindText(it.pubDate) == "" && FindText(it.date) == ""
    requires forall f :: parse(f, "") == None
    ensures RssCandidate(feedUrl, it, parse).published == Some("")
    ensures RssCandidate(feedUrl, it, parse).timestamp == 0
  {
    assert RssDate(it) == "";
    assert Dates.Timestamp(Some(""), parse) == 0 by {
      Dates.TimestampDefault(Some(""), parse);
    }
  }

  lemma AtomCandidateFields(feedUrl: string, e: AtomEntry, parse: Dates.DateParser)
    ensures DerivedFields(AtomCandidate(feedUrl, e, parse), feedUrl, parse)
    ensures FromAtomEntry(AtomCandidate(feedUrl, e, parse), e)
  {
  }

  /** `x` holds the texts of the RSS item `it`. */
  predicate FromRssItem(x: NewsItem, it: RssItem)
  {
    && x.title == Text.Strip(FindText(it.title))
    && x.link == Text.Strip(FindText(it.link))
    && x.published == Some(RssDate(it))
  }

  /** `x` holds the texts of the Atom entry `e`. */
  predicate FromAtomEntry(x: NewsItem, e: AtomEntry)
  {
    && x.title == Text.Strip(FindText(e.title))
    && x.link == Text.Strip(FindText(e.link))
    && x.published == AtomDate(e)
  }

  lemma KeepAllStep(cs: seq<NewsItem>, i: nat)
    requires i < |cs|
    ensures KeepAll(cs[..i + 1]) == KeepAll(cs[..i]) + (if Keep(cs[i]) then [cs[i]] else [])
  {
    assert cs[..i + 1][..i] == cs[..i];
  }

  lemma KeepAllWhole(cs: seq<NewsItem>)
    ensures KeepAll(cs[..|cs|]) == KeepAll(cs)
  {
    assert cs[..|cs|] == cs;
  }

  /** The loop over the `item`s of a `channel`. */
  method FetchRss(feedUrl: string, rss: seq<RssItem>, parse: Dates.DateParser)
    returns (items: seq<NewsItem>)
    ensures items == KeepAll(RssCandidates(feedUrl, rss, parse))
  {
    items := [];
    ghost var cs := RssCandidates(feedUrl, rss, parse);
    for i := 0 to |rss|
      invariant items == KeepAll(cs[..i])
    {
      var it := rss[i];
      var title := Text.Strip(FindText(it.title));
      var link := Text.Strip(FindText(it.link));
      var pub := RssDate(it);
      var ts := Dates.ParseDate(Some(pub), parse);
      if title != "" && link != "" {
        items := items + [NewsItem(title, link, Some(pub), ts, Source(link, feedUrl))];
      }
      assert NewsItem(title, link, Some(pub), ts, Source(link, feedUrl)) == cs[i];
      KeepAllStep(cs, i);
    }
    KeepAllWhole(cs);
  }

  /** The loop over the Atom `entry` elements; an entry that raises ends
      the whole feed with no items. */
  method FetchAtom(feedUrl: string, entries: seq<AtomEntry>, parse: Dates.DateParser)
    returns (items: seq<NewsItem>)
    ensures SomeEntryRaises(entries) ==> items == []
    ensures !SomeEntryRaises(entries) ==> items == KeepAll(AtomCandidates(feedUrl, entries, parse))
  {
    items := [];
    ghost var cs := AtomCandidates(feedUrl, entries, parse);
    for i := 0 to |entries|
      invariant items == KeepAll(cs[..i])
      invariant forall j :: 0 <= j < i ==> !AtomRaises(entries[j])
    {
      var e := entries[i];
      if AtomRaises(e) {
        assert SomeEntryRaises(entries);
        return [];
      }
      assert forall j :: 0 <= j < i + 1 ==> !AtomRaises(entries[j]);
      var title := Text.Strip(FindText(e.title));
      var link := Text.Strip(FindText(e.link));
      var pub := AtomDate(e);
      var ts := Dates.ParseDate(pub, parse);
      if title != "" && link != "" {
        items := items + [NewsItem(title, link, pub, ts, Source(link, feedUrl))];
      }
      assert NewsItem(title, link, pub, ts, Source(link, feedUrl)) == cs[i];
      KeepAllStep(cs, i);
    }
    KeepAllWhole(cs);
  }

  /** `_fetch_feed(url)`, given what the request and the XML parser produced. */
  method FetchFeed(feedUrl: string, outcome: FetchOutcome, parse: Dates.DateParser)
    returns (items: seq<NewsItem>)
    ensures items == FeedItems(feedUrl, outcome, parse)
  {
    if outcome.Failed? {
      return [];
    }
    var doc := outcome.doc;
    if doc.channel.Some? {
      items := FetchRss(feedUrl, doc.channel.value, parse);
    } else {
      items := FetchAtom(feedUrl, doc.entries, parse);
    }
  }
}
