/** The news-feed pipeline of common.py: the feed registry, the per-entry
    rules that turn a parsed RSS entry into an item (link rewriting, title
    cleaning, summary text, image choice), the cached per-feed fetch, the
    optional query filter and the newest-first ordering. The RSS parser, the
    HTML-to-text conversion, the `<img>` lookup, date parsing and SHA-1 are
    oracles. */
module Feeds {
  import opened Wrappers
  import opened Text
  import opened Seqs
  import opened Json
  import opened Urls
  import opened FeedCache

  // ---------------------------------------------------------------------
  // Registry
  // ---------------------------------------------------------------------

  /** `_gn(site_query, days)`: a Google News RSS search restricted to rtl.nl. */
  function GoogleNews(siteQuery: string, days: int): string {
    var q := Strip("site:rtl.nl " + siteQuery + " when:" + IntToString(days) + "d");
    "https://news.google.com/rss/search?q=" + QuotePlus(q) + "&hl=nl&gl=NL&ceid=NL:nl"
  }

  /** `FEEDS`: feed label to feed URL. */
  const FEEDS: map<string, string> := map[
    "nos_binnenland" := "https://feeds.nos.nl/nosnieuwsbinnenland",
    "nos_buitenland" := "https://feeds.nos.nl/nosnieuwsbuitenland",
    "nos_opmerkelijk" := "https://feeds.nos.nl/nosnieuwsopmerkelijk",
    "nos_tech" := "https://feeds.nos.nl/nosnieuwstech",
    "nos_sport" := "https://feeds.nos.nl/nossportalgemeen",
    "nos_f1" := "https://feeds.nos.nl/nossportformule1",
    "nos_op3" := "https://feeds.nos.nl/nosop3",
    "nu_algemeen" := "https://www.nu.nl/rss/Algemeen",
    "nu_sport" := "https://www.nu.nl/rss/Sport",
    "nu_entertainment" := "https://www.nu.nl/rss/entertainment",
    "nu_opmerkelijk" := "https://www.nu.nl/rss/Opmerkelijk",
    "nu_tech" := "https://www.nu.nl/rss/tech-wetenschap",
    "ad_home" := "https://www.ad.nl/home/rss.xml",
    "ad_show" := "https://www.ad.nl/showbytes/rss.xml",
    "ad_sterren" := "https://www.ad.nl/sterren/rss.xml",
    "rtv_mh" := "https://rtvmiddenholland.nl/feed/",
    "rtl_algemeen" := GoogleNews("", 30),
    "rtl_nieuws" := GoogleNews("nieuws", 30),
    "rtl_boulevard" := GoogleNews("boulevard", 30),
    "rtl_tv" := GoogleNews("tv", 30),
    "rtl_sport" := GoogleNews("sport", 30),
    "rtl_politiek" := GoogleNews("politiek", 30),
    "rtl_binnenland" := GoogleNews("binnenland", 30),
    "rtl_buitenland" := GoogleNews("buitenland", 30),
    "rtl_economie" := GoogleNews("economie OR geld OR beurs", 30),
    "rtl_lifestyle" := GoogleNews("lifestyle OR gezondheid OR wonen OR eten", 30),
    "rtl_uitzendingen" := GoogleNews("uitzendingen OR gemist OR kijken", 30),
    "rtl_puzzels" := GoogleNews("puzzels OR quiz OR spel", 30)
  ]

  /** `CATEGORY_FEEDS`: section name to the feed labels it merges. */
  const CATEGORY_FEEDS: map<string, seq<string>> := map[
    "Net binnen" := ["nos_binnenland", "nos_buitenland", "nu_algemeen", "ad_home", "rtv_mh", "rtl_algemeen"],
    "Binnenland" := ["nos_binnenland", "nu_algemeen", "ad_home", "rtv_mh", "rtl_binnenland"],
    "Buitenland" := ["nos_buitenland", "nu_algemeen", "ad_home", "rtl_buitenland"],
    "Show" := ["nos_op3", "nu_entertainment", "ad_show", "ad_sterren", "rtl_boulevard"],
    "Lokaal" := ["rtv_mh"],
    "Sport" := ["nos_sport", "nos_f1", "nu_sport", "rtl_sport"],
    "Tech" := ["nos_tech", "nu_tech", "rtl_algemeen"],
    "Opmerkelijk" := ["nos_opmerkelijk", "nu_opmerkelijk", "rtl_algemeen"],
    "RTL Nieuws" := ["rtl_nieuws"],
    "RTL Boulevard" := ["rtl_boulevard"],
    "RTL TV" := ["rtl_tv"],
    "RTL Sport" := ["rtl_sport"],
    "RTL Politiek" := ["rtl_politiek"],
    "RTL Binnenland" := ["rtl_binnenland"],
    "RTL Buitenland" := ["rtl_buitenland"],
    "RTL Economie" := ["rtl_economie"],
    "RTL Lifestyle" := ["rtl_lifestyle"],
    "RTL Uitzendingen" := ["rtl_uitzendingen"],
    "RTL Puzzels" := ["rtl_puzzels"],
    "RTL Algemeen" := ["rtl_algemeen"]
  ]

  // ---------------------------------------------------------------------
  // Entries and items
  // ---------------------------------------------------------------------

  /** One parsed RSS entry. Text fields are `""` when absent; the media and
      link lists are raw values (`JNull` when absent); `dt` is what
      `_parse_dt` makes of the entry's dates. */
  datatype Entry = Entry(
    link: Link,
    title: string,
    summary: string,
    description: string,
    dt: Option<int>,
    mediaContent: Json,
    mediaThumbnail: Json,
    links: Json)

  /** The HTML tools applied to a summary: its text as
      `get_text(" ", strip=True)`, and the `src` of its first `<img>`
      (`None` when there is none or parsing fails). */
  datatype Html = Html(text: string -> string, imgSrc: string -> Option<string>)

  /** One collected item. */
  datatype Item = Item(
    title: string,
    link: Link,
    dt: Option<int>,
    rssSummary: string,
    img: Json,
    source: string,
    feedLabel: string)

  /** `within_hours(dt, hours)` at time `now`: a missing date is never recent. */
  function WithinHours(dt: Option<int>, hours: int, now: int): (r: bool)
    ensures dt.None? ==> !r
    ensures dt.Some? && dt.value >= now && hours >= 0 ==> r
  {
    dt.Some? && dt.value >= now - hours * 3600
  }

  /** Widening the window never loses an item, and an undated item is never
      inside any window. */
  lemma {:induction false} WithinHoursMonotone(dt: Option<int>, h1: int, h2: int, now: int)
    requires h1 <= h2
    ensures WithinHours(dt, h1, now) ==> WithinHours(dt, h2, now)
    ensures dt.None? ==> !WithinHours(dt, h2, now)
    ensures dt.Some? ==> (WithinHours(dt, h1, now) <==> now - dt.value <= h1 * 3600)
  {
  }

  /** `item_id(it)`: the first 16 hex digits of a digest of link and title. */
  function ItemId(it: Item, sha1Hex: string -> string): (r: string)
    ensures |r| <= 16
  {
    PySliceNonNegative(sha1Hex(LinkText(it.link) + "|" + it.title), 0, 16);
    PySlice(sha1Hex(LinkText(it.link) + "|" + it.title), 0, 16)
  }

  /** Items agreeing on link and title cannot be told apart by their id. */
  lemma {:induction false} ItemIdOnlyLinkAndTitle(a: Item, b: Item, sha1Hex: string -> string)
    requires a.link == b.link && a.title == b.title
    ensures ItemId(a, sha1Hex) == ItemId(b, sha1Hex)
  {
  }

  // ---------------------------------------------------------------------
  // Image choice
  // ---------------------------------------------------------------------

  /** `entry.get("media_content") or entry.get("media_thumbnail")`. */
  function MediaCandidate(e: Entry): Json {
    FirstTruthy([e.mediaContent], e.mediaThumbnail)
  }

  /** The `<img src>` of the summary, looked up only when it contains `<img`. */
  function ImageFromSummary(summary: string, html: Html): (r: Json)
    ensures r != JNull ==> Contains(summary, "<img") && r.JStr? && r.s != ""
  {
    if Contains(summary, "<img") then
      match html.imgSrc(summary)
      case Some(src) => if src != "" then JStr(src) else JNull
      case None => JNull
    else JNull
  }

  /** `l.get("rel") == "enclosure" and (l.get("type") or "").startswith("image/")`. */
  function IsImageEnclosure(l: Json): (r: Result<bool>)
    ensures r.Ok? ==> l.JObj?
    ensures r == Ok(true) ==> Get(l.fields, "rel") == JStr("enclosure")
  {
    var d :- AsDict(l);
    if Get(d, "rel") != JStr("enclosure") then Ok(false)
    else
      var ty := FirstTruthy([Get(d, "type")], JStr(""));
      if ty.JStr? then Ok(IsPrefix("image/", ty.s)) else Err("AttributeError")
  }

  /** The enclosure loop and the summary fallback after it. */
  function ScanLinks(ls: seq<Json>, summary: string, html: Html): Result<Json>
    decreases |ls|
  {
    if |ls| == 0 then Ok(ImageFromSummary(summary, html))
    else
      var hit :- IsImageEnclosure(ls[0]);
      if hit then Ok(Get(ls[0].fields, "href")) else ScanLinks(ls[1..], summary, html)
  }

  function ImageFromLinks(e: Entry, html: Html): Result<Json> {
    var ls :- Iterate(e.links);
    ScanLinks(ls, e.summary, html)
  }

  /** `_extract_image_from_entry`: the first media URL, else the first image
      enclosure's `href`, else the summary's first `<img src>`, else `None`.
      Malformed media or link lists raise as they do in Python. */
  function ExtractImage(e: Entry, html: Html): (r: Result<Json>)
    ensures var mc := MediaCandidate(e);
            mc.JList? && |mc.items| > 0 && !mc.items[0].JObj? ==> r == Err("AttributeError")
    ensures var mc := MediaCandidate(e);
            !(mc.JList? && |mc.items| > 0) ==> r == ImageFromLinks(e, html)
  {
    var mc := MediaCandidate(e);
    if mc.JList? && |mc.items| > 0 then
      var first :- AsDict(mc.items[0]);
      var url := Get(first, "url");
      if Truthy(url) then Ok(url) else ImageFromLinks(e, html)
    else ImageFromLinks(e, html)
  }

  /** A media list whose first record carries a URL wins outright. */
  lemma {:induction false} ImageFromMediaFirst(e: Entry, html: Html)
    requires MediaCandidate(e).JList? && |MediaCandidate(e).items| > 0
    requires MediaCandidate(e).items[0].JObj?
    requires Truthy(Get(MediaCandidate(e).items[0].fields, "url"))
    ensures ExtractImage(e, html) == Ok(Get(MediaCandidate(e).items[0].fields, "url"))
  {
  }

  /** `media_thumbnail` is consulted only when `media_content` is falsy. */
  lemma {:induction false} ThumbnailOnlyWithoutContent(e: Entry, t: Json, html: Html)
    requires Truthy(e.mediaContent)
    ensures ExtractImage(e.(mediaThumbnail := t), html) == ExtractImage(e, html)
  {
  }

  /** Without a usable media list the links are scanned; the first image
      enclosure's `href` is returned, even when it is `None`, and no later
      source is consulted. */
  lemma {:induction false} ScanLinksFirstEnclosure(ls: seq<Json>, k: nat, summary: string, html: Html)
    requires k < |ls|
    requires forall j | 0 <= j < k :: IsImageEnclosure(ls[j]) == Ok(false)
    requires IsImageEnclosure(ls[k]) == Ok(true)
    ensures ScanLinks(ls, summary, html) == Ok(Get(ls[k].fields, "href"))
    decreases k
  {
    if k > 0 {
      ScanLinksFirstEnclosure(ls[1..], k - 1, summary, html);
    }
  }

  /** When no link is an image enclosure, the summary decides. */
  lemma {:induction false} ScanLinksNoEnclosure(ls: seq<Json>, summary: string, html: Html)
    requires forall j | 0 <= j < |ls| :: IsImageEnclosure(ls[j]) == Ok(false)
    ensures ScanLinks(ls, summary, html) == Ok(ImageFromSummary(summary, html))
    decreases |ls|
  {
    if |ls| > 0 {
      ScanLinksNoEnclosure(ls[1..], summary, html);
    }
  }

  /** With no media URL and no links the only source left is the summary,
      and a summary without `<img` yields `None`. */
  lemma {:induction false} ImageFromSummaryOnly(e: Entry, html: Html)
    requires !(MediaCandidate(e).JList? && |MediaCandidate(e).items| > 0)
    requires !Truthy(e.links)
    ensures ExtractImage(e, html) == Ok(ImageFromSummary(e.summary, html))
    ensures !Contains(e.summary, "<img") ==> ExtractImage(e, html) == Ok(JNull)
  {
  }

  // ---------------------------------------------------------------------
  // Building items
  // ---------------------------------------------------------------------

  /** What every emitted item satisfies. */
  ghost predicate ValidItem(it: Item) {
    && LinkText(it.link) != ""
    && it.title != ""
    && Clean(it.title)
    && it.source == Host(it.link)
  }

  /** `entry.get("summary") or entry.get("description") or ""`, as text. */
  function SummaryText(e: Entry, html: Html): (r: string)
    ensures Clean(r)
  {
    var summary := if e.summary != "" then e.summary else e.description;
    if summary != "" then CleanText(html.text(summary)) else ""
  }

  /** The body of the entry loop: `None` for an entry skipped because its
      rewritten link or its cleaned title is empty. */
  function MakeItem(e: Entry, name: string, html: Html): (r: Result<Option<Item>>)
    ensures r == Ok(None) <==> LinkText(StripTracking(e.link)) == "" || CleanText(e.title) == ""
    ensures r.Ok? && r.value.Some? ==>
      && ValidItem(r.value.value)
      && r.value.value.link == StripTracking(e.link)
      && r.value.value.title == CleanText(e.title)
      && r.value.value.feedLabel == name
      && r.value.value.dt == e.dt
  {
    var link := StripTracking(e.link);
    var title := CleanText(e.title);
    if LinkText(link) == "" || title == "" then Ok(None)
    else
      var img :- ExtractImage(e, html);
      Ok(Some(Item(title, link, e.dt, SummaryText(e, html), img, Host(link), name)))
  }

  /** An entry is skipped exactly when its link has no parts left after the
      tracking parameters are dropped, or its title is all whitespace. */
  lemma {:induction false} MakeItemSkips(e: Entry, name: string, html: Html)
    ensures MakeItem(e, name, html) == Ok(None) <==>
      (e.link.Parsed? && IsEmptyUrl(StripTracking(e.link).url)) || (e.link.Unparseable? && e.link.text == "") || IsBlank(e.title)
  {
    CleanTextEmptyIffBlank(e.title);
    if e.link.Parsed? {
      RenderEmptyIff(StripTracking(e.link).url);
    }
  }

  /** Every item is well formed and carries the label `name`. */
  ghost predicate FromFeed(items: seq<Item>, name: string) {
    forall k | 0 <= k < |items| :: ValidItem(items[k]) && items[k].feedLabel == name
  }

  lemma {:induction false} FromFeedAppend(a: seq<Item>, b: seq<Item>, name: string)
    requires FromFeed(a, name) && FromFeed(b, name)
    ensures FromFeed(a + b, name)
  {
    forall k | 0 <= k < |a + b| ensures ValidItem((a + b)[k]) && (a + b)[k].feedLabel == name {
      if k >= |a| {
        assert (a + b)[k] == b[k - |a|];
      }
    }
  }

  /** The items of one feed, in entry order. */
  function FeedItems(entries: seq<Entry>, name: string, html: Html): (r: Result<seq<Item>>)
    ensures r.Ok? ==> |r.value| <= |entries|
    ensures r.Ok? ==> FromFeed(r.value, name)
    decreases |entries|
  {
    if |entries| == 0 then Ok([])
    else
      var first :- MakeItem(entries[0], name, html);
      var rest :- FeedItems(entries[1..], name, html);
      var head := if first.Some? then [first.value] else [];
      FromFeedAppend(head, rest, name);
      Ok(head + rest)
  }

  // ---------------------------------------------------------------------
  // Collection
  // ---------------------------------------------------------------------

  /** The registered URL of a label; `""` stands for "not registered". */
  function FeedUrl(feeds: map<string, string>, name: string): string {
    if name in feeds then feeds[name] else ""
  }

  /** The outcome of a call together with the feed cache it leaves behind:
      `_FEED_CACHE` is module state, so the fetches made before an exception
      stay cached. */
  datatype Run<T> = Run(result: Result<T>, cache: Cache<seq<Entry>>)

  /** An item as `collect_items` may emit it for these labels. */
  ghost predicate Emitted(it: Item, labels: seq<string>, feeds: map<string, string>) {
    ValidItem(it) && it.feedLabel in labels && FeedUrl(feeds, it.feedLabel) != ""
  }

  /** The loop over `feed_labels`: unregistered labels are skipped without a
      fetch, `force_fetch` evicts the feed first, and at most `maxPerFeed`
      entries of each feed are considered. `fetch_feed` reads the clock on
      every call: `clock[i]` is the time it reads for `labels[i]`. */
  function CollectFeeds(labels: seq<string>, maxPerFeed: int, force: bool, feeds: map<string, string>,
                        cache: Cache<seq<Entry>>, clock: seq<int>, parse: (string, int) -> seq<Entry>, html: Html): (r: Run<seq<Item>>)
    requires |clock| == |labels|
    ensures r.result.Ok? ==> forall it | it in r.result.value :: Emitted(it, labels, feeds)
    decreases |labels|
  {
    if |labels| == 0 then Run(Ok([]), cache)
    else
      var url := FeedUrl(feeds, labels[0]);
      if url == "" then CollectFeeds(labels[1..], maxPerFeed, force, feeds, cache, clock[1..], parse, html)
      else
        var c := if force then Evict(cache, url) else cache;
        var f := Fetch(c, url, clock[0], parse);
        var items := FeedItems(PySlice(f.d, 0, maxPerFeed), labels[0], html);
        if items.Err? then Run(Err(items.error), f.cache)
        else
          var rest := CollectFeeds(labels[1..], maxPerFeed, force, feeds, f.cache, clock[1..], parse, html);
          if rest.result.Err? then rest
          else
            assert forall it | it in items.value :: Emitted(it, labels, feeds) by {
              forall it | it in items.value ensures Emitted(it, labels, feeds) {
                var k :| 0 <= k < |items.value| && items.value[k] == it;
              }
            }
            Run(Ok(items.value + rest.result.value), rest.cache)
  }

  /** The sort key: the date, or the 1970 epoch for an undated item; negated
      because the list is sorted newest first. */
  function NewestFirstKey(it: Item): int {
    -(if it.dt.Some? then it.dt.value else 0)
  }

  /** The query test of `collect_items` (note: the query is lower-cased but
      not stripped). */
  predicate QueryHit(it: Item, q: string) {
    Contains(Lower(it.title) + " " + Lower(it.rssSummary), q)
  }

  /** The `if query:` filter of `collect_items`. */
  function ApplyQuery(items: seq<Item>, query: string): (r: seq<Item>)
    ensures forall x | x in r :: x in items
    ensures forall x | x in items :: x in r <==> query == "" || QueryHit(x, Lower(query))
    ensures forall x :: multiset(r)[x] == if query == "" || QueryHit(x, Lower(query)) then multiset(items)[x] else 0
    ensures Subsequence(r, items)
  {
    if query != "" then
      var hit := it => QueryHit(it, Lower(query));
      FilterCounts(items, hit);
      FilterSubsequence(items, hit);
      Filter(items, hit)
    else
      SubsequenceOfSelf(items);
      items
  }

  /** `items, {"count": len(items)}`. */
  datatype Collection = Collection(items: seq<Item>, count: nat)

  /** `collect_items(feed_labels, query, max_per_feed, force_fetch)`; the
      query `None` is the empty string. */
  function CollectItems(labels: seq<string>, query: string, maxPerFeed: int, force: bool, feeds: map<string, string>,
                        cache: Cache<seq<Entry>>, clock: seq<int>, parse: (string, int) -> seq<Entry>, html: Html): (r: Run<Collection>)
    requires |clock| == |labels|
    ensures r.result.Ok? ==> r.result.value.count == |r.result.value.items|
    ensures r.result.Ok? ==> forall it | it in r.result.value.items :: Emitted(it, labels, feeds)
    ensures r.result.Ok? && query != "" ==> forall it | it in r.result.value.items :: QueryHit(it, Lower(query))
    ensures r.cache == CollectFeeds(labels, maxPerFeed, force, feeds, cache, clock, parse, html).cache
    ensures r.result.Err? <==> CollectFeeds(labels, maxPerFeed, force, feeds, cache, clock, parse, html).result.Err?
  {
    var c := CollectFeeds(labels, maxPerFeed, force, feeds, cache, clock, parse, html);
    if c.result.Err? then Run(Err(c.result.error), c.cache)
    else
      var kept := ApplyQuery(c.result.value, query);
      SortByFacts(kept, NewestFirstKey);
      assert forall it | it in SortBy(kept, NewestFirstKey) :: it in kept by {
        forall it | it in SortBy(kept, NewestFirstKey) ensures it in kept {
          assert it in multiset(SortBy(kept, NewestFirstKey));
        }
      }
      Run(Ok(Collection(SortBy(kept, NewestFirstKey), |kept|)), c.cache)
  }

  /** The items before the sort. */
  function Unsorted(labels: seq<string>, query: string, maxPerFeed: int, force: bool, feeds: map<string, string>,
                    cache: Cache<seq<Entry>>, clock: seq<int>, parse: (string, int) -> seq<Entry>, html: Html): seq<Item>
    requires |clock| == |labels|
    requires CollectFeeds(labels, maxPerFeed, force, feeds, cache, clock, parse, html).result.Ok?
  {
    ApplyQuery(CollectFeeds(labels, maxPerFeed, force, feeds, cache, clock, parse, html).result.value, query)
  }

  /** The output is the filtered items, newest first (undated items count as
      1970), and items with equal dates stay in collection order. */
  lemma {:induction false} CollectItemsOrder(labels: seq<string>, query: string, maxPerFeed: int, force: bool, feeds: map<string, string>,
                          cache: Cache<seq<Entry>>, clock: seq<int>, parse: (string, int) -> seq<Entry>, html: Html, key: int)
    requires |clock| == |labels|
    requires CollectFeeds(labels, maxPerFeed, force, feeds, cache, clock, parse, html).result.Ok?
    ensures var r := CollectItems(labels, query, maxPerFeed, force, feeds, cache, clock, parse, html);
            var u := Unsorted(labels, query, maxPerFeed, force, feeds, cache, clock, parse, html);
            && r.result.Ok?
            && multiset(r.result.value.items) == multiset(u)
            && (forall i, j | 0 <= i < j < |r.result.value.items| ::
                  (if r.result.value.items[i].dt.Some? then r.result.value.items[i].dt.value else 0)
                  >= (if r.result.value.items[j].dt.Some? then r.result.value.items[j].dt.value else 0))
            && WithKey(r.result.value.items, NewestFirstKey, key) == WithKey(u, NewestFirstKey, key)
  {
    var u := Unsorted(labels, query, maxPerFeed, force, feeds, cache, clock, parse, html);
    SortByFacts(u, NewestFirstKey);
    SortByStable(u, NewestFirstKey, key);
  }

  lemma {:induction false} QueryHitIff(it: Item, query: string)
    ensures QueryHit(it, Lower(query)) <==> Contains(Lower(it.title + " " + it.rssSummary), Lower(query))
  {
    var whole := it.title + " " + it.rssSummary;
    var parts := Lower(it.title) + " " + Lower(it.rssSummary);
    assert |Lower(whole)| == |parts|;
    forall i | 0 <= i < |whole| ensures Lower(whole)[i] == parts[i] {
      if i < |it.title| {
        assert whole[i] == it.title[i];
      } else if i == |it.title| {
        assert whole[i] == ' ';
      } else {
        assert whole[i] == it.rssSummary[i - |it.title| - 1];
      }
    }
    assert Lower(whole) == parts;
  }

  /** With a query, an item survives exactly when the lower-cased query occurs
      in its lower-cased `title + " " + rss_summary`. */
  lemma {:induction false} CollectItemsQuery(labels: seq<string>, query: string, maxPerFeed: int, force: bool, feeds: map<string, string>,
                          cache: Cache<seq<Entry>>, clock: seq<int>, parse: (string, int) -> seq<Entry>, html: Html, it: Item)
    requires query != ""
    requires |clock| == |labels|
    requires CollectFeeds(labels, maxPerFeed, force, feeds, cache, clock, parse, html).result.Ok?
    ensures var r := CollectItems(labels, query, maxPerFeed, force, feeds, cache, clock, parse, html);
            var c := CollectFeeds(labels, maxPerFeed, force, feeds, cache, clock, parse, html);
            it in r.result.value.items <==> it in c.result.value && Contains(Lower(it.title + " " + it.rssSummary), Lower(query))
  {
    var c := CollectFeeds(labels, maxPerFeed, force, feeds, cache, clock, parse, html);
    var kept := ApplyQuery(c.result.value, query);
    var r := CollectItems(labels, query, maxPerFeed, force, feeds, cache, clock, parse, html);
    assert r.result.value.items == SortBy(kept, NewestFirstKey);
    SortByFacts(kept, NewestFirstKey);
    assert it in r.result.value.items <==> it in multiset(r.result.value.items);
    assert it in kept <==> it in multiset(kept);
    QueryHitIff(it, query);
  }

  /** A label with no registered URL contributes nothing and fetches nothing. */
  lemma {:induction false} UnregisteredLabelSkipped(name: string, labels: seq<string>, maxPerFeed: int, force: bool, feeds: map<string, string>,
                                 cache: Cache<seq<Entry>>, t: int, clock: seq<int>, parse: (string, int) -> seq<Entry>, html: Html)
    requires FeedUrl(feeds, name) == ""
    requires |clock| == |labels|
    ensures CollectFeeds([name] + labels, maxPerFeed, force, feeds, cache, [t] + clock, parse, html)
         == CollectFeeds(labels, maxPerFeed, force, feeds, cache, clock, parse, html)
  {
    assert ([name] + labels)[1..] == labels;
    assert ([t] + clock)[1..] == clock;
  }

  /** One feed yields at most `max_per_feed` items; a negative bound counts
      from the end, so `-k` leaves out the last `k` entries. */
  lemma {:induction false} FeedItemsBound(d: seq<Entry>, maxPerFeed: int, name: string, html: Html)
    requires FeedItems(PySlice(d, 0, maxPerFeed), name, html).Ok?
    ensures |FeedItems(PySlice(d, 0, maxPerFeed), name, html).value|
              <= if maxPerFeed >= 0 then maxPerFeed
                 else if |d| + maxPerFeed < 0 then 0 else |d| + maxPerFeed
  {
    var hi := SliceBound(maxPerFeed, |d|);
    assert |PySlice(d, 0, maxPerFeed)| == hi;
  }

  /** `time.time()` does not go backwards during a call. */
  predicate NonDecreasing(clock: seq<int>) {
    forall i, j | 0 <= i <= j < |clock| :: clock[i] <= clock[j]
  }

  /** `e` is the parse of `url` that the fetch for one of the labels made,
      stamped with that fetch's own clock reading. */
  ghost predicate FetchedAt(labels: seq<string>, feeds: map<string, string>, clock: seq<int>,
                            parse: (string, int) -> seq<Entry>, url: string, e: FeedCache.Entry<seq<Entry>>)
    requires |clock| == |labels|
  {
    exists j | 0 <= j < |labels| :: FeedUrl(feeds, labels[j]) == url && e == FeedCache.Entry(clock[j], parse(url, clock[j]))
  }

  lemma {:induction false} FetchedAtShift(labels: seq<string>, feeds: map<string, string>, clock: seq<int>,
                                          parse: (string, int) -> seq<Entry>, url: string, e: FeedCache.Entry<seq<Entry>>)
    requires |clock| == |labels| && |labels| > 0
    requires FetchedAt(labels[1..], feeds, clock[1..], parse, url, e)
    ensures FetchedAt(labels, feeds, clock, parse, url, e)
    ensures e.t in clock[1..]
  {
    var j :| 0 <= j < |labels| - 1 && FeedUrl(feeds, labels[1..][j]) == url && e == FeedCache.Entry(clock[1..][j], parse(url, clock[1..][j]));
    assert labels[j + 1] == labels[1..][j] && clock[j + 1] == clock[1..][j];
  }

  /** Where an entry of the cache comes from after a call: it is the entry
      the call started with, or the parse made by one of the call's own
      fetches of that URL at that fetch's time. No URL leaves the cache. */
  lemma {:induction false} CollectEntryOrigin(labels: seq<string>, maxPerFeed: int, force: bool, feeds: map<string, string>,
                                              cache: Cache<seq<Entry>>, clock: seq<int>, parse: (string, int) -> seq<Entry>, html: Html, url: string)
    requires |clock| == |labels|
    ensures var r := CollectFeeds(labels, maxPerFeed, force, feeds, cache, clock, parse, html);
            && (url in cache ==> url in r.cache)
            && (url in r.cache ==> (url in cache && r.cache[url] == cache[url]) || FetchedAt(labels, feeds, clock, parse, url, r.cache[url]))
    decreases |labels|
  {
    if |labels| > 0 {
      var r := CollectFeeds(labels, maxPerFeed, force, feeds, cache, clock, parse, html);
      var u := FeedUrl(feeds, labels[0]);
      var next := if u == "" then cache else Fetch(if force then Evict(cache, u) else cache, u, clock[0], parse).cache;
      CollectEntryOrigin(labels[1..], maxPerFeed, force, feeds, next, clock[1..], parse, html, url);
      var rest := CollectFeeds(labels[1..], maxPerFeed, force, feeds, next, clock[1..], parse, html);
      assert r.cache == next || r.cache == rest.cache;
      if url in r.cache && r.cache == rest.cache && FetchedAt(labels[1..], feeds, clock[1..], parse, url, r.cache[url]) {
        FetchedAtShift(labels, feeds, clock, parse, url, r.cache[url]);
      }
      if u == url && url in next && url in r.cache && r.cache[url] == next[url] && !(url in cache && next[url] == cache[url]) {
        assert FeedUrl(feeds, labels[0]) == url && r.cache[url] == FeedCache.Entry(clock[0], parse(url, clock[0]));
      }
    }
  }

  /** After a call every registered feed it read is cached, fresh at the
      time each of its fetches read the clock. With `force_fetch` the entry
      is a parse the call itself made, no earlier than any fetch of it. */
  lemma {:induction false} CollectCachesEveryFeed(labels: seq<string>, maxPerFeed: int, force: bool, feeds: map<string, string>,
                                                  cache: Cache<seq<Entry>>, clock: seq<int>, parse: (string, int) -> seq<Entry>, html: Html)
    requires |clock| == |labels| && NonDecreasing(clock)
    requires CollectFeeds(labels, maxPerFeed, force, feeds, cache, clock, parse, html).result.Ok?
    ensures var r := CollectFeeds(labels, maxPerFeed, force, feeds, cache, clock, parse, html);
            forall k | 0 <= k < |labels| && FeedUrl(feeds, labels[k]) != "" ::
              CachedAfter(labels, feeds, clock, parse, r.cache, force, k)
    decreases |labels|
  {
    if |labels| > 0 {
      var u := FeedUrl(feeds, labels[0]);
      var r := CollectFeeds(labels, maxPerFeed, force, feeds, cache, clock, parse, html);
      var next := if u == "" then cache else Fetch(if force then Evict(cache, u) else cache, u, clock[0], parse).cache;
      assert NonDecreasing(clock[1..]) by {
        forall i, j | 0 <= i <= j < |clock| - 1 ensures clock[1..][i] <= clock[1..][j] {
          assert clock[1..][i] == clock[i + 1] && clock[1..][j] == clock[j + 1];
        }
      }
      CollectCachesEveryFeed(labels[1..], maxPerFeed, force, feeds, next, clock[1..], parse, html);
      forall k | 1 <= k < |labels| && FeedUrl(feeds, labels[k]) != ""
        ensures CachedAfter(labels, feeds, clock, parse, r.cache, force, k)
      {
        assert labels[1..][k - 1] == labels[k] && clock[1..][k - 1] == clock[k];
        CachedAfterShift(labels, feeds, clock, parse, r.cache, force, k);
      }
      if u != "" {
        CachedAfterFirst(labels, maxPerFeed, force, feeds, cache, clock, parse, html);
      }
    }
  }

  /** The promise of `CollectCachesEveryFeed` for the feed of label `k`. */
  ghost predicate CachedAfter(labels: seq<string>, feeds: map<string, string>, clock: seq<int>,
                              parse: (string, int) -> seq<Entry>, c: Cache<seq<Entry>>, force: bool, k: int)
    requires |clock| == |labels| && 0 <= k < |labels|
  {
    var url := FeedUrl(feeds, labels[k]);
    url in c && Fresh(c, url, clock[k])
    && (force ==> FetchedAt(labels, feeds, clock, parse, url, c[url]) && c[url].t >= clock[k])
  }

  lemma {:induction false} CachedAfterShift(labels: seq<string>, feeds: map<string, string>, clock: seq<int>,
                                            parse: (string, int) -> seq<Entry>, c: Cache<seq<Entry>>, force: bool, k: int)
    requires |clock| == |labels| && 1 <= k < |labels|
    requires CachedAfter(labels[1..], feeds, clock[1..], parse, c, force, k - 1)
    ensures CachedAfter(labels, feeds, clock, parse, c, force, k)
  {
    var url := FeedUrl(feeds, labels[k]);
    assert labels[1..][k - 1] == labels[k] && clock[1..][k - 1] == clock[k];
    if force {
      FetchedAtShift(labels, feeds, clock, parse, url, c[url]);
    }
  }

  /** The first label's feed, once the rest of the labels have run. */
  lemma {:induction false} CachedAfterFirst(labels: seq<string>, maxPerFeed: int, force: bool, feeds: map<string, string>,
                                            cache: Cache<seq<Entry>>, clock: seq<int>, parse: (string, int) -> seq<Entry>, html: Html)
    requires |clock| == |labels| && |labels| > 0 && NonDecreasing(clock)
    requires FeedUrl(feeds, labels[0]) != ""
    requires CollectFeeds(labels, maxPerFeed, force, feeds, cache, clock, parse, html).result.Ok?
    ensures CachedAfter(labels, feeds, clock, parse, CollectFeeds(labels, maxPerFeed, force, feeds, cache, clock, parse, html).cache, force, 0)
  {
    var u := FeedUrl(feeds, labels[0]);
    var r := CollectFeeds(labels, maxPerFeed, force, feeds, cache, clock, parse, html);
    var f := Fetch(if force then Evict(cache, u) else cache, u, clock[0], parse);
    CollectEntryOrigin(labels[1..], maxPerFeed, force, feeds, f.cache, clock[1..], parse, html, u);
    if r.cache[u] == f.cache[u] {
      if force {
        assert FetchedAt(labels, feeds, clock, parse, u, r.cache[u]) by {
          assert FeedUrl(feeds, labels[0]) == u && r.cache[u] == FeedCache.Entry(clock[0], parse(u, clock[0]));
        }
      }
    } else {
      FetchedAtShift(labels, feeds, clock, parse, u, r.cache[u]);
      var j :| 0 <= j < |clock| - 1 && clock[1..][j] == r.cache[u].t;
      assert clock[0] <= clock[j + 1];
    }
  }

  /** Without `force_fetch`, an entry that is still fresh at every clock
      reading of the call is never refetched. */
  lemma {:induction false} CollectKeepsFresh(labels: seq<string>, maxPerFeed: int, feeds: map<string, string>,
                                             cache: Cache<seq<Entry>>, clock: seq<int>, parse: (string, int) -> seq<Entry>, html: Html, url: string)
    requires |clock| == |labels| && url in cache
    requires forall i | 0 <= i < |clock| :: Fresh(cache, url, clock[i])
    ensures var r := CollectFeeds(labels, maxPerFeed, false, feeds, cache, clock, parse, html);
            url in r.cache && r.cache[url] == cache[url]
    decreases |labels|
  {
    if |labels| > 0 {
      var u := FeedUrl(feeds, labels[0]);
      var next := if u == "" then cache else Fetch(cache, u, clock[0], parse).cache;
      assert Fresh(cache, url, clock[0]);
      assert url in next && next[url] == cache[url];
      forall i | 0 <= i < |clock| - 1 ensures Fresh(next, url, clock[1..][i]) {
        assert clock[1..][i] == clock[i + 1];
      }
      CollectKeepsFresh(labels[1..], maxPerFeed, feeds, next, clock[1..], parse, html, url);
    }
  }

  /** An entry that was fresh when the call started is refetched by a later
      label once the clock has run past its TTL: freshness is judged at each
      fetch's own time. */
  lemma {:induction false} CollectRefetchesExpired(a: string, b: string, maxPerFeed: int, feeds: map<string, string>,
                                                   cache: Cache<seq<Entry>>, t0: int, t1: int, parse: (string, int) -> seq<Entry>, html: Html)
    requires FeedUrl(feeds, a) != "" && FeedUrl(feeds, b) != "" && FeedUrl(feeds, a) != FeedUrl(feeds, b)
    requires var url := FeedUrl(feeds, b); url in cache && Fresh(cache, url, t0) && !Fresh(cache, url, t1)
    requires CollectFeeds([a, b], maxPerFeed, false, feeds, cache, [t0, t1], parse, html).result.Ok?
    ensures var url := FeedUrl(feeds, b);
            var r := CollectFeeds([a, b], maxPerFeed, false, feeds, cache, [t0, t1], parse, html);
            url in r.cache && r.cache[url] == FeedCache.Entry(t1, parse(url, t1))
  {
    var url := FeedUrl(feeds, b);
    var f := Fetch(cache, FeedUrl(feeds, a), t0, parse);
    assert [a, b][1..] == [b] && [t0, t1][1..] == [t1];
    assert url in f.cache && f.cache[url] == cache[url];
    var g := Fetch(f.cache, url, t1, parse);
    assert g.cache[url] == FeedCache.Entry(t1, parse(url, t1));
    assert [b][1..] == [] && [t1][1..] == [];
    var rest := CollectFeeds([b], maxPerFeed, false, feeds, f.cache, [t1], parse, html);
    assert rest.result.Ok? && CollectFeeds([a, b], maxPerFeed, false, feeds, cache, [t0, t1], parse, html).cache == rest.cache;
    assert rest.cache == CollectFeeds([], maxPerFeed, false, feeds, g.cache, [], parse, html).cache == g.cache;
  }

  /** An entry that raises while its feed's items are built (a link that is
      not a dict, say) ends the call with that error, and the fetch of the
      feed stays in the cache. */
  lemma {:induction false} CollectErrorKeepsFetch(labels: seq<string>, maxPerFeed: int, force: bool, feeds: map<string, string>,
                                                  cache: Cache<seq<Entry>>, clock: seq<int>, parse: (string, int) -> seq<Entry>, html: Html)
    requires |clock| == |labels| && |labels| > 0
    requires var url := FeedUrl(feeds, labels[0]);
             var f := Fetch(if force then Evict(cache, url) else cache, url, clock[0], parse);
             url != "" && FeedItems(PySlice(f.d, 0, maxPerFeed), labels[0], html).Err?
    ensures var url := FeedUrl(feeds, labels[0]);
            var f := Fetch(if force then Evict(cache, url) else cache, url, clock[0], parse);
            var r := CollectFeeds(labels, maxPerFeed, force, feeds, cache, clock, parse, html);
            && r.result == Err(FeedItems(PySlice(f.d, 0, maxPerFeed), labels[0], html).error)
            && r.cache == f.cache
            && url in r.cache && Fresh(r.cache, url, clock[0])
  {
  }

  lemma {:induction false} FeedItemsSingle(e: Entry, name: string, html: Html)
    requires MakeItem(e, name, html).Ok? && MakeItem(e, name, html).value.Some?
    ensures FeedItems([e], name, html) == Ok([MakeItem(e, name, html).value.value])
  {
    assert [e][1..] == [];
    assert FeedItems([], name, html) == Ok([]);
    assert [MakeItem(e, name, html).value.value] + [] == [MakeItem(e, name, html).value.value];
  }

  /** One step of the loop over the labels: a registered label contributes
      the items of its feed, fetched at its own clock reading, followed by
      those of the remaining labels. */
  lemma {:induction false} CollectFeedsHead(labels: seq<string>, maxPerFeed: int, feeds: map<string, string>,
                         cache: Cache<seq<Entry>>, clock: seq<int>, parse: (string, int) -> seq<Entry>, html: Html)
    requires |labels| > 0 && FeedUrl(feeds, labels[0]) != ""
    requires |clock| == |labels|
    ensures var f := Fetch(cache, FeedUrl(feeds, labels[0]), clock[0], parse);
            var items := FeedItems(PySlice(f.d, 0, maxPerFeed), labels[0], html);
            var rest := CollectFeeds(labels[1..], maxPerFeed, false, feeds, f.cache, clock[1..], parse, html);
            items.Ok? && rest.result.Ok? ==>
              CollectFeeds(labels, maxPerFeed, false, feeds, cache, clock, parse, html)
                == Run(Ok(items.value + rest.result.value), rest.cache)
  {
  }

  /** There is no cross-feed deduplication: one entry published by two
      registered feeds yields two items with the same link and title. */
  lemma {:induction false} NoCrossFeedDedup(a: string, b: string, feeds: map<string, string>, e: Entry, t0: int, t1: int,
                         parse: (string, int) -> seq<Entry>, html: Html)
    requires FeedUrl(feeds, a) != "" && FeedUrl(feeds, b) != ""
    requires forall u, t :: parse(u, t) == [e]
    requires MakeItem(e, a, html).Ok? && MakeItem(e, a, html).value.Some?
    ensures var r := CollectItems([a, b], "", 25, false, feeds, map[], [t0, t1], parse, html);
            && r.result.Ok? && r.result.value.count == 2
            && r.result.value.items[0].link == r.result.value.items[1].link
            && r.result.value.items[0].title == r.result.value.items[1].title
            && r.result.value.items[0].feedLabel == a && r.result.value.items[1].feedLabel == b
  {
    var ia := MakeItem(e, a, html).value.value;
    var ib := MakeItem(e, b, html).value.value;
    var c := TwoFeedsCollected(a, b, feeds, e, t0, t1, parse, html);
    assert ApplyQuery([ia, ib], "") == [ia, ib];
    SortTwoTied(ia, ib);
  }

  /** Both feeds of a two-label collection contribute the item of their one
      entry, in label order. */
  lemma {:induction false} TwoFeedsCollected(a: string, b: string, feeds: map<string, string>, e: Entry, t0: int, t1: int,
                           parse: (string, int) -> seq<Entry>, html: Html) returns (cache: Cache<seq<Entry>>)
    requires FeedUrl(feeds, a) != "" && FeedUrl(feeds, b) != ""
    requires forall u, t :: parse(u, t) == [e]
    requires MakeItem(e, a, html).Ok? && MakeItem(e, a, html).value.Some?
    ensures CollectFeeds([a, b], 25, false, feeds, map[], [t0, t1], parse, html)
              == Run(Ok([MakeItem(e, a, html).value.value, MakeItem(e, b, html).value.value]), cache)
  {
    var ia := MakeItem(e, a, html).value.value;
    var ib := MakeItem(e, b, html).value.value;
    assert PySlice([e], 0, 25) == [e];
    FeedItemsSingle(e, a, html);
    var f1 := Fetch(map[], FeedUrl(feeds, a), t0, parse);
    var f2 := Fetch(f1.cache, FeedUrl(feeds, b), t1, parse);
    assert f1.d == [e];
    assert f1.cache == map[FeedUrl(feeds, a) := FeedCache.Entry(t0, [e])];
    assert [a, b][1..] == [b] && [t0, t1][1..] == [t1];
    OneFeedCollected(b, feeds, e, f1.cache, t1, parse, html);
    CollectFeedsHead([a, b], 25, feeds, map[], [t0, t1], parse, html);
    assert [ia] + [ib] == [ia, ib];
    cache := f2.cache;
  }

  /** A one-label collection holds the item of the feed's one entry. */
  lemma {:induction false} OneFeedCollected(b: string, feeds: map<string, string>, e: Entry, cache: Cache<seq<Entry>>,
                          t: int, parse: (string, int) -> seq<Entry>, html: Html)
    requires FeedUrl(feeds, b) != ""
    requires forall u, t :: parse(u, t) == [e]
    requires forall u | u in cache :: cache[u].d == [e]
    requires MakeItem(e, b, html).Ok? && MakeItem(e, b, html).value.Some?
    ensures CollectFeeds([b], 25, false, feeds, cache, [t], parse, html)
              == Run(Ok([MakeItem(e, b, html).value.value]), Fetch(cache, FeedUrl(feeds, b), t, parse).cache)
  {
    var f := Fetch(cache, FeedUrl(feeds, b), t, parse);
    assert f.d == [e];
    assert PySlice([e], 0, 25) == [e];
    FeedItemsSingle(e, b, html);
    assert [b][1..] == [] && [t][1..] == [];
    assert CollectFeeds([], 25, false, feeds, f.cache, [], parse, html) == Run(Ok([]), f.cache);
    CollectFeedsHead([b], 25, feeds, cache, [t], parse, html);
    assert [MakeItem(e, b, html).value.value] + [] == [MakeItem(e, b, html).value.value];
  }

  /** Two items with the same date keep their order under the sort. */
  lemma {:induction false} SortTwoTied(x: Item, y: Item)
    requires x.dt == y.dt
    ensures SortBy([x, y], NewestFirstKey) == [x, y]
  {
    assert [x, y][1..] == [y];
    assert SortBy([y], NewestFirstKey) == [y];
    assert SortBy([x, y], NewestFirstKey) == Insert(x, [y], NewestFirstKey) == [x, y];
  }
}
