# KbM Nieuws & Weer — a Dafny model of its core

This project models the logic behind the KbM news, weather and public-transport
("OV") Streamlit pages, and proves properties of that model in Dafny. The pages
themselves are not modelled.

**News**
- The RSS pipeline of `common.py`:
  - the 90-second feed cache, how it is cleared, and `force_fetch`;
  - tracking-parameter removal and host extraction for links;
  - whitespace clean-up of titles and summaries;
  - how an image is found for an entry;
  - `collect_items`: per-feed truncation, the query filter, and newest-first sorting.
- The section renderer of `kbm_ui.py`:
  - how it picks an image and a summary;
  - its query test;
  - the hero / rows / inline-article layout of `render_section`.

**Weather**
- The weather-code tables of `pages/05_Weer.py`.
- The block filter behind the KNMI forecast text.

**Public transport**
- `ov_all.py`:
  - stop search by name and by town plus name, and the smart cascade over both;
  - departures by stop code and by town and stop;
  - `normalize_departures`: the record walk and the TRAIN/BTMF blocks, with a stable time sort;
  - `group_by_mode` and the minute rounding.
- `ov_data.py`:
  - the OVapi client: the kind check and the pass ingestion;
  - the walk over the timing-point tree and the sort;
  - the human-readable departure text and the 9292 planner link.
- `ov_api.py`: the keyed vertrektijd.info client, with its API key and headers,
  the separator/token cascade of the smart search, and departures by stop code.
- `pages/OV_info.py`:
  - the stop label and the normalisation of search answers;
  - the duplicate-label suffixing of the pick list;
  - the throttled live search;
  - the departures table and the selected-stop view.

**Modelling choices**
- Python dicts from `r.json()` are the `Json` datatype. Its objects keep their keys in insertion order, and Python truthiness, `dict.get`, `a or b or c`, iteration and `str()` are written out.
- Exceptions are `Result` errors that carry the exception's class name.
- Each network call goes through a `Server` oracle, and the model records the URLs it requests.
- Several things are parameters:
  - the clock, as whole seconds (or milliseconds for the live search). `collect_items` reads it once per fetch, so it takes one reading per label;
  - `feedparser`;
  - the HTML tools;
  - SHA-1;
  - date parsing;
  - `strftime`.

Modules:

| module | models |
|---|---|
| `Wrappers` | `Option` and `Result` |
| `Text` | `str.strip`, `lower`, `split`, `replace`, `in`, `int()`, `\s+` collapsing |
| `Seqs` | Python slicing, filtering, order-preserving de-duplication, stable sort |
| `Json` | decoded JSON values and their Python behaviour |
| `Urls` | `quote`, `quote_plus`, `urlencode`, `urlunparse`, `_strip_tracking_params`, `host` |
| `FeedCache` | `_FEED_CACHE`, `fetch_feed`, `clear_feed_caches`, the `force_fetch` eviction |
| `Feeds` | `within_hours`, `item_id`, `_extract_image_from_entry`, `collect_items` |
| `KbmUi` | `_pick_image`, `_pick_summary`, `_matches_query`, `render_section` |
| `Weather` | `wx_emoji`, `wx_label`, `knmi_text` |
| `Transit` | what the three transit clients share: first-success cascades, rounding, `_to_dt` |
| `OvAll` | `ov_all.py` |
| `OvData` | `ov_data.py` |
| `OvApi` | `ov_api.py` |
| `OvInfo` | `pages/OV_info.py` |

## Model

| member | source | states |
|---|---|---|
| FeedCache.Fetch | common.py:218-226 | A fresh entry (younger than 90 s) is served without parsing. Otherwise the feed is parsed and stored with the current time. No other entry changes. |
| FeedCache.Clear | common.py:141-142 | After clearing, no URL has a fresh entry and the cache is empty. |
| FeedCache.Evict | common.py:265-266 | The URL's entry is gone and every other entry is kept. |
| FeedCache.FetchTwiceWithinTtl | common.py:218-226 | A second fetch within 90 s of a fetch serves the first parse, even when the source has changed. |
| FeedCache.FetchAfterTtl | common.py:221-225 | Once the 90 s have passed, the feed is parsed again and the new parse replaces the old. |
| FeedCache.ClearThenFetch | common.py:141-142 | After `clear_feed_caches` every feed is fetched anew. |
| FeedCache.EvictThenFetch | common.py:265-267 | `force_fetch` refetches its own URL and leaves every other cache entry alone. |
| Urls.StripTracking | common.py:202-212 | An unparseable link is returned unchanged. For a parsed link only the query changes. A pair is kept exactly when its key does not start with `utm_`, `fbclid` or `gclid` in lower case, and the kept pairs stay in their order. |
| Urls.StripTrackingCount | common.py:205-209 | Every kept pair keeps its multiplicity; tracking pairs drop to zero. |
| Urls.StripTrackingIdempotent | common.py:202-212 | Stripping twice is stripping once. |
| Urls.EncodeQuery | common.py:210 | The query is empty exactly when there are no pairs. Otherwise it contains `=`. |
| Urls.Render | common.py:210 | Without query and fragment the link is the scheme and path part. A fragment is written last, after `#`. |
| Urls.RenderKeepsNetlocMarker | common.py:210 | For a scheme of `uses_netloc`, `urlunparse` always writes `//` after the colon, even without a network location: `https:///a` renders back as itself. |
| Urls.RenderOpaqueScheme | common.py:210 | Without a network location, a scheme outside `uses_netloc` is followed by the bare path. |
| Urls.RenderEmptyIff | common.py:210 | `urlunparse` gives the empty string exactly when every part is empty. Such a link makes `collect_items` skip its entry. |
| Urls.Host | common.py:148-152 | The network location without `www.`. An unparseable URL gives `""`. |
| Urls.HostDropsInnerWww | common.py:150 | `replace` also removes a `www.` after the first label: `m.www.x` becomes `m.x`. |
| Text.CleanText | common.py:198-199 | The result has no leading, trailing or repeated whitespace, its only whitespace is the plain space, and its visible characters are those of the input, in order. |
| Text.CleanTextIsJoinedWords | common.py:198-199 | `_clean_text(s)` equals `" ".join(s.split())`: each whitespace run between two words becomes exactly one space. |
| Text.CollapseAsWords | common.py:198 | `re.sub(r"\s+", " ", s)` is the words of `s` joined by single spaces, with one space in front when whitespace comes before the first word and one behind when it ends with whitespace. |
| Text.CleanTextIdempotent | common.py:198-199 | Cleaning twice is cleaning once. |
| Text.CleanTextEmptyIffBlank | common.py:198-199 | The cleaned text is empty exactly when the input is blank, which is when an entry with that title is skipped. |
| Feeds.WithinHours | common.py:186-190 | An undated item is never recent. An item dated now or later is recent in any non-negative window. |
| Feeds.WithinHoursMonotone | common.py:186-190 | An undated item is never recent. Widening the window keeps every recent item. The test is `now - dt <= hours·3600`. |
| Feeds.ItemIdOnlyLinkAndTitle | common.py:193-195 | The id depends on link and title only. |
| Feeds.ItemId | common.py:193-195 | The id is at most 16 characters long. |
| Feeds.ImageFromSummary | common.py:240-249 | A summary image is only taken when the summary contains `<img`, and it is a non-empty `src`. |
| Feeds.IsImageEnclosure | common.py:237 | A link that is not a dict raises. `true` means `rel` is `enclosure` and the type starts with `image/`. |
| Feeds.ExtractImage | common.py:229-249 | A non-empty media list whose first record is not a dict raises `AttributeError`. A media value that is not a non-empty list is ignored, and the links and the summary decide. |
| Feeds.ImageFromMediaFirst | common.py:230-234 | A media list whose first record has a URL decides the image. |
| Feeds.ThumbnailOnlyWithoutContent | common.py:230 | `media_thumbnail` matters only when `media_content` is falsy. |
| Feeds.ScanLinksFirstEnclosure | common.py:236-238 | The first image enclosure's `href` wins over everything after it. |
| Feeds.ScanLinksNoEnclosure | common.py:236-249 | Without an image enclosure, the summary decides. |
| Feeds.ImageFromSummaryOnly | common.py:229-249 | Without media and links only the summary counts. Without `<img` there is no image. |
| Feeds.SummaryText | common.py:276-279 | The summary text is always clean. |
| Feeds.MakeItem | common.py:270-292 | An entry is skipped exactly when its rewritten link or its cleaned title is empty. An emitted item carries that link, title and label. |
| Feeds.MakeItemSkips | common.py:270-273 | The skip condition, stated on the raw link parts and the raw title. |
| Feeds.FeedItems | common.py:269-292 | A feed yields at most one item per entry. Each item is valid and carries its feed's label. |
| Feeds.FeedItemsBound | common.py:269 | A feed yields at most `max_per_feed` items. A negative bound `-k` counts from the end and leaves at most `len(entries) - k` items, or none. |
| Feeds.CollectFeeds | common.py:261-292 | Every item comes from a registered label of the call and satisfies the item invariants. The cache is returned with the error too, because the module-level cache keeps the fetches made before an exception. |
| Feeds.ApplyQuery | common.py:294-300 | The filter keeps exactly the items whose lower-cased title and summary contain the lower-cased query. Each kept item occurs as often as in the input, and the result is a subsequence of the input, so order is kept. An empty query keeps everything. |
| Feeds.QueryHitIff | common.py:299 | The test on the joined text equals the test on its lower-cased parts. |
| Feeds.CollectItems | common.py:252-303 | The count equals the number of items. Every item is emitted for the labels. With a query, every item matches it. It raises exactly when the label loop raises, and leaves the cache the loop left. |
| Feeds.CollectItemsOrder | common.py:302 | The result is the filtered items, sorted newest first and stably. An undated item counts as 1970. |
| Feeds.CollectItemsQuery | common.py:294-300 | With a query an item survives exactly when it matches. |
| Feeds.UnregisteredLabelSkipped | common.py:262-264 | An unknown label contributes nothing and fetches nothing; its clock reading is never used. |
| Feeds.CollectEntryOrigin | common.py:217-226 | After a call, whether it returns or raises, each cache entry is either the one the call started with or the parse made by one of the call's fetches of that URL, stamped with that fetch's own clock reading. No URL leaves the cache. |
| Feeds.CollectCachesEveryFeed | common.py:217-267 | With a non-decreasing clock, every registered feed the call read is cached after it, fresh at the time its fetch read the clock. With `force_fetch` the entry is a parse the call itself made, no earlier than that fetch. |
| Feeds.CollectKeepsFresh | common.py:217-267 | Without `force_fetch`, an entry that is fresh at every clock reading of the call is never refetched, also when the call raises. |
| Feeds.CollectErrorKeepsFetch | common.py:221-267 | When the first label's entries raise, the error is the result and that feed's fetch stays cached, fresh at its clock reading. |
| Feeds.CollectRefetchesExpired | common.py:218-225 | An entry that is fresh when the call starts but has expired when a later label fetches it is parsed again, stamped with that later time. |
| Feeds.FeedItemsSingle | common.py:269-292 | A one-entry feed yields exactly that entry's item. |
| Feeds.CollectFeedsHead | common.py:261-267 | One step of the label loop fetches through the cache at its own clock reading and appends that feed's items. |
| Feeds.NoCrossFeedDedup | common.py:252-303 | An entry published by two feeds is emitted twice. |
| KbmUi.StripFirst | kbm_ui.py:94-99 | The first truthy lookup, stripped, or `""` when none is truthy. A truthy value that is not text raises. |
| KbmUi.MatchesQuery | kbm_ui.py:102-109 | A blank query matches everything. A non-text title raises `TypeError`. Otherwise the stripped, lower-cased query must occur in the lower-cased title and summary. |
| KbmUi.BlankImageShadowsImg | kbm_ui.py:94-95 | A whitespace-only `image` is truthy, so it hides `img` and the picked image is `""`. |
| KbmUi.PickImage | kbm_ui.py:94-95 | A truthy `image` decides: stripped when it is text, `AttributeError` otherwise. With none of `image`, `img`, `thumb` truthy the image is `""`. |
| KbmUi.PickSummary | kbm_ui.py:98-99 | A truthy `summary` decides: stripped when it is text, `AttributeError` otherwise. With none of `summary`, `rss_summary`, `description` truthy the summary is `""`. |
| KbmUi.PickImageFallsBack | kbm_ui.py:94-95 | The fallback order is `image`, then `img`, then `thumb`, then `""`. |
| KbmUi.PickSummaryOrder | kbm_ui.py:98-99 | The fallback order is `summary`, then `rss_summary`, then `description`. |
| KbmUi.ItemDict | common.py:282-292 | The dict of a collected item has `title`, `rss_summary` and `img`. It has no `image`, `thumb`, `summary` or `description`. |
| KbmUi.MatchesCollectedItem | kbm_ui.py:102-109 | On a collected item the section query never raises. It agrees with the collection's own query test on the stripped query. |
| KbmUi.PickSummaryOfItem | kbm_ui.py:98-99 | A collected item's summary is its `rss_summary`. |
| KbmUi.SectionLabels | kbm_ui.py:166 | Explicit labels win. An unknown category has none. |
| KbmUi.Shown | kbm_ui.py:172-177 | The two filter passes are the single filter by both tests: exactly the collected items that are recent and wanted, in their collected order and with their multiplicity. |
| KbmUi.ShownFacts | kbm_ui.py:172-177 | The single filter keeps an item exactly when it passes both tests, keeps the survivors in order, and keeps each survivor's count. |
| KbmUi.OpenItem | kbm_ui.py:250-253 | An opened item is shown and has the requested id. When nothing opens, no shown item has that id. |
| KbmUi.RenderSection | kbm_ui.py:149-255 | No labels gives the feeds notice, and no shown items gives the empty notice. Otherwise the hero and at most `thumbs_n` rows come from the shown items. |
| KbmUi.RenderSectionAsWritten | kbm_ui.py:166-171 | With no labels the feeds notice is shown. With labels the `collect_items` call raises `TypeError`, whatever the items. |
| KbmUi.BindKeywords | common.py:252-258 | Keyword arguments bind exactly when the callee declares each of them; otherwise `TypeError`. |
| KbmUi.MaxItemsKeywordRaises | kbm_ui.py:171 | For every section with labels the call as written raises, while the call with `max_per_feed` binds and the section renders. |
| KbmUi.RenderSectionLayout | kbm_ui.py:186-247 | The hero is the first shown item and the rows are the next `thumbs_n`. |
| KbmUi.OpenItemFound | kbm_ui.py:250-255 | An id present among the shown items always opens an article. |
| Weather.WxEmoji | pages/05_Weer.py:15-35 | Every picture is one symbol plus a variation selector. Code 0 is the only sun. |
| Weather.WxLabel | pages/05_Weer.py:38-69 | Every label is non-empty. A code outside the table is `Weer`. |
| Weather.EmojiIffLabelled | pages/05_Weer.py:15-69 | The thermometer is shown exactly for the codes the label table lacks. |
| Weather.DrizzleLooksLikeShowers | pages/05_Weer.py:25-62 | Drizzle and showers share a picture but not a label. |
| Weather.Kept | pages/05_Weer.py:163-187 | A block is kept exactly when it is non-empty, is not noise, and is long or ends in `:`. |
| Weather.DedupIdempotent | pages/05_Weer.py:189-196 | De-duplicating on the first 80 lower-cased characters is idempotent. |
| Weather.Compose | pages/05_Weer.py:198-199 | The text is over 300 characters and has no surrounding whitespace. No blocks give no text. A single block gives that block stripped, exactly when it is over 300 characters stripped. |
| Weather.KnmiText | pages/05_Weer.py:148-201 | A failed fetch gives nothing. Otherwise the text is the stripped blank-line join of the first 40 kept blocks with distinct keys, returned exactly when it is over 300 characters. |
| Weather.KnmiTextOneLongBlock | pages/05_Weer.py:165-199 | A page whose only surviving block is over 300 characters stripped yields that block, stripped. |
| Weather.RejectedBlockIgnored | pages/05_Weer.py:165-185 | A block that fails the filter never changes the text. |
| Weather.RepeatedBlockIgnored | pages/05_Weer.py:191-196 | A block repeating an earlier kept block's key never changes the text. |
| Weather.ShortBlocks | pages/05_Weer.py:184-185 | Blocks shorter than 25 characters survive only when they end in `:`. |
| Transit.Cascade | ov_all.py:63-94 | A result comes from the first step with a wanted answer, and every step before it came up empty. An error comes from a step that does not swallow it. `None` means every step came up empty. The first step's requests come first. |
| Transit.CascadeSilent | ov_api.py:54-83 | Steps that request nothing make the chain request nothing. |
| Transit.CascadeStopsAtFirst | ov_api.py:54-83 | The steps after the first success are never run. |
| Transit.RoundDiv | ov_all.py:147-149 | Python `round(a/b)`: the nearest integer, with ties to even. |
| Transit.RoundDivUnique | ov_all.py:147-149 | The rounded value is the only integer within half a unit that is even on a tie. |
| Transit.ZuluToOffset | ov_all.py:134-144 | `replace("Z", "+00:00")` leaves no `Z` and never shortens the text. |
| Transit.ZuluToOffsetIdempotent | ov_data.py:43 | Replacing twice is replacing once. |
| Transit.ToDt | ov_all.py:134-144 | A falsy or non-text value gives `None`. Text is parsed after the `Z` replacement. |
| OvAll.SearchName | ov_all.py:44-50 | A blank query makes no request and gives `[]`. Otherwise it requests the stripped name once. A list answer is the result, a non-list answer becomes `[]`, and a failed request raises its error. |
| OvAll.SearchNameTown | ov_all.py:53-60 | A request is made exactly when both parts are non-blank, and it uses both parts stripped. A list answer is the result, a non-list answer becomes `[]`, and a failed request raises its error. |
| OvAll.SearchIgnoresPadding | ov_all.py:44-60 | Surrounding whitespace never changes a stop lookup. The same holds for both departure lookups (lines 104-119). |
| OvAll.SlashSteps | ov_all.py:69-76 | There is a `town / stop` step exactly when the text splits at its first `/` into two non-blank parts. |
| OvAll.TokenSteps | ov_all.py:85-92 | There is a token step exactly when the text has at least two words. Its town is the first word and its stop is the other words joined by single spaces. |
| OvAll.SmartPlan | ov_all.py:63-94 | The plan is the slash step, then the whole name, then the token split. It has at most 3 steps, and the token split, when present, is last. |
| OvAll.SearchStopsSmart | ov_all.py:63-94 | Blank input gives `[]` with no request. Otherwise the first planned lookup is requested first. |
| OvAll.SmartFirstNonEmpty | ov_all.py:63-94 | A non-empty answer comes from some lookup, and every earlier lookup came up empty. |
| OvAll.SmartAllEmpty | ov_all.py:94 | All lookups empty gives `[]`. |
| OvAll.SmartTriesSlashFirst | ov_all.py:69-76 | With a usable `/` split, the first request is the nametown one on the stripped parts. |
| OvAll.SmartNameFirstWithoutSlash | ov_all.py:78-80 | Without `/`, a non-empty whole-name answer is the result. |
| OvAll.DeparturesByStopcode | ov_all.py:104-110 | A blank code gives the empty table without a request. A dict answer is returned as it came. Any other answer gives the empty table. A failed request raises its error. |
| OvAll.DeparturesByNameTown | ov_all.py:113-119 | There is a request only for a non-blank town and stop. Otherwise the answer is `[]`. |
| OvAll.DelayMinutes | ov_all.py:170-174 | The delay is never negative. At most 30 s is 0. Otherwise it is the nearest minute, the even one on an exact tie. |
| OvAll.MakeRecord | ov_all.py:159-189 | No record without a parseable time. The expected time wins. Line, destination and mode are never empty. A missing planned time means no delay. |
| OvAll.ModeFallback | ov_all.py:168 | Without a mode field, the block name, upper-cased, is the mode, else `—`. |
| OvAll.DelayHalfToEven | ov_all.py:174 | 90 s late is 2 min and 150 s late is 2 min (ties go to even). 30 s late is 0 min. |
| OvAll.Normalize | ov_all.py:152-216 | The gathered departures, sorted by time. The result is a permutation, and the sort is stable. |
| OvAll.Walk | ov_all.py:191-200 | Every departure the walk finds is complete: a non-negative delay and a non-empty line, destination and mode. A scalar yields nothing. |
| OvAll.Blocks | ov_all.py:204-209 | A falsy value has no blocks. A truthy number or boolean is not iterable and raises `TypeError`. Every departure read from blocks is complete. |
| OvAll.Gathered | ov_all.py:202-214 | Every gathered departure is complete. An answer without `TRAIN` or `BTMF` keys is walked and never raises. |
| OvAll.WalkScalars | ov_all.py:191-200 | A list of scalars yields nothing. |
| OvAll.WalkFlatRecord | ov_all.py:191-200 | A record with only scalar values is read once. |
| OvAll.WalkNested | ov_all.py:191-200 | A record nested as the last value of another is read after the outer record. |
| OvAll.GroupNames | ov_all.py:219-233 | The group names are pairwise distinct. |
| OvAll.GroupByMode | ov_all.py:219-233 | Names come in order of first appearance. Each group holds exactly its departures, in order. Every departure is in its own group. |
| OvAll.GroupNamesCover | ov_all.py:219-233 | The names are exactly the groups of the departures. |
| OvAll.Bucket | ov_all.py:222-231 | A mode containing `TRAIN` or `TREIN` is grouped as `TREIN`. Any other group is `METRO`, `TRAM`, `BUS` or the mode itself. |
| OvAll.BucketFacts | ov_all.py:221-232 | Grouping is idempotent. A train word wins. Otherwise the mode is its own group. |
| Transit.MinsUntil | ov_all.py:147-149 | The whole minutes to go, within half a minute and even on an exact tie, as `round` does. Non-negative exactly from 30 s ago on. |
| OvData.CheckKind | ov_data.py:52-54 | Only `stopareacode` and `tpc` are accepted, after lower-casing and stripping. Anything else raises `ValueError`. |
| OvData.CheckKindPadded | ov_data.py:52 | `" TPC "` is accepted as `tpc`. |
| OvData.CheckKindRejects | ov_data.py:53-54 | `stop` raises `ValueError`. |
| OvData.PyInt | ov_data.py:72-76 | `None`, a list and a dict give no delay. An integer is kept. |
| OvData.PyIntDigits | ov_data.py:74 | A digit string reads as its value. |
| OvData.TextOrDash | ov_data.py:70-79 | The stripped text, or `—` when it is empty. |
| OvData.IngestPass | ov_data.py:66-87 | No time, no departure. Otherwise: the expected time first; the raw pass is kept; line and destination are never empty; the delay is `int()`; realtime holds iff a flag is set or there is a delay. |
| OvData.DelayMeansRealtime | ov_data.py:85 | A pass with a numeric delay is realtime. |
| OvData.PassFallbacks | ov_data.py:83-84 | Platform and operator follow their fallback chains to `None`. |
| OvData.IngestAll | ov_data.py:92-94 | Each departure comes from a dict value of `Passes`. |
| OvData.IngestAllAppend | ov_data.py:92-94 | Ingesting two runs of passes gives the first run's departures followed by the second's. |
| OvData.IngestAllEvery | ov_data.py:92-94 | When every pass yields a departure, there is one departure per pass, in the order of the passes. |
| OvData.Walk | ov_data.py:89-101 | Every departure the walk finds carries the time parsed from its own pass and a non-empty line and destination. A scalar yields nothing. |
| OvData.WalkTimingPoint | ov_data.py:89-101 | For the `tpc` shape, every pass is ingested exactly once, in order. |
| OvData.WalkPassesNode | ov_data.py:91-96 | A `Passes` dict is ingested, then walked. |
| OvData.SortPasses | ov_data.py:103 | Naive and aware times together raise `TypeError`. Otherwise the result is sorted, a permutation, and stable. |
| OvData.FetchDepartures | ov_data.py:47-104 | A bad kind raises before any request. Otherwise there is one request to the kind's URL, and the departures are the sorted walk. |
| OvData.HumanDeparture | ov_data.py:106-116 | `over m min` for times from 30 s ago on, else `m min geleden`, with `m` within half a minute of the offset and even on an exact tie. |
| OvData.HumanDepartureExamples | ov_data.py:106-116 | 90 s ahead is `over 2 min`. 30 s ahead is `over 0 min`. 150 s ago is `2 min geleden`. |
| OvData.Build9292Link | ov_data.py:118-128 | The link starts with the planner URL and `?van=`, and contains no space. |
| OvData.Build9292LinkShape | ov_data.py:118-128 | The link is the planner URL, `?van=`, the encoded origin, `&naar=`, and the encoded destination. |
| OvData.Build9292LinkRoundTrip | ov_data.py:118-128 | Decoding the link gives back both places. |
| Urls.QuotePlus | ov_data.py:128 | The encoded text has no space, `&` or `=`, so each field stays one value of the query. |
| Urls.Quote | ov_all.py:48 | The quoted text has no space, `?` or `#`, so a stop name stays inside the URL path. |
| Urls.QuotePlusRoundTrip | ov_data.py:128 | `unquote_plus(quote_plus(s)) == s`. |
| Urls.QuoteRoundTrip | ov_all.py:44-60 | `unquote(quote(s)) == s` for a path segment. |
| Urls.QuoteKeepsSlash | ov_all.py:46 | A `/` in a stop name is not escaped. |
| Urls.Utf8RoundTrip | ov_data.py:128 | Decoding the UTF-8 bytes of a text gives the text back. |
| OvApi.ApiKey | ov_api.py:9-19 | A truthy secret wins, stripped. Otherwise a non-empty environment value, stripped. Otherwise none. |
| OvApi.BlankSecretShadowsEnv | ov_api.py:9-19 | A whitespace-only secret gives the empty key, which hides the environment variable. |
| OvApi.VtHeaders | ov_api.py:21-30 | Without a usable key it raises `RuntimeError`. Otherwise there are four headers: the key first (the argument wins), then the version. |
| OvApi.Request | ov_api.py:32-35 | Without a key it raises before any request. Otherwise it makes exactly one request. |
| OvApi.OrDefault | ov_api.py:52 | A falsy answer becomes the default. Errors and URLs pass through. |
| OvApi.SearchStops | ov_api.py:37-52 | A blank query gives `[]` without a request. A usable town selects the nametown endpoint, and the town is not stripped. No key raises. A truthy answer is returned as it came, a falsy one becomes `[]`, and a failed request raises its error. |
| OvApi.SepStep | ov_api.py:60-70 | There is a step exactly when the text splits at the separator into two non-blank parts. |
| OvApi.TokenStep | ov_api.py:73-82 | There is a token step exactly when the text has at least two words. Its town is the first word and its stop is the other words joined by single spaces. It alone swallows its exception. |
| OvApi.SepStepsSplit | ov_api.py:66-71 | The separator attempts for a list are those before a separator, then its own, then those after it. The separators are tried in list order. |
| OvApi.SmartPlan | ov_api.py:54-83 | The plan is the separator attempts in the order `,` `—` `-` `–` `/`, then the token attempt. Only the token attempt, which is last and exists for two or more words, swallows exceptions. Every step searches a non-blank stop. |
| OvApi.SearchStopsSmart | ov_api.py:54-83 | Blank input gives `[]`. Otherwise the first planned query is requested first. |
| OvApi.CascadeDeclined | ov_api.py:66-82 | A truthy cascade answer is the answer of an attempt whose predecessors all declined. An empty cascade means every attempt declined. |
| OvApi.SmartFirstTruthy | ov_api.py:54-83 | A truthy answer is the first attempt's truthy answer after all earlier attempts came back falsy or with a swallowed error. If every attempt declined, it is the plain-name search of the whole text. |
| OvApi.SmartTriesCommaFirst | ov_api.py:60-70 | With a usable `,` split, the first request is town and stop. |
| OvApi.SmartWithoutKey | ov_api.py:54-83 | Without a key, any non-blank input raises `RuntimeError` with no request. |
| OvApi.SmartFallsBackToName | ov_api.py:82-83 | When every step is silent, the result is the plain name search. |
| OvApi.DeparturesByStopcode | ov_api.py:89-97 | A blank code gives the empty table. Without a key it raises `RuntimeError` with no request. Otherwise it makes one request for the stripped code: a truthy answer is returned as it came, a falsy one becomes the empty table, and a failed request raises its error. |
| OvApi.StopcodeOfNone | ov_api.py:89-97 | `None` is looked up as the stop code `None`. |
| OvApi.OvApiIgnoresPadding | ov_api.py:45-47 | Surrounding whitespace of the query never changes a stop search. The same holds for a stop code (line 93). |
| OvInfo.StopLabel | pages/OV_info.py:54-58 | Without a town the label is `name (code)`. With a town it is `name — town (code)`. The label always ends in `)`. |
| OvInfo.StopName | pages/OV_info.py:55 | Never empty. Without both name fields it is `Onbekende halte`. |
| OvInfo.SuffixLabels | pages/OV_info.py:119-128 | Each label gets `  #k` when it is the k-th occurrence, k > 1. |
| OvInfo.TagInjective | pages/OV_info.py:124-127 | Tagging labels that end in `)` can be undone: equal tags mean equal labels and counts. |
| OvInfo.SuffixedDistinct | pages/OV_info.py:119-128 | Tagged labels are pairwise distinct, so no stop is lost from the options dict. |
| OvInfo.PickList | pages/OV_info.py:119-130 | One distinct label per stop, in result order, each starting with its stop's label. |
| OvInfo.AsRecord | pages/OV_info.py:97-101 | Dicts are kept. A non-blank string becomes a stripped `StopName` record. Everything else is dropped. |
| OvInfo.Records | pages/OV_info.py:96-101 | Never more records than items. |
| OvInfo.NormalizeRaw | pages/OV_info.py:92-103 | Dict answers are unwrapped through `Stops`, `results` or `stops`. A list is filtered item by item. A non-blank string is one record. Anything else is `[]`. |
| OvInfo.RecordsKeepDicts | pages/OV_info.py:97-99 | A list of dicts is kept whole and in order. |
| OvInfo.RecordsDropScalars | pages/OV_info.py:96-101 | A list without dicts or strings yields nothing. |
| OvInfo.Unwrap | pages/OV_info.py:92-95 | A non-dict answer passes unchanged. A dict unwraps to a truthy value or `[]`, and a truthy `Stops` wins. |
| OvInfo.UnwrapStops | pages/OV_info.py:93-95 | A dict with a non-empty `Stops` list is read through it. |
| OvInfo.Rerun | pages/OV_info.py:77-110 | Untriggered, nothing changes. A success stores query, time and normalised results. A failure only clears the results. |
| OvInfo.NoRepeatWithoutButton | pages/OV_info.py:80-86 | After a success, the same text is not searched again without the button. |
| OvInfo.ShouldSearch | pages/OV_info.py:80-84 | An automatic search needs text of at least 2 characters, different from the last query, more than 450 ms after the last search. |
| OvInfo.Throttled | pages/OV_info.py:80-83 | Automatic searches start more than 450 ms after the last success. Text shorter than 2 characters never searches by itself. |
| OvInfo.FailureRetries | pages/OV_info.py:108-110 | A failure keeps the last query, so the same text searches again later. |
| OvInfo.SearchWithoutKey | pages/OV_info.py:85-110 | Without an API key, every triggered search clears the list. |
| OvInfo.FmtDt | pages/OV_info.py:15-21 | A parseable time becomes `HH:MM`. Any other value is returned unchanged. |
| OvInfo.MakeRow | pages/OV_info.py:30-47 | A train row's type is `TRAIN`. Otherwise it is `TransportType`. The time is the formatted expected-or-planned time. |
| OvInfo.BlockRows | pages/OV_info.py:28-48 | A first block that is not a dict raises `AttributeError`. Every row read from TRAIN blocks is a train row. |
| OvInfo.RecordRows | pages/OV_info.py:28-48 | A non-dict record raises. Otherwise there is one row per record, in order. |
| OvInfo.DeparturesTable | pages/OV_info.py:23-52 | A non-dict table raises. The BTMF blocks are walked before TRAIN is iterated, so a BTMF error wins. The rows are the BTMF rows, then the TRAIN rows. |
| OvInfo.TableErrorOrder | pages/OV_info.py:23-40 | `{"BTMF": ["x"], "TRAIN": 5}` raises `AttributeError` at the string block, before TRAIN is iterated. |
| OvInfo.TableTrainNotIterable | pages/OV_info.py:23-40 | `{"BTMF": [], "TRAIN": 5}` raises `TypeError` when TRAIN is iterated. |
| OvInfo.TrainRowsLast | pages/OV_info.py:39-48 | Every row after the BTMF rows is a train row. |
| OvInfo.TimeFallbacks | pages/OV_info.py:15-31 | A missing time shows as `""`, and an unparseable time shows as written. |
| OvInfo.ShowDepartures | pages/OV_info.py:135-152 | An empty selection shows nothing. A non-empty stop without a code gets a warning and no request. Otherwise a request error is shown, then a table error; rows are tabled when there are any, else the no-departures notice. |
| OvInfo.ShowDeparturesAnswer | pages/OV_info.py:135-152 | With a key and a non-blank code, the view follows the server's answer for the stripped code: an error is shown, a falsy answer shows the notice, any other answer is tabled. |
| OvInfo.EmptyDeparturesTable | pages/OV_info.py:23-52 | The empty departures substituted for a falsy answer table to no rows. |
| OvInfo.ShowWithoutKey | pages/OV_info.py:142-152 | Without a key, a stop with a code shows `RuntimeError`. |

## Left out

- Streamlit itself (widgets, session state, columns, HTML, CSS) and the HTML of the hero and rows. Only what decides content is modelled.
- `pages/OV_Reisplanner.py`, the RTL and other news pages, `app.py` and `style.py`: they only call the modelled functions.
- `nearby_stops` in `ov_all.py` and `ov_api.py`, and the "Live locatie" tab of `pages/OV_info.py`. These are a geolocation request and a sort by a float `Distance`.
- Network, HTML parsing, date parsing, SHA-1 and `strftime` are parameters. Their own behaviour is not modelled.
- The server oracle ignores request headers and timeouts.
- `_parse_dt` and `pretty_dt` are only reached through the date parameter.
- Casing: `lower`/`upper` are modelled on ASCII letters only. Python's full Unicode case mapping is left out.
- URL parsing: `urlparse` and `parse_qsl` are given as their results, the six URL parts. The percent-decoding in `parse_qsl` is not modelled.
- Urls.Render: `uses_netloc` and the `//` rule of `urlunsplit` follow Python 3.11. Later Python releases added schemes to that list and changed the rule for a path that starts with `//` and has no network location.
- JSON numbers are integers only. A float in a server answer, such as a fractional delay, has no `Json` value, so `int()` of a float is not modelled.
- `str()` of a nested dict or list follows `repr` without escaping quotes inside strings.
- `int()` of text: underscores and non-ASCII digits are not accepted.
- Duplicate JSON keys: `Get` returns the first field with the key, whereas Python's `json` keeps the last.
- Time is whole seconds (milliseconds for the live search). Sub-second parts of timestamps and of `time.time()` are dropped.
- OvAll.DelayMinutes: the float division in `round((a - b) / 60)` is modelled exactly. Floating-point rounding differences are left out.
- OvData.SortPasses: datetimes are reduced to seconds plus an aware flag. Python raises `TypeError` as soon as the sort compares a naive and an aware time. Any correct sort of a mixed list must make such a comparison, so the model raises exactly for mixed lists.
- KbmUi.RenderSection: models the section as intended, with the collected items as its input. The call as written raises; see "## Findings".
- KbmUi.ItemDict: the item's `dt` is kept on the item, not as a JSON value.
- Feeds.ItemId: the digest is a parameter, so only "depends on link and title only" and the length bound are stated.

## Findings

| source | as written | input that shows it | evidently intended | confidence | as-written member | corrected member |
|---|---|---|---|---|---|---|
| kbm_ui.py:171 | `collect_items(labels, query=None, max_items=max_items)`, but `collect_items` (common.py:252-258) has no `max_items` parameter, so the call raises `TypeError` | any call whose label list is non-empty: `feed_labels` given, or a category with feeds in `CATEGORY_FEEDS` | pass the bound as `max_per_feed` (or leave it out), so the collected items are filtered and shown | high, not executed | KbmUi.RenderSectionAsWritten, KbmUi.MaxItemsKeywordRaises | KbmUi.RenderSection, KbmUi.RenderSectionLayout |
