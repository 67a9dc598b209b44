/** The section renderer shared by the news pages: how it picks an item's
    image and summary from a dict, its query test, and which collected items
    become the hero, the list rows and the opened article. */
module KbmUi {
  import opened Wrappers
  import opened Text
  import opened Seqs
  import opened Json
  import opened Urls
  import opened Feeds

  /** `(v or "").strip()` for the first truthy `v` of a chain of lookups:
      only a string has `.strip()`. */
  function StripFirst(vs: seq<Json>): (r: Result<string>)
    ensures r.Ok? ==> |r.value| > 0 ==> !IsSpace(r.value[0]) && !IsSpace(r.value[|r.value| - 1])
    ensures (forall i | 0 <= i < |vs| :: !Truthy(vs[i])) ==> r == Ok("")
    ensures (exists i | 0 <= i < |vs| :: Truthy(vs[i])) ==>
              exists i | 0 <= i < |vs| :: Truthy(vs[i]) && (forall j | 0 <= j < i :: !Truthy(vs[j])) &&
                                          r == (if vs[i].JStr? then Ok(Strip(vs[i].s)) else Err("AttributeError"))
  {
    var v := FirstTruthy(vs, JStr(""));
    if v.JStr? then Ok(Strip(v.s)) else Err("AttributeError")
  }

  /** `_pick_image(it)`: the first truthy of `image`, `img`, `thumb`, stripped. */
  function PickImage(it: seq<Field>): (r: Result<string>)
    ensures Truthy(Get(it, "image")) ==>
              r == if Get(it, "image").JStr? then Ok(Strip(Get(it, "image").s)) else Err("AttributeError")
    ensures !Truthy(Get(it, "image")) && !Truthy(Get(it, "img")) && !Truthy(Get(it, "thumb")) ==> r == Ok("")
  {
    StripFirst([Get(it, "image"), Get(it, "img"), Get(it, "thumb")])
  }

  /** `_pick_summary(it)`: the first truthy of `summary`, `rss_summary`,
      `description`, stripped. */
  function PickSummary(it: seq<Field>): (r: Result<string>)
    ensures Truthy(Get(it, "summary")) ==>
              r == if Get(it, "summary").JStr? then Ok(Strip(Get(it, "summary").s)) else Err("AttributeError")
    ensures !Truthy(Get(it, "summary")) && !Truthy(Get(it, "rss_summary")) && !Truthy(Get(it, "description")) ==> r == Ok("")
  {
    StripFirst([Get(it, "summary"), Get(it, "rss_summary"), Get(it, "description")])
  }

  /** `_matches_query(it, query)`. The title is read with a `""` default and
      concatenated before the summary is picked, so a non-string title fails
      first. */
  function MatchesQuery(it: seq<Field>, query: string): (r: Result<bool>)
    ensures IsBlank(query) ==> r == Ok(true)
    ensures !IsBlank(query) && r.Ok? ==>
              GetDefault(it, "title", JStr("")).JStr? && PickSummary(it).Ok? &&
              (r.value <==> Contains(Lower(GetDefault(it, "title", JStr("")).s + " " + PickSummary(it).value), Strip(Lower(query))))
    ensures !IsBlank(query) && !GetDefault(it, "title", JStr("")).JStr? ==> r == Err("TypeError")
  {
    LowerBlank(query);
    StripBlankIsEmpty(Lower(query));
    if query == "" then Ok(true)
    else
      var q := Strip(Lower(query));
      if q == "" then Ok(true)
      else
        var title := GetDefault(it, "title", JStr(""));
        if !title.JStr? then Err("TypeError")
        else
          var summary :- PickSummary(it);
          Ok(Contains(Lower(title.s + " " + summary), q))
  }

  /** Lower-casing only touches `A`..`Z`, so it keeps a string blank or not. */
  lemma {:induction false} LowerBlank(s: string)
    ensures IsBlank(Lower(s)) <==> IsBlank(s)
  {
    if IsBlank(Lower(s)) {
      forall i | 0 <= i < |s| ensures IsSpace(s[i]) {
        assert IsSpace(Lower(s)[i]);
      }
    }
  }

  /** A whitespace-only `image` is truthy, so it shadows `img` and the
      picked image is empty. */
  lemma {:induction false} BlankImageShadowsImg(it: seq<Field>)
    requires Get(it, "image").JStr? && Get(it, "image").s != "" && IsBlank(Get(it, "image").s)
    ensures PickImage(it) == Ok("")
  {
    FirstTruthy3(Get(it, "image"), Get(it, "img"), Get(it, "thumb"), JStr(""));
    StripBlankIsEmpty(Get(it, "image").s);
  }

  /** The image is the stripped `img` when there is no truthy `image`, and
      the stripped `thumb` when neither is truthy. */
  lemma {:induction false} PickImageFallsBack(it: seq<Field>)
    requires !Truthy(Get(it, "image"))
    ensures Truthy(Get(it, "img")) && Get(it, "img").JStr? ==> PickImage(it) == Ok(Strip(Get(it, "img").s))
    ensures !Truthy(Get(it, "img")) && Truthy(Get(it, "thumb")) && Get(it, "thumb").JStr? ==>
              PickImage(it) == Ok(Strip(Get(it, "thumb").s))
    ensures !Truthy(Get(it, "img")) && !Truthy(Get(it, "thumb")) ==> PickImage(it) == Ok("")
  {
    FirstTruthy3(Get(it, "image"), Get(it, "img"), Get(it, "thumb"), JStr(""));
  }

  /** The summary is `summary` when set, else `rss_summary`, else `description`. */
  lemma {:induction false} PickSummaryOrder(it: seq<Field>)
    ensures Truthy(Get(it, "summary")) && Get(it, "summary").JStr? ==> PickSummary(it) == Ok(Strip(Get(it, "summary").s))
    ensures !Truthy(Get(it, "summary")) && Truthy(Get(it, "rss_summary")) && Get(it, "rss_summary").JStr? ==>
              PickSummary(it) == Ok(Strip(Get(it, "rss_summary").s))
    ensures !Truthy(Get(it, "summary")) && !Truthy(Get(it, "rss_summary")) && Truthy(Get(it, "description")) && Get(it, "description").JStr? ==>
              PickSummary(it) == Ok(Strip(Get(it, "description").s))
  {
    FirstTruthy3(Get(it, "summary"), Get(it, "rss_summary"), Get(it, "description"), JStr(""));
  }

  // ---------------------------------------------------------------------
  // Collected items as dicts
  // ---------------------------------------------------------------------

  /** The keys of an item dict, in insertion order. */
  const ITEM_KEYS: seq<string> := ["title", "link", "rss_summary", "img", "source", "feed_label"]

  lemma {:induction false} ItemKeysLack()
    ensures "image" !in ITEM_KEYS && "summary" !in ITEM_KEYS && "description" !in ITEM_KEYS && "thumb" !in ITEM_KEYS
  {
  }

  /** The dict `collect_items` builds for an item. Its `dt` is kept on the
      item itself, since none of the functions here reads it from the dict. */
  function ItemDict(it: Item): (d: seq<Field>)
    ensures GetDefault(d, "title", JStr("")) == JStr(it.title)
    ensures Get(d, "summary") == JNull && Get(d, "rss_summary") == JStr(it.rssSummary) && Get(d, "description") == JNull
    ensures Get(d, "image") == JNull && Get(d, "img") == it.img && Get(d, "thumb") == JNull
  {
    ItemFieldsAbsent(it);
    ItemFieldsPresent(it);
    ItemFields(it)
  }

  function ItemFields(it: Item): seq<Field> {
    var vals := [JStr(it.title), JStr(LinkText(it.link)), JStr(it.rssSummary), it.img, JStr(it.source), JStr(it.feedLabel)];
    seq(6, i requires 0 <= i < 6 => Field(ITEM_KEYS[i], vals[i]))
  }

  /** The keys the pickers try first but an item dict does not carry. */
  lemma {:induction false} ItemFieldsAbsent(it: Item)
    ensures var d := ItemFields(it);
            Get(d, "summary") == JNull && Get(d, "description") == JNull && Get(d, "image") == JNull && Get(d, "thumb") == JNull
  {
    var d := ItemFields(it);
    assert forall i | 0 <= i < 6 :: d[i].key == ITEM_KEYS[i];
    ItemKeysLack();
    GetAbsent(d, "image", ITEM_KEYS);
    GetAbsent(d, "summary", ITEM_KEYS);
    GetAbsent(d, "description", ITEM_KEYS);
    GetAbsent(d, "thumb", ITEM_KEYS);
  }

  /** The keys an item dict carries, with the item's values. */
  lemma {:induction false} ItemFieldsPresent(it: Item)
    ensures var d := ItemFields(it);
            GetDefault(d, "title", JStr("")) == JStr(it.title) && Get(d, "rss_summary") == JStr(it.rssSummary) && Get(d, "img") == it.img
  {
    var d := ItemFields(it);
    assert d[0] == Field("title", JStr(it.title));
    assert d[1].key == "link" && d[2] == Field("rss_summary", JStr(it.rssSummary)) && d[3] == Field("img", it.img);
    assert HasKey(d, "title");
    GetAt(d, "title", 0);
    GetAt(d, "rss_summary", 2);
    GetAt(d, "img", 3);
  }

  /** On a collected item the section's query test never fails, and for a
      non-blank query it is the test of `collect_items` with the query also
      stripped. */
  lemma {:induction false} MatchesCollectedItem(it: Item, query: string)
    requires Clean(it.rssSummary)
    ensures MatchesQuery(ItemDict(it), query).Ok?
    ensures MatchesQuery(ItemDict(it), query).value <==> IsBlank(query) || QueryHit(it, Strip(Lower(query)))
  {
    var d := ItemDict(it);
    if !IsBlank(query) {
      var q := Strip(Lower(query));
      LowerBlank(query);
      StripBlankIsEmpty(Lower(query));
      PickSummaryOfItem(it);
      LowerOfJoin(it.title, it.rssSummary);
      assert MatchesQuery(d, query) == Ok(Contains(Lower(it.title + " " + it.rssSummary), q));
    }
  }

  /** The summary picked from a collected item is its `rss_summary`. */
  lemma {:induction false} PickSummaryOfItem(it: Item)
    requires Clean(it.rssSummary)
    ensures PickSummary(ItemDict(it)) == Ok(it.rssSummary)
  {
    var d := ItemDict(it);
    FirstTruthy3(Get(d, "summary"), Get(d, "rss_summary"), Get(d, "description"), JStr(""));
    StripOfStripped(it.rssSummary);
  }

  lemma {:induction false} LowerOfJoin(a: string, b: string)
    ensures Lower(a + " " + b) == Lower(a) + " " + Lower(b)
  {
    var whole := a + " " + b;
    var parts := Lower(a) + " " + Lower(b);
    forall i | 0 <= i < |whole| ensures Lower(whole)[i] == parts[i] {
      if i < |a| {
        assert whole[i] == a[i];
      } else if i == |a| {
        assert whole[i] == ' ';
      } else {
        assert whole[i] == b[i - |a| - 1];
      }
    }
  }

  // ---------------------------------------------------------------------
  // render_section
  // ---------------------------------------------------------------------

  /** `feed_labels or CATEGORY_FEEDS.get(category, [])`. */
  function SectionLabels(feedLabels: seq<string>, category: string): (r: seq<string>)
    ensures feedLabels != [] ==> r == feedLabels
    ensures feedLabels == [] && category !in CATEGORY_FEEDS ==> r == []
  {
    if feedLabels != [] then feedLabels
    else if category in CATEGORY_FEEDS then CATEGORY_FEEDS[category] else []
  }

  /** The `if hours_limit:` filter; `None` and `0` both switch it off. */
  predicate Recent(it: Item, hoursLimit: Option<int>, now: int) {
    hoursLimit.None? || hoursLimit.value == 0 || WithinHours(it.dt, hoursLimit.value, now)
  }

  /** The `if query:` filter. */
  predicate Wanted(it: Item, query: string) {
    query == "" || MatchesQuery(ItemDict(it), query) == Ok(true)
  }

  /** Whether a section shows a collected item: it passes both filters. */
  function ShowsItem(hoursLimit: Option<int>, query: string, now: int): Item -> bool {
    (x: Item) => Recent(x, hoursLimit, now) && Wanted(x, query)
  }

  /** The items a section shows, in collection order: those that pass the
      hours filter and then the query filter. The two passes are one filter
      by both tests, so the items keep their order and multiplicity. */
  function Shown(items: seq<Item>, hoursLimit: Option<int>, query: string, now: int): (r: seq<Item>)
    ensures forall x | x in r :: x in items && Recent(x, hoursLimit, now) && Wanted(x, query)
    ensures forall x | x in items && Recent(x, hoursLimit, now) && Wanted(x, query) :: x in r
    ensures r == Filter(items, ShowsItem(hoursLimit, query, now))
    ensures |r| <= |items|
    ensures Subsequence(r, items)
    ensures forall x :: multiset(r)[x] == if Recent(x, hoursLimit, now) && Wanted(x, query) then multiset(items)[x] else 0
  {
    var inWindow := (x: Item) => Recent(x, hoursLimit, now);
    var wanted := (x: Item) => Wanted(x, query);
    var keep := ShowsItem(hoursLimit, query, now);
    var on := hoursLimit.Some? && hoursLimit.value != 0;
    FilterPasses(items, on, inWindow, query != "", wanted, keep);
    ShownFacts(items, hoursLimit, query, now);
    var recent := if on then Filter(items, inWindow) else items;
    if query != "" then Filter(recent, wanted) else recent
  }

  /** The single filter by both tests keeps exactly the passing items, in
      order, with their counts. */
  lemma {:induction false} ShownFacts(items: seq<Item>, hoursLimit: Option<int>, query: string, now: int)
    ensures var r := Filter(items, ShowsItem(hoursLimit, query, now));
            && (forall x :: x in r <==> x in items && Recent(x, hoursLimit, now) && Wanted(x, query))
            && Subsequence(r, items)
            && forall x :: multiset(r)[x] == if Recent(x, hoursLimit, now) && Wanted(x, query) then multiset(items)[x] else 0
  {
    var keep := ShowsItem(hoursLimit, query, now);
    FilterMembers(items, keep);
    FilterCounts(items, keep);
    FilterSubsequence(items, keep);
  }

  /** `next((x for x in items if item_id(x) == open_id), None)`, looked up
      only when `open_id` is set. */
  function OpenItem(shown: seq<Item>, openId: string, sha1Hex: string -> string): (r: Option<Item>)
    ensures r.Some? ==> openId != "" && ItemId(r.value, sha1Hex) == openId &&
                        exists k | 0 <= k < |shown| :: shown[k] == r.value && forall j | 0 <= j < k :: ItemId(shown[j], sha1Hex) != openId
    ensures r.None? && openId != "" ==> forall x | x in shown :: ItemId(x, sha1Hex) != openId
  {
    if openId == "" then None
    else
      var k := FindFirst(shown, (x: Item) => ItemId(x, sha1Hex) == openId);
      if k < |shown| then Some(shown[k]) else None
  }

  datatype Section =
    | NoFeeds                                            // "Geen feeds ingesteld"
    | NoItems                                            // "Geen berichten gevonden."
    | Section(hero: Item, rows: seq<Item>, article: Option<Item>)

  /** `render_section` after `collect_items`: `items` is what the collection
      returned for the section's labels, `openId` the stored open-item id. */
  function RenderSection(labels: seq<string>, items: seq<Item>, hoursLimit: Option<int>, query: string,
                         thumbsN: int, openId: string, now: int, sha1Hex: string -> string): (r: Section)
    ensures r == NoFeeds <==> labels == []
    ensures r == NoItems <==> labels != [] && Shown(items, hoursLimit, query, now) == []
    ensures r.Section? ==> r.hero in items && Recent(r.hero, hoursLimit, now) && Wanted(r.hero, query)
    ensures r.Section? ==> forall x | x in r.rows :: x in items && Recent(x, hoursLimit, now) && Wanted(x, query)
    ensures r.Section? ==> |r.rows| <= (if thumbsN < 0 then |items| else thumbsN)
    ensures r.Section? && r.article.Some? ==>
              openId != "" && r.article.value in items && ItemId(r.article.value, sha1Hex) == openId
  {
    if labels == [] then NoFeeds
    else
      var shown := Shown(items, hoursLimit, query, now);
      if shown == [] then NoItems
      else Layout(shown, thumbsN, openId, sha1Hex)
  }

  /** The hero, the next `thumbs_n` shown items as rows, and the opened
      item, all taken from the shown items. */
  function Layout(shown: seq<Item>, thumbsN: int, openId: string, sha1Hex: string -> string): (r: Section)
    requires shown != []
    ensures r.Section? && r.hero == shown[0] && r.hero in shown
    ensures forall x | x in r.rows :: x in shown
    ensures |r.rows| <= (if thumbsN < 0 then |shown| else thumbsN)
    ensures r.article.Some? ==> openId != "" && r.article.value in shown && ItemId(r.article.value, sha1Hex) == openId
  {
    var rows := PySlice(shown, 1, 1 + thumbsN);
    PySliceIn(shown, 1, 1 + thumbsN);
    PySliceNonNegative(shown, 1, if thumbsN < 0 then 1 else 1 + thumbsN);
    Section(shown[0], rows, OpenItem(shown, openId, sha1Hex))
  }

  /** The keyword parameters of `collect_items`. */
  const COLLECT_ITEMS_KEYWORDS: seq<string> := ["feed_labels", "query", "max_per_feed", "force_fetch", "ai_on"]

  /** Python's binding of keyword arguments: a keyword the callee does not
      declare (and that no `**kwargs` absorbs) raises `TypeError`. */
  function BindKeywords(params: seq<string>, kws: seq<string>): (r: Result<()>)
    ensures r.Ok? <==> forall k | k in kws :: k in params
    ensures r.Err? ==> r.error == "TypeError"
  {
    if kws == [] then Ok(())
    else if kws[0] !in params then Err("TypeError")
    else
      assert forall k | k in kws :: k == kws[0] || k in kws[1..];
      BindKeywords(params, kws[1..])
  }

  /** `render_section` as written: it calls `collect_items(labels,
      query=None, max_items=max_items)`, and `collect_items` has no
      `max_items` parameter, so every section with feeds raises before
      anything is shown. */
  function RenderSectionAsWritten(labels: seq<string>, items: seq<Item>, hoursLimit: Option<int>, query: string,
                                  thumbsN: int, openId: string, now: int, sha1Hex: string -> string): (r: Result<Section>)
    ensures labels == [] ==> r == Ok(NoFeeds)
    ensures labels != [] ==> r == Err("TypeError")
  {
    if labels == [] then Ok(NoFeeds)
    else
      var bound := BindKeywords(COLLECT_ITEMS_KEYWORDS, ["query", "max_items"]);
      assert "max_items" !in COLLECT_ITEMS_KEYWORDS;
      if bound.Err? then Err(bound.error)
      else Ok(RenderSection(labels, items, hoursLimit, query, thumbsN, openId, now, sha1Hex))
  }

  /** The call as written raises for every section with feeds, while the
      intended call (the per-feed bound passed as `max_per_feed`) binds and
      the section renders: the hero and rows, or the no-items notice. */
  lemma MaxItemsKeywordRaises(labels: seq<string>, items: seq<Item>, hoursLimit: Option<int>, query: string,
                              thumbsN: int, openId: string, now: int, sha1Hex: string -> string)
    requires labels != []
    ensures RenderSectionAsWritten(labels, items, hoursLimit, query, thumbsN, openId, now, sha1Hex) == Err("TypeError")
    ensures BindKeywords(COLLECT_ITEMS_KEYWORDS, ["query", "max_per_feed"]) == Ok(())
    ensures RenderSection(labels, items, hoursLimit, query, thumbsN, openId, now, sha1Hex) != NoFeeds
  {
    assert forall k | k in ["query", "max_per_feed"] :: k in COLLECT_ITEMS_KEYWORDS;
  }

  /** The hero and the rows are the first `1 + thumbs_n` shown items, in
      order, and the opened item is the first shown item with that id. */
  lemma {:induction false} RenderSectionLayout(labels: seq<string>, items: seq<Item>, hoursLimit: Option<int>, query: string,
                            thumbsN: nat, openId: string, now: int, sha1Hex: string -> string)
    requires labels != []
    requires Shown(items, hoursLimit, query, now) != []
    ensures var shown := Shown(items, hoursLimit, query, now);
            var r := RenderSection(labels, items, hoursLimit, query, thumbsN, openId, now, sha1Hex);
            && r.Section?
            && [r.hero] + r.rows == shown[..1 + |r.rows|]
            && |r.rows| == (if thumbsN < |shown| - 1 then thumbsN else |shown| - 1)
            && r.article == OpenItem(shown, openId, sha1Hex)
  {
    var shown := Shown(items, hoursLimit, query, now);
    HeadAndNext(shown, thumbsN);
  }

  /** An id present among the shown items always opens an article. */
  lemma {:induction false} OpenItemFound(shown: seq<Item>, openId: string, sha1Hex: string -> string, i: nat)
    requires openId != "" && i < |shown| && ItemId(shown[i], sha1Hex) == openId
    ensures OpenItem(shown, openId, sha1Hex).Some?
  {
    assert shown[i] in shown;
  }
}
