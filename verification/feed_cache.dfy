/** The process-wide feed cache of the news pipeline: a map from feed URL to
    the time it was fetched and the parsed feed, consulted for 90 seconds.
    The clock is a parameter (whole seconds) and the feed parser an oracle
    that may answer differently at different times. */
module FeedCache {

  /** `_FEED_CACHE_TTL`, in seconds. */
  const TTL: int := 90

  datatype Entry<D> = Entry(t: int, d: D)

  type Cache<D> = map<string, Entry<D>>

  /** A cached value for `url` that may still be served at time `now`. */
  predicate Fresh<D>(c: Cache<D>, url: string, now: int) {
    url in c && now - c[url].t < TTL
  }

  datatype Fetched<D> = Fetched(d: D, cache: Cache<D>, fetched: bool)

  /** `fetch_feed(url)` at time `now`: a fresh entry is served without a
      fetch; otherwise the feed is parsed and stored with timestamp `now`,
      whatever the parse produced. */
  function Fetch<D>(c: Cache<D>, url: string, now: int, parse: (string, int) -> D): (r: Fetched<D>)
    ensures r.fetched <==> !Fresh(c, url, now)
    ensures !r.fetched ==> r.d == c[url].d && r.cache == c
    ensures r.cache.Keys == c.Keys + {url}
    ensures r.fetched ==> r.d == parse(url, now) && r.cache[url] == Entry(now, r.d)
    ensures forall u | u in c && u != url :: r.cache[u] == c[u]
  {
    if Fresh(c, url, now) then Fetched(c[url].d, c, false)
    else
      var d := parse(url, now);
      Fetched(d, c[url := Entry(now, d)], true)
  }

  /** `clear_feed_caches()`. */
  function Clear<D>(c: Cache<D>): (r: Cache<D>)
    ensures forall u :: !Fresh(r, u, 0)
    ensures |r| == 0
  {
    map[]
  }

  /** `_FEED_CACHE.pop(url, None)`, the eviction `force_fetch` performs. */
  function Evict<D>(c: Cache<D>, url: string): (r: Cache<D>)
    ensures url !in r
    ensures forall u | u != url :: (u in r <==> u in c) && (u in c ==> r[u] == c[u])
  {
    c - {url}
  }

  /** Once a feed has been fetched, every fetch of it within the next 90
      seconds serves that value and fetches nothing, even if the source has
      changed meanwhile. */
  lemma {:induction false} FetchTwiceWithinTtl<D>(c: Cache<D>, url: string, t1: int, t2: int, parse: (string, int) -> D)
    requires !Fresh(c, url, t1)
    requires t1 <= t2 < t1 + TTL
    ensures var first := Fetch(c, url, t1, parse);
            var second := Fetch(first.cache, url, t2, parse);
            !second.fetched && second.d == parse(url, t1) && second.cache == first.cache
  {
  }

  /** Once the TTL has run out the feed is fetched again and the new parse
      replaces the old one. */
  lemma {:induction false} FetchAfterTtl<D>(c: Cache<D>, url: string, now: int, parse: (string, int) -> D)
    requires url in c && now >= c[url].t + TTL
    ensures Fetch(c, url, now, parse).fetched
    ensures Fetch(c, url, now, parse).cache[url] == Entry(now, parse(url, now))
  {
  }

  /** After `clear_feed_caches` every feed is fetched anew. */
  lemma {:induction false} ClearThenFetch<D>(c: Cache<D>, url: string, now: int, parse: (string, int) -> D)
    ensures Fetch(Clear(c), url, now, parse).fetched
    ensures Fetch(Clear(c), url, now, parse).cache == map[url := Entry(now, parse(url, now))]
  {
  }

  /** `force_fetch` refetches its own URL and leaves every other entry alone. */
  lemma {:induction false} EvictThenFetch<D>(c: Cache<D>, url: string, now: int, parse: (string, int) -> D)
    ensures var r := Fetch(Evict(c, url), url, now, parse);
            r.fetched && r.d == parse(url, now)
            && r.cache.Keys == c.Keys + {url}
            && forall u | u in c && u != url :: r.cache[u] == c[u]
  {
  }
}
