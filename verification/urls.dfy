/** URLs as `urllib.parse` sees them: the six parts `urlparse` yields, with the
    query already split into decoded key/value pairs by `parse_qsl`; the
    `quote_plus`/`urlencode` encoding on the way back out; and the link
    rules the feed pipeline applies (tracking-parameter stripping, host). */
module Urls {
  import opened Wrappers
  import opened Text
  import opened Seqs

  type Byte = b: int | 0 <= b < 256

  // ---------------------------------------------------------------------
  // UTF-8
  // ---------------------------------------------------------------------

  predicate IsCont(b: Byte) {
    0x80 <= b < 0xC0
  }

  /** UTF-8 encoding of one scalar value. */
  function CharUtf8(c: char): (r: seq<Byte>)
    ensures 1 <= |r| <= 4
  {
    var n := c as int;
    if n < 0x80 then [n]
    else if n < 0x800 then [0xC0 + n / 64, 0x80 + n % 64]
    else if n < 0x10000 then [0xE0 + n / 4096, 0x80 + (n / 64) % 64, 0x80 + n % 64]
    else [0xF0 + n / 262144, 0x80 + (n / 4096) % 64, 0x80 + (n / 64) % 64, 0x80 + n % 64]
  }

  /** `s.encode("utf-8")`. */
  function Utf8(s: string): seq<Byte>
    decreases |s|
  {
    if |s| == 0 then [] else CharUtf8(s[0]) + Utf8(s[1..])
  }

  predicate IsScalar(n: int) {
    0 <= n < 0xD800 || 0xE000 <= n < 0x110000
  }

  /** Decodes the character at the front of `bs`, rejecting overlong forms,
      surrogates and values beyond U+10FFFF; also yields its length in bytes. */
  function DecodeChar(bs: seq<Byte>): (r: Option<(char, nat)>)
    requires |bs| > 0
    ensures r.Some? ==> 1 <= r.value.1 <= |bs|
  {
    var b0: int := bs[0];
    if b0 < 0x80 then Some((b0 as char, 1))
    else if 0xC0 <= b0 < 0xE0 && |bs| >= 2 && IsCont(bs[1]) then
      var n: int := (b0 - 0xC0) * 64 + (bs[1] as int - 0x80);
      if 0x80 <= n then Some((n as char, 2)) else None
    else if 0xE0 <= b0 < 0xF0 && |bs| >= 3 && IsCont(bs[1]) && IsCont(bs[2]) then
      var n: int := (b0 - 0xE0) * 4096 + (bs[1] as int - 0x80) * 64 + (bs[2] as int - 0x80);
      if 0x800 <= n && IsScalar(n) then Some((n as char, 3)) else None
    else if 0xF0 <= b0 < 0xF8 && |bs| >= 4 && IsCont(bs[1]) && IsCont(bs[2]) && IsCont(bs[3]) then
      var n: int := (b0 - 0xF0) * 262144 + (bs[1] as int - 0x80) * 4096 + (bs[2] as int - 0x80) * 64 + (bs[3] as int - 0x80);
      if 0x10000 <= n && IsScalar(n) then Some((n as char, 4)) else None
    else None
  }

  /** `bs.decode("utf-8")`, with `None` where Python would raise. */
  function DecodeUtf8(bs: seq<Byte>): Option<string>
    decreases |bs|
  {
    if |bs| == 0 then Some([])
    else match DecodeChar(bs)
      case None => None
      case Some(cn) =>
        match DecodeUtf8(bs[cn.1..])
        case None => None
        case Some(rest) => Some([cn.0] + rest)
  }

  lemma {:induction false} DecodeCharUtf8(c: char, rest: seq<Byte>)
    ensures DecodeChar(CharUtf8(c) + rest) == Some((c, |CharUtf8(c)|))
  {
    var n := c as int;
    if n < 0x80 {
      assert (CharUtf8(c) + rest)[0] == n;
    } else if n < 0x800 {
      DecodeTwo(c, rest);
    } else if n < 0x10000 {
      DecodeThree(c, rest);
    } else {
      DecodeFour(c, rest);
    }
  }

  lemma {:induction false} DecodeTwo(c: char, rest: seq<Byte>)
    requires 0x80 <= c as int < 0x800
    ensures DecodeChar(CharUtf8(c) + rest) == Some((c, 2))
  {
    var n := c as int;
    var hi, lo := n / 64, n % 64;
    assert hi * 64 + lo == n;
    var bs := CharUtf8(c) + rest;
    assert bs[0] == 0xC0 + hi && bs[1] == 0x80 + lo;
  }

  lemma {:induction false} DecodeThree(c: char, rest: seq<Byte>)
    requires 0x800 <= c as int < 0x10000
    ensures DecodeChar(CharUtf8(c) + rest) == Some((c, 3))
  {
    var n := c as int;
    var hi, mid, lo := n / 4096, (n / 64) % 64, n % 64;
    assert hi * 4096 + mid * 64 + lo == n by {
      assert (n / 64) / 64 == hi;
      assert (n / 64) == hi * 64 + mid;
    }
    var bs := CharUtf8(c) + rest;
    assert bs[0] == 0xE0 + hi && bs[1] == 0x80 + mid && bs[2] == 0x80 + lo;
  }

  lemma {:induction false} DecodeFour(c: char, rest: seq<Byte>)
    requires 0x10000 <= c as int
    ensures DecodeChar(CharUtf8(c) + rest) == Some((c, 4))
  {
    var n := c as int;
    var top, hi, mid, lo := n / 262144, (n / 4096) % 64, (n / 64) % 64, n % 64;
    assert top * 262144 + hi * 4096 + mid * 64 + lo == n by {
      assert ((n / 64) / 64) / 64 == top;
      assert (n / 64) / 64 == n / 4096;
      assert n / 4096 == top * 64 + hi;
      assert (n / 64) == (n / 4096) * 64 + mid;
    }
    var bs := CharUtf8(c) + rest;
    assert bs[0] == 0xF0 + top && bs[1] == 0x80 + hi && bs[2] == 0x80 + mid && bs[3] == 0x80 + lo;
  }

  /** Decoding undoes encoding: `s.encode("utf-8").decode("utf-8") == s`. */
  lemma {:induction false} Utf8RoundTrip(s: string)
    ensures DecodeUtf8(Utf8(s)) == Some(s)
    decreases |s|
  {
    if |s| > 0 {
      var head := CharUtf8(s[0]);
      DecodeCharUtf8(s[0], Utf8(s[1..]));
      assert (head + Utf8(s[1..]))[|head|..] == Utf8(s[1..]);
      Utf8RoundTrip(s[1..]);
      assert [s[0]] + s[1..] == s;
    }
  }

  // ---------------------------------------------------------------------
  // Percent-encoding (`quote_plus`) and its inverse (`unquote_plus`)
  // ---------------------------------------------------------------------

  /** The bytes `quote` never escapes: ASCII letters, digits and `_.-~`. */
  predicate Unreserved(b: int) {
    ('A' as int <= b <= 'Z' as int) || ('a' as int <= b <= 'z' as int) || ('0' as int <= b <= '9' as int)
    || b == '_' as int || b == '.' as int || b == '-' as int || b == '~' as int
  }

  function HexDigit(d: nat): (c: char)
    requires d < 16
    ensures IsHex(c) && HexValue(c) == d
  {
    if d < 10 then ('0' as int + d) as char else ('A' as int + d - 10) as char
  }

  predicate IsHex(c: char) {
    ('0' <= c <= '9') || ('A' <= c <= 'F') || ('a' <= c <= 'f')
  }

  function HexValue(c: char): (d: nat)
    requires IsHex(c)
    ensures d < 16
  {
    if '0' <= c <= '9' then c as int - '0' as int
    else if 'A' <= c <= 'F' then c as int - 'A' as int + 10
    else c as int - 'a' as int + 10
  }

  function QuoteByte(b: Byte): (r: string)
    ensures 1 <= |r| <= 3
    ensures ' ' !in r && '&' !in r && '=' !in r
  {
    if Unreserved(b) then [b as char]
    else if b == 0x20 then "+"
    else ['%', HexDigit(b / 16), HexDigit(b % 16)]
  }

  function QuoteBytes(bs: seq<Byte>): (r: string)
    ensures ' ' !in r && '&' !in r && '=' !in r
    decreases |bs|
  {
    if |bs| == 0 then [] else QuoteByte(bs[0]) + QuoteBytes(bs[1..])
  }

  /** `quote_plus(s)`: UTF-8 bytes, unreserved bytes kept, space as `+`,
      every other byte as `%XX` with upper-case hex digits. */
  function QuotePlus(s: string): (r: string)
    ensures ' ' !in r && '&' !in r && '=' !in r
  {
    QuoteBytes(Utf8(s))
  }

  /** The bytes `unquote_plus` reads from `s`: `+` is a space, `%XX` is one
      byte, any other character stands for its own UTF-8 bytes. */
  function UnquoteBytes(s: string): seq<Byte>
    decreases |s|
  {
    if |s| == 0 then []
    else if s[0] == '+' then [0x20] + UnquoteBytes(s[1..])
    else if s[0] == '%' && |s| >= 3 && IsHex(s[1]) && IsHex(s[2]) then
      [HexValue(s[1]) * 16 + HexValue(s[2])] + UnquoteBytes(s[3..])
    else CharUtf8(s[0]) + UnquoteBytes(s[1..])
  }

  /** `unquote_plus(s)`; `None` where the bytes are not UTF-8 (Python
      substitutes U+FFFD there). */
  function UnquotePlus(s: string): Option<string> {
    DecodeUtf8(UnquoteBytes(s))
  }

  lemma {:induction false} UnquoteQuoteByte(b: Byte, rest: string)
    ensures UnquoteBytes(QuoteByte(b) + rest) == [b] + UnquoteBytes(rest)
  {
    var q := QuoteByte(b);
    if Unreserved(b) {
      assert (q + rest)[1..] == rest;
    } else if b == 0x20 {
      assert (q + rest)[1..] == rest;
    } else {
      assert (q + rest)[3..] == rest;
    }
  }

  lemma {:induction false} UnquoteQuoteBytes(bs: seq<Byte>)
    ensures UnquoteBytes(QuoteBytes(bs)) == bs
    decreases |bs|
  {
    if |bs| > 0 {
      UnquoteQuoteByte(bs[0], QuoteBytes(bs[1..]));
      UnquoteQuoteBytes(bs[1..]);
      assert [bs[0]] + bs[1..] == bs;
    }
  }

  /** `unquote_plus(quote_plus(s)) == s` for every string. */
  lemma {:induction false} QuotePlusRoundTrip(s: string)
    ensures UnquotePlus(QuotePlus(s)) == Some(s)
  {
    UnquoteQuoteBytes(Utf8(s));
    Utf8RoundTrip(s);
  }

  /** A character `quote_plus` may emit. */
  predicate QuotedChar(c: char) {
    Unreserved(c as int) || c == '+' || c == '%'
  }

  lemma {:induction false} QuoteBytesAlphabet(bs: seq<Byte>)
    ensures forall i | 0 <= i < |QuoteBytes(bs)| :: QuotedChar(QuoteBytes(bs)[i])
    decreases |bs|
  {
    if |bs| > 0 {
      QuoteBytesAlphabet(bs[1..]);
      var q := QuoteByte(bs[0]);
      assert forall i | 0 <= i < |q| :: QuotedChar(q[i]);
      var r := QuoteBytes(bs);
      assert r == q + QuoteBytes(bs[1..]);
      forall i | 0 <= i < |r| ensures QuotedChar(r[i]) {
        if i >= |q| {
          assert r[i] == QuoteBytes(bs[1..])[i - |q|];
        }
      }
    }
  }

  /** The output of `quote_plus` holds none of the characters that delimit a
      query (`&`, `=`, `#`) or a space, so a pair built from it splits back
      unambiguously. */
  lemma {:induction false} QuotePlusSafe(s: string)
    ensures forall i | 0 <= i < |QuotePlus(s)| :: QuotedChar(QuotePlus(s)[i])
    ensures '&' !in QuotePlus(s) && '=' !in QuotePlus(s) && '#' !in QuotePlus(s) && ' ' !in QuotePlus(s)
  {
    QuoteBytesAlphabet(Utf8(s));
  }

  /** One byte as `quote` (default `safe="/"`) writes it: `/` stays. */
  function QuotePathByte(b: Byte): (r: string)
    ensures 1 <= |r| <= 3
    ensures ' ' !in r && '?' !in r && '#' !in r
  {
    if Unreserved(b) || b == '/' as int then [b as char]
    else ['%', HexDigit(b / 16), HexDigit(b % 16)]
  }

  function QuotePathBytes(bs: seq<Byte>): (r: string)
    ensures ' ' !in r && '?' !in r && '#' !in r
    decreases |bs|
  {
    if |bs| == 0 then [] else QuotePathByte(bs[0]) + QuotePathBytes(bs[1..])
  }

  /** `quote(s)`, as the transit clients use it to put names into URL paths:
      like `quote_plus`, but a space becomes `%20` and `/` is kept. */
  function Quote(s: string): (r: string)
    ensures ' ' !in r && '?' !in r && '#' !in r
  {
    QuotePathBytes(Utf8(s))
  }

  lemma {:induction false} UnquoteQuotePathByte(b: Byte, rest: string)
    ensures UnquoteBytes(QuotePathByte(b) + rest) == [b] + UnquoteBytes(rest)
  {
    var q := QuotePathByte(b);
    if Unreserved(b) || b == '/' as int {
      assert (q + rest)[1..] == rest;
    } else {
      assert (q + rest)[3..] == rest;
    }
  }

  lemma {:induction false} UnquoteQuotePathBytes(bs: seq<Byte>)
    ensures UnquoteBytes(QuotePathBytes(bs)) == bs
    decreases |bs|
  {
    if |bs| > 0 {
      UnquoteQuotePathByte(bs[0], QuotePathBytes(bs[1..]));
      UnquoteQuotePathBytes(bs[1..]);
      assert [bs[0]] + bs[1..] == bs;
    }
  }

  /** `unquote(quote(s)) == s`: `quote` never emits `+`, so decoding with
      `unquote_plus` rules gives the same string back. */
  lemma {:induction false} QuoteRoundTrip(s: string)
    ensures UnquotePlus(Quote(s)) == Some(s)
  {
    UnquoteQuotePathBytes(Utf8(s));
    Utf8RoundTrip(s);
  }

  /** A `/` in a name is not escaped, so it adds a path segment. */
  lemma {:induction false} QuoteKeepsSlash()
    ensures Quote("a/b") == "a/b"
    ensures Quote("a b") == "a%20b"
  {
    assert Utf8("a/b") == [0x61, 0x2F, 0x62];
    assert QuotePathBytes([0x62]) == "b";
    assert QuotePathBytes([0x2F, 0x62]) == "/b";
    assert Utf8("a b") == [0x61, 0x20, 0x62];
    assert QuotePathBytes([0x20, 0x62]) == "%20b";
  }

  // ---------------------------------------------------------------------
  // Parsed URLs
  // ---------------------------------------------------------------------

  /** The six parts of `urlparse(url)`; `query` is `parse_qsl(query,
      keep_blank_values=True)`. */
  datatype Url = Url(scheme: string, netloc: string, path: string, params: string,
                     query: seq<(string, string)>, fragment: string)

  /** A link as the feed reader sees it: either split by `urlparse`, or a text
      on which `urlparse` raises `ValueError`. */
  datatype Link = Parsed(url: Url) | Unparseable(text: string)

  function EncodePair(p: (string, string)): (r: string)
    ensures '=' in r
  {
    var r := QuotePlus(p.0) + "=" + QuotePlus(p.1);
    assert r[|QuotePlus(p.0)|] == '=';
    r
  }

  /** `urlencode(pairs)`: `k=v` pairs joined by `&`. */
  function EncodeQuery(q: seq<(string, string)>): (r: string)
    ensures r == "" <==> |q| == 0
    ensures |q| > 0 ==> '=' in r
    decreases |q|
  {
    if |q| == 0 then "" else if |q| == 1 then EncodePair(q[0]) else EncodePair(q[0]) + "&" + EncodeQuery(q[1..])
  }

  /** The schemes of `urllib.parse.uses_netloc` (Python 3.11) other than the
      empty one. */
  const USES_NETLOC: set<string> := {
    "ftp", "http", "gopher", "nntp", "telnet", "imap", "wais", "file", "mms", "https", "shttp",
    "snews", "prospero", "rtsp", "rtspu", "rsync", "svn", "svn+ssh", "sftp", "nfs", "git", "git+ssh",
    "ws", "wss"
  }

  /** `urlunparse` of the scheme, network location, path and params.
      `urlunsplit` writes the `//` marker when there is a network location,
      and also for a scheme of `uses_netloc` whose path does not already
      start with `//`. */
  function SchemeAndPath(u: Url): string {
    var p := if u.params != "" then u.path + ";" + u.params else u.path;
    var marked := u.netloc != "" || (u.scheme != "" && u.scheme in USES_NETLOC && !IsPrefix("//", p));
    var net := if marked then "//" + u.netloc + (if p != "" && p[0] != '/' then "/" + p else p) else p;
    if u.scheme != "" then u.scheme + ":" + net else net
  }

  /** `urlunparse` of the six parts, the query re-encoded by `urlencode`. */
  function Render(u: Url): (r: string)
    ensures u.query == [] && u.fragment == "" ==> r == SchemeAndPath(u)
    ensures u.fragment != "" ==> |r| > |u.fragment| && r[|r| - |u.fragment| - 1..] == "#" + u.fragment
  {
    var q := EncodeQuery(u.query);
    var withQuery := if q != "" then SchemeAndPath(u) + "?" + q else SchemeAndPath(u);
    if u.fragment != "" then withQuery + "#" + u.fragment else withQuery
  }

  /** The `//` marker right after the scheme's colon. */
  predicate MarkedAfterScheme(scheme: string, s: string) {
    |s| >= |scheme| + 3 && s[..|scheme|] == scheme && s[|scheme|] == ':' && s[|scheme| + 1] == '/' && s[|scheme| + 2] == '/'
  }

  lemma {:induction false} SchemeAndPathMarked(u: Url)
    requires u.scheme in USES_NETLOC
    ensures MarkedAfterScheme(u.scheme, SchemeAndPath(u))
  {
    var p := if u.params != "" then u.path + ";" + u.params else u.path;
    var marked := u.netloc != "" || !IsPrefix("//", p);
    var net := if marked then "//" + u.netloc + (if p != "" && p[0] != '/' then "/" + p else p) else p;
    assert net[0] == '/' && net[1] == '/' by {
      if marked {
        assert net == "//" + (u.netloc + (if p != "" && p[0] != '/' then "/" + p else p));
      }
    }
    var sp := u.scheme + ":" + net;
    assert SchemeAndPath(u) == sp;
    assert sp[..|u.scheme|] == u.scheme;
    assert sp[|u.scheme| + 1] == net[0] && sp[|u.scheme| + 2] == net[1];
  }

  /** A scheme of `uses_netloc` is always followed by `://`, with or
      without a network location: `urlparse("https:///a")` renders back as
      `https:///a`. */
  lemma {:induction false} RenderKeepsNetlocMarker(u: Url)
    requires u.scheme in USES_NETLOC
    ensures MarkedAfterScheme(u.scheme, Render(u))
  {
    var sp := SchemeAndPath(u);
    SchemeAndPathMarked(u);
    var r := Render(u);
    assert r[..|sp|] == sp;
  }

  /** Without a network location, a scheme outside `uses_netloc` is
      followed by the bare path: `mailto:a@b` stays as it is. */
  lemma {:induction false} RenderOpaqueScheme(u: Url)
    requires u.netloc == "" && u.scheme != "" && u.scheme !in USES_NETLOC
    requires u.params == "" && u.query == [] && u.fragment == ""
    ensures Render(u) == u.scheme + ":" + u.path
  {
    assert EncodeQuery(u.query) == "";
  }

  predicate IsEmptyUrl(u: Url) {
    u.scheme == "" && u.netloc == "" && u.path == "" && u.params == "" && u.query == [] && u.fragment == ""
  }

  /** `urlunparse` yields the empty string exactly for a URL with no parts. */
  lemma {:induction false} RenderEmptyIff(u: Url)
    ensures Render(u) == "" <==> IsEmptyUrl(u)
  {
  }

  /** The text a link stands for after the pipeline's rewriting. */
  function LinkText(l: Link): string {
    match l
    case Parsed(u) => Render(u)
    case Unparseable(t) => t
  }

  // ---------------------------------------------------------------------
  // Tracking parameters and host
  // ---------------------------------------------------------------------

  /** A query key whose lower-cased form starts with `utm_`, `fbclid` or `gclid`. */
  predicate IsTrackingKey(k: string) {
    var l := Lower(k);
    IsPrefix("utm_", l) || IsPrefix("fbclid", l) || IsPrefix("gclid", l)
  }

  predicate KeepPair(p: (string, string)) {
    !IsTrackingKey(p.0)
  }

  /** `_strip_tracking_params`: drops the tracking pairs from the query and
      keeps everything else; a link `urlparse` rejects is returned as is. */
  function StripTracking(l: Link): (r: Link)
    ensures l.Unparseable? ==> r == l
    ensures l.Parsed? ==> r.Parsed? && r.url == l.url.(query := r.url.query)
    ensures l.Parsed? ==> forall p :: p in r.url.query <==> p in l.url.query && !IsTrackingKey(p.0)
    ensures l.Parsed? ==> Subsequence(r.url.query, l.url.query)
  {
    match l
    case Unparseable(_) => l
    case Parsed(u) =>
      FilterSubsequence(u.query, KeepPair);
      Parsed(u.(query := Filter(u.query, KeepPair)))
  }

  /** Every kept pair keeps its multiplicity: the query loses exactly the
      tracking pairs. */
  lemma {:induction false} StripTrackingCount(u: Url, p: (string, string))
    ensures multiset(StripTracking(Parsed(u)).url.query)[p] == if IsTrackingKey(p.0) then 0 else multiset(u.query)[p]
  {
    FilterCount(u.query, KeepPair, p);
  }

  lemma {:induction false} StripTrackingIdempotent(l: Link)
    ensures StripTracking(StripTracking(l)) == StripTracking(l)
  {
    if l.Parsed? {
      FilterIdempotent(l.url.query, KeepPair);
    }
  }

  /** `host(url)`: the network location with every `www.` removed; empty
      when `urlparse` raises. */
  function Host(l: Link): (r: string)
    ensures l.Parsed? && !Contains(l.url.netloc, "www.") ==> r == l.url.netloc
    ensures l.Unparseable? ==> r == ""
  {
    match l
    case Parsed(u) => RemoveAll(u.netloc, "www.")
    case Unparseable(_) => ""
  }

  /** `str.replace` removes the leftmost occurrence and carries on after it:
      together with the no-occurrence case of `RemoveAll` this pins down the
      whole replacement, so `host` drops inner `www.` too, not only a
      leading one. */
  lemma {:induction false} RemoveAllFirst(a: string, p: string, b: string)
    requires |p| > 0
    requires forall i | 0 <= i < |a| :: !IsPrefix(p, (a + p + b)[i..])
    ensures RemoveAll(a + p + b, p) == a + RemoveAll(b, p)
    decreases |a|
  {
    var s := a + p + b;
    if |a| == 0 {
      assert s == p + b;
      assert s[|p|..] == b;
    } else {
      assert !IsPrefix(p, s[0..]);
      assert s[0..] == s;
      assert s[1..] == a[1..] + p + b;
      forall i | 0 <= i < |a[1..]| ensures !IsPrefix(p, (a[1..] + p + b)[i..]) {
        assert (a[1..] + p + b)[i..] == s[i + 1..];
      }
      RemoveAllFirst(a[1..], p, b);
      assert [a[0]] + a[1..] == a;
    }
  }

  /** A `www.` after the first label is removed as well. */
  lemma {:induction false} HostDropsInnerWww()
    ensures Host(Parsed(Url("https", "m.www.x", "", "", [], ""))) == "m.x"
  {
    var s := "m.www.x";
    assert s == "m." + "www." + "x";
    forall i | 0 <= i < 2 ensures !IsPrefix("www.", s[i..]) {
      assert s[i..][0] == s[i] != 'w';
    }
    RemoveAllFirst("m.", "www.", "x");
    assert RemoveAll("x", "www.") == "x";
  }
}
