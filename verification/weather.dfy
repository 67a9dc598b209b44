/** The weather page: the Open-Meteo weather-code tables and the filter that
    turns the text blocks of the KNMI forecast page into one forecast text. */
module Weather {
  import opened Wrappers
  import opened Text
  import opened Seqs

  // ---------------------------------------------------------------------
  // Weather codes
  // ---------------------------------------------------------------------

  const SUN: string := "\U{2600}\U{FE0F}"
  const SUN_CLOUD: string := "\U{1F324}\U{FE0F}"
  const CLOUD: string := "\U{2601}\U{FE0F}"
  const FOG: string := "\U{1F32B}\U{FE0F}"
  const SHOWERS: string := "\U{1F326}\U{FE0F}"
  const RAIN: string := "\U{1F327}\U{FE0F}"
  const SNOW: string := "\U{1F328}\U{FE0F}"
  const STORM: string := "\U{26C8}\U{FE0F}"
  const THERMOMETER: string := "\U{1F321}\U{FE0F}"

  /** `wx_emoji(code)`: a rough picture per group of weather codes. */
  function WxEmoji(code: int): (r: string)
    ensures |r| == 2 && r[1] == '\U{FE0F}'
    ensures r == SUN <==> code == 0
  {
    if code == 0 then SUN
    else if code in {1, 2} then SUN_CLOUD
    else if code == 3 then CLOUD
    else if code in {45, 48} then FOG
    else if code in {51, 53, 55, 56, 57} then SHOWERS
    else if code in {61, 63, 65, 66, 67} then RAIN
    else if code in {71, 73, 75, 77, 85, 86} then SNOW
    else if code in {80, 81, 82} then SHOWERS
    else if code in {95, 96, 99} then STORM
    else THERMOMETER
  }

  /** The `mapping` table of `wx_label`. */
  const LABELS: map<int, string> := map[
    0 := "Helder",
    1 := "Overwegend helder",
    2 := "Half bewolkt",
    3 := "Bewolkt",
    45 := "Mist",
    48 := "Rijpvormende mist",
    51 := "Lichte motregen",
    53 := "Motregen",
    55 := "Zware motregen",
    56 := "Lichte ijzige motregen",
    57 := "IJzige motregen",
    61 := "Lichte regen",
    63 := "Regen",
    65 := "Zware regen",
    66 := "Lichte ijzige regen",
    67 := "IJzige regen",
    71 := "Lichte sneeuw",
    73 := "Sneeuw",
    75 := "Zware sneeuw",
    77 := "Sneeuwkorrels",
    80 := "Lichte buien",
    81 := "Buien",
    82 := "Zware buien",
    85 := "Lichte sneeuwbuien",
    86 := "Sneeuwbuien",
    95 := "Onweer",
    96 := "Onweer met hagel",
    99 := "Zwaar onweer met hagel"
  ]

  /** `wx_label(code)`: the tabled label, `"Weer"` for any other code. */
  function WxLabel(code: int): (r: string)
    ensures r != ""
    ensures code !in LABELS ==> r == "Weer"
  {
    if code in LABELS then LABELS[code] else "Weer"
  }

  /** The two tables cover the same codes: exactly the labelled codes get a
      picture other than the thermometer, and no labelled code is called
      plain "Weer". */
  lemma {:induction false} EmojiIffLabelled(code: int)
    ensures WxEmoji(code) != THERMOMETER <==> code in LABELS
    ensures WxLabel(code) == "Weer" <==> code !in LABELS
  {
  }

  /** Drizzle and rain showers share one picture, though their labels differ. */
  lemma {:induction false} DrizzleLooksLikeShowers(drizzle: int, shower: int)
    requires drizzle in {51, 53, 55, 56, 57} && shower in {80, 81, 82}
    ensures WxEmoji(drizzle) == WxEmoji(shower) == SHOWERS
    ensures WxLabel(drizzle) != WxLabel(shower)
  {
  }

  // ---------------------------------------------------------------------
  // KNMI forecast text
  // ---------------------------------------------------------------------

  /** Page furniture: a block whose lower-cased text contains one of these
      is not forecast text. */
  const NOISE: seq<string> := [
    "function ", "readcookie", "document.cookie", "datalayer", "verouderde browser",
    "naar de hoofd content", "cookie", "privacy", "tag manager", "stg_debug"
  ]

  predicate IsNoise(txt: string) {
    exists i | 0 <= i < |NOISE| :: Contains(Lower(txt), NOISE[i])
  }

  /** A block survives when it is non-empty, is not page furniture, and is
      either at least 25 characters long or a heading ending in `:`. */
  predicate KeepBlock(txt: string) {
    && txt != ""
    && !IsNoise(txt)
    && (|txt| >= 25 || IsSuffix(":", txt))
  }

  /** The de-duplication key: the first 80 characters, lower-cased. */
  function BlockKey(p: string): string {
    Lower(PySlice(p, 0, 80))
  }

  /** De-duplicating twice is de-duplicating once. */
  lemma {:induction false} DedupIdempotent(ps: seq<string>)
    ensures DedupBy(DedupBy(ps, BlockKey, {}), BlockKey, {}) == DedupBy(ps, BlockKey, {})
  {
    DedupByOfDistinct(DedupBy(ps, BlockKey, {}), BlockKey, {});
  }

  /** The blocks that pass the filter, in page order. */
  function Kept(blocks: seq<string>): (r: seq<string>)
    ensures forall x | x in r :: x in blocks && KeepBlock(x)
    ensures forall x | x in blocks && KeepBlock(x) :: x in r
  {
    Filter(blocks, KeepBlock)
  }

  /** The final step: at most 40 blocks joined by blank lines, and a text
      of 300 characters or fewer rejected. */
  function Compose(out: seq<string>): (r: Option<string>)
    ensures r.Some? ==> |r.value| > 300
    ensures r.Some? ==> !IsSpace(r.value[0]) && !IsSpace(r.value[|r.value| - 1])
    ensures |out| == 0 ==> r.None?
    ensures |out| == 1 ==> r == if |Strip(out[0])| > 300 then Some(Strip(out[0])) else None
  {
    var text := Strip(Join("\n\n", PySlice(out, 0, 40)));
    if |text| > 300 then Some(text) else None
  }

  /** `knmi_text()` from the text blocks of the page's `h2`, `h3`, `p` and
      `li` elements in document order; `None` stands for a failed download
      or parse. */
  function KnmiText(blocks: Option<seq<string>>): (r: Option<string>)
    ensures blocks.None? ==> r.None?
    ensures r.Some? ==> |r.value| > 300
    ensures r.Some? ==> exists x | x in blocks.value :: KeepBlock(x)
    ensures blocks.Some? ==>
              var text := Strip(Join("\n\n", PySlice(DedupBy(Kept(blocks.value), BlockKey, {}), 0, 40)));
              (r.Some? <==> |text| > 300) && (r.Some? ==> r.value == text)
  {
    if blocks.None? then None
    else
      var kept := Kept(blocks.value);
      var out := DedupBy(kept, BlockKey, {});
      assert |out| > 0 ==> out[0] in kept;
      Compose(out)
  }

  /** A page whose only surviving block is long enough yields that block,
      stripped. */
  lemma {:induction false} KnmiTextOneLongBlock(pre: seq<string>, b: string, post: seq<string>)
    requires forall x | x in pre :: !KeepBlock(x)
    requires forall x | x in post :: !KeepBlock(x)
    requires KeepBlock(b) && |Strip(b)| > 300
    ensures KnmiText(Some(pre + [b] + post)) == Some(Strip(b))
  {
    FilterAppend(pre + [b], post, KeepBlock);
    FilterAppend(pre, [b], KeepBlock);
    FilterNone(pre, KeepBlock);
    FilterNone(post, KeepBlock);
    FilterSingle(b, KeepBlock);
    assert Kept(pre + [b] + post) == [b];
    assert [b][1..] == [];
    assert DedupBy([b], BlockKey, {}) == [b];
    assert PySlice([b], 0, 40) == [b];
  }

  /** A block that fails the filter, added anywhere after the others, never
      changes the forecast text. */
  lemma {:induction false} RejectedBlockIgnored(blocks: seq<string>, b: string)
    requires !KeepBlock(b)
    ensures KnmiText(Some(blocks + [b])) == KnmiText(Some(blocks))
  {
    FilterAppend(blocks, [b], KeepBlock);
    assert Filter([b], KeepBlock) == [];
    assert Kept(blocks) + [] == Kept(blocks);
  }

  /** A block repeating the first 80 characters of an earlier kept block
      (case aside) never changes the forecast text. */
  lemma {:induction false} RepeatedBlockIgnored(blocks: seq<string>, b: string, earlier: string)
    requires earlier in blocks && KeepBlock(earlier) && BlockKey(earlier) == BlockKey(b)
    ensures KnmiText(Some(blocks + [b])) == KnmiText(Some(blocks))
  {
    var kept := Kept(blocks);
    FilterAppend(blocks, [b], KeepBlock);
    if KeepBlock(b) {
      assert Filter([b], KeepBlock) == [b];
      assert Kept(blocks + [b]) == kept + [b];
      assert earlier in kept;
      DedupByDropsRepeat(kept, b, BlockKey, {});
      assert DedupBy(Kept(blocks + [b]), BlockKey, {}) == DedupBy(kept, BlockKey, {});
    } else {
      assert Filter([b], KeepBlock) == [];
      assert Kept(blocks + [b]) == kept + [];
      assert kept + [] == kept;
    }
  }

  /** Short headings survive only when they end in a colon. */
  lemma {:induction false} ShortBlocks(txt: string)
    requires 0 < |txt| < 25 && !IsNoise(txt)
    ensures KeepBlock(txt) <==> txt[|txt| - 1] == ':'
  {
  }
}
