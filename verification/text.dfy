/** The Python `str` operations the pipeline relies on, over `seq<char>`:
    whitespace classification, `strip`, the `re.sub(r"\s+", " ", s)`
    collapse, substring tests, `replace(p, "")`, `split`, `join`, and the
    decimal conversions `str(int)` / `int(str)`. */
module Text {
  import opened Wrappers

  /** Exactly the characters for which Python's `str.isspace()` holds; the
      same set is matched by `\s` in a `str` pattern and removed by `strip()`. */
  predicate IsSpace(c: char) {
    var n := c as int;
    (0x09 <= n <= 0x0D) || (0x1C <= n <= 0x20) || n == 0x85 || n == 0xA0 || n == 0x1680
    || (0x2000 <= n <= 0x200A) || n == 0x2028 || n == 0x2029 || n == 0x202F || n == 0x205F || n == 0x3000
  }

  predicate IsBlank(s: string) {
    forall i | 0 <= i < |s| :: IsSpace(s[i])
  }

  /** No character of `s` in the index range `[a, b)` is anything but whitespace. */
  predicate BlankBetween(s: string, a: int, b: int)
    requires 0 <= a && b <= |s|
  {
    forall k | a <= k < b :: IsSpace(s[k])
  }

  function LowerChar(c: char): char {
    if 'A' <= c <= 'Z' then (c as int + 32) as char else c
  }

  function UpperChar(c: char): char {
    if 'a' <= c <= 'z' then (c as int - 32) as char else c
  }

  /** `s.lower()` on the ASCII letters. */
  function Lower(s: string): (r: string)
    ensures |r| == |s|
    ensures forall i | 0 <= i < |s| :: r[i] == LowerChar(s[i])
  {
    seq(|s|, i requires 0 <= i < |s| => LowerChar(s[i]))
  }

  /** `s.upper()` on the ASCII letters. */
  function Upper(s: string): (r: string)
    ensures |r| == |s|
    ensures forall i | 0 <= i < |s| :: r[i] == UpperChar(s[i])
  {
    seq(|s|, i requires 0 <= i < |s| => UpperChar(s[i]))
  }

  lemma {:induction false} LowerAppend(a: string, b: string)
    ensures Lower(a + b) == Lower(a) + Lower(b)
  {
  }

  /** Index of the first non-whitespace character at or after `k`, or `|s|`. */
  function SkipSpaces(s: string, k: nat): (i: nat)
    requires k <= |s|
    ensures k <= i <= |s| && BlankBetween(s, k, i)
    ensures i < |s| ==> !IsSpace(s[i])
    decreases |s| - k
  {
    if k < |s| && IsSpace(s[k]) then SkipSpaces(s, k + 1) else k
  }

  /** One past the last non-whitespace character before `k`, or `0`. */
  function SkipSpacesBack(s: string, k: nat): (j: nat)
    requires k <= |s|
    ensures j <= k && BlankBetween(s, j, k)
    ensures j > 0 ==> !IsSpace(s[j - 1])
    decreases k
  {
    if k > 0 && IsSpace(s[k - 1]) then SkipSpacesBack(s, k - 1) else k
  }

  /** `s.lstrip()`: drops the leading run of whitespace and nothing else. */
  function LStrip(s: string): string {
    s[SkipSpaces(s, 0)..]
  }

  /** `s.rstrip()`: drops the trailing run of whitespace and nothing else. */
  function RStrip(s: string): string {
    s[..SkipSpacesBack(s, |s|)]
  }

  /** Number of leading whitespace characters of `s`. */
  function LeadingSpaces(s: string): nat
    ensures LeadingSpaces(s) <= |s|
  {
    SkipSpaces(s, 0)
  }

  /** `s.strip()`: the slice of `s` between its leading and trailing whitespace;
      empty when `s` is all whitespace. */
  function Strip(s: string): (r: string)
    ensures |r| > 0 ==> !IsSpace(r[0]) && !IsSpace(r[|r| - 1])
    ensures LeadingSpaces(s) + |r| <= |s|
    ensures r == s[LeadingSpaces(s)..LeadingSpaces(s) + |r|]
    ensures BlankBetween(s, 0, LeadingSpaces(s)) && BlankBetween(s, LeadingSpaces(s) + |r|, |s|)
  {
    var i := SkipSpaces(s, 0);
    var j := SkipSpacesBack(s, |s|);
    if j <= i then [] else s[i..j]
  }

  lemma {:induction false} StripBlankIsEmpty(s: string)
    ensures Strip(s) == [] <==> IsBlank(s)
  {
  }

  lemma {:induction false} StripOfStripped(s: string)
    requires |s| > 0 ==> !IsSpace(s[0]) && !IsSpace(s[|s| - 1])
    ensures Strip(s) == s
  {
  }

  /** The characters of `s` that are not whitespace, in order. */
  function Visible(s: string): string
    decreases |s|
  {
    if |s| == 0 then []
    else if IsSpace(s[|s| - 1]) then Visible(s[..|s| - 1])
    else Visible(s[..|s| - 1]) + [s[|s| - 1]]
  }

  lemma {:induction false} VisibleAppend(a: string, b: string)
    ensures Visible(a + b) == Visible(a) + Visible(b)
    decreases |b|
  {
    if |b| == 0 {
      assert a + b == a;
    } else {
      assert (a + b)[..|a + b| - 1] == a + b[..|b| - 1];
      VisibleAppend(a, b[..|b| - 1]);
    }
  }

  lemma {:induction false} VisibleOfBlank(s: string, a: nat, b: nat)
    requires a <= b <= |s| && BlankBetween(s, a, b)
    ensures Visible(s[a..b]) == []
    decreases b - a
  {
    if a < b {
      assert s[a..b][..b - a - 1] == s[a..b - 1];
      VisibleOfBlank(s, a, b - 1);
    }
  }

  lemma {:induction false} VisibleCons(c: char, s: string)
    ensures Visible([c] + s) == (if IsSpace(c) then [] else [c]) + Visible(s)
  {
    VisibleAppend([c], s);
    assert [c][..0] == [];
  }

  lemma {:induction false} VisibleStrip(s: string)
    ensures Visible(Strip(s)) == Visible(s)
  {
    var r := Strip(s);
    var a := LeadingSpaces(s);
    assert s == s[0..a] + r + s[a + |r|..|s|];
    VisibleAppend(s[0..a] + r, s[a + |r|..|s|]);
    VisibleAppend(s[0..a], r);
    VisibleOfBlank(s, 0, a);
    VisibleOfBlank(s, a + |r|, |s|);
  }

  /** Every whitespace character of `s` is a plain space. */
  predicate OnlyPlainSpaces(s: string) {
    forall i | 0 <= i < |s| :: IsSpace(s[i]) ==> s[i] == ' '
  }

  /** No two adjacent characters of `s` are both whitespace. */
  ghost predicate NoSpaceRuns(s: string) {
    forall i, j | 0 <= i < j < |s| && j == i + 1 :: !(IsSpace(s[i]) && IsSpace(s[j]))
  }

  /** The shape `_clean_text` promises: single plain spaces, nothing at the ends. */
  ghost predicate Clean(s: string) {
    && OnlyPlainSpaces(s)
    && NoSpaceRuns(s)
    && (|s| > 0 ==> !IsSpace(s[0]) && !IsSpace(s[|s| - 1]))
  }

  /** `re.sub(r"\s+", " ", s)`: every maximal whitespace run becomes one space. */
  function Collapse(s: string): string
    decreases |s|
  {
    if |s| == 0 then []
    else if IsSpace(s[0]) then " " + Collapse(LStrip(s))
    else [s[0]] + Collapse(s[1..])
  }

  /** What the collapse guarantees: only single plain spaces remain, the
      visible characters are untouched, and the first character keeps its
      class (whitespace or not). */
  lemma {:induction false} CollapseShape(s: string)
    ensures var r := Collapse(s);
      && OnlyPlainSpaces(r) && NoSpaceRuns(r)
      && Visible(r) == Visible(s)
      && (|s| > 0 <==> |r| > 0)
      && (|s| > 0 ==> (IsSpace(r[0]) <==> IsSpace(s[0])))
      && (|s| > 0 && !IsSpace(s[0]) ==> r[0] == s[0])
    decreases |s|
  {
    if |s| > 0 {
      if IsSpace(s[0]) {
        var i := SkipSpaces(s, 0);
        var rest := s[i..];
        assert s == s[0..i] + rest;
        VisibleAppend(s[0..i], rest);
        VisibleOfBlank(s, 0, i);
        CollapseShape(rest);
        var t := Collapse(rest);
        VisibleCons(' ', t);
        ConsKeepsShape(' ', t);
      } else {
        CollapseShape(s[1..]);
        var t := Collapse(s[1..]);
        VisibleCons(s[0], t);
        VisibleCons(s[0], s[1..]);
        assert [s[0]] + s[1..] == s;
        ConsKeepsShape(s[0], t);
      }
    }
  }

  lemma {:induction false} ConsKeepsShape(c: char, t: string)
    requires OnlyPlainSpaces(t) && NoSpaceRuns(t)
    requires IsSpace(c) ==> c == ' ' && (|t| > 0 ==> !IsSpace(t[0]))
    ensures OnlyPlainSpaces([c] + t) && NoSpaceRuns([c] + t)
  {
    var r := [c] + t;
    assert forall i | 1 <= i < |r| :: r[i] == t[i - 1];
  }

  /** `_clean_text` in common.py: collapse whitespace runs, then strip. */
  function CleanText(s: string): (r: string)
    ensures Clean(r)
    ensures Visible(r) == Visible(s)
  {
    CollapseShape(s);
    StripKeepsShape(Collapse(s));
    Strip(Collapse(s))
  }

  lemma {:induction false} StripKeepsShape(c: string)
    requires OnlyPlainSpaces(c) && NoSpaceRuns(c)
    ensures Clean(Strip(c)) && Visible(Strip(c)) == Visible(c)
  {
    var r := Strip(c);
    SliceKeepsShape(c, LeadingSpaces(c), LeadingSpaces(c) + |r|);
    VisibleStrip(c);
  }

  lemma {:induction false} SliceKeepsShape(s: string, a: nat, b: nat)
    requires a <= b <= |s|
    requires OnlyPlainSpaces(s) && NoSpaceRuns(s)
    ensures OnlyPlainSpaces(s[a..b]) && NoSpaceRuns(s[a..b])
  {
    var t := s[a..b];
    assert forall i | 0 <= i < |t| :: t[i] == s[a + i];
  }

  lemma {:induction false} CollapseOfClean(s: string)
    requires OnlyPlainSpaces(s) && NoSpaceRuns(s)
    ensures Collapse(s) == s
    decreases |s|
  {
    if |s| > 0 {
      var t := s[1..];
      SliceKeepsShape(s, 1, |s|);
      CollapseOfClean(t);
      if IsSpace(s[0]) {
        assert |t| > 0 ==> !IsSpace(t[0]);
        assert SkipSpaces(s, 1) == 1;
        assert LStrip(s) == t;
        assert Collapse(s) == " " + Collapse(t);
        assert s == [' '] + t;
      } else {
        assert Collapse(s) == [s[0]] + Collapse(t);
        assert s == [s[0]] + t;
      }
    }
  }

  /** A string has no visible characters exactly when it is all whitespace. */
  lemma {:induction false} VisibleEmptyIffBlank(s: string)
    ensures Visible(s) == [] <==> IsBlank(s)
    decreases |s|
  {
    if |s| > 0 {
      VisibleEmptyIffBlank(s[..|s| - 1]);
    }
  }

  /** `_clean_text(s)` is empty exactly when `s` is all whitespace. */
  lemma {:induction false} CleanTextEmptyIffBlank(s: string)
    ensures CleanText(s) == [] <==> IsBlank(s)
  {
    var r := CleanText(s);
    VisibleEmptyIffBlank(s);
    VisibleEmptyIffBlank(r);
    if |r| > 0 {
      assert !IsSpace(r[0]);
    }
  }

  /** `_clean_text` is idempotent: a cleaned string is its own cleaning. */
  lemma {:induction false} CleanTextIdempotent(s: string)
    ensures CleanText(CleanText(s)) == CleanText(s)
  {
    var r := CleanText(s);
    CollapseOfClean(r);
    StripOfStripped(r);
  }

  predicate IsPrefix(p: string, s: string) {
    |p| <= |s| && s[..|p|] == p
  }

  predicate IsSuffix(p: string, s: string) {
    |p| <= |s| && s[|s| - |p|..] == p
  }

  /** Python's `p in s` for strings: `p` occurs as a contiguous substring. */
  predicate Contains(s: string, p: string)
    decreases |s|
  {
    IsPrefix(p, s) || (|s| > 0 && Contains(s[1..], p))
  }

  /** A longer string never occurs in a shorter one. */
  lemma {:induction false} ContainsNotLonger(s: string, p: string)
    requires |s| < |p|
    ensures !Contains(s, p)
    decreases |s|
  {
    if |s| > 0 {
      ContainsNotLonger(s[1..], p);
    }
  }

  ghost predicate OccursAt(s: string, p: string, i: int) {
    0 <= i <= |s| - |p| && s[i..i + |p|] == p
  }

  lemma {:induction false} ContainsIffOccurs(s: string, p: string)
    ensures Contains(s, p) <==> exists i :: OccursAt(s, p, i)
    decreases |s|
  {
    if IsPrefix(p, s) {
      assert s[0..|p|] == s[..|p|];
      assert OccursAt(s, p, 0);
    }
    if |s| > 0 {
      ContainsIffOccurs(s[1..], p);
      if Contains(s[1..], p) {
        var i :| OccursAt(s[1..], p, i);
        assert s[1..][i..i + |p|] == s[i + 1..i + 1 + |p|];
        assert OccursAt(s, p, i + 1);
      }
      if i :| OccursAt(s, p, i) && i > 0 {
        assert s[1..][i - 1..i - 1 + |p|] == s[i..i + |p|];
        assert OccursAt(s[1..], p, i - 1);
      }
    }
  }

  /** `s.replace(p, "")`: removes the non-overlapping occurrences of `p`
      found scanning left to right. */
  function RemoveAll(s: string, p: string): (r: string)
    requires |p| > 0
    ensures |r| <= |s|
    ensures !Contains(s, p) ==> r == s
    decreases |s|
  {
    if |s| == 0 then []
    else if IsPrefix(p, s) then RemoveAll(s[|p|..], p)
    else
      assert !Contains(s, p) ==> !Contains(s[1..], p);
      [s[0]] + RemoveAll(s[1..], p)
  }

  /** Index of the first occurrence of `c`, as `s.find(c)`. */
  function IndexOf(s: string, c: char): (r: Option<nat>)
    ensures r.None? <==> c !in s
    ensures r.Some? ==> r.value < |s| && s[r.value] == c && c !in s[..r.value]
    decreases |s|
  {
    if |s| == 0 then None
    else if s[0] == c then Some(0)
    else
      match IndexOf(s[1..], c)
      case None => None
      case Some(i) => assert s[1..][..i] == s[1..i + 1]; Some(i + 1)
  }

  /** `s.split(c, 1)` when `c in s`: the text before and after the first `c`. */
  function SplitFirst(s: string, c: char): (r: Option<(string, string)>)
    ensures r.None? <==> c !in s
    ensures r.Some? ==> s == r.value.0 + [c] + r.value.1 && c !in r.value.0
  {
    match IndexOf(s, c)
    case None => None
    case Some(i) =>
      assert s == s[..i] + [c] + s[i + 1..];
      Some((s[..i], s[i + 1..]))
  }

  /** The split is determined by the first occurrence of `c`. */
  lemma {:induction false} SplitFirstAt(s: string, c: char, a: string, b: string)
    requires s == a + [c] + b && c !in a
    ensures SplitFirst(s, c) == Some((a, b))
  {
    assert s[|a|] == c;
    var r := SplitFirst(s, c);
    var x := r.value.0;
    assert x == s[..|x|] && a == s[..|a|];
    assert r.value.1 == s[|x| + 1..] && b == s[|a| + 1..];
  }

  /** No character of `s` in the index range `[a, b)` is whitespace. */
  predicate NoSpaceBetween(s: string, a: int, b: int)
    requires 0 <= a && b <= |s|
  {
    forall m | a <= m < b :: !IsSpace(s[m])
  }

  /** Index of the first whitespace character at or after `k`, or `|s|`. */
  function SkipWord(s: string, k: nat): (i: nat)
    requires k <= |s|
    ensures k <= i <= |s| && NoSpaceBetween(s, k, i)
    ensures i < |s| ==> IsSpace(s[i])
    decreases |s| - k
  {
    if k < |s| && !IsSpace(s[k]) then SkipWord(s, k + 1) else k
  }

  /** Concatenation of a list of strings. */
  function Concat(ws: seq<string>): string {
    if |ws| == 0 then [] else ws[0] + Concat(ws[1..])
  }

  /** `s.split()`: the maximal runs of non-whitespace, in order. */
  function Words(s: string): seq<string>
    decreases |s|
  {
    var i := SkipSpaces(s, 0);
    if i == |s| then []
    else
      var n := SkipWord(s, i);
      [s[i..n]] + Words(s[n..])
  }

  /** Every word of `s.split()` is non-empty and free of whitespace. */
  lemma {:induction false} WordsAreWords(s: string)
    ensures forall k | 0 <= k < |Words(s)| :: |Words(s)[k]| > 0 && Visible(Words(s)[k]) == Words(s)[k]
    decreases |s|
  {
    var i := SkipSpaces(s, 0);
    if i < |s| {
      var n := SkipWord(s, i);
      assert Words(s) == [s[i..n]] + Words(s[n..]);
      VisibleOfWord(s, i, n);
      WordsAreWords(s[n..]);
    }
  }

  /** The words of `s.split()` hold exactly the visible characters of `s`. */
  lemma {:induction false} WordsKeepVisible(s: string)
    ensures Concat(Words(s)) == Visible(s)
    decreases |s|
  {
    var i := SkipSpaces(s, 0);
    if i == |s| {
      assert s[0..|s|] == s;
      VisibleOfBlank(s, 0, |s|);
    } else {
      var n := SkipWord(s, i);
      var w := s[i..n];
      var rest := Words(s[n..]);
      assert Words(s) == [w] + rest;
      WordsKeepVisible(s[n..]);
      VisibleSplitWord(s, i, n);
      assert Concat([w] + rest) == w + Concat(rest);
    }
  }

  lemma {:induction false} SliceThree(s: string, i: nat, n: nat)
    requires i <= n <= |s|
    ensures s == s[0..i] + s[i..n] + s[n..]
  {
  }

  lemma {:induction false} VisibleThree(b: string, w: string, t: string)
    ensures Visible(b + w + t) == Visible(b) + Visible(w) + Visible(t)
  {
    VisibleAppend(b + w, t);
    VisibleAppend(b, w);
  }

  /** Blanks, then a word, then the rest: only the word and the visible rest
      remain. */
  lemma {:induction false} VisibleSplitWord(s: string, i: nat, n: nat)
    requires i <= n <= |s| && BlankBetween(s, 0, i) && NoSpaceBetween(s, i, n)
    ensures Visible(s) == s[i..n] + Visible(s[n..])
  {
    SliceThree(s, i, n);
    VisibleThree(s[0..i], s[i..n], s[n..]);
    VisibleOfBlank(s, 0, i);
    VisibleOfWord(s, i, n);
  }

  /** `s.split()` is empty exactly when `s` is blank. */
  lemma {:induction false} WordsEmptyIffBlank(s: string)
    ensures |Words(s)| == 0 <==> IsBlank(s)
  {
    var i := SkipSpaces(s, 0);
    if i < |s| {
      assert !IsSpace(s[i]);
    }
  }

  lemma {:induction false} VisibleOfWord(s: string, a: nat, b: nat)
    requires a <= b <= |s| && NoSpaceBetween(s, a, b)
    ensures Visible(s[a..b]) == s[a..b]
  {
    var w := s[a..b];
    assert forall i | 0 <= i < |w| :: !IsSpace(w[i]) by {
      forall i | 0 <= i < |w| ensures !IsSpace(w[i]) {
        assert w[i] == s[a + i];
      }
    }
    VisibleOfSpaceless(w);
  }

  lemma {:induction false} VisibleOfSpaceless(w: string)
    requires forall i | 0 <= i < |w| :: !IsSpace(w[i])
    ensures Visible(w) == w
    decreases |w|
  {
    if |w| > 0 {
      var p := w[..|w| - 1];
      assert forall i | 0 <= i < |p| :: !IsSpace(p[i]) by {
        forall i | 0 <= i < |p| ensures !IsSpace(p[i]) {
          assert p[i] == w[i];
        }
      }
      VisibleOfSpaceless(p);
      assert !IsSpace(w[|w| - 1]);
      assert p + [w[|w| - 1]] == w;
    }
  }


  /** `sep.join(parts)`. */
  function Join(sep: string, parts: seq<string>): (r: string)
    ensures |parts| == 1 ==> r == parts[0]
    decreases |parts|
  {
    if |parts| == 0 then []
    else if |parts| == 1 then parts[0]
    else parts[0] + sep + Join(sep, parts[1..])
  }

  /** A word of `s.split()` is not blank. */
  lemma {:induction false} WordNotBlank(s: string, k: nat)
    requires k < |Words(s)|
    ensures !IsBlank(Words(s)[k])
  {
    WordsAreWords(s);
    VisibleEmptyIffBlank(Words(s)[k]);
  }

  /** A join whose first part is not blank is not blank. */
  lemma {:induction false} JoinNotBlank(sep: string, parts: seq<string>)
    requires |parts| > 0 && !IsBlank(parts[0])
    ensures !IsBlank(Join(sep, parts))
  {
    var i :| 0 <= i < |parts[0]| && !IsSpace(parts[0][i]);
    if |parts| > 1 {
      assert Join(sep, parts)[i] == parts[0][i];
    }
  }

  function DigitChar(d: nat): char
    requires d < 10
  {
    ('0' as int + d) as char
  }

  predicate IsDigit(c: char) {
    '0' <= c <= '9'
  }

  function DigitValue(c: char): nat
    requires IsDigit(c)
  {
    c as int - '0' as int
  }

  /** Decimal rendering of a natural number, most significant digit first. */
  function NatToString(n: nat): (r: string)
    ensures |r| > 0
    ensures forall i | 0 <= i < |r| :: IsDigit(r[i])
    decreases n
  {
    if n < 10 then [DigitChar(n)] else NatToString(n / 10) + [DigitChar(n % 10)]
  }

  /** `str(i)` for a Python `int`. */
  function IntToString(i: int): (r: string)
    ensures |r| > 0
  {
    if i < 0 then "-" + NatToString(-i) else NatToString(i)
  }

  predicate AllDigits(s: string) {
    forall i | 0 <= i < |s| :: IsDigit(s[i])
  }

  /** Value of a run of decimal digits. */
  function DigitsValue(s: string): nat
    requires AllDigits(s)
    decreases |s|
  {
    if |s| == 0 then 0 else DigitsValue(s[..|s| - 1]) * 10 + DigitValue(s[|s| - 1])
  }

  lemma {:induction false} DigitsOfNat(n: nat)
    ensures DigitsValue(NatToString(n)) == n
    decreases n
  {
    var r := NatToString(n);
    if n >= 10 {
      DigitsOfNat(n / 10);
      assert r[..|r| - 1] == NatToString(n / 10);
    }
  }

  /** `int(s)` on text: optional surrounding whitespace, an optional sign and
      one or more ASCII digits; anything else raises `ValueError` (`None`). */
  function ParseInt(s: string): Option<int> {
    var t := Strip(s);
    if |t| == 0 then None
    else
      var neg := t[0] == '-';
      var body := if t[0] == '-' || t[0] == '+' then t[1..] else t;
      if |body| == 0 || !AllDigits(body) then None
      else
        Some(if neg then -(DigitsValue(body) as int) else DigitsValue(body) as int)
  }

  /** `int(str(i)) == i`: the decimal rendering parses back to the number. */
  lemma {:induction false} ParseIntRoundTrip(i: int)
    ensures ParseInt(IntToString(i)) == Some(i)
  {
    var s := IntToString(i);
    StripOfStripped(s);
    if i < 0 {
      DigitsOfNat(-i);
      assert s[1..] == NatToString(-i);
    } else {
      DigitsOfNat(i);
    }
  }
  // ---------------------------------------------------------------------
  // The collapse in terms of the words
  // ---------------------------------------------------------------------

  /** The space the collapse leaves in front of the first word. */
  function CollapseLead(s: string): string {
    if |s| > 0 && IsSpace(s[0]) && |Words(s)| > 0 then " " else ""
  }

  /** The space the collapse leaves at the end of a string ending in whitespace. */
  function CollapseTail(s: string): string {
    if |s| > 0 && IsSpace(s[|s| - 1]) then " " else ""
  }

  lemma {:induction false} CollapseSpaceless(w: string, t: string)
    requires NoSpaceBetween(w, 0, |w|)
    ensures Collapse(w + t) == w + Collapse(t)
    decreases |w|
  {
    if |w| > 0 {
      assert (w + t)[0] == w[0];
      assert (w + t)[1..] == w[1..] + t;
      assert NoSpaceBetween(w[1..], 0, |w| - 1) by {
        forall m | 0 <= m < |w| - 1 ensures !IsSpace(w[1..][m]) {
          assert w[1..][m] == w[m + 1];
        }
      }
      CollapseSpaceless(w[1..], t);
      assert [w[0]] + w[1..] == w;
    } else {
      assert w + t == t;
    }
  }

  /** A blank string collapses to one space, or stays empty. */
  lemma {:induction false} CollapseBlank(s: string)
    requires SkipSpaces(s, 0) == |s|
    ensures Collapse(s) == if |s| > 0 then " " else ""
    ensures Words(s) == []
    ensures CollapsesToWords(s)
  {
    if |s| > 0 {
      assert IsSpace(s[0]);
      assert LStrip(s) == [];
      assert Collapse(s) == " " + Collapse([]);
    }
  }

  /** The leading blanks, then the first word, then the rest. */
  lemma {:induction false} CollapseFirstWord(s: string, i: nat, n: nat)
    requires i == SkipSpaces(s, 0) < |s| && n == SkipWord(s, i)
    ensures i < n && !IsSpace(s[n - 1])
    ensures Collapse(s) == (if i > 0 then " " else "") + s[i..n] + Collapse(s[n..])
    ensures i > 0 <==> IsSpace(s[0])
  {
    NoSpaceSlice(s, i, n);
    CollapseSpaceless(s[i..n], s[n..]);
    assert s[i..] == s[i..n] + s[n..];
    CollapseAfterBlanks(s, i);
  }

  lemma {:induction false} NoSpaceSlice(s: string, i: nat, n: nat)
    requires i <= n <= |s| && NoSpaceBetween(s, i, n)
    ensures NoSpaceBetween(s[i..n], 0, n - i)
  {
    var w := s[i..n];
    forall m | 0 <= m < |w| ensures !IsSpace(w[m]) {
      assert w[m] == s[i + m];
    }
  }

  /** The leading blanks collapse to one space in front of the rest. */
  lemma {:induction false} CollapseAfterBlanks(s: string, i: nat)
    requires i == SkipSpaces(s, 0) < |s|
    ensures Collapse(s) == (if i > 0 then " " else "") + Collapse(s[i..])
  {
    if i > 0 {
      assert IsSpace(s[0]);
      assert LStrip(s) == s[i..];
    } else {
      assert s[i..] == s;
    }
  }

  /** `sep.join` of one more part in front. */
  lemma {:induction false} JoinCons(sep: string, w: string, ws: seq<string>)
    ensures Join(sep, [w] + ws) == if |ws| == 0 then w else w + sep + Join(sep, ws)
  {
    assert ([w] + ws)[1..] == ws;
  }

  /** `c` is the words `ws` joined by single spaces, between `lead` and
      `tail`; the joined words have non-whitespace ends. */
  predicate FramedJoin(c: string, lead: string, ws: seq<string>, tail: string) {
    var j := Join(" ", ws);
    && c == lead + j + tail
    && (|ws| > 0 ==> |j| > 0 && !IsSpace(j[0]) && !IsSpace(j[|j| - 1]))
  }

  /** The string step of `CollapseAsWords`: one more word in front. */
  lemma {:induction false} FramedJoinCons(lead: string, w: string, ws: seq<string>, ct: string, leadT: string, tailT: string)
    requires |w| > 0 && !IsSpace(w[0]) && !IsSpace(w[|w| - 1])
    requires FramedJoin(ct, leadT, ws, tailT)
    requires leadT == if |ws| > 0 then " " else ""
    ensures FramedJoin(lead + w + ct, lead, [w] + ws, tailT)
  {
    JoinCons(" ", w, ws);
    var jt := Join(" ", ws);
    if |ws| > 0 {
      assert lead + w + ct == lead + (w + " " + jt) + tailT;
    } else {
      assert jt == "";
      assert ct == tailT;
    }
  }

  /** The property `CollapseAsWords` proves of every string. */
  predicate CollapsesToWords(s: string) {
    FramedJoin(Collapse(s), CollapseLead(s), Words(s), CollapseTail(s))
  }

  /** `re.sub(r"\s+", " ", s)` word by word: the words of `s.split()` joined
      by single spaces, with one space in front when `s` starts with
      whitespace before a word and one behind when `s` ends with whitespace. */
  lemma {:induction false} CollapseAsWords(s: string)
    ensures CollapsesToWords(s)
    decreases |s|
  {
    var i := SkipSpaces(s, 0);
    if i == |s| {
      CollapseBlank(s);
    } else {
      var n := SkipWord(s, i);
      CollapseAsWords(s[n..]);
      CollapseFirstWordStep(s, i, n);
    }
  }

  /** `CollapsesToWords` carries over from the rest to the whole string. */
  lemma {:induction false} CollapseFirstWordStep(s: string, i: nat, n: nat)
    requires i == SkipSpaces(s, 0) < |s| && n == SkipWord(s, i)
    requires CollapsesToWords(s[n..])
    ensures CollapsesToWords(s)
  {
    var t := s[n..];
    CollapseFirstWord(s, i, n);
    assert Words(s) == [s[i..n]] + Words(t);
    CollapseEnds(s, n);
    var lead := if i > 0 then " " else "";
    FramedJoinCons(lead, s[i..n], Words(t), Collapse(t), CollapseLead(t), CollapseTail(t));
    assert CollapseLead(s) == lead;
  }

  /** The spaces around the rest after the first word. */
  lemma {:induction false} CollapseEnds(s: string, n: nat)
    requires 0 < n <= |s| && !IsSpace(s[n - 1]) && (n < |s| ==> IsSpace(s[n]))
    ensures var t := s[n..];
      && CollapseTail(s) == CollapseTail(t)
      && CollapseLead(t) == if |Words(t)| > 0 then " " else ""
  {
    var t := s[n..];
    if |t| > 0 {
      assert s[|s| - 1] == t[|t| - 1] && t[0] == s[n];
    }
  }

  lemma {:induction false} SkipSpacesStops(s: string, k: nat, m: nat)
    requires k <= m < |s| && BlankBetween(s, k, m) && !IsSpace(s[m])
    ensures SkipSpaces(s, k) == m
    decreases m - k
  {
    if k < m {
      SkipSpacesStops(s, k + 1, m);
    }
  }

  lemma {:induction false} SkipSpacesBackStops(s: string, k: nat, m: nat)
    requires 0 < m <= k <= |s| && BlankBetween(s, m, k) && !IsSpace(s[m - 1])
    ensures SkipSpacesBack(s, k) == m
    decreases k - m
  {
    if m < k {
      SkipSpacesBackStops(s, k - 1, m);
    }
  }

  /** Stripping removes exactly the blank frame around a text with
      non-whitespace ends. */
  lemma {:induction false} StripFrame(l: string, j: string, t: string)
    requires IsBlank(l) && IsBlank(t)
    requires |j| > 0 ==> !IsSpace(j[0]) && !IsSpace(j[|j| - 1])
    ensures Strip(l + j + t) == j
  {
    var s := l + j + t;
    if |j| == 0 {
      assert s == l + t;
      StripBlankIsEmpty(s);
    } else {
      assert s[|l|] == j[0] && s[|l| + |j| - 1] == j[|j| - 1];
      SkipSpacesStops(s, 0, |l|);
      SkipSpacesBackStops(s, |s|, |l| + |j|);
      assert s[|l|..|l| + |j|] == j;
    }
  }

  /** `_clean_text(s)` is `" ".join(s.split())`: each whitespace run between
      two words becomes exactly one space, and nothing else is added or
      lost. */
  lemma {:induction false} CleanTextIsJoinedWords(s: string)
    ensures CleanText(s) == Join(" ", Words(s))
  {
    CollapseAsWords(s);
    StripFrame(CollapseLead(s), Join(" ", Words(s)), CollapseTail(s));
  }
}
