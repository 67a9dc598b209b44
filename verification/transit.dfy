/** What the three transit clients share: calls to a JSON web service that is
    an oracle from URL to decoded response, the try-until-non-empty chains
    built on them, Python's `round` on whole-second differences, and the
    tolerant timestamp parser. */
module Transit {
  import opened Wrappers
  import opened Json

  /** The web service: the decoded body for a URL, or the exception
      `raise_for_status` or `r.json()` raised. */
  type Server = string -> Result<Json>

  /** A call's outcome together with the URLs it requested, in order. */
  datatype Call<T> = Call(result: Result<T>, urls: seq<string>)

  /** One attempt of a fallback chain; `swallow` marks an attempt inside
      `try: ... except Exception: pass`. */
  datatype Step<A> = Step(arg: A, swallow: bool)

  /** No step of `steps` swallows an exception. */
  predicate Loud<A>(steps: seq<Step<A>>) {
    forall k | 0 <= k < |steps| :: !steps[k].swallow
  }

  lemma {:induction false} LoudAppend<A>(a: seq<Step<A>>, b: seq<Step<A>>)
    requires Loud(a) && Loud(b)
    ensures Loud(a + b)
  {
    forall k | 0 <= k < |a + b| ensures !(a + b)[k].swallow {
      if k >= |a| {
        assert (a + b)[k] == b[k - |a|];
      }
    }
  }

  /** Every step in `steps` came back without a usable result and without an
      exception that escapes. */
  ghost predicate Passed<A, T>(steps: seq<Step<A>>, run: A -> Call<T>, found: T -> bool) {
    forall j | 0 <= j < |steps| ::
      (run(steps[j].arg).result.Ok? && !found(run(steps[j].arg).result.value))
      || (run(steps[j].arg).result.Err? && steps[j].swallow)
  }

  /** Runs the steps in order and stops at the first result that `found`
      accepts, or at the first exception that is not swallowed; `None` when
      every step came up empty. */
  function Cascade<A, T>(steps: seq<Step<A>>, run: A -> Call<T>, found: T -> bool): (r: Call<Option<T>>)
    ensures r.result.Ok? && r.result.value.Some? ==>
              found(r.result.value.value) &&
              exists k | 0 <= k < |steps| :: run(steps[k].arg).result == Ok(r.result.value.value) && Passed(steps[..k], run, found)
    ensures r.result.Ok? && r.result.value.None? ==> Passed(steps, run, found)
    ensures r.result.Err? ==>
              exists k | 0 <= k < |steps| :: run(steps[k].arg).result == Err(r.result.error) && !steps[k].swallow && Passed(steps[..k], run, found)
    ensures |steps| > 0 ==> IsPrefixOf(run(steps[0].arg).urls, r.urls)
    decreases |steps|
  {
    if |steps| == 0 then Call(Ok(None), [])
    else
      var c := run(steps[0].arg);
      if c.result.Ok? && found(c.result.value) then
        assert Passed(steps[..0], run, found);
        Call(Ok(Some(c.result.value)), c.urls)
      else if c.result.Err? && !steps[0].swallow then
        assert Passed(steps[..0], run, found);
        Call(Err(c.result.error), c.urls)
      else
        var rest := Cascade(steps[1..], run, found);
        assert forall k | 0 <= k < |steps[1..]| :: steps[1..][..k] == steps[1..k + 1];
        assert forall k | 1 <= k <= |steps| :: Passed(steps[1..k], run, found) ==> Passed(steps[..k], run, found) by {
          forall k | 1 <= k <= |steps| && Passed(steps[1..k], run, found) ensures Passed(steps[..k], run, found) {
            forall j | 0 <= j < k
              ensures (run(steps[j].arg).result.Ok? && !found(run(steps[j].arg).result.value))
                      || (run(steps[j].arg).result.Err? && steps[j].swallow)
            {
              if j > 0 { assert steps[1..k][j - 1] == steps[j]; }
            }
          }
        }
        assert Passed(steps[1..], run, found) ==> Passed(steps, run, found) by {
          assert steps[1..] == steps[1..|steps|] && steps[..|steps|] == steps;
        }
        Call(rest.result, c.urls + rest.urls)
  }

  /** Without swallowed exceptions, a found result comes from some step and
      every step before it answered without a usable result. */
  lemma {:induction false} CascadeFoundLoud<A, T>(steps: seq<Step<A>>, run: A -> Call<T>, found: T -> bool)
    requires Loud(steps)
    requires var r := Cascade(steps, run, found); r.result.Ok? && r.result.value.Some?
    ensures exists k | 0 <= k < |steps| ::
              run(steps[k].arg).result == Ok(Cascade(steps, run, found).result.value.value) &&
              forall j | 0 <= j < k :: run(steps[j].arg).result.Ok? && !found(run(steps[j].arg).result.value)
  {
    var v := Cascade(steps, run, found).result.value.value;
    var k :| 0 <= k < |steps| && run(steps[k].arg).result == Ok(v) && Passed(steps[..k], run, found);
    forall j | 0 <= j < k ensures run(steps[j].arg).result.Ok? && !found(run(steps[j].arg).result.value) {
      assert steps[..k][j] == steps[j];
    }
  }

  predicate IsPrefixOf(p: seq<string>, s: seq<string>) {
    |p| <= |s| && s[..|p|] == p
  }

  /** With no step requesting anything, the chain requests nothing. */
  lemma {:induction false} CascadeSilent<A, T>(steps: seq<Step<A>>, run: A -> Call<T>, found: T -> bool)
    requires forall j | 0 <= j < |steps| :: run(steps[j].arg).urls == []
    ensures Cascade(steps, run, found).urls == []
    decreases |steps|
  {
    if |steps| > 0 {
      assert forall j | 0 <= j < |steps[1..]| :: steps[1..][j] == steps[j + 1];
      CascadeSilent(steps[1..], run, found);
    }
  }

  /** A step whose result is usable ends the chain there: later steps are
      never run. */
  lemma {:induction false} CascadeStopsAtFirst<A, T>(steps: seq<Step<A>>, more: seq<Step<A>>, run: A -> Call<T>, found: T -> bool)
    requires |steps| > 0 && run(steps[0].arg).result.Ok? && found(run(steps[0].arg).result.value)
    ensures Cascade(steps + more, run, found) == Call(Ok(Some(run(steps[0].arg).result.value)), run(steps[0].arg).urls)
  {
    assert (steps + more)[0] == steps[0];
  }

  // ---------------------------------------------------------------------
  // Numbers and times
  // ---------------------------------------------------------------------

  /** `round(n / d)` with Python's rounding of halves to the even neighbour,
      for whole numbers `n` and `d > 0`. */
  function RoundDiv(n: int, d: int): (r: int)
    requires d > 0
    ensures -d <= 2 * (n - r * d) <= d
    ensures 2 * (n - r * d) == d || 2 * (n - r * d) == -d ==> r % 2 == 0
  {
    var q := n / d;
    var m := n % d;
    if 2 * m < d then q
    else if 2 * m > d then q + 1
    else if q % 2 == 0 then q else q + 1
  }

  /** The rounded quotient is unique: any `r` within half a step of `n / d`,
      taking the even one on a tie, is `RoundDiv(n, d)`. */
  lemma {:induction false} RoundDivUnique(n: int, d: int, r: int)
    requires d > 0
    requires -d <= 2 * (n - r * d) <= d
    requires 2 * (n - r * d) == d || 2 * (n - r * d) == -d ==> r % 2 == 0
    ensures r == RoundDiv(n, d)
  {
    var s := RoundDiv(n, d);
    var k := s - r;
    MulSub(s, r, d);
    StepBound(k, d);
    MulUnit(k, d);
    TieBreak(n - r * d, n - s * d, d, k, r, s);
  }

  lemma {:induction false} MulSub(s: int, r: int, d: int)
    ensures s * d - r * d == (s - r) * d
  {
  }

  lemma {:induction false} StepBound(k: int, d: int)
    requires d > 0 && -d <= k * d <= d
    ensures -1 <= k <= 1
  {
  }

  lemma {:induction false} MulUnit(k: int, d: int)
    requires -1 <= k <= 1
    ensures k * d == if k == 1 then d else if k == -1 then -d else 0
  {
  }

  /** Two remainders within half a step that differ by a whole step are the
      two ends of a tie, which only one of two neighbours can win. */
  lemma {:induction false} TieBreak(e: int, f: int, d: int, k: int, r: int, s: int)
    requires d > 0 && -d <= 2 * e <= d && -d <= 2 * f <= d
    requires -1 <= k <= 1 && s == r + k
    requires e - f == if k == 1 then d else if k == -1 then -d else 0
    requires 2 * e == d || 2 * e == -d ==> r % 2 == 0
    requires 2 * f == d || 2 * f == -d ==> s % 2 == 0
    ensures k == 0
  {
  }

  /** The rounded quotient is not negative exactly when `n` is at least
      `-d / 2`; a difference of exactly half a step rounds to zero. */
  lemma {:induction false} RoundDivSign(n: int, d: int)
    requires d > 0
    ensures RoundDiv(n, d) >= 0 <==> 2 * n >= -d
  {
    var r := RoundDiv(n, d);
    MulSign(r, d);
    SignOfRounded(n, d, r, r * d);
  }

  /** Whole minutes from `now` until `t`, both in seconds:
      `int(round((t - now) / 60))`, halves to even. */
  function MinsUntil(t: int, now: int): (r: int)
    ensures -60 <= 2 * (t - now - 60 * r) <= 60
    ensures 2 * (t - now - 60 * r) == 60 || 2 * (t - now - 60 * r) == -60 ==> r % 2 == 0
    ensures r >= 0 <==> t - now >= -30
  {
    RoundDivSign(t - now, 60);
    RoundDiv(t - now, 60)
  }

  lemma {:induction false} MulSign(r: int, d: int)
    requires d > 0
    ensures r >= 0 ==> r * d >= 0
    ensures r <= -2 ==> r * d <= -2 * d
    ensures r == -1 ==> r * d == -d
  {
  }

  lemma {:induction false} SignOfRounded(n: int, d: int, r: int, m: int)
    requires d > 0 && -d <= 2 * (n - m) <= d
    requires 2 * (n - m) == d || 2 * (n - m) == -d ==> r % 2 == 0
    requires r >= 0 ==> m >= 0
    requires r <= -2 ==> m <= -2 * d
    requires r == -1 ==> m == -d
    ensures r >= 0 <==> 2 * n >= -d
  {
  }

  /** The date parsers: text to a timestamp, or `None` when the text is not
      an ISO 8601 time (`datetime.fromisoformat` raising). */
  type Parser = string -> Option<int>

  /** `s.replace("Z", "+00:00")`, which lets the parser read a UTC suffix. */
  function ZuluToOffset(s: string): (r: string)
    ensures 'Z' !in r
    ensures |r| >= |s|
    decreases |s|
  {
    if |s| == 0 then ""
    else (if s[0] == 'Z' then "+00:00" else [s[0]]) + ZuluToOffset(s[1..])
  }

  /** Text without a `Z` is passed on unchanged, and the replacement is
      idempotent. */
  lemma {:induction false} ZuluToOffsetKeeps(s: string)
    requires 'Z' !in s
    ensures ZuluToOffset(s) == s
    decreases |s|
  {
    if |s| > 0 {
      assert 'Z' !in s[1..] by {
        forall k | 0 <= k < |s| - 1 ensures s[1..][k] != 'Z' {
          assert s[1..][k] == s[k + 1];
        }
      }
      ZuluToOffsetKeeps(s[1..]);
      assert s == [s[0]] + s[1..];
    }
  }

  lemma {:induction false} ZuluToOffsetIdempotent(s: string)
    ensures ZuluToOffset(ZuluToOffset(s)) == ZuluToOffset(s)
  {
    ZuluToOffsetKeeps(ZuluToOffset(s));
  }

  /** `_to_dt(s)`: nothing for a falsy value; a non-string fails inside the
      `try` and also gives nothing; a string is parsed after its `Z`
      suffixes are spelled as offsets. */
  function ToDt<D>(j: Json, parse: string -> Option<D>): (r: Option<D>)
    ensures !Truthy(j) || !j.JStr? ==> r.None?
    ensures j.JStr? && j.s != "" ==> r == parse(ZuluToOffset(j.s))
  {
    if !Truthy(j) then None
    else if j.JStr? then parse(ZuluToOffset(j.s))
    else None
  }
}
