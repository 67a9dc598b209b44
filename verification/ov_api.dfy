/** The keyed vertrektijd.info client: request headers, stop search with a
    single free-text field, and departures by stop code. */
module OvApi {
  import opened Wrappers
  import opened Text
  import opened Json
  import opened Urls
  import opened Transit

  const API_BASE: string := "https://api.vertrektijd.info"
  const DEFAULT_VERSION: string := "1.5.0"

  // ---------------------------------------------------------------------
  // Headers
  // ---------------------------------------------------------------------

  /** `_api_key()`: the secret when it is set (as text, stripped), else the
      environment variable (stripped), else nothing. `secret` is `None` when
      the secrets store is missing, fails, or lacks the key. */
  function ApiKey(secret: Option<Json>, env: Option<string>): (r: Option<string>)
    ensures secret.Some? && Truthy(secret.value) ==> r == Some(Strip(PyStr(secret.value)))
    ensures (secret.None? || !Truthy(secret.value)) && env.Some? && env.value != "" ==> r == Some(Strip(env.value))
    ensures (secret.None? || !Truthy(secret.value)) && (env.None? || env.value == "") ==> r.None?
  {
    if secret.Some? && Truthy(secret.value) then Some(Strip(PyStr(secret.value)))
    else if env.Some? && env.value != "" then Some(Strip(env.value))
    else None
  }

  /** A secret of only spaces hides the environment variable: the key comes
      out empty. */
  lemma {:induction false} BlankSecretShadowsEnv(secret: string, env: string)
    requires secret != "" && IsBlank(secret)
    ensures ApiKey(Some(JStr(secret)), Some(env)) == Some("")
  {
    StripBlankIsEmpty(secret);
  }

  predicate UsableKey(k: Option<string>) {
    k.Some? && k.value != ""
  }

  /** `vt_headers(api_key, version)`: an explicit key wins over the looked-up
      one; without a usable key the call raises `RuntimeError`. */
  function VtHeaders(apiKey: Option<string>, lookedUp: Option<string>, version: string): (r: Result<seq<(string, string)>>)
    ensures r.Ok? <==> UsableKey(apiKey) || UsableKey(lookedUp)
    ensures r.Err? ==> r.error == "RuntimeError"
    ensures r.Ok? ==> |r.value| == 4 && r.value[1] == ("Accept-Version", version)
    ensures r.Ok? && UsableKey(apiKey) ==> r.value[0] == ("X-Vertrektijd-Client-Api-Key", apiKey.value)
    ensures r.Ok? && !UsableKey(apiKey) ==> r.value[0] == ("X-Vertrektijd-Client-Api-Key", lookedUp.value)
  {
    var key := if UsableKey(apiKey) then apiKey else lookedUp;
    if !UsableKey(key) then Err("RuntimeError")
    else Ok([("X-Vertrektijd-Client-Api-Key", key.value), ("Accept-Version", version),
             ("User-Agent", "KbM-nieuws/1.0 (Streamlit)"), ("Accept", "application/json")])
  }

  /** `_get(url)`: the headers are built first, so without a key nothing is
      requested. `key` is what `_api_key()` returns. */
  function Request(url: string, key: Option<string>, server: Server): (r: Call<Json>)
    ensures !UsableKey(key) ==> r == Call(Err("RuntimeError"), [])
    ensures UsableKey(key) ==> r == Call(server(url), [url])
  {
    if VtHeaders(None, key, DEFAULT_VERSION).Err? then Call(Err("RuntimeError"), [])
    else Call(server(url), [url])
  }

  // ---------------------------------------------------------------------
  // Stop search
  // ---------------------------------------------------------------------

  /** `r or default` on a response. */
  function OrDefault(c: Call<Json>, default: Json): (r: Call<Json>)
    ensures r.urls == c.urls
    ensures r.result.Err? <==> c.result.Err?
    ensures r.result.Ok? ==> r.result.value == if Truthy(c.result.value) then c.result.value else default
  {
    if c.result.Ok? && !Truthy(c.result.value) then Call(Ok(default), c.urls) else c
  }

  function NameUrl(stop: string): string {
    API_BASE + "/stop/_name/" + Quote(stop)
  }

  function NameTownUrl(town: string, stop: string): string {
    API_BASE + "/stop/_nametown/" + Quote(town) + "/" + Quote(stop) + "/"
  }

  /** `search_stops(stop_query, town)`: the stop is stripped and must not be
      blank; a non-empty town (used as given) narrows the search; a falsy
      answer becomes `[]`. */
  function SearchStops(query: string, town: Option<string>, key: Option<string>, server: Server): (r: Call<Json>)
    ensures IsBlank(query) ==> r == Call(Ok(JList([])), [])
    ensures !IsBlank(query) && UsableKey(key) && UsableKey(town) ==> r.urls == [NameTownUrl(town.value, Strip(query))]
    ensures !IsBlank(query) && UsableKey(key) && !UsableKey(town) ==> r.urls == [NameUrl(Strip(query))]
    ensures !IsBlank(query) && !UsableKey(key) ==> r == Call(Err("RuntimeError"), [])
    ensures r.result.Ok? ==> Truthy(r.result.value) || r.result.value == JList([])
    ensures !IsBlank(query) && UsableKey(key) ==>
              var answer := server(r.urls[0]);
              r.result == if answer.Ok? && !Truthy(answer.value) then Ok(JList([])) else answer
  {
    StripBlankIsEmpty(query);
    var stop := Strip(query);
    if stop == "" then Call(Ok(JList([])), [])
    else if UsableKey(town) then OrDefault(Request(NameTownUrl(town.value, stop), key, server), JList([]))
    else OrDefault(Request(NameUrl(stop), key, server), JList([]))
  }

  datatype Query = Query(stop: string, town: Option<string>)

  function RunQuery(q: Query, key: Option<string>, server: Server): Call<Json> {
    SearchStops(q.stop, q.town, key, server)
  }

  /** `RunQuery` with the key and the server fixed, as the cascade runs it. */
  function Runner(key: Option<string>, server: Server): Query -> Call<Json> {
    (q: Query) => RunQuery(q, key, server)
  }

  /** The separators tried in order: comma, em dash, hyphen, en dash,
      slash. */
  const SEPARATORS: seq<char> := [',', '\U{2014}', '-', '\U{2013}', '/']

  /** The town/stop attempt for one separator: the text is split at its
      first occurrence and both stripped sides must be non-empty. */
  function SepStep(s: string, sep: char): (r: seq<Step<Query>>)
    ensures |r| <= 1
    ensures |r| == 1 <==> SplitFirst(s, sep).Some? && !IsBlank(SplitFirst(s, sep).value.0) && !IsBlank(SplitFirst(s, sep).value.1)
    ensures |r| == 1 ==> !r[0].swallow && !IsBlank(r[0].arg.stop)
  {
    match SplitFirst(s, sep)
    case Some((a, b)) =>
      StripBlankIsEmpty(a);
      StripBlankIsEmpty(b);
      StripOfStripped(Strip(b));
      StripBlankIsEmpty(Strip(b));
      if Strip(a) != "" && Strip(b) != "" then [Step(Query(Strip(b), Some(Strip(a))), false)] else []
    case None => []
  }

  /** The first word as town and the rest as stop; its failures are
      swallowed. */
  function TokenStep(s: string): (r: seq<Step<Query>>)
    ensures |r| <= 1
    ensures |r| == 1 <==> |Words(s)| >= 2
    ensures |r| == 1 ==> r[0].swallow && !IsBlank(r[0].arg.stop)
    ensures |r| == 1 ==> r[0].arg == Query(Join(" ", Words(s)[1..]), Some(Words(s)[0]))
  {
    var ws := Words(s);
    if |ws| >= 2 then
      WordNotBlank(s, 1);
      JoinNotBlank(" ", ws[1..]);
      [Step(Query(Join(" ", ws[1..]), Some(ws[0])), true)]
    else []
  }

  /** Every attempt names a stop that is not blank. */
  predicate Named(steps: seq<Step<Query>>) {
    forall k | 0 <= k < |steps| :: !IsBlank(steps[k].arg.stop)
  }

  lemma {:induction false} NamedAppend(a: seq<Step<Query>>, b: seq<Step<Query>>)
    requires Named(a) && Named(b)
    ensures Named(a + b)
  {
    forall k | 0 <= k < |a + b| ensures !IsBlank((a + b)[k].arg.stop) {
      if k >= |a| {
        assert (a + b)[k] == b[k - |a|];
      }
    }
  }

  function SepSteps(s: string, seps: seq<char>): (r: seq<Step<Query>>)
    ensures |r| <= |seps|
    ensures Loud(r) && Named(r)
    decreases |seps|
  {
    if |seps| == 0 then []
    else
      var first := SepStep(s, seps[0]);
      var rest := SepSteps(s, seps[1..]);
      LoudAppend(first, rest);
      NamedAppend(first, rest);
      first + rest
  }

  lemma {:induction false} SepStepsAppend(s: string, a: seq<char>, b: seq<char>)
    ensures SepSteps(s, a + b) == SepSteps(s, a) + SepSteps(s, b)
    decreases |a|
  {
    if |a| > 0 {
      assert (a + b)[0] == a[0] && (a + b)[1..] == a[1..] + b;
      SepStepsAppend(s, a[1..], b);
    } else {
      assert a + b == b;
    }
  }

  /** The attempts for the separators of `seps` before the one at index
      `m`, then that one's, then those after it: the separators are tried in
      the order of the list. */
  lemma {:induction false} SepStepsSplit(s: string, seps: seq<char>, m: nat)
    requires m < |seps|
    ensures SepSteps(s, seps) == SepSteps(s, seps[..m]) + SepStep(s, seps[m]) + SepSteps(s, seps[m + 1..])
  {
    assert seps == seps[..m] + ([seps[m]] + seps[m + 1..]);
    SepStepsAppend(s, seps[..m], [seps[m]] + seps[m + 1..]);
    SepStepsAppend(s, [seps[m]], seps[m + 1..]);
    assert [seps[m]][1..] == [];
    assert SepSteps(s, [seps[m]]) == SepStep(s, seps[m]) + [];
  }

  /** The attempts before the final plain-name search: one per separator
      that splits the text into two non-blank sides, in the order of
      `SEPARATORS`, then the token attempt, which alone swallows its
      exception. */
  function SmartPlan(s: string): (plan: seq<Step<Query>>)
    ensures Named(plan)
    ensures plan == SepSteps(s, SEPARATORS) + TokenStep(s)
    ensures forall k | 0 <= k < |plan| :: plan[k].swallow <==> k == |plan| - 1 && |Words(s)| >= 2
  {
    var seps := SepSteps(s, SEPARATORS);
    var token := TokenStep(s);
    NamedAppend(seps, token);
    seps + token
  }

  lemma PrefixOfAppend(a: seq<string>, b: seq<string>)
    ensures forall p :: IsPrefixOf(p, a) ==> IsPrefixOf(p, a + b)
  {
    forall p | IsPrefixOf(p, a) ensures IsPrefixOf(p, a + b) {
      assert (a + b)[..|p|] == a[..|p|];
    }
  }

  /** The cascade's requests start with those of its first attempt. */
  lemma CascadeFirstUrls(plan: seq<Step<Query>>, key: Option<string>, server: Server)
    ensures plan != [] ==> IsPrefixOf(RunQuery(plan[0].arg, key, server).urls, Cascade(plan, Runner(key, server), Truthy).urls)
  {
    if plan != [] {
      assert Runner(key, server)(plan[0].arg) == RunQuery(plan[0].arg, key, server);
    }
  }

  /** The attempts of `search_stops_smart` over the stripped text `s`, then
      the plain-name search of `s` when none answered. */
  function SmartOf(s: string, key: Option<string>, server: Server): (r: Call<Json>)
    ensures SmartPlan(s) != [] ==> IsPrefixOf(RunQuery(SmartPlan(s)[0].arg, key, server).urls, r.urls)
  {
    var c := Cascade(SmartPlan(s), Runner(key, server), Truthy);
    CascadeFirstUrls(SmartPlan(s), key, server);
    if c.result.Err? then Call(Err(c.result.error), c.urls)
    else if c.result.value.Some? then Call(Ok(c.result.value.value), c.urls)
    else
      var last := SearchStops(s, None, key, server);
      PrefixOfAppend(c.urls, last.urls);
      Call(last.result, c.urls + last.urls)
  }

  /** `search_stops_smart(user_input)`: the first truthy answer of the
      attempts, else the plain-name search of the whole text. */
  function SearchStopsSmart(input: string, key: Option<string>, server: Server): (r: Call<Json>)
    ensures IsBlank(input) ==> r == Call(Ok(JList([])), [])
    ensures !IsBlank(input) && SmartPlan(Strip(input)) != [] ==>
              IsPrefixOf(RunQuery(SmartPlan(Strip(input))[0].arg, key, server).urls, r.urls)
  {
    StripBlankIsEmpty(input);
    var s := Strip(input);
    if s == "" then Call(Ok(JList([])), []) else SmartOf(s, key, server)
  }

  /** A comma with text on both sides gives the first attempt. */
  lemma {:induction false} CommaFirstStep(s: string, a: string, b: string)
    requires SplitFirst(s, ',') == Some((a, b)) && !IsBlank(a) && !IsBlank(b)
    ensures SmartPlan(s) != [] && SmartPlan(s)[0] == Step(Query(Strip(b), Some(Strip(a))), false)
  {
    StripBlankIsEmpty(a);
    StripBlankIsEmpty(b);
    assert SepStep(s, ',') == [Step(Query(Strip(b), Some(Strip(a))), false)];
    assert SepSteps(s, SEPARATORS)[0] == SepStep(s, ',')[0];
  }

  /** The request of a town/stop query with a usable key. */
  lemma {:induction false} TownQueryUrl(town: string, stop: string, key: Option<string>, server: Server)
    requires UsableKey(key) && !IsBlank(town) && !IsBlank(stop)
    ensures RunQuery(Query(Strip(stop), Some(Strip(town))), key, server).urls == [NameTownUrl(Strip(town), Strip(stop))]
  {
    StripBlankIsEmpty(town);
    StripOfStripped(Strip(stop));
    StripBlankIsEmpty(Strip(stop));
  }

  /** A comma with text on both sides is tried first, the left side as the
      town. */
  lemma {:induction false} SmartTriesCommaFirst(input: string, a: string, b: string, key: Option<string>, server: Server)
    requires UsableKey(key)
    requires SplitFirst(Strip(input), ',') == Some((a, b)) && !IsBlank(a) && !IsBlank(b)
    ensures var r := SearchStopsSmart(input, key, server);
            |r.urls| > 0 && r.urls[0] == NameTownUrl(Strip(a), Strip(b))
  {
    var s := Strip(input);
    assert !IsBlank(input) by { StripBlankIsEmpty(input); }
    CommaFirstStep(s, a, b);
    TownQueryUrl(a, b, key, server);
    var url := NameTownUrl(Strip(a), Strip(b));
    var r := SearchStopsSmart(input, key, server);
    assert IsPrefixOf([url], r.urls);
    assert r.urls[..1][0] == r.urls[0];
  }

  /** Without a key no request is made and the search raises
      `RuntimeError`: the swallowed attempt cannot hide it, because the final
      search raises it again. */
  lemma {:induction false} SmartWithoutKey(input: string, key: Option<string>, server: Server)
    requires !IsBlank(input) && !UsableKey(key)
    ensures SearchStopsSmart(input, key, server) == Call(Err("RuntimeError"), [])
  {
    StripBlankIsEmpty(input);
    var s := Strip(input);
    var plan := SmartPlan(s);
    var run := Runner(key, server);
    forall j | 0 <= j < |plan| ensures run(plan[j].arg) == Call(Err("RuntimeError"), []) {
      NoKeyQuery(plan[j].arg, key, server);
    }
    CascadeSilent(plan, run, Truthy);
    var c := Cascade(plan, run, Truthy);
    assert c.result.Err? ==> c.result.error == "RuntimeError";
    assert c.result.Ok? ==> c.result.value.None?;
    StripOfStripped(s);
    StripBlankIsEmpty(s);
  }

  /** Every query fails the same way without a key, blank stops aside. */
  lemma {:induction false} NoKeyQuery(q: Query, key: Option<string>, server: Server)
    requires !UsableKey(key)
    ensures IsBlank(q.stop) ==> RunQuery(q, key, server) == Call(Ok(JList([])), [])
    ensures !IsBlank(q.stop) ==> RunQuery(q, key, server) == Call(Err("RuntimeError"), [])
  {
  }

  /** An attempt that came back without a usable answer and without an
      exception that escapes. */
  predicate Declined(st: Step<Query>, key: Option<string>, server: Server) {
    var a := RunQuery(st.arg, key, server).result;
    (a.Ok? && !Truthy(a.value)) || (a.Err? && st.swallow)
  }

  /** Every attempt of `steps[..k]` declined, read off the cascade. */
  lemma {:induction false} PassedDeclined(steps: seq<Step<Query>>, k: nat, key: Option<string>, server: Server)
    requires k <= |steps| && Passed(steps[..k], Runner(key, server), Truthy)
    ensures forall j | 0 <= j < k :: Declined(steps[j], key, server)
  {
    forall j | 0 <= j < k ensures Declined(steps[j], key, server) {
      assert steps[..k][j] == steps[j];
    }
  }

  /** `res` is the answer of an attempt of `plan` all of whose predecessors
      declined. */
  ghost predicate AnsweredAfterDeclines(plan: seq<Step<Query>>, key: Option<string>, server: Server, res: Result<Json>) {
    exists k | 0 <= k < |plan| :: RunQuery(plan[k].arg, key, server).result == res &&
      forall j | 0 <= j < k :: Declined(plan[j], key, server)
  }

  ghost predicate AllDeclined(plan: seq<Step<Query>>, key: Option<string>, server: Server) {
    forall j | 0 <= j < |plan| :: Declined(plan[j], key, server)
  }

  /** `res` is the answer of the first attempt of `plan` that did not
      decline, or, when every attempt declined, the `fallback` answer. */
  ghost predicate FirstTruthyOr(plan: seq<Step<Query>>, key: Option<string>, server: Server, res: Result<Json>, fallback: Result<Json>) {
    AnsweredAfterDeclines(plan, key, server, res) || (AllDeclined(plan, key, server) && res == fallback)
  }

  /** What the cascade's outcome says about the attempts. */
  lemma {:induction false} CascadeDeclined(plan: seq<Step<Query>>, key: Option<string>, server: Server)
    requires Cascade(plan, Runner(key, server), Truthy).result.Ok?
    ensures var c := Cascade(plan, Runner(key, server), Truthy);
            c.result.value.Some? ==> AnsweredAfterDeclines(plan, key, server, Ok(c.result.value.value))
    ensures var c := Cascade(plan, Runner(key, server), Truthy);
            c.result.value.None? ==> AllDeclined(plan, key, server)
  {
    var c := Cascade(plan, Runner(key, server), Truthy);
    if c.result.value.Some? {
      var k :| 0 <= k < |plan| && Runner(key, server)(plan[k].arg).result == Ok(c.result.value.value)
               && Passed(plan[..k], Runner(key, server), Truthy);
      PassedDeclined(plan, k, key, server);
    } else {
      assert plan[..|plan|] == plan;
      PassedDeclined(plan, |plan|, key, server);
    }
  }

  lemma {:induction false} SmartOfFirstTruthy(s: string, key: Option<string>, server: Server)
    requires var r := SmartOf(s, key, server); r.result.Ok? && Truthy(r.result.value)
    ensures FirstTruthyOr(SmartPlan(s), key, server, SmartOf(s, key, server).result, SearchStops(s, None, key, server).result)
  {
    var plan := SmartPlan(s);
    CascadeDeclined(plan, key, server);
  }

  /** A truthy answer is the answer of the first attempt that answered
      truthily, every attempt before it having declined; or, when every
      attempt declined, the plain-name search of the whole text. */
  lemma {:induction false} SmartFirstTruthy(input: string, key: Option<string>, server: Server)
    requires var r := SearchStopsSmart(input, key, server); r.result.Ok? && Truthy(r.result.value)
    ensures FirstTruthyOr(SmartPlan(Strip(input)), key, server, SearchStopsSmart(input, key, server).result,
                          SearchStops(Strip(input), None, key, server).result)
  {
    StripBlankIsEmpty(input);
    SmartOfFirstTruthy(Strip(input), key, server);
  }

  /** When every attempt answers with something falsy, the answer is the
      plain-name search of the whole text, after the attempts' requests. */
  lemma {:induction false} SmartFallsBackToName(input: string, key: Option<string>, server: Server)
    requires !IsBlank(input)
    requires var plan := SmartPlan(Strip(input));
             forall k | 0 <= k < |plan| :: RunQuery(plan[k].arg, key, server).result.Ok? && !Truthy(RunQuery(plan[k].arg, key, server).result.value)
    ensures SearchStopsSmart(input, key, server).result == SearchStops(Strip(input), None, key, server).result
  {
    StripBlankIsEmpty(input);
    var plan := SmartPlan(Strip(input));
    var run := Runner(key, server);
    var c := Cascade(plan, run, Truthy);
    assert c.result == Ok(None);
  }

  // ---------------------------------------------------------------------
  // Departures
  // ---------------------------------------------------------------------

  const NO_DEPARTURES: Json := JObj([Field("TRAIN", JList([])), Field("BTMF", JList([]))])

  function StopcodeUrl(code: string): string {
    API_BASE + "/departures/_stopcode/" + Quote(code) + "/"
  }

  /** `departures_by_stopcode(stop_code)`: the code is `str(stop_code)`
      stripped, so `None` becomes the text `None`; a falsy answer becomes the
      empty table. */
  function DeparturesByStopcode(code: Json, key: Option<string>, server: Server): (r: Call<Json>)
    ensures IsBlank(PyStr(code)) ==> r == Call(Ok(NO_DEPARTURES), [])
    ensures !IsBlank(PyStr(code)) && UsableKey(key) ==> r.urls == [StopcodeUrl(Strip(PyStr(code)))]
    ensures r.result.Ok? ==> Truthy(r.result.value)
    ensures !IsBlank(PyStr(code)) && !UsableKey(key) ==> r == Call(Err("RuntimeError"), [])
    ensures !IsBlank(PyStr(code)) && UsableKey(key) ==>
              var answer := server(StopcodeUrl(Strip(PyStr(code))));
              r.result == if answer.Ok? && !Truthy(answer.value) then Ok(NO_DEPARTURES) else answer
  {
    StripBlankIsEmpty(PyStr(code));
    var c := Strip(PyStr(code));
    if c == "" then Call(Ok(NO_DEPARTURES), [])
    else OrDefault(Request(StopcodeUrl(c), key, server), NO_DEPARTURES)
  }

  /** A missing code is not caught: it is looked up as the stop `None`. */
  lemma {:induction false} StopcodeOfNone(key: Option<string>, server: Server)
    requires UsableKey(key)
    ensures DeparturesByStopcode(JNull, key, server).urls == [StopcodeUrl("None")]
  {
    assert PyStr(JNull) == "None";
    assert !IsBlank("None") by { assert !IsSpace("None"[0]); }
    StripOfStripped("None");
  }

  /** Surrounding whitespace of the query or the stop code never changes a
      request or its outcome. */
  lemma {:induction false} OvApiIgnoresPadding(query: string, town: Option<string>, key: Option<string>, server: Server)
    ensures SearchStops(query, town, key, server) == SearchStops(Strip(query), town, key, server)
    ensures DeparturesByStopcode(JStr(query), key, server) == DeparturesByStopcode(JStr(Strip(query)), key, server)
  {
    StripOfStripped(Strip(query));
    StripBlankIsEmpty(query);
    StripBlankIsEmpty(Strip(query));
    PyStrOfString(query);
    PyStrOfString(Strip(query));
  }
}
