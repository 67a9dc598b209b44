/** The vertrektijd.info client with its own stop search, departure
    normalisation and grouping by transport mode. */
module OvAll {
  import opened Wrappers
  import opened Text
  import opened Seqs
  import opened Json
  import opened Urls
  import opened Transit

  const API_BASE: string := "https://api.vertrektijd.info"

  // ---------------------------------------------------------------------
  // Stop search
  // ---------------------------------------------------------------------

  function NameUrl(stop: string): string {
    API_BASE + "/stop/_name/" + Quote(stop)
  }

  function NameTownUrl(town: string, stop: string): string {
    API_BASE + "/stop/_nametown/" + Quote(town) + "/" + Quote(stop) + "/"
  }

  /** `data if isinstance(data, list) else []`. */
  function ListOrEmpty(j: Json): seq<Json> {
    if j.JList? then j.items else []
  }

  /** `search_stops_name(stop_query)`: a blank query makes no request; a
      response that is not a list counts as no stops. The `_get` helper reads
      an empty body as `None`, which the server stands for with `JNull`. */
  function SearchName(query: string, server: Server): (r: Call<seq<Json>>)
    ensures IsBlank(query) <==> r.urls == []
    ensures IsBlank(query) ==> r.result == Ok([])
    ensures !IsBlank(query) ==> r.urls == [NameUrl(Strip(query))]
    ensures r.result.Ok? && !IsBlank(query) ==>
              server(NameUrl(Strip(query))).Ok? && r.result.value == ListOrEmpty(server(NameUrl(Strip(query))).value)
    ensures !IsBlank(query) && server(NameUrl(Strip(query))).Err? ==> r.result == Err(server(NameUrl(Strip(query))).error)
  {
    StripBlankIsEmpty(query);
    var stop := Strip(query);
    if stop == "" then Call(Ok([]), [])
    else
      var url := NameUrl(stop);
      var data := server(url);
      Call(if data.Ok? then Ok(ListOrEmpty(data.value)) else Err(data.error), [url])
  }

  /** `search_stops_nametown(town, stop_query)`: both parts must be
      non-blank before a request is made. */
  function SearchNameTown(town: string, query: string, server: Server): (r: Call<seq<Json>>)
    ensures IsBlank(town) || IsBlank(query) <==> r.urls == []
    ensures IsBlank(town) || IsBlank(query) ==> r.result == Ok([])
    ensures !IsBlank(town) && !IsBlank(query) ==> r.urls == [NameTownUrl(Strip(town), Strip(query))]
    ensures r.result.Ok? && !IsBlank(town) && !IsBlank(query) ==>
              var answer := server(NameTownUrl(Strip(town), Strip(query)));
              answer.Ok? && r.result.value == ListOrEmpty(answer.value)
    ensures !IsBlank(town) && !IsBlank(query) && server(NameTownUrl(Strip(town), Strip(query))).Err? ==>
              r.result == Err(server(NameTownUrl(Strip(town), Strip(query))).error)
  {
    StripBlankIsEmpty(town);
    StripBlankIsEmpty(query);
    var t := Strip(town);
    var stop := Strip(query);
    if t == "" || stop == "" then Call(Ok([]), [])
    else
      var url := NameTownUrl(t, stop);
      var data := server(url);
      Call(if data.Ok? then Ok(ListOrEmpty(data.value)) else Err(data.error), [url])
  }

  /** Surrounding whitespace never changes a lookup. */
  lemma {:induction false} SearchIgnoresPadding(town: string, query: string, server: Server)
    ensures SearchName(query, server) == SearchName(Strip(query), server)
    ensures SearchNameTown(town, query, server) == SearchNameTown(Strip(town), Strip(query), server)
    ensures DeparturesByStopcode(query, server) == DeparturesByStopcode(Strip(query), server)
    ensures DeparturesByNameTown(town, query, server) == DeparturesByNameTown(Strip(town), Strip(query), server)
  {
    StripOfStripped(Strip(query));
    StripOfStripped(Strip(town));
    StripBlankIsEmpty(query);
    StripBlankIsEmpty(Strip(query));
    StripBlankIsEmpty(town);
    StripBlankIsEmpty(Strip(town));
  }

  datatype Lookup = ByName(stop: string) | ByNameTown(town: string, stop: string)

  function RunLookup(l: Lookup, server: Server): Call<seq<Json>> {
    match l
    case ByName(stop) => SearchName(stop, server)
    case ByNameTown(town, stop) => SearchNameTown(town, stop, server)
  }

  /** The explicit `town / stop` lookup, when the text splits at its first
      `/` into two sides that are not blank. */
  function SlashSteps(s: string): (r: seq<Step<Lookup>>)
    ensures |r| <= 1 && Loud(r)
    ensures |r| == 1 <==> SplitFirst(s, '/').Some? && !IsBlank(SplitFirst(s, '/').value.0) && !IsBlank(SplitFirst(s, '/').value.1)
  {
    match SplitFirst(s, '/')
    case Some((a, b)) =>
      StripBlankIsEmpty(a);
      StripBlankIsEmpty(b);
      if Strip(a) != "" && Strip(b) != "" then [Step(ByNameTown(Strip(a), Strip(b)), false)] else []
    case None => []
  }

  /** The first word as the town and the other words as the stop, for text
      of two words or more. */
  function TokenSteps(s: string): (r: seq<Step<Lookup>>)
    ensures |r| <= 1 && Loud(r)
    ensures |r| == 1 <==> |Words(s)| >= 2
    ensures |r| == 1 ==> r[0].arg == ByNameTown(Words(s)[0], Join(" ", Words(s)[1..]))
  {
    var ws := Words(s);
    if |ws| >= 2 then [Step(ByNameTown(ws[0], Join(" ", ws[1..])), false)] else []
  }

  /** The lookups `search_stops_smart` tries for a stripped, non-blank input,
      in order; none of them swallows an exception. */
  function SmartPlan(s: string): (plan: seq<Step<Lookup>>)
    ensures |plan| == |SlashSteps(s)| + 1 + |TokenSteps(s)|
    ensures SlashSteps(s) != [] ==> plan[0] == SlashSteps(s)[0]
    ensures plan[|SlashSteps(s)|] == Step(ByName(s), false)
    ensures TokenSteps(s) != [] ==> plan[|plan| - 1] == TokenSteps(s)[0]
    ensures Loud(plan)
  {
    var slash := SlashSteps(s);
    var token := TokenSteps(s);
    var head := slash + [Step(ByName(s), false)];
    LoudAppend(slash, [Step(ByName(s), false)]);
    LoudAppend(head, token);
    assert head[|slash|] == Step(ByName(s), false);
    assert |token| == 1 ==> (head + token)[|head|] == token[0];
    head + token
  }

  /** The cascade of `search_stops_smart` over the stripped text `s`. */
  function SmartOf(s: string, server: Server): (r: Call<seq<Json>>)
    ensures IsPrefixOf(RunLookup(SmartPlan(s)[0].arg, server).urls, r.urls)
  {
    var c := Cascade(SmartPlan(s), (l: Lookup) => RunLookup(l, server), (v: seq<Json>) => v != []);
    Call(if c.result.Err? then Err(c.result.error) else Ok(c.result.value.GetOr([])), c.urls)
  }

  /** `search_stops_smart(user_input)`: the first lookup with a non-empty
      answer wins; no exception is caught, and `[]` when all come up empty. */
  function SearchStopsSmart(input: string, server: Server): (r: Call<seq<Json>>)
    ensures IsBlank(input) ==> r == Call(Ok([]), [])
    ensures !IsBlank(input) ==> IsPrefixOf(RunLookup(SmartPlan(Strip(input))[0].arg, server).urls, r.urls)
  {
    StripBlankIsEmpty(input);
    var s := Strip(input);
    if s == "" then Call(Ok([]), []) else SmartOf(s, server)
  }

  /** A non-empty answer of the cascade is the answer of some lookup of the
      plan, and every lookup before it found nothing. */
  lemma {:induction false} SmartOfFirstNonEmpty(s: string, server: Server)
    requires var r := SmartOf(s, server); r.result.Ok? && r.result.value != []
    ensures var plan := SmartPlan(s);
            exists k | 0 <= k < |plan| :: RunLookup(plan[k].arg, server).result == SmartOf(s, server).result &&
              forall j | 0 <= j < k :: RunLookup(plan[j].arg, server).result == Ok([])
  {
    var plan := SmartPlan(s);
    var run := (l: Lookup) => RunLookup(l, server);
    var found := (v: seq<Json>) => v != [];
    CascadeFoundLoud(plan, run, found);
    assert forall l :: run(l) == RunLookup(l, server);
    assert forall v :: found(v) == (v != []);
  }

  /** A non-empty answer is the answer of some lookup of the plan, and every
      lookup before it found nothing. */
  lemma {:induction false} SmartFirstNonEmpty(input: string, server: Server)
    requires var r := SearchStopsSmart(input, server); r.result.Ok? && r.result.value != []
    ensures var plan := SmartPlan(Strip(input));
            exists k | 0 <= k < |plan| :: RunLookup(plan[k].arg, server).result == SearchStopsSmart(input, server).result &&
              forall j | 0 <= j < k :: RunLookup(plan[j].arg, server).result == Ok([])
  {
    StripBlankIsEmpty(input);
    SmartOfFirstNonEmpty(Strip(input), server);
  }

  /** Every lookup coming up empty gives `[]`. */
  lemma {:induction false} SmartAllEmpty(input: string, server: Server)
    requires !IsBlank(input)
    requires var plan := SmartPlan(Strip(input));
             forall k | 0 <= k < |plan| :: RunLookup(plan[k].arg, server).result == Ok([])
    ensures SearchStopsSmart(input, server).result == Ok([])
  {
    StripBlankIsEmpty(input);
  }

  /** A usable `town / stop` split of `s` is its first lookup. */
  lemma {:induction false} SlashFirstLookup(s: string, a: string, b: string)
    requires SplitFirst(s, '/') == Some((a, b))
    requires !IsBlank(a) && !IsBlank(b)
    ensures SmartPlan(s)[0].arg == ByNameTown(Strip(a), Strip(b))
  {
    StripBlankIsEmpty(a);
    StripBlankIsEmpty(b);
    assert SlashSteps(s) == [Step(ByNameTown(Strip(a), Strip(b)), false)];
  }

  /** The nametown lookup of two sides that are not blank requests the
      nametown URL of the stripped sides. */
  lemma {:induction false} NameTownLookupUrl(a: string, b: string, server: Server)
    requires !IsBlank(a) && !IsBlank(b)
    ensures RunLookup(ByNameTown(Strip(a), Strip(b)), server).urls == [NameTownUrl(Strip(a), Strip(b))]
  {
    StripBlankIsEmpty(a);
    StripBlankIsEmpty(b);
    StripOfStripped(Strip(a));
    StripOfStripped(Strip(b));
    StripBlankIsEmpty(Strip(a));
    StripBlankIsEmpty(Strip(b));
  }

  /** With a usable `town / stop` split the first request is the nametown
      lookup of the two stripped sides. */
  lemma {:induction false} SmartTriesSlashFirst(input: string, a: string, b: string, server: Server)
    requires SplitFirst(Strip(input), '/') == Some((a, b))
    requires !IsBlank(a) && !IsBlank(b)
    ensures var r := SearchStopsSmart(input, server);
            |r.urls| > 0 && r.urls[0] == NameTownUrl(Strip(a), Strip(b))
  {
    assert !IsBlank(input) by { StripBlankIsEmpty(input); }
    SlashFirstLookup(Strip(input), a, b);
    NameTownLookupUrl(a, b, server);
    var r := SearchStopsSmart(input, server);
    assert IsPrefixOf([NameTownUrl(Strip(a), Strip(b))], r.urls);
    assert r.urls[..1][0] == r.urls[0];
  }

  /** Without a `/`, a non-empty answer to the whole name is returned as is. */
  lemma {:induction false} SmartNameFirstWithoutSlash(input: string, server: Server)
    requires !IsBlank(input) && '/' !in Strip(input)
    requires SearchName(Strip(input), server).result.Ok? && SearchName(Strip(input), server).result.value != []
    ensures SearchStopsSmart(input, server) == SearchName(Strip(input), server)
  {
    StripBlankIsEmpty(input);
    var s := Strip(input);
    var plan := SmartPlan(s);
    assert SlashSteps(s) == [];
    var run := (l: Lookup) => RunLookup(l, server);
    var found := (v: seq<Json>) => v != [];
    CascadeStopsAtFirst(plan[..1], plan[1..], run, found);
    assert plan[..1] + plan[1..] == plan;
  }

  /** The empty departure table `{"TRAIN": [], "BTMF": []}`. */
  const NO_DEPARTURES: Json := JObj([Field("TRAIN", JList([])), Field("BTMF", JList([]))])

  function StopcodeUrl(code: string): string {
    API_BASE + "/departures/_stopcode/" + Quote(code) + "/"
  }

  /** `departures_by_stopcode(stop_code)`: the empty table for a blank code
      (without a request) and for any response that is not a dict. */
  function DeparturesByStopcode(code: string, server: Server): (r: Call<Json>)
    ensures IsBlank(code) ==> r == Call(Ok(NO_DEPARTURES), [])
    ensures !IsBlank(code) ==> r.urls == [StopcodeUrl(Strip(code))]
    ensures r.result.Ok? ==> r.result.value.JObj?
    ensures !IsBlank(code) && server(StopcodeUrl(Strip(code))).Ok? && !server(StopcodeUrl(Strip(code))).value.JObj? ==>
              r.result == Ok(NO_DEPARTURES)
    ensures !IsBlank(code) && server(StopcodeUrl(Strip(code))).Ok? && server(StopcodeUrl(Strip(code))).value.JObj? ==>
              r.result == server(StopcodeUrl(Strip(code)))
    ensures !IsBlank(code) && server(StopcodeUrl(Strip(code))).Err? ==> r.result == server(StopcodeUrl(Strip(code)))
  {
    StripBlankIsEmpty(code);
    var c := Strip(code);
    if c == "" then Call(Ok(NO_DEPARTURES), [])
    else
      var url := StopcodeUrl(c);
      var data := server(url);
      Call(if data.Err? then Err(data.error) else if data.value.JObj? then Ok(data.value) else Ok(NO_DEPARTURES), [url])
  }

  function NameTownDeparturesUrl(town: string, stop: string): string {
    API_BASE + "/departures/_nametown/" + Quote(town) + "/" + Quote(stop) + "/"
  }

  /** `departures_by_nametown(town, stop)`: `[]` without a request unless
      both parts are non-blank; otherwise the response as it came. */
  function DeparturesByNameTown(town: string, stop: string, server: Server): (r: Call<Json>)
    ensures IsBlank(town) || IsBlank(stop) <==> r.urls == []
    ensures IsBlank(town) || IsBlank(stop) ==> r.result == Ok(JList([]))
    ensures !IsBlank(town) && !IsBlank(stop) ==>
              var url := NameTownDeparturesUrl(Strip(town), Strip(stop));
              r == Call(server(url), [url])
  {
    StripBlankIsEmpty(town);
    StripBlankIsEmpty(stop);
    var t := Strip(town);
    var st := Strip(stop);
    if t == "" || st == "" then Call(Ok(JList([])), [])
    else
      var url := NameTownDeparturesUrl(t, st);
      Call(server(url), [url])
  }

  // ---------------------------------------------------------------------
  // Departures
  // ---------------------------------------------------------------------

  /** One departure; `time` is UTC seconds. */
  datatype Departure = Departure(time: int, line: string, destination: string, mode: string,
                                 platform: string, delayMin: int, status: string)

  function ExpectedText(d: seq<Field>): Json {
    FirstTruthy([Get(d, "ExpectedDeparture"), Get(d, "expectedDeparture"), Get(d, "departure")], JStr(""))
  }

  function PlannedText(d: seq<Field>): Json {
    FirstTruthy([Get(d, "PlannedDeparture"), Get(d, "plannedDeparture")], JStr(""))
  }

  /** `max(0, round((expected - planned) / 60))`, in whole minutes. */
  function DelayMinutes(expected: int, planned: int): (r: int)
    ensures r >= 0
    ensures expected - planned <= 30 ==> r == 0
    ensures expected - planned > 30 ==> -60 <= 2 * (expected - planned - r * 60) <= 60
    ensures expected - planned > 30 && (2 * (expected - planned - r * 60) == 60 || 2 * (expected - planned - r * 60) == -60) ==>
              r % 2 == 0
  {
    RoundDivSign(expected - planned - 60, 60);
    var m := RoundDiv(expected - planned, 60);
    if m < 0 then 0 else m
  }

  /** `str(v0 or v1 or ... or "—")`: never empty. */
  function OrDash(vs: seq<Json>): (r: string)
    ensures r != ""
  {
    var v := FirstTruthy(vs, JStr("\U{2014}"));
    PyStrEmpty(v);
    PyStr(v)
  }

  /** The time a record is listed under: the expected time when it parses,
      else the planned time. */
  function RecordTime(d: seq<Field>, parse: Parser): (t: Option<int>)
    ensures t.None? <==> ToDt(ExpectedText(d), parse).None? && ToDt(PlannedText(d), parse).None?
    ensures ToDt(ExpectedText(d), parse).Some? ==> t == ToDt(ExpectedText(d), parse)
  {
    var expDt := ToDt(ExpectedText(d), parse);
    if expDt.Some? then expDt else ToDt(PlannedText(d), parse)
  }

  /** `add_from_record(d, fallback_mode)`: nothing when neither the expected
      nor the planned time parses. */
  function MakeRecord(d: seq<Field>, fallback: string, parse: Parser): (r: Option<Departure>)
    ensures r.None? <==> ToDt(ExpectedText(d), parse).None? && ToDt(PlannedText(d), parse).None?
    ensures r.Some? && ToDt(ExpectedText(d), parse).Some? ==> r.value.time == ToDt(ExpectedText(d), parse).value
    ensures r.Some? ==> r.value.delayMin >= 0 && r.value.line != "" && r.value.destination != "" && r.value.mode != ""
    ensures r.Some? && ToDt(PlannedText(d), parse).None? ==> r.value.delayMin == 0
  {
    var t := RecordTime(d, parse);
    if t.None? then None
    else
      var planDt := ToDt(PlannedText(d), parse);
      var line := OrDash([Get(d, "LineNumber"), Get(d, "LineName"), Get(d, "line")]);
      var dest := OrDash([Get(d, "Destination"), Get(d, "destination")]);
      var mode := OrDash([Get(d, "TransportType"), Get(d, "Mode"), Get(d, "type"), JStr(fallback)]);
      var delay := if planDt.Some? then DelayMinutes(t.value, planDt.value) else 0;
      var platform := FirstTruthy([Get(d, "Platform"), Get(d, "platform")], JStr(""));
      var status := FirstTruthy([Get(d, "VehicleStatus"), Get(d, "status")], JStr(""));
      Some(Departure(t.value, line, dest, Upper(mode), PyStr(platform), delay, PyStr(status)))
  }

  /** Without a mode field the block's fallback names the mode, and `—`
      when the fallback is empty too. */
  lemma {:induction false} ModeFallback(d: seq<Field>, fallback: string, parse: Parser)
    requires MakeRecord(d, fallback, parse).Some?
    requires !Truthy(Get(d, "TransportType")) && !Truthy(Get(d, "Mode")) && !Truthy(Get(d, "type"))
    ensures MakeRecord(d, fallback, parse).value.mode == if fallback != "" then Upper(fallback) else "\U{2014}"
  {
    FirstTruthy3(Get(d, "TransportType"), Get(d, "Mode"), Get(d, "type"), JStr(fallback));
    var vs := [Get(d, "TransportType"), Get(d, "Mode"), Get(d, "type"), JStr(fallback)];
    assert vs[1..] == [Get(d, "Mode"), Get(d, "type"), JStr(fallback)];
    assert FirstTruthy(vs, JStr("\U{2014}")) == FirstTruthy(vs[1..], JStr("\U{2014}"));
    assert vs[1..][1..] == [Get(d, "type"), JStr(fallback)];
    FirstTruthy2(Get(d, "type"), JStr(fallback), JStr("\U{2014}"));
  }

  /** Rounding halves to even: 90 seconds late is 2 minutes, 150 seconds is
      also 2, and 30 seconds is none. */
  lemma {:induction false} DelayHalfToEven()
    ensures DelayMinutes(90, 0) == 2 && DelayMinutes(150, 0) == 2 && DelayMinutes(30, 0) == 0
  {
    RoundDivUnique(90, 60, 2);
    RoundDivUnique(150, 60, 2);
  }

  /** The keys that mark a dict as a departure record for the walk. */
  predicate IsRecord(fs: seq<Field>) {
    HasKey(fs, "ExpectedDeparture") || HasKey(fs, "PlannedDeparture") || HasKey(fs, "Destination") || HasKey(fs, "LineNumber")
  }

  function OptSeq<T>(o: Option<T>): seq<T> {
    if o.Some? then [o.value] else []
  }

  /** What `add_from_record` guarantees of every departure it appends. */
  predicate Complete(d: Departure) {
    d.delayMin >= 0 && d.line != "" && d.destination != "" && d.mode != ""
  }

  /** `walk(node)`: a record dict is read first and its values are then
      walked too, in key order; lists are walked item by item. */
  function Walk(node: Json, parse: Parser): (r: seq<Departure>)
    ensures forall d | d in r :: Complete(d)
    ensures !node.JObj? && !node.JList? ==> r == []
    decreases node, 1
  {
    match node
    case JObj(fs) =>
      (if IsRecord(fs) then OptSeq(MakeRecord(fs, "", parse)) else []) + WalkFields(fs, node, parse)
    case JList(xs) => WalkItems(xs, node, parse)
    case _ => []
  }

  function WalkItems(xs: seq<Json>, ghost parent: Json, parse: Parser): (r: seq<Departure>)
    requires forall i | 0 <= i < |xs| :: xs[i] < parent
    ensures forall d | d in r :: Complete(d)
    decreases parent, 0, |xs|
  {
    if |xs| == 0 then [] else Walk(xs[0], parse) + WalkItems(xs[1..], parent, parse)
  }

  function WalkFields(fs: seq<Field>, ghost parent: Json, parse: Parser): (r: seq<Departure>)
    requires forall i | 0 <= i < |fs| :: fs[i].val < parent
    ensures forall d | d in r :: Complete(d)
    decreases parent, 0, |fs|
  {
    if |fs| == 0 then [] else Walk(fs[0].val, parse) + WalkFields(fs[1..], parent, parse)
  }

  /** `for blk in (v or []): for d in (blk.get("Departures") or []): ...`;
      a block or record that is not a dict raises. */
  function Blocks(v: Json, fallback: string, parse: Parser): (r: Result<seq<Departure>>)
    ensures r.Ok? ==> forall d | d in r.value :: Complete(d)
    ensures !Truthy(v) ==> r == Ok([])
    ensures Truthy(v) && !v.JList? && !v.JObj? && !v.JStr? ==> r == Err("TypeError")
  {
    var blocks :- Iterate(v);
    BlockList(blocks, fallback, parse)
  }

  function BlockList(blocks: seq<Json>, fallback: string, parse: Parser): (r: Result<seq<Departure>>)
    ensures r.Ok? ==> forall d | d in r.value :: Complete(d)
    decreases |blocks|
  {
    if |blocks| == 0 then Ok([])
    else
      var blk :- AsDict(blocks[0]);
      var records :- Iterate(Get(blk, "Departures"));
      var first :- RecordList(records, fallback, parse);
      var rest :- BlockList(blocks[1..], fallback, parse);
      Ok(first + rest)
  }

  function RecordList(records: seq<Json>, fallback: string, parse: Parser): (r: Result<seq<Departure>>)
    ensures r.Ok? ==> forall d | d in r.value :: Complete(d)
    decreases |records|
  {
    if |records| == 0 then Ok([])
    else
      var d :- AsDict(records[0]);
      var rest :- RecordList(records[1..], fallback, parse);
      Ok(OptSeq(MakeRecord(d, fallback, parse)) + rest)
  }

  /** The departures `normalize_departures` collects, before sorting: the
      TRAIN blocks (mode fallback `TREIN`) then the BTMF blocks (`BTMF`) of a
      dict that has either key, else everything the walk finds. */
  function Gathered(dep: Json, parse: Parser): (r: Result<seq<Departure>>)
    ensures r.Ok? ==> forall d | d in r.value :: Complete(d)
    ensures !(dep.JObj? && (HasKey(dep.fields, "TRAIN") || HasKey(dep.fields, "BTMF"))) ==> r.Ok?
  {
    if dep.JObj? && (HasKey(dep.fields, "TRAIN") || HasKey(dep.fields, "BTMF")) then
      var trains :- Blocks(Get(dep.fields, "TRAIN"), "TREIN", parse);
      var others :- Blocks(Get(dep.fields, "BTMF"), "BTMF", parse);
      Ok(trains + others)
    else Ok(Walk(dep, parse))
  }

  function ByTime(d: Departure): int {
    d.time
  }

  /** `normalize_departures(dep_json)`: the gathered departures in stable
      ascending order of time. */
  function Normalize(dep: Json, parse: Parser): (r: Result<seq<Departure>>)
    ensures r.Ok? <==> Gathered(dep, parse).Ok?
    ensures r.Ok? ==> SortedBy(r.value, ByTime)
    ensures r.Ok? ==> multiset(r.value) == multiset(Gathered(dep, parse).value)
    ensures r.Ok? ==> forall t :: WithKey(r.value, ByTime, t) == WithKey(Gathered(dep, parse).value, ByTime, t)
  {
    var g :- Gathered(dep, parse);
    SortByFacts(g, ByTime);
    forall t ensures WithKey(SortBy(g, ByTime), ByTime, t) == WithKey(g, ByTime, t) {
      SortByStable(g, ByTime, t);
    }
    Ok(SortBy(g, ByTime))
  }

  /** Only dicts are departure records to the walk: a list of scalars yields
      nothing. */
  lemma {:induction false} WalkScalars(xs: seq<Json>, parse: Parser)
    requires forall i | 0 <= i < |xs| :: Scalar(xs[i])
    ensures Walk(JList(xs), parse) == []
  {
    WalkScalarItems(xs, JList(xs), parse);
  }

  lemma {:induction false} WalkScalarItems(xs: seq<Json>, parent: Json, parse: Parser)
    requires forall i | 0 <= i < |xs| :: xs[i] < parent && Scalar(xs[i])
    ensures WalkItems(xs, parent, parse) == []
    decreases |xs|
  {
    if |xs| > 0 {
      WalkScalarItems(xs[1..], parent, parse);
    }
  }

  lemma {:induction false} WalkScalarFields(fs: seq<Field>, parent: Json, parse: Parser)
    requires forall i | 0 <= i < |fs| :: fs[i].val < parent && Scalar(fs[i].val)
    ensures WalkFields(fs, parent, parse) == []
    decreases |fs|
  {
    if |fs| > 0 {
      WalkScalarFields(fs[1..], parent, parse);
    }
  }

  /** The walk of one more field adds the walk of its value at the end. */
  lemma {:induction false} WalkFieldsAppend(fs: seq<Field>, f: Field, parent: Json, parse: Parser)
    requires forall i | 0 <= i < |fs| :: fs[i].val < parent
    requires f.val < parent
    ensures WalkFields(fs + [f], parent, parse) == WalkFields(fs, parent, parse) + Walk(f.val, parse)
    decreases |fs|
  {
    if |fs| == 0 {
      assert [f][1..] == [];
    } else {
      assert (fs + [f])[1..] == fs[1..] + [f];
      WalkFieldsAppend(fs[1..], f, parent, parse);
    }
  }

  /** A record whose values are all scalars is read once. */
  lemma {:induction false} WalkFlatRecord(fs: seq<Field>, parse: Parser)
    requires IsRecord(fs) && forall i | 0 <= i < |fs| :: Scalar(fs[i].val)
    ensures Walk(JObj(fs), parse) == OptSeq(MakeRecord(fs, "", parse))
  {
    FieldsBelow(fs);
    WalkScalarFields(fs, JObj(fs), parse);
    var own := OptSeq(MakeRecord(fs, "", parse));
    assert Walk(JObj(fs), parse) == own + WalkFields(fs, JObj(fs), parse);
    assert own + [] == own;
  }

  /** The values of a dict are below the dict, for the walk's termination. */
  lemma {:induction false} FieldsBelow(fs: seq<Field>)
    ensures forall i | 0 <= i < |fs| :: fs[i].val < JObj(fs)
  {
    forall i | 0 <= i < |fs| ensures fs[i].val < JObj(fs) {
      assert fs[i] in fs;
    }
  }

  /** Scalar fields followed by a flat record: the walk of the fields is the
      walk of that record. */
  lemma {:induction false} WalkScalarsThenRecord(outer: seq<Field>, f: Field, inner: seq<Field>, parse: Parser)
    requires f.val == JObj(inner) && IsRecord(inner)
    requires forall i | 0 <= i < |outer| :: Scalar(outer[i].val)
    requires forall i | 0 <= i < |inner| :: Scalar(inner[i].val)
    ensures var node := JObj(outer + [f]);
            (forall i | 0 <= i < |outer + [f]| :: (outer + [f])[i].val < node) &&
            WalkFields(outer + [f], node, parse) == OptSeq(MakeRecord(inner, "", parse))
  {
    var fs := outer + [f];
    var node := JObj(fs);
    FieldsBelow(fs);
    assert forall i | 0 <= i < |outer| :: outer[i].val < node by {
      forall i | 0 <= i < |outer| ensures outer[i].val < node {
        assert fs[i] == outer[i];
      }
    }
    assert f.val < node by {
      assert fs[|outer|] == f;
    }
    WalkFieldsAppend(outer, f, node, parse);
    WalkScalarFields(outer, node, parse);
    WalkFlatRecord(inner, parse);
    assert [] + Walk(f.val, parse) == Walk(f.val, parse);
  }

  /** A record nested as the last value of another record is read after the
      outer one. */
  lemma {:induction false} WalkNested(outer: seq<Field>, key: string, inner: seq<Field>, parse: Parser)
    requires IsRecord(outer + [Field(key, JObj(inner))]) && IsRecord(inner)
    requires forall i | 0 <= i < |outer| :: Scalar(outer[i].val)
    requires forall i | 0 <= i < |inner| :: Scalar(inner[i].val)
    ensures var fs := outer + [Field(key, JObj(inner))];
            Walk(JObj(fs), parse) == OptSeq(MakeRecord(fs, "", parse)) + OptSeq(MakeRecord(inner, "", parse))
  {
    WalkScalarsThenRecord(outer, Field(key, JObj(inner)), inner, parse);
  }

  // ---------------------------------------------------------------------
  // Grouping
  // ---------------------------------------------------------------------

  /** The group name of a mode: `TRAIN`/`TREIN` before `METRO` before `TRAM`
      before `BUS`; any other mode names its own group. */
  function Bucket(mode: string): (r: string)
    ensures Contains(mode, "TRAIN") || Contains(mode, "TREIN") ==> r == "TREIN"
    ensures r == mode || r in ["TREIN", "METRO", "TRAM", "BUS"]
  {
    if Contains(mode, "TRAIN") || Contains(mode, "TREIN") then "TREIN"
    else if Contains(mode, "METRO") then "METRO"
    else if Contains(mode, "TRAM") then "TRAM"
    else if Contains(mode, "BUS") then "BUS"
    else mode
  }

  function GroupOf(d: Departure): string {
    Bucket(d.mode)
  }

  function InGroup(n: string): Departure -> bool {
    (d: Departure) => GroupOf(d) == n
  }

  /** The group names in order of first appearance. */
  function GroupNames(ds: seq<Departure>): (names: seq<string>)
    ensures forall i, j | 0 <= i < j < |names| :: names[i] != names[j]
  {
    var firsts := DedupBy(ds, GroupOf, {});
    seq(|firsts|, i requires 0 <= i < |firsts| => GroupOf(firsts[i]))
  }

  /** `names` and `groups` are the dict `group_by_mode` builds from `ds`. */
  ghost predicate Grouped(ds: seq<Departure>, names: seq<string>, groups: map<string, seq<Departure>>) {
    && names == GroupNames(ds)
    && groups.Keys == (set n | n in names)
    && Filtered(ds, groups)
  }

  /** `group_by_mode(deps)`: the groups as an insertion-ordered dict, given
      as its key order and its mapping. */
  method GroupByMode(ds: seq<Departure>) returns (names: seq<string>, groups: map<string, seq<Departure>>)
    ensures names == GroupNames(ds)
    ensures groups.Keys == set n | n in names
    ensures forall n | n in groups :: groups[n] == Filter(ds, InGroup(n))
    ensures forall d | d in ds :: GroupOf(d) in groups && d in groups[GroupOf(d)]
  {
    names := [];
    groups := map[];
    var i := 0;
    while i < |ds|
      invariant 0 <= i <= |ds|
      invariant Grouped(ds[..i], names, groups)
    {
      var d := ds[i];
      var g := GroupOf(d);
      assert ds[..i + 1] == ds[..i] + [d];
      if g in groups {
        GroupStepOld(ds[..i], d, names, groups);
        groups := groups[g := groups[g] + [d]];
      } else {
        GroupStepNew(ds[..i], d, names, groups);
        names := names + [g];
        groups := groups[g := [d]];
      }
      i := i + 1;
    }
    assert ds[..i] == ds;
    GroupsCover(ds, names, groups);
  }

  /** The names are exactly the groups of the departures seen. */
  lemma {:induction false} GroupNamesCover(ds: seq<Departure>)
    ensures forall n | n in GroupNames(ds) :: exists x | x in ds :: GroupOf(x) == n
    ensures forall x | x in ds :: GroupOf(x) in GroupNames(ds)
  {
    var firsts := DedupBy(ds, GroupOf, {});
    var names := GroupNames(ds);
    forall x | x in ds ensures GroupOf(x) in names {
      DedupByCovers(ds, GroupOf, {}, x);
      var y :| y in firsts && GroupOf(y) == GroupOf(x);
      var k :| 0 <= k < |firsts| && firsts[k] == y;
      assert names[k] == GroupOf(x);
    }
    forall n | n in names ensures exists x | x in ds :: GroupOf(x) == n {
      var k :| 0 <= k < |names| && names[k] == n;
      assert firsts[k] in firsts;
    }
  }

  /** A departure whose group is new appends the group's name. */
  lemma {:induction false} GroupNamesStep(ds: seq<Departure>, d: Departure)
    ensures GroupOf(d) in GroupNames(ds) ==> GroupNames(ds + [d]) == GroupNames(ds)
    ensures GroupOf(d) !in GroupNames(ds) ==> GroupNames(ds + [d]) == GroupNames(ds) + [GroupOf(d)]
  {
    var firsts := DedupBy(ds, GroupOf, {});
    var names := GroupNames(ds);
    GroupNamesCover(ds);
    if GroupOf(d) in names {
      var x :| x in ds && GroupOf(x) == GroupOf(d);
      DedupByDropsRepeat(ds, d, GroupOf, {});
    } else {
      DedupByAppendNew(ds, d, GroupOf, {});
    }
  }

  /** Each group holds the departures of its name. */
  ghost predicate Filtered(ds: seq<Departure>, groups: map<string, seq<Departure>>) {
    forall n | n in groups :: groups[n] == Filter(ds, InGroup(n))
  }

  lemma {:induction false} FilteredStep(ds: seq<Departure>, d: Departure, groups: map<string, seq<Departure>>, gd: seq<Departure>)
    requires Filtered(ds, groups)
    requires gd == Filter(ds, InGroup(GroupOf(d)))
    ensures Filtered(ds + [d], groups[GroupOf(d) := gd + [d]])
  {
    var g := GroupOf(d);
    var groups' := groups[g := gd + [d]];
    forall n | n in groups' ensures groups'[n] == Filter(ds + [d], InGroup(n)) {
      FilterAppend(ds, [d], InGroup(n));
      FilterSingle(d, InGroup(n));
    }
  }

  /** A departure of a group met before extends that group only. */
  lemma {:induction false} GroupStepOld(ds: seq<Departure>, d: Departure, names: seq<string>, groups: map<string, seq<Departure>>)
    requires Grouped(ds, names, groups) && GroupOf(d) in groups
    ensures Grouped(ds + [d], names, groups[GroupOf(d) := groups[GroupOf(d)] + [d]])
  {
    var g := GroupOf(d);
    assert g in names;
    GroupNamesStep(ds, d);
    assert Filtered(ds, groups);
    FilteredStep(ds, d, groups, groups[g]);
  }

  /** A group name not met yet has no departures so far. */
  lemma {:induction false} NewGroupEmpty(ds: seq<Departure>, g: string)
    requires g !in GroupNames(ds)
    ensures Filter(ds, InGroup(g)) == []
  {
    GroupNamesCover(ds);
    FilterNone(ds, InGroup(g));
  }

  /** A departure of a new group opens that group at the end. */
  lemma {:induction false} GroupStepNew(ds: seq<Departure>, d: Departure, names: seq<string>, groups: map<string, seq<Departure>>)
    requires Grouped(ds, names, groups) && GroupOf(d) !in groups
    ensures Grouped(ds + [d], names + [GroupOf(d)], groups[GroupOf(d) := [d]])
  {
    var g := GroupOf(d);
    assert GroupNames(ds + [d]) == names + [g] by {
      assert g !in names;
      GroupNamesStep(ds, d);
    }
    assert (set n | n in names + [g]) == (set n | n in names) + {g};
    assert Filtered(ds + [d], groups[g := [d]]) by {
      NewGroupEmpty(ds, g);
      FilteredStep(ds, d, groups, []);
      assert [] + [d] == [d];
    }
  }

  /** Every departure sits in the group of its own mode. */
  lemma {:induction false} GroupsCover(ds: seq<Departure>, names: seq<string>, groups: map<string, seq<Departure>>)
    requires Grouped(ds, names, groups)
    ensures forall d | d in ds :: GroupOf(d) in groups && d in groups[GroupOf(d)]
  {
    GroupNamesCover(ds);
  }

  /** The group names are their own groups. */
  lemma {:induction false} BucketOfNames()
    ensures Bucket("TREIN") == "TREIN" && Bucket("METRO") == "METRO"
    ensures Bucket("TRAM") == "TRAM" && Bucket("BUS") == "BUS"
  {
    assert IsPrefix("TREIN", "TREIN") && IsPrefix("METRO", "METRO") && IsPrefix("TRAM", "TRAM") && IsPrefix("BUS", "BUS");
    ContainsNotLonger("TRAM", "TRAIN");
    ContainsNotLonger("TRAM", "TREIN");
    ContainsNotLonger("TRAM", "METRO");
    ContainsNotLonger("BUS", "TRAIN");
    ContainsNotLonger("BUS", "TREIN");
    ContainsNotLonger("BUS", "METRO");
    ContainsNotLonger("BUS", "TRAM");
    assert !IsPrefix("TRAIN", "METRO") && !IsPrefix("TREIN", "METRO");
    ContainsNotLonger("ETRO", "TRAIN");
    ContainsNotLonger("ETRO", "TREIN");
  }

  /** Regrouping is stable, a train word wins over every other word, and a
      mode without any of the words is its own group. */
  lemma {:induction false} BucketFacts(mode: string)
    ensures Bucket(Bucket(mode)) == Bucket(mode)
    ensures Contains(mode, "TRAIN") || Contains(mode, "TREIN") ==> Bucket(mode) == "TREIN"
    ensures (!Contains(mode, "TRAIN") && !Contains(mode, "TREIN") && !Contains(mode, "METRO")
             && !Contains(mode, "TRAM") && !Contains(mode, "BUS")) ==> Bucket(mode) == mode
  {
    BucketOfNames();
  }
}
