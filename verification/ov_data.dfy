/** The OVAPI client: realtime departures of a stop area or timing point,
    their readable form, and a journey-planner link. */
module OvData {
  import opened Wrappers
  import opened Text
  import opened Seqs
  import opened Json
  import opened Urls
  import opened Transit

  /** A parsed timestamp in whole seconds. An aware stamp counts from the
      epoch in UTC; a naive one is a wall-clock reading without a zone, read
      as UTC where the source does so. */
  datatype Stamp = Stamp(secs: int, aware: bool)

  /** `datetime.fromisoformat`, as an oracle. */
  type StampParser = string -> Option<Stamp>

  /** One pass at a stop, as `ingest_pass` records it. */
  datatype Departure = Departure(line: string, destination: string, time: Stamp, delaySec: Option<int>,
                                 transportType: Json, operator: Json, platform: Json, realtime: bool,
                                 raw: seq<Field>)

  // ---------------------------------------------------------------------
  // Request
  // ---------------------------------------------------------------------

  /** The `kind` check of `fetch_ovapi_departures`: case and surrounding
      whitespace do not matter; anything else than the two kinds raises
      `ValueError` before a request is made. */
  function CheckKind(kind: string): (r: Result<string>)
    ensures r.Ok? <==> Strip(Lower(kind)) == "stopareacode" || Strip(Lower(kind)) == "tpc"
    ensures r.Ok? ==> r.value == Strip(Lower(kind))
    ensures r.Err? ==> r.error == "ValueError"
  {
    var k := Strip(Lower(kind));
    if k == "stopareacode" || k == "tpc" then Ok(k) else Err("ValueError")
  }

  /** Both kinds are accepted in any case and with padding. */
  lemma {:induction false} CheckKindPadded()
    ensures CheckKind(" TPC ") == Ok("tpc")
  {
    assert Lower(" TPC ") == " tpc ";
    assert SkipSpaces(" tpc ", 0) == 1;
    assert SkipSpacesBack(" tpc ", 5) == 4;
  }

  lemma {:induction false} CheckKindCase()
    ensures CheckKind("StopAreaCode") == Ok("stopareacode")
  {
    assert Lower("StopAreaCode") == "stopareacode";
    StripOfStripped("stopareacode");
  }

  /** A prefix of a kind is not a kind. */
  lemma {:induction false} CheckKindRejects()
    ensures CheckKind("stop") == Err("ValueError")
  {
    assert Lower("stop") == "stop";
    StripOfStripped("stop");
  }

  /** The endpoint; the code is inserted as given. */
  function DeparturesUrl(kind: string, code: string): string {
    "https://v0.ovapi.nl/" + kind + "/" + code + "/departures"
  }

  // ---------------------------------------------------------------------
  // One pass
  // ---------------------------------------------------------------------

  /** `int(v) if v is not None else None`, with every exception turned into
      `None`: booleans count as 0 and 1, strings are read as decimal
      numbers, containers fail. */
  function PyInt(v: Json): (r: Option<int>)
    ensures v.JNull? || v.JList? || v.JObj? ==> r.None?
    ensures v.JInt? ==> r == Some(v.i)
  {
    match v
    case JNull => None
    case JBool(b) => Some(if b then 1 else 0)
    case JInt(i) => Some(i)
    case JStr(s) => ParseInt(s)
    case _ => None
  }

  /** `str(v).strip() or "—"`. */
  function TextOrDash(v: Json): (r: string)
    ensures r != ""
    ensures r == "\U{2014}" || r == Strip(PyStr(v))
    ensures Strip(PyStr(v)) != "" ==> r == Strip(PyStr(v))
  {
    var t := Strip(PyStr(v));
    if t == "" then "\U{2014}" else t
  }

  /** The time text of a pass: expected, then target, then the plain
      departure time (which may be falsy too). */
  function PassTime(p: seq<Field>): Json {
    FirstTruthy([Get(p, "ExpectedDepartureTime"), Get(p, "TargetDepartureTime")], Get(p, "DepartureTime"))
  }

  /** `bool(p.get("IsRealtime") or p.get("Realtime") or (delay is not None))`. */
  predicate Realtime(p: seq<Field>, delay: Option<int>) {
    Truthy(Get(p, "IsRealtime")) || Truthy(Get(p, "Realtime")) || delay.Some?
  }

  function PassLine(p: seq<Field>): string {
    TextOrDash(FirstTruthy([Get(p, "LineNumber"), Get(p, "LinePlanningNumber"), Get(p, "LinePlanningNumber")], JStr("")))
  }

  function PassDestination(p: seq<Field>): string {
    TextOrDash(FirstTruthy([Get(p, "DestinationName50"), Get(p, "DestinationName")], JStr("")))
  }

  function PassOperator(p: seq<Field>): Json {
    FirstTruthy([Get(p, "DataOwnerCode")], Get(p, "Operator"))
  }

  function PassPlatform(p: seq<Field>): Json {
    FirstTruthy([Get(p, "TargetPlatform"), Get(p, "ActualPlatform"), Get(p, "Platform")], JNull)
  }

  /** `ingest_pass(p)`: a pass without a usable time is skipped. */
  function IngestPass(p: seq<Field>, parse: StampParser): (r: Option<Departure>)
    ensures r.None? <==> ToDt(PassTime(p), parse).None?
    ensures r.Some? ==> r.value.time == ToDt(PassTime(p), parse).value && r.value.raw == p
    ensures r.Some? ==> r.value.line != "" && r.value.destination != ""
    ensures r.Some? ==> r.value.delaySec == PyInt(Get(p, "DelaySeconds"))
    ensures r.Some? ==> (r.value.realtime <==> Truthy(Get(p, "IsRealtime")) || Truthy(Get(p, "Realtime")) || r.value.delaySec.Some?)
    ensures r.Some? ==> r.value.operator == PassOperator(p) && r.value.platform == PassPlatform(p)
  {
    var t := ToDt(PassTime(p), parse);
    if t.None? then None
    else
      var delay := PyInt(Get(p, "DelaySeconds"));
      Some(Departure(PassLine(p), PassDestination(p), t.value, delay, Get(p, "TransportType"),
                     PassOperator(p), PassPlatform(p), Realtime(p, delay), p))
  }

  /** A delay written as decimal digits is read as that number. */
  lemma {:induction false} PyIntDigits(digits: string)
    requires digits != "" && AllDigits(digits)
    ensures PyInt(JStr(digits)) == Some(DigitsValue(digits) as int)
  {
    assert !IsSpace(digits[0]) && !IsSpace(digits[|digits| - 1]);
    StripOfStripped(digits);
  }

  /** A reported delay marks the pass as realtime, whatever the flags say,
      and the delay is read from its text. */
  lemma {:induction false} DelayMeansRealtime(p: seq<Field>, parse: StampParser, digits: string)
    requires IngestPass(p, parse).Some?
    requires Get(p, "DelaySeconds") == JStr(digits) && digits != "" && AllDigits(digits)
    ensures IngestPass(p, parse).value.realtime
    ensures IngestPass(p, parse).value.delaySec == Some(DigitsValue(digits) as int)
  {
    PyIntDigits(digits);
  }

  /** The platform falls back to `None` only when none of the three fields
      is set, and the operator to the `Operator` field. */
  lemma {:induction false} PassFallbacks(p: seq<Field>, parse: StampParser)
    requires IngestPass(p, parse).Some?
    ensures !Truthy(Get(p, "TargetPlatform")) && !Truthy(Get(p, "ActualPlatform")) && !Truthy(Get(p, "Platform")) ==>
              IngestPass(p, parse).value.platform == JNull
    ensures Truthy(Get(p, "TargetPlatform")) ==> IngestPass(p, parse).value.platform == Get(p, "TargetPlatform")
    ensures !Truthy(Get(p, "DataOwnerCode")) ==> IngestPass(p, parse).value.operator == Get(p, "Operator")
  {
    FirstTruthy3(Get(p, "TargetPlatform"), Get(p, "ActualPlatform"), Get(p, "Platform"), JNull);
    assert [Get(p, "DataOwnerCode")][1..] == [];
  }

  // ---------------------------------------------------------------------
  // The walk
  // ---------------------------------------------------------------------

  function OptSeq<T>(o: Option<T>): seq<T> {
    if o.Some? then [o.value] else []
  }

  /** The departures one entry of the passes dict contributes. */
  /** What `ingest_pass` guarantees of every departure it appends: the time
      parsed from its own pass, and a line and destination to show. */
  predicate FromPass(d: Departure, parse: StampParser) {
    ToDt(PassTime(d.raw), parse) == Some(d.time) && d.line != "" && d.destination != ""
  }

  function IngestOne(f: Field, parse: StampParser): (r: seq<Departure>)
    ensures forall d | d in r :: FromPass(d, parse)
  {
    if f.val.JObj? then OptSeq(IngestPass(f.val.fields, parse)) else []
  }

  /** `for _k, p in passes.items(): if isinstance(p, dict): ingest_pass(p)`. */
  function IngestAll(passes: seq<Field>, parse: StampParser): (r: seq<Departure>)
    ensures |r| <= |passes|
    ensures forall d | d in r :: exists i | 0 <= i < |passes| :: passes[i].val == JObj(d.raw)
    ensures forall d | d in r :: FromPass(d, parse)
    decreases |passes|
  {
    if |passes| == 0 then []
    else
      var first := IngestOne(passes[0], parse);
      var rest := IngestAll(passes[1..], parse);
      assert forall d | d in rest :: exists i | 0 <= i < |passes| :: passes[i].val == JObj(d.raw) by {
        forall d | d in rest ensures exists i | 0 <= i < |passes| :: passes[i].val == JObj(d.raw) {
          var i :| 0 <= i < |passes[1..]| && passes[1..][i].val == JObj(d.raw);
          assert passes[i + 1].val == JObj(d.raw);
        }
      }
      first + rest
  }

  /** Ingesting two runs of passes gives the departures of the first run
      followed by those of the second. */
  lemma {:induction false} IngestAllAppend(a: seq<Field>, b: seq<Field>, parse: StampParser)
    ensures IngestAll(a + b, parse) == IngestAll(a, parse) + IngestAll(b, parse)
    decreases |a|
  {
    if |a| == 0 {
      assert a + b == b;
    } else {
      assert (a + b)[0] == a[0] && (a + b)[1..] == a[1..] + b;
      IngestAllAppend(a[1..], b, parse);
      assert IngestAll(a + b, parse) == IngestOne(a[0], parse) + IngestAll(a[1..] + b, parse);
    }
  }

  /** When every pass gives one departure, the departures are those of the
      passes, one each and in order. */
  lemma {:induction false} IngestAllEvery(passes: seq<Field>, parse: StampParser)
    requires forall i | 0 <= i < |passes| :: |IngestOne(passes[i], parse)| == 1
    ensures var r := IngestAll(passes, parse);
            |r| == |passes| && forall i | 0 <= i < |passes| :: IngestOne(passes[i], parse) == [r[i]]
    decreases |passes|
  {
    if |passes| > 0 {
      IngestAllEvery(passes[1..], parse);
      IngestAllCons(passes, parse);
      var r := IngestAll(passes, parse);
      var rest := IngestAll(passes[1..], parse);
      forall i | 1 <= i < |passes| ensures IngestOne(passes[i], parse) == [r[i]] {
        assert r[i] == rest[i - 1] && passes[1..][i - 1] == passes[i];
      }
    }
  }

  lemma IngestAllCons(passes: seq<Field>, parse: StampParser)
    requires |passes| > 0
    ensures IngestAll(passes, parse) == IngestOne(passes[0], parse) + IngestAll(passes[1..], parse)
  {
  }

  /** The passes found directly under a dict node. */
  function PassesOf(fs: seq<Field>, parse: StampParser): (r: seq<Departure>)
    ensures forall d | d in r :: FromPass(d, parse)
  {
    if HasKey(fs, "Passes") && Get(fs, "Passes").JObj? then IngestAll(Get(fs, "Passes").fields, parse) else []
  }

  /** `walk(node)`: every dict's `Passes` dict is ingested before the dict's
      values are walked in order; lists are walked item by item. */
  function Walk(node: Json, parse: StampParser): (r: seq<Departure>)
    ensures forall d | d in r :: FromPass(d, parse)
    ensures !node.JObj? && !node.JList? ==> r == []
    decreases node, 1
  {
    match node
    case JObj(fs) => PassesOf(fs, parse) + WalkFields(fs, node, parse)
    case JList(xs) => WalkItems(xs, node, parse)
    case _ => []
  }

  function WalkItems(xs: seq<Json>, ghost parent: Json, parse: StampParser): (r: seq<Departure>)
    requires forall i | 0 <= i < |xs| :: xs[i] < parent
    ensures forall d | d in r :: FromPass(d, parse)
    decreases parent, 0, |xs|
  {
    if |xs| == 0 then [] else Walk(xs[0], parse) + WalkItems(xs[1..], parent, parse)
  }

  function WalkFields(fs: seq<Field>, ghost parent: Json, parse: StampParser): (r: seq<Departure>)
    requires forall i | 0 <= i < |fs| :: fs[i].val < parent
    ensures forall d | d in r :: FromPass(d, parse)
    decreases parent, 0, |fs|
  {
    if |fs| == 0 then [] else Walk(fs[0].val, parse) + WalkFields(fs[1..], parent, parse)
  }

  /** A dict holding only scalars and no `Passes` yields nothing. */
  predicate FlatPass(j: Json) {
    j.JObj? && !HasKey(j.fields, "Passes") && forall i | 0 <= i < |j.fields| :: Scalar(j.fields[i].val)
  }

  /** Fields holding only scalars and flat passes yield nothing: the walk
      descends one level into each flat pass and finds scalars there. */
  lemma {:induction false} WalkFlatFields(fs: seq<Field>, parent: Json, parse: StampParser)
    requires forall i | 0 <= i < |fs| :: fs[i].val < parent && (Scalar(fs[i].val) || FlatPass(fs[i].val))
    ensures WalkFields(fs, parent, parse) == []
    decreases parent, |fs|
  {
    if |fs| > 0 {
      var v := fs[0].val;
      if v.JObj? {
        WalkFlatFields(v.fields, v, parse);
      }
      WalkFlatFields(fs[1..], parent, parse);
    }
  }

  lemma {:induction false} WalkFieldsSingle(f: Field, parent: Json, parse: StampParser)
    requires f.val < parent
    ensures WalkFields([f], parent, parse) == Walk(f.val, parse)
  {
    assert [f][1..] == [];
  }

  /** A dict with one field that is not `Passes` walks as its value. */
  lemma {:induction false} WalkWrapper(code: string, v: Json, parse: StampParser)
    requires code != "Passes"
    ensures Walk(JObj([Field(code, v)]), parse) == Walk(v, parse)
  {
    var outer := JObj([Field(code, v)]);
    assert Field(code, v) in outer.fields;
    assert PassesOf(outer.fields, parse) == [];
    WalkFieldsSingle(Field(code, v), outer, parse);
  }

  /** `{"Passes": ps}` ingests the passes and then walks them again. */
  lemma {:induction false} WalkPassesNode(passes: seq<Field>, parse: StampParser)
    ensures Walk(JObj([Field("Passes", JObj(passes))]), parse) == IngestAll(passes, parse) + Walk(JObj(passes), parse)
  {
    var ps := JObj(passes);
    var inner := JObj([Field("Passes", ps)]);
    assert inner.fields[0].key == "Passes";
    GetAt(inner.fields, "Passes", 0);
    assert PassesOf(inner.fields, parse) == IngestAll(passes, parse);
    WalkFieldsSingle(Field("Passes", ps), inner, parse);
  }

  /** The passes dict itself, walked as a value, yields nothing more. */
  lemma {:induction false} WalkPassDict(passes: seq<Field>, parse: StampParser)
    requires !HasKey(passes, "Passes")
    requires forall i | 0 <= i < |passes| :: FlatPass(passes[i].val)
    ensures Walk(JObj(passes), parse) == []
  {
    WalkFlatFields(passes, JObj(passes), parse);
  }

  /** The `tpc` response shape `{code: {"Passes": {...}}}`: each pass is
      ingested exactly once, in order, though the walk visits it twice. */
  lemma {:induction false} WalkTimingPoint(code: string, passes: seq<Field>, parse: StampParser)
    requires code != "Passes" && !HasKey(passes, "Passes")
    requires forall i | 0 <= i < |passes| :: FlatPass(passes[i].val)
    ensures Walk(JObj([Field(code, JObj([Field("Passes", JObj(passes))]))]), parse) == IngestAll(passes, parse)
  {
    WalkWrapper(code, JObj([Field("Passes", JObj(passes))]), parse);
    WalkPassesNode(passes, parse);
    WalkPassDict(passes, parse);
  }

  // ---------------------------------------------------------------------
  // Sorting
  // ---------------------------------------------------------------------

  /** Naive and aware stamps cannot be compared. */
  predicate Mixed(ds: seq<Departure>) {
    exists i, j | 0 <= i < |ds| && 0 <= j < |ds| :: ds[i].time.aware && !ds[j].time.aware
  }

  function BySecs(d: Departure): int {
    d.time.secs
  }

  /** `deps.sort(key=lambda d: d.departure_time)`: a stable sort; a list
      mixing naive and aware times raises `TypeError`, since a sort that
      orders both kinds has to compare one of each. */
  function SortPasses(ds: seq<Departure>): (r: Result<seq<Departure>>)
    ensures r.Err? <==> Mixed(ds)
    ensures r.Err? ==> r.error == "TypeError"
    ensures r.Ok? ==> SortedBy(r.value, BySecs) && multiset(r.value) == multiset(ds)
    ensures r.Ok? ==> forall t :: WithKey(r.value, BySecs, t) == WithKey(ds, BySecs, t)
  {
    if Mixed(ds) then Err("TypeError")
    else
      SortByFacts(ds, BySecs);
      forall t ensures WithKey(SortBy(ds, BySecs), BySecs, t) == WithKey(ds, BySecs, t) {
        SortByStable(ds, BySecs, t);
      }
      Ok(SortBy(ds, BySecs))
  }

  /** `fetch_ovapi_departures(code, kind)`: the sorted departures and the
      raw response. */
  function FetchDepartures(code: string, kind: string, server: Server, parse: StampParser): (r: Call<(seq<Departure>, Json)>)
    ensures CheckKind(kind).Err? ==> r == Call(Err("ValueError"), [])
    ensures CheckKind(kind).Ok? ==> r.urls == [DeparturesUrl(CheckKind(kind).value, code)]
    ensures r.result.Ok? ==>
              var data := server(DeparturesUrl(CheckKind(kind).value, code));
              data.Ok? && r.result.value.1 == data.value
              && SortedBy(r.result.value.0, BySecs)
              && multiset(r.result.value.0) == multiset(Walk(data.value, parse))
  {
    match CheckKind(kind)
    case Err(e) => Call(Err(e), [])
    case Ok(k) =>
      var url := DeparturesUrl(k, code);
      var data := server(url);
      if data.Err? then Call(Err(data.error), [url])
      else
        var sorted := SortPasses(Walk(data.value, parse));
        if sorted.Err? then Call(Err(sorted.error), [url])
        else Call(Ok((sorted.value, data.value)), [url])
  }

  // ---------------------------------------------------------------------
  // Presentation
  // ---------------------------------------------------------------------

  /** `human_departure(d, now)` with `now` in UTC seconds and `hhmm` the
      local wall-clock rendering of an instant; a naive time is read as UTC. */
  function HumanDeparture(t: Stamp, now: int, hhmm: int -> string): (r: string)
    ensures t.secs - now >= -30 ==>
              exists m: nat :: && r == hhmm(t.secs) + " (over " + NatToString(m) + " min)"
                               && -60 <= 2 * (t.secs - now - 60 * m) <= 60
                               && (2 * (t.secs - now - 60 * m) == 60 || 2 * (t.secs - now - 60 * m) == -60 ==> m % 2 == 0)
    ensures t.secs - now < -30 ==>
              exists m: nat :: && m > 0 && r == hhmm(t.secs) + " (" + NatToString(m) + " min geleden)"
                               && -60 <= 2 * (now - t.secs - 60 * m) <= 60
                               && (2 * (now - t.secs - 60 * m) == 60 || 2 * (now - t.secs - 60 * m) == -60 ==> m % 2 == 0)
  {
    var mins := MinsUntil(t.secs, now);
    assert mins % 2 == 0 <==> (-mins) % 2 == 0;
    if mins >= 0 then hhmm(t.secs) + " (over " + IntToString(mins) + " min)"
    else hhmm(t.secs) + " (" + IntToString(-mins) + " min geleden)"
  }

  /** Ninety seconds ahead reads as two minutes, and thirty as none. */
  lemma {:induction false} HumanDepartureExamples(hhmm: int -> string)
    ensures HumanDeparture(Stamp(90, true), 0, hhmm) == hhmm(90) + " (over " + "2" + " min)"
    ensures HumanDeparture(Stamp(30, false), 0, hhmm) == hhmm(30) + " (over " + "0" + " min)"
    ensures HumanDeparture(Stamp(0, true), 150, hhmm) == hhmm(0) + " (" + "2" + " min geleden)"
  {
    MinsUntilExamples();
    assert IntToString(2) == "2" by { assert NatToString(2) == [DigitChar(2)]; }
    assert IntToString(0) == "0" by { assert NatToString(0) == [DigitChar(0)]; }
  }

  /** 90 s ahead rounds to 2 minutes, 30 s ahead to 0 and 150 s ago to -2. */
  lemma {:induction false} MinsUntilExamples()
    ensures MinsUntil(90, 0) == 2 && MinsUntil(30, 0) == 0 && MinsUntil(0, 150) == -2
  {
    RoundDivUnique(90, 60, 2);
    RoundDivUnique(30, 60, 0);
    RoundDivUnique(-150, 60, -2);
  }


  const PLANNER: string := "https://9292.nl/reisadvies"

  /** `build_9292_link(from_q, to_q)`: both fields form-encoded. */
  function Build9292Link(from: string, to: string): (r: string)
    ensures IsPrefix(PLANNER + "?van=", r)
    ensures ' ' !in r
  {
    PLANNER + "?" + "van=" + QuotePlus(from) + "&" + "naar=" + QuotePlus(to)
  }

  /** Reads a planner link back into its two fields. */
  function Parse9292Link(link: string): Option<(string, string)> {
    var head := PLANNER + "?van=";
    if !IsPrefix(head, link) then None
    else match SplitFirst(link[|head|..], '&')
      case None => None
      case Some((a, rest)) =>
        if !IsPrefix("naar=", rest) then None
        else match (UnquotePlus(a), UnquotePlus(rest[5..]))
          case (Some(f), Some(t)) => Some((f, t))
          case _ => None
  }

  /** The link is the fixed head, the encoded origin, `&` and the rest. */
  lemma {:induction false} Build9292LinkShape(from: string, to: string)
    ensures var head := PLANNER + "?van=";
            var link := Build9292Link(from, to);
            IsPrefix(head, link) && link[|head|..] == QuotePlus(from) + ['&'] + ("naar=" + QuotePlus(to))
  {
    var head := PLANNER + "?van=";
    var rest := QuotePlus(from) + ['&'] + ("naar=" + QuotePlus(to));
    assert Build9292Link(from, to) == head + rest;
  }

  /** The link carries both fields exactly, whatever characters they hold. */
  lemma {:induction false} Build9292LinkRoundTrip(from: string, to: string)
    ensures Parse9292Link(Build9292Link(from, to)) == Some((from, to))
  {
    var head := PLANNER + "?van=";
    var tail := "naar=" + QuotePlus(to);
    var rest := QuotePlus(from) + ['&'] + tail;
    Build9292LinkShape(from, to);
    assert SplitFirst(rest, '&') == Some((QuotePlus(from), tail)) by {
      QuotePlusSafe(from);
      SplitFirstAt(rest, '&', QuotePlus(from), tail);
    }
    assert IsPrefix("naar=", tail) && tail[5..] == QuotePlus(to);
    QuotePlusRoundTrip(from);
    QuotePlusRoundTrip(to);
  }
}
