/** The OV Info page: stop search results shaped into a pick list with
    unique labels, the throttled live search, and the departures table. */
module OvInfo {
  import opened Wrappers
  import opened Text
  import opened Json
  import opened Transit
  import OvApi

  // ---------------------------------------------------------------------
  // Labels
  // ---------------------------------------------------------------------

  /** `_stop_label(stop)`: `name (code)`, with ` — town` after the name when
      the stop has a town. */
  function StopLabel(stop: seq<Field>): (r: string)
    ensures |r| > 0 && r[|r| - 1] == ')'
    ensures !Truthy(Get(stop, "Town")) ==>
              r == StopName(stop) + " (" + PyStr(FirstTruthy([Get(stop, "StopCode")], JStr(""))) + ")"
    ensures Truthy(Get(stop, "Town")) ==>
              r == StopName(stop) + " \U{2014} " + PyStr(Get(stop, "Town")) + " (" + PyStr(FirstTruthy([Get(stop, "StopCode")], JStr(""))) + ")"
  {
    var town := FirstTruthy([Get(stop, "Town")], JStr(""));
    var code := PyStr(FirstTruthy([Get(stop, "StopCode")], JStr("")));
    if !Truthy(town) then StopName(stop) + " (" + code + ")"
    else StopName(stop) + " \U{2014} " + PyStr(town) + " (" + code + ")"
  }

  /** The name part of a label. */
  function StopName(stop: seq<Field>): (r: string)
    ensures r != ""
    ensures !Truthy(Get(stop, "ScheduleName")) && !Truthy(Get(stop, "StopName")) ==> r == "Onbekende halte"
  {
    var name := FirstTruthy([Get(stop, "ScheduleName"), Get(stop, "StopName")], JStr("Onbekende halte"));
    PyStrEmpty(name);
    PyStr(name)
  }

  /** A stop with neither name field is called `Onbekende halte`; with only
      a `StopName`, that name is used. */
  lemma {:induction false} StopNameFallback(stop: seq<Field>, name: string)
    requires !Truthy(Get(stop, "ScheduleName")) && Get(stop, "StopName") == JStr(name) && name != ""
    ensures StopName(stop) == name
  {
    FirstTruthy2(Get(stop, "ScheduleName"), Get(stop, "StopName"), JStr("Onbekende halte"));
  }

  // ---------------------------------------------------------------------
  // Unique labels
  // ---------------------------------------------------------------------

  /** The label of the k-th stop sharing a label: the second and later get
      `  #k`. */
  function Tag(name: string, k: nat): string {
    if k > 1 then name + "  #" + NatToString(k) else name
  }

  /** How often `x` occurs in `s`. */
  function Occurrences(s: seq<string>, x: string): nat {
    multiset(s)[x]
  }

  function CountOf(counts: map<string, nat>, x: string): nat {
    if x in counts then counts[x] else 0
  }

  /** Extending the prefix by one element counts that element once more. */
  lemma {:induction false} OccurrencesStep(s: seq<string>, i: nat)
    requires i < |s|
    ensures forall x :: Occurrences(s[..i + 1], x) == Occurrences(s[..i], x) + if x == s[i] then 1 else 0
  {
    assert s[..i + 1] == s[..i] + [s[i]];
  }

  /** The labels-to-options loop of the search tab: each label is tagged
      with its occurrence count so far. */
  method SuffixLabels(labels: seq<string>) returns (out: seq<string>)
    ensures |out| == |labels|
    ensures forall i | 0 <= i < |labels| :: out[i] == Tag(labels[i], Occurrences(labels[..i + 1], labels[i]))
  {
    out := [];
    var counts: map<string, nat> := map[];
    var i := 0;
    while i < |labels|
      invariant 0 <= i <= |labels|
      invariant |out| == i
      invariant forall x :: Occurrences(labels[..i], x) == CountOf(counts, x)
      invariant forall k | 0 <= k < i :: out[k] == Tag(labels[k], Occurrences(labels[..k + 1], labels[k]))
    {
      var l := labels[i];
      var c := CountOf(counts, l) + 1;
      OccurrencesStep(labels, i);
      var counts' := counts[l := c];
      assert forall x :: Occurrences(labels[..i + 1], x) == CountOf(counts', x) by {
        forall x ensures Occurrences(labels[..i + 1], x) == CountOf(counts', x) {
          assert CountOf(counts', x) == CountOf(counts, x) + if x == l then 1 else 0;
        }
      }
      var out' := out + [Tag(l, c)];
      assert forall k | 0 <= k < i + 1 :: out'[k] == Tag(labels[k], Occurrences(labels[..k + 1], labels[k])) by {
        forall k | 0 <= k < i + 1 ensures out'[k] == Tag(labels[k], Occurrences(labels[..k + 1], labels[k])) {
          if k < i { assert out'[k] == out[k]; }
        }
      }
      counts, out, i := counts', out', i + 1;
    }
  }

  /** A label that ends in `)` cannot be mistaken for a tagged one, and a
      tag can be read back. */
  lemma {:induction false} TagInjective(l1: string, k1: nat, l2: string, k2: nat)
    requires |l1| > 0 && l1[|l1| - 1] == ')' && |l2| > 0 && l2[|l2| - 1] == ')'
    requires k1 >= 1 && k2 >= 1
    requires Tag(l1, k1) == Tag(l2, k2)
    ensures l1 == l2 && k1 == k2
  {
    var s := Tag(l1, k1);
    if k1 > 1 && k2 > 1 {
      var n1 := NatToString(k1);
      var n2 := NatToString(k2);
      var h1 := l1 + "  #";
      var h2 := l2 + "  #";
      assert s == h1 + n1 && s == h2 + n2;
      HashBeforeDigits(h1, n1, h2, n2);
      assert n1 == s[|h1|..] == n2;
      assert l1 == s[..|l1|] == l2;
      DigitsOfNat(k1);
      DigitsOfNat(k2);
    }
  }

  /** Two ways of writing one text as a `#`-ended head and a digit tail
      split it at the same place. */
  lemma {:induction false} HashBeforeDigits(h1: string, n1: string, h2: string, n2: string)
    requires |h1| > 0 && h1[|h1| - 1] == '#' && |h2| > 0 && h2[|h2| - 1] == '#'
    requires AllDigits(n1) && AllDigits(n2)
    requires h1 + n1 == h2 + n2
    ensures |n1| == |n2|
  {
    var s := h1 + n1;
    assert s[|h1| - 1] == '#' && s[|h2| - 1] == '#';
    assert forall k | |h1| <= k < |s| :: IsDigit(s[k]) by {
      forall k | |h1| <= k < |s| ensures IsDigit(s[k]) { assert s[k] == n1[k - |h1|]; }
    }
    assert forall k | |h2| <= k < |s| :: IsDigit(s[k]) by {
      forall k | |h2| <= k < |s| ensures IsDigit(s[k]) { assert s[k] == (h2 + n2)[k] == n2[k - |h2|]; }
    }
  }

  lemma {:induction false} TagsDiffer(l1: string, k1: nat, l2: string, k2: nat)
    requires Closed(l1) && Closed(l2)
    requires k1 >= 1 && k2 >= 1
    requires l1 != l2 || k1 != k2
    ensures Tag(l1, k1) != Tag(l2, k2)
  {
    if Tag(l1, k1) == Tag(l2, k2) {
      TagInjective(l1, k1, l2, k2);
    }
  }

  lemma {:induction false} OccurrencesPositive(s: seq<string>, i: nat)
    requires i < |s|
    ensures Occurrences(s[..i + 1], s[i]) >= 1
  {
    assert s[..i + 1][i] == s[i];
  }

  /** A later occurrence of the same label has a higher count. */
  lemma {:induction false} OccurrencesGrow(labels: seq<string>, i: nat, j: nat)
    requires i < j < |labels| && labels[i] == labels[j]
    ensures Occurrences(labels[..i + 1], labels[i]) < Occurrences(labels[..j + 1], labels[j])
  {
    assert labels[..j + 1] == labels[..i + 1] + labels[i + 1..j + 1];
    assert labels[j] in labels[i + 1..j + 1];
  }

  /** A label ending in `)`, as every `_stop_label` result does. */
  predicate Closed(l: string) {
    |l| > 0 && l[|l| - 1] == ')'
  }

  /** `out[i]` is the `i`-th label tagged with its count so far. */
  predicate TaggedAt(labels: seq<string>, out: seq<string>, i: nat)
    requires i < |labels| && i < |out|
  {
    out[i] == Tag(labels[i], Occurrences(labels[..i + 1], labels[i]))
  }

  lemma {:induction false} TaggedPairDiffers(labels: seq<string>, out: seq<string>, i: nat, j: nat)
    requires i < j < |labels| == |out|
    requires Closed(labels[i]) && Closed(labels[j])
    requires TaggedAt(labels, out, i) && TaggedAt(labels, out, j)
    ensures out[i] != out[j]
  {
    var ki := Occurrences(labels[..i + 1], labels[i]);
    var kj := Occurrences(labels[..j + 1], labels[j]);
    OccurrencesPositive(labels, i);
    OccurrencesPositive(labels, j);
    if labels[i] == labels[j] {
      OccurrencesGrow(labels, i, j);
    }
    TagsDiffer(labels[i], ki, labels[j], kj);
  }

  /** When every label ends in `)`, as `_stop_label` guarantees, the tagged
      labels are pairwise different, so no stop is lost from the pick list. */
  lemma {:induction false} SuffixedDistinct(labels: seq<string>, out: seq<string>)
    requires forall i | 0 <= i < |labels| :: Closed(labels[i])
    requires |out| == |labels|
    requires forall i | 0 <= i < |labels| :: TaggedAt(labels, out, i)
    ensures forall i, j | 0 <= i < j < |out| :: out[i] != out[j]
  {
    forall i, j | 0 <= i < j < |out| ensures out[i] != out[j] {
      TaggedPairDiffers(labels, out, i, j);
    }
  }

  lemma {:induction false} TagExtends(name: string, k: nat)
    ensures IsPrefix(name, Tag(name, k))
  {
    if k > 1 {
      assert Tag(name, k)[..|name|] == name;
    }
  }

  /** The pick list of the search tab: one distinct label per stop, in
      result order. */
  method PickList(stops: seq<seq<Field>>) returns (labels: seq<string>)
    ensures |labels| == |stops|
    ensures forall i, j | 0 <= i < j < |labels| :: labels[i] != labels[j]
    ensures forall i | 0 <= i < |stops| :: IsPrefix(StopLabel(stops[i]), labels[i])
  {
    var plain := seq(|stops|, i requires 0 <= i < |stops| => StopLabel(stops[i]));
    labels := SuffixLabels(plain);
    SuffixedDistinct(plain, labels);
    forall i | 0 <= i < |stops| ensures IsPrefix(StopLabel(stops[i]), labels[i]) {
      TagExtends(plain[i], Occurrences(plain[..i + 1], plain[i]));
    }
  }

  // ---------------------------------------------------------------------
  // Search results
  // ---------------------------------------------------------------------

  /** One list item as a record: dicts as they are, non-blank strings as a
      stop name. */
  function AsRecord(item: Json): (r: Option<seq<Field>>)
    ensures item.JObj? ==> r == Some(item.fields)
    ensures item.JStr? && !IsBlank(item.s) ==> r == Some([Field("StopName", JStr(Strip(item.s)))])
    ensures !item.JObj? && !(item.JStr? && !IsBlank(item.s)) ==> r.None?
  {
    if item.JObj? then Some(item.fields)
    else if item.JStr? then
      StripBlankIsEmpty(item.s);
      if Strip(item.s) != "" then Some([Field("StopName", JStr(Strip(item.s)))]) else None
    else None
  }

  function Records(items: seq<Json>): (r: seq<seq<Field>>)
    ensures |r| <= |items|
    decreases |items|
  {
    if |items| == 0 then []
    else
      var rest := Records(items[1..]);
      match AsRecord(items[0])
      case Some(rec) => [rec] + rest
      case None => rest
  }

  /** The search answer unwrapped: a dict is replaced by its `Stops`,
      `results` or `stops` value, else `[]`. */
  function Unwrap(raw: Json): (r: Json)
    ensures !raw.JObj? ==> r == raw
    ensures raw.JObj? ==> Truthy(r) || r == JList([])
    ensures raw.JObj? && Truthy(Get(raw.fields, "Stops")) ==> r == Get(raw.fields, "Stops")
  {
    if raw.JObj? then FirstTruthy([Get(raw.fields, "Stops"), Get(raw.fields, "results"), Get(raw.fields, "stops")], JList([]))
    else raw
  }

  /** The normalisation after a search: always a list of records. */
  function NormalizeRaw(raw: Json): (r: seq<seq<Field>>)
    ensures Unwrap(raw).JList? ==> r == Records(Unwrap(raw).items)
    ensures Unwrap(raw).JStr? && !IsBlank(Unwrap(raw).s) ==> r == [[Field("StopName", JStr(Strip(Unwrap(raw).s)))]]
    ensures !Unwrap(raw).JList? && !Unwrap(raw).JStr? ==> r == []
  {
    var v := Unwrap(raw);
    if v.JList? then Records(v.items)
    else if v.JStr? then
      StripBlankIsEmpty(v.s);
      if Strip(v.s) != "" then [[Field("StopName", JStr(Strip(v.s)))]] else []
    else []
  }

  /** Only dicts and non-blank strings survive, in order. */
  lemma {:induction false} RecordsKeepDicts(items: seq<Json>)
    requires forall i | 0 <= i < |items| :: items[i].JObj?
    ensures |Records(items)| == |items|
    ensures forall i | 0 <= i < |items| :: Records(items)[i] == items[i].fields
    decreases |items|
  {
    if |items| > 0 {
      RecordsKeepDicts(items[1..]);
      assert forall i | 1 <= i < |items| :: items[1..][i - 1] == items[i];
    }
  }

  lemma {:induction false} RecordsDropScalars(items: seq<Json>)
    requires forall i | 0 <= i < |items| :: !items[i].JObj? && !items[i].JStr?
    ensures Records(items) == []
    decreases |items|
  {
    if |items| > 0 {
      RecordsDropScalars(items[1..]);
    }
  }

  /** A dict answer with a `Stops` list is read through it. */
  lemma {:induction false} UnwrapStops(items: seq<Json>, more: seq<Field>)
    requires items != []
    ensures NormalizeRaw(JObj([Field("Stops", JList(items))] + more)) == Records(items)
  {
    var fs := [Field("Stops", JList(items))] + more;
    assert fs[0].key == "Stops";
    GetAt(fs, "Stops", 0);
    FirstTruthy3(Get(fs, "Stops"), Get(fs, "results"), Get(fs, "stops"), JList([]));
  }

  // ---------------------------------------------------------------------
  // Live search
  // ---------------------------------------------------------------------

  /** What the page remembers between reruns; times in milliseconds. */
  datatype SearchState = SearchState(lastQuery: string, lastMs: int, results: seq<seq<Field>>)

  /** The automatic search while typing: at least two characters, a new
      query, and more than 450 ms since the last search. */
  predicate ShouldSearch(q: string, st: SearchState, nowMs: int) {
    q != "" && |q| >= 2 && q != st.lastQuery && nowMs - st.lastMs > 450
  }

  /** A search runs on the button with a query, or automatically. */
  predicate Triggered(q: string, go: bool, st: SearchState, nowMs: int) {
    (go && q != "") || ShouldSearch(q, st, nowMs)
  }

  /** The answer of the smart stop search for the stripped text. */
  function Answer(q: string, key: Option<string>, server: Server): Result<Json> {
    OvApi.SearchStopsSmart(q, key, server).result
  }

  /** One rerun of the search tab with the typed text, the button state, the
      time of the rerun and the time the search finished. A successful search
      records its query and finishing time; a failed one only clears the
      results. */
  function Rerun(st: SearchState, input: string, go: bool, nowMs: int, doneMs: int,
                 key: Option<string>, server: Server): (r: SearchState)
    ensures !Triggered(Strip(input), go, st, nowMs) ==> r == st
    ensures Triggered(Strip(input), go, st, nowMs) && Answer(Strip(input), key, server).Ok? ==>
              r == SearchState(Strip(input), doneMs, NormalizeRaw(Answer(Strip(input), key, server).value))
    ensures Triggered(Strip(input), go, st, nowMs) && Answer(Strip(input), key, server).Err? ==>
              r == st.(results := [])
  {
    var q := Strip(input);
    if !Triggered(q, go, st, nowMs) then st
    else match Answer(q, key, server)
      case Ok(raw) => SearchState(q, doneMs, NormalizeRaw(raw))
      case Err(_) => st.(results := [])
  }

  /** After a successful search the same text is not searched again until
      the button is pressed. */
  lemma {:induction false} NoRepeatWithoutButton(st: SearchState, input: string, go: bool, t1: int, d1: int, t2: int, d2: int,
                              key: Option<string>, server: Server)
    requires Triggered(Strip(input), go, st, t1) && Answer(Strip(input), key, server).Ok?
    ensures var after := Rerun(st, input, go, t1, d1, key, server);
            Rerun(after, input, false, t2, d2, key, server) == after
  {
  }

  /** Automatic searches start more than 450 ms after the previous one
      finished, and text shorter than two characters never searches by
      itself. */
  lemma {:induction false} Throttled(st: SearchState, input: string, t1: int, d1: int, t2: int, key: Option<string>, server: Server)
    requires ShouldSearch(Strip(input), st, t1) && Answer(Strip(input), key, server).Ok?
    ensures forall q: string :: ShouldSearch(q, Rerun(st, input, false, t1, d1, key, server), t2) ==> t2 - d1 > 450
    ensures forall q: string :: |q| < 2 ==> !ShouldSearch(q, st, t2)
  {
  }

  /** A failed search keeps the previous query and time, so the same text is
      searched again on a later rerun. */
  lemma {:induction false} FailureRetries(st: SearchState, input: string, t1: int, d1: int, t2: int, key: Option<string>, server: Server)
    requires ShouldSearch(Strip(input), st, t1) && Answer(Strip(input), key, server).Err?
    requires t2 - st.lastMs > 450
    ensures ShouldSearch(Strip(input), Rerun(st, input, false, t1, d1, key, server), t2)
    ensures Rerun(st, input, false, t1, d1, key, server).results == []
  {
  }

  /** Without an API key every triggered search fails: the list empties and
      nothing is requested. */
  lemma {:induction false} SearchWithoutKey(st: SearchState, input: string, go: bool, t: int, d: int, key: Option<string>, server: Server)
    requires !OvApi.UsableKey(key) && Triggered(Strip(input), go, st, t)
    ensures Rerun(st, input, go, t, d, key, server) == st.(results := [])
  {
    var q := Strip(input);
    assert !IsBlank(q) by { assert !IsSpace(q[0]); }
    OvApi.SmartWithoutKey(q, key, server);
  }

  // ---------------------------------------------------------------------
  // Departures table
  // ---------------------------------------------------------------------

  /** `_fmt_dt(s)`: the local `HH:MM` of an ISO time; the input itself when
      it does not parse or is not text. `fmt` parses and renders. */
  function FmtDt(v: Json, fmt: string -> Option<string>): (r: Json)
    ensures !v.JStr? ==> r == v
    ensures v.JStr? && fmt(ZuluToOffset(v.s)).None? ==> r == v
    ensures v.JStr? && fmt(ZuluToOffset(v.s)).Some? ==> r == JStr(fmt(ZuluToOffset(v.s)).value)
  {
    if !v.JStr? then v
    else match fmt(ZuluToOffset(v.s))
      case Some(hhmm) => JStr(hhmm)
      case None => v
  }

  datatype Row = Row(time: Json, line: Json, direction: Json, kind: Json, status: Json, platform: Json)

  function Or(v: Json, default: Json): Json {
    FirstTruthy([v], default)
  }

  /** One row; a train row's type is always `TRAIN`. */
  function MakeRow(d: seq<Field>, train: bool, fmt: string -> Option<string>): (r: Row)
    ensures train ==> r.kind == JStr("TRAIN")
    ensures !train ==> r.kind == Or(Get(d, "TransportType"), JStr(""))
    ensures r.time == FmtDt(FirstTruthy([Get(d, "ExpectedDeparture"), Get(d, "PlannedDeparture")], JStr("")), fmt)
  {
    Row(FmtDt(FirstTruthy([Get(d, "ExpectedDeparture"), Get(d, "PlannedDeparture")], JStr("")), fmt),
        FirstTruthy([Get(d, "LineNumber"), Get(d, "LineName")], JStr("")),
        Or(Get(d, "Destination"), JStr("")),
        if train then JStr("TRAIN") else Or(Get(d, "TransportType"), JStr("")),
        Or(Get(d, "VehicleStatus"), JStr("")),
        Or(Get(d, "Platform"), JStr("")))
  }

  /** Every record is a dict, so `.get` can be called on it. */
  predicate AllDicts(records: seq<Json>) {
    forall i | 0 <= i < |records| :: records[i].JObj?
  }

  lemma {:induction false} AllDictsCons(records: seq<Json>)
    requires |records| > 0
    ensures AllDicts(records) <==> records[0].JObj? && AllDicts(records[1..])
  {
    if records[0].JObj? && AllDicts(records[1..]) {
      forall i | 1 <= i < |records| ensures records[i].JObj? {
        assert records[i] == records[1..][i - 1];
      }
    }
  }

  /** `[f(r) for r in records]` where `f` reads each record with `.get`: a
      record that is not a dict raises. */
  function MapDicts<R>(records: seq<Json>, f: seq<Field> -> R): (r: Result<seq<R>>)
    ensures r.Ok? <==> AllDicts(records)
    ensures r.Ok? ==> |r.value| == |records| && forall i | 0 <= i < |records| :: records[i].JObj? && r.value[i] == f(records[i].fields)
    decreases |records|
  {
    if |records| == 0 then Ok([])
    else
      AllDictsCons(records);
      var rest := MapDicts(records[1..], f);
      if !records[0].JObj? then Err("AttributeError")
      else if rest.Err? then rest
      else
        var out := [f(records[0].fields)] + rest.value;
        assert forall i | 1 <= i < |records| :: out[i] == rest.value[i - 1] && records[i] == records[1..][i - 1];
        Ok(out)
  }

  /** The rows of a list of departure records, one per record in order; a
      record that is not a dict raises. */
  function RecordRows(records: seq<Json>, train: bool, fmt: string -> Option<string>): (r: Result<seq<Row>>)
    ensures r.Ok? <==> AllDicts(records)
    ensures r.Ok? ==> |r.value| == |records| && forall i | 0 <= i < |records| :: r.value[i] == MakeRow(records[i].fields, train, fmt)
  {
    MapDicts(records, d => MakeRow(d, train, fmt))
  }

  /** Every row is a train row. */
  predicate AllTrain(rows: seq<Row>) {
    forall i | 0 <= i < |rows| :: rows[i].kind == JStr("TRAIN")
  }

  /** The rows of the blocks under one key of the table. */
  function BlockRows(blocks: seq<Json>, train: bool, fmt: string -> Option<string>): (r: Result<seq<Row>>)
    ensures r.Ok? && train ==> AllTrain(r.value)
    ensures |blocks| > 0 && !blocks[0].JObj? ==> r == Err("AttributeError")
    decreases |blocks|
  {
    if |blocks| == 0 then Ok([])
    else
      var blk :- AsDict(blocks[0]);
      var records :- Iterate(Get(blk, "Departures"));
      var first :- RecordRows(records, train, fmt);
      var rest :- BlockRows(blocks[1..], train, fmt);
      Ok(first + rest)
  }

  /** `_departures_table(dep_json)`: the bus/tram/metro/ferry rows first,
      then the train rows. An empty result is shown as a notice. The BTMF
      blocks are walked completely before the TRAIN value is iterated, so an
      error among them wins over a TRAIN value that cannot be iterated. */
  function DeparturesTable(dep: Json, fmt: string -> Option<string>): (r: Result<seq<Row>>)
    ensures !dep.JObj? ==> r == Err("AttributeError")
    ensures dep.JObj? && Iterate(Get(dep.fields, "BTMF")).Err? ==> r == Err(Iterate(Get(dep.fields, "BTMF")).error)
    ensures dep.JObj? && Iterate(Get(dep.fields, "BTMF")).Ok? && BlockRows(Iterate(Get(dep.fields, "BTMF")).value, false, fmt).Err? ==>
              r == Err(BlockRows(Iterate(Get(dep.fields, "BTMF")).value, false, fmt).error)
    ensures r.Ok? ==> dep.JObj? && Iterate(Get(dep.fields, "BTMF")).Ok? && Iterate(Get(dep.fields, "TRAIN")).Ok?
    ensures r.Ok? ==>
              var btmf := Iterate(Get(dep.fields, "BTMF")).value;
              var train := Iterate(Get(dep.fields, "TRAIN")).value;
              BlockRows(btmf, false, fmt).Ok? && BlockRows(train, true, fmt).Ok? &&
              r.value == BlockRows(btmf, false, fmt).value + BlockRows(train, true, fmt).value
  {
    var fs :- AsDict(dep);
    var btmf :- Iterate(Get(fs, "BTMF"));
    var top :- BlockRows(btmf, false, fmt);
    var train :- Iterate(Get(fs, "TRAIN"));
    var bottom :- BlockRows(train, true, fmt);
    Ok(top + bottom)
  }

  /** A string block under BTMF has no `.get`, which is raised before the
      TRAIN value `5` is found not to be iterable. */
  lemma {:induction false} TableErrorOrder(fmt: string -> Option<string>)
    ensures DeparturesTable(JObj([Field("BTMF", JList([JStr("x")])), Field("TRAIN", JInt(5))]), fmt) == Err("AttributeError")
  {
    var d := [Field("BTMF", JList([JStr("x")])), Field("TRAIN", JInt(5))];
    assert Get(d, "BTMF") == JList([JStr("x")]);
    assert BlockRows([JStr("x")], false, fmt) == Err("AttributeError");
  }

  /** With no BTMF blocks, the TRAIN value `5` raises when it is iterated. */
  lemma {:induction false} TableTrainNotIterable(fmt: string -> Option<string>)
    ensures DeparturesTable(JObj([Field("BTMF", JList([])), Field("TRAIN", JInt(5))]), fmt) == Err("TypeError")
  {
    var d := [Field("BTMF", JList([])), Field("TRAIN", JInt(5))];
    assert Get(d, "BTMF") == JList([]);
    assert Get(d, "TRAIN") == JInt(5);
  }

  /** Every row after the bus/tram/metro/ferry rows is a train row. */
  lemma {:induction false} TrainRowsLast(dep: Json, fmt: string -> Option<string>)
    requires DeparturesTable(dep, fmt).Ok?
    ensures var rows := DeparturesTable(dep, fmt).value;
            var n := |BlockRows(Iterate(Get(dep.fields, "BTMF")).value, false, fmt).value|;
            n <= |rows| && AllTrain(rows[n..])
  {
    var btmf := Iterate(Get(dep.fields, "BTMF")).value;
    var train := Iterate(Get(dep.fields, "TRAIN")).value;
    var top: seq<Row> := BlockRows(btmf, false, fmt).value;
    var bottom: seq<Row> := BlockRows(train, true, fmt).value;
    assert (top + bottom)[|top|..] == bottom;
  }

  /** A time that does not parse is shown as written; a missing one as
      empty text when the empty text does not parse. */
  lemma {:induction false} TimeFallbacks(d: seq<Field>, fmt: string -> Option<string>)
    requires fmt("").None?
    ensures !Truthy(Get(d, "ExpectedDeparture")) && !Truthy(Get(d, "PlannedDeparture")) ==>
              MakeRow(d, false, fmt).time == JStr("")
    ensures Get(d, "ExpectedDeparture") == JStr("soon") && fmt(ZuluToOffset("soon")).None? ==>
              MakeRow(d, false, fmt).time == JStr("soon")
  {
    FirstTruthy2(Get(d, "ExpectedDeparture"), Get(d, "PlannedDeparture"), JStr(""));
    assert ZuluToOffset("") == "";
  }

  // ---------------------------------------------------------------------
  // Showing a selected stop
  // ---------------------------------------------------------------------

  datatype View = Hidden | NoStopCode | Failed(error: string) | NoDepartures | Table(rows: seq<Row>)

  /** The departures section for the selected stop: an empty selection
      (`if sel:` fails for `{}`) shows no section at all; a stop without a
      code gets a warning and no request; a request or table error is shown; an
      empty table shows the notice. The client never answers with a falsy
      value, so the page's `if dep:` always passes. */
  function ShowDepartures(sel: seq<Field>, key: Option<string>, server: Server, fmt: string -> Option<string>): (r: View)
    ensures r == Hidden <==> sel == []
    ensures sel != [] && !Truthy(Get(sel, "StopCode")) ==> r == NoStopCode
    ensures r.Table? ==> r.rows != [] && Truthy(Get(sel, "StopCode"))
    ensures Truthy(Get(sel, "StopCode")) ==>
              var c := OvApi.DeparturesByStopcode(Get(sel, "StopCode"), key, server);
              && (c.result.Err? ==> r == Failed(c.result.error))
              && (c.result.Ok? && DeparturesTable(c.result.value, fmt).Err? ==>
                    r == Failed(DeparturesTable(c.result.value, fmt).error))
              && (c.result.Ok? && DeparturesTable(c.result.value, fmt).Ok? ==>
                    var rows := DeparturesTable(c.result.value, fmt).value;
                    r == if rows == [] then NoDepartures else Table(rows))
  {
    var code := Get(sel, "StopCode");
    if sel == [] then Hidden
    else if !Truthy(code) then NoStopCode
    else
      var c := OvApi.DeparturesByStopcode(code, key, server);
      if c.result.Err? then Failed(c.result.error)
      else match DeparturesTable(c.result.value, fmt)
        case Err(e) => Failed(e)
        case Ok(rows) => if rows == [] then NoDepartures else Table(rows)
  }

  /** With a usable key, the view of a stop with a non-blank code follows
      the server's answer for that code, stripped: an error is shown, a
      falsy answer becomes the empty departures and shows the notice, and
      any other answer is tabled. */
  lemma {:induction false} ShowDeparturesAnswer(sel: seq<Field>, code: string, key: Option<string>, server: Server,
                                                fmt: string -> Option<string>)
    requires Get(sel, "StopCode") == JStr(code) && !IsBlank(code)
    requires OvApi.UsableKey(key)
    ensures var answer := server(OvApi.StopcodeUrl(Strip(code)));
            var r := ShowDepartures(sel, key, server, fmt);
            && (answer.Err? ==> r == Failed(answer.error))
            && (answer.Ok? && !Truthy(answer.value) ==> r == NoDepartures)
            && (answer.Ok? && Truthy(answer.value) && DeparturesTable(answer.value, fmt).Err? ==>
                  r == Failed(DeparturesTable(answer.value, fmt).error))
            && (answer.Ok? && Truthy(answer.value) && DeparturesTable(answer.value, fmt).Ok? ==>
                  var rows := DeparturesTable(answer.value, fmt).value;
                  r == if rows == [] then NoDepartures else Table(rows))
  {
    PyStrOfString(code);
    var answer := server(OvApi.StopcodeUrl(Strip(code)));
    var c := OvApi.DeparturesByStopcode(JStr(code), key, server);
    if answer.Ok? && !Truthy(answer.value) {
      assert c.result == Ok(OvApi.NO_DEPARTURES);
      EmptyDeparturesTable(fmt);
    } else {
      assert c.result == answer;
    }
  }

  /** The empty departures the client substitutes for a falsy answer table
      to no rows. */
  lemma {:induction false} EmptyDeparturesTable(fmt: string -> Option<string>)
    ensures DeparturesTable(OvApi.NO_DEPARTURES, fmt) == Ok([])
  {
    var fs := OvApi.NO_DEPARTURES.fields;
    assert Iterate(Get(fs, "BTMF")) == Ok([]) by { assert Get(fs, "BTMF") == JList([]); }
    assert Iterate(Get(fs, "TRAIN")) == Ok([]) by { assert Get(fs, "TRAIN") == JList([]); }
    assert BlockRows([], false, fmt) == Ok([]);
    assert BlockRows([], true, fmt) == Ok([]);
    var none: seq<Row> := [];
    assert DeparturesTable(OvApi.NO_DEPARTURES, fmt) == Ok(none + none);
    assert none + none == none;
  }

  /** Without an API key a stop with a non-blank code shows the
      `RuntimeError`, and nothing is requested. */
  lemma {:induction false} ShowWithoutKey(sel: seq<Field>, key: Option<string>, server: Server, fmt: string -> Option<string>)
    requires !OvApi.UsableKey(key)
    requires Get(sel, "StopCode").JStr? && !IsBlank(Get(sel, "StopCode").s)
    ensures ShowDepartures(sel, key, server, fmt) == Failed("RuntimeError")
  {
  }
}
