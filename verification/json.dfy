/** Decoded JSON values as the transit code sees them after `r.json()`,
    together with the Python behaviour applied to them: truthiness, `dict.get`,
    `a or b or default` chains, iteration and `str()`. Numbers are integers;
    an object keeps its keys in insertion order. */
module Json {
  import opened Wrappers
  import opened Text

  datatype Json =
    | JNull
    | JBool(b: bool)
    | JInt(i: int)
    | JStr(s: string)
    | JList(items: seq<Json>)
    | JObj(fields: seq<Field>)

  datatype Field = Field(key: string, val: Json)

  /** A value that is neither a dict nor a list: nothing to walk into. */
  predicate Scalar(j: Json) {
    !j.JObj? && !j.JList?
  }

  /** Python's `bool(v)`: `None`, `False`, `0` and empty containers are false. */
  predicate Truthy(j: Json) {
    match j
    case JNull => false
    case JBool(b) => b
    case JInt(i) => i != 0
    case JStr(s) => s != ""
    case JList(xs) => xs != []
    case JObj(fs) => fs != []
  }

  /** `k in d` for a dict with fields `fs`. */
  predicate HasKey(fs: seq<Field>, k: string) {
    exists i | 0 <= i < |fs| :: fs[i].key == k
  }

  /** `d.get(k)`: the value stored under `k`, or `None` when absent. */
  function Get(fs: seq<Field>, k: string): (r: Json)
    ensures !HasKey(fs, k) ==> r == JNull
    ensures HasKey(fs, k) ==> exists i | 0 <= i < |fs| :: fs[i].key == k && fs[i].val == r
    decreases |fs|
  {
    if |fs| == 0 then JNull
    else if fs[0].key == k then fs[0].val
    else
      assert HasKey(fs, k) ==> HasKey(fs[1..], k) by {
        if HasKey(fs, k) {
          var i :| 0 <= i < |fs| && fs[i].key == k;
          assert fs[1..][i - 1].key == k;
        }
      }
      var r := Get(fs[1..], k);
      assert HasKey(fs[1..], k) ==> exists i | 0 <= i < |fs| :: fs[i].key == k && fs[i].val == r by {
        if HasKey(fs[1..], k) {
          var i :| 0 <= i < |fs| - 1 && fs[1..][i].key == k && fs[1..][i].val == r;
          assert fs[i + 1].key == k && fs[i + 1].val == r;
        }
      }
      r
  }

  /** `d.get(k, default)`. */
  function GetDefault(fs: seq<Field>, k: string, default: Json): Json {
    if HasKey(fs, k) then Get(fs, k) else default
  }

  /** Python's `v0 or v1 or ... or default`: the first truthy operand, and the
      last operand when none of the others is truthy. */
  function FirstTruthy(vs: seq<Json>, default: Json): (r: Json)
    ensures (exists i | 0 <= i < |vs| :: Truthy(vs[i])) ==>
              exists i | 0 <= i < |vs| :: Truthy(vs[i]) && r == vs[i] && forall j | 0 <= j < i :: !Truthy(vs[j])
    ensures (forall i | 0 <= i < |vs| :: !Truthy(vs[i])) ==> r == default
    ensures Truthy(r) || r == default
    decreases |vs|
  {
    if |vs| == 0 then default
    else if Truthy(vs[0]) then vs[0]
    else
      var r := FirstTruthy(vs[1..], default);
      assert (exists i | 0 <= i < |vs| :: Truthy(vs[i])) ==> exists i | 0 <= i < |vs[1..]| :: Truthy(vs[1..][i]) by {
        if i :| 0 <= i < |vs| && Truthy(vs[i]) {
          assert Truthy(vs[1..][i - 1]);
        }
      }
      assert (exists i | 0 <= i < |vs[1..]| :: Truthy(vs[1..][i])) ==>
        exists i | 0 <= i < |vs| :: Truthy(vs[i]) && r == vs[i] && forall j | 0 <= j < i :: !Truthy(vs[j]) by {
        if i :| 0 <= i < |vs[1..]| && Truthy(vs[1..][i]) && r == vs[1..][i] && forall j | 0 <= j < i :: !Truthy(vs[1..][j]) {
          assert forall j | 0 <= j < i + 1 :: !Truthy(vs[j]) by {
            forall j | 0 <= j < i + 1 ensures !Truthy(vs[j]) {
              if j > 0 { assert vs[j] == vs[1..][j - 1]; }
            }
          }
        }
      }
      r
  }

  /** The value under the first field with key `k`. */
  lemma {:induction false} GetAt(fs: seq<Field>, k: string, i: nat)
    requires i < |fs| && fs[i].key == k
    requires forall j | 0 <= j < i :: fs[j].key != k
    ensures Get(fs, k) == fs[i].val
    decreases i
  {
    if i > 0 {
      assert fs[0].key != k;
      GetAt(fs[1..], k, i - 1);
    }
  }

  /** A key that no field carries reads as `None`. */
  lemma {:induction false} GetAbsent(fs: seq<Field>, k: string, keys: seq<string>)
    requires |keys| == |fs| && forall i | 0 <= i < |fs| :: fs[i].key == keys[i]
    requires k !in keys
    ensures Get(fs, k) == JNull
  {
    assert !HasKey(fs, k) by {
      forall i | 0 <= i < |fs| ensures fs[i].key != k {
        assert keys[i] in keys;
      }
    }
  }

  /** The chains of two and three operands, unfolded. */
  lemma {:induction false} FirstTruthy2(a: Json, b: Json, default: Json)
    ensures FirstTruthy([a, b], default) == if Truthy(a) then a else if Truthy(b) then b else default
  {
    assert [a, b][1..] == [b];
    assert [b][1..] == [];
  }

  lemma {:induction false} FirstTruthy3(a: Json, b: Json, c: Json, default: Json)
    ensures FirstTruthy([a, b, c], default) == if Truthy(a) then a else if Truthy(b) then b else if Truthy(c) then c else default
  {
    assert [a, b, c][1..] == [b, c];
    FirstTruthy2(b, c, default);
  }

  /** `d.get(k0) or d.get(k1) or ... or default`. */
  function GetFirst(fs: seq<Field>, keys: seq<string>, default: Json): Json {
    FirstTruthy(seq(|keys|, i requires 0 <= i < |keys| => Get(fs, keys[i])), default)
  }

  /** The values `for x in v` visits, for `v` the result of `... or []`:
      nothing for a falsy value, the items of a list, the one-character strings
      of a string, the keys of a dict; any other truthy value is not iterable. */
  function Iterate(v: Json): Result<seq<Json>> {
    if !Truthy(v) then Ok([])
    else match v
      case JList(xs) => Ok(xs)
      case JStr(s) => Ok(seq(|s|, i requires 0 <= i < |s| => JStr([s[i]])))
      case JObj(fs) => Ok(seq(|fs|, i requires 0 <= i < |fs| => JStr(fs[i].key)))
      case _ => Err("TypeError")
  }

  /** Calling `.get` on `v`: only a dict has it. */
  function AsDict(v: Json): Result<seq<Field>> {
    if v.JObj? then Ok(v.fields) else Err("AttributeError")
  }

  /** `str(v)`; containers and strings inside them are rendered as by `repr`. */
  function PyStr(j: Json): string {
    if j.JStr? then j.s else Repr(j)
  }

  function Repr(j: Json): string
    decreases j, 1
  {
    match j
    case JNull => "None"
    case JBool(b) => if b then "True" else "False"
    case JInt(i) => IntToString(i)
    case JStr(s) => "'" + s + "'"
    case JList(xs) => "[" + ReprItems(xs, j) + "]"
    case JObj(fs) => "{" + ReprFields(fs, j) + "}"
  }

  function ReprItems(xs: seq<Json>, ghost parent: Json): string
    requires forall i | 0 <= i < |xs| :: xs[i] < parent
    decreases parent, 0, |xs|
  {
    if |xs| == 0 then ""
    else if |xs| == 1 then Repr(xs[0])
    else Repr(xs[0]) + ", " + ReprItems(xs[1..], parent)
  }

  function ReprFields(fs: seq<Field>, ghost parent: Json): string
    requires forall i | 0 <= i < |fs| :: fs[i].val < parent
    decreases parent, 0, |fs|
  {
    if |fs| == 0 then ""
    else
      var head := "'" + fs[0].key + "': " + Repr(fs[0].val);
      if |fs| == 1 then head else head + ", " + ReprFields(fs[1..], parent)
  }

  lemma {:induction false} PyStrOfString(s: string)
    ensures PyStr(JStr(s)) == s
  {
  }

  /** `str(v)` is empty only for the empty string. */
  lemma {:induction false} PyStrEmpty(j: Json)
    ensures PyStr(j) == "" <==> j == JStr("")
  {
    if !j.JStr? {
      match j
      case JNull =>
      case JBool(b) =>
      case JInt(i) =>
      case JList(xs) => assert Repr(j)[0] == '[';
      case JObj(fs) => assert Repr(j)[0] == '{';
    }
  }
}
