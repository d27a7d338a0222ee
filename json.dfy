/**
 * Parsed JSON as `json.loads` returns it, and the null-safe walk down nested
 * objects that the variant builder uses to read a GraphQL response.
 * Python's `None` and a JSON `null` are the same value, `JNull`.
 */
module Json {
  import opened Wrappers
  import opened PyStrings

  datatype Json =
    | JNull
    | JBool(b: bool)
    | JInt(i: int)
    | JReal(r: real)
    | JStr(s: string)
    | JArr(items: seq<Json>)
    | JObj(fields: map<string, Json>)

  /** `temp[key]` for a string key, with KeyError and TypeError both turned into `None`. */
  function Step(temp: Json, key: string): Json
  {
    if temp.JObj? && key in temp.fields then temp.fields[key] else JNull
  }

  /** `obj[key]` without the guard: KeyError when a mapping lacks the key, TypeError when `obj` is no mapping. */
  function Index(obj: Json, key: string): (r: Result<Json>)
    ensures r.Ok? <==> obj.JObj? && key in obj.fields
    ensures r.Ok? ==> r.value == Step(obj, key)
    ensures r.Err? ==> r.error == if obj.JObj? then KeyError else TypeError
  {
    if !obj.JObj? then Err(TypeError)
    else if key in obj.fields then Ok(obj.fields[key])
    else Err(KeyError)
  }

  /** `deep_get(obj, *keys)`: subscript by each key in turn, `None` as soon as one subscript fails. */
  function DeepGet(obj: Json, keys: seq<string>): Json
    decreases |keys|
  {
    if keys == [] then obj
    else if obj.JObj? && keys[0] in obj.fields then DeepGet(obj.fields[keys[0]], keys[1..])
    else JNull
  }

  /** Walking `a + b` is walking `a` and then walking `b` from where `a` ended. */
  lemma {:induction false} DeepGetConcat(obj: Json, a: seq<string>, b: seq<string>)
    ensures DeepGet(obj, a + b) == DeepGet(DeepGet(obj, a), b)
    decreases |a|
  {
    if a == [] {
      assert a + b == b;
    } else if obj.JObj? && a[0] in obj.fields {
      assert (a + b)[1..] == a[1..] + b;
      DeepGetConcat(obj.fields[a[0]], a[1..], b);
    } else {
      if b == [] {
        assert a + b == a;
      } else {
        assert (a + b)[0] == a[0];
      }
    }
  }

  /** The object that holds `v` under the chain of keys `keys`: `{k0: {k1: ... v}}`. */
  function Nest(keys: seq<string>, v: Json): (r: Json)
    ensures keys != [] ==> r.JObj? && keys[0] in r.fields
    decreases |keys|
  {
    if keys == [] then v else JObj(map[keys[0] := Nest(keys[1..], v)])
  }

  /** When every key along the chain is present, `deep_get` returns the nested value. */
  lemma {:induction false} DeepGetNest(keys: seq<string>, v: Json)
    ensures DeepGet(Nest(keys, v), keys) == v
    decreases |keys|
  {
    if keys != [] {
      DeepGetNest(keys[1..], v);
    }
  }

  /**
   * When the value reached after `pre` is not a mapping holding `k` (a missing
   * key, or a list, string, number or null in the way), the whole walk is `None`,
   * whatever keys follow.
   */
  lemma {:induction false} DeepGetMissing(obj: Json, pre: seq<string>, k: string, post: seq<string>)
    requires !(DeepGet(obj, pre).JObj? && k in DeepGet(obj, pre).fields)
    ensures DeepGet(obj, pre + [k] + post) == JNull
  {
    assert pre + [k] + post == pre + ([k] + post);
    DeepGetConcat(obj, pre, [k] + post);
  }

  /**
   * The loop of `deep_get` as written: reassign `temp` key by key and return
   * `None` at the first subscript that raises.
   */
  method DeepGetLoop(obj: Json, keys: seq<string>) returns (r: Json)
    ensures r == DeepGet(obj, keys)
  {
    var temp := obj;
    var i := 0;
    while i < |keys|
      invariant 0 <= i <= |keys|
      invariant temp == DeepGet(obj, keys[..i])
    {
      var key := keys[i];
      if !(temp.JObj? && key in temp.fields) {
        DeepGetMissing(obj, keys[..i], key, keys[i + 1..]);
        assert keys[..i] + [key] + keys[i + 1..] == keys;
        return JNull;
      }
      DeepGetConcat(obj, keys[..i], [key]);
      assert keys[..i + 1] == keys[..i] + [key];
      temp := temp.fields[key];
      i := i + 1;
    }
    assert keys[..i] == keys;
    return temp;
  }

  /** `str(j)` as an f-string renders it, for the scalar values (see README for the rest). */
  function Str(j: Json): (r: string)
    ensures j.JStr? ==> r == j.s
    ensures j.JInt? ==> |r| >= 1 && (j.i < 0 <==> r[0] == '-')
    ensures j.JInt? && j.i >= 0 ==> DecimalValue(r) == j.i
    ensures j.JInt? && j.i < 0 ==> DecimalValue(r[1..]) == -j.i
    ensures j.JInt? ==>
      var digits := if j.i < 0 then r[1..] else r;
      && |digits| >= 1 && (|digits| > 1 ==> digits[0] != '0')
      && forall k :: 0 <= k < |digits| ==> IsDigit(digits[k])
  {
    match j
    case JNull => "None"
    case JBool(b) => if b then "True" else "False"
    case JInt(i) =>
      if i < 0 then
        var digits := NatToString(-i);
        NatToStringRoundTrip(-i);
        assert ("-" + digits)[1..] == digits;
        "-" + digits
      else
        NatToStringRoundTrip(i);
        NatToString(i)
    case JStr(s) => s
    case _ => ""
  }
}
