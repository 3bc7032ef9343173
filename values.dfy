/** The scalar values held by AiiDA `Dict` nodes and Python's insertion-ordered
 *  `dict` over them, with the rendering the input writers apply to values. */
module Values {
  import opened Text
  import opened Wrappers
  import opened Seqs

  /** A scalar parameter value: `str`, `int`, `bool`, `float` or `None`. */
  datatype Value = VStr(s: string) | VInt(i: int) | VBool(b: bool) | VFloat(r: real) | VNone

  /** Rendering of floating-point numbers, which this model does not interpret:
   *  `str(x)`, `"{:18.10f}".format(x)` and `"{:0.1f}".format(x)`. */
  datatype Formats = Formats(repr: real -> string, fixed18: real -> string, fixed1: real -> string)

  /** Python's `str(v)`, which is also what `"{}".format(v)` produces. */
  function Str(v: Value, fmt: Formats): string
  {
    match v
    case VStr(s) => s
    case VInt(i) => IntToString(i)
    case VBool(b) => if b then "True" else "False"
    case VFloat(r) => fmt.repr(r)
    case VNone => "None"
  }

  /** Python's truth value of a scalar. */
  predicate Truthy(v: Value)
  {
    match v
    case VStr(s) => s != ""
    case VInt(i) => i != 0
    case VBool(b) => b
    case VFloat(r) => r != 0.0
    case VNone => false
  }

  /** A Python `dict` from strings: `keys` is the insertion order, `vals` the mapping. */
  datatype DictRepr = DictRepr(keys: seq<string>, vals: map<string, Value>) {
    predicate Valid()
    {
      Distinct(keys)
      && (forall k :: k in vals ==> k in keys)
      && (forall i :: 0 <= i < |keys| ==> keys[i] in vals)
    }
  }

  type Dict = d: DictRepr | d.Valid() witness DictRepr([], map[])

  const EmptyDict: Dict := DictRepr([], map[])

  predicate Has(d: Dict, k: string) { k in d.vals }

  /** `d.get(k, default)`. */
  function Get(d: Dict, k: string, default: Value): Value
  {
    if k in d.vals then d.vals[k] else default
  }

  /** `d[k] = v`: an existing key keeps its place, a new one goes last. */
  function Set(d: Dict, k: string, v: Value): (r: Dict)
    ensures r.vals == d.vals[k := v]
    ensures k in d.vals ==> r.keys == d.keys
    ensures k !in d.vals ==> r.keys == d.keys + [k]
  {
    if k in d.vals then DictRepr(d.keys, d.vals[k := v]) else DictRepr(d.keys + [k], d.vals[k := v])
  }

  function RemoveKey(s: seq<string>, k: string): (r: seq<string>)
    ensures forall x :: x in r <==> x in s && x != k
    ensures Distinct(s) ==> Distinct(r)
  {
    if s == [] then []
    else
      assert s == [s[0]] + s[1..];
      var rest := RemoveKey(s[1..], k);
      assert Distinct(s) ==> s[0] !in s[1..];
      if s[0] == k then rest else [s[0]] + rest
  }

  /** `d.pop(k, default)`: the value that was there (or the default) and the dict without `k`. */
  function Pop(d: Dict, k: string, default: Value): (r: (Value, Dict))
    ensures r.0 == Get(d, k, default)
    ensures r.1.vals == d.vals - {k}
  {
    var ks := RemoveKey(d.keys, k);
    assert forall i :: 0 <= i < |ks| ==> ks[i] in ks;
    var rest: Dict := DictRepr(ks, d.vals - {k});
    (Get(d, k, default), rest)
  }

  function UpdateFrom(d: Dict, ks: seq<string>, vals: map<string, Value>): Dict
    requires forall i :: 0 <= i < |ks| ==> ks[i] in vals
    decreases |ks|
  {
    if ks == [] then d else UpdateFrom(Set(d, ks[0], vals[ks[0]]), ks[1..], vals)
  }

  /** `d.update(e)`: the keys of `e` are set one by one, in `e`'s order. */
  function Update(d: Dict, e: Dict): Dict
  {
    UpdateFrom(d, e.keys, e.vals)
  }

  lemma {:induction false} UpdateFromVals(d: Dict, ks: seq<string>, vals: map<string, Value>)
    requires forall i :: 0 <= i < |ks| ==> ks[i] in vals
    ensures forall k :: k in UpdateFrom(d, ks, vals).vals <==> k in d.vals || k in ks
    ensures forall k :: k in UpdateFrom(d, ks, vals).vals ==>
      UpdateFrom(d, ks, vals).vals[k] == if k in ks then vals[k] else d.vals[k]
    decreases |ks|
  {
    if ks != [] {
      var k0 := ks[0];
      var d' := Set(d, k0, vals[k0]);
      UpdateFromVals(d', ks[1..], vals);
      assert forall k :: k in ks <==> k == k0 || k in ks[1..];
    }
  }

  /** After `d.update(e)` every key of `e` has `e`'s value and every other key keeps `d`'s:
   *  the overriding dict wins on shared keys. */
  lemma UpdateOverrides(d: Dict, e: Dict)
    ensures Update(d, e).vals == d.vals + e.vals
  {
    UpdateFromVals(d, e.keys, e.vals);
  }

  /** `list(d.items())`. */
  function Items(d: Dict): (r: seq<(string, Value)>)
    ensures |r| == |d.keys|
    ensures forall i :: 0 <= i < |r| ==> r[i] == (d.keys[i], d.vals[d.keys[i]])
  {
    seq(|d.keys|, i requires 0 <= i < |d.keys| => (d.keys[i], d.vals[d.keys[i]]))
  }

  /** The items of a dict are exactly its key/value pairs, whatever the insertion order. */
  lemma ItemsMembership(d: Dict, x: (string, Value))
    ensures x in Items(d) <==> x.0 in d.vals && x.1 == d.vals[x.0]
  {
    if x.0 in d.vals && x.1 == d.vals[x.0] {
      var i :| 0 <= i < |d.keys| && d.keys[i] == x.0;
      assert Items(d)[i] == x;
    }
  }
}
