/** `AbacusParameters` (`data/parameters.py`): a named parameter dict stored in
 *  the database. Its name must not be taken by a stored record, and it can turn
 *  itself into a command line of flags followed by two file names. */
module AbacusData {
  import opened Wrappers
  import opened Seqs
  import opened Values

  datatype DataError = UniquenessError(name: string)

  /** How many stored records carry the `name` extra `name`. */
  function Count(names: seq<string>, name: string): (n: nat)
    ensures n > 0 <==> name in names
    ensures n <= |names|
  {
    if names == [] then 0
    else
      var last := names[|names| - 1];
      assert names == names[..|names| - 1] + [last];
      Count(names[..|names| - 1], name) + (if last == name then 1 else 0)
  }

  /** `validate`: refused when the name is already taken by a stored record,
   *  otherwise the dict as given, absent or not. */
  function Validate(existing: seq<string>, name: string, username: string, d: Option<Dict>)
    : (r: Result<Option<Dict>, DataError>)
    ensures r.Failure? <==> name in existing
    ensures r.Failure? ==> r.error == UniquenessError(name)
    ensures r.Success? ==> r.value == d
  {
    if Count(existing, name) > 0 then Failure(UniquenessError(name)) else Success(d)
  }

  // ----------------------------------------------------------------------
  // The command line

  /** One `--key` flag per key with a truthy value, in key order. */
  function Flags(keys: seq<string>, vals: map<string, Value>): seq<string>
    requires forall i :: 0 <= i < |keys| ==> keys[i] in vals
  {
    if keys == [] then []
    else
      var k := keys[|keys| - 1];
      Flags(keys[..|keys| - 1], vals) + if Truthy(vals[k]) then ["--" + k] else []
  }

  /** The keys among `keys` whose value is truthy. */
  ghost function TruthyKeys(keys: seq<string>, vals: map<string, Value>): set<string>
  {
    set k | k in keys && k in vals && Truthy(vals[k])
  }

  /** `cmdline_params(file1_name, file2_name)` of a record holding `d`. */
  function CommandLine(d: Dict, file1: Value, file2: Value, fmt: Formats): seq<string>
  {
    Flags(d.keys, d.vals) + [Str(file1, fmt), Str(file2, fmt)]
  }

  lemma FlagNameInjective(a: string, b: string)
    requires "--" + a == "--" + b
    ensures a == b
  {
    assert ("--" + a)[2..] == a && ("--" + b)[2..] == b;
  }

  /** A key yields a flag exactly when its value is truthy; every flag is "--"
   *  and a truthy key; and there is one flag per truthy key. */
  lemma {:induction false} FlagsSpec(keys: seq<string>, vals: map<string, Value>)
    requires Distinct(keys)
    requires forall i :: 0 <= i < |keys| ==> keys[i] in vals
    ensures forall k :: k in keys ==> ("--" + k in Flags(keys, vals) <==> Truthy(vals[k]))
    ensures forall x :: x in Flags(keys, vals) ==> |x| >= 2 && x[..2] == "--" && x[2..] in TruthyKeys(keys, vals)
    ensures |Flags(keys, vals)| == |TruthyKeys(keys, vals)|
  {
    if keys != [] {
      var n := |keys| - 1;
      var prefix := keys[..n];
      var k := keys[n];
      assert Distinct(prefix);
      FlagsSpec(prefix, vals);
      assert k !in prefix;
      var before := Flags(prefix, vals);
      var flags := Flags(keys, vals);
      forall j | j in keys ensures ("--" + j in flags <==> Truthy(vals[j])) {
        if j != k {
          assert j in prefix;
          if "--" + j == "--" + k {
            FlagNameInjective(j, k);
          }
        }
      }
      forall x | x in flags ensures |x| >= 2 && x[..2] == "--" && x[2..] in TruthyKeys(keys, vals) {
        if x !in before {
          assert x == "--" + k;
        }
      }
      if Truthy(vals[k]) {
        assert TruthyKeys(keys, vals) == TruthyKeys(prefix, vals) + {k};
      } else {
        assert TruthyKeys(keys, vals) == TruthyKeys(prefix, vals);
      }
    }
  }

  /** The flags keep the key order: the flags of the first `i` keys come first. */
  lemma {:induction false} FlagsInKeyOrder(keys: seq<string>, vals: map<string, Value>, i: nat)
    requires i <= |keys|
    requires forall j :: 0 <= j < |keys| ==> keys[j] in vals
    ensures Flags(keys[..i], vals) <= Flags(keys, vals)
    decreases |keys| - i
  {
    if i < |keys| {
      assert keys[..i + 1][..i] == keys[..i];
      FlagsInKeyOrder(keys, vals, i + 1);
    } else {
      assert keys[..i] == keys;
    }
  }

  /** The command line has one flag per truthy key, each `--` and the key, in
   *  key order, and ends with the two file names. */
  lemma CommandLineShape(d: Dict, file1: Value, file2: Value, fmt: Formats)
    ensures var r := CommandLine(d, file1, file2, fmt);
      && |r| == |TruthyKeys(d.keys, d.vals)| + 2
      && r[|r| - 2] == Str(file1, fmt) && r[|r| - 1] == Str(file2, fmt)
      && (forall k :: k in d.vals ==> ("--" + k in r[..|r| - 2] <==> Truthy(d.vals[k])))
  {
    FlagsSpec(d.keys, d.vals);
    var r := CommandLine(d, file1, file2, fmt);
    assert r[..|r| - 2] == Flags(d.keys, d.vals);
  }

  // ----------------------------------------------------------------------
  // The record

  class AbacusParameters {
    var dict: Dict
    var extras: map<string, string>

    /** The `Dict` node before its extras are set. */
    constructor (d: Dict)
      ensures dict == d && extras == map[]
    {
      dict := d;
      extras := map[];
    }

    method SetExtra(key: string, value: string)
      modifies this
      ensures extras == old(extras)[key := value] && dict == old(dict)
    {
      extras := extras[key := value];
    }

    /** `AbacusParameters(name, username, dict)`: validation against the stored
     *  records' names, then the node holding the dict (empty when none is
     *  given) with its `name` and `username` extras. */
    static method Create(existing: seq<string>, name: string, username: string, d: Option<Dict>)
      returns (r: Result<AbacusParameters, DataError>)
      ensures r.Failure? <==> name in existing
      ensures r.Failure? ==> r.error == UniquenessError(name)
      ensures r.Success? ==>
        && fresh(r.value)
        && r.value.dict == d.GetOr(EmptyDict)
        && r.value.extras == map["name" := name, "username" := username]
    {
      var validated := Validate(existing, name, username, d);
      if validated.Failure? {
        return Failure(validated.error);
      }
      var node := new AbacusParameters(validated.value.GetOr(EmptyDict));
      node.SetExtra("name", name);
      node.SetExtra("username", username);
      return Success(node);
    }

    /** `cmdline_params`: a flag for each truthy value in key order, then the
     *  two file names, everything passed through `str`. */
    method CmdlineParams(file1: Value, file2: Value, fmt: Formats) returns (params: seq<string>)
      ensures params == CommandLine(dict, file1, file2, fmt)
    {
      var parameters: seq<Value> := [];
      var keys := dict.keys;
      for i := 0 to |keys|
        invariant |parameters| == |Flags(keys[..i], dict.vals)|
        invariant forall j :: 0 <= j < |parameters| ==> parameters[j] == VStr(Flags(keys[..i], dict.vals)[j])
      {
        assert keys[..i + 1][..i] == keys[..i];
        var k := keys[i];
        if Truthy(dict.vals[k]) {
          parameters := parameters + [VStr("--" + k)];
        }
      }
      assert keys[..|keys|] == keys;
      parameters := parameters + [file1, file2];
      params := seq(|parameters|, j requires 0 <= j < |parameters| => Str(parameters[j], fmt));
    }
  }
}
