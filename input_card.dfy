/** The INPUT file (`BaseCalculation.validate_parameters` and `write_INPUT`): the
 *  user's parameters with the fixed output suffix, the pseudopotential folder
 *  and, unless given, the number of species, one `key  value` line per
 *  parameter in ascending key order under the INPUT_PARAMETERS header. */
module InputCard {
  import opened Text
  import opened Sorting
  import opened Values
  import opened SpeciesCard

  const Suffix := "aiida"
  /** `"./" + PseudoSubfolder`. */
  const PseudoDir := "./pseudo"

  /** The keys `validate_parameters` may add. */
  predicate Forced(k: string) { k == "suffix" || k == "pseudo_dir" || k == "ntype" }

  /** `validate_parameters`: forces `suffix` and `pseudo_dir`, sets `ntype` to the
   *  number of kinds only when the user left it out, and keeps everything else. */
  function ValidateParameters(d: Dict, nKinds: nat): Dict
  {
    var withSuffix := Set(d, "suffix", VStr(Suffix));
    var withDir := Set(withSuffix, "pseudo_dir", VStr(PseudoDir));
    if !Has(withDir, "ntype") then Set(withDir, "ntype", VInt(nKinds)) else withDir
  }

  /** The validated parameters: the user's keys plus the forced ones, the
   *  forced values, `ntype` defaulting to the number of kinds, and every other
   *  parameter as given. */
  lemma ValidatedParameters(d: Dict, nKinds: nat)
    ensures var r := ValidateParameters(d, nKinds);
      && (forall k :: k in r.vals <==> k in d.vals || Forced(k))
      && r.vals["suffix"] == VStr(Suffix) && r.vals["pseudo_dir"] == VStr(PseudoDir)
      && r.vals["ntype"] == (if "ntype" in d.vals then d.vals["ntype"] else VInt(nKinds))
      && (forall k :: k in d.vals && !Forced(k) ==> r.vals[k] == d.vals[k])
  {
    var withSuffix := Set(d, "suffix", VStr(Suffix));
    var withDir := Set(withSuffix, "pseudo_dir", VStr(PseudoDir));
    var forced := d.vals["suffix" := VStr(Suffix)]["pseudo_dir" := VStr(PseudoDir)];
    assert withDir.vals == forced;
    ForcedKeys(d.vals, forced, ValidateParameters(d, nKinds).vals, nKinds);
  }

  lemma ForcedKeys(m: map<string, Value>, forced: map<string, Value>, r: map<string, Value>, nKinds: nat)
    requires forced == m["suffix" := VStr(Suffix)]["pseudo_dir" := VStr(PseudoDir)]
    requires r == if "ntype" in forced then forced else forced["ntype" := VInt(nKinds)]
    ensures forall k :: k in r <==> k in m || Forced(k)
    ensures r["suffix"] == VStr(Suffix) && r["pseudo_dir"] == VStr(PseudoDir)
    ensures r["ntype"] == (if "ntype" in m then m["ntype"] else VInt(nKinds))
    ensures forall k :: k in m && !Forced(k) ==> r[k] == m[k]
  {
  }

  /** `"{0:18}  {1}".format(k, v)`: the key padded to 18 columns, two blanks, `str(v)`. */
  function InputLine(k: string, v: Value, fmt: Formats): string
  {
    LJust(k, 18) + "  " + Str(v, fmt)
  }

  /** The parameter lines: the dict's items sorted by key. */
  function InputItems(d: Dict): seq<(string, Value)>
  {
    SortByKey(Items(d))
  }

  function ParameterLines(items: seq<(string, Value)>, fmt: Formats): seq<string>
  {
    if items == [] then []
    else ParameterLines(items[..|items| - 1], fmt) + [InputLine(items[|items| - 1].0, items[|items| - 1].1, fmt)]
  }

  lemma {:induction false} ParameterLinesEach(items: seq<(string, Value)>, fmt: Formats)
    ensures |ParameterLines(items, fmt)| == |items|
    ensures forall i :: 0 <= i < |items| ==> ParameterLines(items, fmt)[i] == InputLine(items[i].0, items[i].1, fmt)
  {
    if items != [] {
      ParameterLinesEach(items[..|items| - 1], fmt);
    }
  }

  function InputText(d: Dict, fmt: Formats): seq<string>
  {
    ["INPUT_PARAMETERS"] + ParameterLines(InputItems(d), fmt)
  }

  /** The sorted items hold every parameter exactly once, keys strictly ascending. */
  lemma InputItemsSorted(d: Dict)
    ensures StrictlySorted(InputItems(d))
    ensures |InputItems(d)| == |d.keys|
    ensures forall x :: x in InputItems(d) <==> x.0 in d.vals && x.1 == d.vals[x.0]
  {
    var items := Items(d);
    assert DistinctKeys(items) by {
      forall i, j | 0 <= i < j < |items| ensures items[i].0 != items[j].0 {
        assert items[i].0 == d.keys[i] && items[j].0 == d.keys[j];
      }
    }
    SortByKeySorted(items);
    assert |multiset(InputItems(d))| == |multiset(items)|;
    forall x ensures x in InputItems(d) <==> x.0 in d.vals && x.1 == d.vals[x.0] {
      ItemsMembership(d, x);
      assert x in InputItems(d) <==> x in multiset(items);
    }
  }

  /** The file depends only on the parameters, not on the order in which they
   *  were inserted. */
  lemma InputOrderIndependent(d: Dict, e: Dict, fmt: Formats)
    requires d.vals == e.vals
    ensures InputText(d, fmt) == InputText(e, fmt)
  {
    InputItemsSorted(d);
    InputItemsSorted(e);
    SortedUnique(InputItems(d), InputItems(e));
  }

  /** The layout of the file: the header, then one line per parameter in
   *  ascending key order, each the key padded to 18 columns, two blanks and the
   *  value. */
  lemma InputLayout(d: Dict, fmt: Formats)
    ensures |InputItems(d)| == |d.keys|
    ensures |InputText(d, fmt)| == |d.keys| + 1
    ensures InputText(d, fmt)[0] == "INPUT_PARAMETERS"
    ensures forall i :: 0 <= i < |d.keys| ==>
      && InputItems(d)[i].0 in d.vals && InputItems(d)[i].1 == d.vals[InputItems(d)[i].0]
      && InputText(d, fmt)[i + 1] == InputLine(InputItems(d)[i].0, InputItems(d)[i].1, fmt)
    ensures forall i :: 0 <= i < |d.keys| - 1 ==> Less(InputItems(d)[i].0, InputItems(d)[i + 1].0)
  {
    ItemsAreEntries(d);
    InputTextLines(d, fmt);
  }

  /** The file's lines after the header are the sorted items, one line each. */
  lemma InputTextLines(d: Dict, fmt: Formats)
    ensures |InputText(d, fmt)| == |InputItems(d)| + 1
    ensures InputText(d, fmt)[0] == "INPUT_PARAMETERS"
    ensures forall i :: 0 <= i < |InputItems(d)| ==>
      InputText(d, fmt)[i + 1] == InputLine(InputItems(d)[i].0, InputItems(d)[i].1, fmt)
  {
    HeaderThenLines(InputItems(d), fmt);
  }

  lemma HeaderThenLines(items: seq<(string, Value)>, fmt: Formats)
    ensures |["INPUT_PARAMETERS"] + ParameterLines(items, fmt)| == |items| + 1
    ensures forall i :: 0 <= i < |items| ==>
      (["INPUT_PARAMETERS"] + ParameterLines(items, fmt))[i + 1] == InputLine(items[i].0, items[i].1, fmt)
  {
    ParameterLinesEach(items, fmt);
  }

  /** The sorted items, by position: each an entry of the dict, keys ascending. */
  lemma ItemsAreEntries(d: Dict)
    ensures |InputItems(d)| == |d.keys|
    ensures forall i :: 0 <= i < |d.keys| ==>
      InputItems(d)[i].0 in d.vals && InputItems(d)[i].1 == d.vals[InputItems(d)[i].0]
    ensures forall i :: 0 <= i < |d.keys| - 1 ==> Less(InputItems(d)[i].0, InputItems(d)[i + 1].0)
  {
    InputItemsSorted(d);
    var items := InputItems(d);
    forall i | 0 <= i < |d.keys| ensures items[i].0 in d.vals && items[i].1 == d.vals[items[i].0] {
      assert items[i] in items;
    }
  }

  /** A line splits back into its key and its value when the key fits the column. */
  lemma InputLineColumns(k: string, v: Value, fmt: Formats)
    requires |k| <= 18
    ensures var line := InputLine(k, v, fmt);
      && line[..|k|] == k
      && (forall i :: |k| <= i < 20 ==> line[i] == ' ')
      && line[20..] == Str(v, fmt)
  {
    var line := InputLine(k, v, fmt);
    assert line == LJust(k, 18) + ("  " + Str(v, fmt));
  }

  lemma InputStep(items: seq<(string, Value)>, i: nat, fmt: Formats, lines: seq<string>)
    requires i < |items| && lines == ["INPUT_PARAMETERS"] + ParameterLines(items[..i], fmt)
    ensures lines + [InputLine(items[i].0, items[i].1, fmt)] == ["INPUT_PARAMETERS"] + ParameterLines(items[..i + 1], fmt)
  {
    assert items[..i + 1][..i] == items[..i];
  }

  /** `write_INPUT` without the file: validates the parameters and renders the
   *  sorted items one line each. */
  method WriteInput(params: Dict, nKinds: nat, fmt: Formats) returns (lines: seq<string>)
    ensures lines == InputText(ValidateParameters(params, nKinds), fmt)
  {
    var parameters := ValidateParameters(params, nKinds);
    var items := SortByKey(Items(parameters));
    lines := ["INPUT_PARAMETERS"];
    for i := 0 to |items|
      invariant lines == ["INPUT_PARAMETERS"] + ParameterLines(items[..i], fmt)
    {
      InputStep(items, i, fmt, lines);
      lines := lines + [InputLine(items[i].0, items[i].1, fmt)];
    }
    assert items[..|items|] == items;
  }
}
