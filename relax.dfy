/** The relax work chain (`RealxWorkChain` in `workflows/relax.py`): it resolves
 *  a named parameter preset, generates a k-point mesh, prepares the inputs of
 *  the base calculation and submits it up to `max_meta_convergence_iterations`
 *  times, stopping with exit code 401 at the first sub-process that did not
 *  finish cleanly; on termination it may clean the remote folders of the
 *  calculations it called. The engine, the database and the k-point and pseudo
 *  helpers appear as parameters. */
module Relax {
  import opened Wrappers
  import opened Text
  import opened Values
  import opened Structures
  import opened Calculation

  // ----------------------------------------------------------------------
  // Inputs and input validation

  /** The inputs exposed from the base calculation (the `base` namespace). */
  datatype BaseInputs = BaseInputs(codeUuid: string, pseudos: Option<map<string, Pseudo>>, settings: Settings, options: Options)

  datatype WorkChainInputs = WorkChainInputs(
    base: BaseInputs,
    structure: Structure,
    parametersName: Option<string>,
    parameters: Option<Dict>,
    pseudoFamily: Option<string>,
    maxIterations: int,
    system2d: bool,
    cleanWorkdir: bool)

  datatype InputValidationError = NoPseudoSource | TwoPseudoSources

  /** `validate_inputs`: the pseudopotentials come from exactly one place, a
   *  family or the explicit `base.pseudos`. */
  function ValidateInputs(inputs: WorkChainInputs): (r: Option<InputValidationError>)
    ensures r.None? <==> (inputs.pseudoFamily.Some? != inputs.base.pseudos.Some?)
    ensures r == Some(NoPseudoSource) <==> inputs.pseudoFamily.None? && inputs.base.pseudos.None?
  {
    if inputs.pseudoFamily.None? && inputs.base.pseudos.None? then Some(NoPseudoSource)
    else if inputs.pseudoFamily.Some? && inputs.base.pseudos.Some? then Some(TwoPseudoSources)
    else None
  }

  // ----------------------------------------------------------------------
  // Parameter presets

  /** A stored `AbacusParameters` record as the query sees it: the `name` extra
   *  and the attributes. */
  datatype Preset = Preset(name: string, attributes: Dict)

  /** The errors `setup` raises. `MissingInput` is the attribute error of reading
   *  an optional input that was not given. */
  datatype SetupError =
    | MissingInput(input: string)
    | PresetCount(name: string, count: nat)
    | NoEcutwfc
    | BasisNotPw(basisType: Value)

  /** The records of the store whose name is `name`, in store order. */
  function Matching(store: seq<Preset>, name: string): (r: seq<Preset>)
    ensures |r| <= |store|
    ensures forall p :: p in r <==> p in store && p.name == name
    ensures forall p :: multiset(r)[p] == if p.name == name then multiset(store)[p] else 0
  {
    if store == [] then []
    else
      var rest := Matching(store[..|store| - 1], name);
      var last := store[|store| - 1];
      assert store == store[..|store| - 1] + [last];
      assert multiset(store) == multiset(store[..|store| - 1]) + multiset{last};
      if last.name == name then rest + [last] else rest
  }

  /** `get_abacus_paratamters`: exactly one preset of the given name, updated
   *  by the overrides; `ecutwfc` must be present and the basis must be plane
   *  waves; `nbands_factor` is dropped. */
  function ResolveParameters(store: seq<Preset>, inputs: WorkChainInputs): Result<Dict, SetupError>
  {
    if inputs.parametersName.None? then Failure(MissingInput("parameters_name"))
    else
      var name := inputs.parametersName.value;
      var matches := Matching(store, name);
      if |matches| != 1 then Failure(PresetCount(name, |matches|))
      else if inputs.parameters.None? then Failure(MissingInput("parameters"))
      else
        var merged := Update(matches[0].attributes, inputs.parameters.value);
        if !Has(merged, "ecutwfc") then Failure(NoEcutwfc)
        else
          var basis := Get(merged, "basis_type", VStr("pw"));
          if basis != VStr("pw") then Failure(BasisNotPw(basis))
          else Success(Pop(merged, "nbands_factor", VNone).1)
  }

  /** Resolution succeeds exactly when a name and overrides are given, exactly
   *  one preset has the name, `ecutwfc` is in the preset or the overrides and
   *  the merged `basis_type` is absent or "pw". The result is the preset
   *  overlaid by the overrides, which win on shared keys, without
   *  `nbands_factor`. */
  lemma ResolveParametersSpec(store: seq<Preset>, inputs: WorkChainInputs)
    ensures var r := ResolveParameters(store, inputs);
      r.Success? <==>
        && inputs.parametersName.Some? && inputs.parameters.Some?
        && |Matching(store, inputs.parametersName.value)| == 1
        && var merged := Matching(store, inputs.parametersName.value)[0].attributes.vals + inputs.parameters.value.vals;
           && "ecutwfc" in merged
           && ("basis_type" in merged ==> merged["basis_type"] == VStr("pw"))
    ensures var r := ResolveParameters(store, inputs);
      r.Success? ==>
        var preset := Matching(store, inputs.parametersName.value)[0].attributes.vals;
        var overrides := inputs.parameters.value.vals;
        && "ecutwfc" in r.value.vals
        && r.value.vals == (preset + overrides) - {"nbands_factor"}
  {
    if inputs.parametersName.Some? && inputs.parameters.Some? {
      var matches := Matching(store, inputs.parametersName.value);
      if |matches| == 1 {
        UpdateOverrides(matches[0].attributes, inputs.parameters.value);
      }
    }
  }

  /** A name that no record or more than one record carries is refused, with
   *  the number of matches. */
  lemma PresetNameMustBeUnique(store: seq<Preset>, inputs: WorkChainInputs)
    requires inputs.parametersName.Some?
    ensures var n := |Matching(store, inputs.parametersName.value)|;
      n != 1 ==> ResolveParameters(store, inputs) == Failure(PresetCount(inputs.parametersName.value, n))
  {
  }

  // ----------------------------------------------------------------------
  // The k-point mesh and the calculation scheme

  /** `create_kpoints_from_distance(structure, distance, force_parity=False, system_2d)`. */
  type KpointsFrom = (Structure, Value, bool) -> KpointsData

  /** `get_pseudos_from_structure(structure, family)`. */
  type PseudosFrom = (Structure, string) -> map<string, Pseudo>

  const DefaultMeshDensity := VStr("0.2")

  /** The mesh keys `generate_kpoints_mesh` pops: the parameters without them,
   *  and the density (default "0.2"). */
  function MeshSplit(p: Dict): (r: (Dict, Value))
  {
    var (density, withoutDensity) := Pop(p, "kpoints_mesh_density", DefaultMeshDensity);
    var (_, withoutOffset) := Pop(withoutDensity, "kpoints_mesh_offset", VNone);
    (withoutOffset, density)
  }

  /** Neither mesh key survives, the density is the user's or the default, and
   *  nothing else changes. */
  lemma MeshSplitSpec(p: Dict)
    ensures MeshSplit(p).0.vals == p.vals - {"kpoints_mesh_density", "kpoints_mesh_offset"}
    ensures MeshSplit(p).1 == if "kpoints_mesh_density" in p.vals then p.vals["kpoints_mesh_density"] else VStr("0.2")
  {
    var d := Pop(p, "kpoints_mesh_density", DefaultMeshDensity).1;
    assert d.vals - {"kpoints_mesh_offset"} == p.vals - {"kpoints_mesh_density", "kpoints_mesh_offset"};
  }

  const RelaxSchemes: seq<Value> := [VStr("relax"), VStr("cell-relax")]

  /** The `calculation` of the submitted parameters: the user's when it is one of
   *  the relax schemes, "relax" otherwise. */
  function CalculationScheme(p: Dict): (r: Value)
  {
    var calculation := Get(p, "calculation", VStr("relax"));
    if calculation !in RelaxSchemes then VStr("relax") else calculation
  }

  lemma CalculationSchemeSpec(p: Dict)
    ensures CalculationScheme(p) in RelaxSchemes
    ensures "calculation" in p.vals && p.vals["calculation"] in RelaxSchemes ==> CalculationScheme(p) == p.vals["calculation"]
    ensures ("calculation" !in p.vals || p.vals["calculation"] !in RelaxSchemes) ==> CalculationScheme(p) == VStr("relax")
  {
  }

  /** The parameters `setup` leaves: resolved, without the mesh keys, with the
   *  calculation scheme set. */
  function SetupParameters(resolved: Dict): Dict
  {
    var p := MeshSplit(resolved).0;
    Set(p, "calculation", CalculationScheme(p))
  }

  /** What the first submission will see: `ecutwfc`, no `nbands_factor` or mesh
   *  keys, a relax scheme, and every other key with the override's value when
   *  there is one, the preset's otherwise. */
  lemma SubmittedParameters(store: seq<Preset>, inputs: WorkChainInputs)
    requires ResolveParameters(store, inputs).Success?
    ensures var preset := Matching(store, inputs.parametersName.value)[0].attributes.vals;
      var overrides := inputs.parameters.value.vals;
      var p := SetupParameters(ResolveParameters(store, inputs).value).vals;
      && "ecutwfc" in p
      && "calculation" in p && p["calculation"] in RelaxSchemes
      && p - {"calculation"}
         == (preset + overrides) - {"nbands_factor", "kpoints_mesh_density", "kpoints_mesh_offset", "calculation"}
  {
    var preset := Matching(store, inputs.parametersName.value)[0].attributes.vals;
    var overrides := inputs.parameters.value.vals;
    var r := ResolveParameters(store, inputs).value;
    ResolveParametersSpec(store, inputs);
    SetupParametersVals(r);
    DropKeys(preset + overrides, r.vals, SetupParameters(r).vals, CalculationScheme(MeshSplit(r).0));
  }

  lemma DropKeys(merged: map<string, Value>, resolved: map<string, Value>, p: map<string, Value>, scheme: Value)
    requires resolved == merged - {"nbands_factor"}
    requires p == (resolved - {"kpoints_mesh_density", "kpoints_mesh_offset"})["calculation" := scheme]
    ensures p - {"calculation"} == merged - {"nbands_factor", "kpoints_mesh_density", "kpoints_mesh_offset", "calculation"}
  {
    var lhs := p - {"calculation"};
    var rhs := merged - {"nbands_factor", "kpoints_mesh_density", "kpoints_mesh_offset", "calculation"};
    forall k ensures k in lhs <==> k in rhs {
    }
    forall k | k in lhs ensures lhs[k] == rhs[k] {
      assert k in resolved;
    }
  }

  lemma SetupParametersVals(r: Dict)
    ensures SetupParameters(r).vals
      == (r.vals - {"kpoints_mesh_density", "kpoints_mesh_offset"})["calculation" := CalculationScheme(MeshSplit(r).0)]
    ensures CalculationScheme(MeshSplit(r).0) in RelaxSchemes
  {
    MeshSplitSpec(r);
    CalculationSchemeSpec(MeshSplit(r).0);
  }

  // ----------------------------------------------------------------------
  // Sub-processes

  /** How a submitted calculation terminated. */
  datatype ProcessState = FinishedWith(exitStatus: int) | Excepted | Killed

  datatype Handle = Handle(pk: int, state: ProcessState)

  predicate IsFailed(h: Handle) { h.state.FinishedWith? && h.state.exitStatus != 0 }

  /** Excepted, killed or failed: what `inspect_relax` reports. */
  predicate Unsuccessful(h: Handle) { h.state.Excepted? || h.state.Killed? || IsFailed(h) }

  /** ERROR_SUB_PROCESS_FAILED_RELAX. */
  const ExitSubProcessFailedRelax := 401

  /** The inputs of one submitted base calculation. `callLinkLabel` is the call link
   *  label, absent until the first submission. */
  datatype RelaxInputs = RelaxInputs(
    base: BaseInputs,
    kpoints: KpointsData,
    pseudos: Option<map<string, Pseudo>>,
    parameters: Dict,
    structure: Structure,
    callLinkLabel: Option<string>)

  /** `self.submit(BaseCalculation, **inputs)` followed by waiting for it. */
  type Submit = RelaxInputs -> Handle

  /** `h` is the handle of the submission labelled for iteration `n`, made on
   *  the structure `s`. */
  ghost predicate Submitted(h: Handle, submit: Submit, n: nat, s: Structure)
  {
    exists x: RelaxInputs :: h == submit(x) && x.callLinkLabel == Some(IterationLabel(n)) && x.structure == s
  }

  /** Appending the submission labelled for the next iteration keeps every
   *  handle tied to its own iteration. */
  lemma SubmittedExtend(handles: seq<Handle>, x: RelaxInputs, submit: Submit, s: Structure)
    requires forall i :: 0 <= i < |handles| ==> Submitted(handles[i], submit, i + 1, s)
    requires x.callLinkLabel == Some(IterationLabel(|handles| + 1)) && x.structure == s
    ensures forall i :: 0 <= i < |handles| + 1 ==> Submitted((handles + [submit(x)])[i], submit, i + 1, s)
  {
    forall i | 0 <= i < |handles| + 1 ensures Submitted((handles + [submit(x)])[i], submit, i + 1, s) {
      if i < |handles| {
        assert (handles + [submit(x)])[i] == handles[i];
      } else {
        assert (handles + [submit(x)])[i] == submit(x);
      }
    }
  }

  /** `f"iteration_{i:02d}"`. */
  function IterationLabel(i: nat): (r: string)
  {
    "iteration_" + ZeroPad2(i)
  }

  /** The label reads back as the iteration: "iteration_" then at least two
   *  digits whose value is `i`. */
  lemma IterationLabelReadsBack(i: nat)
    ensures var r := IterationLabel(i);
      && |r| >= 12 && r[..10] == "iteration_"
      && ParseInt(r[10..]) == Some(i)
  {
    var r := IterationLabel(i);
    assert r[10..] == ZeroPad2(i);
    ZeroPad2RoundTrip(i);
  }

  /** The inputs of submission `i`: the previous ones with the current
   *  structure, the band count as `nbnd` when one is known, and the label. */
  function NextRelaxInputs(previous: RelaxInputs, structure: Structure, bands: Option<int>, i: nat): RelaxInputs
  {
    previous.(
      structure := structure,
      parameters := if bands.Some? then Set(previous.parameters, "nbnd", VInt(bands.value)) else previous.parameters,
      callLinkLabel := Some(IterationLabel(i)))
  }

  /** The outcome of a whole run of the work chain. */
  datatype Outcome = Rejected(invalid: InputValidationError) | Raised(error: SetupError) | Finished(exitCode: int)

  // ----------------------------------------------------------------------
  // Cleaning on termination

  /** A process called, directly or not, by the work chain. */
  datatype Descendant = Descendant(pk: int, isCalcJob: bool)

  /** What cleaning one remote folder did. `IOError` and `OSError` are one. */
  datatype CleanOutcome = Cleaned | OSErrorRaised | KeyErrorRaised | OtherRaised

  /** `called_descendant.outputs.remote_folder._clean()`. */
  type Cleaner = int -> CleanOutcome

  /** The pks of the cleaned calculations, in descendant order, or the pk of the
   *  calculation whose cleaning raised an error that is not swallowed. */
  function CleanedPks(descendants: seq<Descendant>, clean: Cleaner): Result<seq<int>, int>
  {
    if descendants == [] then Success([])
    else
      var done :- CleanedPks(descendants[..|descendants| - 1], clean);
      var d := descendants[|descendants| - 1];
      if !d.isCalcJob then Success(done)
      else
        match clean(d.pk)
        case Cleaned => Success(done + [d.pk])
        case OSErrorRaised => Success(done)
        case KeyErrorRaised => Success(done)
        case OtherRaised => Failure(d.pk)
  }

  /** Cleaning walks the descendants in order: the run over `a + b` is the run
   *  over `a` followed by the run over `b`, with the pks cleaned in `a` first,
   *  and it stops at the first error that is not swallowed. */
  lemma {:induction false} CleanedPksAppend(a: seq<Descendant>, b: seq<Descendant>, clean: Cleaner)
    ensures CleanedPks(a + b, clean) ==
      match CleanedPks(a, clean)
      case Failure(e) => Failure(e)
      case Success(x) =>
        match CleanedPks(b, clean)
        case Failure(e) => Failure(e)
        case Success(y) => Success(x + y)
  {
    if b == [] {
      assert a + b == a;
      if CleanedPks(a, clean).Success? {
        assert CleanedPks(a, clean).value + [] == CleanedPks(a, clean).value;
      }
    } else {
      var front := b[..|b| - 1];
      assert (a + b)[..|a + b| - 1] == a + front;
      assert (a + b)[|a + b| - 1] == b[|b| - 1];
      CleanedPksAppend(a, front, clean);
      if CleanedPks(a, clean).Success? && CleanedPks(front, clean).Success? {
        var x := CleanedPks(a, clean).value;
        var y := CleanedPks(front, clean).value;
        assert x + y + [b[|b| - 1].pk] == x + (y + [b[|b| - 1].pk]);
      }
    }
  }

  /** Cleaning fails exactly when some calculation raises an error that is not
   *  swallowed; otherwise the cleaned pks are exactly those of the calculations
   *  whose folder was cleaned, and every calculation is cleaned when no
   *  cleaning raises. */
  lemma {:induction false} CleanedPksSpec(descendants: seq<Descendant>, clean: Cleaner)
    ensures var r := CleanedPks(descendants, clean);
      && (r.Success? <==> forall i :: 0 <= i < |descendants| && descendants[i].isCalcJob ==> clean(descendants[i].pk) != OtherRaised)
      && (r.Success? ==> forall x :: x in r.value <==>
            exists i :: 0 <= i < |descendants| && descendants[i].isCalcJob && clean(descendants[i].pk) == Cleaned && descendants[i].pk == x)
      && (r.Success? ==> |r.value| <= |descendants|)
  {
    if descendants != [] {
      var prefix := descendants[..|descendants| - 1];
      CleanedPksSpec(prefix, clean);
      var n := |descendants| - 1;
      var r := CleanedPks(descendants, clean);
      var d := descendants[n];
      assert forall i :: 0 <= i < n ==> prefix[i] == descendants[i];
      if r.Success? {
        var done := CleanedPks(prefix, clean).value;
        forall x | x in r.value
          ensures exists i :: 0 <= i < |descendants| && descendants[i].isCalcJob && clean(descendants[i].pk) == Cleaned && descendants[i].pk == x
        {
          if x !in done {
            assert descendants[n].pk == x;
          } else {
            var i :| 0 <= i < n && prefix[i].isCalcJob && clean(prefix[i].pk) == Cleaned && prefix[i].pk == x;
            assert descendants[i] == prefix[i];
          }
        }
        forall x | exists i :: 0 <= i < |descendants| && descendants[i].isCalcJob && clean(descendants[i].pk) == Cleaned && descendants[i].pk == x
          ensures x in r.value
        {
          var i :| 0 <= i < |descendants| && descendants[i].isCalcJob && clean(descendants[i].pk) == Cleaned && descendants[i].pk == x;
          if i < n {
            assert prefix[i] == descendants[i];
          }
        }
      }
    }
  }

  // ----------------------------------------------------------------------
  // The work chain

  /** The work chain's context. The fields hold placeholders until `Setup`. */
  class RelaxWorkChain {
    const inputs: WorkChainInputs
    var iteration: int
    var isConverged: bool
    var currentStructure: Structure
    var currentNumberOfBands: Option<int>
    var currentCellVolume: Option<real>
    var parameters: Dict
    var kpoints: KpointsData
    var relaxInputs: RelaxInputs
    var workchains: seq<Handle>

    /** Every submission is in `workchains`, one per iteration. */
    predicate Valid()
      reads this
    {
      0 <= iteration && |workchains| == iteration
    }

    constructor (inputs: WorkChainInputs)
      ensures this.inputs == inputs && workchains == [] && iteration == 0
    {
      this.inputs := inputs;
      iteration := 0;
      isConverged := false;
      currentStructure := inputs.structure;
      currentNumberOfBands := None;
      currentCellVolume := None;
      parameters := EmptyDict;
      kpoints := KpointsList;
      relaxInputs := RelaxInputs(inputs.base, KpointsList, None, EmptyDict, inputs.structure, None);
      workchains := [];
    }

    /** `should_run_relax`. */
    predicate ShouldRunRelax()
      reads this
    {
      !isConverged && iteration < inputs.maxIterations
    }

    /** `get_abacus_paratamters`. The error leaves the process; the context is
     *  then of no further interest. */
    method GetAbacusParameters(store: seq<Preset>) returns (err: Option<SetupError>)
      modifies this
      ensures var r := ResolveParameters(store, inputs);
        && (r.Failure? ==> err == Some(r.error))
        && (r.Success? ==> err.None? && parameters == r.value)
      ensures iteration == old(iteration) && isConverged == old(isConverged) && workchains == old(workchains)
      ensures currentStructure == old(currentStructure) && currentNumberOfBands == old(currentNumberOfBands)
      ensures currentCellVolume == old(currentCellVolume)
      ensures kpoints == old(kpoints) && relaxInputs == old(relaxInputs)
    {
      if inputs.parametersName.None? {
        return Some(MissingInput("parameters_name"));
      }
      var name := inputs.parametersName.value;
      var matches := Matching(store, name);
      if |matches| != 1 {
        return Some(PresetCount(name, |matches|));
      }
      if inputs.parameters.None? {
        return Some(MissingInput("parameters"));
      }
      parameters := Update(matches[0].attributes, inputs.parameters.value);
      if !Has(parameters, "ecutwfc") {
        return Some(NoEcutwfc);
      }
      var basisType := Get(parameters, "basis_type", VStr("pw"));
      if basisType != VStr("pw") {
        return Some(BasisNotPw(basisType));
      }
      var popped := Pop(parameters, "nbands_factor", VNone);
      var nbandsFactor := popped.0;
      parameters := popped.1;
      return None;
    }

    /** `generate_kpoints_mesh`: pops the mesh keys and asks for a mesh of the
     *  requested density for the current structure. */
    method GenerateKpointsMesh(kpointsFrom: KpointsFrom)
      modifies this
      ensures parameters == MeshSplit(old(parameters)).0
      ensures kpoints == kpointsFrom(currentStructure, MeshSplit(old(parameters)).1, inputs.system2d)
      ensures iteration == old(iteration) && isConverged == old(isConverged) && workchains == old(workchains)
      ensures currentStructure == old(currentStructure) && currentNumberOfBands == old(currentNumberOfBands)
      ensures currentCellVolume == old(currentCellVolume) && relaxInputs == old(relaxInputs)
    {
      var density := Get(parameters, "kpoints_mesh_density", DefaultMeshDensity);
      parameters := Pop(parameters, "kpoints_mesh_density", DefaultMeshDensity).1;
      var offset := Get(parameters, "kpoints_mesh_offset", VNone);
      parameters := Pop(parameters, "kpoints_mesh_offset", VNone).1;
      kpoints := kpointsFrom(currentStructure, density, inputs.system2d);
    }

    /** `prepare_for_relax`: the base inputs with the mesh, the family's pseudos
     *  when a family is given, the parameters (shared with the context) with the
     *  calculation scheme, and the current structure. */
    method PrepareForRelax(pseudosFrom: PseudosFrom)
      modifies this
      ensures parameters == Set(old(parameters), "calculation", CalculationScheme(old(parameters)))
      ensures relaxInputs == RelaxInputs(
        inputs.base, kpoints,
        if inputs.pseudoFamily.Some? then Some(pseudosFrom(currentStructure, inputs.pseudoFamily.value)) else inputs.base.pseudos,
        parameters, currentStructure, None)
      ensures iteration == old(iteration) && isConverged == old(isConverged) && workchains == old(workchains)
      ensures currentStructure == old(currentStructure) && currentNumberOfBands == old(currentNumberOfBands)
      ensures currentCellVolume == old(currentCellVolume) && kpoints == old(kpoints)
    {
      var calculation := Get(parameters, "calculation", VStr("relax"));
      if calculation !in RelaxSchemes {
        calculation := VStr("relax");
      }
      var pseudos := inputs.base.pseudos;
      if inputs.pseudoFamily.Some? {
        pseudos := Some(pseudosFrom(currentStructure, inputs.pseudoFamily.value));
      }
      parameters := Set(parameters, "calculation", calculation);
      relaxInputs := RelaxInputs(inputs.base, kpoints, pseudos, parameters, currentStructure, None);
    }

    /** The context `setup` leaves from the resolved parameters: the mesh of the
     *  requested density, the parameters without the mesh keys and with the
     *  calculation scheme, shared with the base inputs, the exposed base inputs
     *  themselves (code, options, settings), and the pseudos of the family when
     *  one is given. */
    ghost predicate ReadyToRelax(resolved: Dict, kpointsFrom: KpointsFrom, pseudosFrom: PseudosFrom)
      reads this
    {
      && kpoints == kpointsFrom(inputs.structure, MeshSplit(resolved).1, inputs.system2d)
      && parameters == SetupParameters(resolved)
      && relaxInputs.base == inputs.base
      && relaxInputs.parameters == parameters && relaxInputs.kpoints == kpoints
      && relaxInputs.structure == inputs.structure && relaxInputs.callLinkLabel.None?
      && relaxInputs.pseudos == if inputs.pseudoFamily.Some? then Some(pseudosFrom(inputs.structure, inputs.pseudoFamily.value)) else inputs.base.pseudos
    }

    /** `setup`: a fresh context, then the parameters, the mesh and the inputs. */
    method Setup(store: seq<Preset>, kpointsFrom: KpointsFrom, pseudosFrom: PseudosFrom) returns (err: Option<SetupError>)
      requires workchains == []
      modifies this
      ensures iteration == 0 && !isConverged && currentNumberOfBands.None? && currentCellVolume.None?
      ensures currentStructure == inputs.structure && workchains == [] && Valid()
      ensures var r := ResolveParameters(store, inputs);
        && (r.Failure? ==> err == Some(r.error))
        && (r.Success? ==> err.None? && ReadyToRelax(r.value, kpointsFrom, pseudosFrom))
    {
      currentNumberOfBands := None;
      currentStructure := inputs.structure;
      currentCellVolume := None;
      isConverged := false;
      iteration := 0;
      err := GetAbacusParameters(store);
      if err.Some? {
        return;
      }
      ghost var resolved := parameters;
      GenerateKpointsMesh(kpointsFrom);
      ghost var split := parameters;
      PrepareForRelax(pseudosFrom);
      assert parameters == Set(split, "calculation", CalculationScheme(split)) == SetupParameters(resolved);
    }

    /** `run_relax`: the next iteration, its label, the band count when one is
     *  known, and the submission appended to `workchains`. */
    method RunRelax(submit: Submit)
      requires Valid()
      modifies this
      ensures Valid() && iteration == old(iteration) + 1
      ensures relaxInputs == NextRelaxInputs(old(relaxInputs), currentStructure, currentNumberOfBands, iteration)
      ensures workchains == old(workchains) + [submit(relaxInputs)]
      ensures isConverged == old(isConverged) && currentStructure == old(currentStructure)
      ensures currentNumberOfBands == old(currentNumberOfBands) && currentCellVolume == old(currentCellVolume)
      ensures parameters == old(parameters) && kpoints == old(kpoints)
    {
      iteration := iteration + 1;
      var next := relaxInputs.(structure := currentStructure);
      if currentNumberOfBands.Some? {
        next := next.(parameters := Set(next.parameters, "nbnd", VInt(currentNumberOfBands.value)));
      }
      next := next.(callLinkLabel := Some(IterationLabel(iteration)));
      relaxInputs := next;
      var running := submit(relaxInputs);
      workchains := workchains + [running];
    }

    /** `inspect_relax`: 401 when the last calculation was excepted, killed or
     *  failed, nothing otherwise. It changes nothing: the structure, the band
     *  count and `is_converged` keep their values. */
    method InspectRelax() returns (exitCode: Option<int>)
      requires |workchains| > 0
      ensures exitCode.Some? <==> Unsuccessful(workchains[|workchains| - 1])
      ensures exitCode.Some? ==> exitCode.value == ExitSubProcessFailedRelax
    {
      var workchain := workchains[|workchains| - 1];
      if workchain.state.Excepted? || workchain.state.Killed? {
        return Some(ExitSubProcessFailedRelax);
      }
      if IsFailed(workchain) {
        return Some(ExitSubProcessFailedRelax);
      }
      return None;
    }

    /** The outline: validation, `setup`, then the relax loop, then `results`
     *  (a report only). The loop leaves the structure, the band count, the
     *  parameters and the mesh as `setup` made them. */
    method Run(store: seq<Preset>, kpointsFrom: KpointsFrom, pseudosFrom: PseudosFrom, submit: Submit)
      returns (outcome: Outcome)
      requires workchains == []
      modifies this
      ensures ValidateInputs(inputs).Some? ==> outcome == Rejected(ValidateInputs(inputs).value)
      ensures ValidateInputs(inputs).None? && ResolveParameters(store, inputs).Failure? ==>
        outcome == Raised(ResolveParameters(store, inputs).error)
      ensures ValidateInputs(inputs).None? && ResolveParameters(store, inputs).Success? ==>
        outcome.Finished? && LoopEnded(outcome.exitCode, submit)
      ensures ValidateInputs(inputs).None? && ResolveParameters(store, inputs).Success? ==>
        var resolved := ResolveParameters(store, inputs).value;
        && currentStructure == inputs.structure && currentNumberOfBands.None?
        && parameters == SetupParameters(resolved)
        && kpoints == kpointsFrom(inputs.structure, MeshSplit(resolved).1, inputs.system2d)
      ensures (&& ValidateInputs(inputs).None? && ResolveParameters(store, inputs).Success?
               && (forall x :: !Unsuccessful(submit(x)))) ==>
        outcome == Finished(0) && iteration == if inputs.maxIterations < 0 then 0 else inputs.maxIterations
    {
      var invalid := ValidateInputs(inputs);
      if invalid.Some? {
        return Rejected(invalid.value);
      }
      var err := Setup(store, kpointsFrom, pseudosFrom);
      if err.Some? {
        return Raised(err.value);
      }
      var exitCode := RelaxLoop(submit);
      return Finished(exitCode);
    }

    /** How the relax loop ends. The `i`-th recorded handle is the one `submit`
     *  returned for the inputs labelled `iteration_{i+1:02d}`, on the current
     *  structure. Since nothing sets `is_converged`, the loop ends with 0 exactly
     *  when none of its calculations was unsuccessful, after
     *  `max_meta_convergence_iterations` iterations (none when that is not
     *  positive); otherwise it stops with 401 right after the first
     *  unsuccessful calculation. */
    ghost predicate LoopEnded(exitCode: int, submit: Submit)
      reads this
    {
      && Valid() && !isConverged
      && (forall i :: 0 <= i < |workchains| ==> Submitted(workchains[i], submit, i + 1, currentStructure))
      && (exitCode == 0 || exitCode == ExitSubProcessFailedRelax)
      && (exitCode == 0 <==> forall i :: 0 <= i < |workchains| ==> !Unsuccessful(workchains[i]))
      && (exitCode == 0 ==> iteration == if inputs.maxIterations < 0 then 0 else inputs.maxIterations)
      && (exitCode == ExitSubProcessFailedRelax ==>
            && 1 <= iteration <= inputs.maxIterations
            && Unsuccessful(workchains[iteration - 1])
            && forall i :: 0 <= i < iteration - 1 ==> !Unsuccessful(workchains[i]))
    }

    /** `while_(should_run_relax)(run_relax, inspect_relax)`. No step updates
     *  the structure, the band count, the parameters or the mesh. With a
     *  substrate on which every calculation succeeds, the loop runs exactly
     *  `max_meta_convergence_iterations` times and ends with 0. */
    method RelaxLoop(submit: Submit) returns (exitCode: int)
      requires Valid() && !isConverged && iteration == 0
      modifies this
      ensures LoopEnded(exitCode, submit)
      ensures currentStructure == old(currentStructure) && currentNumberOfBands == old(currentNumberOfBands)
      ensures parameters == old(parameters) && kpoints == old(kpoints)
      ensures (forall x :: !Unsuccessful(submit(x))) ==>
        exitCode == 0 && iteration == if inputs.maxIterations < 0 then 0 else inputs.maxIterations
    {
      while ShouldRunRelax()
        invariant Valid() && !isConverged
        invariant iteration <= if inputs.maxIterations < 0 then 0 else inputs.maxIterations
        invariant forall i :: 0 <= i < iteration ==> !Unsuccessful(workchains[i])
        invariant forall i :: 0 <= i < |workchains| ==> Submitted(workchains[i], submit, i + 1, currentStructure)
        invariant currentStructure == old(currentStructure) && currentNumberOfBands == old(currentNumberOfBands)
        invariant parameters == old(parameters) && kpoints == old(kpoints)
        decreases inputs.maxIterations - iteration
      {
        ghost var before := workchains;
        RunRelax(submit);
        SubmittedExtend(before, relaxInputs, submit, currentStructure);
        var failed := InspectRelax();
        if failed.Some? {
          return failed.value;
        }
      }
      return 0;
    }

    /** `on_terminated`: nothing to clean unless `clean_workdir` is set; then
     *  every calculation among the descendants is cleaned in turn, I/O and key
     *  errors are swallowed, and the cleaned pks are collected in order. */
    method OnTerminated(descendants: seq<Descendant>, clean: Cleaner) returns (r: Result<seq<int>, int>)
      ensures !inputs.cleanWorkdir ==> r == Success([])
      ensures inputs.cleanWorkdir ==> r == CleanedPks(descendants, clean)
    {
      if !inputs.cleanWorkdir {
        return Success([]);
      }
      var cleanedCalcs: seq<int> := [];
      for i := 0 to |descendants|
        invariant CleanedPks(descendants[..i], clean) == Success(cleanedCalcs)
      {
        var d := descendants[i];
        assert descendants[..i + 1][..i] == descendants[..i];
        if d.isCalcJob {
          var outcome := clean(d.pk);
          if outcome.OtherRaised? {
            CleanedPksFailurePersists(descendants, clean, i + 1);
            return Failure(d.pk);
          }
          if outcome.Cleaned? {
            cleanedCalcs := cleanedCalcs + [d.pk];
          }
        }
      }
      assert descendants[..|descendants|] == descendants;
      return Success(cleanedCalcs);
    }
  }

  /** An error that is not swallowed ends the cleaning: once a prefix fails, so
   *  does every longer prefix. */
  lemma {:induction false} CleanedPksFailurePersists(descendants: seq<Descendant>, clean: Cleaner, i: nat)
    requires i <= |descendants| && CleanedPks(descendants[..i], clean).Failure?
    ensures CleanedPks(descendants, clean) == CleanedPks(descendants[..i], clean)
    decreases |descendants| - i
  {
    if i < |descendants| {
      assert descendants[..i + 1][..i] == descendants[..i];
      CleanedPksFailurePersists(descendants, clean, i + 1);
    } else {
      assert descendants[..i] == descendants;
    }
  }
}
