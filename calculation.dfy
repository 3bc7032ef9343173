/** `BaseCalculation.prepare_for_submission`: the three input files of an ABACUS
 *  run (STRU, KPT and INPUT, written in that order into the job folder), the
 *  single code invocation and the files to stage and to retrieve. */
module Calculation {
  import opened Wrappers
  import opened Values
  import opened Structures
  import opened SpeciesCard
  import opened KptCard
  import opened StruCard
  import opened InputCard

  const DefaultInputFile := "INPUT"
  const DefaultOutputFile := "aiida.out"
  /** The files brought back after the run, whatever the job's options say. */
  const RetrieveList: seq<string> := ["OUT.aiida", DefaultInputFile, DefaultOutputFile]

  /** `metadata.options`: the defaults are "INPUT", "aiida.out" and an MPI run. */
  datatype Options = Options(inputFilename: string, outputFilename: string, withmpi: bool)
  const DefaultOptions := Options(DefaultInputFile, DefaultOutputFile, true)

  /** The inputs of the calculation job the preparation reads. */
  datatype CalcInputs = CalcInputs(
    codeUuid: string,
    structure: Structure,
    kpoints: KpointsData,
    parameters: Dict,
    pseudos: map<string, Pseudo>,
    settings: Settings,
    options: Options)

  /** How to run the code: its uuid, no command-line arguments, where to send
   *  standard output and whether to use MPI. */
  datatype CodeInfo = CodeInfo(codeUuid: string, cmdlineParams: seq<string>, stdoutName: string, withmpi: bool)

  datatype CalcInfo = CalcInfo(codesInfo: seq<CodeInfo>, localCopyList: seq<CopyEntry>, retrieveList: seq<string>)

  /** The job folder's three files, by their fixed names, and the job description. */
  datatype Prepared = Prepared(stru: seq<string>, kpt: seq<string>, input: seq<string>, info: CalcInfo)

  /** The preparation: the STRU writer's errors come first, then the KPT writer's;
   *  the INPUT writer cannot fail. */
  function Submission(inputs: CalcInputs, unique: UniqueName, fmt: Formats): Result<Prepared, InputError>
    requires Valid(inputs.structure)
  {
    Assemble(inputs, StruText(inputs.structure, inputs.pseudos, inputs.settings, unique, fmt), WriteKpt(inputs.kpoints), fmt)
  }

  /** The job from the outcomes of the two writers that can fail. */
  function Assemble(inputs: CalcInputs, stru: Result<StruOutput, InputError>, kpt: Result<seq<string>, InputError>,
                    fmt: Formats): Result<Prepared, InputError>
  {
    match stru
    case Failure(e) => Failure(e)
    case Success(s) =>
      match kpt
      case Failure(e) => Failure(e)
      case Success(k) =>
        var input := InputText(ValidateParameters(inputs.parameters, |inputs.structure.kinds|), fmt);
        var code := CodeInfo(inputs.codeUuid, [], inputs.options.outputFilename, inputs.options.withmpi);
        Success(Prepared(s.lines, k, input, CalcInfo([code], s.copies, RetrieveList)))
  }

  /** A job is prepared exactly when both the structure and the k-point writers
   *  accept their inputs; otherwise it fails with the STRU error if there is one,
   *  else with the KPT error. */
  lemma SubmissionErrors(inputs: CalcInputs, unique: UniqueName, fmt: Formats)
    requires Valid(inputs.structure)
    ensures var r := Submission(inputs, unique, fmt);
      var s := StruText(inputs.structure, inputs.pseudos, inputs.settings, unique, fmt);
      var k := WriteKpt(inputs.kpoints);
      && (r.Success? <==> s.Success? && k.Success?)
      && (s.Failure? ==> r == Failure(s.error))
      && (s.Success? && k.Failure? ==> r == Failure(k.error))
  {
  }

  /** A prepared job runs the code once, with no arguments and standard output
   *  going to the output file of the options; it stages exactly the
   *  pseudopotentials of the STRU writer, one per distinct pseudo, and the
   *  INPUT file holds the validated parameters. */
  lemma SubmissionContents(inputs: CalcInputs, unique: UniqueName, fmt: Formats)
    requires Valid(inputs.structure)
    requires Submission(inputs, unique, fmt).Success?
    ensures var p := Submission(inputs, unique, fmt).value;
      && |p.info.codesInfo| == 1
      && p.info.codesInfo[0].cmdlineParams == []
      && p.info.codesInfo[0].stdoutName == inputs.options.outputFilename
      && p.info.codesInfo[0].withmpi == inputs.options.withmpi
      && p.info.localCopyList == AssignPseudos(inputs.structure.kinds, inputs.pseudos, unique).value.copies
      && p.input[0] == "INPUT_PARAMETERS"
      && |p.input| == |ValidateParameters(inputs.parameters, |inputs.structure.kinds|).keys| + 1
      && |p.kpt| == 4
  {
    StruCopies(inputs.structure, inputs.pseudos, inputs.settings, unique, fmt);
    InputLayout(ValidateParameters(inputs.parameters, |inputs.structure.kinds|), fmt);
  }

  /** The retrieved files do not follow the options: the default output file is
   *  always brought back, and an output file renamed to anything outside the
   *  fixed list is captured on the remote side but not retrieved; with the
   *  default options standard output is retrieved and the run uses MPI. */
  lemma RetrievedFiles(inputs: CalcInputs, unique: UniqueName, fmt: Formats)
    requires Valid(inputs.structure)
    requires Submission(inputs, unique, fmt).Success?
    ensures var info := Submission(inputs, unique, fmt).value.info;
      && info.retrieveList == RetrieveList
      && DefaultOutputFile in info.retrieveList && DefaultInputFile in info.retrieveList
      && (info.codesInfo[0].stdoutName in info.retrieveList <==> inputs.options.outputFilename in RetrieveList)
      && (inputs.options == DefaultOptions ==>
            info.codesInfo[0].stdoutName in info.retrieveList && info.codesInfo[0].withmpi)
  {
  }

  /** The `input_filename` option is declared but never read: the parameters
   *  always go to the file named INPUT, whatever the option says. */
  lemma InputFilenameIgnored(inputs: CalcInputs, name: string, unique: UniqueName, fmt: Formats)
    requires Valid(inputs.structure)
    ensures Submission(inputs.(options := inputs.options.(inputFilename := name)), unique, fmt)
      == Submission(inputs, unique, fmt)
  {
  }

  /** `prepare_for_submission`: writes STRU, then KPT, then INPUT, and
   *  assembles the job description. */
  method PrepareForSubmission(inputs: CalcInputs, unique: UniqueName, fmt: Formats)
    returns (r: Result<Prepared, InputError>)
    requires Valid(inputs.structure)
    ensures r == Submission(inputs, unique, fmt)
  {
    var localCopyList: seq<CopyEntry> := [];
    var stru := WriteStru(inputs.structure, inputs.pseudos, inputs.settings, unique, fmt);
    if stru.Failure? {
      return Failure(stru.error);
    }
    var kpt := WriteKpt(inputs.kpoints);
    if kpt.Failure? {
      return Failure(kpt.error);
    }
    var input := WriteInput(inputs.parameters, |inputs.structure.kinds|, fmt);
    localCopyList := localCopyList + stru.value.copies;
    assert localCopyList == stru.value.copies;
    var code := CodeInfo(inputs.codeUuid, [], inputs.options.outputFilename, inputs.options.withmpi);
    r := Success(Prepared(stru.value.lines, kpt.value, input, CalcInfo([code], localCopyList, RetrieveList)));
    assert r == Assemble(inputs, stru, kpt, fmt);
  }
}
