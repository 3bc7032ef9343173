# aiida-abacus: a Dafny model of the input deck and the relax work chain

aiida-abacus is an AiiDA plugin for the ABACUS density-functional code. This
project models three parts of it.

- **The calculation job** (`BaseCalculation`). It turns a structure, a k-point
  mesh, pseudopotentials, parameters and settings into the three input files
  of an ABACUS run:
  - KPT: a Gamma-centred mesh line;
  - STRU: the species block, the lattice constant, the lattice vectors and the
    positions grouped by kind;
  - INPUT: the parameters in ascending key order.

  It also builds the job description: one code invocation, the pseudopotential
  files to stage and the fixed list of files to retrieve.
- **The relax work chain** (`RealxWorkChain`):
  - it checks where the pseudopotentials come from;
  - it resolves a named `AbacusParameters` preset and overlays the user's
    overrides;
  - it pops the mesh keys and asks for a k-point mesh;
  - it fixes the calculation scheme;
  - it submits the base calculation up to `max_meta_convergence_iterations`
    times, stopping with exit code 401 at the first sub-process that was
    excepted, killed or failed;
  - on termination it may clean the remote folders of the calculations it
    called.
- **The `AbacusParameters` data node**. Its name must be unique among stored
  records. It renders a command line with a `--key` flag per truthy value,
  followed by two file names.

Files are modelled as sequences of lines without the trailing newline. Python
dicts are modelled as an insertion-ordered key list plus a map. Three helpers
are function-typed parameters: the float rendering (`str`, `{:18.10f}`,
`{:0.1f}`), `get_unique_filename` and the helpers the work chain calls. The
same goes for the store, `submit` and remote-folder cleaning.

Each place where the code is stateful has a method proved against a
specification function:
- the species loop, the fixed-coordinate checks and the `ap_dict` scan;
- the group emission, the INPUT lines and `cmdline_params`;
- the cleaning loop;
- the work chain's context, as a class.

Lemmas then state what those functions promise.

Some behaviours of the code are easy to misread from its comments,
docstrings and messages; the model follows the code:
- The comment at base.py:156-157 says the pseudos were checked beforehand,
  but nothing checks them: a kind without a pseudo raises the `KeyError` of
  the dict lookup (`MissingPseudo`).
- An unsupported `calculation` value silently becomes "relax"
  (relax.py:191-193). An unsupported `basis_type` raises.
- The docstring of `inspect_relax` (relax.py:228-231) describes a
  cell-volume convergence test, but the code neither updates the structure
  nor sets `is_converged`. A loop whose calculations all succeed therefore
  runs exactly `max_meta_convergence_iterations` times.
- Cleaning swallows only I/O, OS and key errors. Any other error raised while
  cleaning ends `on_terminated` with that error (`CleanedPks` returns the pk).
- The message at base.py:222-225 counts the moments against the kinds: the
  magnetic moment given to the `idx`-th group of ATOMIC_POSITIONS is the
  `idx`-th entry of the list. Groups follow the order in which kinds first
  appear among the sites, while the list's length is checked against
  `structure.kinds`. The model keeps this indexing as written (`Blocks`).

## Model

| member | source | states |
|---|---|---|
| Text.LJust | aiida_abacus/calculations/base.py:179 | `ljust(w)`: the string, then blanks up to width `w`, never truncated |
| Text.IntToStringRoundTrip | aiida_abacus/calculations/base.py:126 | every `{:d}` numeral, negative or not, reads back as its integer |
| Text.ZeroPad2RoundTrip | aiida_abacus/workflows/relax.py:217 | a `{:02d}` numeral reads back as its number |
| Text.ReadIntegersJoin | aiida_abacus/calculations/base.py:124-127 | integers joined by single blanks split and parse back to the same list |
| Sorting.SortByKey | aiida_abacus/calculations/base.py:185-187 | `sorted` returns a permutation of its input |
| Sorting.SortByKeySorted | aiida_abacus/calculations/base.py:185-187 | with distinct names, `sorted` on (name, line) pairs gives strictly increasing names |
| Sorting.SortedUnique | aiida_abacus/calculations/base.py:316 | two strictly sorted lists with the same elements are equal |
| Values.Set | aiida_abacus/calculations/base.py:306-309 | `d[k] = v` maps `k` to `v`; an existing key keeps its place and a new key goes last |
| Values.Pop | aiida_abacus/workflows/relax.py:150 | `d.pop(k, default)` returns the stored value or the default, and the dict without `k` |
| Values.UpdateOverrides | aiida_abacus/workflows/relax.py:133-134 | after `update`, the overriding dict wins on shared keys and every other key keeps its value |
| Values.ItemsMembership | aiida_abacus/calculations/base.py:316 | `items()` holds exactly the key/value pairs of the dict |
| KptCard.WriteKpt | aiida_abacus/calculations/base.py:107-132 | no mesh gives an error; an offset other than 0 or 0.5 gives an error; otherwise four lines whose last is the six `{:d}` numerals joined by blanks, reading back as the mesh and the offset flags |
| KptCard.OffsetFlags | aiida_abacus/calculations/base.py:119-123 | each offset flag is 0 or 1, and it is 1 exactly for an offset of 0.5 |
| KptCard.ExampleMesh | aiida_abacus/calculations/base.py:117-128 | a 4x4x1 mesh with offset (0, 0.5, 0) gives the lines K_POINTS, 0, Gamma, "4 4 1 0 1 0" |
| PositionsCard.MagneticStrings | aiida_abacus/calculations/base.py:215-227 | with no setting, "0.0" for each kind; with one, an error unless there is exactly one value per kind, else `{:0.1f}` of each value |
| PositionsCard.MaskError | aiida_abacus/calculations/base.py:245-254 | an invalid mask fails on its length first, and on its elements only when it has length three |
| PositionsCard.MaskLineReadsBack | aiida_abacus/calculations/base.py:256-258 | a mask line is two blanks followed by the three flags, which read back as the mask |
| PositionsCard.FixedCoords | aiida_abacus/calculations/base.py:229-243 | no setting gives the free mask for every site; a wrong number of masks gives an error naming both counts |
| PositionsCard.MaskLinesCharacterised | aiida_abacus/calculations/base.py:245-258 | masks are accepted exactly when all are valid; each is rendered in place; otherwise the error names the first invalid one (1-based) |
| PositionsCard.MaskLinesFailurePersists | aiida_abacus/calculations/base.py:245-254 | the first invalid mask decides the error whatever follows it |
| PositionsCard.FixedCoordsStrings | aiida_abacus/calculations/base.py:229-258 | the validation loop returns exactly the mask lines or the error of `FixedCoords` |
| PositionsCard.FirstSeenProperties | aiida_abacus/calculations/base.py:264-284 | the keys of `ap_dict` are distinct and are exactly the kinds present among the sites |
| PositionsCard.FirstSeenOrder | aiida_abacus/calculations/base.py:275-284 | the keys come in order of first appearance among the sites |
| PositionsCard.SitesOfMembers | aiida_abacus/calculations/base.py:275-282 | a kind's group holds exactly the position lines of its sites |
| PositionsCard.GroupsPartitionSites | aiida_abacus/calculations/base.py:265-282 | every site lands in exactly one group: the group sizes add up to the number of sites |
| PositionsCard.GroupsAtMostKinds | aiida_abacus/calculations/base.py:284-292 | a valid structure has no more groups than kinds, so every group finds a magnetic moment |
| PositionsCard.GroupCountReadsBack | aiida_abacus/calculations/base.py:286-291 | a group's third line reads back as the number of its position lines |
| PositionsCard.PositionsBlockLength | aiida_abacus/calculations/base.py:260-294 | the card is the two header lines, then three lines per group and one line per site |
| PositionsCard.ScanSites | aiida_abacus/calculations/base.py:264-282 | the scan's key order is first-seen order, and each group's count equals its number of position lines, which are exactly its sites in site order |
| PositionsCard.EmitGroups | aiida_abacus/calculations/base.py:284-292 | the groups are emitted in key order, the `idx`-th group with the `idx`-th magnetic moment |
| PositionsCard.AtomicPositions | aiida_abacus/calculations/base.py:260-294 | the scan followed by the emission produces exactly the specified card |
| SpeciesCard.SpeciesStep | aiida_abacus/calculations/base.py:155-180 | one kind adds exactly one staged name and keeps the staging state well formed |
| SpeciesCard.AssignPseudos | aiida_abacus/calculations/base.py:150-180 | the loop stages one name per kind and keeps the state well formed |
| SpeciesCard.AssignPseudosFailurePersists | aiida_abacus/calculations/base.py:155-158 | the first kind without a pseudo ends the loop with its error |
| SpeciesCard.AssignPseudosInv | aiida_abacus/calculations/base.py:146-175 | when every kind has a pseudo, the loop succeeds; each kind's pk maps to that kind's staged name; copy entry j is for the j-th recorded pk and comes from the first kind with that pk |
| SpeciesCard.AssignPseudosFailure | aiida_abacus/calculations/base.py:155-158 | the loop fails exactly when some kind lacks a pseudo, with the error of the first such kind |
| SpeciesCard.SharedPseudoSharedFile | aiida_abacus/calculations/base.py:160-162 | kinds whose pseudos share a pk get the same staged file name |
| SpeciesCard.OneCopyPerPk | aiida_abacus/calculations/base.py:163-175 | the copy list has exactly one entry per distinct pseudo pk |
| SpeciesCard.CopyFromFirstKind | aiida_abacus/calculations/base.py:163-175 | each copy entry is the uuid and file name of the first kind's pseudo for that pk, copied to pseudo/ under the kind's staged name |
| SpeciesCard.SpeciesPairs | aiida_abacus/calculations/base.py:177-180 | one (name, line) pair per kind, in kind order |
| SpeciesCard.WriteSpecies | aiida_abacus/calculations/base.py:150-180 | the species loop returns the missing-pseudo error, or the staged copies and one (name, line) pair per kind |
| SpeciesCard.StageKind | aiida_abacus/calculations/base.py:158-175 | one pass reuses the name for a known pk; for a new pk it records a fresh name and its copy entry |
| SpeciesCard.SpeciesBlock | aiida_abacus/calculations/base.py:195-198 | the header, then the sorted lines in order |
| SpeciesCard.SpeciesSorted | aiida_abacus/calculations/base.py:182-198 | the block lists every kind's line exactly once, in strictly increasing kind-name order |
| SpeciesCard.RanksOfListed | aiida_abacus/calculations/base.py:188-193 | `mapping_species` gives each sorted name its 1-based position |
| SpeciesCard.RanksArePositions | aiida_abacus/calculations/base.py:188-193 | every rank in `mapping_species` lies in 1..#kinds and points back to its name |
| StruCard.LatticeVectorsBlock | aiida_abacus/calculations/base.py:206-211 | the header, then one line per cell row |
| StruCard.StruErrors | aiida_abacus/calculations/base.py:134-302 | the checks run in order (missing pseudo, no kinds, magnetic length, masks); the writer fails exactly when one fails, with the first failure's error; a missing pseudo fails with the error of the species loop |
| StruCard.StruTextParts | aiida_abacus/calculations/base.py:297-301 | a written file is the four cards in order, built from the checked inputs |
| StruCard.StruLayout | aiida_abacus/calculations/base.py:297-301 | line counts and headers: one species line per kind, two lattice-constant lines, one line per vector, three lines per group and one per site |
| StruCard.StruCopies | aiida_abacus/calculations/base.py:163-175 | the staged files are those of the species loop, one per distinct pseudo |
| StruCard.WriteStru | aiida_abacus/calculations/base.py:134-302 | the writer returns exactly the specified file and copy list, or the first error |
| InputCard.ValidatedParameters | aiida_abacus/calculations/base.py:304-310 | `suffix` and `pseudo_dir` are forced; `ntype` is the user's or else the number of kinds; every other parameter is as given; no other key is added |
| InputCard.InputItemsSorted | aiida_abacus/calculations/base.py:316 | the sorted items hold every parameter exactly once, with keys strictly ascending |
| InputCard.InputOrderIndependent | aiida_abacus/calculations/base.py:312-319 | the INPUT file depends only on the parameters, not on their insertion order |
| InputCard.InputLayout | aiida_abacus/calculations/base.py:312-319 | the header, then one `key  value` line per parameter, keys ascending |
| InputCard.InputLineColumns | aiida_abacus/calculations/base.py:317 | a key of up to 18 characters fills the first column; the value starts at column 20 |
| InputCard.ParameterLinesEach | aiida_abacus/calculations/base.py:316-317 | one line per item, in item order |
| InputCard.WriteInput | aiida_abacus/calculations/base.py:312-319 | the writer's lines are exactly the specified INPUT file |
| Calculation.SubmissionErrors | aiida_abacus/calculations/base.py:82-90 | the job is prepared exactly when STRU and KPT are accepted; a STRU error comes first |
| Calculation.SubmissionContents | aiida_abacus/calculations/base.py:82-105 | one code invocation with no arguments, standard output to the output file and the MPI flag; the STRU writer's copies are staged; INPUT is its header plus one line per validated parameter; KPT has four lines |
| Calculation.RetrievedFiles | aiida_abacus/calculations/base.py:97-103 | the retrieve list is the fixed default list; a renamed output file is retrieved only if it is in that list; with the default options standard output is retrieved and MPI is used |
| Calculation.InputFilenameIgnored | aiida_abacus/calculations/base.py:33-37 | the `input_filename` option does not change the prepared job: the parameters always go to INPUT |
| Calculation.PrepareForSubmission | aiida_abacus/calculations/base.py:82-105 | the preparation returns exactly the specified job or the first writer error |
| Relax.ValidateInputs | aiida_abacus/workflows/relax.py:17-25 | accepted exactly when one of `pseudo_family` and `base.pseudos` is given; neither gives the first error |
| Relax.Matching | aiida_abacus/workflows/relax.py:124-126 | the query returns exactly the stored presets with the given name, each as many times as it is stored |
| Relax.ResolveParametersSpec | aiida_abacus/workflows/relax.py:122-152 | succeeds iff name and overrides are given, one preset matches, `ecutwfc` is present and the basis is "pw"; result is preset overlaid by overrides, minus `nbands_factor` |
| Relax.PresetNameMustBeUnique | aiida_abacus/workflows/relax.py:123-132 | zero or several matching presets raise with the match count |
| Relax.MeshSplitSpec | aiida_abacus/workflows/relax.py:154-161 | both mesh keys are removed; the density is the user's or "0.2"; nothing else changes |
| Relax.CalculationSchemeSpec | aiida_abacus/workflows/relax.py:191-193 | the scheme is always a relax scheme: the user's if valid, "relax" otherwise |
| Relax.SubmittedParameters | aiida_abacus/workflows/relax.py:173-206 | the first submission gets `ecutwfc` and a relax scheme, and otherwise exactly preset + overrides without the popped keys |
| Relax.IterationLabelReadsBack | aiida_abacus/workflows/relax.py:217 | the call link label is "iteration_" followed by at least two digits that read back as the iteration |
| Relax.CleanedPksSpec | aiida_abacus/workflows/relax.py:272-280 | cleaning fails iff a calculation raises an error that is not swallowed; the result is exactly the calculations whose folder was cleaned |
| Relax.CleanedPksAppend | aiida_abacus/workflows/relax.py:274-280 | cleaning the descendants `a + b` is cleaning `a` and then `b`: the pks of `a` come first, and the first error that is not swallowed ends it |
| Relax.CleanedPksFailurePersists | aiida_abacus/workflows/relax.py:274-280 | an error that is not swallowed stops the cleaning |
| Relax.RelaxWorkChain.GetAbacusParameters | aiida_abacus/workflows/relax.py:122-152 | returns the resolution's error, or stores the resolved parameters; the rest of the context (including the mesh and the relax inputs) is unchanged |
| Relax.RelaxWorkChain.GenerateKpointsMesh | aiida_abacus/workflows/relax.py:154-171 | pops the mesh keys and stores the mesh for the current structure at the popped density; the rest of the context, the relax inputs included, is unchanged |
| Relax.RelaxWorkChain.PrepareForRelax | aiida_abacus/workflows/relax.py:190-207 | sets the scheme on the shared parameters; base inputs get the mesh, the family's pseudos (when given) and the current structure |
| Relax.RelaxWorkChain.Setup | aiida_abacus/workflows/relax.py:173-181 | a fresh context at iteration 0, then the resolution's error or a context ready to relax: the mesh, the parameters, and relax inputs carrying the exposed base inputs, the mesh, the parameters, the structure and the pseudos |
| Relax.RelaxWorkChain.RunRelax | aiida_abacus/workflows/relax.py:209-225 | next iteration; inputs get the current structure, `nbnd` when known and the label; the submission is appended |
| Relax.RelaxWorkChain.InspectRelax | aiida_abacus/workflows/relax.py:227-243 | 401 exactly when the last calculation was excepted, killed or failed; nothing changes |
| Relax.RelaxWorkChain.Run | aiida_abacus/workflows/relax.py:92-104 | invalid inputs are rejected; setup errors are raised; otherwise the loop ends as `LoopEnded` states, and with a `submit` whose calculations always succeed it finishes with 0 after exactly max-iterations runs; the structure, band count, parameters and mesh end as setup left them |
| Relax.RelaxWorkChain.RelaxLoop | aiida_abacus/workflows/relax.py:183-188 | the i-th recorded handle is what `submit` returned for the inputs labelled `iteration_{i+1:02d}` on the current structure; ends with 0 after max-iterations runs when all succeed, else 401 right after the first unsuccessful one; with a `submit` that always succeeds, exit code 0 after exactly max-iterations runs; the structure, band count, parameters and mesh are unchanged |
| Relax.RelaxWorkChain.OnTerminated | aiida_abacus/workflows/relax.py:264-285 | nothing when `clean_workdir` is off; otherwise exactly the specified cleaning |
| AbacusData.Count | aiida_abacus/data/parameters.py:54-57 | the count is positive exactly when a stored record has the name |
| AbacusData.Validate | aiida_abacus/data/parameters.py:40-64 | refused with a uniqueness error exactly when the name is taken; the dict comes back unchanged otherwise |
| AbacusData.FlagsSpec | aiida_abacus/data/parameters.py:79-82 | a key has a `--key` flag exactly when its value is truthy; every flag names a truthy key; one flag per truthy key |
| AbacusData.FlagsInKeyOrder | aiida_abacus/data/parameters.py:80-82 | the flags follow the dict's key order |
| AbacusData.CommandLineShape | aiida_abacus/data/parameters.py:66-86 | one flag per truthy key, then the two file names as `str` |
| AbacusData.AbacusParameters.Create | aiida_abacus/data/parameters.py:25-38 | a taken name is refused; otherwise a new node holds the dict (empty when none) with the `name` and `username` extras |
| AbacusData.AbacusParameters.SetExtra | aiida_abacus/data/parameters.py:37-38 | sets one extra and leaves the dict alone |
| AbacusData.AbacusParameters.CmdlineParams | aiida_abacus/data/parameters.py:66-86 | the loop returns exactly the specified command line |

## Left out

- File I/O: files are returned as line lists. The trailing newline of each line and the folder paths are not modelled.
- Floating-point rendering (`str`, `{:18.10f}`, `{:0.1f}`, masses) is uninterpreted.
- PositionsCard.FixedCoords, PositionsCard.MagneticStrings: the settings are typed. Mask entries are integers. A float such as 1.0 passes the 0-or-1 check (base.py:251), and `{:d}` then raises `ValueError` on it (base.py:257); that error is not modelled. Magnetic moments are reals, so the `TypeError` that `{:0.1f}` raises on a non-number (base.py:227) is not modelled.
- `get_unique_filename` is not part of this model. It is a parameter, so the model does not show that staged names never collide.
- External helpers are parameters without contracts, so the model proves nothing about their results:
  - `create_kpoints_from_distance`, `get_pseudos_from_structure` and the engine's `submit`;
  - the database query, and the remote folder's `_clean`.
- The engine's suspension between steps, the process reports, and the `results` step (a report only) are left out.
- The final SCF step and exit code 402 are left out: they are commented out or unused in the outline.
- Parameter values are scalars (`str`, `int`, `bool`, `float`, `None`). Lists and nested dicts, and their truth values, are not modelled.
- The `orm.Dict` conversion in `run_relax` is the identity.
- Aliasing is not modelled: the relax inputs share their parameters with the context. `PrepareForRelax` writes the same value into both, but an `nbnd` set in `run_relax` reaches only the inputs.
- `AbacusParameters.__str__`, the command-line interface and the plugin's other modules are not part of this model.
- Relax.RelaxWorkChain.GenerateKpointsMesh: the density is handed to the mesh generator as is. The error `orm.Float` raises on a non-numeric `kpoints_mesh_density` (relax.py:165) is not modelled, because the conversion is part of the generator parameter.
- `parameters_name` and `parameters` are optional inputs that the code reads unconditionally. Their absence is modelled as the error `MissingInput`.
