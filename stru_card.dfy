/** The STRU file (`BaseCalculation.write_STRU`): the ATOMIC_SPECIES block, the
 *  lattice constant, the lattice vectors and the ATOMIC_POSITIONS block, in that
 *  order, together with the pseudopotential files to stage beside it. */
module StruCard {
  import opened Wrappers
  import opened Text
  import opened Sorting
  import opened Values
  import opened Structures
  import opened SpeciesCard
  import opened PositionsCard

  /** The lattice constant is always 1 (Bohr): the vectors carry the scale. */
  const LatticeConstantBlock: seq<string> := ["LATTICE_CONSTANT", "1"]

  /** `"{0} {1} {2}".format(*row)` of a lattice vector. */
  function VectorLine(v: Vec3, fmt: Formats): string
  {
    fmt.repr(v.x) + " " + fmt.repr(v.y) + " " + fmt.repr(v.z)
  }

  function LatticeVectorsBlock(cell: seq<Vec3>, fmt: Formats): (r: seq<string>)
    ensures |r| == |cell| + 1 && r[0] == "LATTICE_VECTORS"
    ensures forall i :: 0 <= i < |cell| ==> r[i + 1] == VectorLine(cell[i], fmt)
  {
    ["LATTICE_VECTORS"] + seq(|cell|, i requires 0 <= i < |cell| => VectorLine(cell[i], fmt))
  }

  /** What `write_STRU` produces: the lines of the file and `local_copy_list`. */
  datatype StruOutput = StruOutput(lines: seq<string>, copies: seq<CopyEntry>)

  /** The STRU file for a structure, or the first error the writer meets: a kind
   *  without a pseudo, no kinds at all, a wrong number of magnetic moments, a
   *  wrong number of masks or an invalid mask. */
  function StruText(s: Structure, pseudos: map<string, Pseudo>, settings: Settings, unique: UniqueName, fmt: Formats)
    : Result<StruOutput, InputError>
    requires Valid(s)
  {
    var st :- AssignPseudos(s.kinds, pseudos, unique);
    if |s.kinds| == 0 then Failure(NoSpecies)
    else
      var sorted := SortByKey(SpeciesPairs(s.kinds, st.kindFiles, fmt));
      var mags :- MagneticStrings(settings.initialMagnetic, |s.kinds|, fmt);
      var masks :- FixedCoords(settings.fixedCoords, |s.sites|);
      GroupsAtMostKinds(s);
      Success(StruOutput(StruLines(sorted, s.cell, PositionsBlock(s.sites, masks, mags, fmt), fmt), st.copies))
  }

  /** The checks and their order: the writer fails exactly when some kind lacks
   *  a pseudo (with the error of the species loop), there are no kinds, the magnetic moments or the masks do not
   *  match, and the error is the one of the first failing check. */
  lemma StruErrors(s: Structure, pseudos: map<string, Pseudo>, settings: Settings, unique: UniqueName, fmt: Formats)
    requires Valid(s)
    ensures var r := StruText(s, pseudos, settings, unique, fmt);
      && (!HasPseudos(s.kinds, pseudos) ==>
            && AssignPseudos(s.kinds, pseudos, unique).Failure?
            && r == Failure(AssignPseudos(s.kinds, pseudos, unique).error)
            && r.error.MissingPseudo?)
      && (HasPseudos(s.kinds, pseudos) && |s.kinds| == 0 ==> r == Failure(NoSpecies))
      && (HasPseudos(s.kinds, pseudos) && |s.kinds| > 0 ==>
            var m := MagneticStrings(settings.initialMagnetic, |s.kinds|, fmt);
            var f := FixedCoords(settings.fixedCoords, |s.sites|);
            && (m.Failure? ==> r == Failure(m.error))
            && (m.Success? && f.Failure? ==> r == Failure(f.error))
            && (m.Success? && f.Success? ==> r.Success?))
  {
    AssignPseudosFailure(s.kinds, pseudos, unique);
  }

  /** The lines of `write_STRU`: the four cards, in order. */
  function StruLines(sorted: seq<(string, string)>, cell: seq<Vec3>, positions: seq<string>, fmt: Formats): seq<string>
  {
    SpeciesBlock(sorted) + LatticeConstantBlock + LatticeVectorsBlock(cell, fmt) + positions
  }

  /** What a successful writer run passed through: every check, and the cards. */
  lemma StruTextParts(s: Structure, pseudos: map<string, Pseudo>, settings: Settings, unique: UniqueName, fmt: Formats)
    requires Valid(s)
    requires StruText(s, pseudos, settings, unique, fmt).Success?
    ensures AssignPseudos(s.kinds, pseudos, unique).Success?
    ensures MagneticStrings(settings.initialMagnetic, |s.kinds|, fmt).Success?
    ensures FixedCoords(settings.fixedCoords, |s.sites|).Success?
    ensures |FirstSeen(SiteKinds(s.sites))| <= |s.kinds|
    ensures StruText(s, pseudos, settings, unique, fmt).value.lines == StruLines(
      SortByKey(SpeciesPairs(s.kinds, AssignPseudos(s.kinds, pseudos, unique).value.kindFiles, fmt)),
      s.cell,
      PositionsBlock(s.sites, FixedCoords(settings.fixedCoords, |s.sites|).value,
                     MagneticStrings(settings.initialMagnetic, |s.kinds|, fmt).value, fmt),
      fmt)
  {
    GroupsAtMostKinds(s);
  }

  /** The shape of a STRU file: the species header and one line per kind, the
   *  two lattice-constant lines, the vectors header and one line per vector, the
   *  positions header, then three lines per group and one per site. */
  ghost predicate StruShape(lines: seq<string>, nKinds: nat, nVectors: nat, nGroups: nat, nSites: nat)
  {
    var species := nKinds + 1;
    var vectors := nVectors + 1;
    && |lines| == species + 2 + vectors + 2 + 3 * nGroups + nSites
    && lines[0] == "ATOMIC_SPECIES"
    && lines[species..species + 2] == LatticeConstantBlock
    && lines[species + 2] == "LATTICE_VECTORS"
    && lines[species + 2 + vectors..species + 2 + vectors + 2] == ["ATOMIC_POSITIONS", "Direct"]
  }

  /** A written STRU file consists of the four cards in order: the species
   *  sorted by name, one line per kind; the lattice constant; one line per
   *  lattice vector; and the positions, three lines per group and one per site. */
  lemma StruLayout(s: Structure, pseudos: map<string, Pseudo>, settings: Settings, unique: UniqueName, fmt: Formats)
    requires Valid(s)
    requires StruText(s, pseudos, settings, unique, fmt).Success?
    ensures StruShape(StruText(s, pseudos, settings, unique, fmt).value.lines,
                      |s.kinds|, |s.cell|, |FirstSeen(SiteKinds(s.sites))|, |s.sites|)
  {
    StruTextParts(s, pseudos, settings, unique, fmt);
    var st := AssignPseudos(s.kinds, pseudos, unique).value;
    var pairs := SpeciesPairs(s.kinds, st.kindFiles, fmt);
    var mags := MagneticStrings(settings.initialMagnetic, |s.kinds|, fmt).value;
    var masks := FixedCoords(settings.fixedCoords, |s.sites|).value;
    SortedLength(pairs);
    PositionsBlockLength(s.sites, masks, mags, fmt);
    StruLinesLayout(SortByKey(pairs), s.cell, PositionsBlock(s.sites, masks, mags, fmt), fmt,
                    |FirstSeen(SiteKinds(s.sites))|, |s.sites|);
  }

  lemma SortedLength(pairs: seq<(string, string)>)
    ensures |SortByKey(pairs)| == |pairs|
  {
    assert |multiset(SortByKey(pairs))| == |multiset(pairs)|;
  }

  lemma StruLinesLayout(sorted: seq<(string, string)>, cell: seq<Vec3>, positions: seq<string>, fmt: Formats,
                        nGroups: nat, nSites: nat)
    requires |positions| == 2 + 3 * nGroups + nSites && positions[..2] == ["ATOMIC_POSITIONS", "Direct"]
    ensures StruShape(StruLines(sorted, cell, positions, fmt), |sorted|, |cell|, nGroups, nSites)
  {
    FourCards(SpeciesBlock(sorted), LatticeConstantBlock, LatticeVectorsBlock(cell, fmt), positions);
  }

  lemma FourCards(a: seq<string>, b: seq<string>, c: seq<string>, d: seq<string>)
    requires |a| > 0 && |b| == 2 && |c| > 0 && |d| >= 2
    ensures var all := a + b + c + d;
      && |all| == |a| + |b| + |c| + |d|
      && all[0] == a[0]
      && all[|a|..|a| + 2] == b
      && all[|a| + 2] == c[0]
      && all[|a| + 2 + |c|..|a| + 2 + |c| + 2] == d[..2]
  {
  }

  /** The staged files are those of the species pass: one per distinct pseudo. */
  lemma StruCopies(s: Structure, pseudos: map<string, Pseudo>, settings: Settings, unique: UniqueName, fmt: Formats)
    requires Valid(s)
    requires StruText(s, pseudos, settings, unique, fmt).Success?
    ensures HasPseudos(s.kinds, pseudos)
    ensures StruText(s, pseudos, settings, unique, fmt).value.copies == AssignPseudos(s.kinds, pseudos, unique).value.copies
    ensures |StruText(s, pseudos, settings, unique, fmt).value.copies|
      == |set i | 0 <= i < |s.kinds| :: PkAt(s.kinds, pseudos, i)|
  {
    AssignPseudosFailure(s.kinds, pseudos, unique);
    OneCopyPerPk(s.kinds, pseudos, unique);
  }

  /** The writer itself: the species loop over the kinds, keeping the staged name
   *  per pseudo pk, then the sort by kind name, the lattice cards, the magnetic
   *  moments and masks, and the positions card. */
  method WriteStru(s: Structure, pseudos: map<string, Pseudo>, settings: Settings, unique: UniqueName, fmt: Formats)
    returns (r: Result<StruOutput, InputError>)
    requires Valid(s)
    ensures r == StruText(s, pseudos, settings, unique, fmt)
  {
    var species := WriteSpecies(s.kinds, pseudos, unique, fmt);
    if species.Failure? {
      return Failure(species.error);
    }
    var pairs := species.value.pairs;
    var copies := species.value.copies;
    if |pairs| == 0 {
      return Failure(NoSpecies);
    }
    var sorted := SortByKey(pairs);
    // `mapping_species`, which the writer computes and does not use further.
    var mapping := Ranks(sorted);
    var magResult := MagneticStrings(settings.initialMagnetic, |s.kinds|, fmt);
    if magResult.Failure? {
      return Failure(magResult.error);
    }
    var fixedResult := FixedCoordsStrings(settings.fixedCoords, |s.sites|);
    if fixedResult.Failure? {
      return Failure(fixedResult.error);
    }
    GroupsAtMostKinds(s);
    var positions := AtomicPositions(s.sites, fixedResult.value, magResult.value, fmt);
    var lines := SpeciesBlock(sorted) + LatticeConstantBlock + LatticeVectorsBlock(s.cell, fmt) + positions;
    assert lines == StruLines(sorted, s.cell, positions, fmt);
    return Success(StruOutput(lines, copies));
  }
}
