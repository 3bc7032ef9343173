/** The ATOMIC_SPECIES block of the STRU file and the pseudopotential files staged
 *  with it (the first loop of `BaseCalculation.write_STRU`). Kinds whose pseudos
 *  are the same node (same pk) share one staged file name, and only the first kind
 *  to meet a pk adds a copy entry; the block lists the kinds sorted by name. */
module SpeciesCard {
  import opened Wrappers
  import opened Text
  import opened Sorting
  import opened Values
  import opened Structures
  import opened Seqs

  const PseudoSubfolder := "pseudo"

  /** One entry of `local_copy_list`: uuid of the node, file inside it, target path. */
  datatype CopyEntry = CopyEntry(uuid: string, filename: string, target: string)

  /** `get_unique_filename(name, used)`, whose code is not part of this model. */
  type UniqueName = (string, seq<string>) -> string

  /** The loop state: `pseudo_filenames` (pk -> staged name, with its insertion
   *  order), `local_copy_list_to_append`, and the staged name chosen per kind. */
  datatype SpeciesState = SpeciesState(
    filenames: map<int, string>,
    pkOrder: seq<int>,
    copies: seq<CopyEntry>,
    kindFiles: seq<string>)
  {
    predicate WellFormed()
    {
      && |copies| == |pkOrder|
      && (forall j :: 0 <= j < |pkOrder| ==> pkOrder[j] in filenames)
      && (forall p :: p in filenames ==> p in pkOrder)
    }

    /** `list(pseudo_filenames.values())`. */
    function UsedNames(): seq<string>
      requires WellFormed()
    {
      DictValues(filenames, pkOrder)
    }
  }

  /** The values of a dictionary in the insertion order `order` of its keys. */
  function DictValues(m: map<int, string>, order: seq<int>): (r: seq<string>)
    requires forall j :: 0 <= j < |order| ==> order[j] in m
    ensures |r| == |order| && forall j :: 0 <= j < |order| ==> r[j] == m[order[j]]
  {
    seq(|order|, j requires 0 <= j < |order| => m[order[j]])
  }

  const InitialState := SpeciesState(map[], [], [], [])

  function CopyFor(p: Pseudo, staged: string): CopyEntry
  {
    CopyEntry(p.uuid, p.filename, PseudoSubfolder + "/" + staged)
  }

  /** One pass of the loop over `structure.kinds`. */
  function SpeciesStep(st: SpeciesState, kind: Kind, pseudos: map<string, Pseudo>, unique: UniqueName)
    : (r: Result<SpeciesState, InputError>)
    requires st.WellFormed()
    ensures r.Success? ==> r.value.WellFormed() && |r.value.kindFiles| == |st.kindFiles| + 1
  {
    if kind.name !in pseudos then Failure(MissingPseudo(kind.name))
    else
      var p := pseudos[kind.name];
      if p.pk in st.filenames then
        Success(st.(kindFiles := st.kindFiles + [st.filenames[p.pk]]))
      else
        var staged := unique(p.filename, st.UsedNames());
        Success(SpeciesState(
          st.filenames[p.pk := staged],
          st.pkOrder + [p.pk],
          st.copies + [CopyFor(p, staged)],
          st.kindFiles + [staged]))
  }

  /** The loop state after the kinds in `kinds`, or the `KeyError` of the first
   *  kind without a pseudo. */
  function AssignPseudos(kinds: seq<Kind>, pseudos: map<string, Pseudo>, unique: UniqueName)
    : (r: Result<SpeciesState, InputError>)
    ensures r.Success? ==> r.value.WellFormed() && |r.value.kindFiles| == |kinds|
  {
    if kinds == [] then Success(InitialState)
    else
      match AssignPseudos(kinds[..|kinds| - 1], pseudos, unique)
      case Failure(e) => Failure(e)
      case Success(st) => SpeciesStep(st, kinds[|kinds| - 1], pseudos, unique)
  }

  /** Once a kind lacks its pseudo the loop stops there: the whole pass fails
   *  with the same error. */
  lemma {:induction false} AssignPseudosFailurePersists(kinds: seq<Kind>, pseudos: map<string, Pseudo>, unique: UniqueName, i: nat)
    requires i <= |kinds| && AssignPseudos(kinds[..i], pseudos, unique).Failure?
    ensures AssignPseudos(kinds, pseudos, unique) == AssignPseudos(kinds[..i], pseudos, unique)
    decreases |kinds| - i
  {
    if i < |kinds| {
      assert kinds[..i + 1][..i] == kinds[..i];
      AssignPseudosFailurePersists(kinds, pseudos, unique, i + 1);
    } else {
      assert kinds[..i] == kinds;
    }
  }

  // ----------------------------------------------------------------------
  // What the loop guarantees

  predicate HasPseudos(kinds: seq<Kind>, pseudos: map<string, Pseudo>)
  {
    forall i :: 0 <= i < |kinds| ==> kinds[i].name in pseudos
  }

  function PkAt(kinds: seq<Kind>, pseudos: map<string, Pseudo>, i: nat): int
    requires i < |kinds| && kinds[i].name in pseudos
  {
    pseudos[kinds[i].name].pk
  }

  /** Kind `i` is the first kind whose pseudo has pk `pk`. */
  ghost predicate FirstUse(kinds: seq<Kind>, pseudos: map<string, Pseudo>, i: nat, pk: int)
    requires HasPseudos(kinds, pseudos)
  {
    && i < |kinds|
    && PkAt(kinds, pseudos, i) == pk
    && forall i' :: 0 <= i' < i ==> PkAt(kinds, pseudos, i') != pk
  }

  ghost predicate SpeciesInv(kinds: seq<Kind>, pseudos: map<string, Pseudo>, st: SpeciesState)
    requires HasPseudos(kinds, pseudos)
  {
    && st.WellFormed()
    && Distinct(st.pkOrder)
    && |st.kindFiles| == |kinds|
    && (forall i :: 0 <= i < |kinds| ==>
          PkAt(kinds, pseudos, i) in st.filenames
          && st.filenames[PkAt(kinds, pseudos, i)] == st.kindFiles[i])
    && (forall j :: 0 <= j < |st.pkOrder| ==>
          exists i: nat :: (FirstUse(kinds, pseudos, i, st.pkOrder[j])
            && st.copies[j] == CopyFor(pseudos[kinds[i].name], st.filenames[st.pkOrder[j]])))
  }

  lemma {:induction false} AssignPseudosInv(kinds: seq<Kind>, pseudos: map<string, Pseudo>, unique: UniqueName)
    requires HasPseudos(kinds, pseudos)
    ensures AssignPseudos(kinds, pseudos, unique).Success?
    ensures SpeciesInv(kinds, pseudos, AssignPseudos(kinds, pseudos, unique).value)
  {
    if kinds != [] {
      var prefix := kinds[..|kinds| - 1];
      assert HasPseudos(prefix, pseudos);
      AssignPseudosInv(prefix, pseudos, unique);
      StepInv(kinds, pseudos, unique);
    }
  }

  /** One pass of the loop keeps the invariant. */
  lemma StepInv(kinds: seq<Kind>, pseudos: map<string, Pseudo>, unique: UniqueName)
    requires |kinds| > 0 && HasPseudos(kinds, pseudos)
    requires HasPseudos(kinds[..|kinds| - 1], pseudos)
    requires AssignPseudos(kinds[..|kinds| - 1], pseudos, unique).Success?
    requires SpeciesInv(kinds[..|kinds| - 1], pseudos, AssignPseudos(kinds[..|kinds| - 1], pseudos, unique).value)
    ensures AssignPseudos(kinds, pseudos, unique).Success?
    ensures SpeciesInv(kinds, pseudos, AssignPseudos(kinds, pseudos, unique).value)
  {
    var n := |kinds| - 1;
    var prefix := kinds[..n];
    var st := AssignPseudos(prefix, pseudos, unique).value;
    var p := pseudos[kinds[n].name];
    assert AssignPseudos(kinds, pseudos, unique) == SpeciesStep(st, kinds[n], pseudos, unique);
    if p.pk in st.filenames {
      KnownPkInv(kinds, pseudos, st);
    } else {
      NewPkInv(kinds, pseudos, st, unique(p.filename, st.UsedNames()));
    }
  }

  lemma KnownPkInv(kinds: seq<Kind>, pseudos: map<string, Pseudo>, st: SpeciesState)
    requires |kinds| > 0 && HasPseudos(kinds, pseudos)
    requires HasPseudos(kinds[..|kinds| - 1], pseudos)
    requires SpeciesInv(kinds[..|kinds| - 1], pseudos, st)
    requires pseudos[kinds[|kinds| - 1].name].pk in st.filenames
    ensures SpeciesInv(kinds, pseudos,
      st.(kindFiles := st.kindFiles + [st.filenames[pseudos[kinds[|kinds| - 1].name].pk]]))
  {
    var n := |kinds| - 1;
    var prefix := kinds[..n];
    var pk := pseudos[kinds[n].name].pk;
    var st' := st.(kindFiles := st.kindFiles + [st.filenames[pk]]);
    assert forall i :: 0 <= i < n ==> PkAt(prefix, pseudos, i) == PkAt(kinds, pseudos, i);
    forall i | 0 <= i < |kinds|
      ensures PkAt(kinds, pseudos, i) in st'.filenames
      ensures st'.filenames[PkAt(kinds, pseudos, i)] == st'.kindFiles[i]
    {
      if i < n {
        assert PkAt(prefix, pseudos, i) in st.filenames;
      }
    }
    forall j | 0 <= j < |st'.pkOrder|
      ensures exists i: nat :: (FirstUse(kinds, pseudos, i, st'.pkOrder[j])
        && st'.copies[j] == CopyFor(pseudos[kinds[i].name], st'.filenames[st'.pkOrder[j]]))
    {
      var i: nat :| FirstUse(prefix, pseudos, i, st.pkOrder[j])
        && st.copies[j] == CopyFor(pseudos[prefix[i].name], st.filenames[st.pkOrder[j]]);
      assert FirstUse(kinds, pseudos, i, st'.pkOrder[j]);
    }
  }

  lemma NewPkInv(kinds: seq<Kind>, pseudos: map<string, Pseudo>, st: SpeciesState, staged: string)
    requires |kinds| > 0 && HasPseudos(kinds, pseudos)
    requires HasPseudos(kinds[..|kinds| - 1], pseudos)
    requires SpeciesInv(kinds[..|kinds| - 1], pseudos, st)
    requires pseudos[kinds[|kinds| - 1].name].pk !in st.filenames
    ensures var p := pseudos[kinds[|kinds| - 1].name];
      SpeciesInv(kinds, pseudos, SpeciesState(
        st.filenames[p.pk := staged],
        st.pkOrder + [p.pk],
        st.copies + [CopyFor(p, staged)],
        st.kindFiles + [staged]))
  {
    var n := |kinds| - 1;
    var prefix := kinds[..n];
    var p := pseudos[kinds[n].name];
    var pk := p.pk;
    var st' := SpeciesState(st.filenames[pk := staged], st.pkOrder + [pk], st.copies + [CopyFor(p, staged)], st.kindFiles + [staged]);
    assert forall i :: 0 <= i < n ==> PkAt(prefix, pseudos, i) == PkAt(kinds, pseudos, i);
    forall j | 0 <= j < |st.pkOrder| ensures st.pkOrder[j] != pk {
      assert st.pkOrder[j] in st.filenames;
    }
    assert Distinct(st'.pkOrder);
    assert st'.WellFormed();
    forall i | 0 <= i < |kinds|
      ensures PkAt(kinds, pseudos, i) in st'.filenames
      ensures st'.filenames[PkAt(kinds, pseudos, i)] == st'.kindFiles[i]
    {
      if i < n {
        assert PkAt(prefix, pseudos, i) in st.filenames;
      }
    }
    forall j | 0 <= j < |st'.pkOrder|
      ensures exists i: nat :: (FirstUse(kinds, pseudos, i, st'.pkOrder[j])
        && st'.copies[j] == CopyFor(pseudos[kinds[i].name], st'.filenames[st'.pkOrder[j]]))
    {
      if j < |st.pkOrder| {
        var i: nat :| FirstUse(prefix, pseudos, i, st.pkOrder[j])
          && st.copies[j] == CopyFor(pseudos[prefix[i].name], st.filenames[st.pkOrder[j]]);
        assert st.pkOrder[j] in st.filenames;
        assert FirstUse(kinds, pseudos, i, st'.pkOrder[j]);
      } else {
        forall i' | 0 <= i' < n ensures PkAt(kinds, pseudos, i') != pk {
          assert PkAt(prefix, pseudos, i') in st.filenames;
        }
        assert FirstUse(kinds, pseudos, n, st'.pkOrder[j]);
      }
    }
  }

  /** The loop fails exactly when some kind has no pseudo, and then with the
   *  `KeyError` of the first such kind. */
  lemma {:induction false} AssignPseudosFailure(kinds: seq<Kind>, pseudos: map<string, Pseudo>, unique: UniqueName)
    ensures AssignPseudos(kinds, pseudos, unique).Failure? <==> !HasPseudos(kinds, pseudos)
    ensures AssignPseudos(kinds, pseudos, unique).Failure? ==>
      exists i :: 0 <= i < |kinds| && kinds[i].name !in pseudos
        && HasPseudos(kinds[..i], pseudos)
        && AssignPseudos(kinds, pseudos, unique).error == MissingPseudo(kinds[i].name)
  {
    if kinds != [] {
      var n := |kinds| - 1;
      var prefix := kinds[..n];
      AssignPseudosFailure(prefix, pseudos, unique);
      if AssignPseudos(prefix, pseudos, unique).Failure? {
        var i :| 0 <= i < n && prefix[i].name !in pseudos && HasPseudos(prefix[..i], pseudos)
          && AssignPseudos(prefix, pseudos, unique).error == MissingPseudo(prefix[i].name);
        assert prefix[..i] == kinds[..i];
      } else {
        assert prefix == kinds[..n];
        if !HasPseudos(kinds, pseudos) {
          assert kinds[n].name !in pseudos;
        }
      }
    }
  }

  /** Kinds whose pseudos share a pk are given the same staged file name. */
  lemma SharedPseudoSharedFile(kinds: seq<Kind>, pseudos: map<string, Pseudo>, unique: UniqueName, i: nat, j: nat)
    requires HasPseudos(kinds, pseudos)
    requires i < |kinds| && j < |kinds| && PkAt(kinds, pseudos, i) == PkAt(kinds, pseudos, j)
    ensures AssignPseudos(kinds, pseudos, unique).Success?
    ensures AssignPseudos(kinds, pseudos, unique).value.kindFiles[i]
         == AssignPseudos(kinds, pseudos, unique).value.kindFiles[j]
  {
    AssignPseudosInv(kinds, pseudos, unique);
  }

  /** The copy list has exactly one entry per distinct pk among the kinds' pseudos. */
  lemma OneCopyPerPk(kinds: seq<Kind>, pseudos: map<string, Pseudo>, unique: UniqueName)
    requires HasPseudos(kinds, pseudos)
    ensures AssignPseudos(kinds, pseudos, unique).Success?
    ensures |AssignPseudos(kinds, pseudos, unique).value.copies|
         == |set i | 0 <= i < |kinds| :: PkAt(kinds, pseudos, i)|
  {
    AssignPseudosInv(kinds, pseudos, unique);
    var st := AssignPseudos(kinds, pseudos, unique).value;
    DistinctCard(st.pkOrder);
    var pks := set i | 0 <= i < |kinds| :: PkAt(kinds, pseudos, i);
    var listed := Elements(st.pkOrder);
    forall x | x in listed ensures x in pks {
      var j :| 0 <= j < |st.pkOrder| && st.pkOrder[j] == x;
      var i: nat :| FirstUse(kinds, pseudos, i, st.pkOrder[j])
        && st.copies[j] == CopyFor(pseudos[kinds[i].name], st.filenames[st.pkOrder[j]]);
    }
    forall x | x in pks ensures x in listed {
      var i :| 0 <= i < |kinds| && PkAt(kinds, pseudos, i) == x;
      assert x in st.filenames;
    }
    assert pks == listed;
  }

  /** Each copy entry comes from the first kind that met its pk: that pseudo's
   *  uuid and file name, copied to pseudo/<the kind's staged name>. */
  lemma CopyFromFirstKind(kinds: seq<Kind>, pseudos: map<string, Pseudo>, unique: UniqueName, j: nat)
    requires HasPseudos(kinds, pseudos)
    requires AssignPseudos(kinds, pseudos, unique).Success?
    requires j < |AssignPseudos(kinds, pseudos, unique).value.copies|
    ensures exists i: nat :: (i < |kinds|
      && (forall i' :: 0 <= i' < i ==> PkAt(kinds, pseudos, i') != PkAt(kinds, pseudos, i))
      && AssignPseudos(kinds, pseudos, unique).value.copies[j]
         == CopyFor(pseudos[kinds[i].name], AssignPseudos(kinds, pseudos, unique).value.kindFiles[i]))
  {
    AssignPseudosInv(kinds, pseudos, unique);
    var st := AssignPseudos(kinds, pseudos, unique).value;
    var i: nat :| FirstUse(kinds, pseudos, i, st.pkOrder[j])
      && st.copies[j] == CopyFor(pseudos[kinds[i].name], st.filenames[st.pkOrder[j]]);
    assert st.copies[j] == CopyFor(pseudos[kinds[i].name], st.kindFiles[i]);
  }

  // ----------------------------------------------------------------------
  // The block itself

  /** `f"{kind.name.ljust(6)} {kind.mass} {filename}"`. */
  function SpeciesLine(kind: Kind, staged: string, fmt: Formats): string
  {
    LJust(kind.name, 6) + " " + fmt.repr(kind.mass) + " " + staged
  }

  /** `zip(kind_names, atomic_species_card_list)`. */
  function SpeciesPairs(kinds: seq<Kind>, kindFiles: seq<string>, fmt: Formats): (r: seq<(string, string)>)
    requires |kindFiles| == |kinds|
    ensures |r| == |kinds|
    ensures forall i :: 0 <= i < |r| ==> r[i] == (kinds[i].name, SpeciesLine(kinds[i], kindFiles[i], fmt))
  {
    seq(|kinds|, i requires 0 <= i < |kinds| => (kinds[i].name, SpeciesLine(kinds[i], kindFiles[i], fmt)))
  }

  /** What the species loop hands on: the staged files and, per kind, its name
   *  and its line of the block. */
  datatype SpeciesOutput = SpeciesOutput(copies: seq<CopyEntry>, pairs: seq<(string, string)>)

  /** The species loop of `write_STRU`: per kind, the staged name of its pseudo
   *  (reused for a pk already met, a fresh unique name and a copy entry
   *  otherwise) and its line, or the `KeyError` of the first kind without a
   *  pseudo. */
  method WriteSpecies(kinds: seq<Kind>, pseudos: map<string, Pseudo>, unique: UniqueName, fmt: Formats)
    returns (r: Result<SpeciesOutput, InputError>)
    ensures var a := AssignPseudos(kinds, pseudos, unique);
      && (a.Failure? ==> r == Failure(a.error))
      && (a.Success? ==> r == Success(SpeciesOutput(a.value.copies, SpeciesPairs(kinds, a.value.kindFiles, fmt))))
  {
    var st := InitialState;
    // `zip(kind_names, atomic_species_card_list)`
    var pairs: seq<(string, string)> := [];
    for i := 0 to |kinds|
      invariant AssignPseudos(kinds[..i], pseudos, unique) == Success(st)
      invariant pairs == SpeciesPairs(kinds[..i], st.kindFiles, fmt)
    {
      var kind := kinds[i];
      AssignPseudosNext(kinds, pseudos, unique, i);
      var next, filename := StageKind(st, kind, pseudos, unique);
      if next.Failure? {
        AssignPseudosFailurePersists(kinds, pseudos, unique, i + 1);
        return Failure(next.error);
      }
      SpeciesPairsNext(kinds, st.kindFiles, fmt, i);
      pairs := pairs + [(kind.name, SpeciesLine(kind, filename, fmt))];
      st := next.value;
    }
    assert kinds[..|kinds|] == kinds;
    return Success(SpeciesOutput(st.copies, pairs));
  }

  /** One kind of the species loop: the staged name of its pseudo, reused when
   *  the pk was met before, otherwise a fresh unique name recorded with its copy
   *  entry. */
  method StageKind(st: SpeciesState, kind: Kind, pseudos: map<string, Pseudo>, unique: UniqueName)
    returns (r: Result<SpeciesState, InputError>, filename: string)
    requires st.WellFormed()
    ensures r == SpeciesStep(st, kind, pseudos, unique)
    ensures r.Success? ==> r.value.kindFiles == st.kindFiles + [filename]
  {
    if kind.name !in pseudos {
      return Failure(MissingPseudo(kind.name)), "";
    }
    var pseudo := pseudos[kind.name];
    var filenames := st.filenames;
    var pkOrder := st.pkOrder;
    var copies := st.copies;
    if pseudo.pk in filenames {
      filename := filenames[pseudo.pk];
    } else {
      filename := unique(pseudo.filename, DictValues(filenames, pkOrder));
      filenames := filenames[pseudo.pk := filename];
      pkOrder := pkOrder + [pseudo.pk];
      copies := copies + [CopyFor(pseudo, filename)];
    }
    r := Success(SpeciesState(filenames, pkOrder, copies, st.kindFiles + [filename]));
  }

  lemma AssignPseudosNext(kinds: seq<Kind>, pseudos: map<string, Pseudo>, unique: UniqueName, i: nat)
    requires i < |kinds|
    ensures var before := AssignPseudos(kinds[..i], pseudos, unique);
      AssignPseudos(kinds[..i + 1], pseudos, unique)
        == if before.Failure? then Failure(before.error) else SpeciesStep(before.value, kinds[i], pseudos, unique)
  {
    assert kinds[..i + 1][..i] == kinds[..i];
  }

  lemma SpeciesPairsNext(kinds: seq<Kind>, kindFiles: seq<string>, fmt: Formats, i: nat)
    requires i < |kinds| && |kindFiles| == i
    ensures forall f ::
      SpeciesPairs(kinds[..i + 1], kindFiles + [f], fmt)
        == SpeciesPairs(kinds[..i], kindFiles, fmt) + [(kinds[i].name, SpeciesLine(kinds[i], f, fmt))]
  {
  }

  /** The block: its header and the sorted lines. */
  function SpeciesBlock(sorted: seq<(string, string)>): (r: seq<string>)
    ensures |r| == |sorted| + 1 && r[0] == "ATOMIC_SPECIES"
    ensures forall i :: 0 <= i < |sorted| ==> r[i + 1] == sorted[i].1
  {
    ["ATOMIC_SPECIES"] + seq(|sorted|, i requires 0 <= i < |sorted| => sorted[i].1)
  }

  /** `mapping_species`: each name of the sorted list mapped to its 1-based rank. */
  function Ranks(sorted: seq<(string, string)>): map<string, int>
  {
    if sorted == [] then map[]
    else Ranks(sorted[..|sorted| - 1])[sorted[|sorted| - 1].0 := |sorted|]
  }

  /** With distinct names, the block lists every kind's line exactly once, in
   *  strictly increasing order of kind name. */
  lemma SpeciesSorted(kinds: seq<Kind>, kindFiles: seq<string>, fmt: Formats)
    requires |kindFiles| == |kinds|
    requires forall i, j :: 0 <= i < j < |kinds| ==> kinds[i].name != kinds[j].name
    ensures var sorted := SortByKey(SpeciesPairs(kinds, kindFiles, fmt));
      && |sorted| == |kinds|
      && StrictlySorted(sorted)
      && (forall i :: 0 <= i < |kinds| ==> (kinds[i].name, SpeciesLine(kinds[i], kindFiles[i], fmt)) in sorted)
      && (forall x :: x in sorted ==> x in SpeciesPairs(kinds, kindFiles, fmt))
  {
    var pairs := SpeciesPairs(kinds, kindFiles, fmt);
    var sorted := SortByKey(pairs);
    SortByKeySorted(pairs);
    assert |sorted| == |multiset(sorted)| == |multiset(pairs)| == |pairs|;
    forall i | 0 <= i < |kinds| ensures pairs[i] in sorted {
      assert pairs[i] in multiset(pairs);
    }
    forall x | x in sorted ensures x in pairs {
      assert x in multiset(sorted);
    }
  }

  /** The species mapping is a bijection from the kind names onto 1..#kinds that
   *  follows the sorted order. First, every listed name has its 1-based
   *  position as rank. */
  lemma {:induction false} RanksOfListed(sorted: seq<(string, string)>)
    requires DistinctKeys(sorted)
    ensures forall i :: 0 <= i < |sorted| ==> sorted[i].0 in Ranks(sorted) && Ranks(sorted)[sorted[i].0] == i + 1
  {
    if sorted != [] {
      var n := |sorted| - 1;
      var prefix := sorted[..n];
      assert DistinctKeys(prefix);
      RanksOfListed(prefix);
      forall i | 0 <= i < n ensures sorted[i].0 in Ranks(sorted) && Ranks(sorted)[sorted[i].0] == i + 1 {
        assert prefix[i] == sorted[i];
      }
    }
  }

  /** Second, every rank in the map is the position of its name. */
  lemma {:induction false} RanksArePositions(sorted: seq<(string, string)>)
    ensures forall k :: k in Ranks(sorted) ==>
      1 <= Ranks(sorted)[k] <= |sorted| && sorted[Ranks(sorted)[k] - 1].0 == k
  {
    if sorted != [] {
      var n := |sorted| - 1;
      var prefix := sorted[..n];
      RanksArePositions(prefix);
      var r := Ranks(prefix);
      forall k | k in Ranks(sorted) ensures 1 <= Ranks(sorted)[k] <= |sorted| && sorted[Ranks(sorted)[k] - 1].0 == k {
        if k != sorted[n].0 {
          assert prefix[r[k] - 1] == sorted[r[k] - 1];
        }
      }
    }
  }
}
