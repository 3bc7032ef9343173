/** The inputs of a calculation job: the atomic structure (AiiDA `StructureData`),
 *  pseudopotential nodes, the k-point mesh (`KpointsData`) and the `settings` keys
 *  the structure writer reads, plus the validation errors the job raises on them. */
module Structures {
  import opened Wrappers

  datatype Vec3 = Vec3(x: real, y: real, z: real)

  /** A chemical kind: its name and its atomic mass. */
  datatype Kind = Kind(name: string, mass: real)

  /** A site: the name of its kind and its position. */
  datatype Site = Site(kindName: string, position: Vec3)

  /** `cell` holds the lattice vectors as rows. */
  datatype Structure = Structure(cell: seq<Vec3>, kinds: seq<Kind>, sites: seq<Site>)

  function KindNames(s: Structure): (r: seq<string>)
    ensures |r| == |s.kinds| && forall i :: 0 <= i < |r| ==> r[i] == s.kinds[i].name
  {
    seq(|s.kinds|, i requires 0 <= i < |s.kinds| => s.kinds[i].name)
  }

  /** `[site.kind_name for site in structure.sites]`. */
  function SiteKinds(sites: seq<Site>): (r: seq<string>)
    ensures |r| == |sites| && forall i :: 0 <= i < |r| ==> r[i] == sites[i].kindName
  {
    seq(|sites|, i requires 0 <= i < |sites| => sites[i].kindName)
  }

  /** What `StructureData` itself guarantees: kind names are unique and every
   *  site refers to a declared kind. */
  predicate Valid(s: Structure)
  {
    && (forall i, j :: 0 <= i < j < |s.kinds| ==> s.kinds[i].name != s.kinds[j].name)
    && (forall i :: 0 <= i < |s.sites| ==> s.sites[i].kindName in KindNames(s))
  }

  /** A pseudopotential node: its database pk, its uuid and the name of its file. */
  datatype Pseudo = Pseudo(pk: int, uuid: string, filename: string)

  /** A `KpointsData` node holds either a mesh with its offset or an explicit
   *  list of points, for which `get_kpoints_mesh` finds no mesh. */
  datatype KpointsData =
    | KpointsMesh(mesh: (int, int, int), offset: Vec3)
    | KpointsList

  /** The keys of the `settings` dict that the structure writer pops. */
  datatype Settings = Settings(initialMagnetic: Option<seq<real>>, fixedCoords: Option<seq<seq<int>>>)

  /** The errors raised while writing the input deck. All but `MissingPseudo`
   *  (a `KeyError`) and `NoSpecies` (a `ValueError` from unpacking an empty
   *  `zip`) are `InputValidationError`s. */
  datatype InputError =
    | NoMesh
    | BadOffset
    | MissingPseudo(kindName: string)
    | NoSpecies
    | MagneticLength(kinds: nat, given: nat)
    | FixedCoordsLength(sites: nat, given: nat)
    | FixedCoordsNotThree(site: nat)
    | FixedCoordsNotBinary(site: nat)
}
