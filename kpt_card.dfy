/** The `KPT` file of an ABACUS calculation (`BaseCalculation.write_KPT`): the
 *  header, "0" (let the code generate the points), the "Gamma" scheme and one
 *  line of six integers, the mesh followed by the offset flags. */
module KptCard {
  import opened Wrappers
  import opened Text
  import opened Structures

  /** The offsets ABACUS can express: none, or half a grid step. */
  predicate AllowedOffset(o: real) { o == 0.0 || o == 0.5 }

  /** `0 if i == 0.0 else 1`. */
  function OffsetFlag(o: real): int { if o == 0.0 then 0 else 1 }

  /** The six integers of the last line. */
  function SixIntegers(mesh: (int, int, int), offset: Vec3): seq<int>
  {
    [mesh.0, mesh.1, mesh.2, OffsetFlag(offset.x), OffsetFlag(offset.y), OffsetFlag(offset.z)]
  }

  /** `write_KPT` without the file: the lines of the KPT file, or the error it raises.
   *  A points list (no mesh) and any offset other than 0 or 0.5 are refused, and
   *  on success the last line is the six `{:d}` numerals joined by blanks, which
   *  reads back as the mesh and the offset flags. */
  function WriteKpt(k: KpointsData): (r: Result<seq<string>, InputError>)
    ensures k.KpointsList? ==> r == Failure(NoMesh)
    ensures k.KpointsMesh? ==>
      (r.Success? <==> AllowedOffset(k.offset.x) && AllowedOffset(k.offset.y) && AllowedOffset(k.offset.z))
    ensures k.KpointsMesh? && r.Failure? ==> r.error == BadOffset
    ensures r.Success? ==>
      && |r.value| == 4
      && r.value[..3] == ["K_POINTS", "0", "Gamma"]
      && ReadIntegers(r.value[3]) == Some(SixIntegers(k.mesh, k.offset))
      && r.value[3] == Join(Numerals(SixIntegers(k.mesh, k.offset)), ' ')
  {
    match k
    case KpointsList => Failure(NoMesh)
    case KpointsMesh(mesh, offset) =>
      if !(AllowedOffset(offset.x) && AllowedOffset(offset.y) && AllowedOffset(offset.z)) then
        Failure(BadOffset)
      else
        var six := SixIntegers(mesh, offset);
        ReadIntegersJoin(six);
        Success(["K_POINTS", "0", "Gamma", Join(Numerals(six), ' ')])
  }

  /** The flags are exactly 0 for an offset of 0.0 and 1 for an offset of 0.5. */
  lemma OffsetFlags(k: KpointsData)
    requires WriteKpt(k).Success?
    ensures forall i :: 3 <= i < 6 ==> SixIntegers(k.mesh, k.offset)[i] in {0, 1}
    ensures (SixIntegers(k.mesh, k.offset)[3] == 1) == (k.offset.x == 0.5)
    ensures (SixIntegers(k.mesh, k.offset)[4] == 1) == (k.offset.y == 0.5)
    ensures (SixIntegers(k.mesh, k.offset)[5] == 1) == (k.offset.z == 0.5)
  {
  }

  /** Mesh 4x4x1 with offset (0, 0.5, 0) gives the line "4 4 1 0 1 0". */
  lemma ExampleMesh()
    ensures WriteKpt(KpointsMesh((4, 4, 1), Vec3(0.0, 0.5, 0.0)))
      == Success(["K_POINTS", "0", "Gamma", "4 4 1 0 1 0"])
  {
    var six := [4, 4, 1, 0, 1, 0];
    assert SixIntegers((4, 4, 1), Vec3(0.0, 0.5, 0.0)) == six;
    var parts := ["4", "4", "1", "0", "1", "0"];
    ExampleNumerals(six, parts);
    ExampleJoin(parts);
  }

  lemma ExampleJoin(parts: seq<string>)
    requires parts == ["4", "4", "1", "0", "1", "0"]
    ensures Join(parts, ' ') == "4 4 1 0 1 0"
  {
    ExampleJoinTail(parts[2..]);
    assert Join(parts[1..], ' ') == "4 1 0 1 0";
  }

  lemma ExampleNumerals(six: seq<int>, parts: seq<string>)
    requires six == [4, 4, 1, 0, 1, 0] && parts == ["4", "4", "1", "0", "1", "0"]
    ensures Numerals(six) == parts
  {
    assert IntToString(4) == "4" && IntToString(1) == "1" && IntToString(0) == "0";
  }

  lemma ExampleJoinTail(parts: seq<string>)
    requires parts == ["1", "0", "1", "0"]
    ensures Join(parts, ' ') == "1 0 1 0"
  {
    assert Join(parts[3..], ' ') == "0";
    assert Join(parts[2..], ' ') == "1 0";
    assert Join(parts[1..], ' ') == "0 1 0";
  }
}
