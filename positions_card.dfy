/** The ATOMIC_POSITIONS card of the STRU file: initial magnetic moments per
 *  kind, the per-site mask of fixed coordinates, and the sites grouped by kind
 *  in the order in which each kind first appears among the sites. */
module PositionsCard {
  import opened Wrappers
  import opened Text
  import opened Seqs
  import opened Values
  import opened Structures

  // ---------------------------------------------------------------------------
  // INITIAL_MAGNETIC

  /** One magnetic moment string per kind: `"0.0"` for each kind when the
   *  setting is absent, otherwise `{:0.1f}` of each given value, which must be
   *  exactly one per kind. */
  function MagneticStrings(mag: Option<seq<real>>, nKinds: nat, fmt: Formats): (r: Result<seq<string>, InputError>)
    ensures mag.None? ==> r.Success?
    ensures mag.Some? ==> (r.Success? <==> |mag.value| == nKinds)
    ensures r.Failure? ==> r.error == MagneticLength(nKinds, |mag.value|)
    ensures r.Success? ==> |r.value| == nKinds
    ensures r.Success? && mag.None? ==> forall i :: 0 <= i < nKinds ==> r.value[i] == "0.0"
    ensures r.Success? && mag.Some? ==> forall i :: 0 <= i < nKinds ==> r.value[i] == fmt.fixed1(mag.value[i])
  {
    match mag
    case None => Success(seq(nKinds, _ => "0.0"))
    case Some(m) =>
      if |m| != nKinds then Failure(MagneticLength(nKinds, |m|))
      else Success(seq(|m|, i requires 0 <= i < |m| => fmt.fixed1(m[i])))
  }

  // ---------------------------------------------------------------------------
  // FIXED_COORDS

  /** A mask is three flags, each 0 (fixed) or 1 (free). */
  predicate ValidMask(m: seq<int>)
  {
    |m| == 3 && forall i :: 0 <= i < 3 ==> m[i] == 0 || m[i] == 1
  }

  /** The error for an invalid mask at 1-based site number `site`: the length
   *  is checked before the elements. */
  function MaskError(m: seq<int>, site: nat): (e: InputError)
    requires !ValidMask(m)
    ensures e == FixedCoordsNotThree(site) <==> |m| != 3
    ensures e == FixedCoordsNotBinary(site) <==> |m| == 3
  {
    if |m| != 3 then FixedCoordsNotThree(site) else FixedCoordsNotBinary(site)
  }

  /** `"  {:d} {:d} {:d}"` of a mask. */
  function MaskLine(m: seq<int>): string
    requires |m| == 3
  {
    "  " + Join(Numerals(m), ' ')
  }

  /** A mask line is two blanks and then reads back as the mask. */
  lemma MaskLineReadsBack(m: seq<int>)
    requires |m| == 3
    ensures |MaskLine(m)| > 2 && MaskLine(m)[..2] == "  " && ReadIntegers(MaskLine(m)[2..]) == Some(m)
  {
    ReadIntegersJoin(m);
    assert MaskLine(m)[2..] == Join(Numerals(m), ' ');
  }

  /** The mask line of a site that the setting does not constrain. */
  const FreeMaskLine := "  0 0 0"

  /** The mask lines of `f`, or the error for the first invalid entry, whose
   *  1-based number the error carries. */
  function MaskLines(f: seq<seq<int>>): (r: Result<seq<string>, InputError>)
    ensures r.Success? ==> |r.value| == |f|
  {
    if f == [] then Success([])
    else
      var n := |f| - 1;
      match MaskLines(f[..n])
      case Failure(e) => Failure(e)
      case Success(ls) =>
        if ValidMask(f[n]) then Success(ls + [MaskLine(f[n])]) else Failure(MaskError(f[n], n + 1))
  }

  /** The FIXED_COORDS strings for `nSites` sites. */
  function FixedCoords(fixed: Option<seq<seq<int>>>, nSites: nat): (r: Result<seq<string>, InputError>)
    ensures r.Success? ==> |r.value| == nSites
    ensures fixed.None? ==> r.Success? && forall i :: 0 <= i < nSites ==> r.value[i] == FreeMaskLine
    ensures fixed.Some? && |fixed.value| != nSites ==> r == Failure(FixedCoordsLength(nSites, |fixed.value|))
  {
    match fixed
    case None => Success(seq(nSites, _ => FreeMaskLine))
    case Some(f) => if |f| != nSites then Failure(FixedCoordsLength(nSites, |f|)) else MaskLines(f)
  }

  /** The masks are accepted exactly when all are valid, each is rendered in
   *  place, and otherwise the error names the first invalid one. */
  lemma {:induction false} MaskLinesCharacterised(f: seq<seq<int>>)
    ensures MaskLines(f).Success? <==> forall i :: 0 <= i < |f| ==> ValidMask(f[i])
    ensures MaskLines(f).Success? ==> forall i :: 0 <= i < |f| ==> MaskLines(f).value[i] == MaskLine(f[i])
    ensures MaskLines(f).Failure? ==> exists k: nat :: (
      k < |f| && !ValidMask(f[k]) && (forall i :: 0 <= i < k ==> ValidMask(f[i]))
      && MaskLines(f).error == MaskError(f[k], k + 1))
  {
    if f != [] {
      var n := |f| - 1;
      MaskLinesCharacterised(f[..n]);
      assert forall i :: 0 <= i < n ==> f[..n][i] == f[i];
      if MaskLines(f[..n]).Failure? {
        var k: nat :| k < n && !ValidMask(f[..n][k]) && (forall i :: 0 <= i < k ==> ValidMask(f[..n][i]))
          && MaskLines(f[..n]).error == MaskError(f[..n][k], k + 1);
        assert !ValidMask(f[k]) && (forall i :: 0 <= i < k ==> ValidMask(f[i]));
      } else if !ValidMask(f[n]) {
        assert MaskLines(f).error == MaskError(f[n], n + 1);
      }
    }
  }

  /** Once a prefix of the masks is refused, so is the whole, with the same error. */
  lemma {:induction false} MaskLinesFailurePersists(f: seq<seq<int>>, i: nat)
    requires i <= |f| && MaskLines(f[..i]).Failure?
    ensures MaskLines(f) == MaskLines(f[..i])
    decreases |f| - i
  {
    if i < |f| {
      assert f[..i + 1][..i] == f[..i];
      MaskLinesFailurePersists(f, i + 1);
    } else {
      assert f[..i] == f;
    }
  }

  /** Checks every entry, length first and then its elements, and renders the
   *  mask lines; the first invalid entry stops the loop with its error. */
  method FixedCoordsStrings(fixed: Option<seq<seq<int>>>, nSites: nat) returns (r: Result<seq<string>, InputError>)
    ensures r == FixedCoords(fixed, nSites)
  {
    if fixed.None? {
      return Success(seq(nSites, _ => FreeMaskLine));
    }
    var f := fixed.value;
    if |f| != nSites {
      return Failure(FixedCoordsLength(nSites, |f|));
    }
    var lines: seq<string> := [];
    for i := 0 to |f|
      invariant MaskLines(f[..i]) == Success(lines)
    {
      var entry := f[i];
      assert f[..i + 1][..i] == f[..i];
      if |entry| != 3 {
        MaskLinesFailurePersists(f, i + 1);
        return Failure(FixedCoordsNotThree(i + 1));
      }
      for j := 0 to 3
        invariant forall t :: 0 <= t < j ==> entry[t] == 0 || entry[t] == 1
      {
        if entry[j] != 0 && entry[j] != 1 {
          MaskLinesFailurePersists(f, i + 1);
          return Failure(FixedCoordsNotBinary(i + 1));
        }
      }
      lines := lines + [MaskLine(entry)];
    }
    assert f[..|f|] == f;
    return Success(lines);
  }

  // ---------------------------------------------------------------------------
  // Grouping of sites by kind

  /** The distinct names of `names` in order of first appearance, which is the
   *  key order of a Python `dict` filled by scanning `names`. */
  function FirstSeen(names: seq<string>): (r: seq<string>)
  {
    if names == [] then []
    else
      var n := |names| - 1;
      var f := FirstSeen(names[..n]);
      if names[n] in f then f else f + [names[n]]
  }

  /** The first-seen names are distinct and are exactly the names. */
  lemma {:induction false} FirstSeenProperties(names: seq<string>)
    ensures Distinct(FirstSeen(names))
    ensures forall x :: x in FirstSeen(names) <==> x in names
  {
    if names != [] {
      var n := |names| - 1;
      FirstSeenProperties(names[..n]);
      assert names == names[..n] + [names[n]];
    }
  }

  /** The first-seen names keep the order of first appearance: wherever a
   *  later one occurs, an earlier one has already occurred before it. */
  lemma FirstSeenOrder(names: seq<string>)
    ensures forall a, b, j :: 0 <= a < b < |FirstSeen(names)| && 0 <= j < |names| && names[j] == FirstSeen(names)[b]
              ==> exists i :: 0 <= i < j && names[i] == FirstSeen(names)[a]
  {
    var f := FirstSeen(names);
    forall a, b, j | 0 <= a < b < |f| && 0 <= j < |names| && names[j] == f[b]
      ensures exists i :: 0 <= i < j && names[i] == f[a]
    {
      var i := FirstSeenBefore(names, a, b, j);
      assert names[i] == f[a];
    }
  }

  /** An occurrence of the `b`-th first-seen name is preceded by one of the
   *  `a`-th, for `a < b`: the index of such an occurrence. */
  lemma {:induction false} FirstSeenBefore(names: seq<string>, a: nat, b: nat, j: nat) returns (i: nat)
    requires a < b < |FirstSeen(names)| && j < |names| && names[j] == FirstSeen(names)[b]
    ensures i < j && names[i] == FirstSeen(names)[a]
  {
    var n := |names| - 1;
    var p := names[..n];
    var f := FirstSeen(p);
    FirstSeenProperties(p);
    var r := FirstSeen(names);
    if names[n] in f {
      assert r == f;
      if j == n {
        var j0 :| 0 <= j0 < n && p[j0] == names[n];
        i := FirstSeenBefore(p, a, b, j0);
      } else {
        assert p[j] == f[b];
        i := FirstSeenBefore(p, a, b, j);
      }
    } else if b < |f| {
      assert names[j] in f;
      assert j != n;
      assert p[j] == f[b];
      i := FirstSeenBefore(p, a, b, j);
    } else {
      assert r[b] == names[n] && names[n] !in p;
      assert j == n;
      assert f[a] in p;
      i :| 0 <= i < n && p[i] == f[a];
    }
  }

  /** The entries of `lines` that belong to sites of kind `k`, in site order. */
  function SitesOf(names: seq<string>, lines: seq<string>, k: string): (r: seq<string>)
    requires |lines| == |names|
    ensures |r| <= |names|
  {
    if names == [] then []
    else
      var n := |names| - 1;
      SitesOf(names[..n], lines[..n], k) + (if names[n] == k then [lines[n]] else [])
  }

  /** Scanning one more site extends only that site's group. */
  lemma SitesOfNext(names: seq<string>, lines: seq<string>, i: nat, k: string)
    requires |lines| == |names| && i < |names|
    ensures SitesOf(names[..i + 1], lines[..i + 1], k)
      == SitesOf(names[..i], lines[..i], k) + (if names[i] == k then [lines[i]] else [])
  {
    assert names[..i + 1][..i] == names[..i] && lines[..i + 1][..i] == lines[..i];
  }

  lemma {:induction false} SitesOfMembers(names: seq<string>, lines: seq<string>, k: string)
    requires |lines| == |names|
    ensures forall x :: x in SitesOf(names, lines, k) <==> exists i :: 0 <= i < |names| && names[i] == k && lines[i] == x
  {
    if names != [] {
      var n := |names| - 1;
      SitesOfMembers(names[..n], lines[..n], k);
    }
  }

  lemma {:induction false} SitesOfAbsent(names: seq<string>, lines: seq<string>, k: string)
    requires |lines| == |names| && k !in names
    ensures SitesOf(names, lines, k) == []
  {
    if names != [] {
      var n := |names| - 1;
      assert names[..n] <= names;
      SitesOfAbsent(names[..n], lines[..n], k);
    }
  }

  /** The number of sites in the groups of `keys`. */
  function GroupedSites(keys: seq<string>, names: seq<string>, lines: seq<string>): nat
    requires |lines| == |names|
  {
    if keys == [] then 0
    else GroupedSites(keys[..|keys| - 1], names, lines) + |SitesOf(names, lines, keys[|keys| - 1])|
  }

  lemma {:induction false} GroupedSitesStep(keys: seq<string>, names: seq<string>, lines: seq<string>, x: string, l: string)
    requires |lines| == |names| && Distinct(keys)
    ensures GroupedSites(keys, names + [x], lines + [l]) == GroupedSites(keys, names, lines) + (if x in keys then 1 else 0)
  {
    var names', lines' := names + [x], lines + [l];
    assert names'[..|names|] == names && lines'[..|names|] == lines;
    if keys != [] {
      var m := |keys| - 1;
      assert Distinct(keys[..m]);
      GroupedSitesStep(keys[..m], names, lines, x, l);
      assert x in keys <==> x in keys[..m] || x == keys[m];
      assert x == keys[m] ==> x !in keys[..m];
    }
  }

  lemma NewGroup(f: seq<string>, names: seq<string>, lines: seq<string>)
    requires |lines| == |names| > 0
    requires names[|names| - 1] !in names[..|names| - 1]
    ensures GroupedSites(f + [names[|names| - 1]], names, lines) == GroupedSites(f, names, lines) + 1
  {
    var n := |names| - 1;
    var f' := f + [names[n]];
    assert f'[..|f|] == f;
    SitesOfAbsent(names[..n], lines[..n], names[n]);
  }

  /** Every site lands in exactly one group: the group sizes add up to the
   *  number of sites. */
  lemma {:induction false} GroupsPartitionSites(names: seq<string>, lines: seq<string>)
    requires |lines| == |names|
    ensures GroupedSites(FirstSeen(names), names, lines) == |names|
  {
    if names != [] {
      var n := |names| - 1;
      var p, pl := names[..n], lines[..n];
      var x := names[n];
      var f := FirstSeen(p);
      GroupsPartitionSites(p, pl);
      FirstSeenProperties(p);
      assert names == p + [x] && lines == pl + [lines[n]];
      GroupedSitesStep(f, p, pl, x, lines[n]);
      if x !in f {
        NewGroup(f, names, lines);
      }
    }
  }

  /** For a valid structure there are never more groups than kinds, so every
   *  group finds its magnetic moment. */
  lemma GroupsAtMostKinds(s: Structure)
    requires Valid(s)
    ensures |FirstSeen(SiteKinds(s.sites))| <= |s.kinds|
  {
    var names := SiteKinds(s.sites);
    var f := FirstSeen(names);
    FirstSeenProperties(names);
    DistinctCard(f);
    ElementsCard(KindNames(s));
    assert Elements(f) <= Elements(KindNames(s));
    SubsetCard(Elements(f), Elements(KindNames(s)));
  }

  // ---------------------------------------------------------------------------
  // The card

  /** `"{0:18.10f} {1:18.10f} {2:18.10f} {3}"` of a position and its mask line. */
  function PositionLine(p: Vec3, mask: string, fmt: Formats): string
  {
    fmt.fixed18(p.x) + " " + fmt.fixed18(p.y) + " " + fmt.fixed18(p.z) + " " + mask
  }

  function PositionLines(sites: seq<Site>, masks: seq<string>, fmt: Formats): (r: seq<string>)
    requires |masks| == |sites|
    ensures |r| == |sites|
  {
    seq(|sites|, i requires 0 <= i < |sites| => PositionLine(sites[i].position, masks[i], fmt))
  }

  /** One group: the kind, its magnetic moment, the number of its sites and
   *  their position lines. */
  function Group(k: string, magnetic: string, positions: seq<string>): seq<string>
  {
    [k, magnetic, NatToString(|positions|)] + positions
  }

  /** A group's third line reads back as the number of its sites. */
  lemma GroupCountReadsBack(k: string, magnetic: string, positions: seq<string>)
    ensures |Group(k, magnetic, positions)| == 3 + |positions|
    ensures ParseInt(Group(k, magnetic, positions)[2]) == Some(|positions|)
  {
    IntToStringRoundTrip(|positions|);
  }

  /** The groups of `keys`, the `i`th one taking the `i`th magnetic moment. */
  function Blocks(keys: seq<string>, names: seq<string>, lines: seq<string>, mags: seq<string>): seq<string>
    requires |lines| == |names| && |keys| <= |mags|
  {
    if keys == [] then []
    else
      var m := |keys| - 1;
      Blocks(keys[..m], names, lines, mags) + Group(keys[m], mags[m], SitesOf(names, lines, keys[m]))
  }

  lemma {:induction false} BlocksLength(keys: seq<string>, names: seq<string>, lines: seq<string>, mags: seq<string>)
    requires |lines| == |names| && |keys| <= |mags|
    ensures |Blocks(keys, names, lines, mags)| == 3 * |keys| + GroupedSites(keys, names, lines)
  {
    if keys != [] {
      BlocksLength(keys[..|keys| - 1], names, lines, mags);
    }
  }

  /** Emitting the accumulated group of the `i`th key extends the blocks by
   *  that key's group. */
  lemma EmitNext(keys: seq<string>, i: nat, names: seq<string>, lines: seq<string>, mags: seq<string>, g: Acc)
    requires |lines| == |names| && i < |keys| <= |mags|
    requires g.count == |g.positions| && g.positions == SitesOf(names, lines, keys[i])
    ensures Blocks(keys[..i + 1], names, lines, mags)
      == Blocks(keys[..i], names, lines, mags) + ([keys[i], mags[i], NatToString(g.count)] + g.positions)
  {
    assert keys[..i + 1][..i] == keys[..i];
  }

  /** The card after the `i`th group: the card before it, then the group. */
  lemma EmitStep(keys: seq<string>, i: nat, names: seq<string>, lines: seq<string>, mags: seq<string>, g: Acc,
                 card: seq<string>)
    requires |lines| == |names| && i < |keys| <= |mags|
    requires g.count == |g.positions| && g.positions == SitesOf(names, lines, keys[i])
    requires card == ["ATOMIC_POSITIONS", "Direct"] + Blocks(keys[..i], names, lines, mags)
    ensures card + ([keys[i], mags[i], NatToString(g.count)] + g.positions)
      == ["ATOMIC_POSITIONS", "Direct"] + Blocks(keys[..i + 1], names, lines, mags)
  {
    EmitNext(keys, i, names, lines, mags, g);
    AppendAssoc(["ATOMIC_POSITIONS", "Direct"], Blocks(keys[..i], names, lines, mags),
                [keys[i], mags[i], NatToString(g.count)] + g.positions);
  }

  lemma AppendAssoc(a: seq<string>, b: seq<string>, c: seq<string>)
    ensures (a + b) + c == a + (b + c)
  {
  }

  /** The whole ATOMIC_POSITIONS card for sites with their mask lines. */
  function PositionsBlock(sites: seq<Site>, masks: seq<string>, mags: seq<string>, fmt: Formats): seq<string>
    requires |masks| == |sites| && |FirstSeen(SiteKinds(sites))| <= |mags|
  {
    ["ATOMIC_POSITIONS", "Direct"] + Blocks(FirstSeen(SiteKinds(sites)), SiteKinds(sites), PositionLines(sites, masks, fmt), mags)
  }

  /** The card holds a header, then three lines per group and one per site. */
  lemma PositionsBlockLength(sites: seq<Site>, masks: seq<string>, mags: seq<string>, fmt: Formats)
    requires |masks| == |sites| && |FirstSeen(SiteKinds(sites))| <= |mags|
    ensures |PositionsBlock(sites, masks, mags, fmt)| == 2 + 3 * |FirstSeen(SiteKinds(sites))| + |sites|
    ensures PositionsBlock(sites, masks, mags, fmt)[..2] == ["ATOMIC_POSITIONS", "Direct"]
  {
    GroupsPartitionSites(SiteKinds(sites), PositionLines(sites, masks, fmt));
    BlocksLength(FirstSeen(SiteKinds(sites)), SiteKinds(sites), PositionLines(sites, masks, fmt), mags);
  }

  /** A kind's accumulated group in the scan: its site count and position lines. */
  datatype Acc = Acc(count: nat, positions: seq<string>)

  /** The scan invariant after the first `i` sites. */
  ghost predicate Scanned(names: seq<string>, plines: seq<string>, i: nat, order: seq<string>, groups: map<string, Acc>)
    requires |plines| == |names| && i <= |names|
  {
    && order == FirstSeen(names[..i])
    && (forall k :: k in groups <==> k in order)
    && (forall k :: k in groups ==>
          groups[k].count == |groups[k].positions| && groups[k].positions == SitesOf(names[..i], plines[..i], k))
  }

  /** One step of the scan: a new kind opens a group of one site, a known kind
   *  has its group extended; either way the invariant moves to `i + 1`. */
  lemma ScanNext(names: seq<string>, plines: seq<string>, i: nat,
                 order: seq<string>, groups: map<string, Acc>, order': seq<string>, groups': map<string, Acc>)
    requires |plines| == |names| && i < |names|
    requires Scanned(names, plines, i, order, groups)
    requires names[i] !in groups ==> groups' == groups[names[i] := Acc(1, [plines[i]])] && order' == order + [names[i]]
    requires names[i] in groups ==>
      groups' == groups[names[i] := Acc(groups[names[i]].count + 1, groups[names[i]].positions + [plines[i]])]
      && order' == order
    ensures Scanned(names, plines, i + 1, order', groups')
  {
    ScanOrderNext(names, i, order, groups, order', groups');
    ScanGroupsNext(names, plines, i, groups, groups');
  }

  lemma ScanOrderNext(names: seq<string>, i: nat,
                      order: seq<string>, groups: map<string, Acc>, order': seq<string>, groups': map<string, Acc>)
    requires i < |names|
    requires order == FirstSeen(names[..i]) && (forall k :: k in groups <==> k in order)
    requires names[i] !in groups ==> groups'.Keys == groups.Keys + {names[i]} && order' == order + [names[i]]
    requires names[i] in groups ==> groups'.Keys == groups.Keys && order' == order
    ensures order' == FirstSeen(names[..i + 1])
    ensures forall k :: k in groups' <==> k in order'
    ensures names[i] !in groups ==> names[i] !in names[..i]
  {
    assert names[..i + 1][..i] == names[..i];
    FirstSeenProperties(names[..i]);
  }

  lemma ScanGroupsNext(names: seq<string>, plines: seq<string>, i: nat, groups: map<string, Acc>, groups': map<string, Acc>)
    requires |plines| == |names| && i < |names|
    requires forall k :: k in groups ==>
      groups[k].count == |groups[k].positions| && groups[k].positions == SitesOf(names[..i], plines[..i], k)
    requires names[i] !in groups ==> names[i] !in names[..i] && groups' == groups[names[i] := Acc(1, [plines[i]])]
    requires names[i] in groups ==>
      groups' == groups[names[i] := Acc(groups[names[i]].count + 1, groups[names[i]].positions + [plines[i]])]
    ensures forall k :: k in groups' ==>
      groups'[k].count == |groups'[k].positions| && groups'[k].positions == SitesOf(names[..i + 1], plines[..i + 1], k)
  {
    forall k | k in groups'
      ensures groups'[k].count == |groups'[k].positions| && groups'[k].positions == SitesOf(names[..i + 1], plines[..i + 1], k)
    {
      SitesOfNext(names, plines, i, k);
      if k == names[i] && names[i] !in groups {
        SitesOfAbsent(names[..i], plines[..i], k);
      }
    }
  }

  /** The `ap_dict` scan: a dictionary of groups keyed by kind, with its keys
   *  in insertion order, each group holding its count and position lines. */
  method ScanSites(sites: seq<Site>, masks: seq<string>, fmt: Formats)
    returns (order: seq<string>, groups: map<string, Acc>)
    requires |masks| == |sites|
    ensures order == FirstSeen(SiteKinds(sites))
    ensures forall k :: k in groups <==> k in order
    ensures forall k :: k in groups ==>
      groups[k].count == |groups[k].positions|
      && groups[k].positions == SitesOf(SiteKinds(sites), PositionLines(sites, masks, fmt), k)
  {
    ghost var names := SiteKinds(sites);
    ghost var plines := PositionLines(sites, masks, fmt);
    order := [];
    groups := map[];
    for i := 0 to |sites|
      invariant Scanned(names, plines, i, order, groups)
    {
      var atom := sites[i].kindName;
      var position := PositionLine(sites[i].position, masks[i], fmt);
      var order', groups' := order, groups;
      if atom !in groups {
        groups := groups[atom := Acc(1, [position])];
        order := order + [atom];
      } else {
        groups := groups[atom := Acc(groups[atom].count + 1, groups[atom].positions + [position])];
      }
      ScanNext(names, plines, i, order', groups', order, groups);
    }
    assert names[..|sites|] == names && plines[..|sites|] == plines;
  }

  /** Emits the groups in the dictionary's insertion order, the `idx`th group
   *  with the `idx`th magnetic moment. */
  method EmitGroups(order: seq<string>, groups: map<string, Acc>, mags: seq<string>,
                    ghost names: seq<string>, ghost plines: seq<string>)
    returns (lines: seq<string>)
    requires |plines| == |names| && |order| <= |mags|
    requires forall k :: k in order ==> k in groups
    requires forall k :: k in groups ==>
      groups[k].count == |groups[k].positions| && groups[k].positions == SitesOf(names, plines, k)
    ensures lines == ["ATOMIC_POSITIONS", "Direct"] + Blocks(order, names, plines, mags)
  {
    lines := ["ATOMIC_POSITIONS", "Direct"];
    for idx := 0 to |order|
      invariant lines == ["ATOMIC_POSITIONS", "Direct"] + Blocks(order[..idx], names, plines, mags)
    {
      var k := order[idx];
      var g := groups[k];
      EmitStep(order, idx, names, plines, mags, g, lines);
      lines := lines + ([k, mags[idx], NatToString(g.count)] + g.positions);
    }
    assert order[..|order|] == order;
  }

  /** `write_STRU`'s ATOMIC_POSITIONS part: scans the sites into groups, then
   *  emits them. */
  method AtomicPositions(sites: seq<Site>, masks: seq<string>, mags: seq<string>, fmt: Formats) returns (lines: seq<string>)
    requires |masks| == |sites| && |FirstSeen(SiteKinds(sites))| <= |mags|
    ensures lines == PositionsBlock(sites, masks, mags, fmt)
  {
    var order, groups := ScanSites(sites, masks, fmt);
    lines := EmitGroups(order, groups, mags, SiteKinds(sites), PositionLines(sites, masks, fmt));
  }
}
