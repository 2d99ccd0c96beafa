/** The slice catalogue of the full-coverage template extractor
    (data-preparation/extract_slices_full.py): the slice positions of each
    plane, the plane -> fixed-axis dispatch of slice extraction, the image
    filename and the coordinate-mapping record of every slice, and the
    per-plane loop that gathers the records. */
module SliceCatalogue {
  import opened Wrappers
  import opened Volumes
  import opened Formatting
  import opened PyNum

  // ---- sorted(list(set(values))) ----

  /** Inserts `x` into an ascending, duplicate-free list, keeping it so. */
  function InsertSorted(s: seq<int>, x: int): (r: seq<int>)
    requires StrictlyIncreasing(s)
    ensures StrictlyIncreasing(r)
    ensures forall y :: y in r <==> y in s || y == x
  {
    if s == [] then [x]
    else if x < s[0] then [x] + s
    else if x == s[0] then s
    else
      var t := InsertSorted(s[1..], x);
      var r := [s[0]] + t;
      assert StrictlyIncreasing(r) by {
        forall i, j | 0 <= i < j < |r| ensures r[i] < r[j] {
          assert r[j] == t[j - 1] && r[j] in t;
          if r[j] in s[1..] {
            var k :| 0 <= k < |s[1..]| && s[1..][k] == r[j];
            assert s[k + 1] == r[j];
          }
          if i > 0 {
            assert r[i] == t[i - 1];
          }
        }
      }
      r
  }

  /** `sorted(list(set(values)))`: ascending, no repeats, and holding
      exactly the values of the input. */
  function SortedUnique(values: seq<int>): (r: seq<int>)
    ensures StrictlyIncreasing(r)
    ensures forall x :: x in r <==> x in values
  {
    if values == [] then []
    else
      var init := values[..|values| - 1];
      assert values == init + [values[|values| - 1]];
      InsertSorted(SortedUnique(init), values[|values| - 1])
  }

  lemma HeadIsMember(s: seq<int>)
    ensures s != [] ==> s[0] in s
  {
  }

  /** The tail of an ascending list holds its elements other than the head, and stays ascending. */
  lemma TailMembers(a: seq<int>)
    requires a != [] && StrictlyIncreasing(a)
    ensures StrictlyIncreasing(a[1..])
    ensures forall x :: x in a[1..] <==> x in a && x != a[0]
  {
    forall x | x in a[1..] ensures x != a[0] {
      var k :| 0 <= k < |a[1..]| && a[1..][k] == x;
      assert a[0] < a[k + 1];
    }
    assert a == [a[0]] + a[1..];
  }

  /** An ascending, duplicate-free list is determined by its set of elements;
      so `SortedUnique` is the one such list for the values given. */
  lemma {:induction false} AscendingListDeterminedBySet(a: seq<int>, b: seq<int>)
    requires StrictlyIncreasing(a) && StrictlyIncreasing(b)
    requires forall x :: x in a <==> x in b
    ensures a == b
  {
    if a != [] && b != [] {
      assert a[0] in b && b[0] in a;
      var i :| 0 <= i < |b| && b[i] == a[0];
      var j :| 0 <= j < |a| && a[j] == b[0];
      assert a[0] <= a[j] && b[0] <= b[i];
      TailMembers(a);
      TailMembers(b);
      AscendingListDeterminedBySet(a[1..], b[1..]);
      assert a == [a[0]] + a[1..] && b == [b[0]] + b[1..];
    } else {
      HeadIsMember(a);
      HeadIsMember(b);
    }
  }

  // ---- slice positions ----

  /** `self.slice_positions`: one position list per plane. */
  datatype PlanePositions = PlanePositions(sagittal: seq<int>, coronal: seq<int>, axial: seq<int>)
  {
    function Of(p: Plane): seq<int>
    {
      match p
      case Sagittal => sagittal
      case Coronal => coronal
      case Axial => axial
    }
  }

  /** The quick-sampling positions used when full coverage is off. */
  const SamplePositions: PlanePositions :=
    PlanePositions([-60, -30, 0, 30, 60], [-60, -30, 0, 30, 60], [-30, -15, 0, 15, 30])

  /** `int(round(voxel_to_mni(v, affine)))` taken component by component:
      the rounded MNI point of a voxel index. */
  type RoundedMni = Triple -> Triple

  /** The voxel index with `i` on `axis` and 0 on the others: `[i, 0, 0]`,
      `[0, i, 0]` or `[0, 0, i]`. */
  function OnAxis(axis: nat, i: int): (t: Triple)
    requires axis < 3
    ensures Component(t, axis) == i
  {
    if axis == 0 then (i, 0, 0) else if axis == 1 then (0, i, 0) else (0, 0, i)
  }

  /** The rounded MNI coordinate on `axis` of each of the first `n`
      voxel indices along that axis, in index order. */
  function AxisValues(n: nat, axis: nat, rounded: RoundedMni): (s: seq<int>)
    requires axis < 3
    ensures |s| == n
    ensures forall i | 0 <= i < n :: s[i] == Component(rounded(OnAxis(axis, i)), axis)
  {
    seq(n, i requires 0 <= i < n => Component(rounded(OnAxis(axis, i)), axis))
  }

  /** The positions `determine_slice_positions` settles on for a volume shape. */
  function DeterminedPositions(shape: (nat, nat, nat), rounded: RoundedMni): PlanePositions
  {
    PlanePositions(SortedUnique(AxisValues(shape.0, 0, rounded)),
                   SortedUnique(AxisValues(shape.1, 1, rounded)),
                   SortedUnique(AxisValues(shape.2, 2, rounded)))
  }

  /** Each plane's determined list is strictly ascending and holds exactly
      the rounded coordinates, on the plane's own axis, of the voxel indices
      along that axis. */
  lemma DeterminedPositionsSpec(shape: (nat, nat, nat), rounded: RoundedMni, p: Plane)
    ensures StrictlyIncreasing(DeterminedPositions(shape, rounded).Of(p))
    ensures var n := if p == Sagittal then shape.0 else if p == Coronal then shape.1 else shape.2;
      forall m :: m in DeterminedPositions(shape, rounded).Of(p) <==>
        exists i | 0 <= i < n :: m == Component(rounded(OnAxis(Axis(p), i)), Axis(p))
  {
    var n := if p == Sagittal then shape.0 else if p == Coronal then shape.1 else shape.2;
    var vs := AxisValues(n, Axis(p), rounded);
    forall m ensures m in vs <==> exists i | 0 <= i < n :: m == Component(rounded(OnAxis(Axis(p), i)), Axis(p)) {
      if m in vs {
        var i :| 0 <= i < n && vs[i] == m;
      }
    }
  }

  /** The sampling lists have five ascending positions each. */
  lemma SamplePositionsShape(p: Plane)
    ensures |SamplePositions.Of(p)| == 5 && StrictlyIncreasing(SamplePositions.Of(p))
  {
  }

  // ---- one slice ----

  /** `[pos, 0, 0]`, `[0, pos, 0]` or `[0, 0, pos]`: the MNI point whose
      conversion gives the index of the plane's fixed axis. */
  function PlanePoint(p: Plane, pos: int): Triple
  {
    OnAxis(Axis(p), pos)
  }

  /** `extract_slice`: the index of the plane's fixed axis taken from the
      converted point, the volume cut there by numpy's indexing rule, then
      turned a quarter; `None` when the conversion or the index raises. */
  function ExtractSlice(volume: array3<int>, p: Plane, pos: int, toVoxel: VoxelMap): (r: Option<(Grid, Triple)>)
    reads volume
    ensures r.Some? <==>
      toVoxel(PlanePoint(p, pos)).Some? && NpIndex(Component(toVoxel(PlanePoint(p, pos)).value, Axis(p)), Extent(volume, Axis(p))).Some?
    ensures r.Some? ==> r.value.1 == toVoxel(PlanePoint(p, pos)).value
  {
    match toVoxel(PlanePoint(p, pos))
    case None => None
    case Some(v) =>
      match NpIndex(Component(v, Axis(p)), Extent(volume, Axis(p)))
      case None => None
      case Some(i) => Some((Rot90(Slice(volume, p, i)), v))
  }

  /** What an extracted slice shows: with `i` the fixed index, pixel (r, c)
      is voxel (i, c, Z-1-r) of a sagittal cut, (c, i, Z-1-r) of a coronal
      and (c, Y-1-r, i) of an axial one; the picture is Z x Y, Z x X and
      Y x X respectively. */
  lemma ExtractSliceAt(volume: array3<int>, p: Plane, pos: int, toVoxel: VoxelMap, r: nat, c: nat)
    requires ExtractSlice(volume, p, pos, toVoxel).Some?
    ensures var g := ExtractSlice(volume, p, pos, toVoxel).value.0;
      var i := NpIndex(Component(toVoxel(PlanePoint(p, pos)).value, Axis(p)), Extent(volume, Axis(p))).value;
      && (p == Sagittal ==>
            g.rows == volume.Length2 && g.cols == volume.Length1 && (r < g.rows && c < g.cols ==> g.cells[r][c] == volume[i, c, volume.Length2 - 1 - r]))
      && (p == Coronal ==>
            g.rows == volume.Length2 && g.cols == volume.Length0 && (r < g.rows && c < g.cols ==> g.cells[r][c] == volume[c, i, volume.Length2 - 1 - r]))
      && (p == Axial ==>
            g.rows == volume.Length1 && g.cols == volume.Length0 && (r < g.rows && c < g.cols ==> g.cells[r][c] == volume[c, volume.Length1 - 1 - r, i]))
  {
    var i := NpIndex(Component(toVoxel(PlanePoint(p, pos)).value, Axis(p)), Extent(volume, Axis(p))).value;
    var s := Slice(volume, p, i);
    if r < s.cols && c < s.rows {
      Rot90At(s, r, c);
      SliceAt(volume, p, i, c, s.cols - 1 - r);
    }
  }

  /** The image filename `f"{plane}_{pos:+03d}.png"`. */
  function Filename(p: Plane, pos: int): string
  {
    Name(p) + "_" + SignedPadded3(pos) + ".png"
  }

  /** Every (plane, position) pair gets its own filename. */
  lemma FilenameInjective(p: Plane, a: int, q: Plane, b: int)
    requires Filename(p, a) == Filename(q, b)
    ensures p == q && a == b
  {
    FilenameShape(p, a);
    FilenameShape(q, b);
    SplitAtSeparator(Name(p), SignedPadded3(a) + ".png", Name(q), SignedPadded3(b) + ".png", '_');
    AxisAndNameInjective(p, q);
    DropSuffix(SignedPadded3(a), SignedPadded3(b), ".png");
    FormatIntInjective(a, b, 3, true);
  }

  lemma FilenameShape(p: Plane, a: int)
    ensures '_' !in Name(p)
    ensures Filename(p, a) == Name(p) + ['_'] + (SignedPadded3(a) + ".png")
  {
  }

  lemma DropSuffix(x: string, y: string, suffix: string)
    requires x + suffix == y + suffix
    ensures x == y
  {
    assert x == (x + suffix)[..|x|];
    assert y == (y + suffix)[..|y|];
  }

  /** Filenames of a few positions, as they appear on disk. */
  lemma FilenameExamples()
    ensures Filename(Sagittal, 0) == "sagittal_+00.png"
    ensures Filename(Coronal, -5) == "coronal_-05.png"
    ensures Filename(Coronal, -126) == "coronal_-126.png"
    ensures Filename(Axial, 108) == "axial_+108.png"
  {
    SignedPadded3Examples();
  }

  /** `data/processed/slices/<plane>/<filename>`. */
  function ImagePath(p: Plane, pos: int): string
  {
    "data/processed/slices/" + Name(p) + "/" + Filename(p, pos)
  }

  /** The fixed MNI bounds every mapping record carries. */
  datatype Bounds = Bounds(xMin: int, xMax: int, yMin: int, yMax: int, zMin: int, zMax: int)

  const TemplateBounds: Bounds := Bounds(-90, 90, -126, 90, -72, 108)

  /** `f"{plane.capitalize()} slice at MNI {plane[0].upper()}={pos}"`. */
  function Description(p: Plane, pos: int): string
  {
    DescriptionPrefix(p) + Str(pos)
  }

  /** The part of a description before the position. */
  function DescriptionPrefix(p: Plane): string
  {
    Capitalize(Name(p)) + " slice at MNI " + [UpperChar(Name(p)[0])] + "="
  }

  /** The capitalised plane name and its initial: "Sagittal"/'S',
      "Coronal"/'C' and "Axial"/'A'. */
  lemma PlaneTitles()
    ensures Capitalize(Name(Sagittal)) == "Sagittal" && UpperChar(Name(Sagittal)[0]) == 'S'
    ensures Capitalize(Name(Coronal)) == "Coronal" && UpperChar(Name(Coronal)[0]) == 'C'
    ensures Capitalize(Name(Axial)) == "Axial" && UpperChar(Name(Axial)[0]) == 'A'
  {
    var s, c, a := Capitalize("sagittal"), Capitalize("coronal"), Capitalize("axial");
    assert s[0] == 'S' && s[1] == 'a' && s[2] == 'g' && s[3] == 'i' && s[4] == 't' && s[5] == 't' && s[6] == 'a' && s[7] == 'l';
    assert c[0] == 'C' && c[1] == 'o' && c[2] == 'r' && c[3] == 'o' && c[4] == 'n' && c[5] == 'a' && c[6] == 'l';
    assert a[0] == 'A' && a[1] == 'x' && a[2] == 'i' && a[3] == 'a' && a[4] == 'l';
  }

  /** The descriptions read "Sagittal slice at MNI S=<pos>", "Coronal slice
      at MNI C=<pos>" and "Axial slice at MNI A=<pos>". */
  lemma DescriptionText(pos: int)
    ensures Description(Sagittal, pos) == "Sagittal slice at MNI S=" + Str(pos)
    ensures Description(Coronal, pos) == "Coronal slice at MNI C=" + Str(pos)
    ensures Description(Axial, pos) == "Axial slice at MNI A=" + Str(pos)
  {
    DescriptionPrefixes();
  }

  lemma DescriptionPrefixes()
    ensures DescriptionPrefix(Sagittal) == "Sagittal slice at MNI S="
    ensures DescriptionPrefix(Coronal) == "Coronal slice at MNI C="
    ensures DescriptionPrefix(Axial) == "Axial slice at MNI A="
  {
    PlaneTitles();
  }

  /** Different slices get different descriptions. */
  lemma DescriptionInjective(p: Plane, a: int, q: Plane, b: int)
    requires Description(p, a) == Description(q, b)
    ensures p == q && a == b
  {
    DescriptionText(a);
    DescriptionText(b);
    assert Description(p, a)[0] == Description(q, b)[0];
    var prefix := Description(p, a)[..|Description(p, a)| - |Str(a)|];
    assert Description(p, a) == prefix + Str(a);
    assert p == q;
    var d := Description(p, a);
    assert |Str(a)| == |Str(b)|;
    assert Str(a) == d[|d| - |Str(a)|..] == Str(b);
    FormatIntInjective(a, b, 0, false);
  }

  /** The record `create_coordinate_mapping` builds, completed with the
      image's filename and path. The affine matrix it also copies is left
      out. */
  datatype SliceMapping = SliceMapping(
    plane: string, mniPosition: int, sliceShape: (nat, nat), voxelCoordinates: Triple,
    bounds: Bounds, description: string, imageFilename: string, imagePath: string)

  /** `create_coordinate_mapping` plus the two image fields. */
  function CreateCoordinateMapping(p: Plane, pos: int, slice: Grid, voxel: Triple): (m: SliceMapping)
    ensures m.bounds == TemplateBounds
    ensures m.plane == Name(p) && m.mniPosition == pos
    ensures m.sliceShape == (slice.rows, slice.cols)
    ensures m.description == Description(p, pos) && m.voxelCoordinates == voxel
    ensures m.imageFilename == Filename(p, pos) && m.imagePath == ImagePath(p, pos)
  {
    SliceMapping(Name(p), pos, (slice.rows, slice.cols), voxel, TemplateBounds,
                 Description(p, pos), Filename(p, pos), ImagePath(p, pos))
  }

  /** Records of different slices differ in their description, their
      image filename and their image path. */
  lemma MappingsIdentifySlices(p: Plane, a: int, s: Grid, v: Triple, q: Plane, b: int, t: Grid, w: Triple)
    requires (p, a) != (q, b)
    ensures CreateCoordinateMapping(p, a, s, v).description != CreateCoordinateMapping(q, b, t, w).description
    ensures CreateCoordinateMapping(p, a, s, v).imageFilename != CreateCoordinateMapping(q, b, t, w).imageFilename
    ensures CreateCoordinateMapping(p, a, s, v).imagePath != CreateCoordinateMapping(q, b, t, w).imagePath
  {
    if Description(p, a) == Description(q, b) {
      DescriptionInjective(p, a, q, b);
    }
    if Filename(p, a) == Filename(q, b) {
      FilenameInjective(p, a, q, b);
    }
    if ImagePath(p, a) == ImagePath(q, b) {
      ImagePathInjective(p, a, q, b);
    }
  }

  /** Every (plane, position) pair gets its own image path. */
  lemma ImagePathInjective(p: Plane, a: int, q: Plane, b: int)
    requires ImagePath(p, a) == ImagePath(q, b)
    ensures p == q && a == b
  {
    var dir := "data/processed/slices/";
    assert ImagePath(p, a)[|dir|] == Name(p)[0] && ImagePath(q, b)[|dir|] == Name(q)[0];
    assert p == q;
    var n := |dir + Name(p) + "/"|;
    assert ImagePath(p, a)[n..] == Filename(p, a) && ImagePath(q, b)[n..] == Filename(q, b);
    FilenameInjective(p, a, q, b);
  }

  /** The records the position loop of one plane gathers from `positions`:
      one per position whose slice could be extracted, in position order. */
  function PlaneMappings(volume: array3<int>, p: Plane, positions: seq<int>, toVoxel: VoxelMap): seq<SliceMapping>
    reads volume
  {
    if positions == [] then []
    else
      var init, pos := positions[..|positions| - 1], positions[|positions| - 1];
      var rest := PlaneMappings(volume, p, init, toVoxel);
      match ExtractSlice(volume, p, pos, toVoxel)
      case None => rest
      case Some(sv) => rest + [CreateCoordinateMapping(p, pos, sv.0, sv.1)]
  }

  lemma PlaneMappingsSnoc(volume: array3<int>, p: Plane, positions: seq<int>, toVoxel: VoxelMap)
    requires positions != []
    ensures var init, pos := positions[..|positions| - 1], positions[|positions| - 1];
      PlaneMappings(volume, p, positions, toVoxel) ==
        PlaneMappings(volume, p, init, toVoxel) +
        (if ExtractSlice(volume, p, pos, toVoxel).Some? then [CreateCoordinateMapping(p, pos,
          ExtractSlice(volume, p, pos, toVoxel).value.0, ExtractSlice(volume, p, pos, toVoxel).value.1)] else [])
  {
  }

  /** Every record is for a position of the input whose slice extracts, on
      the right plane, with the fixed bounds, and there are no more records
      than positions. */
  lemma {:induction false} PlaneMappingsSound(volume: array3<int>, p: Plane, positions: seq<int>, toVoxel: VoxelMap)
    ensures var ms := PlaneMappings(volume, p, positions, toVoxel);
      && |ms| <= |positions|
      && forall k | 0 <= k < |ms| ::
           && ms[k].plane == Name(p) && ms[k].bounds == TemplateBounds
           && ms[k].mniPosition in positions && ExtractSlice(volume, p, ms[k].mniPosition, toVoxel).Some?
           && ms[k] == CreateCoordinateMapping(p, ms[k].mniPosition, ExtractSlice(volume, p, ms[k].mniPosition, toVoxel).value.0,
                                               ExtractSlice(volume, p, ms[k].mniPosition, toVoxel).value.1)
  {
    if positions != [] {
      var init := positions[..|positions| - 1];
      PlaneMappingsSound(volume, p, init, toVoxel);
      PlaneMappingsSnoc(volume, p, positions, toVoxel);
      assert positions == init + [positions[|positions| - 1]];
    }
  }

  /** A slice that raises is skipped; every position that extracts has a record. */
  lemma {:induction false} PlaneMappingsComplete(volume: array3<int>, p: Plane, positions: seq<int>, toVoxel: VoxelMap)
    ensures var ms := PlaneMappings(volume, p, positions, toVoxel);
      forall pos | pos in positions && ExtractSlice(volume, p, pos, toVoxel).Some? ::
        exists k | 0 <= k < |ms| :: ms[k].mniPosition == pos
  {
    if positions != [] {
      var init, last := positions[..|positions| - 1], positions[|positions| - 1];
      PlaneMappingsComplete(volume, p, init, toVoxel);
      PlaneMappingsSnoc(volume, p, positions, toVoxel);
      var rest, ms := PlaneMappings(volume, p, init, toVoxel), PlaneMappings(volume, p, positions, toVoxel);
      forall q | q in positions && ExtractSlice(volume, p, q, toVoxel).Some?
        ensures exists k | 0 <= k < |ms| :: ms[k].mniPosition == q
      {
        if q in init {
          var k :| 0 <= k < |rest| && rest[k].mniPosition == q;
          assert ms[k] == rest[k];
        } else {
          assert positions == init + [last];
          assert ms[|ms| - 1].mniPosition == q;
        }
      }
    }
  }

  /** Records keep the order of their positions: ascending positions give
      ascending records. */
  lemma {:induction false} PlaneMappingsOrdered(volume: array3<int>, p: Plane, positions: seq<int>, toVoxel: VoxelMap)
    requires StrictlyIncreasing(positions)
    ensures var ms := PlaneMappings(volume, p, positions, toVoxel);
      forall k, l | 0 <= k < l < |ms| :: ms[k].mniPosition < ms[l].mniPosition
  {
    if positions != [] {
      var init, last := positions[..|positions| - 1], positions[|positions| - 1];
      assert StrictlyIncreasing(init) by {
        forall i, j | 0 <= i < j < |init| ensures init[i] < init[j] {
          assert init[i] == positions[i] && init[j] == positions[j];
        }
      }
      PlaneMappingsOrdered(volume, p, init, toVoxel);
      PlaneMappingsSound(volume, p, init, toVoxel);
      PlaneMappingsSnoc(volume, p, positions, toVoxel);
      var rest := PlaneMappings(volume, p, init, toVoxel);
      forall k | 0 <= k < |rest| ensures rest[k].mniPosition < last {
        var i :| 0 <= i < |init| && init[i] == rest[k].mniPosition;
        assert positions[i] < positions[|positions| - 1];
      }
    }
  }

  /** The position lists and records every plane got, in plane order: the
      `all_mappings` dictionary. */
  type AllMappings = seq<(Plane, seq<SliceMapping>)>

  function TotalRecords(all: AllMappings): nat
  {
    if all == [] then 0 else TotalRecords(all[..|all| - 1]) + |all[|all| - 1].1|
  }

  /** The records of each plane for the given positions, in plane order. */
  function AllPlaneMappings(volume: array3<int>, positions: PlanePositions, toVoxel: VoxelMap, n: nat): (all: AllMappings)
    requires n <= 3
    reads volume
    ensures |all| == n
    ensures forall k | 0 <= k < n :: all[k] == (Planes[k], PlaneMappings(volume, Planes[k], positions.Of(Planes[k]), toVoxel))
  {
    seq(n, k requires 0 <= k < n reads volume => (Planes[k], PlaneMappings(volume, Planes[k], positions.Of(Planes[k]), toVoxel)))
  }

  /** How `extract_all_slices` ends. */
  datatype Extraction =
    | Failed          // `min()` of an empty position list raised
    | Cancelled       // more than 200 slices and the prompt not answered "y"
    | Done(mappings: AllMappings, totalGenerated: nat)

  /** One of the three position loops of `determine_slice_positions`: the
      rounded coordinate on `axis` of each index along it. */
  method AxisPositions(n: nat, axis: nat, rounded: RoundedMni) returns (positions: seq<int>)
    requires axis < 3
    ensures positions == AxisValues(n, axis, rounded)
  {
    positions := [];
    for idx := 0 to n
      invariant positions == AxisValues(idx, axis, rounded)
    {
      var mni := rounded(OnAxis(axis, idx));
      positions := positions + [Component(mni, axis)];
    }
  }

  /** The position loop of one plane in `extract_all_slices`: a record for
      every position whose slice extracts, and the count of them. */
  method ExtractPlane(volume: array3<int>, plane: Plane, ps: seq<int>, toVoxel: VoxelMap)
    returns (planeMappings: seq<SliceMapping>, generated: nat)
    ensures planeMappings == PlaneMappings(volume, plane, ps, toVoxel)
    ensures generated == |planeMappings|
  {
    planeMappings := [];
    generated := 0;
    for i := 0 to |ps|
      invariant planeMappings == PlaneMappings(volume, plane, ps[..i], toVoxel)
      invariant generated == |planeMappings|
    {
      var mniPosition := ps[i];
      PlaneMappingsStep(volume, plane, ps, i, toVoxel);
      var extracted := ExtractSlice(volume, plane, mniPosition, toVoxel);
      if extracted.Some? {
        var mapping := CreateCoordinateMapping(plane, mniPosition, extracted.value.0, extracted.value.1);
        planeMappings := planeMappings + [mapping];
        generated := generated + 1;
      }
    }
    assert ps[..|ps|] == ps;
  }

  lemma PlaneMappingsStep(volume: array3<int>, p: Plane, ps: seq<int>, i: nat, toVoxel: VoxelMap)
    requires i < |ps|
    ensures PlaneMappings(volume, p, ps[..i + 1], toVoxel) ==
      PlaneMappings(volume, p, ps[..i], toVoxel) +
      (if ExtractSlice(volume, p, ps[i], toVoxel).Some? then [CreateCoordinateMapping(p, ps[i],
        ExtractSlice(volume, p, ps[i], toVoxel).value.0, ExtractSlice(volume, p, ps[i], toVoxel).value.1)] else [])
  {
    assert ps[..i + 1][..i] == ps[..i];
    PlaneMappingsSnoc(volume, p, ps[..i + 1], toVoxel);
  }

  /** The plane loop of `extract_all_slices`: each plane's records in
      plane order, and their total count. */
  method ExtractPlanes(volume: array3<int>, positions: PlanePositions, toVoxel: VoxelMap)
    returns (allMappings: AllMappings, totalGenerated: nat)
    ensures allMappings == AllPlaneMappings(volume, positions, toVoxel, 3)
    ensures totalGenerated == TotalRecords(allMappings)
  {
    allMappings := [];
    totalGenerated := 0;
    for pi := 0 to |Planes|
      invariant allMappings == AllPlaneMappings(volume, positions, toVoxel, pi)
      invariant totalGenerated == TotalRecords(allMappings)
    {
      var plane := Planes[pi];
      var planeMappings, generated := ExtractPlane(volume, plane, positions.Of(plane), toVoxel);
      AllPlaneMappingsSnoc(volume, positions, toVoxel, pi);
      totalGenerated := totalGenerated + generated;
      assert (allMappings + [(plane, planeMappings)])[..pi] == allMappings;
      allMappings := allMappings + [(plane, planeMappings)];
    }
  }

  lemma AllPlaneMappingsSnoc(volume: array3<int>, positions: PlanePositions, toVoxel: VoxelMap, n: nat)
    requires n < 3
    ensures AllPlaneMappings(volume, positions, toVoxel, n + 1) ==
      AllPlaneMappings(volume, positions, toVoxel, n) + [(Planes[n], PlaneMappings(volume, Planes[n], positions.Of(Planes[n]), toVoxel))]
  {
  }

  /** The extractor object: whether full coverage is on, and the position
      lists, unset until computed in full-coverage mode. */
  class BrainSliceExtractor {
    const fullCoverage: bool
    var slicePositions: Option<PlanePositions>

    /** Positions are always known outside full-coverage mode. */
    predicate Valid()
      reads this
    {
      !fullCoverage ==> slicePositions.Some?
    }

    /** `__init__`: sampling positions, or none yet for full coverage. */
    constructor(fullCoverage: bool)
      ensures this.fullCoverage == fullCoverage
      ensures slicePositions == if fullCoverage then None else Some(SamplePositions)
      ensures Valid()
    {
      this.fullCoverage := fullCoverage;
      slicePositions := if fullCoverage then None else Some(SamplePositions);
    }

    /** `determine_slice_positions(shape)`: the rounded coordinate of every
      index along each axis, de-duplicated and sorted, stored per plane; the
      answer is the total count, or `None` when some axis is empty (its
      `min()` raises after the lists are stored). */
    method DetermineSlicePositions(shape: (nat, nat, nat), rounded: RoundedMni) returns (total: Option<nat>)
      modifies this
      ensures slicePositions == Some(DeterminedPositions(shape, rounded))
      ensures var d := DeterminedPositions(shape, rounded);
        total == if d.sagittal == [] || d.coronal == [] || d.axial == [] then None
                 else Some(|d.sagittal| + |d.coronal| + |d.axial|)
      ensures Valid()
    {
      var xPositions := AxisPositions(shape.0, 0, rounded);
      var yPositions := AxisPositions(shape.1, 1, rounded);
      var zPositions := AxisPositions(shape.2, 2, rounded);
      var xs, ys, zs := SortedUnique(xPositions), SortedUnique(yPositions), SortedUnique(zPositions);
      slicePositions := Some(PlanePositions(xs, ys, zs));
      if xs == [] || ys == [] || zs == [] {
        return None;
      }
      total := Some(|xs| + |ys| + |zs|);
    }

    /** `extract_all_slices` once the template is loaded: in full-coverage
      mode the positions are computed first and a job of more than 200
      slices needs `confirm`; then each plane's positions are visited in
      order, a mapping recorded for every slice that extracts, and the
      records counted. */
    method ExtractAllSlices(volume: array3<int>, toVoxel: VoxelMap, rounded: RoundedMni, confirm: bool)
      returns (outcome: Extraction)
      requires Valid()
      modifies this
      ensures fullCoverage ==> slicePositions == Some(DeterminedPositions((volume.Length0, volume.Length1, volume.Length2), rounded))
      ensures !fullCoverage ==> slicePositions == old(slicePositions)
      ensures Valid()
      ensures var d := DeterminedPositions((volume.Length0, volume.Length1, volume.Length2), rounded);
        && (outcome == Failed <==> fullCoverage && (d.sagittal == [] || d.coronal == [] || d.axial == []))
        && (outcome == Cancelled <==> fullCoverage && outcome != Failed && |d.sagittal| + |d.coronal| + |d.axial| > 200 && !confirm)
      ensures outcome.Done? ==>
        && outcome.mappings == AllPlaneMappings(volume, slicePositions.value, toVoxel, 3)
        && outcome.totalGenerated == TotalRecords(outcome.mappings)
    {
      if fullCoverage {
        var total := DetermineSlicePositions((volume.Length0, volume.Length1, volume.Length2), rounded);
        if total == None {
          return Failed;
        }
        if total.value > 200 && !confirm {
          return Cancelled;
        }
      }
      var allMappings, totalGenerated := ExtractPlanes(volume, slicePositions.value, toVoxel);
      outcome := Done(allMappings, totalGenerated);
    }
  }
}
