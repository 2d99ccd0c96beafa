/** The region-mask generator with a rotation option
    (data-preparation/region_mask_generation/rotated_mask_generator.py).
    It differs from the plain generator in its index formula, in cutting
    slices with a per-atlas bounds check that falls back to an all-zero
    91 x 91 slice instead of skipping or raising, in turning each mask by a
    multiple of 90 degrees before resizing and colouring, and in counting
    the masks it writes. The tables, the equality mask, the colouring, the
    output paths and the test-region filter are the plain generator's. */
module RotatedMasks {
  import opened Wrappers
  import opened Volumes
  import opened PyNum
  import OrderedDict
  import opened RegionMasks

  // ---- index conversion ----

  /** `mni_to_atlas_voxel` of this generator: `int((m + 90) / 2)`,
      `int((m + 126) / 2)` and `int((m + 72) / 2)` in float arithmetic. */
  function AtlasVoxel(p: Plane, m: int): int
  {
    match p
    case Sagittal => Trunc((m + 90) as real / 2.0)
    case Coronal => Trunc((m + 126) as real / 2.0)
    case Axial => Trunc((m + 72) as real / 2.0)
  }

  /** The MNI coordinate of voxel 0 on the plane's axis, negated. */
  function Offset(p: Plane): int
  {
    match p
    case Sagittal => 90
    case Coronal => 126
    case Axial => 72
  }

  /** The float formula is the shifted position halved toward zero. */
  lemma AtlasVoxelHalves(p: Plane, m: int)
    ensures AtlasVoxel(p, m) == HalfTowardZero(m + Offset(p))
  {
    TruncHalf(m + Offset(p));
  }

  /** Truncation rounds the half-voxel at -91 up to index 0 (a floor would
      give -1), so the whole sagittal range starts at index 0. */
  lemma TruncationAtRangeStart()
    ensures AtlasVoxel(Sagittal, -91) == 0 && AtlasVoxel(Sagittal, -90) == 0 && AtlasVoxel(Sagittal, -89) == 0
    ensures AtlasVoxel(Sagittal, -88) == 1
  {
    AtlasVoxelHalves(Sagittal, -91);
    AtlasVoxelHalves(Sagittal, -90);
    AtlasVoxelHalves(Sagittal, -89);
    AtlasVoxelHalves(Sagittal, -88);
  }

  /** On the slice ranges the index is never negative: 0..90 sagittal,
      0..108 coronal and 0..90 axial, the floor of half the shifted position. */
  lemma AtlasVoxelOnSliceRange(p: Plane, m: int)
    requires m in SliceCoordinates(p)
    ensures 0 <= AtlasVoxel(p, m) <= (if p == Coronal then 108 else 90)
    ensures m + Offset(p) >= 0 ==> AtlasVoxel(p, m) == (m + Offset(p)) / 2
  {
    SliceCoordinatesSpec(p);
    RangeOne(-91, 91);
    RangeOne(-126, 92);
    RangeOne(-72, 110);
    AtlasVoxelHalves(p, m);
  }

  /** A higher position never selects a lower index, on every plane. */
  lemma AtlasVoxelMonotone(p: Plane, a: int, b: int)
    requires a <= b
    ensures AtlasVoxel(p, a) <= AtlasVoxel(p, b)
  {
    AtlasVoxelHalves(p, a);
    AtlasVoxelHalves(p, b);
    HalfTowardZeroMonotone(a + Offset(p), b + Offset(p));
  }

  // ---- slices ----

  /** `extract_slice(data, plane, m)`: the slice at the converted index when
      it is inside this array's own extent on the plane's axis, otherwise
      `np.zeros((91, 91))`. */
  function ExtractSlice(data: array3<int>, p: Plane, m: int): Grid
    reads data
  {
    var v := AtlasVoxel(p, m);
    if 0 <= v < Extent(data, Axis(p)) then Slice(data, p, v) else ZeroGrid(91, 91)
  }

  /** In range, each cell is the array element on the fixed axis; out of
      range, the slice is 91 x 91 and all zero. */
  lemma ExtractSliceSpec(data: array3<int>, p: Plane, m: int)
    ensures var v := AtlasVoxel(p, m);
      var g := ExtractSlice(data, p, m);
      && (0 <= v < Extent(data, Axis(p)) ==> forall r, c | 0 <= r < g.rows && 0 <= c < g.cols ::
            g.cells[r][c] == (match p case Sagittal => data[v, r, c] case Coronal => data[r, v, c] case Axial => data[r, c, v]))
      && (!(0 <= v < Extent(data, Axis(p))) ==> g.rows == 91 && g.cols == 91 && !AnyNonZero(g))
  {
    var v := AtlasVoxel(p, m);
    var g := ExtractSlice(data, p, m);
    if 0 <= v < Extent(data, Axis(p)) {
      forall r, c | 0 <= r < g.rows && 0 <= c < g.cols
        ensures g.cells[r][c] == (match p case Sagittal => data[v, r, c] case Coronal => data[r, v, c] case Axial => data[r, c, v])
      {
        SliceAt(data, p, v, r, c);
      }
    }
  }

  // ---- rotation ----

  /** The quarter turns `rotate_mask` applies: 1, 2 or 3 for 90, 180 and 270
      degrees; none for 0 and for every unsupported value. */
  function QuarterTurns(degrees: int): (k: nat)
    ensures k < 4
    ensures k == 0 <==> degrees != 90 && degrees != 180 && degrees != 270
  {
    if degrees == 90 then 1 else if degrees == 180 then 2 else if degrees == 270 then 3 else 0
  }

  /** `rotate_mask(mask)` with `rotation_degrees` given. */
  function RotateMask(mask: Grid, degrees: int): (r: Grid)
    ensures QuarterTurns(degrees) % 2 == 1 ==> r.rows == mask.cols && r.cols == mask.rows
    ensures QuarterTurns(degrees) % 2 == 0 ==> r.rows == mask.rows && r.cols == mask.cols
  {
    TurnsDimensions(mask, QuarterTurns(degrees));
    if degrees == 0 then mask
    else if degrees == 90 then Rot90Times(mask, 1)
    else if degrees == 180 then Rot90Times(mask, 2)
    else if degrees == 270 then Rot90Times(mask, 3)
    else mask
  }

  /** Quarter turns add up. */
  lemma {:induction false} Rot90TimesAdd(g: Grid, a: nat, b: nat)
    ensures Rot90Times(Rot90Times(g, a), b) == Rot90Times(g, a + b)
  {
    if b > 0 {
      Rot90TimesAdd(g, a, b - 1);
    }
  }

  /** What `rotate_mask` does: `QuarterTurns(degrees)` counter-clockwise
      quarter turns, so 0 and unsupported angles leave the mask as it is,
      90 moves cell (j, cols - 1 - i) to (i, j), and an odd number of turns
      swaps the dimensions. */
  lemma RotateMaskSpec(mask: Grid, degrees: int)
    ensures RotateMask(mask, degrees) == Rot90Times(mask, QuarterTurns(degrees))
    ensures QuarterTurns(degrees) == 0 ==> RotateMask(mask, degrees) == mask
    ensures degrees == 90 ==> forall i, j | 0 <= i < mask.cols && 0 <= j < mask.rows ::
      RotateMask(mask, degrees).cells[i][j] == mask.cells[j][mask.cols - 1 - i]
    ensures QuarterTurns(degrees) % 2 == 1 ==>
      RotateMask(mask, degrees).rows == mask.cols && RotateMask(mask, degrees).cols == mask.rows
    ensures QuarterTurns(degrees) % 2 == 0 ==>
      RotateMask(mask, degrees).rows == mask.rows && RotateMask(mask, degrees).cols == mask.cols
  {
    TurnsDimensions(mask, QuarterTurns(degrees));
    if degrees == 90 {
      assert RotateMask(mask, degrees) == Rot90(mask);
      forall i, j | 0 <= i < mask.cols && 0 <= j < mask.rows
        ensures RotateMask(mask, degrees).cells[i][j] == mask.cells[j][mask.cols - 1 - i]
      {
        Rot90At(mask, i, j);
      }
    }
  }

  /** 90 then 270 degrees, 270 then 90, and 180 twice all give the mask back. */
  lemma RotateMaskInverses(mask: Grid)
    ensures RotateMask(RotateMask(mask, 90), 270) == mask
    ensures RotateMask(RotateMask(mask, 270), 90) == mask
    ensures RotateMask(RotateMask(mask, 180), 180) == mask
  {
    Rot90TimesAdd(mask, 1, 3);
    Rot90TimesAdd(mask, 3, 1);
    Rot90TimesAdd(mask, 2, 2);
    FourTurnsIdentity(mask);
  }

  /** Turning keeps the non-empty masks non-empty and the empty ones empty. */
  lemma {:induction false} TurnsKeepAny(g: Grid, k: nat)
    ensures AnyNonZero(Rot90Times(g, k)) <==> AnyNonZero(g)
  {
    if k > 0 {
      TurnsKeepAny(g, k - 1);
      Rot90KeepsAny(Rot90Times(g, k - 1));
    }
  }

  /** Scaling a mask to 0/255 and turning it can be done in either order. */
  lemma Scale255Rot90(g: Grid)
    ensures Scale255(Rot90(g)) == Rot90(Scale255(g))
  {
    var a, b := Scale255(Rot90(g)), Rot90(Scale255(g));
    forall i | 0 <= i < a.rows ensures a.cells[i] == b.cells[i] {
      forall j | 0 <= j < a.cols ensures a.cells[i][j] == b.cells[i][j] {
        Rot90At(g, i, j);
        Rot90At(Scale255(g), i, j);
      }
    }
  }

  lemma {:induction false} Scale255Turns(g: Grid, k: nat)
    ensures Scale255(Rot90Times(g, k)) == Rot90Times(Scale255(g), k)
  {
    if k > 0 {
      Scale255Turns(g, k - 1);
      Scale255Rot90(Rot90Times(g, k - 1));
    }
  }

  // ---- overlay ----

  /** `create_transparent_overlay` of this generator: turn the mask first,
      then scale, resize to 182 x 218 and colour. */
  function RotatedOverlay(mask: Grid, id: int, degrees: int, resize: Resize): seq<seq<Rgba>>
  {
    Colourize(resize(Scale255(RotateMask(mask, degrees)), ImageWidth, ImageHeight), id)
  }

  lemma ResizeShape(resize: Resize)
    ensures forall g: Grid, w: nat, h: nat :: resize(g, w, h).rows == h && resize(g, w, h).cols == w
  {
  }

  /** The resize preceded by the turn, as one resizing step. */
  function TurnThenResize(resize: Resize, degrees: int): Resize
  {
    ResizeShape(resize);
    var f := (g: Grid, w: nat, h: nat) => resize(RotateMask(g, degrees), w, h);
    assert forall g: Grid, w: nat, h: nat :: f(g, w, h) == resize(RotateMask(g, degrees), w, h);
    f
  }

  /** The rotated overlay is the plain generator's overlay of the turned
      mask, and also the plain overlay with the turn folded into the
      resize; at 0 degrees (or an unsupported angle) it is the plain
      overlay itself. */
  lemma RotatedOverlaySpec(mask: Grid, id: int, degrees: int, resize: Resize)
    ensures RotatedOverlay(mask, id, degrees, resize) == Overlay(RotateMask(mask, degrees), id, resize)
    ensures RotatedOverlay(mask, id, degrees, resize) == Overlay(mask, id, TurnThenResize(resize, degrees))
    ensures QuarterTurns(degrees) == 0 ==> RotatedOverlay(mask, id, degrees, resize) == Overlay(mask, id, resize)
  {
    RotateMaskSpec(mask, degrees);
    RotateMaskSpec(Scale255(mask), degrees);
    Scale255Turns(mask, QuarterTurns(degrees));
  }

  // ---- generation ----

  /** The files written for position `m`: the plain generator's region
      files over this generator's two slices, with the turn in the overlay. */
  function PositionFiles(outputDir: string, cort: array3<int>, sub: array3<int>, p: Plane, m: int,
                         regions: seq<(int, string)>, resize: Resize, degrees: int): seq<MaskFile>
    reads cort, sub
  {
    RegionFiles(outputDir, p, m, ExtractSlice(cort, p, m), ExtractSlice(sub, p, m), regions, TurnThenResize(resize, degrees))
  }

  /** The files `generate_masks_for_plane` writes for the positions `coords`. */
  function PlaneFiles(outputDir: string, cort: array3<int>, sub: array3<int>, p: Plane, coords: seq<int>,
                      regions: seq<(int, string)>, resize: Resize, degrees: int): seq<MaskFile>
    reads cort, sub
  {
    if coords == [] then []
    else PlaneFiles(outputDir, cort, sub, p, coords[..|coords| - 1], regions, resize, degrees)
         + PositionFiles(outputDir, cort, sub, p, coords[|coords| - 1], regions, resize, degrees)
  }

  /** Whether region `id` has a set pixel in its slice at position `m`. */
  predicate NonEmptyAt(cort: array3<int>, sub: array3<int>, p: Plane, m: int, id: int)
    reads cort, sub
  {
    AnyNonZero(RegionMask(SourceSlice(ExtractSlice(cort, p, m), ExtractSlice(sub, p, m), id), id))
  }

  /** How many table entries have a set pixel at position `m`. */
  function NonEmptyRegions(cort: array3<int>, sub: array3<int>, p: Plane, m: int, regions: seq<(int, string)>): nat
    reads cort, sub
  {
    if regions == [] then 0
    else NonEmptyRegions(cort, sub, p, m, regions[..|regions| - 1])
         + (if NonEmptyAt(cort, sub, p, m, regions[|regions| - 1].0) then 1 else 0)
  }

  /** How many (position, table entry) pairs have a non-empty mask. */
  function NonEmptyPairs(cort: array3<int>, sub: array3<int>, p: Plane, coords: seq<int>, regions: seq<(int, string)>): nat
    reads cort, sub
  {
    if coords == [] then 0
    else NonEmptyPairs(cort, sub, p, coords[..|coords| - 1], regions) + NonEmptyRegions(cort, sub, p, coords[|coords| - 1], regions)
  }

  /** One file per table entry whose mask at `m` is not empty. */
  lemma {:induction false} PositionFilesCount(outputDir: string, cort: array3<int>, sub: array3<int>, p: Plane, m: int,
                                              regions: seq<(int, string)>, resize: Resize, degrees: int)
    ensures |RegionFiles(outputDir, p, m, ExtractSlice(cort, p, m), ExtractSlice(sub, p, m), regions, TurnThenResize(resize, degrees))|
      == NonEmptyRegions(cort, sub, p, m, regions)
  {
    if regions != [] {
      PositionFilesCount(outputDir, cort, sub, p, m, regions[..|regions| - 1], resize, degrees);
      RegionFileSpec(outputDir, p, m, ExtractSlice(cort, p, m), ExtractSlice(sub, p, m), regions[|regions| - 1].0,
                     TurnThenResize(resize, degrees));
    }
  }

  /** The plane's files are exactly as many as its non-empty (position, region) pairs. */
  lemma {:induction false} PlaneFilesCount(outputDir: string, cort: array3<int>, sub: array3<int>, p: Plane, coords: seq<int>,
                                           regions: seq<(int, string)>, resize: Resize, degrees: int)
    ensures |PlaneFiles(outputDir, cort, sub, p, coords, regions, resize, degrees)| == NonEmptyPairs(cort, sub, p, coords, regions)
  {
    if coords != [] {
      PlaneFilesCount(outputDir, cort, sub, p, coords[..|coords| - 1], regions, resize, degrees);
      PositionFilesCount(outputDir, cort, sub, p, coords[|coords| - 1], regions, resize, degrees);
    }
  }

  /** Each region falls back to zeros on its own: a non-zero region whose
      own atlas (cortical for 4, 5, 12 and 13, subcortical otherwise) has no
      slice at `m` gets no file there, whatever the other atlas holds. */
  lemma RegionOutOfRangeWritesNothing(outputDir: string, cort: array3<int>, sub: array3<int>, p: Plane, m: int,
                                      id: int, regions: seq<(int, string)>, resize: Resize, degrees: int)
    requires id != 0
    requires !(0 <= AtlasVoxel(p, m) < Extent(if UsesCorticalAtlas(id) then cort else sub, Axis(p)))
    ensures !NonEmptyAt(cort, sub, p, m, id)
    ensures forall f | f in PositionFiles(outputDir, cort, sub, p, m, regions, resize, degrees) :: f.regionId != id
  {
    ZeroSliceEmptyMask(91, 91, id);
    RegionFilesSound(outputDir, p, m, ExtractSlice(cort, p, m), ExtractSlice(sub, p, m), regions, TurnThenResize(resize, degrees));
  }

  /** A position whose index is outside both atlases writes nothing when no
      table id is 0, as in the effective priority table. */
  lemma OutOfRangeWritesNothing(outputDir: string, cort: array3<int>, sub: array3<int>, p: Plane, m: int,
                                regions: seq<(int, string)>, resize: Resize, degrees: int)
    requires !(0 <= AtlasVoxel(p, m) < Extent(cort, Axis(p))) && !(0 <= AtlasVoxel(p, m) < Extent(sub, Axis(p)))
    requires forall i | 0 <= i < |regions| :: regions[i].0 != 0
    ensures PositionFiles(outputDir, cort, sub, p, m, regions, resize, degrees) == []
  {
    var fs := PositionFiles(outputDir, cort, sub, p, m, regions, resize, degrees);
    RegionFilesSound(outputDir, p, m, ExtractSlice(cort, p, m), ExtractSlice(sub, p, m), regions, TurnThenResize(resize, degrees));
    if fs != [] {
      var f := fs[0];
      assert f in fs;
      assert f.regionId in OrderedDict.Keys(regions);
      ZeroSliceEmptyMask(91, 91, f.regionId);
    }
  }

  /** No id of the effective priority table is 0. */
  lemma PriorityIdsNonZero()
    ensures forall i | 0 <= i < |PriorityRegions| :: PriorityRegions[i].0 != 0
  {
    EffectiveTables();
  }

  lemma PlaneFilesStep(outputDir: string, cort: array3<int>, sub: array3<int>, p: Plane, coords: seq<int>, i: nat,
                       regions: seq<(int, string)>, resize: Resize, degrees: int)
    requires i < |coords|
    ensures PlaneFiles(outputDir, cort, sub, p, coords[..i + 1], regions, resize, degrees)
      == PlaneFiles(outputDir, cort, sub, p, coords[..i], regions, resize, degrees)
         + PositionFiles(outputDir, cort, sub, p, coords[i], regions, resize, degrees)
  {
    assert coords[..i + 1][..i] == coords[..i];
  }

  /** With distinct positions and table ids no two files of a plane share a
      path, and each lies at its own region and position. */
  lemma {:induction false} PlaneFilesPaths(outputDir: string, cort: array3<int>, sub: array3<int>, p: Plane, coords: seq<int>,
                                           regions: seq<(int, string)>, resize: Resize, degrees: int)
    requires StrictlyIncreasing(coords) && OrderedDict.DistinctKeys(regions)
    ensures DistinctPaths(PlaneFiles(outputDir, cort, sub, p, coords, regions, resize, degrees))
    ensures forall f | f in PlaneFiles(outputDir, cort, sub, p, coords, regions, resize, degrees) ::
      f.mniPosition in coords && AtOwnPath(f, outputDir, p)
  {
    if coords != [] {
      var init, m := coords[..|coords| - 1], coords[|coords| - 1];
      var before := PlaneFiles(outputDir, cort, sub, p, init, regions, resize, degrees);
      var fs := PositionFiles(outputDir, cort, sub, p, m, regions, resize, degrees);
      assert StrictlyIncreasing(init);
      PlaneFilesPaths(outputDir, cort, sub, p, init, regions, resize, degrees);
      RegionFilesPaths(outputDir, p, m, ExtractSlice(cort, p, m), ExtractSlice(sub, p, m), regions, TurnThenResize(resize, degrees));
      forall x, y | x in before && y in fs ensures x.path != y.path {
        assert x.mniPosition != m;
        if x.path == y.path {
          MaskPathInjective(outputDir, p, x.regionId, x.mniPosition, p, y.regionId, y.mniPosition);
        }
      }
      AppendDistinctPaths(before, fs);
    }
  }

  /** Across the three planes no two files share a path: nothing written is
      overwritten, so the summary's directory scan sees each file once. */
  lemma {:induction false} AllFilesPathsDistinct(outputDir: string, cort: array3<int>, sub: array3<int>, n: nat,
                                                 regions: seq<(int, string)>, resize: Resize, degrees: int)
    requires n <= 3 && OrderedDict.DistinctKeys(regions)
    ensures DistinctPaths(AllFiles(outputDir, cort, sub, n, regions, resize, degrees))
    ensures OnFirstPlanes(AllFiles(outputDir, cort, sub, n, regions, resize, degrees), outputDir, n)
  {
    if n > 0 {
      AllFilesPathsDistinct(outputDir, cort, sub, n - 1, regions, resize, degrees);
      var p := Planes[n - 1];
      SliceCoordinatesSpec(p);
      PlaneFilesPaths(outputDir, cort, sub, p, SliceCoordinates(p), regions, resize, degrees);
      AppendNextPlane(outputDir, n, AllFiles(outputDir, cort, sub, n - 1, regions, resize, degrees),
                      PlaneFiles(outputDir, cort, sub, p, SliceCoordinates(p), regions, resize, degrees));
    }
  }

  /** `generate_masks_for_plane(plane)`: every position of the plane's range,
      with the region loop over both extracted slices; returns the files and
      `masks_generated`. */
  method GenerateMasksForPlane(outputDir: string, cort: array3<int>, sub: array3<int>, p: Plane,
                               regions: seq<(int, string)>, resize: Resize, degrees: int)
    returns (files: seq<MaskFile>, masksGenerated: nat)
    ensures files == PlaneFiles(outputDir, cort, sub, p, SliceCoordinates(p), regions, resize, degrees)
    ensures masksGenerated == |files| == NonEmptyPairs(cort, sub, p, SliceCoordinates(p), regions)
  {
    var mniCoords := SliceCoordinates(p);
    var turnThenResize := TurnThenResize(resize, degrees);
    files := [];
    masksGenerated := 0;
    for i := 0 to |mniCoords|
      invariant files == PlaneFiles(outputDir, cort, sub, p, mniCoords[..i], regions, resize, degrees)
      invariant masksGenerated == |files|
    {
      var mniCoord := mniCoords[i];
      PlaneFilesStep(outputDir, cort, sub, p, mniCoords, i, regions, resize, degrees);
      var corticalSlice := ExtractSlice(cort, p, mniCoord);
      var subcorticalSlice := ExtractSlice(sub, p, mniCoord);
      var written := GenerateMasksForSlice(outputDir, p, mniCoord, corticalSlice, subcorticalSlice, regions, turnThenResize);
      files := files + written;
      masksGenerated := masksGenerated + |written|;
    }
    assert mniCoords[..|mniCoords|] == mniCoords;
    PlaneFilesCount(outputDir, cort, sub, p, mniCoords, regions, resize, degrees);
  }

  /** The files of the three planes in turn. */
  function AllFiles(outputDir: string, cort: array3<int>, sub: array3<int>, n: nat,
                    regions: seq<(int, string)>, resize: Resize, degrees: int): seq<MaskFile>
    requires n <= 3
    reads cort, sub
  {
    if n == 0 then []
    else AllFiles(outputDir, cort, sub, n - 1, regions, resize, degrees)
         + PlaneFiles(outputDir, cort, sub, Planes[n - 1], SliceCoordinates(Planes[n - 1]), regions, resize, degrees)
  }

  /** `generate_all_masks`: the three planes, then the summary, whose average
      is guarded by `total_files > 0`. */
  method GenerateAllMasks(outputDir: string, cort: array3<int>, sub: array3<int>,
                          regions: seq<(int, string)>, resize: Resize, degrees: int, fileSize: MaskFile -> nat)
    returns (files: seq<MaskFile>, summary: Summary)
    ensures files == AllFiles(outputDir, cort, sub, 3, regions, resize, degrees)
    ensures summary == MaskSummary(|files|, TotalSize(files, fileSize))
    ensures summary.averageKilobytes.Some? <==> files != []
  {
    files := [];
    for k := 0 to 3
      invariant files == AllFiles(outputDir, cort, sub, k, regions, resize, degrees)
    {
      var planeFiles, _ := GenerateMasksForPlane(outputDir, cort, sub, Planes[k], regions, resize, degrees);
      assert AllFiles(outputDir, cort, sub, k + 1, regions, resize, degrees) == files + planeFiles;
      files := files + planeFiles;
    }
    summary := MaskSummary(|files|, TotalSize(files, fileSize));
  }

  /** `main` after argument parsing: the same test-region filter on the
      table, then generation with the chosen rotation. */
  method Run(table: PriorityTable, testRegion: Option<int>, outputDir: string, cort: array3<int>, sub: array3<int>,
             resize: Resize, degrees: int, fileSize: MaskFile -> nat)
    returns (files: seq<MaskFile>, summary: Option<Summary>)
    modifies table
    ensures testRegion.Some? && testRegion.value != 0 && OrderedDict.Get(old(table.entries), testRegion.value).None? ==>
      files == [] && summary == None && table.entries == old(table.entries)
    ensures !(testRegion.Some? && testRegion.value != 0 && OrderedDict.Get(old(table.entries), testRegion.value).None?) ==>
      && table.entries == (if testRegion.Some? && testRegion.value != 0
                           then [(testRegion.value, OrderedDict.Get(old(table.entries), testRegion.value).value)]
                           else old(table.entries))
      && files == AllFiles(outputDir, cort, sub, 3, table.entries, resize, degrees)
      && summary == Some(MaskSummary(|files|, TotalSize(files, fileSize)))
    ensures OrderedDict.DistinctKeys(old(table.entries)) ==> DistinctPaths(files)
  {
    var proceed := table.ApplyTestRegion(testRegion);
    if !proceed {
      return [], None;
    }
    var s;
    files, s := GenerateAllMasks(outputDir, cort, sub, table.entries, resize, degrees, fileSize);
    summary := Some(s);
    if OrderedDict.DistinctKeys(table.entries) {
      AllFilesPathsDistinct(outputDir, cort, sub, 3, table.entries, resize, degrees);
    }
  }
}
