/** The region-mask generator
    (data-preparation/region_mask_generation/region_mask_generator.py): for
    every plane and every MNI position of its slice range, the atlas slice
    at the converted index is cut from both atlases, and for every priority
    region with at least one voxel in that slice a coloured, half-transparent
    overlay is written under a path naming the plane, the region and the
    position. The tables, the equality mask, the colouring and the
    test-region filter are shared with the rotated generator. */
module RegionMasks {
  import opened Wrappers
  import opened Volumes
  import opened Formatting
  import opened PyNum
  import OrderedDict
  import SliceCatalogue

  // ---- the priority tables ----

  /** The `PRIORITY_REGIONS` literal as written: id 5 appears twice. */
  const PriorityRegionsLiteral: seq<(int, string)> := [
    (4, "Precentral Gyrus"), (5, "Postcentral Gyrus"), (12, "Superior Frontal Gyrus"),
    (13, "Middle Frontal Gyrus"), (17, "Hippocampus"), (18, "Amygdala"), (5, "Caudate"),
    (6, "Putamen"), (10, "Thalamus"), (8, "Cerebellum Crus I")
  ]

  /** An RGB colour. */
  type Rgb = (int, int, int)

  /** The `REGION_COLORS` literal as written: id 5 appears twice. */
  const RegionColorsLiteral: seq<(int, Rgb)> := [
    (4, (255, 0, 0)), (5, (0, 255, 0)), (12, (0, 0, 255)), (13, (255, 255, 0)),
    (17, (255, 0, 255)), (18, (0, 255, 255)), (5, (255, 128, 0)), (6, (128, 255, 0)),
    (10, (255, 0, 128)), (8, (128, 0, 255))
  ]

  /** The dictionaries Python builds from the two literals. */
  const PriorityRegions: seq<(int, string)> := OrderedDict.FromPairs(PriorityRegionsLiteral)
  const RegionColors: seq<(int, Rgb)> := OrderedDict.FromPairs(RegionColorsLiteral)

  /** The later entry for id 5 wins but keeps the first one's place: nine
      ids, with 5 named "Caudate" and coloured orange. */
  lemma EffectiveTables()
    ensures PriorityRegions == [
      (4, "Precentral Gyrus"), (5, "Caudate"), (12, "Superior Frontal Gyrus"),
      (13, "Middle Frontal Gyrus"), (17, "Hippocampus"), (18, "Amygdala"),
      (6, "Putamen"), (10, "Thalamus"), (8, "Cerebellum Crus I")]
    ensures RegionColors == [
      (4, (255, 0, 0)), (5, (255, 128, 0)), (12, (0, 0, 255)), (13, (255, 255, 0)),
      (17, (255, 0, 255)), (18, (0, 255, 255)), (6, (128, 255, 0)), (10, (255, 0, 128)),
      (8, (128, 0, 255))]
  {
    DuplicateOfSecondKey(PriorityRegionsLiteral);
    DuplicateOfSecondKey(RegionColorsLiteral);
  }

  /** The shape both literals share: ten pairs, the seventh repeating the
      second key, no other key repeated. The result has nine entries, the
      second carrying the seventh pair's value. */
  lemma DuplicateOfSecondKey<V>(l: seq<(int, V)>)
    requires |l| == 10 && l[6].0 == l[1].0
    requires forall i, j | 0 <= i < j < 10 && i != 6 && j != 6 :: l[i].0 != l[j].0
    ensures OrderedDict.FromPairs(l) == [l[0], (l[1].0, l[6].1)] + l[2..6] + l[7..]
  {
    var d := [l[0], (l[1].0, l[6].1)] + l[2..6];
    FirstSevenPairs(l);
    assert forall i | 0 <= i < |d| :: d[i].0 == l[i].0;
    FromPairsAppendsNew(l, 7, d);
  }

  /** Pairs whose keys are new, to the dictionary built so far and to each
      other, are appended in order. */
  lemma {:induction false} FromPairsAppendsNew<V>(l: seq<(int, V)>, k: nat, d: seq<(int, V)>)
    requires k <= |l| && OrderedDict.FromPairs(l[..k]) == d
    requires forall i, j | 0 <= i < |d| && k <= j < |l| :: d[i].0 != l[j].0
    requires forall i, j | k <= i < j < |l| :: l[i].0 != l[j].0
    ensures OrderedDict.FromPairs(l) == d + l[k..]
    decreases |l| - k
  {
    if k < |l| {
      FromPairsStepNew(l, k + 1, d);
      var d' := d + [l[k]];
      assert forall i | 0 <= i < |d'| :: d'[i].0 == if i < |d| then d[i].0 else l[k].0;
      FromPairsAppendsNew(l, k + 1, d');
      assert d' + l[k + 1..] == d + l[k..];
    } else {
      assert l[..k] == l;
    }
  }

  /** The first seven pairs: six distinct keys, then the second key again. */
  lemma FirstSevenPairs<V>(l: seq<(int, V)>)
    requires |l| >= 7 && l[6].0 == l[1].0
    requires forall i, j | 0 <= i < j < 6 :: l[i].0 != l[j].0
    ensures OrderedDict.FromPairs(l[..7]) == [l[0], (l[1].0, l[6].1)] + l[2..6]
  {
    var d6 := l[..6];
    DistinctFromPairsIdentity(d6);
    assert l[..7][..6] == d6;
    assert d6[1..][1..] == l[2..6];
    assert OrderedDict.Put(d6[1..], l[1].0, l[6].1) == [(l[1].0, l[6].1)] + l[2..6];
    assert OrderedDict.Put(d6, l[1].0, l[6].1) == [l[0]] + OrderedDict.Put(d6[1..], l[1].0, l[6].1);
  }

  /** One more pair with a new key appends it to the dictionary built so far. */
  lemma FromPairsStepNew<V>(l: seq<(int, V)>, k: nat, d: seq<(int, V)>)
    requires 0 < k <= |l| && OrderedDict.FromPairs(l[..k - 1]) == d
    requires forall i | 0 <= i < |d| :: d[i].0 != l[k - 1].0
    ensures OrderedDict.FromPairs(l[..k]) == d + [l[k - 1]]
  {
    assert l[..k][..k - 1] == l[..k - 1];
    assert l[k - 1].0 !in OrderedDict.Keys(d);
    OrderedDict.PutNewAppends(d, l[k - 1].0, l[k - 1].1);
  }

  /** A literal without repeated keys builds the dictionary of its pairs in order. */
  lemma {:induction false} DistinctFromPairsIdentity<V>(pairs: seq<(int, V)>)
    requires OrderedDict.DistinctKeys(pairs)
    ensures OrderedDict.FromPairs(pairs) == pairs
  {
    if pairs != [] {
      var init := pairs[..|pairs| - 1];
      DistinctFromPairsIdentity(init);
      assert pairs[|pairs| - 1].0 !in OrderedDict.Keys(init);
      OrderedDict.PutNewAppends(init, pairs[|pairs| - 1].0, pairs[|pairs| - 1].1);
      assert pairs == init + [pairs[|pairs| - 1]];
    }
  }

  const White: Rgb := (255, 255, 255)

  /** `REGION_COLORS.get(region_id, (255, 255, 255))`. */
  function ColorOf(id: int): (c: Rgb)
    ensures OrderedDict.Get(RegionColors, id).None? ==> c == White
    ensures OrderedDict.Get(RegionColors, id).Some? ==> c == OrderedDict.Get(RegionColors, id).value
  {
    match OrderedDict.Get(RegionColors, id)
    case None => White
    case Some(c) => c
  }

  // ---- slice positions and voxel indices ----

  /** `generate_slice_coordinates` and the ranges `generate_masks_for_plane`
      repeats: every millimetre position from -91 to 90, -126 to 91 and -72
      to 109. */
  function SliceCoordinates(p: Plane): seq<int>
  {
    match p
    case Sagittal => Range(-91, 91, 1)
    case Coronal => Range(-126, 92, 1)
    case Axial => Range(-72, 110, 1)
  }

  /** 182 sagittal, 218 coronal and 182 axial positions, each once, ascending. */
  lemma SliceCoordinatesSpec(p: Plane)
    ensures |SliceCoordinates(p)| == (if p == Coronal then 218 else 182)
    ensures forall i | 0 <= i < |SliceCoordinates(p)| :: SliceCoordinates(p)[i] == (match p
      case Sagittal => -91 + i case Coronal => -126 + i case Axial => -72 + i)
    ensures StrictlyIncreasing(SliceCoordinates(p))
  {
    match p
    case Sagittal => RangeOne(-91, 91);
    case Coronal => RangeOne(-126, 92);
    case Axial => RangeOne(-72, 110);
  }

  /** The effective `mni_to_atlas_voxel` (the second of two identical
      definitions): `int((m + 90) / 2 + 0.5)`, `int((90 - m) / 2 + 18)` and
      `int((m + 72) / 2 + 0.5)` in float arithmetic. */
  function AtlasVoxel(p: Plane, m: int): int
  {
    match p
    case Sagittal => Trunc((m + 90) as real / 2.0 + 0.5)
    case Coronal => Trunc((90 - m) as real / 2.0 + 18.0)
    case Axial => Trunc((m + 72) as real / 2.0 + 0.5)
  }

  lemma FloorHalf(k: int)
    requires k >= 0
    ensures Trunc(k as real / 2.0) == k / 2
  {
    TruncHalf(k);
    HalfTowardZeroOfNonNegative(k);
  }

  /** On the slice ranges the float formulas are integer halvings:
      floor((m + 91) / 2), floor((126 - m) / 2) and floor((m + 73) / 2),
      giving indices 0..90, 17..126 and 0..91. */
  lemma AtlasVoxelOnSliceRange(p: Plane, m: int)
    requires m in SliceCoordinates(p)
    ensures p == Sagittal ==> AtlasVoxel(p, m) == (m + 91) / 2 && 0 <= AtlasVoxel(p, m) <= 90
    ensures p == Coronal ==> AtlasVoxel(p, m) == (126 - m) / 2 && 17 <= AtlasVoxel(p, m) <= 126
    ensures p == Axial ==> AtlasVoxel(p, m) == (m + 73) / 2 && 0 <= AtlasVoxel(p, m) <= 91
  {
    SliceCoordinatesSpec(p);
    RangeOne(-91, 91);
    RangeOne(-126, 92);
    RangeOne(-72, 110);
    match p
    case Sagittal =>
      assert (m + 90) as real / 2.0 + 0.5 == (m + 91) as real / 2.0;
      FloorHalf(m + 91);
    case Coronal =>
      assert (90 - m) as real / 2.0 + 18.0 == (126 - m) as real / 2.0;
      FloorHalf(126 - m);
    case Axial =>
      assert (m + 72) as real / 2.0 + 0.5 == (m + 73) as real / 2.0;
      FloorHalf(m + 73);
  }

  /** The sagittal and axial indices never decrease as m grows; the coronal
      index never increases (posterior positions map to high indices). */
  lemma AtlasVoxelMonotone(p: Plane, a: int, b: int)
    requires a <= b
    ensures p != Coronal ==> AtlasVoxel(p, a) <= AtlasVoxel(p, b)
    ensures p == Coronal ==> AtlasVoxel(p, a) >= AtlasVoxel(p, b)
  {
    match p
    case Sagittal => TruncMonotone((a + 90) as real / 2.0 + 0.5, (b + 90) as real / 2.0 + 0.5);
    case Coronal => TruncMonotone((90 - b) as real / 2.0 + 18.0, (90 - a) as real / 2.0 + 18.0);
    case Axial => TruncMonotone((a + 72) as real / 2.0 + 0.5, (b + 72) as real / 2.0 + 0.5);
  }

  // ---- masks and overlays ----

  /** `(region_data == region_id).astype(np.uint8)`; the `threshold`
      argument is never used. */
  function RegionMask(g: Grid, id: int): (mask: Grid)
    ensures mask.rows == g.rows && mask.cols == g.cols
  {
    GridData(g.rows, g.cols,
      seq(g.rows, (r: int) requires 0 <= r < g.rows =>
        seq(g.cols, (c: int) requires 0 <= c < g.cols => if g.cells[r][c] == id then 1 else 0)))
  }

  /** The mask is 1 exactly where the slice holds the id and 0 elsewhere, so
      it has a set cell iff the id occurs in the slice. */
  lemma RegionMaskSpec(g: Grid, id: int)
    ensures forall r, c | 0 <= r < g.rows && 0 <= c < g.cols ::
      (RegionMask(g, id).cells[r][c] == 1 <==> g.cells[r][c] == id) &&
      (RegionMask(g, id).cells[r][c] == 0 <==> g.cells[r][c] != id)
    ensures AnyNonZero(RegionMask(g, id)) <==> exists r, c | 0 <= r < g.rows && 0 <= c < g.cols :: g.cells[r][c] == id
  {
    var mask := RegionMask(g, id);
    if AnyNonZero(mask) {
      var r, c :| 0 <= r < mask.rows && 0 <= c < mask.cols && mask.cells[r][c] != 0;
      assert g.cells[r][c] == id;
    }
    if exists r, c | 0 <= r < g.rows && 0 <= c < g.cols :: g.cells[r][c] == id {
      var r, c :| 0 <= r < g.rows && 0 <= c < g.cols && g.cells[r][c] == id;
      assert mask.cells[r][c] == 1;
    }
  }

  /** An id that never occurs in an all-zero slice: a zero slice gives an empty mask. */
  lemma ZeroSliceEmptyMask(rows: nat, cols: nat, id: int)
    requires id != 0
    ensures !AnyNonZero(RegionMask(ZeroGrid(rows, cols), id))
  {
    RegionMaskSpec(ZeroGrid(rows, cols), id);
  }

  /** `mask * 255` on an unsigned 8-bit mask: a cell 0 stays 0 and a cell 1
      becomes 255, so on a 0/1 mask a cell is above the colouring threshold
      127 exactly where the mask is set. */
  function Scale255(mask: Grid): (g: Grid)
    ensures g.rows == mask.rows && g.cols == mask.cols
    ensures forall r, c | 0 <= r < g.rows && 0 <= c < g.cols && 0 <= mask.cells[r][c] <= 1 ::
      g.cells[r][c] == 255 * mask.cells[r][c] && (g.cells[r][c] > 127 <==> mask.cells[r][c] == 1)
  {
    GridData(mask.rows, mask.cols,
      seq(mask.rows, (r: int) requires 0 <= r < mask.rows =>
        seq(mask.cols, (c: int) requires 0 <= c < mask.cols => (mask.cells[r][c] * 255) % 256)))
  }

  /** PIL's `resize((width, height), NEAREST)`, given as a function: the
      result has `height` rows and `width` columns. */
  type Resize = f: (Grid, nat, nat) -> Grid | forall g: Grid, w: nat, h: nat :: f(g, w, h).rows == h && f(g, w, h).cols == w
    witness (g: Grid, w: nat, h: nat) => ZeroGrid(h, w)

  /** `image_size=(182, 218)`: width 182, height 218. */
  const ImageWidth: nat := 182
  const ImageHeight: nat := 218

  /** An RGBA pixel. */
  datatype Rgba = Rgba(r: int, g: int, b: int, a: int)

  const Transparent: Rgba := Rgba(0, 0, 0, 0)

  /** The region's colour at alpha 128. */
  function Tint(id: int): Rgba
  {
    Rgba(ColorOf(id).0, ColorOf(id).1, ColorOf(id).2, 128)
  }

  /** The colouring step of `create_transparent_overlay`, on the resized
      mask: a pixel above 127 gets the region's colour at alpha 128, every
      other pixel stays (0, 0, 0, 0). */
  function Colourize(resized: Grid, id: int): (img: seq<seq<Rgba>>)
    ensures |img| == resized.rows && forall r | 0 <= r < |img| :: |img[r]| == resized.cols
  {
    seq(resized.rows, (r: int) requires 0 <= r < resized.rows =>
      seq(resized.cols, (c: int) requires 0 <= c < resized.cols =>
        if resized.cells[r][c] > 127 then Tint(id) else Transparent))
  }

  /** `create_transparent_overlay(mask, region_id)`: scale, resize to
      182 x 218, colour. */
  function Overlay(mask: Grid, id: int, resize: Resize): seq<seq<Rgba>>
  {
    Colourize(resize(Scale255(mask), ImageWidth, ImageHeight), id)
  }

  /** The resize keeps values: every output cell holds some input cell's value
      (true of nearest-neighbour sampling). */
  predicate KeepsValues(resize: Resize, g: Grid, w: nat, h: nat)
  {
    forall r, c | 0 <= r < h && 0 <= c < w ::
      exists r0, c0 | 0 <= r0 < g.rows && 0 <= c0 < g.cols :: resize(g, w, h).cells[r][c] == g.cells[r0][c0]
  }

  /** The overlay is 218 x 182; every pixel is either fully transparent or
      the region's colour (white for ids without a colour) at alpha 128, and
      coloured exactly where the resized mask exceeds 127. When the resize
      keeps values, a coloured pixel comes from a set mask cell, so an empty
      mask gives a fully transparent image. */
  lemma OverlaySpec(mask: Grid, id: int, resize: Resize)
    ensures var img := Overlay(mask, id, resize);
      && |img| == 218 && (forall r | 0 <= r < 218 :: |img[r]| == 182)
      && (forall r, c | 0 <= r < 218 && 0 <= c < 182 ::
            (img[r][c] == Transparent || img[r][c] == Tint(id)) &&
            (img[r][c].a == 128 <==> resize(Scale255(mask), 182, 218).cells[r][c] > 127))
      && (OrderedDict.Get(RegionColors, id).None? ==> Tint(id) == Rgba(255, 255, 255, 128))
      && (KeepsValues(resize, Scale255(mask), 182, 218) && (forall r, c | 0 <= r < mask.rows && 0 <= c < mask.cols :: 0 <= mask.cells[r][c] <= 1) ==>
            forall r, c | 0 <= r < 218 && 0 <= c < 182 :: img[r][c] != Transparent ==> AnyNonZero(mask))
  {
    var img := Overlay(mask, id, resize);
    var s := Scale255(mask);
    var rs := resize(s, 182, 218);
    if KeepsValues(resize, s, 182, 218) && (forall r, c | 0 <= r < mask.rows && 0 <= c < mask.cols :: 0 <= mask.cells[r][c] <= 1) {
      forall r, c | 0 <= r < 218 && 0 <= c < 182 && img[r][c] != Transparent ensures AnyNonZero(mask) {
        assert rs.cells[r][c] > 127;
        var r0, c0 :| 0 <= r0 < s.rows && 0 <= c0 < s.cols && rs.cells[r][c] == s.cells[r0][c0];
        assert mask.cells[r0][c0] != 0;
      }
    }
  }

  /** Ids 4, 5, 12 and 13 are read from the cortical atlas, every other id
      from the subcortical one. */
  predicate UsesCorticalAtlas(id: int)
  {
    id == 4 || id == 5 || id == 12 || id == 13
  }

  /** The slice a region's mask is cut from. */
  function SourceSlice(cortical: Grid, subcortical: Grid, id: int): (g: Grid)
    ensures g == if UsesCorticalAtlas(id) then cortical else subcortical
  {
    if id in [4, 5, 12, 13] then cortical else subcortical
  }

  /** With the effective table, "Caudate" (id 5) is read from the cortical
      atlas together with 4, 12 and 13; the other five from the subcortical one. */
  lemma AtlasChoiceOfTable()
    ensures forall i | 0 <= i < |PriorityRegions| :: UsesCorticalAtlas(PriorityRegions[i].0) <==> i < 4
  {
    EffectiveTables();
  }

  // ---- output paths ----

  /** `output_dir / 'region_masks' / plane / f'region_{id:02d}' / f"{plane}_{m:+03d}.png"`. */
  function MaskPath(outputDir: string, p: Plane, id: int, m: int): string
  {
    (outputDir + "/region_masks/") + (Name(p) + "/" + ("region_" + (Padded2(id) + "/" + SliceCatalogue.Filename(p, m))))
  }

  /** Different (plane, region, position) triples are written to different paths. */
  lemma MaskPathInjective(outputDir: string, p: Plane, a: int, m: int, q: Plane, b: int, n: int)
    requires MaskPath(outputDir, p, a, m) == MaskPath(outputDir, q, b, n)
    ensures p == q && a == b && m == n
  {
    var x := Name(p) + ['/'] + ("region_" + (Padded2(a) + ['/'] + SliceCatalogue.Filename(p, m)));
    var y := Name(q) + ['/'] + ("region_" + (Padded2(b) + ['/'] + SliceCatalogue.Filename(q, n)));
    CancelAround(outputDir + "/region_masks/", x, y, "");
    assert '/' !in Name(p) && '/' !in Name(q);
    SplitAtSeparator(Name(p), "region_" + (Padded2(a) + ['/'] + SliceCatalogue.Filename(p, m)),
                     Name(q), "region_" + (Padded2(b) + ['/'] + SliceCatalogue.Filename(q, n)), '/');
    AxisAndNameInjective(p, q);
    CancelAround("region_", Padded2(a) + ['/'] + SliceCatalogue.Filename(p, m), Padded2(b) + ['/'] + SliceCatalogue.Filename(q, n), "");
    FormatIntHasNoSeparator(a, 2, false);
    FormatIntHasNoSeparator(b, 2, false);
    SplitAtSeparator(Padded2(a), SliceCatalogue.Filename(p, m), Padded2(b), SliceCatalogue.Filename(q, n), '/');
    FormatIntInjective(a, b, 2, false);
    SliceCatalogue.FilenameInjective(p, m, q, n);
  }

  // ---- generation ----

  /** One written overlay: where it went, which region and position it shows. */
  datatype MaskFile = MaskFile(path: string, regionId: int, mniPosition: int, image: seq<seq<Rgba>>)

  /** The file the region loop writes for region `id` at position `m`:
      one when its mask has a set pixel, none otherwise. */
  function RegionFile(outputDir: string, p: Plane, m: int, cortical: Grid, subcortical: Grid,
                      id: int, resize: Resize): seq<MaskFile>
  {
    var mask := RegionMask(SourceSlice(cortical, subcortical, id), id);
    if AnyNonZero(mask) then [MaskFile(MaskPath(outputDir, p, id, m), id, m, Overlay(mask, id, resize))] else []
  }

  /** The files the region loop writes for one slice, in table order. */
  function RegionFiles(outputDir: string, p: Plane, m: int, cortical: Grid, subcortical: Grid,
                       regions: seq<(int, string)>, resize: Resize): seq<MaskFile>
  {
    if regions == [] then []
    else
      RegionFiles(outputDir, p, m, cortical, subcortical, regions[..|regions| - 1], resize)
      + RegionFile(outputDir, p, m, cortical, subcortical, regions[|regions| - 1].0, resize)
  }

  /** `f` is the file for its region at position `m`, given the two slices:
      the region's mask is not empty, and `f` holds its path and overlay. */
  predicate IsMaskFileFor(f: MaskFile, outputDir: string, p: Plane, m: int, cortical: Grid, subcortical: Grid, resize: Resize)
  {
    var mask := RegionMask(SourceSlice(cortical, subcortical, f.regionId), f.regionId);
    && f.mniPosition == m
    && f.path == MaskPath(outputDir, p, f.regionId, m)
    && AnyNonZero(mask)
    && f.image == Overlay(mask, f.regionId, resize)
  }

  /** A region gets a file exactly when its mask has a set pixel, and that
      file is its own. */
  lemma RegionFileSpec(outputDir: string, p: Plane, m: int, cortical: Grid, subcortical: Grid, id: int, resize: Resize)
    ensures var fs := RegionFile(outputDir, p, m, cortical, subcortical, id, resize);
      && |fs| <= 1
      && (|fs| == 1 <==> AnyNonZero(RegionMask(SourceSlice(cortical, subcortical, id), id)))
      && forall f | f in fs :: f.regionId == id && IsMaskFileFor(f, outputDir, p, m, cortical, subcortical, resize)
  {
  }

  /** Every file of a slice is the file of some table entry. */
  lemma {:induction false} RegionFilesSound(outputDir: string, p: Plane, m: int, cortical: Grid, subcortical: Grid,
                                            regions: seq<(int, string)>, resize: Resize)
    ensures forall f | f in RegionFiles(outputDir, p, m, cortical, subcortical, regions, resize) ::
      f.regionId in OrderedDict.Keys(regions) && IsMaskFileFor(f, outputDir, p, m, cortical, subcortical, resize)
  {
    if regions != [] {
      var init := regions[..|regions| - 1];
      RegionFilesSound(outputDir, p, m, cortical, subcortical, init, resize);
      RegionFileSpec(outputDir, p, m, cortical, subcortical, regions[|regions| - 1].0, resize);
      assert OrderedDict.Keys(regions) == OrderedDict.Keys(init) + [regions[|regions| - 1].0];
    }
  }

  /** Every table entry whose mask has a set pixel gets a file. */
  lemma {:induction false} RegionFilesComplete(outputDir: string, p: Plane, m: int, cortical: Grid, subcortical: Grid,
                                               regions: seq<(int, string)>, resize: Resize, id: int)
    requires id in OrderedDict.Keys(regions)
    requires AnyNonZero(RegionMask(SourceSlice(cortical, subcortical, id), id))
    ensures exists f | f in RegionFiles(outputDir, p, m, cortical, subcortical, regions, resize) :: f.regionId == id
  {
    var init := regions[..|regions| - 1];
    var last := regions[|regions| - 1].0;
    assert OrderedDict.Keys(regions) == OrderedDict.Keys(init) + [last];
    if id == last {
      RegionFileSpec(outputDir, p, m, cortical, subcortical, last, resize);
      var one := RegionFile(outputDir, p, m, cortical, subcortical, last, resize);
      assert one[0] in RegionFiles(outputDir, p, m, cortical, subcortical, regions, resize);
    } else {
      RegionFilesComplete(outputDir, p, m, cortical, subcortical, init, resize, id);
    }
  }

  /** With distinct table ids no region gets two files for one slice. */
  lemma {:induction false} RegionFilesDistinct(outputDir: string, p: Plane, m: int, cortical: Grid, subcortical: Grid,
                                               regions: seq<(int, string)>, resize: Resize)
    requires OrderedDict.DistinctKeys(regions)
    ensures DistinctIds(RegionFiles(outputDir, p, m, cortical, subcortical, regions, resize))
  {
    if regions != [] {
      var init := regions[..|regions| - 1];
      var last := regions[|regions| - 1].0;
      assert OrderedDict.DistinctKeys(init);
      RegionFilesDistinct(outputDir, p, m, cortical, subcortical, init, resize);
      RegionFilesSound(outputDir, p, m, cortical, subcortical, init, resize);
      RegionFileSpec(outputDir, p, m, cortical, subcortical, last, resize);
      assert last !in OrderedDict.Keys(init) by {
        forall i | 0 <= i < |init| ensures OrderedDict.Keys(init)[i] != last {
          assert OrderedDict.Keys(init)[i] == regions[i].0;
        }
      }
      var rest := RegionFiles(outputDir, p, m, cortical, subcortical, init, resize);
      var one := RegionFile(outputDir, p, m, cortical, subcortical, last, resize);
      DisjointIdsAppend(rest, one, last);
    }
  }

  /** Files for pairwise different regions. */
  predicate DistinctIds(fs: seq<MaskFile>)
  {
    forall k, l | 0 <= k < l < |fs| :: fs[k].regionId != fs[l].regionId
  }

  /** Appending at most one file for an id none of the earlier files has
      keeps the ids distinct. */
  lemma DisjointIdsAppend(rest: seq<MaskFile>, one: seq<MaskFile>, id: int)
    requires DistinctIds(rest)
    requires |one| <= 1 && forall f | f in one :: f.regionId == id
    requires forall f | f in rest :: f.regionId != id
    ensures DistinctIds(rest + one)
  {
    var fs := rest + one;
    forall k, l | 0 <= k < l < |fs| ensures fs[k].regionId != fs[l].regionId {
      if l >= |rest| {
        assert fs[l] == one[0];
        assert fs[k] == rest[k];
        assert rest[k] in rest;
      }
    }
  }

  /** The uncaught `IndexError`: the index is inside the cortical atlas on
      the plane's axis but outside the subcortical one. */
  predicate CrashesAt(cort: array3<int>, sub: array3<int>, p: Plane, m: int)
    reads cort, sub
  {
    var v := AtlasVoxel(p, m);
    0 <= v < Extent(cort, Axis(p)) && v >= Extent(sub, Axis(p))
  }

  /** What one slice position produces: no file when the index is outside
      the cortical atlas on the plane's axis; a crash (`None`) when it is
      inside it but outside the subcortical atlas, whose indexing raises
      and is not caught; otherwise the region files of the two slices. */
  function SliceFiles(outputDir: string, cort: array3<int>, sub: array3<int>, p: Plane, m: int,
                      regions: seq<(int, string)>, resize: Resize): (r: Option<seq<MaskFile>>)
    reads cort, sub
    ensures r.None? <==> CrashesAt(cort, sub, p, m)
  {
    var v := AtlasVoxel(p, m);
    if v < 0 || v >= Extent(cort, Axis(p)) then Some([])
    else if v >= Extent(sub, Axis(p)) then None
    else Some(RegionFiles(outputDir, p, m, Slice(cort, p, v), Slice(sub, p, v), regions, resize))
  }

  /** A written file of plane `p`: its index is inside both atlases, its
      region is in the table, and it is that region's file for the two
      slices at its position. */
  predicate PlaneFile(f: MaskFile, outputDir: string, cort: array3<int>, sub: array3<int>, p: Plane,
                      regions: seq<(int, string)>, resize: Resize)
    reads cort, sub
  {
    var v := AtlasVoxel(p, f.mniPosition);
    && f.regionId in OrderedDict.Keys(regions)
    && 0 <= v < Extent(cort, Axis(p)) && v < Extent(sub, Axis(p))
    && IsMaskFileFor(f, outputDir, p, f.mniPosition, Slice(cort, p, v), Slice(sub, p, v), resize)
  }

  lemma SliceFilesSound(outputDir: string, cort: array3<int>, sub: array3<int>, p: Plane, m: int,
                        regions: seq<(int, string)>, resize: Resize)
    ensures SliceFiles(outputDir, cort, sub, p, m, regions, resize).Some? ==>
      forall f | f in SliceFiles(outputDir, cort, sub, p, m, regions, resize).value ::
        f.mniPosition == m && PlaneFile(f, outputDir, cort, sub, p, regions, resize)
  {
    var v := AtlasVoxel(p, m);
    if 0 <= v < Extent(cort, Axis(p)) && v < Extent(sub, Axis(p)) {
      RegionFilesSound(outputDir, p, m, Slice(cort, p, v), Slice(sub, p, v), regions, resize);
    }
  }

  /** The files `generate_masks_for_plane` writes for the positions `coords`
      in order, and whether it crashed. */
  function PlaneRun(outputDir: string, cort: array3<int>, sub: array3<int>, p: Plane, coords: seq<int>,
                    regions: seq<(int, string)>, resize: Resize): (seq<MaskFile>, bool)
    reads cort, sub
  {
    if coords == [] then ([], false)
    else
      var before := PlaneRun(outputDir, cort, sub, p, coords[..|coords| - 1], regions, resize);
      if before.1 then before
      else
        match SliceFiles(outputDir, cort, sub, p, coords[|coords| - 1], regions, resize)
        case None => (before.0, true)
        case Some(fs) => (before.0 + fs, false)
  }

  /** Files are written only for slices inside both atlases, each for a
      priority region whose mask at that slice is not empty, under that
      region's path. */
  lemma {:induction false} PlaneRunSound(outputDir: string, cort: array3<int>, sub: array3<int>, p: Plane,
                                         coords: seq<int>, regions: seq<(int, string)>, resize: Resize)
    ensures forall f | f in PlaneRun(outputDir, cort, sub, p, coords, regions, resize).0 ::
      f.mniPosition in coords && PlaneFile(f, outputDir, cort, sub, p, regions, resize)
  {
    if coords != [] {
      var init, m := coords[..|coords| - 1], coords[|coords| - 1];
      PlaneRunSound(outputDir, cort, sub, p, init, regions, resize);
      SliceFilesSound(outputDir, cort, sub, p, m, regions, resize);
      assert coords == init + [m];
    }
  }

  /** The run crashes exactly when some position of the range hits the
      subcortical atlas's missing index. */
  lemma {:induction false} PlaneRunCrashes(outputDir: string, cort: array3<int>, sub: array3<int>, p: Plane,
                                           coords: seq<int>, regions: seq<(int, string)>, resize: Resize)
    ensures PlaneRun(outputDir, cort, sub, p, coords, regions, resize).1 <==> exists m | m in coords :: CrashesAt(cort, sub, p, m)
  {
    if coords != [] {
      var init, m := coords[..|coords| - 1], coords[|coords| - 1];
      PlaneRunCrashes(outputDir, cort, sub, p, init, regions, resize);
      assert coords == init + [m];
    }
  }

  /** Without a crash, every table region with a set pixel at every position
      inside both atlases gets its file. */
  lemma {:induction false} PlaneRunComplete(outputDir: string, cort: array3<int>, sub: array3<int>, p: Plane,
                                            coords: seq<int>, regions: seq<(int, string)>, resize: Resize,
                                            m: int, id: int)
    requires !PlaneRun(outputDir, cort, sub, p, coords, regions, resize).1
    requires m in coords && id in OrderedDict.Keys(regions)
    requires 0 <= AtlasVoxel(p, m) < Extent(cort, Axis(p)) && AtlasVoxel(p, m) < Extent(sub, Axis(p))
    requires AnyNonZero(RegionMask(SourceSlice(Slice(cort, p, AtlasVoxel(p, m)), Slice(sub, p, AtlasVoxel(p, m)), id), id))
    ensures exists f | f in PlaneRun(outputDir, cort, sub, p, coords, regions, resize).0 :: f.mniPosition == m && f.regionId == id
  {
    var init, last := coords[..|coords| - 1], coords[|coords| - 1];
    assert coords == init + [last];
    if m in init {
      PlaneRunComplete(outputDir, cort, sub, p, init, regions, resize, m, id);
    } else {
      var v := AtlasVoxel(p, m);
      RegionFilesComplete(outputDir, p, m, Slice(cort, p, v), Slice(sub, p, v), regions, resize, id);
      SliceFilesSound(outputDir, cort, sub, p, m, regions, resize);
    }
  }

  /** `f` lies at the path of its own plane, region and position. */
  predicate AtOwnPath(f: MaskFile, outputDir: string, p: Plane)
  {
    f.path == MaskPath(outputDir, p, f.regionId, f.mniPosition)
  }

  /** Files whose paths are pairwise different. */
  predicate DistinctPaths(fs: seq<MaskFile>)
  {
    forall k, l | 0 <= k < l < |fs| :: fs[k].path != fs[l].path
  }

  lemma AppendDistinctPaths(a: seq<MaskFile>, b: seq<MaskFile>)
    requires DistinctPaths(a) && DistinctPaths(b)
    requires forall x, y | x in a && y in b :: x.path != y.path
    ensures DistinctPaths(a + b)
  {
    var c := a + b;
    forall k, l | 0 <= k < l < |c| ensures c[k].path != c[l].path {
      if k < |a| && l >= |a| {
        assert c[k] == a[k] && c[k] in a;
        assert c[l] == b[l - |a|] && c[l] in b;
      } else if k >= |a| {
        assert c[k] == b[k - |a|] && c[l] == b[l - |a|];
      } else {
        assert c[k] == a[k] && c[l] == a[l];
      }
    }
  }

  /** The files written for one slice pair lie at their own paths at that
      position, and with distinct table ids no two share a path. */
  lemma RegionFilesPaths(outputDir: string, p: Plane, m: int, cortical: Grid, subcortical: Grid,
                         regions: seq<(int, string)>, resize: Resize)
    requires OrderedDict.DistinctKeys(regions)
    ensures var fs := RegionFiles(outputDir, p, m, cortical, subcortical, regions, resize);
      DistinctPaths(fs) && forall f | f in fs :: f.mniPosition == m && AtOwnPath(f, outputDir, p)
  {
    var fs := RegionFiles(outputDir, p, m, cortical, subcortical, regions, resize);
    RegionFilesSound(outputDir, p, m, cortical, subcortical, regions, resize);
    RegionFilesDistinct(outputDir, p, m, cortical, subcortical, regions, resize);
    forall k, l | 0 <= k < l < |fs| ensures fs[k].path != fs[l].path {
      var x, y := fs[k], fs[l];
      assert x in fs && y in fs;
      assert x.regionId != y.regionId;
      if x.path == y.path {
        MaskPathInjective(outputDir, p, x.regionId, m, p, y.regionId, m);
      }
    }
  }

  /** The same for the files of one position of a plane run. */
  lemma SliceFilesPaths(outputDir: string, cort: array3<int>, sub: array3<int>, p: Plane, m: int,
                        regions: seq<(int, string)>, resize: Resize)
    requires OrderedDict.DistinctKeys(regions)
    requires SliceFiles(outputDir, cort, sub, p, m, regions, resize).Some?
    ensures var fs := SliceFiles(outputDir, cort, sub, p, m, regions, resize).value;
      DistinctPaths(fs) && forall f | f in fs :: f.mniPosition == m && AtOwnPath(f, outputDir, p)
  {
    var v := AtlasVoxel(p, m);
    if 0 <= v < Extent(cort, Axis(p)) && v < Extent(sub, Axis(p)) {
      RegionFilesPaths(outputDir, p, m, Slice(cort, p, v), Slice(sub, p, v), regions, resize);
    }
  }

  /** Every file of a run lies at its own path, at one of the run's positions. */
  lemma {:induction false} PlaneRunPaths(outputDir: string, cort: array3<int>, sub: array3<int>, p: Plane,
                                         coords: seq<int>, regions: seq<(int, string)>, resize: Resize)
    ensures forall f | f in PlaneRun(outputDir, cort, sub, p, coords, regions, resize).0 ::
      f.mniPosition in coords && AtOwnPath(f, outputDir, p)
  {
    PlaneRunSound(outputDir, cort, sub, p, coords, regions, resize);
  }

  /** With distinct positions and distinct table ids, no two files of a
      plane share a path: nothing is overwritten. */
  lemma {:induction false} PlaneRunPathsDistinct(outputDir: string, cort: array3<int>, sub: array3<int>, p: Plane,
                                                 coords: seq<int>, regions: seq<(int, string)>, resize: Resize)
    requires StrictlyIncreasing(coords) && OrderedDict.DistinctKeys(regions)
    ensures DistinctPaths(PlaneRun(outputDir, cort, sub, p, coords, regions, resize).0)
  {
    if coords != [] {
      var init, m := coords[..|coords| - 1], coords[|coords| - 1];
      var before := PlaneRun(outputDir, cort, sub, p, init, regions, resize).0;
      assert StrictlyIncreasing(init);
      PlaneRunPathsDistinct(outputDir, cort, sub, p, init, regions, resize);
      if !PlaneRun(outputDir, cort, sub, p, init, regions, resize).1 && SliceFiles(outputDir, cort, sub, p, m, regions, resize).Some? {
        var fs := SliceFiles(outputDir, cort, sub, p, m, regions, resize).value;
        PlaneRunPaths(outputDir, cort, sub, p, init, regions, resize);
        SliceFilesPaths(outputDir, cort, sub, p, m, regions, resize);
        forall x, y | x in before && y in fs ensures x.path != y.path {
          assert x.mniPosition != m;
          if x.path == y.path {
            MaskPathInjective(outputDir, p, x.regionId, x.mniPosition, p, y.regionId, y.mniPosition);
          }
        }
        AppendDistinctPaths(before, fs);
      }
    }
  }

  /** One more position: its files are appended, or the run crashes there. */
  lemma PlaneRunStep(outputDir: string, cort: array3<int>, sub: array3<int>, p: Plane,
                     coords: seq<int>, i: nat, regions: seq<(int, string)>, resize: Resize)
    requires i < |coords| && !PlaneRun(outputDir, cort, sub, p, coords[..i], regions, resize).1
    ensures var before := PlaneRun(outputDir, cort, sub, p, coords[..i], regions, resize).0;
      PlaneRun(outputDir, cort, sub, p, coords[..i + 1], regions, resize) ==
        match SliceFiles(outputDir, cort, sub, p, coords[i], regions, resize)
        case None => (before, true)
        case Some(fs) => (before + fs, false)
  {
    assert coords[..i + 1][..i] == coords[..i];
  }

  /** Once the run has crashed, later positions add nothing. */
  lemma {:induction false} PlaneRunCrashIsFinal(outputDir: string, cort: array3<int>, sub: array3<int>, p: Plane,
                                                coords: seq<int>, i: nat, regions: seq<(int, string)>, resize: Resize)
    requires i <= |coords|
    requires PlaneRun(outputDir, cort, sub, p, coords[..i], regions, resize).1
    ensures PlaneRun(outputDir, cort, sub, p, coords, regions, resize) == PlaneRun(outputDir, cort, sub, p, coords[..i], regions, resize)
  {
    if i < |coords| {
      assert coords[..|coords| - 1][..i] == coords[..i];
      PlaneRunCrashIsFinal(outputDir, cort, sub, p, coords[..|coords| - 1], i, regions, resize);
    } else {
      assert coords[..i] == coords;
    }
  }

  /** `generate_masks_for_plane(plane)`: every position of the plane's range,
      skipped when out of the cortical atlas, and every table entry with a
      non-empty mask written; stops at the first crash. */
  method GenerateMasksForPlane(outputDir: string, cort: array3<int>, sub: array3<int>, p: Plane,
                               regions: seq<(int, string)>, resize: Resize)
    returns (files: seq<MaskFile>, crashed: bool)
    ensures (files, crashed) == PlaneRun(outputDir, cort, sub, p, SliceCoordinates(p), regions, resize)
  {
    var mniCoords := SliceCoordinates(p);
    files := [];
    crashed := false;
    for i := 0 to |mniCoords|
      invariant (files, false) == PlaneRun(outputDir, cort, sub, p, mniCoords[..i], regions, resize)
    {
      files, crashed := GenerateMasksAtPosition(outputDir, cort, sub, p, mniCoords, i, regions, resize, files);
      if crashed {
        PlaneRunCrashIsFinal(outputDir, cort, sub, p, mniCoords, i + 1, regions, resize);
        return;
      }
    }
    assert mniCoords[..|mniCoords|] == mniCoords;
  }

  /** One iteration of the position loop: skip an out-of-range index, crash
      on the missing subcortical index, or write the slice's region files. */
  method GenerateMasksAtPosition(outputDir: string, cort: array3<int>, sub: array3<int>, p: Plane,
                                 mniCoords: seq<int>, i: nat, regions: seq<(int, string)>, resize: Resize,
                                 files: seq<MaskFile>)
    returns (files': seq<MaskFile>, crashed: bool)
    requires i < |mniCoords|
    requires (files, false) == PlaneRun(outputDir, cort, sub, p, mniCoords[..i], regions, resize)
    ensures (files', crashed) == PlaneRun(outputDir, cort, sub, p, mniCoords[..i + 1], regions, resize)
  {
    var mniCoord := mniCoords[i];
    PlaneRunStep(outputDir, cort, sub, p, mniCoords, i, regions, resize);
    var atlasVoxel := AtlasVoxel(p, mniCoord);
    if atlasVoxel < 0 || atlasVoxel >= Extent(cort, Axis(p)) {
      assert files + [] == files;
      return files, false;
    }
    if atlasVoxel >= Extent(sub, Axis(p)) {
      return files, true;
    }
    var corticalSlice := Slice(cort, p, atlasVoxel);
    var subcorticalSlice := Slice(sub, p, atlasVoxel);
    var written := GenerateMasksForSlice(outputDir, p, mniCoord, corticalSlice, subcorticalSlice, regions, resize);
    files', crashed := files + written, false;
  }

  /** The region loop of `generate_masks_for_plane` for one slice pair. */
  method GenerateMasksForSlice(outputDir: string, p: Plane, mniCoord: int, corticalSlice: Grid, subcorticalSlice: Grid,
                               regions: seq<(int, string)>, resize: Resize)
    returns (written: seq<MaskFile>)
    ensures written == RegionFiles(outputDir, p, mniCoord, corticalSlice, subcorticalSlice, regions, resize)
  {
    written := [];
    for j := 0 to |regions|
      invariant written == RegionFiles(outputDir, p, mniCoord, corticalSlice, subcorticalSlice, regions[..j], resize)
    {
      var regionId := regions[j].0;
      assert regions[..j + 1][..j] == regions[..j];
      var regionSlice := if regionId in [4, 5, 12, 13] then corticalSlice else subcorticalSlice;
      var mask := RegionMask(regionSlice, regionId);
      if !AnyNonZero(mask) {
        assert written + [] == written;
        continue;
      }
      var overlayImage := Overlay(mask, regionId, resize);
      var outputPath := MaskPath(outputDir, p, regionId, mniCoord);
      written := written + [MaskFile(outputPath, regionId, mniCoord, overlayImage)];
    }
    assert regions[..|regions|] == regions;
  }

  /** The files of the three planes in turn, stopping at a crash. */
  function AllRun(outputDir: string, cort: array3<int>, sub: array3<int>, n: nat,
                  regions: seq<(int, string)>, resize: Resize): (seq<MaskFile>, bool)
    requires n <= 3
    reads cort, sub
  {
    if n == 0 then ([], false)
    else
      var before := AllRun(outputDir, cort, sub, n - 1, regions, resize);
      if before.1 then before
      else
        var run := PlaneRun(outputDir, cort, sub, Planes[n - 1], SliceCoordinates(Planes[n - 1]), regions, resize);
        (before.0 + run.0, run.1)
  }

  /** Files at paths of the first `n` planes (in the order of `Planes`). */
  predicate OnFirstPlanes(fs: seq<MaskFile>, outputDir: string, n: nat)
    requires n <= 3
  {
    forall f | f in fs ::
      || (0 < n && AtOwnPath(f, outputDir, Sagittal))
      || (1 < n && AtOwnPath(f, outputDir, Coronal))
      || (2 < n && AtOwnPath(f, outputDir, Axial))
  }

  /** Files at the paths of two different planes never share a path. */
  lemma PlanesApart(outputDir: string, x: MaskFile, p: Plane, y: MaskFile, q: Plane)
    requires p != q && AtOwnPath(x, outputDir, p) && AtOwnPath(y, outputDir, q)
    ensures x.path != y.path
  {
    if x.path == y.path {
      MaskPathInjective(outputDir, p, x.regionId, x.mniPosition, q, y.regionId, y.mniPosition);
    }
  }

  /** Appending the files of the next plane keeps the paths apart, because
      the plane name is part of every path. */
  lemma AppendNextPlane(outputDir: string, n: nat, before: seq<MaskFile>, fs: seq<MaskFile>)
    requires 0 < n <= 3
    requires DistinctPaths(before) && OnFirstPlanes(before, outputDir, n - 1)
    requires DistinctPaths(fs) && forall f | f in fs :: AtOwnPath(f, outputDir, Planes[n - 1])
    ensures DistinctPaths(before + fs) && OnFirstPlanes(before + fs, outputDir, n)
  {
    PlanesApartAll(outputDir, n, before, fs);
    AppendDistinctPaths(before, fs);
    OnNextPlane(outputDir, n, before, fs);
  }

  lemma PlanesApartAll(outputDir: string, n: nat, before: seq<MaskFile>, fs: seq<MaskFile>)
    requires 0 < n <= 3
    requires OnFirstPlanes(before, outputDir, n - 1)
    requires forall f | f in fs :: AtOwnPath(f, outputDir, Planes[n - 1])
    ensures forall x, y | x in before && y in fs :: x.path != y.path
  {
    forall x, y | x in before && y in fs ensures x.path != y.path {
      var q := if AtOwnPath(x, outputDir, Sagittal) then Sagittal
               else if AtOwnPath(x, outputDir, Coronal) then Coronal else Axial;
      PlanesApart(outputDir, x, q, y, Planes[n - 1]);
    }
  }

  lemma OnNextPlane(outputDir: string, n: nat, before: seq<MaskFile>, fs: seq<MaskFile>)
    requires 0 < n <= 3
    requires OnFirstPlanes(before, outputDir, n - 1)
    requires forall f | f in fs :: AtOwnPath(f, outputDir, Planes[n - 1])
    ensures OnFirstPlanes(before + fs, outputDir, n)
  {
    forall f | f in before + fs
      ensures || (0 < n && AtOwnPath(f, outputDir, Sagittal))
              || (1 < n && AtOwnPath(f, outputDir, Coronal))
              || (2 < n && AtOwnPath(f, outputDir, Axial))
    {
      if f in fs {
        assert AtOwnPath(f, outputDir, Planes[n - 1]);
      }
    }
  }

  /** Across the three planes no two files share a path either: each file
      lies at its own plane's path. */
  lemma {:induction false} AllRunPathsDistinct(outputDir: string, cort: array3<int>, sub: array3<int>, n: nat,
                                               regions: seq<(int, string)>, resize: Resize)
    requires n <= 3 && OrderedDict.DistinctKeys(regions)
    ensures DistinctPaths(AllRun(outputDir, cort, sub, n, regions, resize).0)
    ensures OnFirstPlanes(AllRun(outputDir, cort, sub, n, regions, resize).0, outputDir, n)
  {
    if n > 0 {
      AllRunPathsDistinct(outputDir, cort, sub, n - 1, regions, resize);
      var before := AllRun(outputDir, cort, sub, n - 1, regions, resize);
      if !before.1 {
        var p := Planes[n - 1];
        var run := PlaneRun(outputDir, cort, sub, p, SliceCoordinates(p), regions, resize).0;
        SliceCoordinatesSpec(p);
        PlaneRunPathsDistinct(outputDir, cort, sub, p, SliceCoordinates(p), regions, resize);
        PlaneRunPaths(outputDir, cort, sub, p, SliceCoordinates(p), regions, resize);
        AppendNextPlane(outputDir, n, before.0, run);
      } else {
        assert OnFirstPlanes(before.0, outputDir, n);
      }
    }
  }

  /** `generate_all_masks` without its printing: the planes in order. */
  method GenerateAllMasks(outputDir: string, cort: array3<int>, sub: array3<int>,
                          regions: seq<(int, string)>, resize: Resize)
    returns (files: seq<MaskFile>, crashed: bool)
    ensures (files, crashed) == AllRun(outputDir, cort, sub, 3, regions, resize)
  {
    files, crashed := [], false;
    for k := 0 to 3
      invariant (files, crashed) == AllRun(outputDir, cort, sub, k, regions, resize)
    {
      if crashed {
        continue;
      }
      var planeFiles, planeCrashed := GenerateMasksForPlane(outputDir, cort, sub, Planes[k], regions, resize);
      files, crashed := files + planeFiles, planeCrashed;
    }
  }

  // ---- the mutable table and the test-region filter ----

  /** `PRIORITY_REGIONS`, the module-level dictionary `main` edits in place. */
  class PriorityTable {
    var entries: seq<(int, string)>

    constructor()
      ensures entries == PriorityRegions
    {
      entries := PriorityRegions;
    }

    /** `PRIORITY_REGIONS.clear()`. */
    method Clear()
      modifies this
      ensures entries == []
    {
      entries := [];
    }

    /** `PRIORITY_REGIONS[id] = name`. */
    method Put(id: int, name: string)
      modifies this
      ensures entries == OrderedDict.Put(old(entries), id, name)
    {
      entries := OrderedDict.Put(entries, id, name);
    }

    /** The `--test-region` handling of `main`: no filter for an absent or
        zero id (zero is false in Python); a listed id leaves the table with
        that single entry; an unlisted id stops the run (`false`) with the
        table untouched. */
    method ApplyTestRegion(testRegion: Option<int>) returns (proceed: bool)
      modifies this
      ensures (testRegion == None || testRegion == Some(0)) ==> proceed && entries == old(entries)
      ensures testRegion.Some? && testRegion.value != 0 ==>
        match OrderedDict.Get(old(entries), testRegion.value)
        case Some(name) => proceed && entries == [(testRegion.value, name)]
        case None => !proceed && entries == old(entries)
    {
      if testRegion.Some? && testRegion.value != 0 {
        var id := testRegion.value;
        match OrderedDict.Get(entries, id)
        case Some(testRegionName) =>
          Clear();
          Put(id, testRegionName);
          proceed := true;
        case None =>
          proceed := false;
      } else {
        proceed := true;
      }
    }
  }

  // ---- the summary ----

  /** The figures `print_summary` prints: the file count, the total size in
      megabytes and the average size in kilobytes, when there is one. */
  datatype Summary = Summary(totalFiles: nat, totalMegabytes: real, averageKilobytes: Option<real>)

  /** `print_summary` as written: the average divides by `total_files`
      unguarded, so with no files it raises `ZeroDivisionError` (`None`). */
  function SummaryAsWritten(totalFiles: nat, totalSize: nat): (r: Option<Summary>)
    ensures r.None? <==> totalFiles == 0
    ensures r.Some? ==> r.value.averageKilobytes.Some?
    ensures r.Some? ==> r.value.averageKilobytes.value * 1024.0 * totalFiles as real == totalSize as real
  {
    if totalFiles == 0 then None
    else Some(Summary(totalFiles, totalSize as real / 1048576.0, Some(totalSize as real / totalFiles as real / 1024.0)))
  }

  /** The summary with the average guarded by `total_files > 0`, as the
      rotated generator's summary does. */
  function MaskSummary(totalFiles: nat, totalSize: nat): (r: Summary)
    ensures r.totalFiles == totalFiles && r.totalMegabytes * 1048576.0 == totalSize as real
    ensures r.averageKilobytes.Some? <==> totalFiles > 0
    ensures r.averageKilobytes.Some? ==> r.averageKilobytes.value * 1024.0 * totalFiles as real == totalSize as real
  {
    Summary(totalFiles, totalSize as real / 1048576.0,
      if totalFiles > 0 then Some(totalSize as real / totalFiles as real / 1024.0) else None)
  }

  /** A run that writes no file crashes in the summary as written; the
      guarded summary reports no average instead. Whenever there are files
      the two agree. */
  lemma SummaryDivisionByZero(totalSize: nat)
    ensures SummaryAsWritten(0, totalSize) == None
    ensures MaskSummary(0, totalSize).averageKilobytes == None
    ensures forall n: nat | n > 0 :: SummaryAsWritten(n, totalSize) == Some(MaskSummary(n, totalSize))
  {
  }

  /** The summed sizes of the written files, given each file's size on disk. */
  function TotalSize(files: seq<MaskFile>, fileSize: MaskFile -> nat): nat
  {
    if files == [] then 0 else TotalSize(files[..|files| - 1], fileSize) + fileSize(files[|files| - 1])
  }

  /** `main` after argument parsing: the filter, then generation over the
      (possibly reduced) table, then the summary over the files written,
      which lie at distinct paths and so are counted once each. Nothing is
      written when the filter stops, and a crash ends the run before the
      summary. The summary is the corrected `MaskSummary`: for a run that
      writes no file the source's `print_summary` raises instead (see
      `SummaryAsWritten`). */
  method Run(table: PriorityTable, testRegion: Option<int>, outputDir: string,
             cort: array3<int>, sub: array3<int>, resize: Resize, fileSize: MaskFile -> nat)
    returns (files: seq<MaskFile>, crashed: bool, summary: Option<Summary>)
    modifies table
    ensures testRegion.Some? && testRegion.value != 0 && OrderedDict.Get(old(table.entries), testRegion.value).None? ==>
      files == [] && !crashed && summary == None && table.entries == old(table.entries)
    ensures testRegion.Some? && testRegion.value != 0 && OrderedDict.Get(old(table.entries), testRegion.value).Some? ==>
      table.entries == [(testRegion.value, OrderedDict.Get(old(table.entries), testRegion.value).value)] &&
      (files, crashed) == AllRun(outputDir, cort, sub, 3, table.entries, resize)
    ensures (testRegion == None || testRegion == Some(0)) ==>
      table.entries == old(table.entries) && (files, crashed) == AllRun(outputDir, cort, sub, 3, table.entries, resize)
    ensures !(testRegion.Some? && testRegion.value != 0 && OrderedDict.Get(old(table.entries), testRegion.value).None?) ==>
      summary == if crashed then None else Some(MaskSummary(|files|, TotalSize(files, fileSize)))
    ensures OrderedDict.DistinctKeys(old(table.entries)) ==> DistinctPaths(files)
  {
    var proceed := table.ApplyTestRegion(testRegion);
    if !proceed {
      return [], false, None;
    }
    files, crashed := GenerateAllMasks(outputDir, cort, sub, table.entries, resize);
    if OrderedDict.DistinctKeys(table.entries) {
      AllRunPathsDistinct(outputDir, cort, sub, 3, table.entries, resize);
    }
    summary := if crashed then None else Some(MaskSummary(|files|, TotalSize(files, fileSize)));
  }
}
