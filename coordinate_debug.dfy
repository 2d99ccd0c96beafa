/** The conversion and search logic of the coordinate debug script
    (data-preparation/region_mask_generation/comprehensive_coordinate_debug.py):
    the search of the slice catalogue for the slices through a test
    coordinate, three candidate MNI -> voxel formulas and their inverse,
    the label probe at a converted voxel, the voxel -> MNI conversion of a
    region's extent and centre, and the positive labels of an axial slice. */
module CoordinateDebug {
  import opened Wrappers
  import opened Volumes
  import opened PyNum
  import SliceCatalogue
  import RegionMasks

  // ---- the catalogue search ----

  /** The first record of `slices` at MNI position `pos`, if any. */
  function FirstAt(slices: seq<SliceCatalogue.SliceMapping>, pos: int): Option<SliceCatalogue.SliceMapping>
  {
    if slices == [] then None
    else if slices[0].mniPosition == pos then Some(slices[0])
    else FirstAt(slices[1..], pos)
  }

  /** `FirstAt` finds nothing exactly when no record is at `pos`; otherwise
      it finds a record at `pos` with no record at `pos` before it. */
  lemma {:induction false} FirstAtSpec(slices: seq<SliceCatalogue.SliceMapping>, pos: int)
    ensures FirstAt(slices, pos).None? <==> forall i | 0 <= i < |slices| :: slices[i].mniPosition != pos
    ensures FirstAt(slices, pos).Some? ==> exists i | 0 <= i < |slices| ::
      slices[i] == FirstAt(slices, pos).value && slices[i].mniPosition == pos &&
      forall j | 0 <= j < i :: slices[j].mniPosition != pos
  {
    if slices != [] && slices[0].mniPosition != pos {
      FirstAtSpec(slices[1..], pos);
      if FirstAt(slices, pos).Some? {
        var i :| 0 <= i < |slices[1..]| && slices[1..][i] == FirstAt(slices, pos).value && slices[1..][i].mniPosition == pos &&
          forall j | 0 <= j < i :: slices[1..][j].mniPosition != pos;
        assert slices[i + 1] == slices[1..][i];
        forall j | 0 <= j < i + 1 ensures slices[j].mniPosition != pos {
          if j > 0 {
            assert slices[j] == slices[1..][j - 1];
          }
        }
      }
    }
  }

  /** One search loop of `analyze_test_coordinate`: scan in order and stop
      at the first record whose position matches. */
  method FindByPosition(slices: seq<SliceCatalogue.SliceMapping>, pos: int) returns (found: Option<SliceCatalogue.SliceMapping>)
    ensures found == FirstAt(slices, pos)
  {
    found := None;
    var i := 0;
    while i < |slices|
      invariant 0 <= i <= |slices|
      invariant FirstAt(slices, pos) == FirstAt(slices[i..], pos)
    {
      if slices[i].mniPosition == pos {
        found := Some(slices[i]);
        break;
      }
      assert slices[i..][1..] == slices[i + 1..];
      i := i + 1;
    }
  }

  /** The three search results of `analyze_test_coordinate`, or `None` when
      the catalogue lacks one of the plane keys (a `KeyError`). */
  method AnalyzeTestCoordinate(mappings: map<string, seq<SliceCatalogue.SliceMapping>>, test: Triple)
    returns (r: Option<(Option<SliceCatalogue.SliceMapping>, Option<SliceCatalogue.SliceMapping>, Option<SliceCatalogue.SliceMapping>)>)
    ensures r.Some? <==> "sagittal" in mappings && "coronal" in mappings && "axial" in mappings
    ensures r.Some? ==> r.value.0 == FirstAt(mappings["sagittal"], test.0)
    ensures r.Some? ==> r.value.1 == FirstAt(mappings["coronal"], test.1)
    ensures r.Some? ==> r.value.2 == FirstAt(mappings["axial"], test.2)
  {
    var (x, y, z) := test;
    if "sagittal" !in mappings {
      return None;
    }
    var sagittalSlice := FindByPosition(mappings["sagittal"], x);
    if "coronal" !in mappings {
      return None;
    }
    var coronalSlice := FindByPosition(mappings["coronal"], y);
    if "axial" !in mappings {
      return None;
    }
    var axialSlice := FindByPosition(mappings["axial"], z);
    r := Some((sagittalSlice, coronalSlice, axialSlice));
  }

  // ---- the conversion formulas ----

  /** Method 1, the plain mask generator's formulas:
      `int((x + 90) / 2 + 0.5)`, `int((90 - y) / 2 + 18)`, `int((z + 72) / 2 + 0.5)`. */
  function Method1(c: Triple): Triple
  {
    (Trunc((c.0 + 90) as real / 2.0 + 0.5), Trunc((90 - c.1) as real / 2.0 + 18.0), Trunc((c.2 + 72) as real / 2.0 + 0.5))
  }

  /** Method 2: `int((x + 90) / 2)`, `int((126 - y) / 2)`, `int((z + 72) / 2)`. */
  function Method2(c: Triple): Triple
  {
    (Trunc((c.0 + 90) as real / 2.0), Trunc((126 - c.1) as real / 2.0), Trunc((c.2 + 72) as real / 2.0))
  }

  /** Method 3: `int(x / 2 + 45)`, `int(-y / 2 + 63)`, `int(z / 2 + 36)`. */
  function Method3(c: Triple): Triple
  {
    (Trunc(c.0 as real / 2.0 + 45.0), Trunc((-c.1) as real / 2.0 + 63.0), Trunc(c.2 as real / 2.0 + 36.0))
  }

  /** The voxel -> MNI map of the script: `2v - 90`, `126 - 2v`, `2v - 72`. */
  function VoxelToMni(v: Triple): Triple
  {
    (2 * v.0 - 90, 126 - 2 * v.1, 2 * v.2 - 72)
  }

  /** Method 1 is, axis by axis, the plain generator's `mni_to_atlas_voxel`. */
  lemma Method1IsMaskGeneratorConversion(c: Triple)
    ensures Method1(c) == (RegionMasks.AtlasVoxel(Sagittal, c.0), RegionMasks.AtlasVoxel(Coronal, c.1), RegionMasks.AtlasVoxel(Axial, c.2))
  {
  }

  /** Methods 2 and 3 are the same conversion written two ways, and both
      halve the shifted coordinate toward zero. */
  lemma Method2IsMethod3(c: Triple)
    ensures Method2(c) == Method3(c)
    ensures Method3(c) == (HalfTowardZero(c.0 + 90), HalfTowardZero(126 - c.1), HalfTowardZero(c.2 + 72))
  {
    assert c.0 as real / 2.0 + 45.0 == (c.0 + 90) as real / 2.0;
    assert (-c.1) as real / 2.0 + 63.0 == (126 - c.1) as real / 2.0;
    assert c.2 as real / 2.0 + 36.0 == (c.2 + 72) as real / 2.0;
    TruncHalf(c.0 + 90);
    TruncHalf(126 - c.1);
    TruncHalf(c.2 + 72);
  }

  /** Method 1 and Method 3 agree on y everywhere; on x they agree for even
      coordinates and Method 1 is one voxel higher for odd ones (it rounds
      the half-voxel up where Method 3 truncates), from x = -90 on. */
  lemma Method1AgainstMethod3(c: Triple)
    ensures Method1(c).1 == Method3(c).1
    ensures c.0 >= -90 && c.0 % 2 == 0 ==> Method1(c).0 == Method3(c).0
    ensures c.0 >= -90 && c.0 % 2 == 1 ==> Method1(c).0 == Method3(c).0 + 1
  {
    Method2IsMethod3(c);
    assert (90 - c.1) as real / 2.0 + 18.0 == (126 - c.1) as real / 2.0;
    if c.0 >= -90 {
      var k := c.0 + 90;
      HalfTowardZeroOfNonNegative(k);
      assert k as real / 2.0 + 0.5 == (k + 1) as real / 2.0;
      TruncHalf(k + 1);
      HalfTowardZeroOfNonNegative(k + 1);
    }
  }

  /** Voxel -> MNI -> voxel with Method 3 gives back every voxel. */
  lemma VoxelRoundTrip(v: Triple)
    ensures Method3(VoxelToMni(v)) == v
  {
    var c := VoxelToMni(v);
    assert c.0 as real / 2.0 + 45.0 == v.0 as real;
    assert (-c.1) as real / 2.0 + 63.0 == v.1 as real;
    assert c.2 as real / 2.0 + 36.0 == v.2 as real;
    TruncOfInt(v.0);
    TruncOfInt(v.1);
    TruncOfInt(v.2);
  }

  /** MNI -> voxel with Method 3 -> MNI gives back every coordinate on the
      2 mm lattice (all three components even). */
  lemma MniRoundTrip(c: Triple)
    requires c.0 % 2 == 0 && c.1 % 2 == 0 && c.2 % 2 == 0
    ensures VoxelToMni(Method3(c)) == c
  {
    var v := (c.0 / 2 + 45, 63 - c.1 / 2, c.2 / 2 + 36);
    assert VoxelToMni(v) == c;
    VoxelRoundTrip(v);
  }

  // ---- the label probe ----

  /** The outcome of reading both atlases at a converted voxel. */
  datatype Probe = OutOfBounds | Labels(cortical: int, subcortical: int) | IndexError

  /** The probe loop of `test_coordinate_transformations` for one method:
      labels are read only when every index is inside the cortical
      array's shape; the subcortical array is then indexed with the same
      voxel, which raises when it is smaller. */
  function ProbeLabels(cort: array3<int>, sub: array3<int>, v: Triple): (r: Probe)
    reads cort, sub
    ensures r.OutOfBounds? <==> !InBounds(cort, v)
    ensures r.Labels? <==> InBounds(cort, v) && InBounds(sub, v)
    ensures r.Labels? ==> r.cortical == cort[v.0, v.1, v.2] && r.subcortical == sub[v.0, v.1, v.2]
  {
    if !InBounds(cort, v) then OutOfBounds
    else if !InBounds(sub, v) then IndexError
    else Labels(cort[v.0, v.1, v.2], sub[v.0, v.1, v.2])
  }

  // ---- extents and centres ----

  function MinOf(s: seq<int>): (m: int)
    requires s != []
    ensures m in s && forall x | x in s :: m <= x
  {
    if |s| == 1 then s[0]
    else
      var rest := MinOf(s[1..]);
      assert forall x | x in s :: x == s[0] || x in s[1..];
      if s[0] <= rest then s[0] else rest
  }

  function MaxOf(s: seq<int>): (m: int)
    requires s != []
    ensures m in s && forall x | x in s :: x <= m
  {
    if |s| == 1 then s[0]
    else
      var rest := MaxOf(s[1..]);
      assert forall x | x in s :: x == s[0] || x in s[1..];
      if s[0] >= rest then s[0] else rest
  }

  function Sum(s: seq<int>): int
  {
    if s == [] then 0 else s[0] + Sum(s[1..])
  }

  /** A sum of values within [lo, hi] lies within [n * lo, n * hi]. */
  lemma {:induction false} SumBetween(s: seq<int>, lo: int, hi: int)
    requires forall x | x in s :: lo <= x <= hi
    ensures |s| * lo <= Sum(s) <= |s| * hi
  {
    if s != [] {
      var rest := s[1..];
      assert forall x | x in rest :: x in s;
      SumBetween(rest, lo, hi);
      assert s[0] in s;
      MulStep(|rest|, lo);
      MulStep(|rest|, hi);
    }
  }

  lemma MulStep(n: int, k: int)
    ensures (n + 1) * k == n * k + k
  {
  }

  /** `int(np.mean(s))`: the float mean truncated toward zero. */
  function TruncatedMean(s: seq<int>): int
    requires s != []
  {
    Trunc(Sum(s) as real / |s| as real)
  }

  lemma CastProduct(n: int, k: int)
    ensures (n * k) as real == k as real * n as real
  {
  }

  lemma QuotientBetween(a: real, n: real, lo: real, hi: real)
    requires n > 0.0 && lo * n <= a <= hi * n
    ensures lo <= a / n <= hi
  {
  }

  /** A truncated quotient of a sum lying within [n * lo, n * hi] lies within [lo, hi]. */
  lemma TruncatedQuotientBetween(sum: int, n: nat, lo: int, hi: int)
    requires n > 0 && n * lo <= sum <= n * hi
    ensures lo <= Trunc(sum as real / n as real) <= hi
  {
    var mean := sum as real / n as real;
    CastProduct(n, lo);
    CastProduct(n, hi);
    QuotientBetween(sum as real, n as real, lo as real, hi as real);
    TruncMonotone(lo as real, mean);
    TruncMonotone(mean, hi as real);
    TruncOfInt(lo);
    TruncOfInt(hi);
  }

  /** The truncated mean lies between the minimum and the maximum. */
  lemma TruncatedMeanBounds(s: seq<int>)
    requires s != []
    ensures MinOf(s) <= TruncatedMean(s) <= MaxOf(s)
  {
    SumBetween(s, MinOf(s), MaxOf(s));
    TruncatedQuotientBetween(Sum(s), |s|, MinOf(s), MaxOf(s));
  }

  /** One axis of a list of voxels. */
  function AxisColumn(voxels: seq<Triple>, axis: nat): (s: seq<int>)
    requires axis < 3
    ensures |s| == |voxels| && forall i | 0 <= i < |voxels| :: s[i] == Component(voxels[i], axis)
  {
    seq(|voxels|, i requires 0 <= i < |voxels| => Component(voxels[i], axis))
  }

  /** A closed interval (low, high). */
  type Interval = (int, int)

  /** The voxel -> MNI conversion of one axis applied to a voxel interval:
      x and z keep the order, y reverses it, so the converted y interval is
      `(126 - 2 * high, 126 - 2 * low)`. */
  function IntervalToMni(axis: nat, r: Interval): Interval
    requires axis < 3
  {
    if axis == 0 then (2 * r.0 - 90, 2 * r.1 - 90)
    else if axis == 1 then (126 - 2 * r.1, 126 - 2 * r.0)
    else (2 * r.0 - 72, 2 * r.1 - 72)
  }

  /** A well-ordered voxel interval converts to a well-ordered MNI interval,
      and each voxel of the interval converts to a point of it. */
  lemma IntervalToMniSpec(axis: nat, r: Interval, v: Triple)
    requires axis < 3 && r.0 <= r.1
    ensures IntervalToMni(axis, r).0 <= IntervalToMni(axis, r).1
    ensures r.0 <= Component(v, axis) <= r.1 ==>
      IntervalToMni(axis, r).0 <= Component(VoxelToMni(v), axis) <= IntervalToMni(axis, r).1
  {
  }

  /** What `analyze_middle_frontal_gyrus_location` reports for the voxels of
      a region: per-axis voxel extents, their MNI extents, the centre voxel
      (truncated means) and its MNI coordinate. */
  datatype Extent3 = Extent3(voxelRanges: seq<Interval>, mniRanges: seq<Interval>, centerVoxel: Triple, centerMni: Triple)

  /** The report, or `None` when the region has no voxel. */
  function AnalyzeRegionLocation(voxels: seq<Triple>): (r: Option<Extent3>)
    ensures r.None? <==> voxels == []
    ensures r.Some? ==> |r.value.voxelRanges| == 3 && |r.value.mniRanges| == 3
    ensures r.Some? ==> forall axis | 0 <= axis < 3 :: r.value.mniRanges[axis] == IntervalToMni(axis, r.value.voxelRanges[axis])
    ensures r.Some? ==> r.value.centerMni == VoxelToMni(r.value.centerVoxel)
  {
    if voxels == [] then None
    else
      var ranges := seq(3, axis requires 0 <= axis < 3 => (MinOf(AxisColumn(voxels, axis)), MaxOf(AxisColumn(voxels, axis))));
      var center := (TruncatedMean(AxisColumn(voxels, 0)), TruncatedMean(AxisColumn(voxels, 1)), TruncatedMean(AxisColumn(voxels, 2)));
      Some(Extent3(ranges, seq(3, axis requires 0 <= axis < 3 => IntervalToMni(axis, ranges[axis])), center, VoxelToMni(center)))
  }

  /** Each voxel range runs from the least to the greatest component of
      some region voxel; every region voxel lies inside the voxel ranges and
      converts into the MNI ranges; the centre is the truncated mean and lies
      inside the ranges too, in voxels and in MNI. */
  lemma AnalyzeRegionLocationSpec(voxels: seq<Triple>, axis: nat)
    requires voxels != [] && axis < 3
    ensures var e := AnalyzeRegionLocation(voxels).value;
      && (exists v | v in voxels :: Component(v, axis) == e.voxelRanges[axis].0)
      && (exists v | v in voxels :: Component(v, axis) == e.voxelRanges[axis].1)
      && Component(e.centerVoxel, axis) == TruncatedMean(AxisColumn(voxels, axis))
      && e.voxelRanges[axis].0 <= Component(e.centerVoxel, axis) <= e.voxelRanges[axis].1
      && e.mniRanges[axis].0 <= Component(e.centerMni, axis) <= e.mniRanges[axis].1
      && forall v | v in voxels ::
           e.voxelRanges[axis].0 <= Component(v, axis) <= e.voxelRanges[axis].1 &&
           e.mniRanges[axis].0 <= Component(VoxelToMni(v), axis) <= e.mniRanges[axis].1
  {
    var e := AnalyzeRegionLocation(voxels).value;
    var col := AxisColumn(voxels, axis);
    TruncatedMeanBounds(col);
    assert e.voxelRanges[axis] == (MinOf(col), MaxOf(col));
    assert Component(e.centerVoxel, axis) == TruncatedMean(col);
    IntervalToMniSpec(axis, e.voxelRanges[axis], e.centerVoxel);
    var lo :| 0 <= lo < |col| && col[lo] == MinOf(col);
    var hi :| 0 <= hi < |col| && col[hi] == MaxOf(col);
    assert voxels[lo] in voxels && voxels[hi] in voxels;
    forall v | v in voxels
      ensures e.voxelRanges[axis].0 <= Component(v, axis) <= e.voxelRanges[axis].1
      ensures e.mniRanges[axis].0 <= Component(VoxelToMni(v), axis) <= e.mniRanges[axis].1
    {
      var i :| 0 <= i < |voxels| && voxels[i] == v;
      assert col[i] == Component(v, axis) && col[i] in col;
      IntervalToMniSpec(axis, e.voxelRanges[axis], v);
    }
  }

  // ---- the labels of an axial slice ----

  /** All cells of a grid, row by row. */
  function Flatten(rows: seq<seq<int>>): seq<int>
  {
    if rows == [] then [] else Flatten(rows[..|rows| - 1]) + rows[|rows| - 1]
  }

  lemma {:induction false} FlattenMembers(rows: seq<seq<int>>)
    ensures forall x :: x in Flatten(rows) <==> exists r, c | 0 <= r < |rows| && 0 <= c < |rows[r]| :: rows[r][c] == x
  {
    if rows != [] {
      var init := rows[..|rows| - 1];
      FlattenMembers(init);
      forall x ensures x in Flatten(rows) <==> exists r, c | 0 <= r < |rows| && 0 <= c < |rows[r]| :: rows[r][c] == x {
        if x in rows[|rows| - 1] {
          var c :| 0 <= c < |rows[|rows| - 1]| && rows[|rows| - 1][c] == x;
          assert rows[|rows| - 1][c] == x;
        }
        if exists r, c | 0 <= r < |rows| && 0 <= c < |rows[r]| :: rows[r][c] == x {
          var r, c :| 0 <= r < |rows| && 0 <= c < |rows[r]| && rows[r][c] == x;
          if r < |init| {
            assert init[r][c] == x;
          } else {
            assert x in rows[|rows| - 1];
          }
        }
      }
    }
  }

  /** `a[a > 0]`: the positive elements, in order. */
  function Positives(s: seq<int>): (r: seq<int>)
    ensures forall x :: x in r <==> x in s && x > 0
  {
    if s == [] then []
    else
      assert s == [s[0]] + s[1..];
      (if s[0] > 0 then [s[0]] else []) + Positives(s[1..])
  }

  /** Keeping part of an ascending list keeps it ascending. */
  lemma {:induction false} PositivesAscending(s: seq<int>)
    requires StrictlyIncreasing(s)
    ensures StrictlyIncreasing(Positives(s))
  {
    if s != [] {
      assert StrictlyIncreasing(s[1..]);
      PositivesAscending(s[1..]);
      var r := Positives(s);
      if s[0] > 0 {
        forall j | 0 < j < |r| ensures r[0] < r[j] {
          assert r[j] in Positives(s[1..]);
          assert r[j] in s[1..];
        }
      }
    }
  }

  /** `np.unique(g)` without the background: the labels greater than 0
      that occur in the slice, ascending, each once. */
  function PositiveLabels(g: Grid): seq<int>
  {
    Positives(SliceCatalogue.SortedUnique(Flatten(g.cells)))
  }

  /** The list is ascending and holds exactly the positive labels present;
      a positive label is listed iff its equality mask is non-empty, so
      "13 in unique_regions" tells whether a region-13 mask would be written. */
  lemma PositiveLabelsSpec(g: Grid, id: int)
    ensures StrictlyIncreasing(PositiveLabels(g))
    ensures forall x :: x in PositiveLabels(g) <==> x > 0 && exists r, c | 0 <= r < g.rows && 0 <= c < g.cols :: g.cells[r][c] == x
    ensures id > 0 ==> (id in PositiveLabels(g) <==> AnyNonZero(RegionMasks.RegionMask(g, id)))
  {
    PositivesAscending(SliceCatalogue.SortedUnique(Flatten(g.cells)));
    FlattenMembers(g.cells);
    RegionMasks.RegionMaskSpec(g, id);
  }

  /** `check_atlas_slice_extraction` up to the labels it prints: Method 3's
      voxel, checked against the cortical shape, then the positive labels of
      the axial slice at its z index; `None` for the out-of-bounds error. */
  function AxialLabelsAt(cort: array3<int>, test: Triple): (r: Option<seq<int>>)
    reads cort
    ensures r.Some? <==> InBounds(cort, Method3(test))
    ensures r.Some? ==> StrictlyIncreasing(r.value)
    ensures r.Some? ==> forall x :: x in r.value <==>
      x > 0 && exists i, j | 0 <= i < cort.Length0 && 0 <= j < cort.Length1 :: cort[i, j, Method3(test).2] == x
  {
    var v := Method3(test);
    if InBounds(cort, v) then
      var g := Slice(cort, Axial, v.2);
      PositiveLabelsSpec(g, 0);
      assert forall i, j | 0 <= i < g.rows && 0 <= j < g.cols :: g.cells[i][j] == cort[i, j, v.2] by {
        forall i, j | 0 <= i < g.rows && 0 <= j < g.cols ensures g.cells[i][j] == cort[i, j, v.2] {
          SliceAt(cort, Axial, v.2, i, j);
        }
      }
      Some(PositiveLabels(g))
    else None
  }
}
