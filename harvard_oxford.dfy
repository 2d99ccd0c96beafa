/** The sparse region lookup table of the 2 mm Harvard-Oxford processor
    (data-preparation/harvard_oxford_atlas/harvard_oxford_2mm_processor.py):
    a 2 mm grid over MNI space, each grid point classified by the cortical
    and the subcortical max-probability atlases, and only the points that
    fall in some region stored, under the key "x,y,z". */
module HarvardOxford {
  import opened Wrappers
  import opened Volumes
  import opened Formatting
  import opened PyNum
  import opened HarvardOxfordLabels
  import opened MniGrid

  /** Added to subcortical labels so that their ids never meet cortical ones. */
  const SubcorticalOffset: int := 1000

  datatype Category = Cortical | Subcortical

  /** One entry of a lookup-table value. */
  datatype Region = Region(id: int, name: string, category: Category, probability: real)

  /** One entry of the region list written for the app. */
  datatype RegionInfo = RegionInfo(id: int, name: string, category: Category, description: string)

  /** `get_regions_at_coordinate`: the regions at an MNI point, given the
      MNI -> voxel conversion. Bounds are checked against the cortical
      array's shape only; reading the subcortical array outside its own
      shape raises, and every exception yields the empty list. */
  function RegionsAt(mni: Triple, cort: array3<int>, sub: array3<int>, toVoxel: VoxelMap): (r: seq<Region>)
    reads cort, sub
    ensures |r| <= 2
    ensures forall i | 0 <= i < |r| :: r[i].probability == 1.0
    ensures forall i | 0 <= i < |r| :: r[i].category == Cortical ==> i == 0
    ensures r != [] ==> toVoxel(mni).Some? && InBounds(cort, toVoxel(mni).value) && InBounds(sub, toVoxel(mni).value)
    ensures toVoxel(mni).Some? && InBounds(cort, toVoxel(mni).value) && InBounds(sub, toVoxel(mni).value) ==>
      var v := toVoxel(mni).value;
      var c, s := cort[v.0, v.1, v.2], sub[v.0, v.1, v.2];
      && |r| == (if IsCorticalLabel(c) then 1 else 0) + (if IsSubcorticalLabel(s) then 1 else 0)
      && (IsCorticalLabel(c) <==> |r| > 0 && r[0].category == Cortical)
      && (IsSubcorticalLabel(s) <==> |r| > 0 && r[|r| - 1].category == Subcortical)
      && (forall i | 0 <= i < |r| :: r[i].category == Cortical ==>
            IsCorticalLabel(c) && r[i] == Region(c, CorticalNames[c], Cortical, 1.0))
      && (forall i | 0 <= i < |r| :: r[i].category == Subcortical ==>
            IsSubcorticalLabel(s) && r[i] == Region(s + SubcorticalOffset, SubcorticalNames[s], Subcortical, 1.0))
  {
    match toVoxel(mni)
    case None => []
    case Some(v) =>
      if !InBounds(cort, v) then []
      else if !InBounds(sub, v) then []
      else
        var c, s := cort[v.0, v.1, v.2], sub[v.0, v.1, v.2];
        (if IsCorticalLabel(c) then [Region(c, CorticalNames[c], Cortical, 1.0)] else [])
        + (if IsSubcorticalLabel(s) then [Region(s + SubcorticalOffset, SubcorticalNames[s], Subcortical, 1.0)] else [])
  }

  /** Every entry has an id no other kind can have: cortical ids 1..48,
      subcortical ids 1001..1023. */
  lemma RegionIdsSeparated(mni: Triple, cort: array3<int>, sub: array3<int>, toVoxel: VoxelMap)
    ensures forall e | e in RegionsAt(mni, cort, sub, toVoxel) ::
      (e.category == Cortical ==> 1 <= e.id <= 48) && (e.category == Subcortical ==> 1001 <= e.id <= 1023)
  {
  }

  // ---- the lookup table ----

  /** The key `f"{x},{y},{z}"`. */
  function Key(p: Triple): string
  {
    Str(p.0) + "," + Str(p.1) + "," + Str(p.2)
  }

  lemma KeyShape(p: Triple)
    ensures Key(p) == Str(p.0) + [','] + (Str(p.1) + [','] + Str(p.2))
  {
  }

  /** Distinct grid points get distinct keys. */
  lemma KeyInjective(p: Triple, q: Triple)
    requires Key(p) == Key(q)
    ensures p == q
  {
    KeyShape(p);
    KeyShape(q);
    FormatIntHasNoSeparator(p.0, 0, false);
    FormatIntHasNoSeparator(q.0, 0, false);
    FormatIntHasNoSeparator(p.1, 0, false);
    FormatIntHasNoSeparator(q.1, 0, false);
    SplitThree(Str(p.0), Str(p.1), Str(p.2), Str(q.0), Str(q.1), Str(q.2), ',');
    FormatIntInjective(p.0, q.0, 0, false);
    FormatIntInjective(p.1, q.1, 0, false);
    FormatIntInjective(p.2, q.2, 0, false);
  }

  /** The table the loop of `build_region_lookup_table` leaves after visiting
      `points` in order: a point's key is stored only when its region list is
      non-empty. */
  function LookupTable(points: seq<Triple>, cort: array3<int>, sub: array3<int>, toVoxel: VoxelMap): map<string, seq<Region>>
    reads cort, sub
  {
    if points == [] then map[]
    else
      var p := points[|points| - 1];
      var t := LookupTable(points[..|points| - 1], cort, sub, toVoxel);
      var regions := RegionsAt(p, cort, sub, toVoxel);
      if regions != [] then t[Key(p) := regions] else t
  }

  /** The table has a key for a point iff that point was visited and its
      region list is non-empty, and the stored value is exactly that list. */
  lemma {:induction false} LookupTableEntries(points: seq<Triple>, cort: array3<int>, sub: array3<int>, toVoxel: VoxelMap)
    ensures forall p :: Key(p) in LookupTable(points, cort, sub, toVoxel) <==>
      p in points && RegionsAt(p, cort, sub, toVoxel) != []
    ensures forall p | Key(p) in LookupTable(points, cort, sub, toVoxel) ::
      LookupTable(points, cort, sub, toVoxel)[Key(p)] == RegionsAt(p, cort, sub, toVoxel)
  {
    if points != [] {
      var init, last := points[..|points| - 1], points[|points| - 1];
      LookupTableEntries(init, cort, sub, toVoxel);
      assert points == init + [last];
      forall p | Key(p) == Key(last) ensures p == last {
        KeyInjective(p, last);
      }
    }
  }

  /** Every key of the table is the key of a visited point. */
  lemma {:induction false} LookupTableKeys(points: seq<Triple>, cort: array3<int>, sub: array3<int>, toVoxel: VoxelMap)
    ensures forall k | k in LookupTable(points, cort, sub, toVoxel) :: exists p | p in points :: k == Key(p)
  {
    if points != [] {
      var init, last := points[..|points| - 1], points[|points| - 1];
      LookupTableKeys(init, cort, sub, toVoxel);
      assert points == init + [last];
    }
  }

  /** `build_region_lookup_table` once the atlases are loaded: visits the
      2 mm grid, stores each non-empty region list under its key, and counts
      the visited points. */
  method BuildRegionLookupTable(cort: array3<int>, sub: array3<int>, toVoxel: VoxelMap)
    returns (lookupTable: map<string, seq<Region>>, processed: nat)
    ensures processed == 902629
    ensures forall p :: Key(p) in lookupTable <==>
      p in Points(XRange(2), YRange(2), ZRange(2)) && RegionsAt(p, cort, sub, toVoxel) != []
    ensures forall p | Key(p) in lookupTable :: lookupTable[Key(p)] == RegionsAt(p, cort, sub, toVoxel)
    ensures forall k | k in lookupTable :: exists p | p in Points(XRange(2), YRange(2), ZRange(2)) :: k == Key(p)
  {
    var gridCoords := CreateCoordinateGrid(2);
    lookupTable, processed := ClassifyPoints(gridCoords, cort, sub, toVoxel);
    LookupTableSpec(gridCoords, cort, sub, toVoxel);
    GridSize();
  }

  /** The loop of `build_region_lookup_table` over the given points. */
  method ClassifyPoints(gridCoords: seq<Triple>, cort: array3<int>, sub: array3<int>, toVoxel: VoxelMap)
    returns (lookupTable: map<string, seq<Region>>, processed: nat)
    ensures lookupTable == LookupTable(gridCoords, cort, sub, toVoxel)
    ensures processed == |gridCoords|
  {
    lookupTable := map[];
    processed := 0;
    for i := 0 to |gridCoords|
      invariant lookupTable == LookupTable(gridCoords[..i], cort, sub, toVoxel)
      invariant processed == i
    {
      var mni := gridCoords[i];
      var regions := RegionsAt(mni, cort, sub, toVoxel);
      if regions != [] {
        lookupTable := lookupTable[Key(mni) := regions];
      }
      processed := processed + 1;
      assert gridCoords[..i + 1][..i] == gridCoords[..i];
    }
    assert gridCoords[..|gridCoords|] == gridCoords;
  }

  /** The three facts about a finished table, for the points visited. */
  lemma LookupTableSpec(points: seq<Triple>, cort: array3<int>, sub: array3<int>, toVoxel: VoxelMap)
    ensures forall p :: Key(p) in LookupTable(points, cort, sub, toVoxel) <==>
      p in points && RegionsAt(p, cort, sub, toVoxel) != []
    ensures forall p | Key(p) in LookupTable(points, cort, sub, toVoxel) ::
      LookupTable(points, cort, sub, toVoxel)[Key(p)] == RegionsAt(p, cort, sub, toVoxel)
    ensures forall k | k in LookupTable(points, cort, sub, toVoxel) :: exists p | p in points :: k == Key(p)
  {
    LookupTableEntries(points, cort, sub, toVoxel);
    LookupTableKeys(points, cort, sub, toVoxel);
  }

  lemma GridSize()
    ensures |Points(XRange(2), YRange(2), ZRange(2))| == 902629
  {
    GridAtTwoMillimetres();
  }

  // ---- the region list ----

  /** The list entry of cortical label `id`. */
  function CorticalInfo(id: int): RegionInfo
    requires IsCorticalLabel(id)
  {
    RegionInfo(id, CorticalNames[id], Cortical, "Cortical region: " + CorticalNames[id])
  }

  /** The list entry of subcortical label `s`, whose id is offset by 1000. */
  function SubcorticalInfo(s: int): RegionInfo
    requires IsSubcorticalLabel(s)
  {
    RegionInfo(s + SubcorticalOffset, SubcorticalNames[s], Subcortical, "Subcortical region: " + SubcorticalNames[s])
  }

  /** Entry `i` of the region list: the 48 cortical labels 1..48, then
      the 23 subcortical labels 1..23. */
  function RegionListEntry(i: nat): RegionInfo
    requires i < 71
  {
    LabelCounts();
    if i < 48 then CorticalInfo(i + 1) else SubcorticalInfo(i - 47)
  }

  /** `create_region_list`: every non-background label of both tables,
      cortical first, each with its category and description, ids ascending. */
  method CreateRegionList() returns (allRegions: seq<RegionInfo>)
    ensures |allRegions| == 71
    ensures forall i | 0 <= i < |allRegions| :: allRegions[i] == RegionListEntry(i)
    ensures forall i, j | 0 <= i < j < |allRegions| :: allRegions[i].id < allRegions[j].id
  {
    var cortical := CorticalRegionList();
    var subcortical := SubcorticalRegionList();
    allRegions := cortical + subcortical;
    forall i | 0 <= i < |allRegions| ensures allRegions[i] == RegionListEntry(i) && allRegions[i].id == RegionListId(i) {
      if i < 48 {
        assert allRegions[i] == cortical[i];
      } else {
        assert allRegions[i] == subcortical[i - 48];
      }
    }
  }

  /** The id of entry `i` of the region list. */
  function RegionListId(i: nat): int
  {
    if i < 48 then i + 1 else i - 47 + SubcorticalOffset
  }

  /** The cortical loop of `create_region_list`: labels 1..48, background skipped. */
  method CorticalRegionList() returns (regions: seq<RegionInfo>)
    ensures |regions| == 48
    ensures forall i | 0 <= i < 48 :: regions[i] == CorticalInfo(i + 1) && regions[i].id == i + 1
  {
    LabelCounts();
    regions := [];
    for regionId := 0 to |CorticalNames|
      invariant |regions| == if regionId == 0 then 0 else regionId - 1
      invariant forall i | 0 <= i < |regions| :: regions[i] == CorticalInfo(i + 1)
    {
      if regionId > 0 {
        regions := regions + [CorticalInfo(regionId)];
      }
    }
  }

  /** The subcortical loop of `create_region_list`: labels 1..23, background skipped. */
  method SubcorticalRegionList() returns (regions: seq<RegionInfo>)
    ensures |regions| == 23
    ensures forall i | 0 <= i < 23 :: regions[i] == SubcorticalInfo(i + 1) && regions[i].id == i + 1 + SubcorticalOffset
  {
    LabelCounts();
    regions := [];
    for regionId := 0 to |SubcorticalNames|
      invariant |regions| == if regionId == 0 then 0 else regionId - 1
      invariant forall i | 0 <= i < |regions| :: regions[i] == SubcorticalInfo(i + 1)
    {
      if regionId > 0 {
        regions := regions + [SubcorticalInfo(regionId)];
      }
    }
  }
}
