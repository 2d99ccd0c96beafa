# NeuroAtlas data preparation, modelled in Dafny

This project models the integer core of the NeuroAtlas offline
data-preparation pipeline and proves properties of it. It covers four parts:

- **The 2 mm Harvard-Oxford lookup table.** A 2 mm grid over MNI space is
  classified by the cortical and subcortical max-probability atlases. Each
  grid point that falls in some region is stored under the key `"x,y,z"`. A
  flat list of all regions is built for the app.
- **The slice catalogue of the template extractor.**
  - the per-plane slice positions: rounded, de-duplicated and sorted;
  - the plane to fixed-axis dispatch of slice extraction;
  - the `plane_{pos:+03d}.png` filename;
  - the per-slice coordinate-mapping record;
  - the plane loop that gathers the records, skipping slices that raise.
- **The two region-mask generators.** For each plane and MNI position, a
  plain and a rotating generator convert the position to an atlas index and
  cut a slice from both atlases. For every priority region present in that
  slice they write a coloured, half-transparent overlay under a path naming
  the plane, the region and the position. This part also covers the priority
  table, with Python's duplicate-key semantics, and the `--test-region`
  filter.
- **The coordinate-debug script.** It contains the first-match search of the
  catalogue, three MNI-to-voxel formulas and their inverse, and the label
  probe. It also covers the voxel-to-MNI conversion of a region's extent and
  centre, and the positive labels of an axial slice.

Python semantics are modelled explicitly:

- `int()` of a float truncates toward zero (`PyNum.Trunc`). Floats are exact
  reals, which is exact for the small half-integers involved.
- `range` is half-open (`PyNum.Range`).
- The `str`, `+03d` and `02d` formats are modelled in `Formatting`.
- A dict literal keeps a repeated key's first position and takes its last
  value (`OrderedDict.FromPairs`).
- numpy uses `rot90` for quarter turns and wraps negative indices
  (`Volumes.NpIndex`).

Atlas volumes are `array3<int>` and are never written. Slices and masks are
values (`Volumes.Grid`), because every numpy operation used on them builds a
new array. The one dictionary the source edits in place, `PRIORITY_REGIONS`,
is the class `RegionMasks.PriorityTable`. So is the field the extractor
reassigns, as `SliceCatalogue.BrainSliceExtractor`. Loops in the source are
methods with loop invariants, each proved equal to a specification function.
Lemmas about those functions state the properties.

The following inputs are abstract parameters:

- the MNI-to-voxel affine conversion (`Volumes.VoxelMap`, `None` where it
  raises);
- the rounded voxel-to-MNI positions (`SliceCatalogue.RoundedMni`);
- PIL's nearest-neighbour resize (`RegionMasks.Resize`, which fixes only the
  output size);
- the size of each written file (`fileSize`);
- the answer to the "Continue?" prompt (`confirm`).

Files written are returned as lists of (path, image) records.

The code is followed where its comments say otherwise. The plain generator's
coronal formula `int((90 - m) / 2 + 18)` yields indices 126 down to 17 over
its position range. Its comment claims a mapping onto 0..108.
`RegionMasks.AtlasVoxelOnSliceRange` states the range the code actually
produces.

## Model

| member | source | states |
|---|---|---|
| `Volumes.Slice` | data-preparation/region_mask_generation/region_mask_generator.py:68-77 | A plane slice has the two remaining extents of the volume as its dimensions. |
| `Volumes.SliceAt` | data-preparation/region_mask_generation/region_mask_generator.py:70-75 | The cell (r, c) of `data[i,:,:]`, `data[:,i,:]` or `data[:,:,i]` is the voxel with index i on the fixed axis. |
| `Volumes.ZeroGrid` | data-preparation/region_mask_generation/rotated_mask_generator.py:89 | `np.zeros((rows, cols))` has the given dimensions and only zeros. |
| `Volumes.Rot90At` | data-preparation/region_mask_generation/rotated_mask_generator.py:114 | One counter-clockwise quarter turn maps cell (j, cols-1-i) to (i, j). It also swaps the dimensions. |
| `Volumes.HalfTurn` | data-preparation/region_mask_generation/rotated_mask_generator.py:116 | Two quarter turns reverse both axes and keep the dimensions. |
| `Volumes.FourTurnsIdentity` | data-preparation/region_mask_generation/rotated_mask_generator.py:113-118 | Four quarter turns give back the input exactly. |
| `Volumes.TurnsDimensions` | data-preparation/region_mask_generation/rotated_mask_generator.py:113-118 | An odd number of turns swaps the dimensions. An even number keeps them. |
| `Volumes.Rot90KeepsAny` | data-preparation/region_mask_generation/rotated_mask_generator.py:182-183 | A turned grid has a non-zero cell iff the original has one. |
| `Volumes.NpIndex` | data-preparation/extract_slices_full.py:124-145 | numpy's single-index rule: [0, n) as is, [-n, 0) counted from the end, an error otherwise (both directions). |
| `PyNum.Trunc` | data-preparation/region_mask_generation/region_mask_generator.py:212-218 | `int()` of a float truncates toward zero: within one below a non-negative argument, within one above a negative one. |
| `PyNum.TruncHalf` | data-preparation/region_mask_generation/rotated_mask_generator.py:95-101 | `int(n / 2)` is integer halving toward zero, not Dafny's floor. |
| `PyNum.TruncMonotone` | data-preparation/region_mask_generation/region_mask_generator.py:212-218 | Truncation is monotone. |
| `PyNum.HalfTowardZeroMonotone` | data-preparation/region_mask_generation/rotated_mask_generator.py:95-101 | Halving toward zero is monotone. |
| `PyNum.HalfTowardZeroOfNonNegative` | data-preparation/region_mask_generation/comprehensive_coordinate_debug.py:128-130 | On non-negative arguments, halving toward zero is the floor. |
| `PyNum.RangeOne` | data-preparation/region_mask_generation/region_mask_generator.py:154-159 | `range(lo, hi)` lists each integer of [lo, hi) once, ascending, and nothing else. |
| `PyNum.RangeTwo` | data-preparation/harvard_oxford_atlas/harvard_oxford_2mm_processor.py:176-178 | `range(lo, hi, 2)` has ceil((hi-lo)/2) elements, is strictly ascending, and holds exactly the values of [lo, hi) with lo's parity. |
| `Formatting.FormatIntRoundTrip` | data-preparation/extract_slices_full.py:176 | Reading back a formatted integer gives the integer, for every width and sign flag. |
| `Formatting.PaddedDigitsValue` | data-preparation/extract_slices_full.py:176 | A formatted integer is its sign followed by a digit string whose value is the magnitude. |
| `Formatting.FormatIntInjective` | data-preparation/harvard_oxford_atlas/harvard_oxford_2mm_processor.py:212 | Different integers format differently under the same spec. |
| `Formatting.FormatIntShape` | data-preparation/extract_slices_full.py:176 | The formatted text has at least `width` characters. It has a leading sign iff the value is negative or '+' is asked for, with '-' exactly for negatives. The rest are digits. |
| `Formatting.FormatIntHasNoSeparator` | data-preparation/harvard_oxford_atlas/harvard_oxford_2mm_processor.py:212 | A formatted integer contains no ',' and no '/'. |
| `Formatting.SignedPadded3Examples` | data-preparation/extract_slices_full.py:176 | `+03d` gives 0 as "+00", -5 as "-05" and 30 as "+30", and keeps -126 as "-126" and 108 as "+108". |
| `Formatting.SplitThree` | data-preparation/harvard_oxford_atlas/harvard_oxford_2mm_processor.py:212 | Three fields joined by a separator absent from the first two split back uniquely. |
| `Formatting.Capitalize` | data-preparation/extract_slices_full.py:198 | `capitalize()` upper-cases the first character and lower-cases the rest, keeping the length. |
| `OrderedDict.Get` | data-preparation/region_mask_generation/region_mask_generator.py:113 | `d.get(k)` finds a value iff k is a key, and the value found is stored under k. |
| `OrderedDict.PutNewAppends` | data-preparation/region_mask_generation/region_mask_generator.py:281 | Assigning to a new key appends the entry at the end. |
| `OrderedDict.PutGet` | data-preparation/region_mask_generation/region_mask_generator.py:281 | After `d[k] = v`, k maps to v and every other key keeps its value. |
| `OrderedDict.PutKeys` | data-preparation/region_mask_generation/region_mask_generator.py:281 | `d[k] = v` keeps the key order, adding k at the end only if it is new. |
| `OrderedDict.PutDistinct` | data-preparation/region_mask_generation/region_mask_generator.py:281 | Assignment keeps the keys distinct. |
| `OrderedDict.FromPairsSpec` | data-preparation/region_mask_generation/region_mask_generator.py:16-44 | A dict literal has distinct keys in order of first occurrence, each mapped to its last value. |
| `OrderedDict.FromPairsKeys` | data-preparation/region_mask_generation/region_mask_generator.py:16-32 | The keys of a dict literal are distinct and ordered by first occurrence. |
| `OrderedDict.FromPairsValues` | data-preparation/region_mask_generation/region_mask_generator.py:33-44 | Each key of a dict literal maps to the value written last for it. |
| `OrderedDict.FirstOccurrencesMembers` | data-preparation/region_mask_generation/region_mask_generator.py:16-32 | The first-occurrence list holds exactly the keys of the literal. |
| `HarvardOxfordLabels.LabelCounts` | data-preparation/harvard_oxford_atlas/harvard_oxford_2mm_processor.py:12-89 | The cortical table has labels 0..48 and the subcortical table 0..23. |
| `MniGrid.CreateCoordinateGrid` | data-preparation/harvard_oxford_atlas/harvard_oxford_2mm_processor.py:173-187 | The nested loops produce the x-major, then y, then z product of the three axis ranges. |
| `MniGrid.AppendLayer` | data-preparation/harvard_oxford_atlas/harvard_oxford_2mm_processor.py:182-184 | The y and z loops for one x append that x's layer of points. |
| `MniGrid.AppendColumn` | data-preparation/harvard_oxford_atlas/harvard_oxford_2mm_processor.py:183-184 | The z loop for one (x, y) appends that column of points. |
| `MniGrid.PointsLength` | data-preparation/harvard_oxford_atlas/harvard_oxford_2mm_processor.py:180-184 | The grid has |xs| * |ys| * |zs| points. |
| `MniGrid.PointsMembers` | data-preparation/harvard_oxford_atlas/harvard_oxford_2mm_processor.py:180-184 | A triple is in the grid iff each coordinate is in its axis list. |
| `MniGrid.PointsSorted` | data-preparation/harvard_oxford_atlas/harvard_oxford_2mm_processor.py:180-184 | With ascending axis lists the grid is strictly ascending in lexicographic order. |
| `MniGrid.AxesAtTwoMillimetres` | data-preparation/harvard_oxford_atlas/harvard_oxford_2mm_processor.py:176-178 | At 2 mm the axis lists have 91, 109 and 91 values. They are ascending and hold exactly the even values of [-90, 90], [-126, 90] and [-72, 108]. |
| `MniGrid.GridAtTwoMillimetres` | data-preparation/harvard_oxford_atlas/harvard_oxford_2mm_processor.py:173-187 | The 2 mm grid holds every even (x, y, z) of the MNI box exactly once, in lexicographic order: 902,629 points. |
| `HarvardOxford.RegionsAt` | data-preparation/harvard_oxford_atlas/harvard_oxford_2mm_processor.py:133-171 | At most two entries, each with probability 1.0. Any entry needs a converted voxel inside both arrays. Inside them there is one entry per label that passes its table check, no more. The cortical entry comes first, present iff the label is a non-background table key. The subcortical entry has id label+1000, present iff its label is a table key. Each entry's name comes from its table. |
| `HarvardOxford.RegionIdsSeparated` | data-preparation/harvard_oxford_atlas/harvard_oxford_2mm_processor.py:149-165 | Cortical ids lie in 1..48 and subcortical ids in 1001..1023, so they never clash. |
| `HarvardOxford.KeyInjective` | data-preparation/harvard_oxford_atlas/harvard_oxford_2mm_processor.py:212 | Distinct points get distinct `"x,y,z"` keys. |
| `HarvardOxford.LookupTableEntries` | data-preparation/harvard_oxford_atlas/harvard_oxford_2mm_processor.py:208-213 | A point's key is in the table iff the point was visited and its region list is non-empty. The stored value is exactly that list. |
| `HarvardOxford.LookupTableKeys` | data-preparation/harvard_oxford_atlas/harvard_oxford_2mm_processor.py:208-213 | Every key of the table is the key of a visited point. |
| `HarvardOxford.LookupTableSpec` | data-preparation/harvard_oxford_atlas/harvard_oxford_2mm_processor.py:208-213 | The three table facts together, for any list of visited points. |
| `HarvardOxford.ClassifyPoints` | data-preparation/harvard_oxford_atlas/harvard_oxford_2mm_processor.py:205-215 | The loop builds the table of the visited points and counts every point visited. |
| `HarvardOxford.GridSize` | data-preparation/harvard_oxford_atlas/harvard_oxford_2mm_processor.py:202 | The 2 mm grid has 902,629 points. |
| `HarvardOxford.BuildRegionLookupTable` | data-preparation/harvard_oxford_atlas/harvard_oxford_2mm_processor.py:199-215 | It processes 902,629 points. Keys are exactly those of grid points with non-empty region lists, each stored with its list, and no other key appears. |
| `HarvardOxford.CorticalRegionList` | data-preparation/harvard_oxford_atlas/harvard_oxford_2mm_processor.py:238-246 | The cortical loop yields labels 1..48 in order, with names and "Cortical region: " descriptions, skipping the background. |
| `HarvardOxford.SubcorticalRegionList` | data-preparation/harvard_oxford_atlas/harvard_oxford_2mm_processor.py:248-256 | The subcortical loop yields labels 1..23 in order with ids 1001..1023 and "Subcortical region: " descriptions. |
| `HarvardOxford.CreateRegionList` | data-preparation/harvard_oxford_atlas/harvard_oxford_2mm_processor.py:234-256 | The list has 71 entries: the 48 cortical ones, then the 23 subcortical ones. Ids strictly ascend, so they are unique. |
| `SliceCatalogue.InsertSorted` | data-preparation/extract_slices_full.py:87-89 | Insertion into an ascending list keeps it ascending and adds exactly the new value. |
| `SliceCatalogue.SortedUnique` | data-preparation/extract_slices_full.py:87-89 | `sorted(list(set(v)))` is strictly ascending and has the same elements as v. |
| `SliceCatalogue.TailMembers` | data-preparation/extract_slices_full.py:87-89 | The tail of an ascending list is ascending and holds every element except the head. |
| `SliceCatalogue.AscendingListDeterminedBySet` | data-preparation/extract_slices_full.py:87-89 | Two strictly ascending lists with the same elements are equal, so `sorted(set(.))` has a unique result. |
| `SliceCatalogue.OnAxis` | data-preparation/extract_slices_full.py:75-83 | `[i,0,0]`, `[0,i,0]` and `[0,0,i]` carry i on the loop's axis. |
| `SliceCatalogue.AxisValues` | data-preparation/extract_slices_full.py:74-84 | Position i of an axis list is the rounded MNI coordinate, on that axis, of voxel index i along it. |
| `SliceCatalogue.AxisPositions` | data-preparation/extract_slices_full.py:74-84 | Each position loop collects the rounded on-axis coordinate of every index, in index order. |
| `SliceCatalogue.DeterminedPositionsSpec` | data-preparation/extract_slices_full.py:74-95 | Each plane's list is strictly ascending. It holds exactly the rounded coordinates of the indices along the plane's own axis: x for sagittal, y for coronal, z for axial. |
| `SliceCatalogue.SamplePositionsShape` | data-preparation/extract_slices_full.py:19-23 | Sampling mode has five ascending positions per plane. |
| `SliceCatalogue.ExtractSlice` | data-preparation/extract_slices_full.py:117-148 | A slice comes out iff the conversion succeeds and the fixed-axis index is a valid numpy index. The returned voxel is the converted point. |
| `SliceCatalogue.ExtractSliceAt` | data-preparation/extract_slices_full.py:120-146 | The extracted picture is the plane cut turned a quarter. Pixel (r, c) is voxel (i, c, Z-1-r), (c, i, Z-1-r) or (c, Y-1-r, i), with Z x Y, Z x X and Y x X dimensions. |
| `SliceCatalogue.FilenameInjective` | data-preparation/extract_slices_full.py:176 | Different (plane, position) pairs get different filenames. |
| `SliceCatalogue.FilenameShape` | data-preparation/extract_slices_full.py:176 | A filename is the plane name, '_', the `+03d` position and ".png". The plane name contains no '_'. |
| `SliceCatalogue.FilenameExamples` | data-preparation/extract_slices_full.py:176 | "sagittal_+00.png", "coronal_-05.png", "coronal_-126.png", "axial_+108.png". |
| `SliceCatalogue.PlaneTitles` | data-preparation/extract_slices_full.py:198 | The capitalised plane names are "Sagittal", "Coronal" and "Axial", with initials S, C and A. |
| `SliceCatalogue.DescriptionPrefixes` | data-preparation/extract_slices_full.py:198 | Each description begins "<Plane> slice at MNI <initial>=". |
| `SliceCatalogue.DescriptionText` | data-preparation/extract_slices_full.py:198 | The description reads "Sagittal slice at MNI S=<pos>" (and likewise for the other planes). |
| `SliceCatalogue.DescriptionInjective` | data-preparation/extract_slices_full.py:198 | Different slices get different descriptions. |
| `SliceCatalogue.CreateCoordinateMapping` | data-preparation/extract_slices_full.py:184-201 | Every record carries the fixed bounds x [-90, 90], y [-126, 90], z [-72, 108], its plane, its position, the slice's shape, the voxel it was cut at, its description and the image's filename and path. |
| `SliceCatalogue.ImagePathInjective` | data-preparation/extract_slices_full.py:250-255 | Different (plane, position) pairs get different image paths `data/processed/slices/<plane>/<filename>`. |
| `SliceCatalogue.MappingsIdentifySlices` | data-preparation/extract_slices_full.py:195-255 | Records of different slices differ in description, image filename and image path. |
| `SliceCatalogue.PlaneMappingsSound` | data-preparation/extract_slices_full.py:239-262 | Each record is for a listed position that extracts, on the right plane, with the fixed bounds, and is the mapping record of that position's extracted slice and voxel. There are no more records than positions. |
| `SliceCatalogue.PlaneMappingsComplete` | data-preparation/extract_slices_full.py:245-262 | Every position whose slice extracts has a record. Those that raise are skipped. |
| `SliceCatalogue.PlaneMappingsOrdered` | data-preparation/extract_slices_full.py:239-257 | Ascending positions give records in ascending position order. |
| `SliceCatalogue.AllPlaneMappings` | data-preparation/extract_slices_full.py:230-264 | The catalogue has one entry per plane, in plane order, each holding that plane's records. |
| `SliceCatalogue.ExtractPlane` | data-preparation/extract_slices_full.py:233-264 | The position loop of one plane gathers exactly that plane's records and counts them. |
| `SliceCatalogue.ExtractPlanes` | data-preparation/extract_slices_full.py:226-265 | The plane loop gathers every plane's records. `total_generated` is the total number of records. |
| `SliceCatalogue.BrainSliceExtractor.constructor` | data-preparation/extract_slices_full.py:14-26 | Sampling mode stores the sample positions. Full-coverage mode stores none yet. |
| `SliceCatalogue.BrainSliceExtractor.DetermineSlicePositions` | data-preparation/extract_slices_full.py:61-104 | The field is set to the sorted, de-duplicated lists. The total is the sum of their lengths, or a failure when a list is empty (`min()` raises). |
| `SliceCatalogue.BrainSliceExtractor.ExtractAllSlices` | data-preparation/extract_slices_full.py:203-265 | Full-coverage mode computes the positions first. It fails iff a list is empty, and is cancelled iff there are more than 200 slices and no confirmation. Otherwise it returns every plane's records and their count. Sampling mode leaves the positions unchanged. |
| `RegionMasks.EffectiveTables` | data-preparation/region_mask_generation/region_mask_generator.py:16-44 | Because id 5 repeats, both tables have nine ids, with 5 in second place as "Caudate" / (255, 128, 0). |
| `RegionMasks.DuplicateOfSecondKey` | data-preparation/region_mask_generation/region_mask_generator.py:16-44 | A ten-pair literal whose seventh key repeats the second yields nine entries. The second takes the seventh pair's value. |
| `RegionMasks.FromPairsAppendsNew` | data-preparation/region_mask_generation/region_mask_generator.py:16-32 | Pairs with fresh keys are appended in order. |
| `RegionMasks.DistinctFromPairsIdentity` | data-preparation/region_mask_generation/region_mask_generator.py:16-32 | A literal with no repeated key is its own dictionary. |
| `RegionMasks.ColorOf` | data-preparation/region_mask_generation/region_mask_generator.py:113 | The colour is the table's colour for a listed id, and white otherwise. |
| `RegionMasks.SliceCoordinatesSpec` | data-preparation/region_mask_generation/region_mask_generator.py:124-135 | There are 182 sagittal (-91..90), 218 coronal (-126..91) and 182 axial (-72..109) positions, ascending. |
| `RegionMasks.AtlasVoxelOnSliceRange` | data-preparation/region_mask_generation/region_mask_generator.py:208-218 | On the position ranges the formulas are floor((m+91)/2), floor((126-m)/2) and floor((m+73)/2). The indices lie in 0..90, 17..126 and 0..91. |
| `RegionMasks.AtlasVoxelMonotone` | data-preparation/region_mask_generation/region_mask_generator.py:208-218 | Sagittal and axial indices never decrease as m grows. The coronal index never increases. |
| `RegionMasks.RegionMask` | data-preparation/region_mask_generation/region_mask_generator.py:79-95 | The mask has the slice's dimensions. |
| `RegionMasks.RegionMaskSpec` | data-preparation/region_mask_generation/region_mask_generator.py:90-95 | The mask is 1 exactly where the slice equals the id and 0 elsewhere, so it has a set cell iff the id occurs. The threshold plays no part. |
| `RegionMasks.ZeroSliceEmptyMask` | data-preparation/region_mask_generation/rotated_mask_generator.py:89 | A non-zero id gives an empty mask on an all-zero slice. |
| `RegionMasks.Scale255` | data-preparation/region_mask_generation/region_mask_generator.py:107 | Scaling keeps the dimensions, maps a mask cell 0 to 0 and 1 to 255, so on a 0/1 mask a cell exceeds 127 exactly where the mask is set. |
| `RegionMasks.Colourize` | data-preparation/region_mask_generation/region_mask_generator.py:110-120 | The RGBA image has the resized mask's dimensions. |
| `RegionMasks.OverlaySpec` | data-preparation/region_mask_generation/region_mask_generator.py:97-122 | The overlay is 218 x 182. Each pixel is transparent or the region's colour at alpha 128, coloured iff the resized value exceeds 127. Unknown ids are white. With a value-keeping resize, an empty mask gives a transparent image. |
| `RegionMasks.AtlasChoiceOfTable` | data-preparation/region_mask_generation/region_mask_generator.py:183-188 | Of the effective table, exactly the first four entries (including "Caudate") read the cortical atlas. |
| `RegionMasks.MaskPathInjective` | data-preparation/region_mask_generation/region_mask_generator.py:201-202 | Different (plane, region, position) triples get different paths `region_masks/<plane>/region_<id:02d>/<plane>_<m:+03d>.png`. |
| `RegionMasks.RegionFileSpec` | data-preparation/region_mask_generation/region_mask_generator.py:190-204 | A region gets exactly one file iff its mask has a set pixel. The file is at the region's path with its overlay. |
| `RegionMasks.RegionFilesSound` | data-preparation/region_mask_generation/region_mask_generator.py:183-204 | Each file of a slice belongs to a table entry with a non-empty mask, at its path, with its overlay. |
| `RegionMasks.RegionFilesComplete` | data-preparation/region_mask_generation/region_mask_generator.py:183-204 | Every table entry with a non-empty mask gets a file. |
| `RegionMasks.RegionFilesDistinct` | data-preparation/region_mask_generation/region_mask_generator.py:183-204 | With distinct table ids, no region gets two files for one slice. |
| `RegionMasks.DisjointIdsAppend` | data-preparation/region_mask_generation/region_mask_generator.py:183-204 | Appending at most one file for a new id keeps the ids distinct. |
| `RegionMasks.SliceFiles` | data-preparation/region_mask_generation/region_mask_generator.py:167-204 | A position crashes iff its index is inside the cortical atlas but past the subcortical one. That index raises an uncaught error. |
| `RegionMasks.SliceFilesSound` | data-preparation/region_mask_generation/region_mask_generator.py:170-204 | Each file of a position is at that position, inside both atlases, for a table region with a non-empty mask. |
| `RegionMasks.PlaneRunSound` | data-preparation/region_mask_generation/region_mask_generator.py:163-204 | Files are written only for positions inside both atlases, each for a table region with a non-empty mask, at its own path. |
| `RegionMasks.PlaneRunCrashes` | data-preparation/region_mask_generation/region_mask_generator.py:179-180 | A plane run crashes iff some position hits the subcortical atlas's missing index. |
| `RegionMasks.PlaneRunComplete` | data-preparation/region_mask_generation/region_mask_generator.py:163-204 | Without a crash, every table region with a set pixel at an in-bounds position gets its file. |
| `RegionMasks.SliceFilesPaths` | data-preparation/region_mask_generation/region_mask_generator.py:201-202 | The files of one slice lie at their own paths and never share one. |
| `RegionMasks.PlaneRunPaths` | data-preparation/region_mask_generation/region_mask_generator.py:201-202 | Each file of a run is at the path of its own region and position. |
| `RegionMasks.RegionFilesPaths` | data-preparation/region_mask_generation/region_mask_generator.py:183-204 | The files of one slice pair lie at their own region's path at that position. With distinct table ids no two share a path. |
| `RegionMasks.PlaneRunPathsDistinct` | data-preparation/region_mask_generation/region_mask_generator.py:201-204 | No two files of a plane share a path, so nothing is overwritten. |
| `RegionMasks.AppendNextPlane` | data-preparation/region_mask_generation/region_mask_generator.py:228-229 | The next plane's files never share a path with earlier planes' files, because the plane name is part of the path. |
| `RegionMasks.AllRunPathsDistinct` | data-preparation/region_mask_generation/region_mask_generator.py:220-234 | Across all three planes no two files share a path, so no file is overwritten. |
| `RegionMasks.PlaneRunCrashIsFinal` | data-preparation/region_mask_generation/region_mask_generator.py:179-180 | After a crash, later positions add nothing. |
| `RegionMasks.GenerateMasksForPlane` | data-preparation/region_mask_generation/region_mask_generator.py:149-206 | The plane loop writes exactly the plane run's files. It skips out-of-range positions and stops at the first crash. |
| `RegionMasks.GenerateMasksForSlice` | data-preparation/region_mask_generation/region_mask_generator.py:183-204 | The region loop writes exactly the region files of the slice pair, in table order. |
| `RegionMasks.GenerateAllMasks` | data-preparation/region_mask_generation/region_mask_generator.py:228-229 | The three planes run in order, and a crash ends the run. |
| `RegionMasks.PriorityTable.constructor` | data-preparation/region_mask_generation/region_mask_generator.py:16-32 | The table starts as the dictionary of the literal. |
| `RegionMasks.PriorityTable.Clear` | data-preparation/region_mask_generation/region_mask_generator.py:280 | `clear()` empties the table. |
| `RegionMasks.PriorityTable.Put` | data-preparation/region_mask_generation/region_mask_generator.py:281 | `d[id] = name` is the ordered-dict assignment. |
| `RegionMasks.PriorityTable.ApplyTestRegion` | data-preparation/region_mask_generation/region_mask_generator.py:275-284 | An absent or zero id applies no filter. A listed id leaves exactly {id: name}. An unlisted id stops the run with the table untouched. |
| `RegionMasks.SummaryAsWritten` | data-preparation/region_mask_generation/region_mask_generator.py:236-253 | The printed average raises for no files. Otherwise it is the total size per file in KB. |
| `RegionMasks.MaskSummary` | data-preparation/region_mask_generation/region_mask_generator.py:236-253 | The summary counts the files and converts the size to MB. It has an average iff there are files, and the average times the count is the total. |
| `RegionMasks.SummaryDivisionByZero` | data-preparation/region_mask_generation/region_mask_generator.py:253 | A run without files crashes in the summary as written, while the guarded version reports no average. With files, the two agree. |
| `RegionMasks.Run` | data-preparation/region_mask_generation/region_mask_generator.py:275-287 | An unlisted test region writes nothing. Otherwise it generates over the filtered table. Unless it crashed, it then summarises its files, which lie at distinct paths, with the corrected (guarded) summary. |
| `RotatedMasks.AtlasVoxelHalves` | data-preparation/region_mask_generation/rotated_mask_generator.py:91-101 | The formulas halve m+90, m+126 and m+72 toward zero. |
| `RotatedMasks.TruncationAtRangeStart` | data-preparation/region_mask_generation/rotated_mask_generator.py:95 | m = -91 gives sagittal index 0 by truncation, where a floor would give -1. |
| `RotatedMasks.AtlasVoxelOnSliceRange` | data-preparation/region_mask_generation/rotated_mask_generator.py:91-101 | On the ranges the index lies in 0..90, 0..108 and 0..90, and is the floor of half the shifted position. |
| `RotatedMasks.AtlasVoxelMonotone` | data-preparation/region_mask_generation/rotated_mask_generator.py:91-101 | Every plane's index is non-decreasing in m. |
| `RotatedMasks.ExtractSliceSpec` | data-preparation/region_mask_generation/rotated_mask_generator.py:74-89 | An in-range index gives the array's slice on the fixed axis. Otherwise the result is a 91 x 91 all-zero slice. |
| `RotatedMasks.QuarterTurns` | data-preparation/region_mask_generation/rotated_mask_generator.py:109-121 | 90, 180 and 270 degrees give 1, 2 and 3 turns. Every other value gives none. |
| `RotatedMasks.RotateMask` | data-preparation/region_mask_generation/rotated_mask_generator.py:109-121 | An odd number of turns swaps the dimensions. An even number keeps them. |
| `RotatedMasks.Rot90TimesAdd` | data-preparation/region_mask_generation/rotated_mask_generator.py:113-118 | Quarter turns add up. |
| `RotatedMasks.RotateMaskSpec` | data-preparation/region_mask_generation/rotated_mask_generator.py:109-121 | `rotate_mask` is `QuarterTurns` counter-clockwise turns. 0 and unsupported angles leave the mask unchanged. At 90 degrees, out[i][j] = a[j][cols-1-i]. |
| `RotatedMasks.RotateMaskInverses` | data-preparation/region_mask_generation/rotated_mask_generator.py:113-118 | 90 then 270, 270 then 90, and 180 twice each restore the mask. |
| `RotatedMasks.TurnsKeepAny` | data-preparation/region_mask_generation/rotated_mask_generator.py:126 | Turning keeps a mask's non-emptiness. |
| `RotatedMasks.Scale255Rot90` | data-preparation/region_mask_generation/rotated_mask_generator.py:126-129 | Scaling and one turn commute. |
| `RotatedMasks.Scale255Turns` | data-preparation/region_mask_generation/rotated_mask_generator.py:126-129 | Scaling and any number of turns commute. |
| `RotatedMasks.RotatedOverlaySpec` | data-preparation/region_mask_generation/rotated_mask_generator.py:123-144 | The rotated overlay is the plain overlay of the turned mask, with the turn applied before the resize. At 0 degrees it is the plain overlay. |
| `RotatedMasks.PositionFilesCount` | data-preparation/region_mask_generation/rotated_mask_generator.py:171-193 | A position writes one file per table entry with a non-empty mask. |
| `RotatedMasks.PlaneFilesCount` | data-preparation/region_mask_generation/rotated_mask_generator.py:160-193 | A plane writes as many files as it has non-empty (position, region) pairs. |
| `RotatedMasks.OutOfRangeWritesNothing` | data-preparation/region_mask_generation/rotated_mask_generator.py:88-89 | A position outside both atlases writes nothing when no table id is 0. |
| `RotatedMasks.RegionOutOfRangeWritesNothing` | data-preparation/region_mask_generation/rotated_mask_generator.py:74-89 | A non-zero region whose own atlas has no slice at the position gets no file there, whatever the other atlas holds. |
| `RotatedMasks.PriorityIdsNonZero` | data-preparation/region_mask_generation/rotated_mask_generator.py:16-32 | No id of the effective table is 0. |
| `RotatedMasks.PlaneFilesPaths` | data-preparation/region_mask_generation/rotated_mask_generator.py:162-193 | With distinct table ids, no two files of a plane share a path. Each lies at its own region and position. |
| `RotatedMasks.AllFilesPathsDistinct` | data-preparation/region_mask_generation/rotated_mask_generator.py:197-206 | Across all three planes no two files share a path. |
| `RotatedMasks.GenerateMasksForPlane` | data-preparation/region_mask_generation/rotated_mask_generator.py:146-195 | The plane loop writes exactly the plane's files. `masks_generated` is their number, which is the number of non-empty pairs. |
| `RotatedMasks.GenerateAllMasks` | data-preparation/region_mask_generation/rotated_mask_generator.py:197-226 | The three planes run in order. The summary's average is present iff some file was written. |
| `RotatedMasks.Run` | data-preparation/region_mask_generation/rotated_mask_generator.py:254-263 | An unlisted test region writes nothing. Otherwise it generates over the filtered table with the rotation and summarises. The files lie at distinct paths. |
| `CoordinateDebug.FirstAtSpec` | data-preparation/region_mask_generation/comprehensive_coordinate_debug.py:40-62 | The search finds nothing iff no record has the position. Otherwise it finds the first record that does. |
| `CoordinateDebug.FindByPosition` | data-preparation/region_mask_generation/comprehensive_coordinate_debug.py:42-46 | The loop with `break` returns the first match. |
| `CoordinateDebug.AnalyzeTestCoordinate` | data-preparation/region_mask_generation/comprehensive_coordinate_debug.py:30-68 | The result exists iff all three plane keys exist. It holds the first sagittal match on x, coronal on y and axial on z. |
| `CoordinateDebug.Method1IsMaskGeneratorConversion` | data-preparation/region_mask_generation/comprehensive_coordinate_debug.py:120-122 | Method 1 is the plain generator's `mni_to_atlas_voxel` on each axis. |
| `CoordinateDebug.Method2IsMethod3` | data-preparation/region_mask_generation/comprehensive_coordinate_debug.py:128-138 | Methods 2 and 3 agree everywhere. Both halve the shifted coordinate toward zero. |
| `CoordinateDebug.Method1AgainstMethod3` | data-preparation/region_mask_generation/comprehensive_coordinate_debug.py:120-138 | Methods 1 and 3 agree on y. From x = -90 on, they agree on even x; on odd x, Method 1 is one higher. |
| `CoordinateDebug.VoxelRoundTrip` | data-preparation/region_mask_generation/comprehensive_coordinate_debug.py:197-201 | Voxel to MNI to voxel (Method 3) gives back every voxel. |
| `CoordinateDebug.MniRoundTrip` | data-preparation/region_mask_generation/comprehensive_coordinate_debug.py:136-138 | MNI to voxel (Method 3) to MNI gives back every coordinate with even components. |
| `CoordinateDebug.ProbeLabels` | data-preparation/region_mask_generation/comprehensive_coordinate_debug.py:149-155 | The probe reports out of bounds iff a cortical index is outside its shape. It reads labels iff the voxel is inside both arrays, and they are the voxel's values. |
| `CoordinateDebug.MinOf` | data-preparation/region_mask_generation/comprehensive_coordinate_debug.py:171-173 | `.min()` is an element no larger than any element. |
| `CoordinateDebug.MaxOf` | data-preparation/region_mask_generation/comprehensive_coordinate_debug.py:171-173 | `.max()` is an element no smaller than any element. |
| `CoordinateDebug.SumBetween` | data-preparation/region_mask_generation/comprehensive_coordinate_debug.py:192-194 | A sum of n values in [lo, hi] lies in [n * lo, n * hi]. |
| `CoordinateDebug.TruncatedQuotientBetween` | data-preparation/region_mask_generation/comprehensive_coordinate_debug.py:192-194 | A truncated quotient of such a sum by n lies in [lo, hi]. |
| `CoordinateDebug.TruncatedMeanBounds` | data-preparation/region_mask_generation/comprehensive_coordinate_debug.py:191-195 | `int(np.mean(.))` lies between the minimum and the maximum. |
| `CoordinateDebug.AxisColumn` | data-preparation/region_mask_generation/comprehensive_coordinate_debug.py:164-173 | `region_voxels[axis]` lists the given axis of each voxel. |
| `CoordinateDebug.IntervalToMniSpec` | data-preparation/region_mask_generation/comprehensive_coordinate_debug.py:181-183 | A converted interval stays ordered, with y reversed to (126-2*max, 126-2*min). Each voxel inside converts to a point inside. |
| `CoordinateDebug.AnalyzeRegionLocation` | data-preparation/region_mask_generation/comprehensive_coordinate_debug.py:157-201 | No report iff the region has no voxel. Otherwise there are three voxel ranges, and each MNI range is the conversion of its voxel range. The MNI centre is the conversion of the voxel centre. |
| `CoordinateDebug.AnalyzeRegionLocationSpec` | data-preparation/region_mask_generation/comprehensive_coordinate_debug.py:170-201 | Each range runs from the least to the greatest component of some region voxel (`.min()`, `.max()`), and every region voxel lies in it and converts into the MNI range. The centre is the truncated mean and lies in both ranges. |
| `CoordinateDebug.FlattenMembers` | data-preparation/region_mask_generation/comprehensive_coordinate_debug.py:232 | The flattened slice holds exactly the slice's values. |
| `CoordinateDebug.Positives` | data-preparation/region_mask_generation/comprehensive_coordinate_debug.py:233 | `a[a > 0]` holds exactly the positive elements. |
| `CoordinateDebug.PositivesAscending` | data-preparation/region_mask_generation/comprehensive_coordinate_debug.py:233 | Filtering keeps an ascending list ascending. |
| `CoordinateDebug.PositiveLabelsSpec` | data-preparation/region_mask_generation/comprehensive_coordinate_debug.py:232-238 | The unique labels without the background are ascending and exactly the positive labels present. A positive id appears iff its equality mask is non-empty. |
| `CoordinateDebug.AxialLabelsAt` | data-preparation/region_mask_generation/comprehensive_coordinate_debug.py:220-235 | Labels are read iff Method 3's voxel is within the cortical shape. They are then strictly ascending and are exactly the positive labels of the axial slice `cort[:, :, z]` at Method 3's z. |

## Left out

- NIfTI loading (nibabel), the affine matrices and their inversion are left out. The MNI-to-voxel conversion is the abstract `VoxelMap`. The rounded voxel-to-MNI positions (`int(round(voxel_to_mni(...)))`, including Python's `round`) are the abstract `RoundedMni`.
- Atlas values are read as floats by `get_fdata()`, which is not modelled. They are modelled as the integers they hold in max-probability atlases.
- Image rendering is left out: the matplotlib contrast normalisation and `save_slice_image` of the extractor, PIL's nearest-neighbour resize (an abstract function that fixes only the output size), and PNG encoding. Saving is assumed to succeed, and written files are returned as records.
- The affine matrix that the mapping record copies is omitted from `SliceCatalogue.SliceMapping`, because the affine is not modelled.
- Downloads, all printing and progress output, argparse, and the JSON dumps are left out. `HarvardOxford.LookupTable` is a `map`, so it does not keep the insertion order (grid order of the non-empty points) in which the JSON lists the keys. Directory creation (`mkdir` in the constructors and loops) is also left out. The "Continue?" prompt becomes the `confirm` parameter.
- `create_summary` of the extractor is left out: it only writes a text report.
- `print_summary` of both generators reads the output directory back. The model counts the files the run wrote and takes each file's size as a parameter. The directory is assumed empty at the start. The `.1f` rounding of the printed figures is left out.
- The `ValueError` for an unknown plane in the plain generator's `extract_slice` cannot occur, because planes are a datatype.
- `AnalyzeRegionLocation` takes the region's voxel list (what `np.where` returns) as input rather than the atlas.
- `verify_atlas_orientation`, `generate_diagnostic_summary` and the download and `main` code of the debug script are left out: they only print.
- `coordinate_diagnostic_tool.py`, `flip_brain_images.py`, `download_data.py` and `test_download.py` are not part of this model: they print, download or rotate image files.
- `CoordinateDebug.AnalyzeTestCoordinate`: the source raises `KeyError` on the first missing plane key. The model returns `None`.
- `RegionMasks.Run`: it summarises with the corrected `MaskSummary`. For a run that writes no file (a test region that occurs in no slice) the source's `print_summary` raises `ZeroDivisionError` instead; that behaviour is modelled separately by `RegionMasks.SummaryAsWritten` (see Findings).
- `HarvardOxford.BuildRegionLookupTable`: the early return when an atlas file is missing belongs to loading, which is not modelled.
- `RotatedMasks.GenerateMasksForPlane` reuses `RegionMasks.GenerateMasksForSlice` for its region loop. The rotation is folded into the resize step (`RotatedMasks.TurnThenResize`), and `RotatedMasks.RotatedOverlaySpec` proves this equals turning the mask first.

## Findings

| source | as written | input that shows it | evidently intended | confidence | as-written member | corrected member |
|---|---|---|---|---|---|---|
| data-preparation/region_mask_generation/region_mask_generator.py:253 | The average file size divides by `total_files` without a guard. | A run that writes no mask file, e.g. a test region with no voxel in any slice. `print_summary` then raises `ZeroDivisionError`. | The average is printed only when `total_files > 0`, as the rotated generator does at rotated_mask_generator.py:225. | not executed | `RegionMasks.SummaryAsWritten` (`RegionMasks.SummaryDivisionByZero` exhibits `None` for 0 files) | `RegionMasks.MaskSummary` |
