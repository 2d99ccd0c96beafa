/** The array vocabulary the pipeline shares: the three anatomical planes, a
    3-D atlas volume (numpy's 3-D array, here `array3<int>`, never written
    after loading), the 2-D slices and masks cut from it (values: numpy's
    slicing, `==` and `rot90` all build new arrays), and numpy's rules for
    one integer index. */
module Volumes {
  import opened Wrappers

  /** The three anatomical planes, in the order every loop of the pipeline visits them. */
  datatype Plane = Sagittal | Coronal | Axial

  const Planes: seq<Plane> := [Sagittal, Coronal, Axial]

  /** The axis a plane holds fixed: x (0) for sagittal, y (1) for coronal, z (2) for axial. */
  function Axis(p: Plane): (a: nat)
    ensures a < 3
  {
    match p
    case Sagittal => 0
    case Coronal => 1
    case Axial => 2
  }

  /** The plane's name as the pipeline spells it in paths and JSON. */
  function Name(p: Plane): string
  {
    match p
    case Sagittal => "sagittal"
    case Coronal => "coronal"
    case Axial => "axial"
  }

  /** Different planes fix different axes and carry different names. */
  lemma AxisAndNameInjective(p: Plane, q: Plane)
    ensures Axis(p) == Axis(q) <==> p == q
    ensures Name(p) == Name(q) <==> p == q
  {
    if p != q {
      assert Name(p)[0] != Name(q)[0] || |Name(p)| != |Name(q)|;
    }
  }

  /** An (x, y, z) triple: a millimetre MNI coordinate or a voxel index. */
  type Triple = (int, int, int)

  function Component(t: Triple, axis: nat): int
    requires axis < 3
  {
    if axis == 0 then t.0 else if axis == 1 then t.1 else t.2
  }

  /** The MNI -> voxel conversion `(inv(affine) @ [x, y, z, 1])[:3].astype(int)`;
      `None` when it raises (a singular affine). */
  type VoxelMap = Triple -> Option<Triple>

  /** `data.shape[axis]` of a 3-D volume. */
  function Extent(v: array3<int>, axis: nat): nat
    requires axis < 3
  {
    if axis == 0 then v.Length0 else if axis == 1 then v.Length1 else v.Length2
  }

  /** All three indices of `t` lie in [0, shape). */
  predicate InBounds(v: array3<int>, t: Triple)
  {
    0 <= t.0 < v.Length0 && 0 <= t.1 < v.Length1 && 0 <= t.2 < v.Length2
  }

  /** A 2-D array: `rows` x `cols` values, row by row. */
  datatype GridData = GridData(rows: nat, cols: nat, cells: seq<seq<int>>)
  {
    predicate Valid()
    {
      |cells| == rows && forall r | 0 <= r < rows :: |cells[r]| == cols
    }
  }

  type Grid = g: GridData | g.Valid() witness GridData(0, 0, [])

  /** `data[i, :, :]`, `data[:, i, :]` or `data[:, :, i]` for the plane's fixed axis. */
  function Slice(v: array3<int>, p: Plane, i: nat): (g: Grid)
    requires i < Extent(v, Axis(p))
    reads v
    ensures p == Sagittal ==> g.rows == v.Length1 && g.cols == v.Length2
    ensures p == Coronal ==> g.rows == v.Length0 && g.cols == v.Length2
    ensures p == Axial ==> g.rows == v.Length0 && g.cols == v.Length1
  {
    match p
    case Sagittal =>
      GridData(v.Length1, v.Length2,
        seq(v.Length1, (r: int) requires 0 <= r < v.Length1 reads v =>
          seq(v.Length2, (c: int) requires 0 <= c < v.Length2 reads v => v[i, r, c])))
    case Coronal =>
      GridData(v.Length0, v.Length2,
        seq(v.Length0, (r: int) requires 0 <= r < v.Length0 reads v =>
          seq(v.Length2, (c: int) requires 0 <= c < v.Length2 reads v => v[r, i, c])))
    case Axial =>
      GridData(v.Length0, v.Length1,
        seq(v.Length0, (r: int) requires 0 <= r < v.Length0 reads v =>
          seq(v.Length1, (c: int) requires 0 <= c < v.Length1 reads v => v[r, c, i])))
  }

  /** The value a slice holds at (r, c) is the volume's voxel with the fixed axis at `i`. */
  lemma SliceAt(v: array3<int>, p: Plane, i: nat, r: nat, c: nat)
    requires i < Extent(v, Axis(p))
    requires r < Slice(v, p, i).rows && c < Slice(v, p, i).cols
    ensures p == Sagittal ==> Slice(v, p, i).cells[r][c] == v[i, r, c]
    ensures p == Coronal ==> Slice(v, p, i).cells[r][c] == v[r, i, c]
    ensures p == Axial ==> Slice(v, p, i).cells[r][c] == v[r, c, i]
  {
  }

  /** `np.zeros((rows, cols))`. */
  function ZeroGrid(rows: nat, cols: nat): (g: Grid)
    ensures g.rows == rows && g.cols == cols
    ensures forall r, c | 0 <= r < rows && 0 <= c < cols :: g.cells[r][c] == 0
  {
    GridData(rows, cols, seq(rows, _ => seq(cols, _ => 0)))
  }

  /** `np.any(g)`: some cell is non-zero. */
  predicate AnyNonZero(g: Grid)
  {
    exists r, c | 0 <= r < g.rows && 0 <= c < g.cols :: g.cells[r][c] != 0
  }

  /** `np.rot90(g, k=1)`: one counter-clockwise quarter turn. The first row
      of the result is the last column of `g`. */
  function Rot90(g: Grid): (t: Grid)
    ensures t.rows == g.cols && t.cols == g.rows
  {
    GridData(g.cols, g.rows,
      seq(g.cols, (i: int) requires 0 <= i < g.cols =>
        seq(g.rows, (j: int) requires 0 <= j < g.rows => g.cells[j][g.cols - 1 - i])))
  }

  /** Cell (i, j) of one quarter turn is cell (j, cols - 1 - i) of the input. */
  lemma Rot90At(g: Grid, i: nat, j: nat)
    requires i < g.cols && j < g.rows
    ensures Rot90(g).cells[i][j] == g.cells[j][g.cols - 1 - i]
  {
  }

  /** `np.rot90(g, k)` for k >= 0: `k` successive quarter turns. */
  function Rot90Times(g: Grid, k: nat): Grid
  {
    if k == 0 then g else Rot90(Rot90Times(g, k - 1))
  }

  /** A half turn reverses both axes. */
  lemma {:induction false} HalfTurn(g: Grid)
    ensures Rot90Times(g, 2).rows == g.rows && Rot90Times(g, 2).cols == g.cols
    ensures forall i, j | 0 <= i < g.rows && 0 <= j < g.cols ::
      Rot90Times(g, 2).cells[i][j] == g.cells[g.rows - 1 - i][g.cols - 1 - j]
  {
    var h := Rot90(g);
    assert Rot90Times(g, 1) == h;
    assert Rot90Times(g, 2) == Rot90(h);
    forall i, j | 0 <= i < g.rows && 0 <= j < g.cols
      ensures Rot90(h).cells[i][j] == g.cells[g.rows - 1 - i][g.cols - 1 - j]
    {
      Rot90At(h, i, j);
      Rot90At(g, j, h.cols - 1 - i);
    }
  }

  /** Four quarter turns give back the input, dimensions included. */
  lemma {:induction false} FourTurnsIdentity(g: Grid)
    ensures Rot90Times(g, 4) == g
  {
    HalfTurn(g);
    var h := Rot90Times(g, 2);
    HalfTurn(h);
    assert Rot90Times(g, 3) == Rot90(h);
    assert Rot90Times(g, 4) == Rot90(Rot90(h));
    assert Rot90Times(h, 1) == Rot90(h);
    assert Rot90Times(h, 2) == Rot90(Rot90(h));
    var f := Rot90Times(g, 4);
    assert f.rows == g.rows && f.cols == g.cols;
    forall r | 0 <= r < g.rows ensures f.cells[r] == g.cells[r] {
      assert forall c | 0 <= c < g.cols :: f.cells[r][c] == g.cells[r][c];
    }
  }

  /** An odd number of quarter turns swaps the dimensions, an even one keeps them. */
  lemma {:induction false} TurnsDimensions(g: Grid, k: nat)
    ensures k % 2 == 1 ==> Rot90Times(g, k).rows == g.cols && Rot90Times(g, k).cols == g.rows
    ensures k % 2 == 0 ==> Rot90Times(g, k).rows == g.rows && Rot90Times(g, k).cols == g.cols
  {
    if k > 0 {
      TurnsDimensions(g, k - 1);
    }
  }

  /** A turned grid has a non-zero cell exactly when the input has one. */
  lemma Rot90KeepsAny(g: Grid)
    ensures AnyNonZero(Rot90(g)) <==> AnyNonZero(g)
  {
    var t := Rot90(g);
    if AnyNonZero(g) {
      var r, c :| 0 <= r < g.rows && 0 <= c < g.cols && g.cells[r][c] != 0;
      Rot90At(g, g.cols - 1 - c, r);
    }
    if AnyNonZero(t) {
      var i, j :| 0 <= i < t.rows && 0 <= j < t.cols && t.cells[i][j] != 0;
      Rot90At(g, i, j);
    }
  }

  /** numpy's rule for one integer index into an axis of length `n`:
      [0, n) as is, [-n, 0) counted from the end, anything else an IndexError. */
  function NpIndex(i: int, n: nat): (r: Option<nat>)
    ensures r.Some? <==> -(n as int) <= i < n
    ensures r.Some? ==> r.value < n && (r.value == i || r.value == i + n)
  {
    if 0 <= i < n then Some(i) else if -(n as int) <= i < 0 then Some(i + n) else None
  }
}
