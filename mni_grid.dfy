/** The regular grid over MNI space that the 2 mm Harvard-Oxford processor
    classifies (`create_coordinate_grid`,
    data-preparation/harvard_oxford_atlas/harvard_oxford_2mm_processor.py:173-187):
    x over [-90, 90], y over [-126, 90], z over [-72, 108], stepping by the
    spacing, visited x-major, then y, then z. */
module MniGrid {
  import opened PyNum
  import opened Volumes

  /** The points (x, y, z) for every z of `zs`, in order. */
  function Column(x: int, y: int, zs: seq<int>): (c: seq<Triple>)
    ensures |c| == |zs| && forall k | 0 <= k < |zs| :: c[k] == (x, y, zs[k])
  {
    seq(|zs|, k requires 0 <= k < |zs| => (x, y, zs[k]))
  }

  /** The points with first coordinate `x`, y-major then z. */
  function Layer(x: int, ys: seq<int>, zs: seq<int>): seq<Triple>
  {
    if ys == [] then [] else Layer(x, ys[..|ys| - 1], zs) + Column(x, ys[|ys| - 1], zs)
  }

  /** The points of xs x ys x zs in x-major, then y, then z order: the
      order of the three nested loops of `create_coordinate_grid`. */
  function Points(xs: seq<int>, ys: seq<int>, zs: seq<int>): seq<Triple>
  {
    if xs == [] then [] else Points(xs[..|xs| - 1], ys, zs) + Layer(xs[|xs| - 1], ys, zs)
  }

  /** The axis ranges of the MNI152 grid: [-90, 90], [-126, 90], [-72, 108]. */
  function XRange(spacing: int): seq<int> requires spacing > 0 { Range(-90, 91, spacing) }
  function YRange(spacing: int): seq<int> requires spacing > 0 { Range(-126, 91, spacing) }
  function ZRange(spacing: int): seq<int> requires spacing > 0 { Range(-72, 109, spacing) }

  lemma ColumnSnoc(x: int, y: int, zs: seq<int>, k: nat)
    requires k < |zs|
    ensures Column(x, y, zs[..k + 1]) == Column(x, y, zs[..k]) + [(x, y, zs[k])]
  {
  }

  lemma LayerSnoc(x: int, ys: seq<int>, zs: seq<int>, j: nat)
    requires j < |ys|
    ensures Layer(x, ys[..j + 1], zs) == Layer(x, ys[..j], zs) + Column(x, ys[j], zs)
  {
    assert ys[..j + 1][..j] == ys[..j];
  }

  lemma PointsSnoc(xs: seq<int>, ys: seq<int>, zs: seq<int>, i: nat)
    requires i < |xs|
    ensures Points(xs[..i + 1], ys, zs) == Points(xs[..i], ys, zs) + Layer(xs[i], ys, zs)
  {
    assert xs[..i + 1][..i] == xs[..i];
  }

  /** `create_coordinate_grid(spacing)`. */
  method CreateCoordinateGrid(spacing: int) returns (coordinates: seq<Triple>)
    requires spacing > 0
    ensures coordinates == Points(XRange(spacing), YRange(spacing), ZRange(spacing))
  {
    var xs, ys, zs := XRange(spacing), YRange(spacing), ZRange(spacing);
    coordinates := [];
    for i := 0 to |xs|
      invariant coordinates == Points(xs[..i], ys, zs)
    {
      coordinates := AppendLayer(coordinates, xs[i], ys, zs);
      PointsSnoc(xs, ys, zs, i);
    }
    assert xs[..|xs|] == xs;
  }

  /** The y and z loops of `create_coordinate_grid` for one x. */
  method AppendLayer(coordinates: seq<Triple>, x: int, ys: seq<int>, zs: seq<int>) returns (r: seq<Triple>)
    ensures r == coordinates + Layer(x, ys, zs)
  {
    r := coordinates;
    for j := 0 to |ys|
      invariant r == coordinates + Layer(x, ys[..j], zs)
    {
      r := AppendColumn(r, x, ys[j], zs);
      LayerSnoc(x, ys, zs, j);
    }
    assert ys[..|ys|] == ys;
  }

  /** The z loop of `create_coordinate_grid` for one x and y. */
  method AppendColumn(coordinates: seq<Triple>, x: int, y: int, zs: seq<int>) returns (r: seq<Triple>)
    ensures r == coordinates + Column(x, y, zs)
  {
    r := coordinates;
    for k := 0 to |zs|
      invariant r == coordinates + Column(x, y, zs[..k])
    {
      ColumnSnoc(x, y, zs, k);
      r := r + [(x, y, zs[k])];
    }
    assert zs[..|zs|] == zs;
  }

  lemma MulPred(a: int, b: int)
    ensures (a - 1) * b + b == a * b
  {
  }

  lemma {:induction false} LayerLength(x: int, ys: seq<int>, zs: seq<int>)
    ensures |Layer(x, ys, zs)| == |ys| * |zs|
  {
    if ys != [] {
      LayerLength(x, ys[..|ys| - 1], zs);
      MulPred(|ys|, |zs|);
    }
  }

  lemma {:induction false} PointsLength(xs: seq<int>, ys: seq<int>, zs: seq<int>)
    ensures |Points(xs, ys, zs)| == |xs| * (|ys| * |zs|)
  {
    if xs != [] {
      PointsLength(xs[..|xs| - 1], ys, zs);
      LayerLength(xs[|xs| - 1], ys, zs);
      MulPred(|xs|, |ys| * |zs|);
    }
  }

  lemma {:induction false} LayerMembers(x: int, ys: seq<int>, zs: seq<int>)
    ensures forall p :: p in Layer(x, ys, zs) <==> p.0 == x && p.1 in ys && p.2 in zs
  {
    if ys != [] {
      var init := ys[..|ys| - 1];
      LayerMembers(x, init, zs);
      assert ys == init + [ys[|ys| - 1]];
      forall p: Triple | p.0 == x && p.1 == ys[|ys| - 1] && p.2 in zs ensures p in Column(x, ys[|ys| - 1], zs) {
        var k :| 0 <= k < |zs| && zs[k] == p.2;
        assert Column(x, ys[|ys| - 1], zs)[k] == p;
      }
    }
  }

  /** The grid holds exactly the triples whose coordinates come from the three axis lists. */
  lemma {:induction false} PointsMembers(xs: seq<int>, ys: seq<int>, zs: seq<int>)
    ensures forall p :: p in Points(xs, ys, zs) <==> p.0 in xs && p.1 in ys && p.2 in zs
  {
    if xs != [] {
      var init := xs[..|xs| - 1];
      PointsMembers(init, ys, zs);
      LayerMembers(xs[|xs| - 1], ys, zs);
      assert xs == init + [xs[|xs| - 1]];
    }
  }

  /** Lexicographic order on triples. */
  predicate LexLess(a: Triple, b: Triple)
  {
    a.0 < b.0 || (a.0 == b.0 && (a.1 < b.1 || (a.1 == b.1 && a.2 < b.2)))
  }

  predicate LexSorted(ps: seq<Triple>)
  {
    forall i, j | 0 <= i < j < |ps| :: LexLess(ps[i], ps[j])
  }

  lemma {:induction false} LayerSorted(x: int, ys: seq<int>, zs: seq<int>)
    requires StrictlyIncreasing(ys) && StrictlyIncreasing(zs)
    ensures LexSorted(Layer(x, ys, zs))
  {
    if ys != [] {
      var init, y := ys[..|ys| - 1], ys[|ys| - 1];
      LayerSorted(x, init, zs);
      LayerMembers(x, init, zs);
      var a, b := Layer(x, init, zs), Column(x, y, zs);
      forall i, j | 0 <= i < |a| && 0 <= j < |b| ensures LexLess(a[i], b[j]) {
        assert a[i] in a;
        var k :| 0 <= k < |init| && init[k] == a[i].1;
      }
      assert LexSorted(a + b);
    }
  }

  /** With ascending axis lists the grid is strictly ascending in
      lexicographic order, so no point occurs twice. */
  lemma {:induction false} PointsSorted(xs: seq<int>, ys: seq<int>, zs: seq<int>)
    requires StrictlyIncreasing(xs) && StrictlyIncreasing(ys) && StrictlyIncreasing(zs)
    ensures LexSorted(Points(xs, ys, zs))
  {
    if xs != [] {
      var init, x := xs[..|xs| - 1], xs[|xs| - 1];
      PointsSorted(init, ys, zs);
      LayerSorted(x, ys, zs);
      PointsMembers(init, ys, zs);
      LayerMembers(x, ys, zs);
      var a, b := Points(init, ys, zs), Layer(x, ys, zs);
      forall i, j | 0 <= i < |a| && 0 <= j < |b| ensures LexLess(a[i], b[j]) {
        assert a[i] in a && b[j] in b;
        var k :| 0 <= k < |init| && init[k] == a[i].0;
      }
      assert LexSorted(a + b);
    }
  }

  /** The axis lists at 2 mm spacing: 91, 109 and 91 values, ascending,
      holding exactly the even values of their ranges. */
  lemma AxesAtTwoMillimetres()
    ensures |XRange(2)| == 91 && |YRange(2)| == 109 && |ZRange(2)| == 91
    ensures StrictlyIncreasing(XRange(2)) && StrictlyIncreasing(YRange(2)) && StrictlyIncreasing(ZRange(2))
    ensures forall x :: x in XRange(2) <==> -90 <= x <= 90 && x % 2 == 0
    ensures forall y :: y in YRange(2) <==> -126 <= y <= 90 && y % 2 == 0
    ensures forall z :: z in ZRange(2) <==> -72 <= z <= 108 && z % 2 == 0
  {
    RangeTwo(-90, 91);
    RangeTwo(-126, 91);
    RangeTwo(-72, 109);
    forall x: int ensures (x + 90) % 2 == 0 <==> x % 2 == 0 {
      EvenShift(x, 45);
    }
    forall y: int ensures (y + 126) % 2 == 0 <==> y % 2 == 0 {
      EvenShift(y, 63);
    }
    forall z: int ensures (z + 72) % 2 == 0 <==> z % 2 == 0 {
      EvenShift(z, 36);
    }
  }

  lemma EvenShift(x: int, k: int)
    ensures (x + 2 * k) % 2 == x % 2
  {
  }

  /** The 2 mm grid: every (x, y, z) with x in {-90, -88, ..., 90},
      y in {-126, ..., 90} and z in {-72, ..., 108}, each exactly once, in
      x-major then y then z order; 91 x 109 x 91 = 902,629 points. */
  lemma GridAtTwoMillimetres()
    ensures var g := Points(XRange(2), YRange(2), ZRange(2));
      && |g| == 902629
      && LexSorted(g)
      && (forall i, j | 0 <= i < j < |g| :: g[i] != g[j])
      && (forall p :: p in g <==>
            && -90 <= p.0 <= 90 && p.0 % 2 == 0
            && -126 <= p.1 <= 90 && p.1 % 2 == 0
            && -72 <= p.2 <= 108 && p.2 % 2 == 0)
  {
    var xs, ys, zs := XRange(2), YRange(2), ZRange(2);
    AxesAtTwoMillimetres();
    PointsLength(xs, ys, zs);
    PointsSorted(xs, ys, zs);
    PointsMembers(xs, ys, zs);
    var g := Points(xs, ys, zs);
    forall i, j | 0 <= i < j < |g| ensures g[i] != g[j] {
      assert LexLess(g[i], g[j]);
    }
  }

}
