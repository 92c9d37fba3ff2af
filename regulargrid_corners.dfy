/** Conversion between values at the corners of a structured grid and values at
    the centres of its cells (corner2center and center2corner in
    dfm_tools/regulargrid.py). Both are pure: the array is a value. */
module RegularGrid {
  import opened Wrappers

  /** A numpy array as far as the two conversions look at it: a vector, a
      matrix of `cols` columns stored row by row, or an array of another rank
      whose contents never matter. */
  datatype NdArray =
    | Rank1(v: seq<real>)
    | Rank2(rows: seq<seq<real>>, cols: nat)
    | OtherRank(rank: nat)
  {
    predicate Valid() {
      match this
      case Rank1(_) => true
      case Rank2(rows, cols) => IsMatrix(rows, cols)
      case OtherRank(rank) => rank != 1 && rank != 2
    }
  }

  /** Every row of `g` has `cols` entries (a matrix of shape (|g|, cols)). */
  predicate IsMatrix(g: seq<seq<real>>, cols: nat) {
    forall i :: 0 <= i < |g| ==> |g[i]| == cols
  }

  /** The exceptions the two conversions raise, one constructor per cause. */
  datatype GridError =
    | TooFewElements        // ValueError: a vector needs at least 2 elements
    | NegativeDimension     // ValueError: an axis of length 0 asks for a result axis of length -1
    | NoVoxels              // NotImplementedError: rank above 3
    | CenUnbound            // rank 0 or 3: no branch binds the result (UnboundLocalError)
    | NotTwoDimensional     // center2corner: ValueError, the input is not 2-D
    | NothingToExtrapolate  // center2corner: IndexError, the differences leave no row or column to index

  /** The mean of each pair of neighbours of a vector. */
  function PairMeans(v: seq<real>): (r: seq<real>)
    requires |v| >= 1
    ensures |r| == |v| - 1
    ensures forall k :: 0 <= k < |r| ==> r[k] == (v[k] + v[k + 1]) / 2.0
  {
    if |v| == 1 then [] else [(v[0] + v[1]) / 2.0] + PairMeans(v[1..])
  }

  /** The means of the 2x2 blocks formed by two neighbouring rows, taken as the
      pair means of the vertical means of each column. */
  function QuadMeans(top: seq<real>, bot: seq<real>): (r: seq<real>)
    requires |top| == |bot| >= 1
    ensures |r| == |top| - 1
    ensures forall k :: 0 <= k < |r| ==> r[k] == (top[k] + top[k + 1] + bot[k + 1] + bot[k]) / 4.0
  {
    if |top| == 1 then []
    else [((top[0] + bot[0]) / 2.0 + (top[1] + bot[1]) / 2.0) / 2.0] + QuadMeans(top[1..], bot[1..])
  }

  /** The mean of the four corners of each cell of a matrix. */
  function CellMeans(g: seq<seq<real>>, cols: nat): (r: seq<seq<real>>)
    requires IsMatrix(g, cols) && |g| >= 1 && cols >= 1
    ensures |r| == |g| - 1 && IsMatrix(r, cols - 1)
    ensures forall i, j {:trigger r[i][j]} :: 0 <= i < |r| && 0 <= j < cols - 1 ==>
      r[i][j] == (g[i][j] + g[i][j + 1] + g[i + 1][j + 1] + g[i + 1][j]) / 4.0
  {
    seq(|g| - 1, i requires 0 <= i < |g| - 1 => QuadMeans(g[i], g[i + 1]))
  }

  /** The mean of each pair of neighbours down a matrix with a single column. */
  function ColumnMeans(g: seq<seq<real>>): (r: seq<seq<real>>)
    requires IsMatrix(g, 1) && |g| >= 1
    ensures |r| == |g| - 1 && IsMatrix(r, 1)
    ensures forall i :: 0 <= i < |r| ==> r[i][0] == (g[i][0] + g[i + 1][0]) / 2.0
  {
    if |g| == 1 then [] else [[(g[0][0] + g[1][0]) / 2.0]] + ColumnMeans(g[1..])
  }

  /** corner2center: each centre is the mean of its 2 (vector, or matrix with
      one row or one column) or 4 (matrix) surrounding corners. The branches are
      tried in the source's order, so a (1, 1) matrix takes the single-row branch
      and gives an empty (1, 0) matrix. */
  function Corner2Center(cor: NdArray): (r: Result<NdArray, GridError>)
    requires cor.Valid()
    ensures r.Ok? ==> r.value.Valid()
    ensures cor.Rank1? ==> (r == Err(TooFewElements) <==> |cor.v| < 2)
    ensures cor.Rank1? && |cor.v| >= 2 ==>
      r.Ok? && r.value.Rank1? && |r.value.v| == |cor.v| - 1 &&
      forall k :: 0 <= k < |r.value.v| ==> r.value.v[k] == (cor.v[k] + cor.v[k + 1]) / 2.0
    ensures cor.Rank2? ==> (r == Err(NegativeDimension) <==> |cor.rows| == 0 || cor.cols == 0)
    ensures cor.Rank2? && |cor.rows| == 1 && cor.cols >= 1 ==>
      r.Ok? && r.value.Rank2? && |r.value.rows| == 1 && r.value.cols == cor.cols - 1 &&
      forall k :: 0 <= k < cor.cols - 1 ==> r.value.rows[0][k] == (cor.rows[0][k] + cor.rows[0][k + 1]) / 2.0
    ensures cor.Rank2? && |cor.rows| >= 2 && cor.cols == 1 ==>
      r.Ok? && r.value.Rank2? && |r.value.rows| == |cor.rows| - 1 && r.value.cols == 1 &&
      forall i :: 0 <= i < |r.value.rows| ==> r.value.rows[i][0] == (cor.rows[i][0] + cor.rows[i + 1][0]) / 2.0
    ensures cor.Rank2? && |cor.rows| >= 2 && cor.cols >= 2 ==>
      r.Ok? && r.value.Rank2? && |r.value.rows| == |cor.rows| - 1 && r.value.cols == cor.cols - 1 &&
      forall i, j {:trigger r.value.rows[i][j]} :: 0 <= i < |r.value.rows| && 0 <= j < cor.cols - 1 ==>
        r.value.rows[i][j] == (cor.rows[i][j] + cor.rows[i][j + 1] + cor.rows[i + 1][j + 1] + cor.rows[i + 1][j]) / 4.0
    ensures cor.OtherRank? ==> r == Err(if cor.rank > 3 then NoVoxels else CenUnbound)
  {
    match cor
    case Rank1(v) =>
      if |v| < 2 then Err(TooFewElements) else Ok(Rank1(PairMeans(v)))
    case Rank2(g, cols) =>
      if |g| == 1 then
        if cols == 0 then Err(NegativeDimension) else Ok(Rank2([PairMeans(g[0])], cols - 1))
      else if cols == 1 then
        if |g| == 0 then Err(NegativeDimension) else Ok(Rank2(ColumnMeans(g), 1))
      else if |g| == 0 || cols == 0 then Err(NegativeDimension)
      else Ok(Rank2(CellMeans(g, cols), cols - 1))
    case OtherRank(rank) =>
      if rank > 3 then Err(NoVoxels) else Err(CenUnbound)
  }

  /** The value one step beyond `edge`, continuing the line through `inner` and
      `edge`: first - diff (top, left) and last + diff (bottom, right). */
  function Extend(edge: real, inner: real): real {
    edge - (inner - edge)
  }

  /** The matrix with one extrapolated row added above and one below. */
  function ExtendRows(g: seq<seq<real>>, cols: nat): (r: seq<seq<real>>)
    requires IsMatrix(g, cols) && |g| >= 2
    ensures |r| == |g| + 2 && IsMatrix(r, cols)
    ensures forall i, j {:trigger r[i][j]} :: 1 <= i <= |g| && 0 <= j < cols ==> r[i][j] == g[i - 1][j]
    ensures forall j :: 0 <= j < cols ==>
      r[0][j] == Extend(r[1][j], r[2][j]) && r[|g| + 1][j] == Extend(r[|g|][j], r[|g| - 1][j])
  {
    [seq(cols, j requires 0 <= j < cols => Extend(g[0][j], g[1][j]))] + g +
    [seq(cols, j requires 0 <= j < cols => Extend(g[|g| - 1][j], g[|g| - 2][j]))]
  }

  /** The matrix with one extrapolated column added left and one right. */
  function ExtendCols(g: seq<seq<real>>, cols: nat): (r: seq<seq<real>>)
    requires IsMatrix(g, cols) && cols >= 2
    ensures |r| == |g| && IsMatrix(r, cols + 2)
    ensures forall i, j {:trigger r[i][j]} :: 0 <= i < |g| && 1 <= j <= cols ==> r[i][j] == g[i][j - 1]
    ensures forall i :: 0 <= i < |g| ==>
      r[i][0] == Extend(r[i][1], r[i][2]) && r[i][cols + 1] == Extend(r[i][cols], r[i][cols - 1])
  {
    seq(|g|, i requires 0 <= i < |g| =>
      [Extend(g[i][0], g[i][1])] + g[i] + [Extend(g[i][cols - 1], g[i][cols - 2])])
  }

  /** center2corner: average to the inner corners with corner2center, then grow
      by linear extrapolation, first a row on top and bottom, then a column left
      and right (so the four outer corners are extrapolated twice). */
  function Center2Corner(cen: NdArray): (r: Result<NdArray, GridError>)
    requires cen.Valid()
    ensures r.Ok? <==> cen.Rank2? && |cen.rows| >= 3 && cen.cols >= 3
    ensures !cen.Rank2? ==> r == Err(NotTwoDimensional)
    ensures cen.Rank2? && (|cen.rows| == 0 || cen.cols == 0) ==> r == Err(NegativeDimension)
    ensures cen.Rank2? && |cen.rows| >= 1 && cen.cols >= 1 && (|cen.rows| < 3 || cen.cols < 3) ==>
      r == Err(NothingToExtrapolate)
    ensures r.Ok? ==>
      r.value.Valid() && r.value.Rank2? && |r.value.rows| == |cen.rows| + 1 && r.value.cols == cen.cols + 1
  {
    if !cen.Rank2? then Err(NotTwoDimensional)
    else
      match Corner2Center(cen)
      case Err(e) => Err(e)
      case Ok(nobnd) =>
        if !nobnd.Rank2? || |nobnd.rows| < 2 || nobnd.cols < 2 then Err(NothingToExtrapolate)
        else Ok(Rank2(Grow(nobnd.rows, nobnd.cols), nobnd.cols + 2))
  }

  /** The inner corners grown by one extrapolated row on each side, then one
      extrapolated column on each side. */
  function Grow(inner: seq<seq<real>>, k: nat): (r: seq<seq<real>>)
    requires IsMatrix(inner, k) && |inner| >= 2 && k >= 2
    ensures |r| == |inner| + 2 && IsMatrix(r, k + 2)
    ensures forall i, j {:trigger r[i][j]} :: 1 <= i <= |inner| && 1 <= j <= k ==> r[i][j] == inner[i - 1][j - 1]
  {
    ExtendCols(ExtendRows(inner, k), k)
  }

  /** Every added row and column of Grow continues the line through its two
      neighbours; the corners are on both an added row and an added column. */
  lemma GrowEdges(inner: seq<seq<real>>, k: nat)
    requires IsMatrix(inner, k) && |inner| >= 2 && k >= 2
    ensures var m, n, c := |inner| + 1, k + 1, Grow(inner, k);
      (forall j :: 1 <= j < n ==> c[0][j] == Extend(c[1][j], c[2][j]) && c[m][j] == Extend(c[m - 1][j], c[m - 2][j])) &&
      (forall i :: 0 <= i <= m ==> c[i][0] == Extend(c[i][1], c[i][2]) && c[i][n] == Extend(c[i][n - 1], c[i][n - 2]))
  {
  }

  /** center2corner is corner2center's 4-point means, grown by Grow. */
  lemma Center2CornerIsGrow(g: seq<seq<real>>, n: nat)
    requires IsMatrix(g, n) && |g| >= 3 && n >= 3
    ensures Center2Corner(Rank2(g, n)) == Ok(Rank2(Grow(CellMeans(g, n), n - 1), n + 1))
  {
  }

  /** The inner corners that center2corner produces are the 4-point means of
      the centres around them. */
  lemma Center2CornerInterior(g: seq<seq<real>>, n: nat)
    requires IsMatrix(g, n) && |g| >= 3 && n >= 3
    ensures Center2Corner(Rank2(g, n)).Ok?
    ensures var c := Center2Corner(Rank2(g, n)).value.rows;
      |c| == |g| + 1 && IsMatrix(c, n + 1) &&
      forall i, j {:trigger c[i][j]} :: 1 <= i < |g| && 1 <= j < n ==>
        c[i][j] == (g[i - 1][j - 1] + g[i - 1][j] + g[i][j] + g[i][j - 1]) / 4.0
  {
    Center2CornerIsGrow(g, n);
  }

  /** The doctests of corner2center: a vector, a single row, a single column
      and a 2x3 matrix; and the (1, 1) matrix, which gives an empty row. */
  lemma Corner2CenterVectorExample()
    ensures Corner2Center(Rank1([1.0, 3.0, 5.0])) == Ok(Rank1([2.0, 4.0]))
  {
    var v := Corner2Center(Rank1([1.0, 3.0, 5.0])).value.v;
    assert v[0] == 2.0 && v[1] == 4.0;
    assert v == [2.0, 4.0];
  }

  lemma Corner2CenterRowExample()
    ensures Corner2Center(Rank2([[1.0, 3.0, 5.0]], 3)) == Ok(Rank2([[2.0, 4.0]], 2))
  {
    var row := Corner2Center(Rank2([[1.0, 3.0, 5.0]], 3)).value.rows;
    assert row[0][0] == 2.0 && row[0][1] == 4.0;
    assert row[0] == [2.0, 4.0];
  }

  lemma Corner2CenterColumnExample()
    ensures Corner2Center(Rank2([[1.0], [3.0], [5.0]], 1)) == Ok(Rank2([[2.0], [4.0]], 1))
  {
    var col := Corner2Center(Rank2([[1.0], [3.0], [5.0]], 1)).value.rows;
    assert col[0][0] == 2.0 && col[1][0] == 4.0;
    assert col[0] == [2.0] && col[1] == [4.0];
    assert col == [[2.0], [4.0]];
  }

  lemma Corner2CenterMatrixExample()
    ensures Corner2Center(Rank2([[1.0, 3.0, 5.0], [2.0, 6.0, 10.0]], 3)) == Ok(Rank2([[3.0, 6.0]], 2))
  {
    var mat := Corner2Center(Rank2([[1.0, 3.0, 5.0], [2.0, 6.0, 10.0]], 3)).value.rows;
    assert mat[0][0] == 3.0 && mat[0][1] == 6.0;
    assert mat[0] == [3.0, 6.0];
    assert mat == [[3.0, 6.0]];
  }

  lemma Corner2CenterSingleCellExample()
    ensures Corner2Center(Rank2([[7.0]], 1)) == Ok(Rank2([[]], 0))
  {
    assert Corner2Center(Rank2([[7.0]], 1)).value.rows[0] == [];
  }

  // ---------------------------------------------------------------------------
  // Planes: on linear data the two conversions are exact inverses.

  /** k copies of x added up (k * x), kept recursive so that plane arithmetic
      stays linear for the solver. */
  function Mul(k: nat, x: real): real {
    if k == 0 then 0.0 else Mul(k - 1, x) + x
  }

  /** g samples the plane a + i*dr + j*dc at every row i and column j. */
  predicate IsPlane(g: seq<seq<real>>, cols: nat, a: real, dr: real, dc: real) {
    IsMatrix(g, cols) &&
    forall i, j :: 0 <= i < |g| && 0 <= j < cols ==> g[i][j] == a + Mul(i, dr) + Mul(j, dc)
  }

  /** Two samples of the same plane with the same shape are the same matrix. */
  lemma PlaneDeterminesMatrix(g: seq<seq<real>>, h: seq<seq<real>>, cols: nat, a: real, dr: real, dc: real)
    requires IsPlane(g, cols, a, dr, dc) && IsPlane(h, cols, a, dr, dc) && |g| == |h|
    ensures g == h
  {
    forall i | 0 <= i < |g| ensures g[i] == h[i] {
      assert |g[i]| == |h[i]| == cols;
      forall j | 0 <= j < cols ensures g[i][j] == h[i][j] {
        assert g[i][j] == a + Mul(i, dr) + Mul(j, dc);
      }
    }
  }

  /** Averaging corners of a plane gives the same plane shifted half a cell in
      each direction. */
  lemma {:induction false} CellMeansOfPlane(g: seq<seq<real>>, cols: nat, a: real, dr: real, dc: real)
    requires IsPlane(g, cols, a, dr, dc) && |g| >= 1 && cols >= 1
    ensures IsPlane(CellMeans(g, cols), cols - 1, a + (dr + dc) / 2.0, dr, dc)
  {
    var r := CellMeans(g, cols);
    forall i, j | 0 <= i < |r| && 0 <= j < cols - 1
      ensures r[i][j] == a + (dr + dc) / 2.0 + Mul(i, dr) + Mul(j, dc)
    {
      assert Mul(i + 1, dr) == Mul(i, dr) + dr;
      assert Mul(j + 1, dc) == Mul(j, dc) + dc;
    }
  }

  /** The extrapolated rows continue the plane one row above and one below. */
  lemma {:induction false} ExtendRowsOfPlane(g: seq<seq<real>>, cols: nat, a: real, dr: real, dc: real)
    requires IsPlane(g, cols, a, dr, dc) && |g| >= 2
    ensures IsPlane(ExtendRows(g, cols), cols, a - dr, dr, dc)
  {
    var r, m := ExtendRows(g, cols), |g|;
    forall i, j | 0 <= i < |r| && 0 <= j < cols
      ensures r[i][j] == a - dr + Mul(i, dr) + Mul(j, dc)
    {
      if i == 0 {
        assert Mul(1, dr) == dr;
      } else if i <= m {
        assert Mul(i, dr) == Mul(i - 1, dr) + dr;
      } else {
        assert Mul(m - 1, dr) == Mul(m - 2, dr) + dr;
        assert Mul(m, dr) == Mul(m - 1, dr) + dr;
        assert Mul(m + 1, dr) == Mul(m, dr) + dr;
      }
    }
  }

  /** The extrapolated columns continue the plane one column left and one right. */
  lemma {:induction false} ExtendColsOfPlane(g: seq<seq<real>>, cols: nat, a: real, dr: real, dc: real)
    requires IsPlane(g, cols, a, dr, dc) && cols >= 2
    ensures IsPlane(ExtendCols(g, cols), cols + 2, a - dc, dr, dc)
  {
    var r := ExtendCols(g, cols);
    forall i, j | 0 <= i < |r| && 0 <= j < cols + 2
      ensures r[i][j] == a - dc + Mul(i, dr) + Mul(j, dc)
    {
      if j == 0 {
        assert Mul(1, dc) == dc;
      } else if j <= cols {
        assert Mul(j, dc) == Mul(j - 1, dc) + dc;
      } else {
        assert Mul(cols - 1, dc) == Mul(cols - 2, dc) + dc;
        assert Mul(cols, dc) == Mul(cols - 1, dc) + dc;
        assert Mul(cols + 1, dc) == Mul(cols, dc) + dc;
      }
    }
  }

  /** corner2center maps corners sampled from a plane to the centres of that plane. */
  lemma Corner2CenterOfPlane(g: seq<seq<real>>, cols: nat, a: real, dr: real, dc: real)
    requires IsPlane(g, cols, a, dr, dc) && |g| >= 2 && cols >= 2
    ensures Corner2Center(Rank2(g, cols)).Ok?
    ensures var c := Corner2Center(Rank2(g, cols)).value;
      c.Rank2? && c.cols == cols - 1 && |c.rows| == |g| - 1 &&
      IsPlane(c.rows, cols - 1, a + (dr + dc) / 2.0, dr, dc)
  {
    CellMeansOfPlane(g, cols, a, dr, dc);
  }

  /** center2corner maps centres sampled from a plane to the corners of that plane. */
  lemma Center2CornerOfPlane(g: seq<seq<real>>, cols: nat, a: real, dr: real, dc: real)
    requires IsPlane(g, cols, a, dr, dc) && |g| >= 3 && cols >= 3
    ensures Center2Corner(Rank2(g, cols)).Ok?
    ensures var c := Center2Corner(Rank2(g, cols)).value;
      c.Rank2? && c.cols == cols + 1 && |c.rows| == |g| + 1 &&
      IsPlane(c.rows, cols + 1, a - (dr + dc) / 2.0, dr, dc)
  {
    var inner := CellMeans(g, cols);
    CellMeansOfPlane(g, cols, a, dr, dc);
    var a1 := a + (dr + dc) / 2.0;
    ExtendRowsOfPlane(inner, cols - 1, a1, dr, dc);
    ExtendColsOfPlane(ExtendRows(inner, cols - 1), cols - 1, a1 - dr, dr, dc);
    assert a1 - dr - dc == a - (dr + dc) / 2.0;
  }

  /** On planar data, center2corner is an exact inverse of corner2center:
      averaging the reconstructed corners gives back the centres. */
  lemma CornersOfPlaneRoundTrip(g: seq<seq<real>>, cols: nat, a: real, dr: real, dc: real)
    requires IsPlane(g, cols, a, dr, dc) && |g| >= 3 && cols >= 3
    ensures Center2Corner(Rank2(g, cols)).Ok?
    ensures Corner2Center(Center2Corner(Rank2(g, cols)).value) == Ok(Rank2(g, cols))
  {
    Center2CornerOfPlane(g, cols, a, dr, dc);
    CentresFromPlaneCorners(Center2Corner(Rank2(g, cols)).value, g, cols, a, dr, dc);
  }

  /** Corners sampled from a plane, half a cell before the centres `g` of the
      same plane, average back to exactly `g`. */
  lemma CentresFromPlaneCorners(c: NdArray, g: seq<seq<real>>, cols: nat, a: real, dr: real, dc: real)
    requires IsPlane(g, cols, a, dr, dc) && |g| >= 3 && cols >= 3
    requires c.Rank2? && c.cols == cols + 1 && |c.rows| == |g| + 1
    requires IsPlane(c.rows, cols + 1, a - (dr + dc) / 2.0, dr, dc)
    ensures Corner2Center(c) == Ok(Rank2(g, cols))
  {
    Corner2CenterOfPlane(c.rows, cols + 1, a - (dr + dc) / 2.0, dr, dc);
    var back := Corner2Center(c).value;
    assert a - (dr + dc) / 2.0 + (dr + dc) / 2.0 == a;
    PlaneDeterminesMatrix(back.rows, g, cols, a, dr, dc);
  }

  /** On planar data, corner2center followed by center2corner gives back the
      corners (the lossy reconstruction is exact there). */
  lemma CentresOfPlaneRoundTrip(g: seq<seq<real>>, cols: nat, a: real, dr: real, dc: real)
    requires IsPlane(g, cols, a, dr, dc) && |g| >= 4 && cols >= 4
    ensures Corner2Center(Rank2(g, cols)).Ok?
    ensures Center2Corner(Corner2Center(Rank2(g, cols)).value) == Ok(Rank2(g, cols))
  {
    Corner2CenterOfPlane(g, cols, a, dr, dc);
    var c := Corner2Center(Rank2(g, cols)).value;
    Center2CornerOfPlane(c.rows, cols - 1, a + (dr + dc) / 2.0, dr, dc);
    var back := Center2Corner(c).value;
    assert a + (dr + dc) / 2.0 - (dr + dc) / 2.0 == a;
    PlaneDeterminesMatrix(back.rows, g, cols, a, dr, dc);
  }
}
