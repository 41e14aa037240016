/** Finite sums, vectors and matrices over the reals.

    numpy's `einsum` contractions in the converter are finite sums of products; this module
    defines those sums once, together with the matrix algebra (products, transposes,
    identities) that the round-trip proofs are carried out in. */
module LinAlg {

  type Vec = seq<real>
  type Mat = seq<seq<real>>

  /** s[0] + s[1] + ... + s[|s| - 1] */
  function Sum(s: seq<real>): real
  {
    if |s| == 0 then 0.0 else s[0] + Sum(s[1..])
  }

  /** m has `rows` rows, each of length `cols`. */
  predicate IsMat(m: Mat, rows: nat, cols: nat)
  {
    |m| == rows && forall i :: 0 <= i < rows ==> |m[i]| == cols
  }

  /** The pointwise products u[i] * v[i]. */
  function Products(u: Vec, v: Vec): Vec
    requires |u| == |v|
  {
    seq(|u|, i requires 0 <= i < |u| => u[i] * v[i])
  }

  function Dot(u: Vec, v: Vec): real
    requires |u| == |v|
  {
    Sum(Products(u, v))
  }

  /** Column j of m. */
  function Col(m: Mat, j: nat): Vec
    requires forall i :: 0 <= i < |m| ==> j < |m[i]|
  {
    seq(|m|, i requires 0 <= i < |m| => m[i][j])
  }

  function Transpose(m: Mat, cols: nat): Mat
    requires IsMat(m, |m|, cols)
  {
    seq(cols, j requires 0 <= j < cols => Col(m, j))
  }

  /** The matrix-vector product a v. */
  function MatVec(a: Mat, v: Vec): Vec
    requires IsMat(a, |a|, |v|)
  {
    seq(|a|, i requires 0 <= i < |a| => Dot(a[i], v))
  }

  /** The row-vector-matrix product u b, for b with `cols` columns. */
  function VecMat(u: Vec, b: Mat, cols: nat): Vec
    requires IsMat(b, |u|, cols)
  {
    seq(cols, k requires 0 <= k < cols => Dot(u, Col(b, k)))
  }

  /** The matrix product a b, for b with `cols` columns. */
  function Mul(a: Mat, b: Mat, cols: nat): Mat
    requires IsMat(a, |a|, |b|) && IsMat(b, |b|, cols)
  {
    seq(|a|, i requires 0 <= i < |a| => VecMat(a[i], b, cols))
  }

  function Identity(n: nat): Mat
  {
    seq(n, i requires 0 <= i < n => seq(n, j requires 0 <= j < n => if i == j then 1.0 else 0.0))
  }

  // ---------------------------------------------------------------------------------------
  // Sums

  lemma {:induction false} SumScale(s: seq<real>, t: seq<real>, c: real)
    requires |s| == |t|
    requires forall i :: 0 <= i < |s| ==> t[i] == c * s[i]
    ensures Sum(t) == c * Sum(s)
  {
    if |s| > 0 {
      SumScale(s[1..], t[1..], c);
    }
  }

  lemma {:induction false} SumAdd(s: seq<real>, t: seq<real>, u: seq<real>)
    requires |s| == |t| == |u|
    requires forall i :: 0 <= i < |s| ==> u[i] == s[i] + t[i]
    ensures Sum(u) == Sum(s) + Sum(t)
  {
    if |s| > 0 {
      SumAdd(s[1..], t[1..], u[1..]);
    }
  }

  lemma {:induction false} SumZero(s: seq<real>)
    requires forall i :: 0 <= i < |s| ==> s[i] == 0.0
    ensures Sum(s) == 0.0
  {
    if |s| > 0 {
      SumZero(s[1..]);
    }
  }

  /** A sum with a single non-zero term is that term. */
  lemma {:induction false} SumSingle(s: seq<real>, k: nat)
    requires k < |s|
    requires forall i :: 0 <= i < |s| && i != k ==> s[i] == 0.0
    ensures Sum(s) == s[k]
  {
    if k == 0 {
      SumZero(s[1..]);
    } else {
      SumSingle(s[1..], k - 1);
    }
  }

  function RowSums(x: Mat): Vec
  {
    seq(|x|, i requires 0 <= i < |x| => Sum(x[i]))
  }

  function ColSums(x: Mat, cols: nat): Vec
    requires IsMat(x, |x|, cols)
  {
    seq(cols, j requires 0 <= j < cols => Sum(Col(x, j)))
  }

  /** Summing a matrix row by row or column by column gives the same total. */
  lemma {:induction false} SumSwap(x: Mat, rows: nat, cols: nat)
    requires IsMat(x, rows, cols)
    ensures Sum(RowSums(x)) == Sum(ColSums(x, cols))
  {
    if rows == 0 {
      SumZero(ColSums(x, cols));
    } else {
      var rest := x[1..];
      SumSwap(rest, rows - 1, cols);
      assert RowSums(x)[1..] == RowSums(rest);
      forall j | 0 <= j < cols
        ensures ColSums(x, cols)[j] == x[0][j] + ColSums(rest, cols)[j]
      {
        assert Col(x, j)[1..] == Col(rest, j);
      }
      SumAdd(x[0], ColSums(rest, cols), ColSums(x, cols));
    }
  }

  // ---------------------------------------------------------------------------------------
  // Bilinear forms and associativity

  /** The matrix of terms u[i] * x[i][j] * w[j]. */
  function Terms(u: Vec, x: Mat, w: Vec): (y: Mat)
    requires IsMat(x, |u|, |w|)
    ensures IsMat(y, |u|, |w|)
  {
    seq(|u|, i requires 0 <= i < |u| => seq(|w|, j requires 0 <= j < |w| => u[i] * x[i][j] * w[j]))
  }

  /** The double sum over i and j of u[i] * x[i][j] * w[j]: the shape of the contractions
      'aij, ijkl, bkl -> ab' and 'ajk, ab, bmn -> jkmn'. */
  function BilinearSum(u: Vec, x: Mat, w: Vec): real
    requires IsMat(x, |u|, |w|)
  {
    Sum(RowSums(Terms(u, x, w)))
  }

  lemma TermsRowSums(u: Vec, x: Mat, w: Vec)
    requires IsMat(x, |u|, |w|)
    ensures RowSums(Terms(u, x, w)) == Products(u, MatVec(x, w))
  {
    var y := Terms(u, x, w);
    forall i | 0 <= i < |u|
      ensures Sum(y[i]) == u[i] * MatVec(x, w)[i]
    {
      SumScale(Products(x[i], w), y[i], u[i]);
    }
    assert |RowSums(y)| == |Products(u, MatVec(x, w))|;
    assert forall i :: 0 <= i < |u| ==> RowSums(y)[i] == Products(u, MatVec(x, w))[i];
  }

  lemma TermsColSums(u: Vec, x: Mat, w: Vec)
    requires IsMat(x, |u|, |w|)
    ensures ColSums(Terms(u, x, w), |w|) == Products(VecMat(u, x, |w|), w)
  {
    var y := Terms(u, x, w);
    forall j | 0 <= j < |w|
      ensures Sum(Col(y, j)) == VecMat(u, x, |w|)[j] * w[j]
    {
      SumScale(Products(u, Col(x, j)), Col(y, j), w[j]);
    }
    assert |ColSums(y, |w|)| == |Products(VecMat(u, x, |w|), w)|;
    assert forall j :: 0 <= j < |w| ==> ColSums(y, |w|)[j] == Products(VecMat(u, x, |w|), w)[j];
  }

  /** u (x w) == (u x) w, and both equal the double sum over u[i] x[i][j] w[j]. */
  lemma Bilinear(u: Vec, x: Mat, w: Vec)
    requires IsMat(x, |u|, |w|)
    ensures BilinearSum(u, x, w) == Dot(u, MatVec(x, w))
    ensures Dot(u, MatVec(x, w)) == Dot(VecMat(u, x, |w|), w)
  {
    var y := Terms(u, x, w);
    TermsRowSums(u, x, w);
    TermsColSums(u, x, w);
    SumSwap(y, |u|, |w|);
  }

  lemma MulAssoc(a: Mat, b: Mat, c: Mat, n: nat, m: nat, p: nat, q: nat)
    requires IsMat(a, n, m) && IsMat(b, m, p) && IsMat(c, p, q)
    ensures IsMat(Mul(a, b, p), n, p) && IsMat(Mul(b, c, q), m, q)
    ensures Mul(Mul(a, b, p), c, q) == Mul(a, Mul(b, c, q), q)
  {
    var ab, bc := Mul(a, b, p), Mul(b, c, q);
    forall i | 0 <= i < n
      ensures Mul(ab, c, q)[i] == Mul(a, bc, q)[i]
    {
      forall l | 0 <= l < q
        ensures Mul(ab, c, q)[i][l] == Mul(a, bc, q)[i][l]
      {
        Bilinear(a[i], b, Col(c, l));
        assert MatVec(b, Col(c, l)) == Col(bc, l);
      }
    }
  }

  lemma MatVecAssoc(a: Mat, b: Mat, v: Vec, n: nat, m: nat)
    requires IsMat(a, n, m) && IsMat(b, m, |v|)
    ensures IsMat(Mul(a, b, |v|), n, |v|)
    ensures MatVec(a, MatVec(b, v)) == MatVec(Mul(a, b, |v|), v)
  {
    forall i | 0 <= i < n
      ensures MatVec(a, MatVec(b, v))[i] == MatVec(Mul(a, b, |v|), v)[i]
    {
      Bilinear(a[i], b, v);
    }
  }

  // ---------------------------------------------------------------------------------------
  // Identities

  lemma DotUnit(n: nat, k: nat, v: Vec)
    requires k < n == |v|
    ensures Dot(Identity(n)[k], v) == v[k]
  {
    var s := Products(Identity(n)[k], v);
    forall i | 0 <= i < n && i != k
      ensures s[i] == 0.0
    {
      assert Identity(n)[k][i] == 0.0;
    }
    SumSingle(s, k);
  }

  lemma MatVecIdentity(v: Vec)
    ensures MatVec(Identity(|v|), v) == v
  {
    forall k | 0 <= k < |v|
      ensures MatVec(Identity(|v|), v)[k] == v[k]
    {
      DotUnit(|v|, k, v);
    }
  }

  lemma MulIdentityLeft(m: Mat, rows: nat, cols: nat)
    requires IsMat(m, rows, cols)
    ensures Mul(Identity(rows), m, cols) == m
  {
    forall i | 0 <= i < rows
      ensures Mul(Identity(rows), m, cols)[i] == m[i]
    {
      forall j | 0 <= j < cols
        ensures Mul(Identity(rows), m, cols)[i][j] == m[i][j]
      {
        DotUnit(rows, i, Col(m, j));
      }
    }
  }

  lemma MulIdentityRight(m: Mat, rows: nat, cols: nat)
    requires IsMat(m, rows, cols)
    ensures Mul(m, Identity(cols), cols) == m
  {
    forall i | 0 <= i < rows
      ensures Mul(m, Identity(cols), cols)[i] == m[i]
    {
      forall j | 0 <= j < cols
        ensures Mul(m, Identity(cols), cols)[i][j] == m[i][j]
      {
        var s := Products(m[i], Col(Identity(cols), j));
        forall k | 0 <= k < cols && k != j
          ensures s[k] == 0.0
        {
          assert Identity(cols)[k][j] == 0.0;
        }
        SumSingle(s, j);
      }
    }
  }

  // ---------------------------------------------------------------------------------------
  // Transposes

  lemma DotComm(u: Vec, v: Vec)
    requires |u| == |v|
    ensures Dot(u, v) == Dot(v, u)
  {
    assert Products(u, v) == Products(v, u);
  }

  /** The columns of a transpose are the rows of the original. */
  lemma TransposeCols(m: Mat, rows: nat, cols: nat)
    requires IsMat(m, rows, cols)
    ensures IsMat(Transpose(m, cols), cols, rows)
    ensures forall k :: 0 <= k < rows ==> Col(Transpose(m, cols), k) == m[k]
  {
    forall k | 0 <= k < rows
      ensures Col(Transpose(m, cols), k) == m[k]
    {
      assert |Col(Transpose(m, cols), k)| == |m[k]|;
    }
  }

  // ---------------------------------------------------------------------------------------
  // Row-major reshaping

  /** The row-major concatenation of the rows of m. */
  function Flatten(m: Mat): (d: seq<real>)
  {
    if |m| == 0 then [] else m[0] + Flatten(m[1..])
  }

  lemma RowsTimesCols(rows: nat, cols: nat)
    requires rows > 0
    ensures rows * cols == cols + (rows - 1) * cols
  {
  }

  /** d cut into `rows` consecutive rows of length `cols`. */
  function Chunks(d: seq<real>, rows: nat, cols: nat): (m: Mat)
    requires |d| == rows * cols
    ensures IsMat(m, rows, cols)
    decreases rows
  {
    if rows == 0 then []
    else
      RowsTimesCols(rows, cols);
      [d[..cols]] + Chunks(d[cols..], rows - 1, cols)
  }

  lemma {:induction false} FlattenLength(m: Mat, rows: nat, cols: nat)
    requires IsMat(m, rows, cols)
    ensures |Flatten(m)| == rows * cols
  {
    if rows > 0 {
      FlattenLength(m[1..], rows - 1, cols);
      RowsTimesCols(rows, cols);
    }
  }

  lemma {:induction false} ChunksFlatten(m: Mat, rows: nat, cols: nat)
    requires IsMat(m, rows, cols)
    ensures |Flatten(m)| == rows * cols
    ensures Chunks(Flatten(m), rows, cols) == m
  {
    FlattenLength(m, rows, cols);
    if rows > 0 {
      var d := Flatten(m);
      ChunksFlatten(m[1..], rows - 1, cols);
      assert d[..cols] == m[0] && d[cols..] == Flatten(m[1..]);
      assert m == [m[0]] + m[1..];
    }
  }

  lemma {:induction false} FlattenChunks(d: seq<real>, rows: nat, cols: nat)
    requires |d| == rows * cols
    ensures Flatten(Chunks(d, rows, cols)) == d
    decreases rows
  {
    if rows > 0 {
      RowsTimesCols(rows, cols);
      var m := Chunks(d, rows, cols);
      FlattenChunks(d[cols..], rows - 1, cols);
      assert m[0] == d[..cols] && m[1..] == Chunks(d[cols..], rows - 1, cols);
      assert d[..cols] + d[cols..] == d;
    }
  }
}
