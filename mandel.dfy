/** The contractions between tensors and their Mandel representations, and the
    Mandel6 <-> Mandel9 pad and truncation.

    A second-order tensor t is its flattened 9-vector (t[3 * i + j] == t_ij), a fourth-order
    tensor T its 9 x 9 matrix (T[3 * i + j][3 * k + l] == T_ijkl), and a basis b a K x 9
    matrix (K = 6 or 9) whose row a is the flattened dyad B_a. */
module Mandel {
  import opened LinAlg
  import opened Basis

  predicate IsBasis(b: Mat)
  {
    IsMat(b, |b|, 9)
  }

  /** B_a : B_c == delta_ac */
  predicate Orthonormal(b: Mat)
  {
    IsBasis(b) &&
    forall a, c :: 0 <= a < |b| && 0 <= c < |b| ==> Dot(b[a], b[c]) == if a == c then 1.0 else 0.0
  }

  // ---------------------------------------------------------------------------------------
  // The four contractions

  /** tensor2_to_mandel, 'aij, ij -> a': v[a] == sum_ij B[a, i, j] t[i, j]. */
  function ToMandel2(t: Vec, b: Mat): (v: Vec)
    requires |t| == 9 && IsBasis(b)
    ensures |v| == |b|
    ensures forall a :: 0 <= a < |b| ==> v[a] == Dot(b[a], t)
  {
    MatVec(b, t)
  }

  /** tensor4_to_mandel, 'aij, ijkl, bkl -> ab': m[a][c] == sum_ijkl B[a, i, j] T[i, j, k, l] B[c, k, l]. */
  function ToMandel4(t: Mat, b: Mat): (m: Mat)
    requires IsMat(t, 9, 9) && IsBasis(b)
    ensures IsMat(m, |b|, |b|)
    ensures forall a, c :: 0 <= a < |b| && 0 <= c < |b| ==> m[a][c] == Dot(b[a], MatVec(t, b[c]))
  {
    ToMandel4Entries(t, b);
    seq(|b|, a requires 0 <= a < |b| =>
      seq(|b|, c requires 0 <= c < |b| => BilinearSum(b[a], t, b[c])))
  }

  /** mandel_2_to_tensor, 'ajk, a -> jk': t[j, k] == sum_a B[a, j, k] v[a]. */
  function FromMandel2(v: Vec, b: Mat): (t: Vec)
    requires IsBasis(b) && |v| == |b|
    ensures |t| == 9
    ensures forall p :: 0 <= p < 9 ==> t[p] == Dot(Col(b, p), v)
  {
    MatVec(Transpose(b, 9), v)
  }

  /** mandel_4_to_tensor, 'ajk, ab, bmn -> jkmn': T[j, k, m, n] == sum_ac B[a, j, k] m[a][c] B[c, m, n]. */
  function FromMandel4(m: Mat, b: Mat): (t: Mat)
    requires IsBasis(b) && IsMat(m, |b|, |b|)
    ensures IsMat(t, 9, 9)
    ensures forall p, q :: 0 <= p < 9 && 0 <= q < 9 ==> t[p][q] == Dot(Col(b, p), MatVec(m, Col(b, q)))
  {
    FromMandel4Entries(m, b);
    seq(9, p requires 0 <= p < 9 =>
      seq(9, q requires 0 <= q < 9 => BilinearSum(Col(b, p), m, Col(b, q))))
  }

  /** Each double sum of tensor4_to_mandel is a basis dyad against T applied to another. */
  lemma ToMandel4Entries(t: Mat, b: Mat)
    requires IsMat(t, 9, 9) && IsBasis(b)
    ensures forall a, c :: 0 <= a < |b| && 0 <= c < |b| ==> BilinearSum(b[a], t, b[c]) == Dot(b[a], MatVec(t, b[c]))
  {
    forall a, c | 0 <= a < |b| && 0 <= c < |b|
      ensures BilinearSum(b[a], t, b[c]) == Dot(b[a], MatVec(t, b[c]))
    {
      Bilinear(b[a], t, b[c]);
    }
  }

  /** Each double sum of mandel_4_to_tensor is a basis column against m applied to another. */
  lemma FromMandel4Entries(m: Mat, b: Mat)
    requires IsBasis(b) && IsMat(m, |b|, |b|)
    ensures forall p, q :: 0 <= p < 9 && 0 <= q < 9 ==>
      BilinearSum(Col(b, p), m, Col(b, q)) == Dot(Col(b, p), MatVec(m, Col(b, q)))
  {
    forall p, q | 0 <= p < 9 && 0 <= q < 9
      ensures BilinearSum(Col(b, p), m, Col(b, q)) == Dot(Col(b, p), MatVec(m, Col(b, q)))
    {
      Bilinear(Col(b, p), m, Col(b, q));
    }
  }

  // ---------------------------------------------------------------------------------------
  // The contractions as matrix products

  /** The row Gram matrix b b^T. */
  function RowGram(b: Mat): (g: Mat)
    requires IsBasis(b)
  {
    Mul(b, Transpose(b, 9), |b|)
  }

  /** The column Gram matrix b^T b: entry (p, q) is sum_a B[a][p] B[a][q]. */
  function ColGram(b: Mat): (g: Mat)
    requires IsBasis(b)
  {
    Mul(Transpose(b, 9), b, 9)
  }

  lemma RowGramOrthonormal(b: Mat)
    requires Orthonormal(b)
    ensures RowGram(b) == Identity(|b|)
  {
    TransposeCols(b, |b|, 9);
    forall a | 0 <= a < |b|
      ensures RowGram(b)[a] == Identity(|b|)[a]
    {
      forall c | 0 <= c < |b|
        ensures RowGram(b)[a][c] == Identity(|b|)[a][c]
      {
        assert RowGram(b)[a][c] == Dot(b[a], b[c]);
      }
    }
  }

  lemma ColGramEntries(b: Mat)
    requires IsBasis(b)
    ensures IsMat(ColGram(b), 9, 9)
    ensures forall p, q :: 0 <= p < 9 && 0 <= q < 9 ==> ColGram(b)[p][q] == Dot(Col(b, p), Col(b, q))
  {
    TransposeCols(b, |b|, 9);
  }

  lemma ToMandel4Product(t: Mat, b: Mat)
    requires IsMat(t, 9, 9) && IsBasis(b)
    ensures IsMat(Mul(b, t, 9), |b|, 9)
    ensures ToMandel4(t, b) == Mul(Mul(b, t, 9), Transpose(b, 9), |b|)
  {
    var bt, r := Mul(b, t, 9), Mul(Mul(b, t, 9), Transpose(b, 9), |b|);
    TransposeCols(b, |b|, 9);
    forall a | 0 <= a < |b|
      ensures ToMandel4(t, b)[a] == r[a]
    {
      forall c | 0 <= c < |b|
        ensures ToMandel4(t, b)[a][c] == r[a][c]
      {
        assert r[a][c] == Dot(bt[a], b[c]);
        Bilinear(b[a], t, b[c]);
      }
    }
  }

  lemma FromMandel4Product(m: Mat, b: Mat)
    requires IsBasis(b) && IsMat(m, |b|, |b|)
    ensures IsMat(Mul(Transpose(b, 9), m, |b|), 9, |b|)
    ensures FromMandel4(m, b) == Mul(Mul(Transpose(b, 9), m, |b|), b, 9)
  {
    var bT := Transpose(b, 9);
    var btm, r := Mul(bT, m, |b|), Mul(Mul(bT, m, |b|), b, 9);
    TransposeCols(b, |b|, 9);
    forall p | 0 <= p < 9
      ensures FromMandel4(m, b)[p] == r[p]
    {
      forall q | 0 <= q < 9
        ensures FromMandel4(m, b)[p][q] == r[p][q]
      {
        assert r[p][q] == Dot(btm[p], Col(b, q));
        Bilinear(Col(b, p), m, Col(b, q));
      }
    }
  }

  // ---------------------------------------------------------------------------------------
  // Round trips for any orthonormal basis

  /** Expanding a Mandel vector and projecting it back gives the vector. */
  lemma {:induction false} Mandel2RoundTrip(v: Vec, b: Mat)
    requires Orthonormal(b) && |v| == |b|
    ensures ToMandel2(FromMandel2(v, b), b) == v
  {
    var bT := Transpose(b, 9);
    TransposeCols(b, |b|, 9);
    MatVecAssoc(b, bT, v, |b|, 9);
    RowGramOrthonormal(b);
    MatVecIdentity(v);
  }

  /** Projecting a tensor and expanding it again applies the column Gram matrix. */
  lemma {:induction false} Tensor2RoundTrip(t: Vec, b: Mat)
    requires IsBasis(b) && |t| == 9
    ensures FromMandel2(ToMandel2(t, b), b) == MatVec(ColGram(b), t)
  {
    TransposeCols(b, |b|, 9);
    MatVecAssoc(Transpose(b, 9), b, t, 9, |b|);
  }

  /** Expanding a Mandel matrix and projecting it back gives the matrix. */
  lemma {:induction false} Mandel4RoundTrip(m: Mat, b: Mat)
    requires Orthonormal(b) && IsMat(m, |b|, |b|)
    ensures ToMandel4(FromMandel4(m, b), b) == m
  {
    var k := |b|;
    var bT := Transpose(b, 9);
    TransposeCols(b, k, 9);
    var x := FromMandel4(m, b);
    FromMandel4Product(m, b);
    ToMandel4Product(x, b);
    var btm := Mul(bT, m, k);
    var i := Identity(k);
    RowGramOrthonormal(b);
    // b ((b^T m) b) == (b (b^T m)) b == ((b b^T) m) b == m b
    MulAssoc(b, btm, b, k, 9, k, 9);
    MulAssoc(b, bT, m, k, 9, k, k);
    MulIdentityLeft(m, k, k);
    // (m b) b^T == m (b b^T) == m
    MulAssoc(m, b, bT, k, k, 9, k);
    MulIdentityRight(m, k, k);
  }

  /** Projecting a fourth-order tensor and expanding it again gives G T G, G the column Gram matrix. */
  lemma {:induction false} Tensor4RoundTrip(t: Mat, b: Mat)
    requires IsBasis(b) && IsMat(t, 9, 9)
    ensures IsMat(ColGram(b), 9, 9)
    ensures FromMandel4(ToMandel4(t, b), b) == Mul(Mul(ColGram(b), t, 9), ColGram(b), 9)
  {
    var k := |b|;
    var bT := Transpose(b, 9);
    TransposeCols(b, k, 9);
    var m := ToMandel4(t, b);
    ToMandel4Product(t, b);
    FromMandel4Product(m, b);
    var bt := Mul(b, t, 9);
    var g := ColGram(b);
    // b^T ((b t) b^T) == (b^T (b t)) b^T == ((b^T b) t) b^T
    MulAssoc(bT, bt, bT, 9, k, 9, k);
    MulAssoc(bT, b, t, 9, k, 9, 9);
    // ((g t) b^T) b == (g t) (b^T b)
    MulAssoc(Mul(g, t, 9), bT, b, 9, 9, k, 9);
  }

  // ---------------------------------------------------------------------------------------
  // The two concrete bases

  lemma Base6IsOrthonormal(f: real)
    requires IsFactor(f)
    ensures Orthonormal(Base6(f))
  {
    Base9Shape(f);
    Base6Orthonormal(f);
  }

  lemma Base9IsOrthonormal(f: real)
    requires IsFactor(f)
    ensures Orthonormal(Base9(f))
  {
    Base9Shape(f);
    Base9Orthonormal(f);
  }

  lemma Base9ColGram(f: real)
    requires IsFactor(f)
    ensures ColGram(Base9(f)) == Identity(9)
  {
    Base9Shape(f);
    ColGramEntries(Base9(f));
    Base9Complete(f);
    forall p | 0 <= p < 9
      ensures ColGram(Base9(f))[p] == Identity(9)[p]
    {
    }
  }

  lemma Base6ColGram(f: real)
    requires IsFactor(f)
    ensures ColGram(Base6(f)) == SymProjector()
  {
    Base9Shape(f);
    ColGramEntries(Base6(f));
    Base6ColumnGram(f);
    SymProjectorEntries();
    forall p | 0 <= p < 9
      ensures ColGram(Base6(f))[p] == SymProjector()[p]
    {
    }
  }

  // ---------------------------------------------------------------------------------------
  // Symmetry and the symmetric projector

  /** t_ij == t_ji; Swap(3 * i + j) == 3 * j + i (SwapTransposes). */
  predicate Symmetric2(t: Vec)
    requires |t| == 9
  {
    forall p :: 0 <= p < 9 ==> t[Swap(p)] == t[p]
  }

  /** Both minor symmetries: T_ijkl == T_jikl == T_ijlk. */
  predicate MinorSymmetric(t: Mat)
    requires IsMat(t, 9, 9)
  {
    forall p, q :: 0 <= p < 9 && 0 <= q < 9 ==> t[Swap(p)][q] == t[p][q] && t[p][Swap(q)] == t[p][q]
  }

  /** (S x)[p] == (x[p] + x[p^T]) / 2 */
  lemma SymApply(x: Vec)
    requires |x| == 9
    ensures |MatVec(SymProjector(), x)| == 9
    ensures forall p :: 0 <= p < 9 ==> MatVec(SymProjector(), x)[p] == (x[p] + x[Swap(p)]) / 2.0
  {
    var s := SymProjector();
    forall p | 0 <= p < 9
      ensures MatVec(s, x)[p] == (x[p] + x[Swap(p)]) / 2.0
    {
      Dot9(s[p], x);
      if p == 0 {} else if p == 1 {} else if p == 2 {} else if p == 3 {} else if p == 4 {}
      else if p == 5 {} else if p == 6 {} else if p == 7 {} else {}
    }
  }

  lemma SymProjectorColumns()
    ensures forall q :: 0 <= q < 9 ==> Col(SymProjector(), q) == SymProjector()[q]
  {
    var s := SymProjector();
    forall q | 0 <= q < 9
      ensures Col(s, q) == s[q]
    {
      if q == 0 {} else if q == 1 {} else if q == 2 {} else if q == 3 {} else if q == 4 {}
      else if q == 5 {} else if q == 6 {} else if q == 7 {} else {}
    }
  }

  /** (S t)[p][q] == (t[p][q] + t[p^T][q]) / 2: S averages each column with its transpose. */
  lemma SymMulLeft(t: Mat)
    requires IsMat(t, 9, 9)
    ensures IsMat(Mul(SymProjector(), t, 9), 9, 9)
    ensures forall p, q :: 0 <= p < 9 && 0 <= q < 9 ==>
      Mul(SymProjector(), t, 9)[p][q] == (t[p][q] + t[Swap(p)][q]) / 2.0
  {
    var s := SymProjector();
    SymProjectorEntries();
    forall p, q | 0 <= p < 9 && 0 <= q < 9
      ensures Mul(s, t, 9)[p][q] == (t[p][q] + t[Swap(p)][q]) / 2.0
    {
      SymApply(Col(t, q));
      assert Mul(s, t, 9)[p][q] == MatVec(s, Col(t, q))[p];
    }
  }

  /** (t S)[p][q] == (t[p][q] + t[p][q^T]) / 2: S averages each row with its transpose. */
  lemma SymMulRight(t: Mat)
    requires IsMat(t, 9, 9)
    ensures IsMat(Mul(t, SymProjector(), 9), 9, 9)
    ensures forall p, q :: 0 <= p < 9 && 0 <= q < 9 ==>
      Mul(t, SymProjector(), 9)[p][q] == (t[p][q] + t[p][Swap(q)]) / 2.0
  {
    var s := SymProjector();
    SymProjectorEntries();
    SymProjectorColumns();
    forall p, q | 0 <= p < 9 && 0 <= q < 9
      ensures Mul(t, s, 9)[p][q] == (t[p][q] + t[p][Swap(q)]) / 2.0
    {
      SymApply(t[p]);
      DotComm(t[p], s[q]);
      assert Mul(t, s, 9)[p][q] == MatVec(s, t[p])[q];
    }
  }

  /** S t == t exactly for symmetric t. */
  lemma SymFixes2(t: Vec)
    requires |t| == 9
    ensures MatVec(SymProjector(), t) == t <==> Symmetric2(t)
  {
    SymApply(t);
    SwapTransposes();
    if MatVec(SymProjector(), t) == t {
      forall p | 0 <= p < 9
        ensures t[Swap(p)] == t[p]
      {
        assert MatVec(SymProjector(), t)[p] == t[p];
      }
    }
  }

  lemma SymFixesMinorSymmetric(t: Mat)
    requires IsMat(t, 9, 9) && MinorSymmetric(t)
    ensures IsMat(Mul(SymProjector(), t, 9), 9, 9)
    ensures Mul(Mul(SymProjector(), t, 9), SymProjector(), 9) == t
  {
    var s := SymProjector();
    var z := Mul(s, t, 9);
    SymMulLeft(t);
    SymMulRight(z);
    forall p | 0 <= p < 9
      ensures Mul(z, s, 9)[p] == t[p]
    {
      forall q | 0 <= q < 9
        ensures Mul(z, s, 9)[p][q] == t[p][q]
      {
        assert z[p][q] == t[p][q] && z[p][Swap(q)] == t[p][Swap(q)];
      }
    }
  }

  /** T_ijkl == T_jikl */
  predicate RowSymmetric(x: Mat)
    requires IsMat(x, 9, 9)
  {
    forall p, q :: 0 <= p < 9 && 0 <= q < 9 ==> x[Swap(p)][q] == x[p][q]
  }

  /** T_ijkl == T_ijlk */
  predicate ColSymmetric(x: Mat)
    requires IsMat(x, 9, 9)
  {
    forall p, q :: 0 <= p < 9 && 0 <= q < 9 ==> x[p][Swap(q)] == x[p][q]
  }

  lemma SymLeftRowSymmetric(t: Mat)
    requires IsMat(t, 9, 9)
    ensures IsMat(Mul(SymProjector(), t, 9), 9, 9)
    ensures RowSymmetric(Mul(SymProjector(), t, 9))
  {
    SymMulLeft(t);
    SwapTransposes();
  }

  lemma SymRightColSymmetric(t: Mat)
    requires IsMat(t, 9, 9)
    ensures IsMat(Mul(t, SymProjector(), 9), 9, 9)
    ensures ColSymmetric(Mul(t, SymProjector(), 9))
  {
    var x := Mul(t, SymProjector(), 9);
    SymMulRight(t);
    SwapTransposes();
    forall p, q | 0 <= p < 9 && 0 <= q < 9
      ensures x[p][Swap(q)] == x[p][q]
    {
      assert Swap(Swap(q)) == q;
    }
  }

  lemma SymRightKeepsRowSymmetric(z: Mat)
    requires IsMat(z, 9, 9) && RowSymmetric(z)
    ensures IsMat(Mul(z, SymProjector(), 9), 9, 9)
    ensures RowSymmetric(Mul(z, SymProjector(), 9))
  {
    var x := Mul(z, SymProjector(), 9);
    SymMulRight(z);
    SwapTransposes();
    forall p, q | 0 <= p < 9 && 0 <= q < 9
      ensures x[Swap(p)][q] == x[p][q]
    {
      assert z[Swap(p)][q] == z[p][q];
      assert z[Swap(p)][Swap(q)] == z[p][Swap(q)];
    }
  }

  /** S T S always has both minor symmetries. */
  lemma SymMinorSymmetric(t: Mat)
    requires IsMat(t, 9, 9)
    ensures IsMat(Mul(SymProjector(), t, 9), 9, 9)
    ensures IsMat(Mul(Mul(SymProjector(), t, 9), SymProjector(), 9), 9, 9)
    ensures MinorSymmetric(Mul(Mul(SymProjector(), t, 9), SymProjector(), 9))
  {
    var z := Mul(SymProjector(), t, 9);
    SymLeftRowSymmetric(t);
    SymRightKeepsRowSymmetric(z);
    SymRightColSymmetric(z);
  }

  /** S T S == T exactly for T with both minor symmetries. */
  lemma SymFixes4(t: Mat)
    requires IsMat(t, 9, 9)
    ensures IsMat(Mul(SymProjector(), t, 9), 9, 9)
    ensures Mul(Mul(SymProjector(), t, 9), SymProjector(), 9) == t <==> MinorSymmetric(t)
  {
    SymMinorSymmetric(t);
    if MinorSymmetric(t) {
      SymFixesMinorSymmetric(t);
    }
  }

  // ---------------------------------------------------------------------------------------
  // Round trips through the two bases

  /** Through Mandel9 a second-order tensor comes back unchanged. */
  lemma Tensor2RoundTrip9(t: Vec, f: real)
    requires IsFactor(f) && |t| == 9
    ensures FromMandel2(ToMandel2(t, Base9(f)), Base9(f)) == t
  {
    Base9Shape(f);
    Tensor2RoundTrip(t, Base9(f));
    Base9ColGram(f);
    MatVecIdentity(t);
  }

  /** Through Mandel6 a second-order tensor comes back as its symmetric part (t + t^T) / 2,
      which is t exactly when t is symmetric. */
  lemma Tensor2RoundTrip6(t: Vec, f: real)
    requires IsFactor(f) && |t| == 9
    ensures forall p :: 0 <= p < 9 ==>
      FromMandel2(ToMandel2(t, Base6(f)), Base6(f))[p] == (t[p] + t[Swap(p)]) / 2.0
    ensures FromMandel2(ToMandel2(t, Base6(f)), Base6(f)) == t <==> Symmetric2(t)
  {
    Base9Shape(f);
    Tensor2RoundTrip(t, Base6(f));
    Base6ColGram(f);
    SymApply(t);
    SymFixes2(t);
  }

  /** Through Mandel9 a fourth-order tensor comes back unchanged. */
  lemma Tensor4RoundTrip9(t: Mat, f: real)
    requires IsFactor(f) && IsMat(t, 9, 9)
    ensures FromMandel4(ToMandel4(t, Base9(f)), Base9(f)) == t
  {
    Base9Shape(f);
    Tensor4RoundTrip(t, Base9(f));
    Base9ColGram(f);
    MulIdentityLeft(t, 9, 9);
    MulIdentityRight(t, 9, 9);
  }

  /** Through Mandel6 a fourth-order tensor comes back unchanged exactly when it has both
      minor symmetries. */
  lemma Tensor4RoundTrip6(t: Mat, f: real)
    requires IsFactor(f) && IsMat(t, 9, 9)
    ensures FromMandel4(ToMandel4(t, Base6(f)), Base6(f)) == t <==> MinorSymmetric(t)
  {
    Base9Shape(f);
    Tensor4RoundTrip(t, Base6(f));
    Base6ColGram(f);
    SymFixes4(t);
  }

  lemma Mandel2RoundTrip6(v: Vec, f: real)
    requires IsFactor(f) && |v| == 6
    ensures ToMandel2(FromMandel2(v, Base6(f)), Base6(f)) == v
  {
    Base6IsOrthonormal(f);
    Mandel2RoundTrip(v, Base6(f));
  }

  lemma Mandel2RoundTrip9(v: Vec, f: real)
    requires IsFactor(f) && |v| == 9
    ensures ToMandel2(FromMandel2(v, Base9(f)), Base9(f)) == v
  {
    Base9IsOrthonormal(f);
    Mandel2RoundTrip(v, Base9(f));
  }

  lemma Mandel4RoundTrip6(m: Mat, f: real)
    requires IsFactor(f) && IsMat(m, 6, 6)
    ensures ToMandel4(FromMandel4(m, Base6(f)), Base6(f)) == m
  {
    Base6IsOrthonormal(f);
    Mandel4RoundTrip(m, Base6(f));
  }

  lemma Mandel4RoundTrip9(m: Mat, f: real)
    requires IsFactor(f) && IsMat(m, 9, 9)
    ensures ToMandel4(FromMandel4(m, Base9(f)), Base9(f)) == m
  {
    Base9IsOrthonormal(f);
    Mandel4RoundTrip(m, Base9(f));
  }

  // ---------------------------------------------------------------------------------------
  // Mandel6 sees only the symmetric part

  /** The six Mandel6 components of t: the diagonal, then f (t_23 + t_32), f (t_13 + t_31)
      and f (t_12 + t_21); so t and t^T have the same Mandel6 vector. */
  lemma Mandel6Components(t: Vec, f: real)
    requires |t| == 9
    ensures ToMandel2(t, Base6(f)) ==
      [t[0], t[4], t[8], f * (t[5] + t[7]), f * (t[2] + t[6]), f * (t[1] + t[3])]
  {
    var b := Base6(f);
    Base9Shape(f);
    forall a | 0 <= a < 6
      ensures ToMandel2(t, b)[a] == [t[0], t[4], t[8], f * (t[5] + t[7]), f * (t[2] + t[6]), f * (t[1] + t[3])][a]
    {
      Dot9(b[a], t);
      if a == 0 {} else if a == 1 {} else if a == 2 {} else if a == 3 {} else if a == 4 {} else {}
    }
  }

  /** The symmetric tensor [[1, 6, 5], [6, 2, 4], [5, 4, 3]] has the Mandel6 vector
      [1, 2, 3, 4 sqrt 2, 5 sqrt 2, 6 sqrt 2] (sqrt 2 == 2 f). */
  lemma Mandel6SymmetricExample(f: real)
    ensures ToMandel2([1.0, 6.0, 5.0, 6.0, 2.0, 4.0, 5.0, 4.0, 3.0], Base6(f)) ==
      [1.0, 2.0, 3.0, 4.0 * (2.0 * f), 5.0 * (2.0 * f), 6.0 * (2.0 * f)]
  {
    Mandel6Components([1.0, 6.0, 5.0, 6.0, 2.0, 4.0, 5.0, 4.0, 3.0], f);
  }

  /** The class documentation's example: arange(9).reshape(3, 3) has the Mandel6 vector
      [0, 4, 8, 6 sqrt 2, 4 sqrt 2, 2 sqrt 2]. */
  lemma Mandel6RangeExample(f: real)
    ensures ToMandel2([0.0, 1.0, 2.0, 3.0, 4.0, 5.0, 6.0, 7.0, 8.0], Base6(f)) ==
      [0.0, 4.0, 8.0, 6.0 * (2.0 * f), 4.0 * (2.0 * f), 2.0 * (2.0 * f)]
  {
    Mandel6Components([0.0, 1.0, 2.0, 3.0, 4.0, 5.0, 6.0, 7.0, 8.0], f);
  }

  /** The all-ones 3 x 3 tensor has the Mandel6 vector [1, 1, 1, sqrt 2, sqrt 2, sqrt 2]. */
  lemma Mandel6OnesExample(f: real)
    ensures ToMandel2(seq(9, p => 1.0), Base6(f)) == [1.0, 1.0, 1.0, 2.0 * f, 2.0 * f, 2.0 * f]
  {
    Mandel6Components(seq(9, p => 1.0), f);
  }

  /** The all-ones tensor ones((3, 3, 3, 3)). */
  function Ones4(): (t: Mat)
    ensures IsMat(t, 9, 9) && forall p, q :: 0 <= p < 9 && 0 <= q < 9 ==> t[p][q] == 1.0
  {
    seq(9, p => seq(9, q => 1.0))
  }

  /** The sum of the entries of dyad a of the symmetric basis: 1 for the normal dyads,
      2 f (sqrt 2) for the shear ones. */
  function DyadTotal(f: real, a: nat): real
  {
    if a < 3 then 1.0 else 2.0 * f
  }

  lemma DyadTotalOf(f: real, a: nat)
    requires a < 6
    ensures Dot(Base6(f)[a], seq(9, p => 1.0)) == DyadTotal(f, a)
  {
    Dot9(Base6(f)[a], seq(9, p => 1.0));
    if a < 3 {} else if a == 3 {} else if a == 4 {} else {}
  }

  /** The all-ones tensor applied to w is the constant vector of w's entry sum. */
  lemma OnesApply(w: Vec)
    requires |w| == 9
    ensures MatVec(Ones4(), w) == seq(9, p => Dot(w, seq(9, p => 1.0)))
  {
    forall p | 0 <= p < 9
      ensures MatVec(Ones4(), w)[p] == Dot(w, seq(9, p => 1.0))
    {
      assert Ones4()[p] == seq(9, p => 1.0);
      DotComm(Ones4()[p], w);
    }
  }

  lemma DotConstant(u: Vec, k: real)
    requires |u| == 9
    ensures Dot(u, seq(9, p => k)) == k * Dot(u, seq(9, p => 1.0))
  {
    Dot9(u, seq(9, p => k));
    Dot9(u, seq(9, p => 1.0));
  }

  /** Entry (a, c) of the reduced matrix of the all-ones tensor is the product of the
      entry sums of dyads a and c. */
  lemma OnesEntry(b: Mat, a: nat, c: nat)
    requires IsBasis(b) && a < |b| && c < |b|
    ensures ToMandel4(Ones4(), b)[a][c] == Dot(b[a], seq(9, p => 1.0)) * Dot(b[c], seq(9, p => 1.0))
  {
    OnesApply(b[c]);
    DotConstant(b[a], Dot(b[c], seq(9, p => 1.0)));
  }

  /** Entry (a, c) of the Mandel6 matrix of the all-ones tensor: 1 in the normal block,
      2 f in the mixed blocks, 2 in the shear block. */
  lemma OnesMandel6At(f: real, a: nat, c: nat)
    requires IsFactor(f) && a < 6 && c < 6
    ensures IsMat(Base6(f), 6, 9)
    ensures ToMandel4(Ones4(), Base6(f))[a][c] ==
      if a < 3 && c < 3 then 1.0 else if a < 3 || c < 3 then 2.0 * f else 2.0
  {
    Base9Shape(f);
    OnesEntry(Base6(f), a, c);
    DyadTotalOf(f, a);
    DyadTotalOf(f, c);
    if 3 <= a && 3 <= c {
      assert 2.0 * f * (2.0 * f) == 2.0;
    }
  }

  /** test_level4_mandel6_tensor, forward: the all-ones fourth-order tensor has the Mandel6
      matrix with 1 in the normal block, sqrt 2 (2 f) in the mixed blocks and 2 in the shear
      block. */
  lemma Mandel6OnesMatrix(f: real)
    requires IsFactor(f)
    ensures ToMandel4(Ones4(), Base6(f)) ==
      [[1.0, 1.0, 1.0, 2.0 * f, 2.0 * f, 2.0 * f],
       [1.0, 1.0, 1.0, 2.0 * f, 2.0 * f, 2.0 * f],
       [1.0, 1.0, 1.0, 2.0 * f, 2.0 * f, 2.0 * f],
       [2.0 * f, 2.0 * f, 2.0 * f, 2.0, 2.0, 2.0],
       [2.0 * f, 2.0 * f, 2.0 * f, 2.0, 2.0, 2.0],
       [2.0 * f, 2.0 * f, 2.0 * f, 2.0, 2.0, 2.0]]
  {
    Base9Shape(f);
    var m := ToMandel4(Ones4(), Base6(f));
    var normal, shear := [1.0, 1.0, 1.0, 2.0 * f, 2.0 * f, 2.0 * f], [2.0 * f, 2.0 * f, 2.0 * f, 2.0, 2.0, 2.0];
    forall a | 0 <= a < 6
      ensures m[a] == if a < 3 then normal else shear
    {
      forall c | 0 <= c < 6
        ensures m[a][c] == (if a < 3 then normal else shear)[c]
      {
        OnesMandel6At(f, a, c);
      }
    }
  }

  /** test_level4_mandel6_tensor, backward: that matrix expands to the all-ones tensor, since
      the all-ones tensor has both minor symmetries. */
  lemma Mandel6OnesExample4(f: real)
    requires IsFactor(f)
    ensures IsMat(Base6(f), 6, 9)
    ensures FromMandel4(
      [[1.0, 1.0, 1.0, 2.0 * f, 2.0 * f, 2.0 * f],
       [1.0, 1.0, 1.0, 2.0 * f, 2.0 * f, 2.0 * f],
       [1.0, 1.0, 1.0, 2.0 * f, 2.0 * f, 2.0 * f],
       [2.0 * f, 2.0 * f, 2.0 * f, 2.0, 2.0, 2.0],
       [2.0 * f, 2.0 * f, 2.0 * f, 2.0, 2.0, 2.0],
       [2.0 * f, 2.0 * f, 2.0 * f, 2.0, 2.0, 2.0]], Base6(f)) == Ones4()
  {
    Base9Shape(f);
    Mandel6OnesMatrix(f);
    assert MinorSymmetric(Ones4());
    Tensor4RoundTrip6(Ones4(), f);
  }

  // ---------------------------------------------------------------------------------------
  // Mandel6 <-> Mandel9

  /** mandel6_2_to_mandel9: the six components, then three zeros. */
  function Pad2(v: Vec): (r: Vec)
    requires |v| == DIM_MANDEL6
    ensures |r| == DIM_MANDEL9
    ensures forall i :: 0 <= i < DIM_MANDEL6 ==> r[i] == v[i]
    ensures forall i :: DIM_MANDEL6 <= i < DIM_MANDEL9 ==> r[i] == 0.0
  {
    seq(DIM_MANDEL9, i requires 0 <= i < DIM_MANDEL9 => if i < DIM_MANDEL6 then v[i] else 0.0)
  }

  /** mandel6_4_to_mandel9: the 6 x 6 matrix in the upper-left block of a zero 9 x 9 matrix. */
  function Pad4(m: Mat): (r: Mat)
    requires IsMat(m, DIM_MANDEL6, DIM_MANDEL6)
    ensures IsMat(r, DIM_MANDEL9, DIM_MANDEL9)
    ensures forall i, j :: 0 <= i < DIM_MANDEL6 && 0 <= j < DIM_MANDEL6 ==> r[i][j] == m[i][j]
    ensures forall i, j :: 0 <= i < DIM_MANDEL9 && 0 <= j < DIM_MANDEL9 && (DIM_MANDEL6 <= i || DIM_MANDEL6 <= j) ==>
      r[i][j] == 0.0
  {
    seq(DIM_MANDEL9, i requires 0 <= i < DIM_MANDEL9 =>
      seq(DIM_MANDEL9, j requires 0 <= j < DIM_MANDEL9 =>
        if i < DIM_MANDEL6 && j < DIM_MANDEL6 then m[i][j] else 0.0))
  }

  /** mandel9_2_to_mandel6: inp[0:6]. */
  function Truncate2(v: Vec): (r: Vec)
    requires |v| == DIM_MANDEL9
    ensures |r| == DIM_MANDEL6
    ensures forall i :: 0 <= i < DIM_MANDEL6 ==> r[i] == v[i]
  {
    v[..DIM_MANDEL6]
  }

  /** mandel9_4_to_mandel6: inp[0:6, 0:6]. */
  function Truncate4(m: Mat): (r: Mat)
    requires IsMat(m, DIM_MANDEL9, DIM_MANDEL9)
    ensures IsMat(r, DIM_MANDEL6, DIM_MANDEL6)
    ensures forall i, j :: 0 <= i < DIM_MANDEL6 && 0 <= j < DIM_MANDEL6 ==> r[i][j] == m[i][j]
  {
    seq(DIM_MANDEL6, i requires 0 <= i < DIM_MANDEL6 => m[i][..DIM_MANDEL6])
  }

  lemma TruncatePad2(v: Vec)
    requires |v| == 6
    ensures Truncate2(Pad2(v)) == v
  {
  }

  lemma TruncatePad4(m: Mat)
    requires IsMat(m, 6, 6)
    ensures Truncate4(Pad4(m)) == m
  {
    forall i | 0 <= i < 6
      ensures Truncate4(Pad4(m))[i] == m[i]
    {
      assert |Truncate4(Pad4(m))[i]| == |m[i]|;
    }
  }

  /** Conversely, a Mandel9 vector whose last three components vanish is the pad of its
      truncation. */
  lemma PadTruncate2(v: Vec)
    requires |v| == 9 && v[6] == v[7] == v[8] == 0.0
    ensures Pad2(Truncate2(v)) == v
  {
    assert forall i :: 0 <= i < 9 ==> Pad2(Truncate2(v))[i] == v[i];
  }

  /** Truncating a Mandel9 vector gives the Mandel6 vector of the same tensor. */
  lemma TruncateMandel9Is6(t: Vec, f: real)
    requires |t| == 9
    ensures Truncate2(ToMandel2(t, Base9(f))) == ToMandel2(t, Base6(f))
  {
    Base9Shape(f);
  }

  lemma Truncate4Mandel9Is6(t: Mat, f: real)
    requires IsMat(t, 9, 9)
    ensures Truncate4(ToMandel4(t, Base9(f))) == ToMandel4(t, Base6(f))
  {
    Base9Shape(f);
    forall a | 0 <= a < 6
      ensures Truncate4(ToMandel4(t, Base9(f)))[a] == ToMandel4(t, Base6(f))[a]
    {
      assert |ToMandel4(t, Base9(f))[a][..6]| == 6;
    }
  }

  /** A padded Mandel6 vector expands through the 9-basis to the same tensor as through
      the 6-basis. */
  lemma PadMandel6Expands(v: Vec, f: real)
    requires |v| == 6
    ensures FromMandel2(Pad2(v), Base9(f)) == FromMandel2(v, Base6(f))
  {
    var b9, b6 := Base9(f), Base6(f);
    Base9Shape(f);
    TransposeCols(b9, 9, 9);
    TransposeCols(b6, 6, 9);
    forall p | 0 <= p < 9
      ensures FromMandel2(Pad2(v), b9)[p] == FromMandel2(v, b6)[p]
    {
      assert Col(b9, p)[..6] == Col(b6, p);
      DotPad(Col(b9, p), v);
    }
  }

  lemma DotPad(u: Vec, x: Vec)
    requires |u| == 9 && |x| == 6
    ensures Dot(u, Pad2(x)) == Dot(u[..6], x)
  {
    Dot9(u, Pad2(x));
    Dot6(u[..6], x);
  }

  lemma MatVecPad4(m: Mat, w: Vec)
    requires IsMat(m, 6, 6) && |w| == 9
    ensures MatVec(Pad4(m), w) == Pad2(MatVec(m, w[..6]))
  {
    forall i | 0 <= i < 9
      ensures MatVec(Pad4(m), w)[i] == Pad2(MatVec(m, w[..6]))[i]
    {
      DotComm(Pad4(m)[i], w);
      if i < 6 {
        assert Pad4(m)[i] == Pad2(m[i]);
        DotPad(w, m[i]);
        DotComm(w[..6], m[i]);
      } else {
        SumZero(Products(Pad4(m)[i], w));
      }
    }
  }

  /** A padded Mandel6 matrix expands through the 9-basis to the same tensor as through
      the 6-basis. */
  lemma PadMandel6Expands4(m: Mat, f: real)
    requires IsMat(m, 6, 6)
    ensures FromMandel4(Pad4(m), Base9(f)) == FromMandel4(m, Base6(f))
  {
    var b9, b6 := Base9(f), Base6(f);
    Base9Shape(f);
    forall p | 0 <= p < 9
      ensures FromMandel4(Pad4(m), b9)[p] == FromMandel4(m, b6)[p]
    {
      forall q | 0 <= q < 9
        ensures FromMandel4(Pad4(m), b9)[p][q] == FromMandel4(m, b6)[p][q]
      {
        assert Col(b9, p)[..6] == Col(b6, p) && Col(b9, q)[..6] == Col(b6, q);
        MatVecPad4(m, Col(b9, q));
        DotPad(Col(b9, p), MatVec(m, Col(b6, q)));
      }
    }
  }

  // ---------------------------------------------------------------------------------------
  // The pads on arrays

  /** The contents of a two-dimensional array, row by row. */
  function Rows(a: array2<real>): (m: Mat)
    reads a
    ensures IsMat(m, a.Length0, a.Length1)
  {
    seq(a.Length0, i requires 0 <= i < a.Length0 reads a =>
      seq(a.Length1, j requires 0 <= j < a.Length1 reads a => a[i, j]))
  }

  /** mandel6_2_to_mandel9: a fresh zero array of nine with inp written into [0:6]. */
  method Mandel6ToMandel9Vector(inp: Vec) returns (out: array<real>)
    requires |inp| == DIM_MANDEL6
    ensures fresh(out)
    ensures out[..] == Pad2(inp)
  {
    out := new real[DIM_MANDEL9](i => 0.0);
    for i := 0 to DIM_MANDEL6
      invariant forall k :: 0 <= k < i ==> out[k] == inp[k]
      invariant forall k :: i <= k < DIM_MANDEL9 ==> out[k] == 0.0
    {
      out[i] := inp[i];
    }
  }

  /** mandel6_4_to_mandel9: a fresh zero 9 x 9 array with inp written into [0:6, 0:6]. */
  method Mandel6ToMandel9Matrix(inp: Mat) returns (out: array2<real>)
    requires IsMat(inp, DIM_MANDEL6, DIM_MANDEL6)
    ensures fresh(out)
    ensures Rows(out) == Pad4(inp)
  {
    out := new real[DIM_MANDEL9, DIM_MANDEL9]((i, j) => 0.0);
    for i := 0 to DIM_MANDEL6
      invariant forall r, c :: 0 <= r < i && 0 <= c < 9 ==> out[r, c] == Pad4(inp)[r][c]
      invariant forall r, c :: i <= r < 9 && 0 <= c < 9 ==> out[r, c] == 0.0
    {
      forall j | 0 <= j < DIM_MANDEL6 {
        out[i, j] := inp[i][j];
      }
    }
    forall r | 0 <= r < 9
      ensures Rows(out)[r] == Pad4(inp)[r]
    {
    }
  }
}
