/** The two fixed dyad bases of the converter: the symmetric Mandel basis B_1 .. B_6
    (get_mandel_base_sym) and its extension by three skew dyads B_7 .. B_9
    (get_mandel_base_skw).

    A dyad B_a is a 3 x 3 array; here it is stored flattened row-major, B_a[i, j] being
    component 3 * i + j, so that a basis of K dyads is a K x 9 matrix whose row a is B_a.
    The builders themselves work on a (K, 3, 3) array, as get_mandel_base_sym and
    get_mandel_base_skw do. */
module Basis {
  import opened LinAlg

  const DIM: nat := 3
  const DIM_MANDEL6: nat := 6
  const DIM_MANDEL9: nat := 9

  /** f stands for sqrt(2) / 2, the only irrational number in the bases. */
  predicate IsFactor(f: real)
  {
    f > 0.0 && f * f == 0.5
  }

  /** The rows B_1 .. B_6 of the class documentation, flattened:
      e1e1, e2e2, e3e3, f(e2e3 + e3e2), f(e1e3 + e3e1), f(e1e2 + e2e1). */
  function Base6(f: real): Mat
  {
    [[1.0, 0.0, 0.0,  0.0, 0.0, 0.0,  0.0, 0.0, 0.0],
     [0.0, 0.0, 0.0,  0.0, 1.0, 0.0,  0.0, 0.0, 0.0],
     [0.0, 0.0, 0.0,  0.0, 0.0, 0.0,  0.0, 0.0, 1.0],
     [0.0, 0.0, 0.0,  0.0, 0.0, f,    0.0, f,   0.0],
     [0.0, 0.0, f,    0.0, 0.0, 0.0,  f,   0.0, 0.0],
     [0.0, f,   0.0,  f,   0.0, 0.0,  0.0, 0.0, 0.0]]
  }

  /** B_1 .. B_6 followed by f(-e2e3 + e3e2), f(e1e3 - e3e1), f(-e1e2 + e2e1). */
  function Base9(f: real): Mat
  {
    [[1.0, 0.0, 0.0,  0.0, 0.0, 0.0,  0.0, 0.0, 0.0],
     [0.0, 0.0, 0.0,  0.0, 1.0, 0.0,  0.0, 0.0, 0.0],
     [0.0, 0.0, 0.0,  0.0, 0.0, 0.0,  0.0, 0.0, 1.0],
     [0.0, 0.0, 0.0,  0.0, 0.0, f,    0.0, f,   0.0],
     [0.0, 0.0, f,    0.0, 0.0, 0.0,  f,   0.0, 0.0],
     [0.0, f,   0.0,  f,   0.0, 0.0,  0.0, 0.0, 0.0],
     [0.0, 0.0, 0.0,  0.0, 0.0, -f,   0.0, f,   0.0],
     [0.0, 0.0, f,    0.0, 0.0, 0.0,  -f,  0.0, 0.0],
     [0.0, -f,  0.0,  f,   0.0, 0.0,  0.0, 0.0, 0.0]]
  }

  /** B[a, i, j] of a flattened basis. */
  function Entry(b: Mat, a: nat, i: nat, j: nat): real
    requires IsMat(b, |b|, 9) && a < |b| && i < 3 && j < 3
  {
    b[a][3 * i + j]
  }

  /** The flat index of the transposed entry, (i, j) -> (j, i); see SwapTransposes. */
  function Swap(p: nat): nat
    requires p < 9
  {
    [0, 3, 6, 1, 4, 7, 2, 5, 8][p]
  }

  lemma SwapTransposes()
    ensures forall i, j :: 0 <= i < 3 && 0 <= j < 3 ==> Swap(3 * i + j) == 3 * j + i
    ensures forall p :: 0 <= p < 9 ==> Swap(p) < 9 && Swap(Swap(p)) == p
  {
    forall i, j | 0 <= i < 3 && 0 <= j < 3
      ensures Swap(3 * i + j) == 3 * j + i
    {
      if i == 0 {} else if i == 1 {} else {}
    }
  }

  /** The symmetric projector on flattened 3 x 3 tensors, S t = (t + t^T) / 2, written out;
      SymProjectorEntries states it entry by entry. */
  function SymProjector(): Mat
  {
    [[1.0, 0.0, 0.0, 0.0, 0.0, 0.0, 0.0, 0.0, 0.0],
     [0.0, 0.5, 0.0, 0.5, 0.0, 0.0, 0.0, 0.0, 0.0],
     [0.0, 0.0, 0.5, 0.0, 0.0, 0.0, 0.5, 0.0, 0.0],
     [0.0, 0.5, 0.0, 0.5, 0.0, 0.0, 0.0, 0.0, 0.0],
     [0.0, 0.0, 0.0, 0.0, 1.0, 0.0, 0.0, 0.0, 0.0],
     [0.0, 0.0, 0.0, 0.0, 0.0, 0.5, 0.0, 0.5, 0.0],
     [0.0, 0.0, 0.5, 0.0, 0.0, 0.0, 0.5, 0.0, 0.0],
     [0.0, 0.0, 0.0, 0.0, 0.0, 0.5, 0.0, 0.5, 0.0],
     [0.0, 0.0, 0.0, 0.0, 0.0, 0.0, 0.0, 0.0, 1.0]]
  }

  // ---------------------------------------------------------------------------------------
  // Properties of the bases

  lemma Base9Shape(f: real)
    ensures IsMat(Base6(f), 6, 9) && IsMat(Base9(f), 9, 9)
    ensures Base9(f)[..6] == Base6(f)
  {
  }

  /** Every dyad of the symmetric basis is a symmetric 3 x 3 tensor. */
  lemma Base6Symmetric(f: real)
    ensures forall a, i, j :: 0 <= a < 6 && 0 <= i < 3 && 0 <= j < 3 ==>
      Entry(Base6(f), a, i, j) == Entry(Base6(f), a, j, i)
  {
    var b := Base6(f);
    forall a, i, j | 0 <= a < 6 && 0 <= i < 3 && 0 <= j < 3
      ensures Entry(b, a, i, j) == Entry(b, a, j, i)
    {
      if a == 0 {} else if a == 1 {} else if a == 2 {} else if a == 3 {} else if a == 4 {} else {}
    }
  }

  /** The three extra dyads of the 9-basis are skew: B[a, i, j] == -B[a, j, i]. */
  lemma Base9SkewDyads(f: real)
    ensures forall a, i, j :: 6 <= a < 9 && 0 <= i < 3 && 0 <= j < 3 ==>
      Entry(Base9(f), a, i, j) == -Entry(Base9(f), a, j, i)
  {
    var b := Base9(f);
    forall a, i, j | 6 <= a < 9 && 0 <= i < 3 && 0 <= j < 3
      ensures Entry(b, a, i, j) == -Entry(b, a, j, i)
    {
      if a == 6 {} else if a == 7 {} else {}
    }
  }

  lemma SumFrom(s: seq<real>, k: nat)
    requires k < |s|
    ensures Sum(s[k..]) == s[k] + Sum(s[k + 1..])
  {
    assert s[k..][1..] == s[k + 1..];
  }

  lemma Sum6(s: seq<real>)
    requires |s| == 6
    ensures Sum(s) == s[0] + s[1] + s[2] + s[3] + s[4] + s[5]
  {
    assert s[0..] == s;
    SumFrom(s, 0); SumFrom(s, 1); SumFrom(s, 2); SumFrom(s, 3); SumFrom(s, 4); SumFrom(s, 5);
  }

  lemma Sum9(s: seq<real>)
    requires |s| == 9
    ensures Sum(s) == s[0] + s[1] + s[2] + s[3] + s[4] + s[5] + s[6] + s[7] + s[8]
  {
    assert s[0..] == s;
    SumFrom(s, 0); SumFrom(s, 1); SumFrom(s, 2); SumFrom(s, 3); SumFrom(s, 4);
    SumFrom(s, 5); SumFrom(s, 6); SumFrom(s, 7); SumFrom(s, 8);
  }

  lemma Dot6(u: Vec, v: Vec)
    requires |u| == |v| == 6
    ensures Dot(u, v) == u[0] * v[0] + u[1] * v[1] + u[2] * v[2] + u[3] * v[3] + u[4] * v[4] + u[5] * v[5]
  {
    Sum6(Products(u, v));
  }

  lemma Dot9(u: Vec, v: Vec)
    requires |u| == |v| == 9
    ensures Dot(u, v) == u[0] * v[0] + u[1] * v[1] + u[2] * v[2] + u[3] * v[3] + u[4] * v[4]
                       + u[5] * v[5] + u[6] * v[6] + u[7] * v[7] + u[8] * v[8]
  {
    Sum9(Products(u, v));
  }

  /** B_a . B_b == delta_ab for the nine dyads (the documented orthonormality). */
  lemma Base9Orthonormal(f: real)
    requires IsFactor(f)
    ensures forall a, b :: 0 <= a < 9 && 0 <= b < 9 ==>
      Dot(Base9(f)[a], Base9(f)[b]) == if a == b then 1.0 else 0.0
  {
    var B := Base9(f);
    forall a, b | 0 <= a < 9 && 0 <= b < 9
      ensures Dot(B[a], B[b]) == if a == b then 1.0 else 0.0
    {
      Dot9(B[a], B[b]);
      if a == 0 {} else if a == 1 {} else if a == 2 {} else if a == 3 {} else if a == 4 {}
      else if a == 5 {} else if a == 6 {} else if a == 7 {} else {}
    }
  }

  lemma Base6Orthonormal(f: real)
    requires IsFactor(f)
    ensures forall a, b :: 0 <= a < 6 && 0 <= b < 6 ==>
      Dot(Base6(f)[a], Base6(f)[b]) == if a == b then 1.0 else 0.0
  {
    Base9Orthonormal(f);
    forall a, b | 0 <= a < 6 && 0 <= b < 6
      ensures Dot(Base6(f)[a], Base6(f)[b]) == if a == b then 1.0 else 0.0
    {
      assert Base6(f)[a] == Base9(f)[a] && Base6(f)[b] == Base9(f)[b];
    }
  }

  /** Transpose(Base9(f), 9), written out: row p lists B_1[p] .. B_9[p]. */
  function Base9Columns(f: real): Mat
  {
    [[1.0, 0.0, 0.0, 0.0, 0.0, 0.0, 0.0, 0.0, 0.0],
     [0.0, 0.0, 0.0, 0.0, 0.0, f,   0.0, 0.0, -f ],
     [0.0, 0.0, 0.0, 0.0, f,   0.0, 0.0, f,   0.0],
     [0.0, 0.0, 0.0, 0.0, 0.0, f,   0.0, 0.0, f  ],
     [0.0, 1.0, 0.0, 0.0, 0.0, 0.0, 0.0, 0.0, 0.0],
     [0.0, 0.0, 0.0, f,   0.0, 0.0, -f,  0.0, 0.0],
     [0.0, 0.0, 0.0, 0.0, f,   0.0, 0.0, -f,  0.0],
     [0.0, 0.0, 0.0, f,   0.0, 0.0, f,   0.0, 0.0],
     [0.0, 0.0, 1.0, 0.0, 0.0, 0.0, 0.0, 0.0, 0.0]]
  }

  lemma Base9ColumnsAre(f: real)
    ensures forall p :: 0 <= p < 9 ==> Col(Base9(f), p) == Base9Columns(f)[p]
  {
    var B, C := Base9(f), Base9Columns(f);
    forall p | 0 <= p < 9
      ensures Col(B, p) == C[p]
    {
      if p == 0 {} else if p == 1 {} else if p == 2 {} else if p == 3 {} else if p == 4 {}
      else if p == 5 {} else if p == 6 {} else if p == 7 {} else {}
    }
  }

  lemma Base9CompleteAt(f: real, p: nat, q: nat)
    requires IsFactor(f) && p < 9 && q < 9
    ensures Dot(Base9Columns(f)[p], Base9Columns(f)[q]) == if p == q then 1.0 else 0.0
  {
    var C := Base9Columns(f);
    Dot9(C[p], C[q]);
    if p == 0 {} else if p == 1 {} else if p == 2 {} else if p == 3 {} else if p == 4 {}
    else if p == 5 {} else if p == 6 {} else if p == 7 {} else {}
  }

  /** The columns of the 9-basis are orthonormal too: sum_a B[a, p] B[a, q] == delta_pq. */
  lemma Base9Complete(f: real)
    requires IsFactor(f)
    ensures forall p, q :: 0 <= p < 9 && 0 <= q < 9 ==>
      Dot(Col(Base9(f), p), Col(Base9(f), q)) == if p == q then 1.0 else 0.0
  {
    Base9ColumnsAre(f);
    forall p, q | 0 <= p < 9 && 0 <= q < 9
      ensures Dot(Base9Columns(f)[p], Base9Columns(f)[q]) == if p == q then 1.0 else 0.0
    {
      Base9CompleteAt(f, p, q);
    }
  }

  /** Transpose(Base6(f), 9), written out. */
  function Base6Columns(f: real): Mat
  {
    [[1.0, 0.0, 0.0, 0.0, 0.0, 0.0],
     [0.0, 0.0, 0.0, 0.0, 0.0, f  ],
     [0.0, 0.0, 0.0, 0.0, f,   0.0],
     [0.0, 0.0, 0.0, 0.0, 0.0, f  ],
     [0.0, 1.0, 0.0, 0.0, 0.0, 0.0],
     [0.0, 0.0, 0.0, f,   0.0, 0.0],
     [0.0, 0.0, 0.0, 0.0, f,   0.0],
     [0.0, 0.0, 0.0, f,   0.0, 0.0],
     [0.0, 0.0, 1.0, 0.0, 0.0, 0.0]]
  }

  lemma Base6ColumnsAre(f: real)
    ensures forall p :: 0 <= p < 9 ==> Col(Base6(f), p) == Base6Columns(f)[p]
  {
    var B, C := Base6(f), Base6Columns(f);
    forall p | 0 <= p < 9
      ensures Col(B, p) == C[p]
    {
      if p == 0 {} else if p == 1 {} else if p == 2 {} else if p == 3 {} else if p == 4 {}
      else if p == 5 {} else if p == 6 {} else if p == 7 {} else {}
    }
  }

  /** Entry (p, q) of the symmetric projector is (delta_pq + delta_(p^T)q) / 2. */
  lemma SymProjectorEntries()
    ensures IsMat(SymProjector(), 9, 9)
    ensures forall p, q :: 0 <= p < 9 && 0 <= q < 9 ==>
      SymProjector()[p][q] == ((if p == q then 1.0 else 0.0) + (if q == Swap(p) then 1.0 else 0.0)) / 2.0
  {
    forall p, q | 0 <= p < 9 && 0 <= q < 9
      ensures SymProjector()[p][q] == ((if p == q then 1.0 else 0.0) + (if q == Swap(p) then 1.0 else 0.0)) / 2.0
    {
      if p == 0 {} else if p == 1 {} else if p == 2 {} else if p == 3 {} else if p == 4 {}
      else if p == 5 {} else if p == 6 {} else if p == 7 {} else {}
    }
  }

  lemma Base6ColumnGramAt(f: real, p: nat, q: nat)
    requires IsFactor(f) && p < 9 && q < 9
    ensures Dot(Base6Columns(f)[p], Base6Columns(f)[q]) == SymProjector()[p][q]
  {
    var C := Base6Columns(f);
    Dot6(C[p], C[q]);
    if p == 0 {} else if p == 1 {} else if p == 2 {} else if p == 3 {} else if p == 4 {}
    else if p == 5 {} else if p == 6 {} else if p == 7 {} else {}
  }

  /** Summing B[a, p] B[a, q] over the six symmetric dyads gives the symmetric projector. */
  lemma Base6ColumnGram(f: real)
    requires IsFactor(f)
    ensures forall p, q :: 0 <= p < 9 && 0 <= q < 9 ==>
      Dot(Col(Base6(f), p), Col(Base6(f), q)) == SymProjector()[p][q]
  {
    Base6ColumnsAre(f);
    forall p, q | 0 <= p < 9 && 0 <= q < 9
      ensures Dot(Base6Columns(f)[p], Base6Columns(f)[q]) == SymProjector()[p][q]
    {
      Base6ColumnGramAt(f, p, q);
    }
  }

  // ---------------------------------------------------------------------------------------
  // The builders, on (K, 3, 3) arrays

  /** The array b holds the flattened basis m: b[a, i, j] == m[a][3 * i + j]. */
  predicate Holds(b: array3<real>, m: Mat)
    reads b
  {
    b.Length1 == DIM && b.Length2 == DIM && IsMat(m, b.Length0, 9) &&
    forall a, i, j :: 0 <= a < b.Length0 && 0 <= i < 3 && 0 <= j < 3 ==> b[a, i, j] == Entry(m, a, i, j)
  }

  /** The flattened contents of a (K, 3, 3) array. */
  function Frozen(b: array3<real>): (m: Mat)
    requires b.Length1 == DIM && b.Length2 == DIM
    reads b
    ensures IsMat(m, b.Length0, 9)
  {
    seq(b.Length0, a requires 0 <= a < b.Length0 reads b =>
      seq(9, p requires 0 <= p < 9 reads b => b[a, p / 3, p % 3]))
  }

  /** An array that holds m freezes to m. */
  lemma FrozenHolds(b: array3<real>, m: Mat)
    requires Holds(b, m)
    ensures Frozen(b) == m
  {
    forall a | 0 <= a < b.Length0
      ensures Frozen(b)[a] == m[a]
    {
      forall p | 0 <= p < 9
        ensures Frozen(b)[a][p] == m[a][p]
      {
        assert 3 * (p / 3) + p % 3 == p;
        assert Entry(m, a, p / 3, p % 3) == m[a][p];
      }
    }
  }

  /** The entries of B_1 .. B_6, one dyad at a time. */
  function Base6At(f: real, a: nat, i: nat, j: nat): real
  {
    if a < 3 then (if i == a && j == a then 1.0 else 0.0)
    else if a == 3 then (if (i == 1 && j == 2) || (i == 2 && j == 1) then f else 0.0)
    else if a == 4 then (if (i == 0 && j == 2) || (i == 2 && j == 0) then f else 0.0)
    else (if (i == 0 && j == 1) || (i == 1 && j == 0) then f else 0.0)
  }

  /** The entries of B_1 .. B_9: those of B_1 .. B_6, then the three skew dyads. */
  function Base9At(f: real, a: nat, i: nat, j: nat): real
  {
    if a < 6 then Base6At(f, a, i, j)
    else if a == 6 then (if i == 1 && j == 2 then -f else if i == 2 && j == 1 then f else 0.0)
    else if a == 7 then (if i == 0 && j == 2 then f else if i == 2 && j == 0 then -f else 0.0)
    else (if i == 0 && j == 1 then -f else if i == 1 && j == 0 then f else 0.0)
  }

  lemma Base6Entry(f: real, a: nat, i: nat, j: nat)
    requires a < 6 && i < 3 && j < 3
    ensures Entry(Base6(f), a, i, j) == Base6At(f, a, i, j)
  {
    if i == 0 {} else if i == 1 {} else {}
  }

  lemma Base9Entry(f: real, a: nat, i: nat, j: nat)
    requires a < 9 && i < 3 && j < 3
    ensures Entry(Base9(f), a, i, j) == Base9At(f, a, i, j)
  {
    if a < 6 {
      Base6Entry(f, a, i, j);
    } else if i == 0 {} else if i == 1 {} else {}
  }

  /** An array whose entries are written out as Base6At holds Base6(f). */
  lemma HoldsBase6(b: array3<real>, f: real)
    requires b.Length0 == 6 && b.Length1 == 3 && b.Length2 == 3
    requires forall a, i, j :: 0 <= a < 6 && 0 <= i < 3 && 0 <= j < 3 ==> b[a, i, j] == Base6At(f, a, i, j)
    ensures Holds(b, Base6(f))
  {
    forall a, i, j | 0 <= a < 6 && 0 <= i < 3 && 0 <= j < 3
      ensures b[a, i, j] == Entry(Base6(f), a, i, j)
    {
      Base6Entry(f, a, i, j);
    }
  }

  /** An array whose entries are written out as Base9At holds Base9(f). */
  lemma HoldsBase9(b: array3<real>, f: real)
    requires b.Length0 == 9 && b.Length1 == 3 && b.Length2 == 3
    requires forall a, i, j :: 0 <= a < 9 && 0 <= i < 3 && 0 <= j < 3 ==> b[a, i, j] == Base9At(f, a, i, j)
    ensures Holds(b, Base9(f))
  {
    forall a, i, j | 0 <= a < 9 && 0 <= i < 3 && 0 <= j < 3
      ensures b[a, i, j] == Entry(Base9(f), a, i, j)
    {
      Base9Entry(f, a, i, j);
    }
  }

  /** get_mandel_base_sym: a zero (6, 3, 3) array with the nine non-zero entries of
      B_1 .. B_6 assigned one by one. */
  method GetMandelBaseSym(f: real) returns (b: array3<real>)
    ensures fresh(b) && b.Length0 == DIM_MANDEL6
    ensures Holds(b, Base6(f))
  {
    b := new real[DIM_MANDEL6, DIM, DIM]((a, i, j) => 0.0);
    b[0, 0, 0] := 1.0;
    b[1, 1, 1] := 1.0;
    b[2, 2, 2] := 1.0;
    b[3, 1, 2] := f; b[3, 2, 1] := f;
    b[4, 0, 2] := f; b[4, 2, 0] := f;
    b[5, 0, 1] := f; b[5, 1, 0] := f;
    HoldsBase6(b, f);
  }

  /** get_mandel_base_skw: a zero (9, 3, 3) array whose first six dyads are copied from
      the symmetric basis, followed by the six entries of the three skew dyads. */
  method GetMandelBaseSkw(f: real) returns (b: array3<real>)
    ensures fresh(b) && b.Length0 == DIM_MANDEL9
    ensures Holds(b, Base9(f))
  {
    b := new real[DIM_MANDEL9, DIM, DIM]((a, i, j) => 0.0);
    var sym := GetMandelBaseSym(f);
    // B[0:6, :, :] = get_mandel_base_sym()
    for a := 0 to DIM_MANDEL6
      invariant Holds(sym, Base6(f))
      invariant forall a', i, j :: 0 <= a' < a && 0 <= i < 3 && 0 <= j < 3 ==> b[a', i, j] == sym[a', i, j]
      invariant forall a', i, j :: a <= a' < 9 && 0 <= i < 3 && 0 <= j < 3 ==> b[a', i, j] == 0.0
    {
      forall i, j | 0 <= i < 3 && 0 <= j < 3 {
        b[a, i, j] := sym[a, i, j];
      }
    }
    b[6, 1, 2] := -f; b[6, 2, 1] := f;
    b[7, 0, 2] := f;  b[7, 2, 0] := -f;
    b[8, 0, 1] := -f; b[8, 1, 0] := f;
    forall a, i, j | 0 <= a < 9 && 0 <= i < 3 && 0 <= j < 3
      ensures b[a, i, j] == Base9At(f, a, i, j)
    {
      if a < 6 {
        assert b[a, i, j] == sym[a, i, j];
        Base6Entry(f, a, i, j);
      }
    }
    HoldsBase9(b, f);
  }
}
