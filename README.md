# mechkit notation conversion, modelled in Dafny

This project models the notation converter of mechkit (`mechkit/notation.py`). It
rewrites second and fourth order tensors of three-dimensional continuum mechanics between:

- plain tensor notation: shapes (3, 3) and (3, 3, 3, 3);
- Mandel6 notation: shapes (6,) and (6, 6). It uses an orthonormal basis of six symmetric
  dyads, so skew parts are lost;
- Mandel9 notation: shapes (9,) and (9, 9). It uses the six symmetric dyads plus three skew
  ones, so nothing is lost.

It also models the Voigt rescaling of a Mandel6 array. The rescaling depends on the
physical quantity the array stands for: stress, strain, stiffness or compliance.

## Structure

- `linalg.dfy` (`LinAlg`): vectors and matrices over `real`. It provides sums, dot products,
  transposes and matrix products, with their bilinearity and associativity lemmas. It also
  provides `Flatten`/`Chunks`, which move between a row-major buffer and its rows.
- `basis.dfy` (`Basis`): the two bases as 6×9 and 9×9 matrices. Row `a` is the dyad
  `B[a]` read row-major, so entry (i, j) is at column 3 i + j.
  - `GetMandelBaseSym` and `GetMandelBaseSkw` build them into a fresh `array3`, as the
    source does.
  - Orthonormality of the rows is proved here, and completeness of the columns.
- `mandel.dfy` (`Mandel`): the four einsum contractions and their round trips. A
  (3, 3, 3, 3) tensor is its 9×9 matrix, entry (3 i + j, 3 k + l).
  - For the symmetric basis, tensor → Mandel6 → tensor is the symmetric projection.
  - Zero-padding Mandel6 to Mandel9 (methods on fresh arrays) and truncating Mandel9 to
    Mandel6.
- `results.dfy` (`Results`): the failure cases. They are the `KeyError`s of the source's
  dictionary lookups.
- `notation.dfy` (`Notation`): an n-d array as `NdArray(shape, data)`, where data is the
  row-major buffer.
  - Identifying the type by shape.
  - The three dispatch tables, and the converter with its two bases.
  - The entry points `to_mandel6`, `to_mandel9` and `to_tensor`, plus round trips through
    them on whole arrays.
- `voigt.dfy` (`Voigt`): the quantity table, and `mandel6_to_voigt`/`voigt_to_mandel6` as
  loops over a fresh copy of the input buffer.

The real number `f` stands for `np.sqrt(2.) / 2.`. It is a parameter restricted by
`IsFactor(f)`: `f > 0` and `f * f == 1/2`. In the Voigt module `s` stands for `np.sqrt(2.)`,
restricted by `IsRoot2(s)`. Every lemma holds for the exact square root.

The `Converter` object only sets its fields in its constructor. It is therefore modelled as
an immutable datatype built by the method `NewConverter`. `NewConverter` runs the two basis
builders and reads their arrays back into values.

## Model

| member | source | states |
|---|---|---|
| Basis.GetMandelBaseSym | mechkit/notation.py:181-215 | returns a fresh (6, 3, 3) array whose dyads are `e1⊗e1`, `e2⊗e2`, `e3⊗e3` and `f` times the sums of the mirrored off-diagonal unit dyads (23, 13, 12), zero elsewhere |
| Basis.GetMandelBaseSkw | mechkit/notation.py:217-247 | returns a fresh (9, 3, 3) array: the six symmetric dyads, then the skew dyads `f(e3⊗e2 − e2⊗e3)`, `f(e1⊗e3 − e3⊗e1)` and `f(e2⊗e1 − e1⊗e2)` |
| Basis.Base6Entry | mechkit/notation.py:204-214 | each entry of the symmetric basis: 1 on the diagonal dyads' own diagonal entry, `f` at the two mirrored positions of dyads 3, 4 and 5, 0 everywhere else |
| Basis.Base9Entry | mechkit/notation.py:234-245 | each entry of the Mandel9 basis: the symmetric basis in dyads 0..5, `−f`/`f` at the mirrored positions of dyads 6, 7 and 8, 0 everywhere else |
| Basis.Base6Symmetric | mechkit/notation.py:209-214 | every dyad of the symmetric basis is a symmetric 3×3 matrix |
| Basis.Base9SkewDyads | mechkit/notation.py:240-245 | the three extra dyads of the Mandel9 basis are skew |
| Basis.Base9Shape | mechkit/notation.py:238 | the Mandel9 basis is 9×9 and its first six rows are the Mandel6 basis |
| Basis.Base6Orthonormal | mechkit/notation.py:31-67 | `B[a] · B[b] = δ_ab` for the six symmetric dyads |
| Basis.Base9Orthonormal | mechkit/notation.py:31-67 | `B[a] · B[b] = δ_ab` for all nine dyads |
| Basis.Base9Complete | mechkit/notation.py:69-81 | the nine dyads are complete: `Σ_a B[a]_p B[a]_q = δ_pq`, so every tensor is `σ_a B_a` |
| Basis.Base6ColumnGram | mechkit/notation.py:69-81 | `Σ_a B[a]_p B[a]_q` over the six symmetric dyads is the symmetrising projector `(δ_pq + δ_{q,p^T})/2` |
| Mandel.ToMandel2 | mechkit/notation.py:413-419 | the einsum `'aij, ij -> a'`: component a is the dot product `Σ_ij B_a[i, j] t[i, j]` of dyad a with the tensor, one component per basis dyad |
| Mandel.ToMandel4 | mechkit/notation.py:421-428 | the einsum `'aij, ijkl, bkl -> ab'`: entry (a, c) is dyad a dotted with T applied to dyad c, `Σ_ijkl B_a[i, j] T[i, j, k, l] B_c[k, l]`, a K×K matrix for K dyads |
| Mandel.FromMandel2 | mechkit/notation.py:442-448 | the einsum `'ajk, a -> jk'`: tensor entry (j, k) is `Σ_a B_a[j, k] v[a]`, the column (j, k) of the basis dotted with the Mandel vector |
| Mandel.FromMandel4 | mechkit/notation.py:450-457 | the einsum `'ajk, ab, bmn -> jkmn'`: tensor entry ((j, k), (m, n)) is basis column (j, k) dotted with the Mandel matrix applied to basis column (m, n) |
| Mandel.Mandel2RoundTrip | mechkit/notation.py:442-448 | for an orthonormal basis, contracting `σ_a B_a` back with the basis returns the Mandel vector |
| Mandel.Tensor2RoundTrip | mechkit/notation.py:413-419 | tensor → Mandel → tensor multiplies by the column Gram matrix of the basis |
| Mandel.Mandel4RoundTrip | mechkit/notation.py:450-457 | for an orthonormal basis, `B_a·(C_ab B_a⊗B_b)[B_b]` returns the Mandel matrix |
| Mandel.Tensor4RoundTrip | mechkit/notation.py:421-428 | tensor → Mandel → tensor for fourth order is `G · T · G` with G the column Gram matrix |
| Mandel.ToMandel4Product | mechkit/notation.py:421-428 | the contraction `B_aij T_ijkl B_bkl` is the matrix product `B · T · Bᵀ` |
| Mandel.FromMandel4Product | mechkit/notation.py:450-457 | the contraction `B_ajk C_ab B_bmn` is `Bᵀ · C · B` |
| Mandel.Base6IsOrthonormal | mechkit/notation.py:181-215 | the symmetric basis is orthonormal |
| Mandel.Base9IsOrthonormal | mechkit/notation.py:217-247 | the Mandel9 basis is orthonormal |
| Mandel.Base9ColGram | mechkit/notation.py:217-247 | the column Gram matrix of the Mandel9 basis is the identity |
| Mandel.Base6ColGram | mechkit/notation.py:181-215 | the column Gram matrix of the Mandel6 basis is the symmetrising projector |
| Mandel.SymFixes2 | mechkit/notation.py:21 | the symmetrising projector fixes a second order tensor iff the tensor is symmetric |
| Mandel.SymFixes4 | mechkit/notation.py:22 | `P · T · P = T` iff T has both minor symmetries |
| Mandel.SymMinorSymmetric | mechkit/notation.py:22 | `P · T · P` always has both minor symmetries |
| Mandel.Tensor2RoundTrip9 | mechkit/notation.py:433-434 | tensor → Mandel9 → tensor is the identity on second order tensors |
| Mandel.Tensor2RoundTrip6 | mechkit/notation.py:430-431 | tensor → Mandel6 → tensor gives `(t + tᵀ)/2`, and returns t iff t is symmetric |
| Mandel.Tensor4RoundTrip9 | mechkit/notation.py:439-440 | tensor → Mandel9 → tensor is the identity on fourth order tensors |
| Mandel.Tensor4RoundTrip6 | mechkit/notation.py:436-437 | tensor → Mandel6 → tensor returns T iff T has both minor symmetries |
| Mandel.Mandel2RoundTrip6 | mechkit/notation.py:459-460 | Mandel6 vector → tensor → Mandel6 is the identity |
| Mandel.Mandel2RoundTrip9 | mechkit/notation.py:465-466 | Mandel9 vector → tensor → Mandel9 is the identity |
| Mandel.Mandel4RoundTrip6 | mechkit/notation.py:462-463 | Mandel6 matrix → tensor → Mandel6 is the identity |
| Mandel.Mandel4RoundTrip9 | mechkit/notation.py:468-469 | Mandel9 matrix → tensor → Mandel9 is the identity |
| Mandel.Mandel6Components | mechkit/notation.py:413-419 | the Mandel6 vector of t is `[t11, t22, t33, f(t23+t32), f(t13+t31), f(t12+t21)]` |
| Mandel.Mandel6SymmetricExample | test/test_notation.py:69-91 | the symmetric tensor with diagonal 1, 2, 3 and off-diagonals 4, 5, 6 maps to `[1, 2, 3, 4√2, 5√2, 6√2]` |
| Mandel.Mandel6RangeExample | mechkit/notation.py:104-109 | `arange(9).reshape(3, 3)` maps to `[0, 4, 8, 6√2, 4√2, 2√2]` |
| Mandel.Mandel6OnesExample | test/test_notation.py:177 | the all-ones (3, 3) tensor maps to `[1, 1, 1, √2, √2, √2]` |
| Mandel.Mandel6OnesMatrix | test/test_notation.py:94-113 | the all-ones (3, 3, 3, 3) tensor maps to the 6×6 matrix with 1 in the normal block, √2 (`2f`) in the two mixed blocks and 2 in the shear block |
| Mandel.Mandel6OnesExample4 | test/test_notation.py:94-113 | that 6×6 matrix expands back to the all-ones (3, 3, 3, 3) tensor |
| Mandel.Pad2 | mechkit/notation.py:471-474 | the slice write `zeros[0:6] = inp` into a zero 9-vector: entries 0..5 are the input, entries 6..8 are 0 |
| Mandel.Pad4 | mechkit/notation.py:476-482 | the slice write `zeros[0:6, 0:6] = inp` into a zero 9×9 matrix: the upper-left 6×6 block is the input, every entry outside it is 0 |
| Mandel.Truncate2 | mechkit/notation.py:484-485 | the slice read `inp[0:6]`: a 6-vector whose entries are the first six of the input |
| Mandel.Truncate4 | mechkit/notation.py:487-488 | the slice read `inp[0:6, 0:6]`: a 6×6 matrix whose entries are the upper-left block of the input |
| Mandel.TruncatePad2 | mechkit/notation.py:484-485 | truncating a padded vector returns the vector |
| Mandel.TruncatePad4 | mechkit/notation.py:487-488 | truncating a padded matrix returns the matrix |
| Mandel.PadTruncate2 | mechkit/notation.py:471-485 | padding the truncation of a Mandel9 vector whose skew entries are zero returns that vector |
| Mandel.TruncateMandel9Is6 | mechkit/notation.py:484-485 | truncating the Mandel9 vector of a tensor gives its Mandel6 vector |
| Mandel.Truncate4Mandel9Is6 | mechkit/notation.py:487-488 | truncating the Mandel9 matrix of a tensor gives its Mandel6 matrix |
| Mandel.PadMandel6Expands | mechkit/notation.py:471-474 | a padded Mandel6 vector expands to the same tensor in the Mandel9 basis |
| Mandel.PadMandel6Expands4 | mechkit/notation.py:476-482 | a padded Mandel6 matrix expands to the same tensor in the Mandel9 basis |
| Mandel.Mandel6ToMandel9Vector | mechkit/notation.py:471-474 | writes the input into slots 0..5 of a fresh zero array of length 9 |
| Mandel.Mandel6ToMandel9Matrix | mechkit/notation.py:476-482 | writes the input into the upper-left 6×6 block of a fresh zero 9×9 array |
| Notation.KnownShapes | mechkit/notation.py:317-328 | the six known shapes are (3,3), (3,3,3,3), (6,), (6,6), (9,), (9,9), and distinct types have distinct shapes |
| Notation.TypeByShape | mechkit/notation.py:303-329 | a found type has exactly the given shape; an unknown shape is the `UnknownShape` error and matches no type |
| Notation.TypeByShapeOf | mechkit/notation.py:321-329 | the shape of every type is identified as that type |
| Notation.ToMandel6Table | mechkit/notation.py:347-355 | has an entry for all six types; each entry takes its type to Mandel6 keeping the order (tensors by projection on BASE6, Mandel9 by truncation), and is `pass_through` exactly for the Mandel6 types |
| Notation.ToMandel9Table | mechkit/notation.py:373-381 | has an entry for all six types; each entry takes its type to Mandel9 keeping the order (tensors by projection on BASE9, Mandel6 by zero-padding), and is `pass_through` exactly for the Mandel9 types |
| Notation.ToTensorTable | mechkit/notation.py:399-407 | has an entry for all six types; each entry takes its type to a tensor keeping the order (Mandel6 and Mandel9 by expansion in their basis), and is `pass_through` exactly for the tensor types |
| Notation.TablesComplete | mechkit/notation.py:331-407 | each dispatch table has an entry for all six types, each entry converts into the table's notation and keeps the order, and it is `pass_through` iff the input is already in that notation |
| Notation.GetConversion | mechkit/notation.py:345-355 | the selected conversion exists iff the shape is known, and it converts the identified type into the requested notation |
| Notation.NewConverter | mechkit/notation.py:169-179 | builds a converter whose Mandel6 and Mandel9 bases are the orthonormal bases for the given factor |
| Notation.Converter.Base | mechkit/notation.py:178-179 | each stored basis has nine columns and 6 or 9 rows |
| Notation.Apply | mechkit/notation.py:409-488 | the selected conversion returns a well-formed array of the target type's shape |
| Notation.Convert | mechkit/notation.py:249-301 | succeeds iff the input shape is known, fails with `UnknownShape` otherwise; the result has the target notation's shape for the same order; an input already in the target notation is returned unchanged |
| Notation.ConvertApplies | mechkit/notation.py:263-264 | an entry point applies exactly the table's function for the identified type |
| Notation.EntryPointsFailTogether | mechkit/notation.py:249-301 | `to_mandel6`, `to_mandel9` and `to_tensor` fail on exactly the same inputs: those whose shape matches no type |
| Notation.TensorRoundTrip9 | test/test_notation.py:160-164 | `to_tensor(to_mandel9(t)) == t` for every second and fourth order tensor |
| Notation.TensorRoundTrip6 | test/test_notation.py:138-150 | `to_tensor(to_mandel6(t)) == t` iff t is symmetric (second order) or minor-symmetric (fourth order) |
| Notation.MandelRoundTripAt | test/test_notation.py:131-157 | a Mandel6 or Mandel9 array converted to a tensor and back to its own notation is unchanged |
| Notation.MandelRoundTrip4 | test/test_notation.py:131-135 | the fourth order case of that round trip, on the flat buffers |
| Notation.MandelRoundTrip | test/test_notation.py:131-157 | `to_mandelN(to_tensor(m)) == m` for every Mandel6 and Mandel9 array |
| Notation.Mandel6RoundTrip9 | mechkit/notation.py:471-488 | `to_mandel6(to_mandel9(m)) == m` for every Mandel6 array |
| Notation.Mandel9TruncatesTo6 | mechkit/notation.py:484-488 | for a tensor t, `to_mandel6(to_mandel9(t)) == to_mandel6(t)` |
| Notation.PadKeepsTensor | mechkit/notation.py:471-482 | for a Mandel6 array m, `to_tensor(to_mandel9(m)) == to_tensor(m)` |
| Voigt.Factors | mechkit/notation.py:542-559 | `factors_mandel_to_voigt` has exactly the keys stress, strain, stiffness and compliance, and every factor in it is non-zero, so the division of `voigt_to_mandel6` is defined |
| Voigt.FactorsTable | mechkit/notation.py:542-559 | the segment/factor list of each of the four quantities |
| Voigt.FactorSegmentsDisjoint | mechkit/notation.py:536-559 | the segments listed for one quantity never overlap |
| Voigt.ApplyAll | mechkit/notation.py:581-583 | the value the copy-then-overwrite loop computes, entry by entry, keeping the buffer length; ApplyAllStep ties it to the loop, and ApplyAllCovered and ApplyAllUncovered state each entry |
| Voigt.LastCoverFound | mechkit/notation.py:582-583 | the factor the rescaling uses for an entry belongs to a listed segment covering it, and there is none exactly when no listed segment covers it |
| Voigt.ApplyAllStep | mechkit/notation.py:582-583 | one pass of the loop overwrites the current segment with the rescaled input, which takes the result over the first k entries to the result over the first k + 1 |
| Voigt.ApplyAllUncovered | mechkit/notation.py:581-583 | an entry no listed segment covers keeps its input value |
| Voigt.ApplyAllCovered | mechkit/notation.py:582-583 | an entry covered by a segment, and by no later one, is the input times that segment's factor (or times 1 / factor back to Mandel6) |
| Voigt.ApplyAllRoundTrip | mechkit/notation.py:563-609 | for any list of non-zero factors, rescaling back undoes rescaling forth, in both orders |
| Voigt.VoigtRoundTrip | test/test_notation.py:167-225 | `voigt_to_mandel6(mandel6_to_voigt(x, q), q) == x` and the reverse, for each supported quantity q |
| Voigt.StressScaling | mechkit/notation.py:543-545 | Voigt stress keeps the normal components and divides the shear components 3..5 by √2 |
| Voigt.StrainScaling | mechkit/notation.py:546-548 | Voigt strain keeps the normal components and multiplies the shear components by √2 |
| Voigt.StiffnessScaling | mechkit/notation.py:549-553 | Voigt stiffness keeps quadrant 1, divides quadrants 2 and 3 by √2 and halves quadrant 4 |
| Voigt.ComplianceScaling | mechkit/notation.py:554-558 | Voigt compliance keeps quadrant 1, multiplies quadrants 2 and 3 by √2 and doubles quadrant 4 |
| Voigt.WeightsReciprocal | mechkit/notation.py:549-558 | the stiffness and compliance weights of each entry multiply to 1 |
| Voigt.OnesExample | test/test_notation.py:177-205 | the Mandel6 vector of the all-ones tensor is `[1,1,1,1,1,1]` as Voigt stress and `[1,1,1,2,2,2]` as Voigt strain |
| Voigt.RootIsTwiceFactor | mechkit/notation.py:172 | the `np.sqrt(2.)` of the Voigt table is twice the basis factor `np.sqrt(2.) / 2.` |
| Voigt.OnesChain | test/test_notation.py:175-205 | the all-ones (3, 3) tensor, converted to Mandel6 and then to Voigt, is `[1,1,1,1,1,1]` as a stress and `[1,1,1,2,2,2]` as a strain |
| Voigt.RescaleSegment | mechkit/notation.py:583 | one slice assignment: the segment's entries become the rescaled input, every other entry of the copy keeps its value |
| Voigt.Mandel6ToVoigt | mechkit/notation.py:563-585 | fails with `UnknownQuantity` iff the quantity is not in the table; leaves the input untouched; otherwise returns a fresh buffer equal to the input with each listed segment multiplied by its factor |
| Voigt.VoigtToMandel6 | mechkit/notation.py:587-609 | the same, with each listed segment multiplied by `1 / factor` |

## Left out

- Floating point: all arithmetic is over exact reals. The `dtype` argument (169-171, 206,
  236) and rounding are not modelled. The round trips hold exactly here, whereas the source
  holds them only up to `np.allclose`.
- `np.sqrt(2.)` is a parameter restricted by its square (`IsFactor`, `IsRoot2`) rather than a
  computed value.
- The `verbose` message of `to_mandel9` (280-281) and the warning printed by the
  `VoigtConverter` constructor (529-532) are console output and are not modelled.
- `VoigtConverter` is a subclass of `Converter` in the source. Here its table and its two
  methods live in a module of their own and take `s` as a parameter. The inherited
  tensor/Mandel conversions are the ones of `Notation`.
- Mandel6ToVoigt: requires the buffer length the documentation asks for: 6 for
  stress/strain, 36 for stiffness/compliance. The buffer is always read as the documented
  shape for the quantity, (6,) or (6, 6). Other shapes are not modelled. A (6, 6) array
  given as a stress or strain would have whole rows 3..5 rescaled by the one-dimensional
  slice, and a (6,) array given as a stiffness or compliance raises an `IndexError`. Some
  other shapes with the right number of entries behave differently in the source than the
  model's flat buffer: a (1, 6) or (2, 3) stress or strain is returned as an unchanged copy,
  a (36,) stiffness raises an `IndexError`, and a (9, 9) stiffness has its blocks rescaled.
- VoigtToMandel6: the same length requirement and shapes as `Mandel6ToVoigt`.
- Mandel6ToVoigt: the input is taken as a float array. `inp.copy()` keeps an integer dtype,
  so in the source the slice assignment truncates the rescaled entries of an integer array
  (a strain of `np.ones(6, dtype=int)` stays all ones), and the round trip no longer holds;
  that truncation is not modelled.
- VoigtToMandel6: the input is taken as a float array; the truncation of rescaled entries
  of an integer-dtype input is not modelled, as for `Mandel6ToVoigt`.
- Numpy arrays are their shape plus their row-major buffer. Views, strides and aliasing
  between an input and a returned pass-through array are not modelled. An array of any
  shape or rank other than the six known ones gets the `UnknownShape` failure, as the
  source's shape lookup raises a `KeyError`.
- The tensor and Mandel conversions are modelled as functions on values. Only the basis
  builders, the zero-padding and the two Voigt loops, which fill fresh arrays in the
  source, are methods on arrays.
- The test file calls `to_mandel`, `Converter(skew=True)`, `mandel_to_voigt(mandel=…)` and
  `voigt_to_mandel(voigt=…)`. None of these exists in `mechkit/notation.py`. The lemmas above
  state those tests' properties for the methods that do exist.
- The module's `__main__` stub (612-613) is not modelled.
- Tests against `mechkit.tensors` (P1, P2, I4s) and the eigenvalue and inverse tests need
  modules that are not part of this model.
