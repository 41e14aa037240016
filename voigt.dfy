/** VoigtConverter: rescaling between Mandel6 and Voigt notation according to the
    physical quantity a Mandel6 array represents.

    The array is its row-major entry buffer: six entries for a (6,) stress or strain, 36
    for a (6, 6) stiffness or compliance, entry (r, c) of the latter being 6 r + c. */
module Voigt {
  import opened Results
  import Basis
  import Mandel

  /** s stands for sqrt(2). */
  predicate IsRoot2(s: real)
  {
    s > 0.0 && s * s == 2.0
  }

  /** An index range of the (6,) array, or a block of rows and columns of the (6, 6) one. */
  datatype Segment =
    | Slice(lo: nat, hi: nat)
    | Block(rowLo: nat, rowHi: nat, colLo: nat, colHi: nat)

  /** The segment writes entry i of the buffer. */
  predicate Covers(seg: Segment, i: nat)
  {
    match seg
    case Slice(lo, hi) => lo <= i < hi
    case Block(r0, r1, c0, c1) => r0 <= i / 6 < r1 && c0 <= i % 6 < c1
  }

  /** shear, and the quadrants 2 (upper right), 3 (lower left) and 4 (lower right) */
  const SHEAR: Segment := Slice(3, 6)
  const QUADRANT1: Segment := Block(0, 3, 0, 3)
  const QUADRANT2: Segment := Block(0, 3, 3, 6)
  const QUADRANT3: Segment := Block(3, 6, 0, 3)
  const QUADRANT4: Segment := Block(3, 6, 3, 6)

  type Entries = seq<(Segment, real)>

  /** factors_mandel_to_voigt: the (segment, factor) pairs for each supported quantity. */
  function Factors(s: real): (r: map<string, Entries>)
    requires IsRoot2(s)
    ensures r.Keys == {"stress", "strain", "stiffness", "compliance"}
    ensures forall q :: q in r ==> NonZero(r[q])
  {
    map[
      "stress"     := StressFactors(s),
      "strain"     := StrainFactors(s),
      "stiffness"  := StiffnessFactors(s),
      "compliance" := ComplianceFactors(s)]
  }

  function StressFactors(s: real): Entries
    requires s != 0.0
  {
    [(SHEAR, 1.0 / s)]
  }

  function StrainFactors(s: real): Entries
  {
    [(SHEAR, s)]
  }

  function StiffnessFactors(s: real): Entries
    requires s != 0.0
  {
    [(QUADRANT2, 1.0 / s), (QUADRANT3, 1.0 / s), (QUADRANT4, 1.0 / 2.0)]
  }

  function ComplianceFactors(s: real): Entries
  {
    [(QUADRANT2, s), (QUADRANT3, s), (QUADRANT4, 2.0)]
  }

  /** The buffer length the documentation asks for: (6,) for the vectors, (6, 6) for the
      matrices. */
  function VoigtLength(quantity: string): nat
  {
    if quantity == "stress" || quantity == "strain" then 6 else 36
  }

  predicate NonZero(entries: Entries)
  {
    forall k :: 0 <= k < |entries| ==> entries[k].1 != 0.0
  }

  datatype Direction = ToVoigt | ToMandel

  /** inp * factor towards Voigt, inp * 1. / factor back to Mandel6. */
  function Rescale(v: real, factor: real, d: Direction): real
    requires factor != 0.0
  {
    match d
    case ToVoigt => v * factor
    case ToMandel => v * 1.0 / factor
  }

  datatype Option<T> = None | Some(value: T)

  /** The factor of the last entry whose segment covers i, if any. */
  function LastCover(entries: Entries, i: nat): Option<real>
  {
    if |entries| == 0 then None
    else if Covers(entries[|entries| - 1].0, i) then Some(entries[|entries| - 1].1)
    else LastCover(entries[..|entries| - 1], i)
  }

  /** LastCover finds a covering entry exactly when there is one, and its factor is the
      factor of a covering entry. */
  lemma {:induction false} LastCoverFound(entries: Entries, i: nat)
    ensures LastCover(entries, i).Some? ==>
      exists k :: 0 <= k < |entries| && Covers(entries[k].0, i) && LastCover(entries, i).value == entries[k].1
    ensures LastCover(entries, i).None? ==> forall k :: 0 <= k < |entries| ==> !Covers(entries[k].0, i)
  {
    if |entries| > 0 && !Covers(entries[|entries| - 1].0, i) {
      var init := entries[..|entries| - 1];
      LastCoverFound(init, i);
      assert forall k :: 0 <= k < |init| ==> init[k] == entries[k];
    }
  }

  lemma LastCoverNonZero(entries: Entries, i: nat)
    requires NonZero(entries)
    ensures LastCover(entries, i).Some? ==> LastCover(entries, i).value != 0.0
  {
    LastCoverFound(entries, i);
  }

  /** Entry i rescaled by the factor of the last segment covering it, kept where none does. */
  function Rescaled(v: real, entries: Entries, i: nat, d: Direction): real
    requires NonZero(entries)
  {
    LastCoverNonZero(entries, i);
    match LastCover(entries, i)
    case None => v
    case Some(factor) => Rescale(v, factor, d)
  }

  /** The buffer after rescaling every listed segment. */
  function ApplyAll(x: seq<real>, entries: Entries, d: Direction): (r: seq<real>)
    requires NonZero(entries)
    ensures |r| == |x|
  {
    seq(|x|, i requires 0 <= i < |x| => Rescaled(x[i], entries, i, d))
  }

  /** One pass of the loop: entries of the segment are overwritten by the rescaled input,
      the others keep the value y has so far. */
  function Overwrite(y: seq<real>, x: seq<real>, e: (Segment, real), d: Direction): (r: seq<real>)
    requires |y| == |x| && e.1 != 0.0
    ensures |r| == |x|
  {
    seq(|x|, i requires 0 <= i < |x| => if Covers(e.0, i) then Rescale(x[i], e.1, d) else y[i])
  }

  lemma LastCoverOne(a: (Segment, real), i: nat)
    ensures LastCover([a], i) == if Covers(a.0, i) then Some(a.1) else None
  {
  }

  lemma LastCoverThree(a: (Segment, real), b: (Segment, real), c: (Segment, real), i: nat)
    ensures LastCover([a, b, c], i) ==
      if Covers(c.0, i) then Some(c.1)
      else if Covers(b.0, i) then Some(b.1)
      else if Covers(a.0, i) then Some(a.1)
      else None
  {
    assert [a, b, c][..2] == [a, b] && [a, b][..1] == [a];
    assert LastCover([a, b], i) == if Covers(b.0, i) then Some(b.1) else LastCover([a], i);
    LastCoverOne(a, i);
  }

  /** Running the loop over one more entry overwrites that entry's segment: the loop
      computes ApplyAll. */
  lemma ApplyAllStep(x: seq<real>, entries: Entries, k: nat, d: Direction)
    requires NonZero(entries) && k < |entries|
    ensures NonZero(entries[..k]) && NonZero(entries[..k + 1])
    ensures ApplyAll(x, entries[..k + 1], d) == Overwrite(ApplyAll(x, entries[..k], d), x, entries[k], d)
  {
    var front := entries[..k + 1];
    assert front[..k] == entries[..k] && front[k] == entries[k];
    forall i | 0 <= i < |x|
      ensures ApplyAll(x, front, d)[i] == Overwrite(ApplyAll(x, entries[..k], d), x, entries[k], d)[i]
    {
      assert LastCover(front, i) ==
        if Covers(entries[k].0, i) then Some(entries[k].1) else LastCover(entries[..k], i);
    }
  }

  /** An entry that no listed segment covers keeps its input value. */
  lemma ApplyAllUncovered(x: seq<real>, entries: Entries, d: Direction, i: nat)
    requires NonZero(entries) && i < |x|
    requires forall k :: 0 <= k < |entries| ==> !Covers(entries[k].0, i)
    ensures ApplyAll(x, entries, d)[i] == x[i]
  {
    LastCoverFound(entries, i);
  }

  /** An entry covered by the segment of entry k, and by no later one, is the input
      rescaled by that entry's factor. */
  lemma {:induction false} ApplyAllCovered(x: seq<real>, entries: Entries, d: Direction, i: nat, k: nat)
    requires NonZero(entries) && i < |x| && k < |entries| && Covers(entries[k].0, i)
    requires forall k' :: k < k' < |entries| ==> !Covers(entries[k'].0, i)
    ensures ApplyAll(x, entries, d)[i] == Rescale(x[i], entries[k].1, d)
  {
    LastCoverAt(entries, i, k);
  }

  lemma {:induction false} LastCoverAt(entries: Entries, i: nat, k: nat)
    requires k < |entries| && Covers(entries[k].0, i)
    requires forall k' :: k < k' < |entries| ==> !Covers(entries[k'].0, i)
    ensures LastCover(entries, i) == Some(entries[k].1)
  {
    if k < |entries| - 1 {
      var init := entries[..|entries| - 1];
      assert !Covers(entries[|entries| - 1].0, i);
      LastCoverAt(init, i, k);
    }
  }

  /** voigt_to_mandel6 undoes mandel6_to_voigt, for any table of non-zero factors. */
  lemma ApplyAllRoundTrip(x: seq<real>, entries: Entries)
    requires NonZero(entries)
    ensures ApplyAll(ApplyAll(x, entries, ToVoigt), entries, ToMandel) == x
    ensures ApplyAll(ApplyAll(x, entries, ToMandel), entries, ToVoigt) == x
  {
    var y, z := ApplyAll(x, entries, ToVoigt), ApplyAll(x, entries, ToMandel);
    forall i | 0 <= i < |x|
      ensures ApplyAll(y, entries, ToMandel)[i] == x[i] && ApplyAll(z, entries, ToVoigt)[i] == x[i]
    {
      LastCoverNonZero(entries, i);
    }
  }

  /** Converting Mandel6 to Voigt and back gives the input, for each of the four quantities. */
  lemma VoigtRoundTrip(x: seq<real>, quantity: string, s: real)
    requires IsRoot2(s) && quantity in Factors(s)
    ensures ApplyAll(ApplyAll(x, Factors(s)[quantity], ToVoigt), Factors(s)[quantity], ToMandel) == x
    ensures ApplyAll(ApplyAll(x, Factors(s)[quantity], ToMandel), Factors(s)[quantity], ToVoigt) == x
  {
    ApplyAllRoundTrip(x, Factors(s)[quantity]);
  }

  /** The segments of a table are pairwise disjoint, so no entry is written twice. */
  lemma FactorSegmentsDisjoint(s: real)
    requires IsRoot2(s)
    ensures forall q, k, k', i :: q in Factors(s) && 0 <= k < k' < |Factors(s)[q]| ==>
      !(Covers(Factors(s)[q][k].0, i) && Covers(Factors(s)[q][k'].0, i))
  {
  }

  /** The tables of the four quantities. */
  lemma FactorsTable(s: real)
    requires IsRoot2(s)
    ensures Factors(s)["stress"] == StressFactors(s) && Factors(s)["strain"] == StrainFactors(s)
    ensures Factors(s)["stiffness"] == StiffnessFactors(s) && Factors(s)["compliance"] == ComplianceFactors(s)
  {
  }

  /** The factor of the last stress or strain segment covering entry i: none outside the
      shear components. */
  lemma ShearCover(factor: real, i: nat)
    ensures LastCover([(SHEAR, factor)], i) == if i < 3 || 6 <= i then None else Some(factor)
  {
    LastCoverOne((SHEAR, factor), i);
  }

  /** Stress: the shear components [3:6] are divided by sqrt 2, the normal ones kept. */
  lemma StressScaling(x: seq<real>, s: real)
    requires s != 0.0 && |x| == 6
    ensures forall i :: 0 <= i < 6 ==>
      ApplyAll(x, StressFactors(s), ToVoigt)[i] == if i < 3 then x[i] else x[i] * (1.0 / s)
  {
    forall i | 0 <= i < 6
      ensures ApplyAll(x, StressFactors(s), ToVoigt)[i] == if i < 3 then x[i] else x[i] * (1.0 / s)
    {
      ShearCover(1.0 / s, i);
    }
  }

  /** Strain: the shear components are multiplied by sqrt 2. */
  lemma StrainScaling(x: seq<real>, s: real)
    requires s != 0.0 && |x| == 6
    ensures forall i :: 0 <= i < 6 ==>
      ApplyAll(x, StrainFactors(s), ToVoigt)[i] == if i < 3 then x[i] else x[i] * s
  {
    forall i | 0 <= i < 6
      ensures ApplyAll(x, StrainFactors(s), ToVoigt)[i] == if i < 3 then x[i] else x[i] * s
    {
      ShearCover(s, i);
    }
  }

  /** The Voigt weight of entry (r, c) of a stiffness: 1 in the first quadrant,
      1 / sqrt 2 in the second and third, 1 / 2 in the fourth. Compliance uses the
      reciprocals. */
  function StiffnessWeight(i: nat, s: real): real
    requires s != 0.0
  {
    if Covers(QUADRANT1, i) then 1.0
    else if Covers(QUADRANT4, i) then 1.0 / 2.0
    else 1.0 / s
  }

  /** The factor of the last stiffness segment covering entry i: none in the first
      quadrant, the stiffness weight elsewhere. */
  lemma StiffnessCover(s: real, i: nat)
    requires s != 0.0 && i < 36
    ensures LastCover(StiffnessFactors(s), i) ==
      if Covers(QUADRANT1, i) then None else Some(StiffnessWeight(i, s))
  {
    var stiffness := StiffnessFactors(s);
    LastCoverThree(stiffness[0], stiffness[1], stiffness[2], i);
  }

  /** Stiffness: the first quadrant is kept, the second and third are divided by sqrt 2
      and the fourth is halved. */
  lemma StiffnessScaling(x: seq<real>, s: real)
    requires s != 0.0 && |x| == 36
    ensures forall i :: 0 <= i < 36 ==>
      ApplyAll(x, StiffnessFactors(s), ToVoigt)[i] == x[i] * StiffnessWeight(i, s)
  {
    forall i | 0 <= i < 36
      ensures ApplyAll(x, StiffnessFactors(s), ToVoigt)[i] == x[i] * StiffnessWeight(i, s)
    {
      StiffnessCover(s, i);
    }
  }

  /** The Voigt weight of entry (r, c) of a compliance: 1 in the first quadrant, sqrt 2 in
      the second and third, 2 in the fourth. */
  function ComplianceWeight(i: nat, s: real): real
  {
    if Covers(QUADRANT1, i) then 1.0
    else if Covers(QUADRANT4, i) then 2.0
    else s
  }

  /** The factor of the last compliance segment covering entry i. */
  lemma ComplianceCover(s: real, i: nat)
    requires s != 0.0 && i < 36
    ensures LastCover(ComplianceFactors(s), i) ==
      if Covers(QUADRANT1, i) then None else Some(ComplianceWeight(i, s))
  {
    var compliance := ComplianceFactors(s);
    LastCoverThree(compliance[0], compliance[1], compliance[2], i);
  }

  /** Compliance: the first quadrant is kept, the second and third are multiplied by
      sqrt 2 and the fourth is doubled. */
  lemma ComplianceScaling(x: seq<real>, s: real)
    requires s != 0.0 && |x| == 36
    ensures forall i :: 0 <= i < 36 ==>
      ApplyAll(x, ComplianceFactors(s), ToVoigt)[i] == x[i] * ComplianceWeight(i, s)
  {
    forall i | 0 <= i < 36
      ensures ApplyAll(x, ComplianceFactors(s), ToVoigt)[i] == x[i] * ComplianceWeight(i, s)
    {
      ComplianceCover(s, i);
    }
  }

  /** The two weights are reciprocal: the stiffness and compliance rescalings weight each
      entry by factors whose product is 1. */
  lemma WeightsReciprocal(i: nat, s: real)
    requires s != 0.0
    ensures StiffnessWeight(i, s) * ComplianceWeight(i, s) == 1.0
  {
  }

  /** The Mandel6 vector of the all-ones tensor, [1, 1, 1, sqrt 2, sqrt 2, sqrt 2], is all
      ones as a Voigt stress and [1, 1, 1, 2, 2, 2] as a Voigt strain. */
  lemma OnesExample(s: real)
    requires IsRoot2(s)
    ensures ApplyAll([1.0, 1.0, 1.0, s, s, s], StressFactors(s), ToVoigt) == [1.0, 1.0, 1.0, 1.0, 1.0, 1.0]
    ensures ApplyAll([1.0, 1.0, 1.0, s, s, s], StrainFactors(s), ToVoigt) == [1.0, 1.0, 1.0, 2.0, 2.0, 2.0]
  {
    var ones := [1.0, 1.0, 1.0, s, s, s];
    StressScaling(ones, s);
    StrainScaling(ones, s);
    var stress, strain := ApplyAll(ones, StressFactors(s), ToVoigt), ApplyAll(ones, StrainFactors(s), ToVoigt);
    assert s * (1.0 / s) == 1.0;
    assert stress[3] == 1.0 && stress[4] == 1.0 && stress[5] == 1.0;
    assert strain[3] == 2.0 && strain[4] == 2.0 && strain[5] == 2.0;
  }

  /** The sqrt 2 of the Voigt tables and the sqrt 2 / 2 of the Mandel bases are the same
      number, up to the factor 2. */
  lemma RootIsTwiceFactor(s: real, f: real)
    requires IsRoot2(s) && Basis.IsFactor(f)
    ensures s == 2.0 * f
  {
    assert (2.0 * f) * (2.0 * f) == 2.0;
    assert (s - 2.0 * f) * (s + 2.0 * f) == 0.0;
    assert s + 2.0 * f > 0.0;
  }

  /** The all-ones (3, 3) tensor, taken to Mandel6 and then to Voigt, is all ones as a stress
      and [1, 1, 1, 2, 2, 2] as a strain. */
  lemma OnesChain(s: real, f: real)
    requires IsRoot2(s) && Basis.IsFactor(f)
    ensures Mandel.IsBasis(Basis.Base6(f)) && |Basis.Base6(f)| == 6
    ensures ApplyAll(Mandel.ToMandel2(seq(9, p => 1.0), Basis.Base6(f)), StressFactors(s), ToVoigt)
      == [1.0, 1.0, 1.0, 1.0, 1.0, 1.0]
    ensures ApplyAll(Mandel.ToMandel2(seq(9, p => 1.0), Basis.Base6(f)), StrainFactors(s), ToVoigt)
      == [1.0, 1.0, 1.0, 2.0, 2.0, 2.0]
  {
    Basis.Base9Shape(f);
    Mandel.Mandel6OnesExample(f);
    RootIsTwiceFactor(s, f);
    OnesExample(s);
  }

  // ---------------------------------------------------------------------------------------
  // The two methods

  /** One pass of the loop: voigt[position] = inp[position] * factor, or
      mandel[position] = inp[position] * 1. / factor. */
  method RescaleSegment(out: array<real>, inp: array<real>, e: (Segment, real), d: Direction)
    requires out != inp && out.Length == inp.Length && e.1 != 0.0
    modifies out
    ensures out[..] == Overwrite(old(out[..]), inp[..], e, d)
  {
    var (position, factor) := e;
    forall i | 0 <= i < out.Length && Covers(position, i) {
      out[i] := Rescale(inp[i], factor, d);
    }
    assert out[..] == Overwrite(old(out[..]), inp[..], e, d) by {
      forall i | 0 <= i < out.Length
        ensures out[i] == Overwrite(old(out[..]), inp[..], e, d)[i]
      {
      }
    }
  }

  /** mandel6_to_voigt: copy the input, then overwrite each listed segment of the copy by
      the input's entries times the factor. An unsupported quantity is a KeyError. */
  method Mandel6ToVoigt(inp: array<real>, voigtType: string, s: real) returns (r: Result<array<real>>)
    requires IsRoot2(s)
    requires voigtType in Factors(s) ==> inp.Length == VoigtLength(voigtType)
    ensures r.Err? <==> voigtType !in Factors(s)
    ensures r.Err? ==> r.error == UnknownQuantity(voigtType)
    ensures unchanged(inp)
    ensures r.Ok? ==> fresh(r.value) && r.value[..] == ApplyAll(inp[..], Factors(s)[voigtType], ToVoigt)
  {
    var voigt := new real[inp.Length](i reads inp => if 0 <= i < inp.Length then inp[i] else 0.0);
    if voigtType !in Factors(s) {
      return Err(UnknownQuantity(voigtType));
    }
    var entries := Factors(s)[voigtType];
    for k := 0 to |entries|
      invariant voigt[..] == ApplyAll(inp[..], entries[..k], ToVoigt)
    {
      ApplyAllStep(inp[..], entries, k, ToVoigt);
      RescaleSegment(voigt, inp, entries[k], ToVoigt);
    }
    assert entries[..|entries|] == entries;
    return Ok(voigt);
  }

  /** voigt_to_mandel6: copy the input, then overwrite each listed segment of the copy by
      the input's entries times 1. / factor. */
  method VoigtToMandel6(inp: array<real>, voigtType: string, s: real) returns (r: Result<array<real>>)
    requires IsRoot2(s)
    requires voigtType in Factors(s) ==> inp.Length == VoigtLength(voigtType)
    ensures r.Err? <==> voigtType !in Factors(s)
    ensures r.Err? ==> r.error == UnknownQuantity(voigtType)
    ensures unchanged(inp)
    ensures r.Ok? ==> fresh(r.value) && r.value[..] == ApplyAll(inp[..], Factors(s)[voigtType], ToMandel)
  {
    var mandel := new real[inp.Length](i reads inp => if 0 <= i < inp.Length then inp[i] else 0.0);
    if voigtType !in Factors(s) {
      return Err(UnknownQuantity(voigtType));
    }
    var entries := Factors(s)[voigtType];
    for k := 0 to |entries|
      invariant mandel[..] == ApplyAll(inp[..], entries[..k], ToMandel)
    {
      ApplyAllStep(inp[..], entries, k, ToMandel);
      RescaleSegment(mandel, inp, entries[k], ToMandel);
    }
    assert entries[..|entries|] == entries;
    return Ok(mandel);
  }
}
