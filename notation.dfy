/** The converter: classification of an array by its shape, the three dispatch tables that
    pick a conversion for each classified input, and the entry points to_mandel6,
    to_mandel9 and to_tensor.

    An array is its shape together with its entries in row-major order. Read that way, the
    81 entries of a (3, 3, 3, 3) array cut into nine rows of nine are exactly the 9 x 9
    matrix T[3 i + j][3 k + l] the contractions of Mandel work on, and the 36 entries of a
    (6, 6) array cut into six rows of six are its 6 x 6 matrix. */
module Notation {
  import opened LinAlg
  import opened Basis
  import opened Mandel
  import opened Results

  datatype NdArray = NdArray(shape: seq<nat>, data: seq<real>)

  function Product(shape: seq<nat>): nat
  {
    if |shape| == 0 then 1 else shape[0] * Product(shape[1..])
  }

  /** The entry count matches the shape. */
  predicate WellFormed(x: NdArray)
  {
    |x.data| == Product(x.shape)
  }

  datatype Notation = Tensor | Mandel6 | Mandel9
  datatype Order = Two | Four

  /** The six types of get_type_by_shape: 't_2', 't_4', 'm6_2', 'm6_4', 'm9_2', 'm9_4'. */
  datatype Kind = Kind(notation: Notation, order: Order)

  /** The shape of an array of the given kind. */
  function ShapeOf(k: Kind): seq<nat>
  {
    match k
    case Kind(Tensor, Two)   => [DIM, DIM]
    case Kind(Tensor, Four)  => [DIM, DIM, DIM, DIM]
    case Kind(Mandel6, Two)  => [DIM_MANDEL6]
    case Kind(Mandel6, Four) => [DIM_MANDEL6, DIM_MANDEL6]
    case Kind(Mandel9, Two)  => [DIM_MANDEL9]
    case Kind(Mandel9, Four) => [DIM_MANDEL9, DIM_MANDEL9]
  }

  lemma ProductPair(d: nat)
    ensures Product([d]) == d && Product([d, d]) == d * d
  {
    assert [d, d][1..] == [d];
  }

  /** An array of kind k has Entries(k) entries. */
  lemma ShapeProduct(k: Kind)
    ensures Product(ShapeOf(k)) == Entries(k)
  {
    match k
    case Kind(Tensor, Two) => ProductPair(3);
    case Kind(Tensor, Four) =>
      ProductPair(3);
      assert [3, 3, 3, 3][1..] == [3, 3, 3] && [3, 3, 3][1..] == [3, 3];
    case Kind(Mandel6, _) => ProductPair(6);
    case Kind(Mandel9, _) => ProductPair(9);
  }

  /** The number of Mandel (or flattened tensor) components along one index pair. */
  function Components(n: Notation): nat
  {
    match n
    case Tensor => 9
    case Mandel6 => DIM_MANDEL6
    case Mandel9 => DIM_MANDEL9
  }

  /** The number of entries of an array of kind k. */
  function Entries(k: Kind): nat
  {
    var n := Components(k.notation);
    if k.order == Two then n else n * n
  }

  /** The six shapes, one per kind. */
  lemma KnownShapes()
    ensures forall k :: ShapeOf(k) in {[3, 3], [3, 3, 3, 3], [6], [6, 6], [9], [9, 9]}
    ensures forall k, k' :: ShapeOf(k) == ShapeOf(k') ==> k == k'
  {
  }

  /** get_type_by_shape: a lookup in the dictionary of the six known shapes; any other shape
      is a KeyError. */
  function TypeByShape(shape: seq<nat>): (r: Result<Kind>)
    ensures r.Ok? ==> ShapeOf(r.value) == shape
    ensures r.Err? ==> r.error == UnknownShape(shape) && forall k :: ShapeOf(k) != shape
  {
    var types := map[
      [DIM, DIM]                 := Kind(Tensor, Two),
      [DIM, DIM, DIM, DIM]       := Kind(Tensor, Four),
      [DIM_MANDEL6]              := Kind(Mandel6, Two),
      [DIM_MANDEL6, DIM_MANDEL6] := Kind(Mandel6, Four),
      [DIM_MANDEL9]              := Kind(Mandel9, Two),
      [DIM_MANDEL9, DIM_MANDEL9] := Kind(Mandel9, Four)];
    KnownShapes();
    if shape in types then Ok(types[shape]) else Err(UnknownShape(shape))
  }

  /** Every kind is recognised from its own shape, so the classification is exact. */
  lemma TypeByShapeOf(k: Kind)
    ensures TypeByShape(ShapeOf(k)) == Ok(k)
  {
    KnownShapes();
  }

  // ---------------------------------------------------------------------------------------
  // The conversions the tables choose from

  datatype BaseName = Base6Name | Base9Name

  /** The bound methods the tables hold. */
  datatype Conversion =
    | PassThrough
      /** tensor2_to_mandel / tensor4_to_mandel with BASE6 or BASE9 */
    | Project(base: BaseName, order: Order)
      /** mandel_2_to_tensor / mandel_4_to_tensor with BASE6 or BASE9 */
    | Expand(base: BaseName, order: Order)
      /** mandel6_2_to_mandel9 / mandel6_4_to_mandel9 */
    | Pad(order: Order)
      /** mandel9_2_to_mandel6 / mandel9_4_to_mandel6 */
    | Truncate(order: Order)

  function NotationOf(b: BaseName): Notation
  {
    match b
    case Base6Name => Mandel6
    case Base9Name => Mandel9
  }

  /** The kind a conversion accepts. */
  predicate Accepts(c: Conversion, k: Kind)
  {
    match c
    case PassThrough => true
    case Project(_, o) => k == Kind(Tensor, o)
    case Expand(b, o) => k == Kind(NotationOf(b), o)
    case Pad(o) => k == Kind(Mandel6, o)
    case Truncate(o) => k == Kind(Mandel9, o)
  }

  /** The kind a conversion produces from an input of kind k. */
  function Target(c: Conversion, k: Kind): Kind
  {
    match c
    case PassThrough => k
    case Project(b, o) => Kind(NotationOf(b), o)
    case Expand(_, o) => Kind(Tensor, o)
    case Pad(o) => Kind(Mandel9, o)
    case Truncate(o) => Kind(Mandel6, o)
  }

  /** The table entry c takes kind k to notation n and keeps the order. */
  predicate Converts(c: Conversion, k: Kind, n: Notation)
  {
    Accepts(c, k) && Target(c, k) == Kind(n, k.order)
  }

  // ---------------------------------------------------------------------------------------
  // The three dispatch tables

  /** The six kinds of array the converter knows. */
  lemma KindCases(k: Kind)
    ensures k in {Kind(Tensor, Two), Kind(Tensor, Four), Kind(Mandel6, Two), Kind(Mandel6, Four),
                  Kind(Mandel9, Two), Kind(Mandel9, Four)}
  {
    match k
    case Kind(Tensor, Two) =>
    case Kind(Tensor, Four) =>
    case Kind(Mandel6, Two) =>
    case Kind(Mandel6, Four) =>
    case Kind(Mandel9, Two) =>
    case Kind(Mandel9, Four) =>
  }

  function ToMandel6Table(): (t: map<Kind, Conversion>)
    ensures forall k: Kind :: k in t && Converts(t[k], k, Mandel6) && (t[k] == PassThrough <==> k.notation == Mandel6)
  {
    var t := map[
      Kind(Tensor, Two)   := Project(Base6Name, Two),
      Kind(Tensor, Four)  := Project(Base6Name, Four),
      Kind(Mandel6, Two)  := PassThrough,
      Kind(Mandel6, Four) := PassThrough,
      Kind(Mandel9, Two)  := Truncate(Two),
      Kind(Mandel9, Four) := Truncate(Four)];
    assert forall k: Kind :: k in t && Converts(t[k], k, Mandel6) && (t[k] == PassThrough <==> k.notation == Mandel6) by {
      forall k: Kind
        ensures k in t && Converts(t[k], k, Mandel6) && (t[k] == PassThrough <==> k.notation == Mandel6)
      {
        KindCases(k);
      }
    }
    t
  }

  function ToMandel9Table(): (t: map<Kind, Conversion>)
    ensures forall k: Kind :: k in t && Converts(t[k], k, Mandel9) && (t[k] == PassThrough <==> k.notation == Mandel9)
  {
    var t := map[
      Kind(Tensor, Two)   := Project(Base9Name, Two),
      Kind(Tensor, Four)  := Project(Base9Name, Four),
      Kind(Mandel6, Two)  := Pad(Two),
      Kind(Mandel6, Four) := Pad(Four),
      Kind(Mandel9, Two)  := PassThrough,
      Kind(Mandel9, Four) := PassThrough];
    assert forall k: Kind :: k in t && Converts(t[k], k, Mandel9) && (t[k] == PassThrough <==> k.notation == Mandel9) by {
      forall k: Kind
        ensures k in t && Converts(t[k], k, Mandel9) && (t[k] == PassThrough <==> k.notation == Mandel9)
      {
        KindCases(k);
      }
    }
    t
  }

  function ToTensorTable(): (t: map<Kind, Conversion>)
    ensures forall k: Kind :: k in t && Converts(t[k], k, Tensor) && (t[k] == PassThrough <==> k.notation == Tensor)
  {
    var t := map[
      Kind(Tensor, Two)   := PassThrough,
      Kind(Tensor, Four)  := PassThrough,
      Kind(Mandel6, Two)  := Expand(Base6Name, Two),
      Kind(Mandel6, Four) := Expand(Base6Name, Four),
      Kind(Mandel9, Two)  := Expand(Base9Name, Two),
      Kind(Mandel9, Four) := Expand(Base9Name, Four)];
    assert forall k: Kind :: k in t && Converts(t[k], k, Tensor) && (t[k] == PassThrough <==> k.notation == Tensor) by {
      forall k: Kind
        ensures k in t && Converts(t[k], k, Tensor) && (t[k] == PassThrough <==> k.notation == Tensor)
      {
        KindCases(k);
      }
    }
    t
  }

  /** The table of a target notation. */
  function Table(n: Notation): map<Kind, Conversion>
  {
    match n
    case Tensor => ToTensorTable()
    case Mandel6 => ToMandel6Table()
    case Mandel9 => ToMandel9Table()
  }

  /** Each table covers all six kinds, takes each to its notation, and passes through
      exactly the kinds already in it. */
  lemma TablesComplete(n: Notation, k: Kind)
    ensures k in Table(n)
    ensures Converts(Table(n)[k], k, n)
    ensures Table(n)[k] == PassThrough <==> k.notation == n
  {
    match n
    case Tensor =>
    case Mandel6 =>
    case Mandel9 =>
  }

  /** get_to_mandel6_func, get_to_mandel9_func and get_to_tensor_func: classify the input,
      then look its type up in the table of the target notation. */
  function GetConversion(inp: NdArray, n: Notation): (r: Result<(Kind, Conversion)>)
    ensures r.Ok? <==> TypeByShape(inp.shape).Ok?
    ensures r.Err? ==> r.error == UnknownShape(inp.shape)
    ensures r.Ok? ==> r.value.0 == TypeByShape(inp.shape).value && Converts(r.value.1, r.value.0, n)
  {
    var k :- TypeByShape(inp.shape);
    TablesComplete(n, k);
    Ok((k, Table(n)[k]))
  }

  // ---------------------------------------------------------------------------------------
  // The converter

  /** A Converter: the factor sqrt(2) / 2 and the two bases it builds at construction. */
  datatype Converter = Converter(factor: real, base6: Mat, base9: Mat)
  {
    predicate Valid()
    {
      IsFactor(factor) && base6 == Base6(factor) && base9 == Base9(factor)
    }

    function Base(b: BaseName): (m: Mat)
      requires Valid()
      ensures IsBasis(m) && |m| == Components(NotationOf(b))
    {
      Base9Shape(factor);
      match b
      case Base6Name => base6
      case Base9Name => base9
    }
  }

  /** Converter.__init__ with the factor given: the bases are built by the array builders
      and frozen. */
  method NewConverter(f: real) returns (c: Converter)
    requires IsFactor(f)
    ensures c.Valid() && c.factor == f
  {
    var b6 := GetMandelBaseSym(f);
    var b9 := GetMandelBaseSkw(f);
    FrozenHolds(b6, Base6(f));
    FrozenHolds(b9, Base9(f));
    c := Converter(f, Frozen(b6), Frozen(b9));
  }

  /** The entries of an array of kind k as a vector (order two) or a matrix (order four). */
  function AsMatrix(x: NdArray, k: Kind): (m: Mat)
    requires k.order == Four && WellFormed(x) && x.shape == ShapeOf(k)
    ensures IsMat(m, Components(k.notation), Components(k.notation))
  {
    var n := Components(k.notation);
    ShapeProduct(k);
    Chunks(x.data, n, n)
  }

  /** Applies the conversion chosen by a table to an input of the kind it accepts. */
  function Apply(c: Converter, conv: Conversion, k: Kind, inp: NdArray): (r: NdArray)
    requires c.Valid() && WellFormed(inp) && inp.shape == ShapeOf(k) && Accepts(conv, k)
    ensures WellFormed(r) && r.shape == ShapeOf(Target(conv, k))
  {
    var shape := ShapeOf(Target(conv, k));
    ShapeProduct(k);
    ShapeProduct(Target(conv, k));
    match conv
    case PassThrough => inp
    case Project(b, o) =>
      if o == Two then NdArray(shape, ToMandel2(inp.data, c.Base(b)))
      else
        var m := ToMandel4(AsMatrix(inp, k), c.Base(b));
        FlattenLength(m, |m|, |m|);
        NdArray(shape, Flatten(m))
    case Expand(b, o) =>
      if o == Two then NdArray(shape, FromMandel2(inp.data, c.Base(b)))
      else
        var t := FromMandel4(AsMatrix(inp, k), c.Base(b));
        FlattenLength(t, 9, 9);
        NdArray(shape, Flatten(t))
    case Pad(o) =>
      if o == Two then NdArray(shape, Pad2(inp.data))
      else
        var m := Pad4(AsMatrix(inp, k));
        FlattenLength(m, 9, 9);
        NdArray(shape, Flatten(m))
    case Truncate(o) =>
      if o == Two then NdArray(shape, Truncate2(inp.data))
      else
        var m := Truncate4(AsMatrix(inp, k));
        FlattenLength(m, 6, 6);
        NdArray(shape, Flatten(m))
  }

  /** to_mandel6, to_mandel9 and to_tensor: look up the conversion, then apply it. An input
      of unknown shape fails; one already in the target notation comes back unchanged;
      anything else comes back in the target notation with its order kept. */
  function Convert(c: Converter, inp: NdArray, n: Notation): (r: Result<NdArray>)
    requires c.Valid() && WellFormed(inp)
    ensures r.Ok? <==> TypeByShape(inp.shape).Ok?
    ensures r.Err? ==> r.error == UnknownShape(inp.shape)
    ensures r.Ok? ==>
      WellFormed(r.value) && r.value.shape == ShapeOf(Kind(n, TypeByShape(inp.shape).value.order))
    ensures r.Ok? && TypeByShape(inp.shape).value.notation == n ==> r.value == inp
  {
    var (k, conv) :- GetConversion(inp, n);
    TablesComplete(n, k);
    Ok(Apply(c, conv, k, inp))
  }

  function ToMandel6(c: Converter, inp: NdArray): (r: Result<NdArray>)
    requires c.Valid() && WellFormed(inp)
  {
    Convert(c, inp, Mandel6)
  }

  /** The verbose flag only prints a warning and is not modelled. */
  function ToMandel9(c: Converter, inp: NdArray): (r: Result<NdArray>)
    requires c.Valid() && WellFormed(inp)
  {
    Convert(c, inp, Mandel9)
  }

  function ToTensor(c: Converter, inp: NdArray): (r: Result<NdArray>)
    requires c.Valid() && WellFormed(inp)
  {
    Convert(c, inp, Tensor)
  }

  // ---------------------------------------------------------------------------------------
  // Properties of the entry points

  /** The conversion the entry point applies to an input of a known kind. */
  lemma ConvertApplies(c: Converter, x: NdArray, k: Kind, n: Notation)
    requires c.Valid() && WellFormed(x) && TypeByShape(x.shape) == Ok(k)
    ensures k in Table(n) && Accepts(Table(n)[k], k) && x.shape == ShapeOf(k)
    ensures Convert(c, x, n) == Ok(Apply(c, Table(n)[k], k, x))
  {
    TablesComplete(n, k);
  }

  /** The three entry points reject exactly the same inputs: those of unknown shape. */
  lemma EntryPointsFailTogether(c: Converter, x: NdArray)
    requires c.Valid() && WellFormed(x)
    ensures ToMandel6(c, x).Err? <==> ToMandel9(c, x).Err?
    ensures ToMandel9(c, x).Err? <==> ToTensor(c, x).Err?
    ensures ToTensor(c, x).Err? <==> forall k :: ShapeOf(k) != x.shape
  {
    if ToTensor(c, x).Ok? {
      TypeByShapeOf(TypeByShape(x.shape).value);
    }
  }

  /** A tensor converted to Mandel9 and back is the same tensor. */
  lemma TensorRoundTrip9(c: Converter, x: NdArray)
    requires c.Valid() && WellFormed(x)
    requires TypeByShape(x.shape).Ok? && TypeByShape(x.shape).value.notation == Tensor
    ensures ToMandel9(c, x).Ok?
    ensures ToTensor(c, ToMandel9(c, x).value) == Ok(x)
  {
    var k := TypeByShape(x.shape).value;
    TableBases(Base9Name, k.order);
    ConvertApplies(c, x, k, Mandel9);
    var y := ToMandel9(c, x).value;
    var k' := Kind(Mandel9, k.order);
    TypeByShapeOf(k');
    ConvertApplies(c, y, k', Tensor);
    if k.order == Two {
      ProjectExpand9Two(c, x, k);
    } else {
      ProjectExpand9Four(c, x, k);
    }
  }

  lemma ProjectExpand9Two(c: Converter, x: NdArray, k: Kind)
    requires c.Valid() && WellFormed(x) && x.shape == ShapeOf(k) && k == Kind(Tensor, Two)
    ensures Apply(c, Expand(Base9Name, Two), Kind(Mandel9, Two), Apply(c, Project(Base9Name, Two), k, x)) == x
  {
    ShapeProduct(k);
    Tensor2RoundTrip9(x.data, c.factor);
  }

  lemma ProjectExpand9Four(c: Converter, x: NdArray, k: Kind)
    requires c.Valid() && WellFormed(x) && x.shape == ShapeOf(k) && k == Kind(Tensor, Four)
    ensures Apply(c, Expand(Base9Name, Four), Kind(Mandel9, Four), Apply(c, Project(Base9Name, Four), k, x)) == x
  {
    ShapeProduct(k);
    Base9Shape(c.factor);
    var t := AsMatrix(x, k);
    var m := ToMandel4(t, c.base9);
    ChunksFlatten(m, 9, 9);
    Tensor4RoundTrip9(t, c.factor);
    FlattenChunks(x.data, 9, 9);
  }

  /** A tensor converted to Mandel6 and back is the same tensor exactly when it is symmetric
      (order two) or has both minor symmetries (order four). */
  lemma TensorRoundTrip6(c: Converter, x: NdArray)
    requires c.Valid() && WellFormed(x)
    requires TypeByShape(x.shape).Ok? && TypeByShape(x.shape).value.notation == Tensor
    ensures ToMandel6(c, x).Ok? && |x.data| == Entries(TypeByShape(x.shape).value)
    ensures TypeByShape(x.shape).value.order == Two ==>
      (ToTensor(c, ToMandel6(c, x).value) == Ok(x) <==> Symmetric2(x.data))
    ensures TypeByShape(x.shape).value.order == Four ==>
      (ToTensor(c, ToMandel6(c, x).value) == Ok(x) <==> MinorSymmetric(AsMatrix(x, TypeByShape(x.shape).value)))
  {
    var k := TypeByShape(x.shape).value;
    ShapeProduct(k);
    TableBases(Base6Name, k.order);
    ConvertApplies(c, x, k, Mandel6);
    var y := ToMandel6(c, x).value;
    var k' := Kind(Mandel6, k.order);
    TypeByShapeOf(k');
    ConvertApplies(c, y, k', Tensor);
    if k.order == Two {
      ProjectExpand6Two(c, x, k);
    } else {
      ProjectExpand6Four(c, x, k);
    }
  }

  lemma ProjectExpand6Two(c: Converter, x: NdArray, k: Kind)
    requires c.Valid() && WellFormed(x) && x.shape == ShapeOf(k) && k == Kind(Tensor, Two)
    ensures |x.data| == 9
    ensures Apply(c, Expand(Base6Name, Two), Kind(Mandel6, Two), Apply(c, Project(Base6Name, Two), k, x)) == x
      <==> Symmetric2(x.data)
  {
    ShapeProduct(k);
    Tensor2RoundTrip6(x.data, c.factor);
  }

  lemma ProjectExpand6Four(c: Converter, x: NdArray, k: Kind)
    requires c.Valid() && WellFormed(x) && x.shape == ShapeOf(k) && k == Kind(Tensor, Four)
    ensures Apply(c, Expand(Base6Name, Four), Kind(Mandel6, Four), Apply(c, Project(Base6Name, Four), k, x)) == x
      <==> MinorSymmetric(AsMatrix(x, k))
  {
    ShapeProduct(k);
    Base9Shape(c.factor);
    var t := AsMatrix(x, k);
    var m := ToMandel4(t, c.base6);
    ChunksFlatten(m, 6, 6);
    Tensor4RoundTrip6(t, c.factor);
    FlattenChunks(x.data, 9, 9);
    var back := FromMandel4(m, c.base6);
    ChunksFlatten(back, 9, 9);
    var y := Apply(c, Project(Base6Name, Four), k, x);
    assert Apply(c, Expand(Base6Name, Four), Kind(Mandel6, Four), y) == NdArray(x.shape, Flatten(back));
    if Flatten(back) == x.data {
      assert back == t;
    }
  }

  /** The tables expand a Mandel array in its own basis and project a tensor back onto it. */
  lemma TableBases(b: BaseName, o: Order)
    ensures Table(Tensor)[Kind(NotationOf(b), o)] == Expand(b, o)
    ensures Table(NotationOf(b))[Kind(Tensor, o)] == Project(b, o)
  {
  }

  /** Expanding a Mandel array and projecting the tensor back onto the same basis is the
      identity. */
  lemma ExpandProject(c: Converter, x: NdArray, k: Kind, b: BaseName)
    requires c.Valid() && WellFormed(x) && x.shape == ShapeOf(k) && k.notation == NotationOf(b)
    ensures Accepts(Project(b, k.order), Target(Expand(b, k.order), k))
    ensures Apply(c, Project(b, k.order), Kind(Tensor, k.order), Apply(c, Expand(b, k.order), k, x)) == x
  {
    if k.order == Two {
      ExpandProject2(c, x, k, b);
    } else {
      ExpandProject4(c, x, k, b);
    }
  }

  lemma ExpandProject2(c: Converter, x: NdArray, k: Kind, b: BaseName)
    requires c.Valid() && WellFormed(x) && x.shape == ShapeOf(k) && k.notation == NotationOf(b)
    requires k.order == Two
    ensures Apply(c, Project(b, Two), Kind(Tensor, Two), Apply(c, Expand(b, Two), k, x)) == x
  {
    ShapeProduct(k);
    Base6IsOrthonormal(c.factor);
    Base9IsOrthonormal(c.factor);
    Mandel2RoundTrip(x.data, c.Base(b));
  }

  lemma ExpandProject4(c: Converter, x: NdArray, k: Kind, b: BaseName)
    requires c.Valid() && WellFormed(x) && x.shape == ShapeOf(k) && k.notation == NotationOf(b)
    requires k.order == Four
    ensures Apply(c, Project(b, Four), Kind(Tensor, Four), Apply(c, Expand(b, Four), k, x)) == x
  {
    TypeByShapeOf(k);
    MandelRoundTrip4(c, x, k, b);
  }

  lemma MandelRoundTripAt(c: Converter, x: NdArray, k: Kind, b: BaseName)
    requires c.Valid() && WellFormed(x) && TypeByShape(x.shape) == Ok(k) && k.notation == NotationOf(b)
    ensures ToTensor(c, x).Ok?
    ensures Convert(c, ToTensor(c, x).value, k.notation) == Ok(x)
  {
    TableBases(b, k.order);
    ConvertApplies(c, x, k, Tensor);
    var y := ToTensor(c, x).value;
    var k' := Kind(Tensor, k.order);
    TypeByShapeOf(k');
    ConvertApplies(c, y, k', k.notation);
    ExpandProject(c, x, k, b);
  }

  lemma MandelRoundTrip4(c: Converter, x: NdArray, k: Kind, b: BaseName)
    requires c.Valid() && WellFormed(x) && TypeByShape(x.shape) == Ok(k) && k.notation == NotationOf(b)
    requires k.order == Four
    ensures x.shape == ShapeOf(k) && |x.data| == Entries(k)
    ensures |Flatten(FromMandel4(AsMatrix(x, k), c.Base(b)))| == 9 * 9
    ensures Flatten(ToMandel4(Chunks(Flatten(FromMandel4(AsMatrix(x, k), c.Base(b))), 9, 9), c.Base(b))) == x.data
  {
    ShapeProduct(k);
    var n := Components(k.notation);
    var base := c.Base(b);
    Base6IsOrthonormal(c.factor);
    Base9IsOrthonormal(c.factor);
    var m := AsMatrix(x, k);
    var t := FromMandel4(m, base);
    ChunksFlatten(t, 9, 9);
    Mandel4RoundTrip(m, base);
    FlattenChunks(x.data, n, n);
  }

  /** A Mandel6 or Mandel9 array converted to a tensor and back is the same array. */
  lemma MandelRoundTrip(c: Converter, x: NdArray)
    requires c.Valid() && WellFormed(x)
    requires TypeByShape(x.shape).Ok? && TypeByShape(x.shape).value.notation != Tensor
    ensures ToTensor(c, x).Ok?
    ensures Convert(c, ToTensor(c, x).value, TypeByShape(x.shape).value.notation) == Ok(x)
  {
    var k := TypeByShape(x.shape).value;
    MandelRoundTripAt(c, x, k, if k.notation == Mandel6 then Base6Name else Base9Name);
  }

  /** A Mandel6 array padded to Mandel9 and truncated again is the same array. */
  lemma Mandel6RoundTrip9(c: Converter, x: NdArray)
    requires c.Valid() && WellFormed(x)
    requires TypeByShape(x.shape).Ok? && TypeByShape(x.shape).value.notation == Mandel6
    ensures ToMandel9(c, x).Ok?
    ensures ToMandel6(c, ToMandel9(c, x).value) == Ok(x)
  {
    var k := TypeByShape(x.shape).value;
    ShapeProduct(k);
    ConvertApplies(c, x, k, Mandel9);
    var y := ToMandel9(c, x).value;
    var k' := Kind(Mandel9, k.order);
    TypeByShapeOf(k');
    ConvertApplies(c, y, k', Mandel6);
    if k.order == Two {
      TruncatePad2(x.data);
    } else {
      var m := AsMatrix(x, k);
      ChunksFlatten(Pad4(m), 9, 9);
      TruncatePad4(m);
      FlattenChunks(x.data, 6, 6);
    }
  }

  /** Converting a tensor to Mandel9 and truncating gives its Mandel6 representation. */
  lemma Mandel9TruncatesTo6(c: Converter, x: NdArray)
    requires c.Valid() && WellFormed(x)
    requires TypeByShape(x.shape).Ok? && TypeByShape(x.shape).value.notation == Tensor
    ensures ToMandel9(c, x).Ok?
    ensures ToMandel6(c, ToMandel9(c, x).value) == ToMandel6(c, x)
  {
    var k := TypeByShape(x.shape).value;
    ShapeProduct(k);
    ConvertApplies(c, x, k, Mandel9);
    ConvertApplies(c, x, k, Mandel6);
    var y := ToMandel9(c, x).value;
    var k' := Kind(Mandel9, k.order);
    TypeByShapeOf(k');
    ConvertApplies(c, y, k', Mandel6);
    if k.order == Two {
      TruncateMandel9Is6(x.data, c.factor);
    } else {
      var t := AsMatrix(x, k);
      ChunksFlatten(ToMandel4(t, c.base9), 9, 9);
      Truncate4Mandel9Is6(t, c.factor);
    }
  }

  /** A Mandel6 array means the same tensor before and after padding to Mandel9. */
  lemma PadKeepsTensor(c: Converter, x: NdArray)
    requires c.Valid() && WellFormed(x)
    requires TypeByShape(x.shape).Ok? && TypeByShape(x.shape).value.notation == Mandel6
    ensures ToMandel9(c, x).Ok?
    ensures ToTensor(c, ToMandel9(c, x).value) == ToTensor(c, x)
  {
    var k := TypeByShape(x.shape).value;
    ShapeProduct(k);
    ConvertApplies(c, x, k, Mandel9);
    ConvertApplies(c, x, k, Tensor);
    var y := ToMandel9(c, x).value;
    var k' := Kind(Mandel9, k.order);
    TypeByShapeOf(k');
    ConvertApplies(c, y, k', Tensor);
    if k.order == Two {
      PadMandel6Expands(x.data, c.factor);
    } else {
      var m := AsMatrix(x, k);
      ChunksFlatten(Pad4(m), 9, 9);
      PadMandel6Expands4(m, c.factor);
    }
  }
}
