/**
 * Vertex declarations as every renderer back end lays them out: the
 * attributes are packed one after another, each taking the stride of its
 * format, and a bit mask `1 << type` records which attribute types the
 * declaration holds.
 */
module VertexLayout {
  import opened Bits

  /** `eVertexAttrib_Count`: Position, Color, Normal, Tangent, TexCoords0..7, BoneWeight, BoneIndices. */
  const ATTRIB_COUNT: nat := 14

  /** `eVertexFormat_Count` and the enumerators of `eVertexFormat`. */
  const FORMAT_COUNT: nat := 12
  const FORMAT_INVALID: nat := 0
  const FLOAT1: nat := 1
  const FLOAT2: nat := 2
  const FLOAT3: nat := 3
  const FLOAT4: nat := 4
  const HALF2: nat := 5
  const HALF4: nat := 6
  const SHORT2: nat := 7
  const SHORT4: nat := 8
  const USHORT2: nat := 9
  const USHORT4: nat := 10
  const BYTE4: nat := 11

  /** `_vformatstrides`: the bytes one attribute of each format takes. */
  const STRIDES: seq<nat> := [0, 4, 8, 12, 16, 4, 8, 4, 8, 4, 8, 4]

  /** `VertexAttribute`: an attribute type and its format. */
  datatype VertexAttribute = VertexAttribute(kind: nat, format: nat)

  /** An enumerator of each enum, as the tables indexed by them require. */
  predicate Valid(a: VertexAttribute)
  {
    a.kind < ATTRIB_COUNT && a.format < FORMAT_COUNT
  }

  predicate AllValid(attrs: seq<VertexAttribute>)
  {
    forall i :: 0 <= i < |attrs| ==> Valid(attrs[i])
  }

  /** Where attribute `i` starts: the strides of the attributes before it. */
  function Offset(attrs: seq<VertexAttribute>, i: nat): nat
    requires AllValid(attrs) && i <= |attrs|
  {
    if i == 0 then 0 else Offset(attrs, i - 1) + STRIDES[attrs[i - 1].format]
  }

  /** The size of one vertex: the strides of all attributes. */
  function Stride(attrs: seq<VertexAttribute>): nat
    requires AllValid(attrs)
  {
    Offset(attrs, |attrs|)
  }

  /** The or of `1 << type` over the first `n` attributes. */
  function Mask(attrs: seq<VertexAttribute>, n: nat): nat
    requires n <= |attrs|
  {
    if n == 0 then 0 else Or(Mask(attrs, n - 1), Pow2(attrs[n - 1].kind))
  }

  /** Attribute `i` has the type of an earlier one. */
  predicate Repeated(attrs: seq<VertexAttribute>, i: nat)
    requires i < |attrs|
  {
    exists j :: 0 <= j < i && attrs[j].kind == attrs[i].kind
  }

  /** No attribute type appears twice. */
  predicate Distinct(attrs: seq<VertexAttribute>)
  {
    forall i, j :: 0 <= i < j < |attrs| ==> attrs[i].kind != attrs[j].kind
  }

  // ---------------------------------------------------------------------
  // Offsets
  // ---------------------------------------------------------------------

  lemma {:induction false} OffsetMonotone(attrs: seq<VertexAttribute>, i: nat, j: nat)
    requires AllValid(attrs) && i <= j <= |attrs|
    ensures Offset(attrs, i) <= Offset(attrs, j)
    decreases j
  {
    if i < j {
      OffsetMonotone(attrs, i, j - 1);
    }
  }

  /** Every attribute lies inside the vertex. */
  lemma OffsetsFit(attrs: seq<VertexAttribute>, i: nat)
    requires AllValid(attrs) && i < |attrs|
    ensures Offset(attrs, i) + STRIDES[attrs[i].format] <= Stride(attrs)
  {
    OffsetMonotone(attrs, i + 1, |attrs|);
  }

  /** Attributes do not overlap: attribute `j` ends before a later attribute `i` starts. */
  lemma {:induction false} OffsetsOrdered(attrs: seq<VertexAttribute>, j: nat, i: nat)
    requires AllValid(attrs) && j < i < |attrs|
    ensures Offset(attrs, j) + STRIDES[attrs[j].format] <= Offset(attrs, i)
  {
    assert Offset(attrs, j + 1) == Offset(attrs, j) + STRIDES[attrs[j].format];
    OffsetMonotone(attrs, j + 1, i);
  }

  /** The offsets depend only on the attributes before: a declaration extended at the end keeps them. */
  lemma {:induction false} OffsetPrefix(attrs: seq<VertexAttribute>, more: seq<VertexAttribute>, i: nat)
    requires AllValid(attrs) && AllValid(attrs + more) && i <= |attrs|
    ensures Offset(attrs + more, i) == Offset(attrs, i)
  {
    if i > 0 {
      OffsetPrefix(attrs, more, i - 1);
      assert (attrs + more)[i - 1] == attrs[i - 1];
    }
  }

  // ---------------------------------------------------------------------
  // The attribute mask
  // ---------------------------------------------------------------------

  /** Bit `k` of the mask is set exactly when one of the attributes has type `k`. */
  lemma {:induction false} MaskBits(attrs: seq<VertexAttribute>, n: nat, k: nat)
    requires n <= |attrs|
    ensures Bit(Mask(attrs, n), k) <==> exists j :: 0 <= j < n && attrs[j].kind == k
  {
    if n == 0 {
      ZeroBit(k);
    } else {
      MaskBits(attrs, n - 1, k);
      OrBit(Mask(attrs, n - 1), Pow2(attrs[n - 1].kind), k);
      PowBit(attrs[n - 1].kind, k);
    }
  }

  /** The mask of valid attributes fits in `ATTRIB_COUNT` bits, and so in a `uint32_t`. */
  lemma {:induction false} MaskBelow(attrs: seq<VertexAttribute>, n: nat)
    requires AllValid(attrs) && n <= |attrs|
    ensures Mask(attrs, n) < Pow2(ATTRIB_COUNT) == 0x4000
  {
    assert Pow2(4) == 0x10;
    assert Pow2(8) == 0x100;
    assert Pow2(12) == 0x1000;
    assert Pow2(ATTRIB_COUNT) == 0x4000;
    if n > 0 {
      MaskBelow(attrs, n - 1);
      PowMonotone(attrs[n - 1].kind + 1, ATTRIB_COUNT);
      OrBelow(Mask(attrs, n - 1), Pow2(attrs[n - 1].kind), ATTRIB_COUNT);
    }
  }

  /** The mask of a whole declaration, which fits the `uint32_t` the back ends keep it in. */
  function Flags(attrs: seq<VertexAttribute>): (f: nat)
    requires AllValid(attrs)
    ensures f < 0x4000
  {
    MaskBelow(attrs, |attrs|);
    Mask(attrs, |attrs|)
  }

  /** `(flags & (1 << type)) == (1 << type)` on the mask so far detects a repeated type. */
  lemma DuplicateTest(attrs: seq<VertexAttribute>, i: nat)
    requires i < |attrs|
    ensures And(Mask(attrs, i), Pow2(attrs[i].kind)) == Pow2(attrs[i].kind) <==> Repeated(attrs, i)
  {
    MaskTest(Mask(attrs, i), attrs[i].kind);
    MaskBits(attrs, i, attrs[i].kind);
  }

  /** A declaration is free of repeats exactly when no attribute repeats an earlier one. */
  lemma DistinctRepeated(attrs: seq<VertexAttribute>)
    ensures Distinct(attrs) <==> forall i :: 0 <= i < |attrs| ==> !Repeated(attrs, i)
  {
    if forall i :: 0 <= i < |attrs| ==> !Repeated(attrs, i) {
      forall i, j | 0 <= i < j < |attrs|
        ensures attrs[i].kind != attrs[j].kind
      {
        assert !Repeated(attrs, j);
      }
    }
  }

  /** A prefix of a declaration without repeats has none. */
  lemma DistinctPrefix(attrs: seq<VertexAttribute>, n: nat)
    requires n <= |attrs| && Distinct(attrs)
    ensures Distinct(attrs[..n])
  {
  }

  // ---------------------------------------------------------------------
  // A declaration without repeats has at most ATTRIB_COUNT attributes
  // ---------------------------------------------------------------------

  function Kinds(attrs: seq<VertexAttribute>, n: nat): set<nat>
    requires n <= |attrs|
  {
    set j | 0 <= j < n :: attrs[j].kind
  }

  lemma {:induction false} KindsCount(attrs: seq<VertexAttribute>, n: nat)
    requires n <= |attrs| && Distinct(attrs)
    ensures |Kinds(attrs, n)| == n
  {
    if n > 0 {
      KindsCount(attrs, n - 1);
      assert Kinds(attrs, n) == Kinds(attrs, n - 1) + {attrs[n - 1].kind};
    }
  }

  lemma {:induction false} SubsetCount(a: set<nat>, b: set<nat>)
    requires a <= b
    ensures |a| <= |b|
    decreases |b|
  {
    if a != {} {
      var x :| x in a;
      SubsetCount(a - {x}, b - {x});
    }
  }

  /** The values below `n`. */
  function Below(n: nat): (r: set<nat>)
    ensures forall k: nat :: k in r <==> k < n
  {
    if n == 0 then {} else Below(n - 1) + {n - 1}
  }

  lemma {:induction false} BelowCount(n: nat)
    ensures |Below(n)| == n
  {
    if n > 0 {
      BelowCount(n - 1);
    }
  }

  /** With fourteen attribute types, a fifteenth attribute must repeat one. */
  lemma DistinctFits(attrs: seq<VertexAttribute>)
    requires AllValid(attrs) && Distinct(attrs)
    ensures |attrs| <= ATTRIB_COUNT
  {
    KindsCount(attrs, |attrs|);
    BelowCount(ATTRIB_COUNT);
    SubsetCount(Kinds(attrs, |attrs|), Below(ATTRIB_COUNT));
  }
}
