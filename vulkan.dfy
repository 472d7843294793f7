/**
 * What the two Vulkan back ends share: the vertex-input description a
 * vertex declaration becomes, the search for a memory type and the choice
 * of queue families. The arrays the Vulkan API fills in are parameters.
 */
module Vulkan {
  import opened Memory
  import opened Bits
  import opened VertexLayout
  import opened ResourceId

  /** The `VkFormat` values the vertex tables use. */
  datatype VkFormat =
    | UNDEFINED
    | R32_SFLOAT | R32G32_SFLOAT | R32G32B32_SFLOAT | R32G32B32A32_SFLOAT
    | R16G16_SFLOAT | R16G16B16A16_SFLOAT
    | R16G16_SINT | R16G16B16A16_SINT
    | R16G16_UINT | R16G16B16A16_UINT
    | R8G8B8A8_UINT | B8G8R8A8_UNORM

  /** `_vformat2vkformat` without the last entry, which the two back ends choose differently. */
  const COMMON_FORMATS: seq<VkFormat> :=
    [UNDEFINED, R32_SFLOAT, R32G32_SFLOAT, R32G32B32_SFLOAT, R32G32B32A32_SFLOAT,
     R16G16_SFLOAT, R16G16B16A16_SFLOAT, R16G16_SINT, R16G16B16A16_SINT,
     R16G16_UINT, R16G16B16A16_UINT]

  /** `VkVertexInputAttributeDescription`. */
  datatype Description = Description(location: nat, binding: nat, format: VkFormat, offset: nat)

  /**
   * `VDeclaration`: `count` descriptions and the one binding, whose number
   * is 0 and whose input rate is per vertex, so only its stride varies.
   */
  datatype VDeclaration = VDeclaration(count: nat, descriptions: seq<Description>, stride: nat)

  /** The description of attribute `i`: its type as location, binding 0, the format from `formats`, packed. */
  function Describe(attrs: seq<VertexAttribute>, formats: seq<VkFormat>, i: nat): Description
    requires AllValid(attrs) && |formats| == FORMAT_COUNT && i < |attrs|
  {
    Description(attrs[i].kind, 0, formats[attrs[i].format], Offset(attrs, i))
  }

  /** The declaration `create_vdecl` pushes for `attrs`. */
  function Declaration(attrs: seq<VertexAttribute>, formats: seq<VkFormat>): (d: VDeclaration)
    requires AllValid(attrs) && |formats| == FORMAT_COUNT
  {
    VDeclaration(|attrs|, seq(|attrs|, i requires 0 <= i < |attrs| => Describe(attrs, formats, i)), Stride(attrs))
  }

  /**
   * The loop of `create_vdecl`: it ors `1 << type` into `flags`, gives up on
   * a type already in `flags`, and fills the descriptions at a running
   * offset. The result is the declaration and the flags, or `None` for a
   * repeated type.
   */
  method DescribeVertices(attrs: seq<VertexAttribute>, formats: seq<VkFormat>) returns (r: Option<(VDeclaration, u32)>)
    requires AllValid(attrs) && |attrs| < ATTRIB_COUNT && |formats| == FORMAT_COUNT
    ensures r.None? <==> !Distinct(attrs)
    ensures r.Some? ==> r.value.0 == Declaration(attrs, formats) && r.value.1 == Flags(attrs)
  {
    var flags: nat := 0;
    var offset: nat := 0;
    var descriptions: seq<Description> := [];
    for i := 0 to |attrs|
      invariant flags == Mask(attrs, i) && offset == Offset(attrs, i)
      invariant |descriptions| == i
      invariant forall k :: 0 <= k < i ==> descriptions[k] == Describe(attrs, formats, k)
      invariant forall k :: 0 <= k < i ==> !Repeated(attrs, k)
    {
      var attrflag := Pow2(attrs[i].kind);
      if And(flags, attrflag) == attrflag {
        DuplicateTest(attrs, i);
        return None;
      }
      flags := Or(flags, Pow2(attrs[i].kind));
      descriptions := descriptions + [Description(attrs[i].kind, 0, formats[attrs[i].format], offset)];
      offset := offset + STRIDES[attrs[i].format];
      DuplicateTest(attrs, i);
    }
    DistinctRepeated(attrs);
    assert flags == Flags(attrs);
    return Some((VDeclaration(|attrs|, descriptions, offset), flags));
  }

  /** Every description of a declaration sits inside the binding's stride, in attribute order. */
  lemma DeclarationLayout(attrs: seq<VertexAttribute>, formats: seq<VkFormat>, i: nat)
    requires AllValid(attrs) && |formats| == FORMAT_COUNT && i < |attrs|
    ensures var d := Declaration(attrs, formats);
      |d.descriptions| == d.count == |attrs| &&
      d.descriptions[i].location == attrs[i].kind && d.descriptions[i].binding == 0 &&
      d.descriptions[i].offset + STRIDES[attrs[i].format] <= d.stride
  {
    OffsetsFit(attrs, i);
  }

  /**
   * The handle of a declaration: tagged `eResourceType_vdecl`, numbered by
   * its place in the vector, and with bit `k` of `userdata` set exactly when
   * the declaration has an attribute of type `k`.
   */
  lemma DeclarationHandle(attrs: seq<VertexAttribute>, n: nat, k: nat)
    requires AllValid(attrs)
    ensures var id := MakeResourceId(VDECL, Trunc16(n), Flags(attrs));
      TypeOf(id) == VDECL && InternalId(id) == Trunc16(n) &&
      (Bit(UserData(id), k) <==> exists j :: 0 <= j < |attrs| && attrs[j].kind == k)
  {
    FieldsOfMade(VDECL, Trunc16(n), Flags(attrs));
    MaskBits(attrs, |attrs|, k);
  }

  // ---------------------------------------------------------------------
  // findMemoryType
  // ---------------------------------------------------------------------

  /** `VK_MAX_MEMORY_TYPES`: the length of `memoryTypes` in `VkPhysicalDeviceMemoryProperties`. */
  const MAX_MEMORY_TYPES: nat := 32

  /** Memory type `i` is allowed by the filter and has every requested property. */
  predicate Suitable(typeFilter: u32, properties: u32, memoryTypes: seq<u32>, i: nat)
    requires i < |memoryTypes|
  {
    Bit(typeFilter, i) && And(memoryTypes[i], properties) == properties
  }

  /**
   * `findMemoryType` over the `propertyFlags` of the device's memory types:
   * the first suitable index, and 0 when none is, which a caller cannot tell
   * from a match at index 0.
   */
  method FindMemoryType(typeFilter: u32, properties: u32, memoryTypes: seq<u32>) returns (r: u32)
    requires |memoryTypes| <= MAX_MEMORY_TYPES
    ensures (exists i :: 0 <= i < |memoryTypes| && Suitable(typeFilter, properties, memoryTypes, i)) ==>
      r < |memoryTypes| && Suitable(typeFilter, properties, memoryTypes, r) &&
      forall j :: 0 <= j < r ==> !Suitable(typeFilter, properties, memoryTypes, j)
    ensures (forall i :: 0 <= i < |memoryTypes| ==> !Suitable(typeFilter, properties, memoryTypes, i)) ==> r == 0
  {
    var i := 0;
    while i < |memoryTypes|
      invariant i <= |memoryTypes|
      invariant forall j :: 0 <= j < i ==> !Suitable(typeFilter, properties, memoryTypes, j)
    {
      NonZeroTest(typeFilter, i);
      if And(typeFilter, Pow2(i)) != 0 && And(memoryTypes[i], properties) == properties {
        return i;
      }
      i := i + 1;
    }
    return 0;
  }

  /** The property test is the subset test on flag bits. */
  lemma SuitableBits(typeFilter: u32, properties: u32, memoryTypes: seq<u32>, i: nat)
    requires i < |memoryTypes|
    ensures Suitable(typeFilter, properties, memoryTypes, i) <==>
      Bit(typeFilter, i) && forall k: nat :: Bit(properties, k) ==> Bit(memoryTypes[i], k)
  {
    SubsetTest(memoryTypes[i], properties);
  }

  // ---------------------------------------------------------------------
  // Queue families in vk_create_device
  // ---------------------------------------------------------------------

  /** The length of `queueFamilyProperties` and `supportsPresent`. */
  const MAX_QUEUE_FAMILIES: nat := 8

  /** `queueFlags & VK_QUEUE_GRAPHICS_BIT`: the graphics bit is bit 0. */
  predicate Graphics(queueFlags: u32)
  {
    Bit(queueFlags, 0)
  }

  /** The first index where `s` holds. */
  function First(s: seq<bool>): (r: Option<nat>)
    ensures r.Some? ==> r.value < |s| && s[r.value] && forall j :: 0 <= j < r.value ==> !s[j]
    ensures r.None? ==> forall j :: 0 <= j < |s| ==> !s[j]
  {
    if s == [] then None
    else if s[0] then Some(0)
    else match First(s[1..]) {
      case None => None
      case Some(k) => Some(k + 1)
    }
  }

  lemma FirstIs(s: seq<bool>, i: nat)
    requires i < |s| && s[i] && forall j :: 0 <= j < i ==> !s[j]
    ensures First(s) == Some(i)
  {
  }

  lemma FirstNone(s: seq<bool>)
    requires forall j :: 0 <= j < |s| ==> !s[j]
    ensures First(s) == None
  {
  }

  function GraphicsFamilies(queueFlags: seq<u32>): seq<bool>
  {
    seq(|queueFlags|, i requires 0 <= i < |queueFlags| => Graphics(queueFlags[i]))
  }

  function GraphicsPresentFamilies(queueFlags: seq<u32>, supportsPresent: seq<bool>): seq<bool>
    requires |queueFlags| == |supportsPresent|
  {
    seq(|queueFlags|, i requires 0 <= i < |queueFlags| => Graphics(queueFlags[i]) && supportsPresent[i])
  }

  /**
   * The families the device is created with, as (graphics, present): the
   * first family doing both, else the first graphics family and the first
   * presenting family; `None` when either is missing.
   */
  function QueueChoice(queueFlags: seq<u32>, supportsPresent: seq<bool>): Option<(nat, nat)>
    requires |queueFlags| == |supportsPresent|
  {
    match First(GraphicsPresentFamilies(queueFlags, supportsPresent))
    case Some(i) => Some((i, i))
    case None =>
      match (First(GraphicsFamilies(queueFlags)), First(supportsPresent))
      case (Some(g), Some(p)) => Some((g, p))
      case _ => None
  }

  /**
   * The two loops of `vk_create_device` that pick the queue families, with
   * `UINT32_MAX` for "none yet". More than eight families overflow the
   * fixed arrays the API fills.
   */
  method SelectQueueFamilies(queueFlags: seq<u32>, supportsPresent: seq<bool>) returns (r: Exec<Option<(nat, nat)>>)
    requires |queueFlags| == |supportsPresent|
    ensures |queueFlags| > MAX_QUEUE_FAMILIES ==> r == Undefined
    ensures |queueFlags| <= MAX_QUEUE_FAMILIES ==> r == Done(QueueChoice(queueFlags, supportsPresent))
  {
    var count := |queueFlags|;
    if count > MAX_QUEUE_FAMILIES {
      return Undefined;
    }
    ghost var graphicsFamilies := GraphicsFamilies(queueFlags);
    ghost var both := GraphicsPresentFamilies(queueFlags, supportsPresent);
    var graphics: nat := U32_MAX;
    var present: nat := U32_MAX;
    var i := 0;
    while i < count
      invariant i <= count && present == U32_MAX
      invariant forall j :: 0 <= j < i ==> !both[j]
      invariant graphics == U32_MAX ==> forall j :: 0 <= j < i ==> !graphicsFamilies[j]
      invariant graphics != U32_MAX ==>
        (graphics < i && graphicsFamilies[graphics] && forall j :: 0 <= j < graphics ==> !graphicsFamilies[j])
    {
      NonZeroTest(queueFlags[i], 0);
      if And(queueFlags[i], 1) != 0 {
        if graphics == U32_MAX {
          graphics := i;
        }
        if supportsPresent[i] {
          graphics := i;
          present := i;
          FirstIs(both, i);
          break;
        }
      }
      i := i + 1;
    }
    if present == U32_MAX {
      FirstNone(both);
      if graphics == U32_MAX {
        FirstNone(graphicsFamilies);
      } else {
        FirstIs(graphicsFamilies, graphics);
      }
      var k := 0;
      while k < count
        invariant k <= count && present == U32_MAX
        invariant forall j :: 0 <= j < k ==> !supportsPresent[j]
      {
        if supportsPresent[k] {
          present := k;
          FirstIs(supportsPresent, k);
          break;
        }
        k := k + 1;
      }
      if present == U32_MAX {
        FirstNone(supportsPresent);
      }
    }
    if graphics == U32_MAX || present == U32_MAX {
      return Done(None);
    }
    return Done(Some((graphics, present)));
  }

  /** A chosen graphics family has the graphics bit and a chosen present family can present. */
  lemma QueueChoiceSound(queueFlags: seq<u32>, supportsPresent: seq<bool>)
    requires |queueFlags| == |supportsPresent|
    ensures match QueueChoice(queueFlags, supportsPresent)
      case Some((g, p)) => g < |queueFlags| && p < |queueFlags| && Graphics(queueFlags[g]) && supportsPresent[p]
      case None => true
  {
    match First(GraphicsPresentFamilies(queueFlags, supportsPresent))
    case Some(i) =>
      assert GraphicsPresentFamilies(queueFlags, supportsPresent)[i];
    case None =>
      var g := First(GraphicsFamilies(queueFlags));
      if g.Some? {
        assert GraphicsFamilies(queueFlags)[g.value];
      }
  }

  /** Selection fails exactly when no family has the graphics bit or none can present. */
  lemma QueueChoiceFails(queueFlags: seq<u32>, supportsPresent: seq<bool>)
    requires |queueFlags| == |supportsPresent|
    ensures QueueChoice(queueFlags, supportsPresent).None? <==>
      (forall i :: 0 <= i < |queueFlags| ==> !Graphics(queueFlags[i])) ||
      (forall i :: 0 <= i < |queueFlags| ==> !supportsPresent[i])
  {
    var both := GraphicsPresentFamilies(queueFlags, supportsPresent);
    var graphicsFamilies := GraphicsFamilies(queueFlags);
    if First(both).Some? {
      var i := First(both).value;
      assert both[i];
    } else {
      var g, p := First(graphicsFamilies), First(supportsPresent);
      if g.Some? {
        assert graphicsFamilies[g.value];
      } else {
        forall i | 0 <= i < |queueFlags|
          ensures !Graphics(queueFlags[i])
        {
          assert !graphicsFamilies[i];
        }
      }
    }
  }

  /**
   * A family that does both is preferred: then the device gets one queue
   * family, the first that does both, and no earlier family does both.
   */
  lemma QueueChoiceShared(queueFlags: seq<u32>, supportsPresent: seq<bool>, i: nat)
    requires |queueFlags| == |supportsPresent| && i < |queueFlags|
    requires Graphics(queueFlags[i]) && supportsPresent[i]
    ensures QueueChoice(queueFlags, supportsPresent).Some?
    ensures var (g, p) := QueueChoice(queueFlags, supportsPresent).value;
      g == p <= i && Graphics(queueFlags[g]) && supportsPresent[g] &&
      forall j :: 0 <= j < g ==> !(Graphics(queueFlags[j]) && supportsPresent[j])
  {
    var both := GraphicsPresentFamilies(queueFlags, supportsPresent);
    assert both[i];
    var k := First(both).value;
    assert both[k];
    forall j | 0 <= j < k
      ensures !(Graphics(queueFlags[j]) && supportsPresent[j])
    {
      assert !both[j];
    }
  }

  /** Without a family doing both, the families are the first of each kind. */
  lemma QueueChoiceSeparate(queueFlags: seq<u32>, supportsPresent: seq<bool>)
    requires |queueFlags| == |supportsPresent|
    requires forall i :: 0 <= i < |queueFlags| ==> !(Graphics(queueFlags[i]) && supportsPresent[i])
    requires QueueChoice(queueFlags, supportsPresent).Some?
    ensures var (g, p) := QueueChoice(queueFlags, supportsPresent).value;
      g != p &&
      (forall j :: 0 <= j < g ==> !Graphics(queueFlags[j])) &&
      (forall j :: 0 <= j < p ==> !supportsPresent[j])
  {
    var both := GraphicsPresentFamilies(queueFlags, supportsPresent);
    var graphicsFamilies := GraphicsFamilies(queueFlags);
    FirstNone(both);
    var g, p := First(graphicsFamilies).value, First(supportsPresent).value;
    assert graphicsFamilies[g];
    forall j | 0 <= j < g
      ensures !Graphics(queueFlags[j])
    {
      assert !graphicsFamilies[j];
    }
  }
}
