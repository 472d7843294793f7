/**
 * `RendererGl`: the OpenGL back end. Handles are 1-based positions in its
 * vectors. Binding a pipeline makes its vertex declaration pending, and the
 * next draw applies it: it switches the vertex attribute arrays whose state
 * changes and points each attribute at its offset. The GL calls issued are
 * the `calls` trace; the names GL hands out are parameters.
 */
module OpenGl {
  import opened Memory
  import opened Bits
  import opened VertexLayout

  /** The `type` arguments of `glVertexAttribPointer`; `NoType` is the 0 an unmatched format leaves. */
  datatype GlType = NoType | Float | HalfFloat | Short | UnsignedByte

  /** The `target` of a resource: `GL_ARRAY_BUFFER` for buffers, 0 for programs. */
  datatype GlTarget = NoTarget | ArrayBuffer

  datatype GlCall =
    | EnableVertexAttribArray(index: nat)
    | DisableVertexAttribArray(index: nat)
    | VertexAttribPointer(index: nat, size: nat, kind: GlType, normalized: bool, stride: nat, offset: nat)
    | UseProgram(program: nat)
    | BindBuffer(target: GlTarget, buffer: nat)
    | DrawArrays(first: u32, count: u32)

  /** `RendererGl::VDeclaration`: the or of `1 << type`, the stride, and the attributes in use. */
  datatype GlDeclaration = GlDeclaration(flag: nat, stride: nat, count: nat, attributes: seq<VertexAttribute>)

  /** `glResource`. */
  datatype GlResource = GlResource(id: nat, target: GlTarget)

  /** `RendererGl::Pipeline`: the two handles `create_pipeline` was given, unchecked. */
  datatype Pipeline = Pipeline(shader: u64, vdecl: u64)

  /** A declaration as `create_vdecl` builds it. */
  predicate WellFormed(d: GlDeclaration)
  {
    AllValid(d.attributes) && Distinct(d.attributes) && d.count == |d.attributes| &&
    d.stride == Stride(d.attributes) && d.flag == Flags(d.attributes)
  }

  // ---------------------------------------------------------------------
  // What apply_vdecl issues
  // ---------------------------------------------------------------------

  /** `(flag & (1 << a)) == (1 << a)` for every attribute type `a`. */
  function EnabledBits(flag: nat): (s: seq<bool>)
    ensures |s| == ATTRIB_COUNT
  {
    seq(ATTRIB_COUNT, a requires 0 <= a < ATTRIB_COUNT => Bit(flag, a))
  }

  /** The enable or disable call for attribute `a`, if its state changes. */
  function Toggle(prev: seq<bool>, flag: nat, a: nat): seq<GlCall>
    requires a < |prev|
  {
    if Bit(flag, a) == prev[a] then []
    else if Bit(flag, a) then [EnableVertexAttribArray(a)]
    else [DisableVertexAttribArray(a)]
  }

  /** The calls for attributes `0 .. n-1`, from the cached states `prev`. */
  function Toggles(prev: seq<bool>, flag: nat, n: nat): seq<GlCall>
    requires n <= |prev|
  {
    if n == 0 then [] else Toggles(prev, flag, n - 1) + Toggle(prev, flag, n - 1)
  }

  /** The `size` of `glVertexAttribPointer` for a vertex format. */
  function Components(format: nat): nat
  {
    if FLOAT1 <= format <= FLOAT4 then format
    else if format == HALF2 || format == SHORT2 || format == USHORT2 then 2
    else if format == HALF4 || format == SHORT4 || format == USHORT4 || format == BYTE4 then 4
    else 0
  }

  /** The `type` for a vertex format; both short formats, signed or not, become `GL_SHORT`. */
  function ComponentType(format: nat): GlType
  {
    if FLOAT1 <= format <= FLOAT4 then Float
    else if format == HALF2 || format == HALF4 then HalfFloat
    else if SHORT2 <= format <= USHORT4 then Short
    else if format == BYTE4 then UnsignedByte
    else NoType
  }

  /** `normalized`: only `byte4`. */
  function Normalized(format: nat): bool
  {
    format == BYTE4
  }

  /** The bytes of one component. */
  function TypeBytes(t: GlType): nat
  {
    match t
    case NoType => 0
    case Float => 4
    case HalfFloat | Short => 2
    case UnsignedByte => 1
  }

  /** The pointer call for attribute `i` of `d`. */
  function Pointer(d: GlDeclaration, i: nat): GlCall
    requires AllValid(d.attributes) && i < |d.attributes|
  {
    var a := d.attributes[i];
    VertexAttribPointer(a.kind, Components(a.format), ComponentType(a.format), Normalized(a.format),
                        d.stride, Offset(d.attributes, i))
  }

  /** The pointer calls for attributes `0 .. n-1` of `d`. */
  function Pointers(d: GlDeclaration, n: nat): (s: seq<GlCall>)
    requires AllValid(d.attributes) && n <= |d.attributes|
    ensures |s| == n
  {
    if n == 0 then [] else Pointers(d, n - 1) + [Pointer(d, n - 1)]
  }

  // ---------------------------------------------------------------------
  // Properties of apply_vdecl
  // ---------------------------------------------------------------------

  /** An attribute array is enabled exactly when the declaration has an attribute of that type. */
  lemma EnabledMeansPresent(d: GlDeclaration, a: nat)
    requires WellFormed(d) && a < ATTRIB_COUNT
    ensures EnabledBits(d.flag)[a] <==> exists j :: 0 <= j < |d.attributes| && d.attributes[j].kind == a
  {
    MaskBits(d.attributes, |d.attributes|, a);
  }

  /** An enable or disable call is issued only for an attribute whose cached state is wrong, and then once. */
  lemma {:induction false} TogglesChanged(prev: seq<bool>, flag: nat, n: nat, a: nat)
    requires n <= |prev|
    ensures EnableVertexAttribArray(a) in Toggles(prev, flag, n) <==> a < n && Bit(flag, a) && !prev[a]
    ensures DisableVertexAttribArray(a) in Toggles(prev, flag, n) <==> a < n && !Bit(flag, a) && prev[a]
  {
    if n > 0 {
      TogglesChanged(prev, flag, n - 1, a);
    }
  }

  /** Only enable and disable calls, in increasing attribute order, so at most one per attribute. */
  lemma {:induction false} TogglesOrdered(prev: seq<bool>, flag: nat, n: nat)
    requires n <= |prev|
    ensures forall i :: 0 <= i < |Toggles(prev, flag, n)| ==>
      var c := Toggles(prev, flag, n)[i];
      (c.EnableVertexAttribArray? || c.DisableVertexAttribArray?) && c.index < n
    ensures forall i, j :: 0 <= i < j < |Toggles(prev, flag, n)| ==>
      Toggles(prev, flag, n)[i].index < Toggles(prev, flag, n)[j].index
  {
    if n > 0 {
      TogglesOrdered(prev, flag, n - 1);
    }
  }

  /** Once the cache matches a declaration, applying it again switches nothing. */
  lemma {:induction false} TogglesSettled(flag: nat, n: nat)
    requires n <= ATTRIB_COUNT
    ensures Toggles(EnabledBits(flag), flag, n) == []
  {
    if n > 0 {
      TogglesSettled(flag, n - 1);
    }
  }

  /** Each attribute is pointed at its packed offset, inside the stride. */
  lemma {:induction false} PointersLayout(d: GlDeclaration, n: nat, i: nat)
    requires WellFormed(d) && i < n <= |d.attributes|
    ensures Pointers(d, n)[i].VertexAttribPointer?
    ensures Pointers(d, n)[i].index == d.attributes[i].kind
    ensures Pointers(d, n)[i].offset == Offset(d.attributes, i)
    ensures Pointers(d, n)[i].offset + STRIDES[d.attributes[i].format] <= Pointers(d, n)[i].stride
  {
    if i < n - 1 {
      PointersLayout(d, n - 1, i);
    }
    OffsetsFit(d.attributes, i);
  }

  /** The size and type of every format take exactly the bytes the stride table gives it. */
  lemma FormatsMatchStrides(format: nat)
    requires format < FORMAT_COUNT
    ensures Components(format) * TypeBytes(ComponentType(format)) == STRIDES[format]
  {
  }

  // ---------------------------------------------------------------------
  // The renderer
  // ---------------------------------------------------------------------

  class RendererGl {
    /** `m_declarations`. */
    var declarations: seq<GlDeclaration>
    /** `m_resources`: buffers and programs. */
    var resources: seq<GlResource>
    /** `m_pipelines`. */
    var pipelines: seq<Pipeline>
    /** `m_curr_vdecl`: the declaration the next draw applies, 0 for none. */
    var currVdecl: u64
    /** `m_reset_vdecl`. */
    var resetVdecl: bool
    /** The GL calls issued, oldest first. */
    var calls: seq<GlCall>
    /** `s_enabledVertexAttribFlag`: which vertex attribute arrays GL has enabled. */
    const enabled: array<bool>

    predicate Valid()
      reads this, enabled
    {
      enabled.Length == ATTRIB_COUNT &&
      forall i :: 0 <= i < |declarations| ==> WellFormed(declarations[i])
    }

    constructor ()
      ensures Valid() && fresh(enabled)
      ensures declarations == [] && resources == [] && pipelines == [] && calls == []
      ensures currVdecl == 0 && !resetVdecl
      ensures enabled[..] == seq(ATTRIB_COUNT, a => false)
    {
      declarations := [];
      resources := [];
      pipelines := [];
      currVdecl := 0;
      resetVdecl := false;
      calls := [];
      enabled := new bool[ATTRIB_COUNT](a => false);
    }

    /** `RendererGl::create_vdecl`: the declaration is pushed unless an attribute type repeats. */
    method CreateVdecl(attrs: seq<VertexAttribute>) returns (r: Exec<nat>)
      requires Valid() && AllValid(attrs)
      modifies this
      ensures Valid()
      ensures r == Aborted <==> !Distinct(attrs)
      ensures !r.Undefined?
      ensures r.Aborted? ==> declarations == old(declarations)
      ensures r.Done? ==>
        declarations == old(declarations) + [GlDeclaration(Flags(attrs), Stride(attrs), |attrs|, attrs)] &&
        r.value == |declarations|
      ensures resources == old(resources) && pipelines == old(pipelines)
      ensures currVdecl == old(currVdecl) && resetVdecl == old(resetVdecl) && calls == old(calls)
    {
      var d := DeclareVertices(attrs);
      if d.Aborted? {
        return Aborted;
      }
      declarations := declarations + [d.value];
      return Done(|declarations|);
    }

    /** `RendererGl::create_vb`: `buffer` is the name `glGenBuffers` gave. */
    method CreateVb(buffer: nat) returns (id: nat)
      requires Valid()
      modifies this
      ensures Valid()
      ensures resources == old(resources) + [GlResource(buffer, ArrayBuffer)] && id == |resources|
      ensures declarations == old(declarations) && pipelines == old(pipelines)
      ensures currVdecl == old(currVdecl) && resetVdecl == old(resetVdecl) && calls == old(calls)
    {
      resources := resources + [GlResource(buffer, ArrayBuffer)];
      id := |resources|;
    }

    /** `RendererGl::create_ib`: creates nothing and returns 0. */
    method CreateIb() returns (id: nat)
      ensures id == 0
    {
      id := 0;
    }

    /** `RendererGl::create_shader`: `program` is the linked program, `None` when compiling or linking failed. */
    method CreateShader(program: Option<nat>) returns (id: nat)
      requires Valid()
      modifies this
      ensures Valid()
      ensures program.None? ==> id == 0 && resources == old(resources)
      ensures program.Some? ==> resources == old(resources) + [GlResource(program.value, NoTarget)] && id == |resources|
      ensures declarations == old(declarations) && pipelines == old(pipelines)
      ensures currVdecl == old(currVdecl) && resetVdecl == old(resetVdecl) && calls == old(calls)
    {
      if program.None? {
        return 0;
      }
      resources := resources + [GlResource(program.value, NoTarget)];
      id := |resources|;
    }

    /** `RendererGl::create_pipeline`: records the two handles as given. */
    method CreatePipeline(vdecl: u64, shader: u64) returns (id: nat)
      requires Valid()
      modifies this
      ensures Valid()
      ensures pipelines == old(pipelines) + [Pipeline(shader, vdecl)] && id == |pipelines|
      ensures declarations == old(declarations) && resources == old(resources)
      ensures currVdecl == old(currVdecl) && resetVdecl == old(resetVdecl) && calls == old(calls)
    {
      pipelines := pipelines + [Pipeline(shader, vdecl)];
      id := |pipelines|;
    }

    /**
     * `RendererGl::bind_pipeline`: 0 leaves the pending declaration alone;
     * otherwise the pipeline's declaration becomes pending and its program
     * is used. Handles outside the vectors are undefined.
     */
    method BindPipeline(pipid: u64) returns (r: Exec<()>)
      requires Valid()
      modifies this
      ensures Valid() && resetVdecl
      ensures !r.Aborted?
      ensures pipid == 0 ==> r.Done? && currVdecl == old(currVdecl) && calls == old(calls)
      ensures pipid != 0 ==>
        (r == Undefined <==> pipid > |pipelines| || !(1 <= pipelines[pipid - 1].shader <= |resources|))
      ensures pipid != 0 && r.Done? ==>
        currVdecl == pipelines[pipid - 1].vdecl &&
        calls == old(calls) + [UseProgram(resources[pipelines[pipid - 1].shader - 1].id)]
      ensures declarations == old(declarations) && resources == old(resources) && pipelines == old(pipelines)
    {
      resetVdecl := true;
      if pipid == 0 {
        return Done(());
      }
      if pipid > |pipelines| {
        return Undefined;
      }
      var pipeline := pipelines[pipid - 1];
      if pipeline.shader == 0 || pipeline.shader > |resources| {
        return Undefined;
      }
      var shader := resources[pipeline.shader - 1];
      currVdecl := pipeline.vdecl;
      calls := calls + [UseProgram(shader.id)];
      return Done(());
    }

    /** `RendererGl::bind_vb`: no check; a handle outside the vector is undefined. */
    method BindVb(vb: u64) returns (r: Exec<()>)
      requires Valid()
      modifies this
      ensures Valid()
      ensures r == Undefined <==> !(1 <= vb <= |resources|)
      ensures !r.Aborted?
      ensures r.Done? ==> calls == old(calls) + [BindBuffer(resources[vb - 1].target, resources[vb - 1].id)]
      ensures declarations == old(declarations) && resources == old(resources) && pipelines == old(pipelines)
      ensures currVdecl == old(currVdecl) && resetVdecl == old(resetVdecl)
    {
      if vb == 0 || vb > |resources| {
        return Undefined;
      }
      var buf := resources[vb - 1];
      calls := calls + [BindBuffer(buf.target, buf.id)];
      return Done(());
    }

    /** `RendererGl::apply_vdecl`: a handle outside the declarations is undefined. */
    method ApplyVdecl(vdeclid: u64) returns (r: Exec<()>)
      requires Valid()
      modifies this, enabled
      ensures Valid()
      ensures r.Done? <==> 1 <= vdeclid <= |declarations|
      ensures !r.Done? ==> r == Undefined
      ensures r.Done? ==>
        var d := declarations[vdeclid - 1];
        enabled[..] == EnabledBits(d.flag) &&
        calls == old(calls) + Toggles(old(enabled[..]), d.flag, ATTRIB_COUNT) + Pointers(d, d.count)
      ensures declarations == old(declarations) && resources == old(resources) && pipelines == old(pipelines)
      ensures currVdecl == old(currVdecl) && resetVdecl == old(resetVdecl)
    {
      if vdeclid == 0 || vdeclid > |declarations| {
        return Undefined;
      }
      var d := declarations[vdeclid - 1];
      var toggles := SyncAttributes(enabled, d.flag);
      var pointers := PointerCalls(d);
      calls := calls + toggles + pointers;
      return Done(());
    }

    /** `RendererGl::draw_array`: a pending declaration is applied once and cleared, then the draw is issued. */
    method DrawArray(start: u32, count: u32) returns (r: Exec<()>)
      requires Valid()
      modifies this, enabled
      ensures Valid()
      ensures old(currVdecl) == 0 ==>
        r.Done? && calls == old(calls) + [DrawArrays(start, count)] && enabled[..] == old(enabled[..])
      ensures !r.Aborted?
      ensures old(currVdecl) != 0 ==> (r == Undefined <==> old(currVdecl) > |declarations|)
      ensures old(currVdecl) != 0 && r.Done? ==>
        var d := declarations[old(currVdecl) - 1];
        enabled[..] == EnabledBits(d.flag) &&
        calls == old(calls) + Toggles(old(enabled[..]), d.flag, ATTRIB_COUNT) + Pointers(d, d.count) + [DrawArrays(start, count)]
      ensures r.Done? ==> currVdecl == 0
      ensures declarations == old(declarations) && resources == old(resources) && pipelines == old(pipelines)
      ensures resetVdecl == old(resetVdecl)
    {
      if currVdecl != 0 {
        var applied := ApplyVdecl(currVdecl);
        if applied.Undefined? {
          return Undefined;
        }
        currVdecl := 0;
      }
      calls := calls + [DrawArrays(start, count)];
      return Done(());
    }
  }

  /**
   * The loop of `RendererGl::create_vdecl`: a repeated attribute type trips
   * `assert(false)`. Writing past the fourteen attribute slots never
   * happens, because fourteen types cannot fill fifteen slots without a
   * repeat, which is caught first.
   */
  method DeclareVertices(attrs: seq<VertexAttribute>) returns (r: Exec<GlDeclaration>)
    requires AllValid(attrs)
    ensures r == Aborted <==> !Distinct(attrs)
    ensures !r.Undefined?
    ensures r.Done? ==> r.value == GlDeclaration(Flags(attrs), Stride(attrs), |attrs|, attrs) && WellFormed(r.value)
  {
    var flag: nat := 0;
    var stride: nat := 0;
    var attributes: seq<VertexAttribute> := [];
    for i := 0 to |attrs|
      invariant flag == Mask(attrs, i) && stride == Offset(attrs, i)
      invariant attributes == attrs[..i] && |attributes| <= ATTRIB_COUNT
      invariant forall k :: 0 <= k < i ==> !Repeated(attrs, k)
    {
      var f := Pow2(attrs[i].kind);
      DuplicateTest(attrs, i);
      if And(flag, f) == f {
        DistinctRepeated(attrs);
        return Aborted;
      }
      NoRepeatFits(attrs, i + 1);
      attributes := attributes + [attrs[i]];
      flag := Or(flag, f);
      stride := stride + STRIDES[attrs[i].format];
    }
    DistinctRepeated(attrs);
    assert attributes == attrs;
    return Done(GlDeclaration(flag, stride, |attrs|, attributes));
  }

  /**
   * The first loop of `RendererGl::apply_vdecl`: switch each attribute
   * array whose cached state differs from `flag`, and update the cache.
   */
  method SyncAttributes(enabled: array<bool>, flag: nat) returns (toggles: seq<GlCall>)
    requires enabled.Length == ATTRIB_COUNT
    modifies enabled
    ensures enabled[..] == EnabledBits(flag)
    ensures toggles == Toggles(old(enabled[..]), flag, ATTRIB_COUNT)
  {
    ghost var prev := enabled[..];
    toggles := [];
    for a := 0 to ATTRIB_COUNT
      invariant toggles == Toggles(prev, flag, a)
      invariant forall k :: 0 <= k < a ==> enabled[k] == Bit(flag, k)
      invariant forall k :: a <= k < ATTRIB_COUNT ==> enabled[k] == prev[k]
    {
      var bit := Pow2(a);
      MaskTest(flag, a);
      var on := And(flag, bit) == bit;
      if on != enabled[a] {
        if on {
          toggles := toggles + [EnableVertexAttribArray(a)];
        } else {
          toggles := toggles + [DisableVertexAttribArray(a)];
        }
        enabled[a] := on;
      }
    }
    assert enabled[..] == EnabledBits(flag);
  }

  /** The second loop of `RendererGl::apply_vdecl`: point each attribute at its offset. */
  method PointerCalls(d: GlDeclaration) returns (pointers: seq<GlCall>)
    requires WellFormed(d)
    ensures pointers == Pointers(d, d.count)
  {
    var offset: nat := 0;
    pointers := [];
    for i := 0 to d.count
      invariant offset == Offset(d.attributes, i)
      invariant pointers == Pointers(d, i)
    {
      var layer := d.attributes[i];
      var size, kind, normalized := 0, NoType, false;
      if layer.format == FLOAT1 {
        size, kind := 1, Float;
      } else if layer.format == FLOAT2 {
        size, kind := 2, Float;
      } else if layer.format == FLOAT3 {
        size, kind := 3, Float;
      } else if layer.format == FLOAT4 {
        size, kind := 4, Float;
      } else if layer.format == HALF2 {
        size, kind := 2, HalfFloat;
      } else if layer.format == HALF4 {
        size, kind := 4, HalfFloat;
      } else if layer.format == SHORT2 || layer.format == USHORT2 {
        size, kind := 2, Short;
      } else if layer.format == SHORT4 || layer.format == USHORT4 {
        size, kind := 4, Short;
      } else if layer.format == BYTE4 {
        size, kind, normalized := 4, UnsignedByte, true;
      }
      pointers := pointers + [VertexAttribPointer(layer.kind, size, kind, normalized, d.stride, offset)];
      offset := offset + STRIDES[layer.format];
    }
  }

  /** Attribute types that never repeat within the first `n` attributes number at most fourteen. */
  lemma NoRepeatFits(attrs: seq<VertexAttribute>, n: nat)
    requires AllValid(attrs) && n <= |attrs|
    requires forall k :: 0 <= k < n ==> !Repeated(attrs, k)
    ensures n <= ATTRIB_COUNT
  {
    var prefix := attrs[..n];
    forall k | 0 <= k < n
      ensures !Repeated(prefix, k)
    {
      assert !Repeated(attrs, k);
    }
    DistinctRepeated(prefix);
    DistinctFits(prefix);
  }
}
