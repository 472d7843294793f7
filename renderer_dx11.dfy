/**
 * `RendererDx11`: the Direct3D 11 back end. Vertex layouts live in one
 * vector; buffers, shaders and pipelines share a second vector of unions.
 * Handles are 1-based positions and are never checked. The objects the
 * device creates are parameters; the context calls issued are the `calls`
 * trace.
 */
module Direct3D11 {
  import opened Memory
  import opened VertexLayout

  /** The `DXGI_FORMAT` values `_vformat2dxformat` uses. */
  datatype DxgiFormat =
    | UNKNOWN
    | R32_FLOAT | R32G32_FLOAT | R32G32B32_FLOAT | R32G32B32A32_FLOAT
    | R16G16_FLOAT | R16G16B16A16_FLOAT
    | R16G16_SINT | R16G16B16A16_SINT
    | R16G16_UINT | R16G16B16A16_UINT
    | R8G8B8A8_UINT

  /** `_vformat2dxformat`, indexed by vertex format. */
  const DX_FORMATS: seq<DxgiFormat> := [
    UNKNOWN,
    R32_FLOAT, R32G32_FLOAT, R32G32B32_FLOAT, R32G32B32A32_FLOAT,
    R16G16_FLOAT, R16G16B16A16_FLOAT,
    R16G16_SINT, R16G16B16A16_SINT,
    R16G16_UINT, R16G16B16A16_UINT,
    R8G8B8A8_UINT
  ]

  /**
   * `_vattrib2dxname`, indexed by attribute type. The initializer lacks the
   * comma after "TexCoords7", so the two literals merge and every later
   * name moves down one slot; "INVALID" fills the last.
   */
  const NAMES: seq<string> := [
    "POSITION", "Color", "Normal", "eVertexAttrib_Tangent",
    "TexCoords0", "TexCoords1", "TexCoords2", "TexCoords3",
    "TexCoords4", "TexCoords5", "TexCoords6", "TexCoords7BoneWeight",
    "BoneIndices", "INVALID"
  ]

  /** The bytes one vertex element of a format takes. */
  function DxgiBytes(f: DxgiFormat): nat
  {
    match f
    case UNKNOWN => 0
    case R32_FLOAT => 4
    case R32G32_FLOAT => 8
    case R32G32B32_FLOAT => 12
    case R32G32B32A32_FLOAT => 16
    case R16G16_FLOAT | R16G16_SINT | R16G16_UINT => 4
    case R16G16B16A16_FLOAT | R16G16B16A16_SINT | R16G16B16A16_UINT => 8
    case R8G8B8A8_UINT => 4
  }

  /**
   * `D3D11_INPUT_ELEMENT_DESC` as `create_vdecl` fills it: the semantic
   * name, the format and the aligned byte offset. Semantic index, input
   * slot, slot class and step rate are always 0 and per-vertex.
   */
  datatype InputElement = InputElement(name: string, format: DxgiFormat, offset: nat)

  /** `dxVertexLayout`: the stride, the count and the elements in use. */
  datatype DxLayout = DxLayout(stride: nat, count: nat, elements: seq<InputElement>)

  /** The shader half of the resource union: the vertex blob's size and the two shader objects. */
  datatype DxShader = DxShader(blobSize: nat, vertex: nat, pixel: nat)

  /** `d3dResource`: which member of the union was written. */
  datatype DxResource =
    | Buffer(buffer: nat)
    | Shader(shader: DxShader)
    | Pipeline(stride: nat, inputLayout: nat, program: DxShader, rasterState: nat)

  datatype DxCall =
    | IASetInputLayout(layout: nat)
    | VSSetShader(vertex: nat)
    | PSSetShader(pixel: nat)
    | RSSetState(state: nat)
    | IASetVertexBuffers(buffer: nat, stride: nat, offset: nat)
    | IASetTriangleList
    | Draw(count: u32, start: u32)

  /** Element `i` of the layout for `attrs`. */
  function Element(attrs: seq<VertexAttribute>, i: nat): InputElement
    requires AllValid(attrs) && i < |attrs|
  {
    InputElement(NAMES[attrs[i].kind], DX_FORMATS[attrs[i].format], Offset(attrs, i))
  }

  /** The layout `create_vdecl` builds for `attrs`. */
  function LayoutOf(attrs: seq<VertexAttribute>): DxLayout
    requires AllValid(attrs)
  {
    DxLayout(Stride(attrs), |attrs|, seq(|attrs|, i requires 0 <= i < |attrs| => Element(attrs, i)))
  }

  /** The format table and the stride table agree on every vertex format. */
  lemma FormatsMatchStrides(format: nat)
    requires format < FORMAT_COUNT
    ensures DxgiBytes(DX_FORMATS[format]) == STRIDES[format]
  {
  }

  /** No two attribute types share a semantic name. */
  lemma NamesDistinct(i: nat, j: nat)
    requires i < j < ATTRIB_COUNT
    ensures NAMES[i] != NAMES[j]
  {
  }

  /** The attribute types whose names the missing comma changes. */
  const TEXCOORDS7: nat := 11
  const BONE_WEIGHT: nat := 12
  const BONE_INDICES: nat := 13

  /** What the missing comma does: texture 7 and the two bone attributes get the wrong names. */
  lemma NamesShifted()
    ensures NAMES[TEXCOORDS7] == "TexCoords7BoneWeight"
    ensures NAMES[BONE_WEIGHT] == "BoneIndices"
    ensures NAMES[BONE_INDICES] == "INVALID"
  {
  }

  /**
   * The elements of a layout are packed in order: each starts where the
   * ones before it end and all lie within the stride.
   */
  lemma LayoutPacked(attrs: seq<VertexAttribute>, i: nat, j: nat)
    requires AllValid(attrs) && i < j < |attrs|
    ensures LayoutOf(attrs).elements[i].offset + DxgiBytes(LayoutOf(attrs).elements[i].format)
      <= LayoutOf(attrs).elements[j].offset
    ensures LayoutOf(attrs).elements[j].offset + DxgiBytes(LayoutOf(attrs).elements[j].format)
      <= LayoutOf(attrs).stride
  {
    FormatsMatchStrides(attrs[i].format);
    FormatsMatchStrides(attrs[j].format);
    OffsetsOrdered(attrs, i, j);
    OffsetsFit(attrs, j);
  }

  /** The semantic names of a layout are distinct exactly when its attribute types are. */
  lemma LayoutNamesDistinct(attrs: seq<VertexAttribute>)
    requires AllValid(attrs)
    ensures Distinct(attrs) <==>
      forall i, j :: 0 <= i < j < |attrs| ==> LayoutOf(attrs).elements[i].name != LayoutOf(attrs).elements[j].name
  {
    var e := LayoutOf(attrs).elements;
    if Distinct(attrs) {
      forall i, j | 0 <= i < j < |attrs|
        ensures e[i].name != e[j].name
      {
        if attrs[i].kind < attrs[j].kind {
          NamesDistinct(attrs[i].kind, attrs[j].kind);
        } else {
          NamesDistinct(attrs[j].kind, attrs[i].kind);
        }
      }
    } else {
      var i, j :| 0 <= i < j < |attrs| && attrs[i].kind == attrs[j].kind;
      assert e[i].name == e[j].name;
    }
  }

  /**
   * The loop of `RendererDx11::create_vdecl`: no check on the attributes;
   * writing a fifteenth element past `attributes[eVertexAttrib_Count]` is
   * undefined.
   */
  method BuildLayout(attrs: seq<VertexAttribute>) returns (r: Exec<DxLayout>)
    requires AllValid(attrs)
    ensures r.Undefined? <==> |attrs| > ATTRIB_COUNT
    ensures r.Done? ==> r.value == LayoutOf(attrs)
    ensures !r.Aborted?
  {
    var elements: seq<InputElement> := [];
    var stride: nat := 0;
    for i := 0 to |attrs|
      invariant i <= ATTRIB_COUNT
      invariant stride == Offset(attrs, i)
      invariant |elements| == i && forall k :: 0 <= k < i ==> elements[k] == Element(attrs, k)
    {
      var name := NAMES[attrs[i].kind];
      var format := DX_FORMATS[attrs[i].format];
      if i >= ATTRIB_COUNT {
        return Undefined;
      }
      elements := elements + [InputElement(name, format, stride)];
      stride := stride + STRIDES[attrs[i].format];
    }
    return Done(DxLayout(stride, |attrs|, elements));
  }

  class RendererDx11 {
    /** `m_layouts`. */
    var layouts: seq<DxLayout>
    /** `m_resources`. */
    var resources: seq<DxResource>
    /** `m_pipeline`: the handle last bound, 0 for none. */
    var pipeline: u64
    /** The device-context calls issued, oldest first. */
    var calls: seq<DxCall>

    constructor ()
      ensures layouts == [] && resources == [] && pipeline == 0 && calls == []
    {
      layouts := [];
      resources := [];
      pipeline := 0;
      calls := [];
    }

    /** `RendererDx11::create_vdecl`: the layout is pushed and its 1-based position returned. */
    method CreateVdecl(attrs: seq<VertexAttribute>) returns (r: Exec<nat>)
      requires AllValid(attrs)
      modifies this
      ensures r.Undefined? <==> |attrs| > ATTRIB_COUNT
      ensures r.Done? ==> layouts == old(layouts) + [LayoutOf(attrs)] && r.value == |layouts|
      ensures !r.Aborted?
      ensures resources == old(resources) && pipeline == old(pipeline) && calls == old(calls)
    {
      var layout := BuildLayout(attrs);
      if layout.Undefined? {
        return Undefined;
      }
      layouts := layouts + [layout.value];
      return Done(|layouts|);
    }

    /** `RendererDx11::create_vb`: `buffer` is what `CreateBuffer` made; its result is not checked. */
    method CreateVb(buffer: nat) returns (id: nat)
      modifies this
      ensures resources == old(resources) + [Buffer(buffer)] && id == |resources|
      ensures layouts == old(layouts) && pipeline == old(pipeline) && calls == old(calls)
    {
      resources := resources + [Buffer(buffer)];
      id := |resources|;
    }

    /** `RendererDx11::create_ib`: creates nothing and returns 0. */
    method CreateIb() returns (id: nat)
      ensures id == 0
    {
      id := 0;
    }

    /**
     * `RendererDx11::create_shader`: `vertex` and `pixel` are the shaders
     * the device made, `None` when it failed, which gives 0.
     */
    method CreateShader(blobSize: nat, vertex: Option<nat>, pixel: Option<nat>) returns (id: nat)
      modifies this
      ensures vertex.None? || pixel.None? ==> id == 0 && resources == old(resources)
      ensures vertex.Some? && pixel.Some? ==>
        resources == old(resources) + [Shader(DxShader(blobSize, vertex.value, pixel.value))] && id == |resources|
      ensures layouts == old(layouts) && pipeline == old(pipeline) && calls == old(calls)
    {
      if vertex.None? {
        return 0;
      }
      if pixel.None? {
        return 0;
      }
      resources := resources + [Shader(DxShader(blobSize, vertex.value, pixel.value))];
      id := |resources|;
    }

    /**
     * `RendererDx11::create_pipeline`: `layouts[vdeclid - 1]` and the shader
     * member of `resources[shaderid - 1]` are read unchecked; outside the
     * vectors, or from a union holding something else, that is undefined.
     * `inputLayout` and `rasterState` are what the device made.
     */
    method CreatePipeline(vdeclid: u64, shaderid: u64, inputLayout: nat, rasterState: nat) returns (r: Exec<nat>)
      modifies this
      ensures r.Done? <==>
        1 <= vdeclid <= |old(layouts)| && 1 <= shaderid <= |old(resources)| && old(resources)[shaderid - 1].Shader?
      ensures !r.Done? ==> r == Undefined
      ensures r.Done? ==>
        resources == old(resources) +
          [Pipeline(old(layouts)[vdeclid - 1].stride, inputLayout, old(resources)[shaderid - 1].shader, rasterState)] &&
        r.value == |resources|
      ensures layouts == old(layouts) && pipeline == old(pipeline) && calls == old(calls)
    {
      if vdeclid == 0 || vdeclid > |layouts| {
        return Undefined;
      }
      var layout := layouts[vdeclid - 1];
      if shaderid == 0 || shaderid > |resources| || !resources[shaderid - 1].Shader? {
        return Undefined;
      }
      var shader := resources[shaderid - 1].shader;
      resources := resources + [Pipeline(layout.stride, inputLayout, shader, rasterState)];
      return Done(|resources|);
    }

    /**
     * `RendererDx11::bind_pipeline`: records the handle, then sets the
     * pipeline's input layout, shaders and rasterizer state.
     */
    method BindPipeline(pipid: u64) returns (r: Exec<()>)
      modifies this
      ensures r.Done? <==> 1 <= pipid <= |resources| && resources[pipid - 1].Pipeline?
      ensures !r.Done? ==> r == Undefined
      ensures r.Done? ==>
        var p := resources[pipid - 1];
        pipeline == pipid &&
        calls == old(calls) + [IASetInputLayout(p.inputLayout), VSSetShader(p.program.vertex),
                               PSSetShader(p.program.pixel), RSSetState(p.rasterState)]
      ensures layouts == old(layouts) && resources == old(resources)
    {
      pipeline := pipid;
      if pipid == 0 || pipid > |resources| || !resources[pipid - 1].Pipeline? {
        return Undefined;
      }
      var p := resources[pipid - 1];
      calls := calls + [IASetInputLayout(p.inputLayout), VSSetShader(p.program.vertex),
                        PSSetShader(p.program.pixel), RSSetState(p.rasterState)];
      return Done(());
    }

    /**
     * `RendererDx11::bind_vb`: binds the buffer with the stride of the bound
     * pipeline. With no pipeline bound, or a handle that is not a buffer,
     * the unchecked reads are undefined.
     */
    method BindVb(vb: u64) returns (r: Exec<()>)
      modifies this
      ensures r.Done? <==>
        1 <= pipeline <= |resources| && resources[pipeline - 1].Pipeline? &&
        1 <= vb <= |resources| && resources[vb - 1].Buffer?
      ensures !r.Done? ==> r == Undefined
      ensures r.Done? ==>
        calls == old(calls) + [IASetVertexBuffers(resources[vb - 1].buffer, resources[pipeline - 1].stride, 0),
                               IASetTriangleList]
      ensures layouts == old(layouts) && resources == old(resources) && pipeline == old(pipeline)
    {
      if pipeline == 0 || pipeline > |resources| || !resources[pipeline - 1].Pipeline? {
        return Undefined;
      }
      var p := resources[pipeline - 1];
      if vb == 0 || vb > |resources| || !resources[vb - 1].Buffer? {
        return Undefined;
      }
      var buffer := resources[vb - 1].buffer;
      calls := calls + [IASetVertexBuffers(buffer, p.stride, 0), IASetTriangleList];
      return Done(());
    }

    /** `RendererDx11::draw_array`: nothing until a pipeline has been bound. */
    method DrawArray(start: u32, count: u32)
      modifies this
      ensures pipeline == 0 ==> calls == old(calls)
      ensures pipeline != 0 ==> calls == old(calls) + [Draw(count, start)]
      ensures layouts == old(layouts) && resources == old(resources) && pipeline == old(pipeline)
    {
      if pipeline == 0 {
        return;
      }
      calls := calls + [Draw(count, start)];
    }

    /** `RendererDx11::draw_indexed`: returns at its guard when no pipeline is bound, and otherwise issues nothing either. */
    method DrawIndexed(count: u32)
      ensures calls == old(calls)
    {
      if pipeline == 0 {
        return;
      }
    }
  }
}
