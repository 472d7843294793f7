/**
 * `Vkrenderer`: the earlier Vulkan back end. Its registries and handles
 * work as in `RendererVk`, with three differences: `byte4` attributes get
 * `VK_FORMAT_R8G8B8A8_UINT`, `create_pipeline` asserts on handles of the
 * wrong type instead of returning 0, and `bind_ib` checks no tag and
 * records nothing.
 */
module VulkanRenderer {
  import opened Memory
  import opened VertexLayout
  import opened ResourceId
  import opened Vulkan
  import SpirvAnalyzerSpec
  import SpirvAnalyzer

  /** `_vformat2vkformat` of this back end: `byte4` is `VK_FORMAT_R8G8B8A8_UINT`. */
  const FORMATS: seq<VkFormat> := COMMON_FORMATS + [R8G8B8A8_UINT]

  /** A command recorded into the current command buffer. */
  datatype Command =
    | CmdBindPipeline(pipeline: nat)
    | CmdBindVertexBuffers(buffer: nat)

  class Vkrenderer {
    /** `m_vdecls`. */
    var vdecls: seq<VDeclaration>
    /** `m_shaders`: the pipeline layout of each shader. */
    var shaders: seq<nat>
    /** `m_buffers`. */
    var buffers: seq<nat>
    /** `m_pipelines`. */
    var pipelines: seq<nat>
    /** What `vkCmdBind*` recorded, oldest first. */
    var commands: seq<Command>

    constructor ()
      ensures vdecls == [] && shaders == [] && buffers == [] && pipelines == [] && commands == []
    {
      vdecls := [];
      shaders := [];
      buffers := [];
      pipelines := [];
      commands := [];
    }

    /**
     * `Vkrenderer::create_vdecl`. The entry `assert` demands one to thirteen
     * attributes. A repeated attribute type gives 0 and pushes nothing;
     * otherwise the declaration is pushed and its handle carries the new
     * size and the attribute mask.
     */
    method CreateVdecl(attrs: seq<VertexAttribute>) returns (id: u64)
      requires 0 < |attrs| < ATTRIB_COUNT && AllValid(attrs)
      modifies this
      ensures !Distinct(attrs) ==> id == 0 && vdecls == old(vdecls)
      ensures Distinct(attrs) ==>
        vdecls == old(vdecls) + [Declaration(attrs, FORMATS)] &&
        id == MakeResourceId(VDECL, Trunc16(|vdecls|), Flags(attrs))
      ensures shaders == old(shaders) && buffers == old(buffers)
      ensures pipelines == old(pipelines) && commands == old(commands)
    {
      var r := DescribeVertices(attrs, FORMATS);
      if r.None? {
        return 0;
      }
      var (decl, flags) := r.value;
      vdecls := vdecls + [decl];
      id := MakeResourceId(VDECL, Trunc16(|vdecls|), flags);
    }

    /** `Vkrenderer::create_vb`: the buffer the device made is pushed. */
    method CreateVb(buffer: nat) returns (id: u64)
      modifies this
      ensures buffers == old(buffers) + [buffer]
      ensures id == MakeResourceId(VB, Trunc16(|buffers|), 0)
      ensures vdecls == old(vdecls) && shaders == old(shaders)
      ensures pipelines == old(pipelines) && commands == old(commands)
    {
      buffers := buffers + [buffer];
      id := MakeResourceId(VB, Trunc16(|buffers|), 0);
    }

    /** `Vkrenderer::create_ib`: creates nothing and returns 0. */
    method CreateIb() returns (id: u64)
      ensures id == 0
    {
      id := 0;
    }

    /**
     * `Vkrenderer::create_shader`: both blobs go through
     * `SpirvAnalyzer::analyze`, whose verdicts are then unused; a blob on
     * which it faults makes the call undefined. `layout` is the pipeline
     * layout the device made; when that fails the source throws, and the
     * operation does not return (`Aborted`).
     */
    method CreateShader(vdata: seq<byte>, fdata: seq<byte>, layout: Option<nat>) returns (r: Exec<u64>)
      modifies this
      ensures r == Undefined <==>
        SpirvAnalyzerSpec.Analyze(vdata).Fault? || SpirvAnalyzerSpec.Analyze(fdata).Fault?
      ensures r == Aborted <==> !r.Undefined? && layout.None?
      ensures r.Done? ==>
        shaders == old(shaders) + [layout.value] && r == Done(MakeResourceId(SHADER, Trunc16(|shaders|), 0))
      ensures !r.Done? ==> shaders == old(shaders)
      ensures vdecls == old(vdecls) && buffers == old(buffers)
      ensures pipelines == old(pipelines) && commands == old(commands)
    {
      var vertOk := SpirvAnalyzer.Analyze(vdata);
      var fragOk := SpirvAnalyzer.Analyze(fdata);
      if vertOk.Fault? || fragOk.Fault? {
        return Undefined;
      }
      if layout.None? {
        return Aborted;
      }
      shaders := shaders + [layout.value];
      return Done(MakeResourceId(SHADER, Trunc16(|shaders|), 0));
    }

    /**
     * `Vkrenderer::create_pipeline`: handles of the wrong types trip
     * `assert(false)`; a handle outside its vector is undefined; `created`
     * is the pipeline `vkCreateGraphicsPipelines` made.
     */
    method CreatePipeline(vdecl: u64, shader: u64, created: Option<nat>) returns (r: Exec<u64>)
      modifies this
      ensures r == Aborted <==> TypeOf(vdecl) != VDECL || TypeOf(shader) != SHADER
      ensures TypeOf(vdecl) == VDECL && TypeOf(shader) == SHADER ==>
        (r == Undefined <==> Resolve(shader, SHADER, |shaders|) == Undefined || Resolve(vdecl, VDECL, |vdecls|) == Undefined)
      ensures r.Done? && created.None? ==> r == Done(0) && pipelines == old(pipelines)
      ensures r.Done? && created.Some? ==>
        r.value != 0 && pipelines == old(pipelines) + [created.value] &&
        r.value == MakeResourceId(PIPELINE, Trunc16(|pipelines|), 0)
      ensures vdecls == old(vdecls) && shaders == old(shaders)
      ensures buffers == old(buffers) && commands == old(commands)
    {
      if TypeOf(vdecl) != VDECL || TypeOf(shader) != SHADER {
        return Aborted;
      }
      var shaderIndex := InternalId(shader) - 1;
      if shaderIndex < 0 || shaderIndex >= |shaders| {
        return Undefined;
      }
      var vdeclIndex := InternalId(vdecl) - 1;
      if vdeclIndex < 0 || vdeclIndex >= |vdecls| {
        return Undefined;
      }
      if created.None? {
        return Done(0);
      }
      pipelines := pipelines + [created.value];
      ZeroIsInvalid(PIPELINE, Trunc16(|pipelines|), 0);
      return Done(MakeResourceId(PIPELINE, Trunc16(|pipelines|), 0));
    }

    /** `Vkrenderer::bind_pipeline`: a handle not tagged pipeline is ignored. */
    method BindPipeline(pipeline: u64) returns (r: Exec<()>)
      modifies this
      ensures Resolve(pipeline, PIPELINE, |pipelines|) == Done(None) ==> r.Done? && commands == old(commands)
      ensures Resolve(pipeline, PIPELINE, |pipelines|) == Undefined ==> r == Undefined
      ensures match Resolve(pipeline, PIPELINE, |pipelines|)
        case Done(Some(i)) => r.Done? && commands == old(commands) + [CmdBindPipeline(pipelines[i])]
        case _ => true
      ensures vdecls == old(vdecls) && shaders == old(shaders)
      ensures buffers == old(buffers) && pipelines == old(pipelines)
    {
      if TypeOf(pipeline) != PIPELINE {
        return Done(());
      }
      var index := InternalId(pipeline) - 1;
      if index < 0 || index >= |pipelines| {
        return Undefined;
      }
      commands := commands + [CmdBindPipeline(pipelines[index])];
      return Done(());
    }

    /** `Vkrenderer::bind_vb`: a handle not tagged vb is ignored. */
    method BindVb(vb: u64) returns (r: Exec<()>)
      modifies this
      ensures Resolve(vb, VB, |buffers|) == Done(None) ==> r.Done? && commands == old(commands)
      ensures Resolve(vb, VB, |buffers|) == Undefined ==> r == Undefined
      ensures match Resolve(vb, VB, |buffers|)
        case Done(Some(i)) => r.Done? && commands == old(commands) + [CmdBindVertexBuffers(buffers[i])]
        case _ => true
      ensures vdecls == old(vdecls) && shaders == old(shaders)
      ensures buffers == old(buffers) && pipelines == old(pipelines)
    {
      if TypeOf(vb) != VB {
        return Done(());
      }
      var index := InternalId(vb) - 1;
      if index < 0 || index >= |buffers| {
        return Undefined;
      }
      commands := commands + [CmdBindVertexBuffers(buffers[index])];
      return Done(());
    }

    /**
     * `Vkrenderer::bind_ib`: no tag check; it reads `m_buffers[internalid - 1]`,
     * undefined outside the vector, and records nothing.
     */
    method BindIb(ib: u64) returns (r: Exec<()>)
      ensures r.Done? <==> 1 <= InternalId(ib) <= |buffers|
      ensures !r.Aborted?
    {
      var index := InternalId(ib) - 1;
      if index < 0 || index >= |buffers| {
        return Undefined;
      }
      var buffer := buffers[index];
      return Done(());
    }
  }
}
