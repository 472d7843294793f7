/**
 * `RendererVk`: the Vulkan back end's registries of declarations, shaders,
 * buffers and pipelines, the handles it gives out for them and the tag
 * checks on the handles it is given. What the Vulkan API creates is a
 * parameter (an opaque number, or `None` when the call fails); what the
 * bind operations record into the command buffer is the `commands` trace.
 */
module RendererVulkan {
  import opened Memory
  import opened VertexLayout
  import opened ResourceId
  import opened Vulkan

  /** `_vformat2vkformat` of this back end: `byte4` is `VK_FORMAT_B8G8R8A8_UNORM`. */
  const FORMATS: seq<VkFormat> := COMMON_FORMATS + [B8G8R8A8_UNORM]

  /** A command recorded into the current command buffer. */
  datatype Command =
    | CmdBindPipeline(pipeline: nat)
    | CmdBindVertexBuffers(buffer: nat)
    | CmdBindIndexBuffer(buffer: nat)

  class RendererVk {
    /** `m_vdecls`. */
    var vdecls: seq<VDeclaration>
    /** `m_shaders`: the pipeline layout of each shader. */
    var shaders: seq<nat>
    /** `m_resources`: the buffer of each resource. */
    var resources: seq<nat>
    /** `m_pipelines`. */
    var pipelines: seq<nat>
    /** What `vkCmdBind*` recorded, oldest first. */
    var commands: seq<Command>

    constructor ()
      ensures vdecls == [] && shaders == [] && resources == [] && pipelines == [] && commands == []
    {
      vdecls := [];
      shaders := [];
      resources := [];
      pipelines := [];
      commands := [];
    }

    /**
     * `RendererVk::create_vdecl`. The entry `assert` demands one to thirteen
     * attributes. A repeated attribute type gives 0 and pushes nothing;
     * otherwise the declaration is pushed and its handle carries the new
     * size and the attribute mask.
     */
    method CreateVdecl(attrs: seq<VertexAttribute>) returns (id: u64)
      requires 0 < |attrs| < ATTRIB_COUNT && AllValid(attrs)
      modifies this
      ensures !Distinct(attrs) ==> id == 0 && vdecls == old(vdecls)
      ensures Distinct(attrs) ==>
        vdecls == old(vdecls) + [Declaration(attrs, FORMATS)] &&
        id == MakeResourceId(VDECL, Trunc16(|vdecls|), Flags(attrs))
      ensures shaders == old(shaders) && resources == old(resources)
      ensures pipelines == old(pipelines) && commands == old(commands)
    {
      var r := DescribeVertices(attrs, FORMATS);
      if r.None? {
        return 0;
      }
      var (decl, flags) := r.value;
      vdecls := vdecls + [decl];
      id := MakeResourceId(VDECL, Trunc16(|vdecls|), flags);
    }

    /** `RendererVk::create_vb`: the buffer the device made is pushed as a resource. */
    method CreateVb(buffer: nat) returns (id: u64)
      modifies this
      ensures resources == old(resources) + [buffer]
      ensures id == MakeResourceId(VB, Trunc16(|resources|), 0)
      ensures vdecls == old(vdecls) && shaders == old(shaders)
      ensures pipelines == old(pipelines) && commands == old(commands)
    {
      resources := resources + [buffer];
      id := MakeResourceId(VB, Trunc16(|resources|), 0);
    }

    /** `RendererVk::create_ib`: creates nothing and returns 0. */
    method CreateIb() returns (id: u64)
      ensures id == 0
    {
      id := 0;
    }

    /**
     * `RendererVk::create_shader`: `layout` is the pipeline layout the
     * device made, `None` when the shader data is missing or a Vulkan call
     * fails, which gives 0.
     */
    method CreateShader(layout: Option<nat>) returns (id: u64)
      modifies this
      ensures layout.None? ==> id == 0 && shaders == old(shaders)
      ensures layout.Some? ==>
        shaders == old(shaders) + [layout.value] && id == MakeResourceId(SHADER, Trunc16(|shaders|), 0)
      ensures vdecls == old(vdecls) && resources == old(resources)
      ensures pipelines == old(pipelines) && commands == old(commands)
    {
      if layout.None? {
        return 0;
      }
      shaders := shaders + [layout.value];
      id := MakeResourceId(SHADER, Trunc16(|shaders|), 0);
    }

    /**
     * `RendererVk::create_pipeline`: handles of the wrong types give 0
     * before anything is looked up; a handle outside its vector is
     * undefined; `created` is the pipeline `vkCreateGraphicsPipelines` made.
     */
    method CreatePipeline(vdecl: u64, shader: u64, created: Option<nat>) returns (r: Exec<u64>)
      modifies this
      ensures TypeOf(vdecl) != VDECL || TypeOf(shader) != SHADER ==> r == Done(0) && pipelines == old(pipelines)
      ensures TypeOf(vdecl) == VDECL && TypeOf(shader) == SHADER ==>
        (r == Undefined <==> Resolve(shader, SHADER, |shaders|) == Undefined || Resolve(vdecl, VDECL, |vdecls|) == Undefined)
      ensures !r.Aborted?
      ensures r.Done? && created.None? ==> r == Done(0) && pipelines == old(pipelines)
      ensures TypeOf(vdecl) == VDECL && TypeOf(shader) == SHADER && r.Done? && created.Some? ==>
        r.value != 0 && pipelines == old(pipelines) + [created.value] &&
        r.value == MakeResourceId(PIPELINE, Trunc16(|pipelines|), 0)
      ensures vdecls == old(vdecls) && shaders == old(shaders)
      ensures resources == old(resources) && commands == old(commands)
    {
      if TypeOf(vdecl) != VDECL || TypeOf(shader) != SHADER {
        return Done(0);
      }
      var shaderIndex := InternalId(shader) - 1;
      if shaderIndex < 0 || shaderIndex >= |shaders| {
        return Undefined;
      }
      var vdeclIndex := InternalId(vdecl) - 1;
      if vdeclIndex < 0 || vdeclIndex >= |vdecls| {
        return Undefined;
      }
      if created.None? {
        return Done(0);
      }
      pipelines := pipelines + [created.value];
      ZeroIsInvalid(PIPELINE, Trunc16(|pipelines|), 0);
      return Done(MakeResourceId(PIPELINE, Trunc16(|pipelines|), 0));
    }

    /** `RendererVk::bind_pipeline`: a handle not tagged pipeline is ignored. */
    method BindPipeline(pipeline: u64) returns (r: Exec<()>)
      modifies this
      ensures Resolve(pipeline, PIPELINE, |pipelines|) == Done(None) ==> r.Done? && commands == old(commands)
      ensures Resolve(pipeline, PIPELINE, |pipelines|) == Undefined ==> r == Undefined
      ensures match Resolve(pipeline, PIPELINE, |pipelines|)
        case Done(Some(i)) => r.Done? && commands == old(commands) + [CmdBindPipeline(pipelines[i])]
        case _ => true
      ensures vdecls == old(vdecls) && shaders == old(shaders)
      ensures resources == old(resources) && pipelines == old(pipelines)
    {
      if TypeOf(pipeline) != PIPELINE {
        return Done(());
      }
      var index := InternalId(pipeline) - 1;
      if index < 0 || index >= |pipelines| {
        return Undefined;
      }
      commands := commands + [CmdBindPipeline(pipelines[index])];
      return Done(());
    }

    /** `RendererVk::bind_vb`: a handle not tagged vb is ignored. */
    method BindVb(vb: u64) returns (r: Exec<()>)
      modifies this
      ensures Resolve(vb, VB, |resources|) == Done(None) ==> r.Done? && commands == old(commands)
      ensures Resolve(vb, VB, |resources|) == Undefined ==> r == Undefined
      ensures match Resolve(vb, VB, |resources|)
        case Done(Some(i)) => r.Done? && commands == old(commands) + [CmdBindVertexBuffers(resources[i])]
        case _ => true
      ensures vdecls == old(vdecls) && shaders == old(shaders)
      ensures resources == old(resources) && pipelines == old(pipelines)
    {
      if TypeOf(vb) != VB {
        return Done(());
      }
      var index := InternalId(vb) - 1;
      if index < 0 || index >= |resources| {
        return Undefined;
      }
      commands := commands + [CmdBindVertexBuffers(resources[index])];
      return Done(());
    }

    /** `RendererVk::bind_ib`: a handle not tagged ib is ignored. */
    method BindIb(ib: u64) returns (r: Exec<()>)
      modifies this
      ensures Resolve(ib, IB, |resources|) == Done(None) ==> r.Done? && commands == old(commands)
      ensures Resolve(ib, IB, |resources|) == Undefined ==> r == Undefined
      ensures match Resolve(ib, IB, |resources|)
        case Done(Some(i)) => r.Done? && commands == old(commands) + [CmdBindIndexBuffer(resources[i])]
        case _ => true
      ensures vdecls == old(vdecls) && shaders == old(shaders)
      ensures resources == old(resources) && pipelines == old(pipelines)
    {
      if TypeOf(ib) != IB {
        return Done(());
      }
      var index := InternalId(ib) - 1;
      if index < 0 || index >= |resources| {
        return Undefined;
      }
      commands := commands + [CmdBindIndexBuffer(resources[index])];
      return Done(());
    }
  }
}
