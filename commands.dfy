/**
 * The command stream a frame records, as a trace of abstract commands, and the recorder
 * functions that say which trace drawScene, drawShadowCasters, drawCSM and
 * buildCommandBuffers produce for a given debug configuration.
 */
module Commands {
  import opened Geometry
  import CascadeSplits

  datatype Option<T> = None | Some(value: T)

  /** SHADOWMAP_DIM (desktop build): the side of every shadow-map layer. */
  const ShadowMapDim: int := 4096

  /** FB_DIM: the side of the reflection and refraction attachments. */
  const OffscreenDim: int := 1024

  datatype Extent = Extent(width: int, height: int)

  /** Framebuffer handles are created once at set-up and only compared here. */
  type FramebufferHandle = nat

  /** The render target a pass writes. */
  datatype Target =
    | CascadeTarget(frameBuffer: FramebufferHandle)  // one layer of the shadow depth array
    | RefractionTarget                               // offscreenPass.refraction
    | ReflectionTarget                               // offscreenPass.reflection
    | SwapchainTarget(image: nat)                    // frameBuffers[i]

  datatype Pipeline = SkyPipeline | TerrainPipeline | DepthPassPipeline | MirrorPipeline | DebugPipeline | CascadeDebugPipeline

  datatype DescriptorSet = SkysphereSet | TerrainSet | DepthPassSet | WaterplaneSet | DebugQuadSet | CascadeDebugSet

  datatype Mesh = SkysphereMesh | HeightMapMesh | PlaneMesh

  /** The push-constant payloads sharing the one push-constant slot. */
  datatype PushConstant =
    | ScenePush(scale: Mat4, clipPlane: Vec4, shadows: nat)   // drawScene's PushConst
    | CascadePush(position: Vec4, cascadeIndex: nat)         // CascadePushConstBlock
    | DebugQuadPush(index: nat)                              // the debug quad's uint32

  datatype Cmd =
    | BeginRecording                      // cb->begin()
    | EndRecording                        // cb->end()
    | BeginPass(target: Target, area: Extent)
    | EndPass
    | SetViewport(viewport: Extent)
    | SetScissor(scissor: Extent)
    | BindPipeline(pipeline: Pipeline)
    | BindSet(descriptorSet: DescriptorSet)
    | Push(payload: PushConstant)
    | DrawMesh(mesh: Mesh)                // model->draw(cb->handle)
    | Draw(vertexCount: nat)              // cb->draw(n, 1, 0, 0)
    | DrawUI                              // drawUI(cb->handle)

  datatype SceneDrawType = Refract | Reflect | Display

  /** The debug configuration the recorded frame depends on. */
  datatype DebugState = DebugState(
    displayReflection: bool,     // debugDisplayReflection
    displayRefraction: bool,     // debugDisplayRefraction
    cascadeDebugEnabled: bool,   // cascadeDebug.enabled
    cascadeDebugIndex: int)      // cascadeDebug.cascadeIndex (int32_t)

  /** The implicit int32_t -> uint32_t conversion of a push-constant field. */
  function ToUint32(x: int): (r: nat)
    ensures r < 0x1_0000_0000
    ensures 0 <= x < 0x1_0000_0000 ==> r == x
  {
    x % 0x1_0000_0000
  }

  const Zero4: Vec4 := Vec4(0.0, 0.0, 0.0, 0.0)

  /** The clip plane y = 0 that both mirror passes clip against. */
  const WaterPlane: Vec4 := Vec4(0.0, 1.0, 0.0, 0.0)

  /** The mirror transform diag(1, -1, 1): glm::scale(mat4(1), vec3(1, -1, 1)). */
  const MirrorScale: Mat4 := Scaled(Identity, Vec3(1.0, -1.0, 1.0))

  /** drawScene's push constants: identity scale, zero clip plane and shadows on by default;
      the reflection draw mirrors the scale; both mirror draws clip at the water plane and
      switch shadows off. */
  function ScenePushConstants(drawType: SceneDrawType): (pc: PushConstant)
    ensures pc.ScenePush?
    ensures pc.scale == (if drawType == Reflect then MirrorScale else Identity)
    ensures pc.clipPlane == (if drawType == Display then Zero4 else WaterPlane)
    ensures pc.shadows == 1 <==> drawType == Display
    ensures pc.shadows == 0 <==> drawType != Display
  {
    var scale := if drawType == Reflect then Scaled(Identity, Vec3(1.0, -1.0, 1.0)) else Identity;
    match drawType
    case Refract => ScenePush(scale, Vec4(0.0, 1.0, 0.0, 0.0), 0)
    case Reflect => ScenePush(scale, Vec4(0.0, 1.0, 0.0, 0.0), 0)
    case Display => ScenePush(scale, Vec4(0.0, 0.0, 0.0, 0.0), 1)
  }

  /** A mesh draw: bind the pipeline, bind the descriptor set, push the constants, draw. */
  function MeshDraw(pipeline: Pipeline, descriptorSet: DescriptorSet, payload: PushConstant, mesh: Mesh): seq<Cmd> {
    [BindPipeline(pipeline), BindSet(descriptorSet), Push(payload), DrawMesh(mesh)]
  }

  /** drawScene: the sky sphere, then the terrain, each with its pipeline, its set and the
      same push constants. */
  function SceneCommands(drawType: SceneDrawType): seq<Cmd> {
    var pc := ScenePushConstants(drawType);
    MeshDraw(SkyPipeline, SkysphereSet, pc, SkysphereMesh) + MeshDraw(TerrainPipeline, TerrainSet, pc, HeightMapMesh)
  }

  /** drawShadowCasters: the terrain into the depth pass, tagged with its cascade index. */
  function ShadowCasterCommands(cascadeIndex: nat): seq<Cmd> {
    MeshDraw(DepthPassPipeline, DepthPassSet, CascadePush(Zero4, cascadeIndex), HeightMapMesh)
  }

  /** One cascade's depth pass, into that cascade's framebuffer. */
  function ShadowPass(frameBuffer: FramebufferHandle, j: nat): seq<Cmd> {
    [BeginPass(CascadeTarget(frameBuffer), Extent(ShadowMapDim, ShadowMapDim))]
    + ShadowCasterCommands(j) + [EndPass]
  }

  /** The first n cascade passes, in cascade order. */
  function ShadowPasses(frameBuffers: seq<FramebufferHandle>, n: nat): seq<Cmd>
    requires n <= |frameBuffers|
  {
    if n == 0 then [] else ShadowPasses(frameBuffers, n - 1) + ShadowPass(frameBuffers[n - 1], n - 1)
  }

  /** The viewport and scissor drawCSM sets once, before its passes. */
  function ShadowViewport(): seq<Cmd> {
    [SetViewport(Extent(ShadowMapDim, ShadowMapDim)), SetScissor(Extent(ShadowMapDim, ShadowMapDim))]
  }

  /** drawCSM: one depth pass per cascade. */
  function CsmCommands(frameBuffers: seq<FramebufferHandle>): seq<Cmd>
    requires |frameBuffers| == CascadeSplits.CascadeCount
  {
    ShadowViewport() + ShadowPasses(frameBuffers, |frameBuffers|)
  }

  /** A mirror pass (refraction or reflection) into its offscreen attachment pair. */
  function MirrorPass(target: Target, drawType: SceneDrawType): seq<Cmd> {
    var e := Extent(OffscreenDim, OffscreenDim);
    [BeginPass(target, e), SetViewport(e), SetScissor(e)] + SceneCommands(drawType) + [EndPass]
  }

  /** The water plane, drawn with the mirror pipeline over the two offscreen images. */
  function WaterPlaneCommands(): seq<Cmd> {
    [BindSet(WaterplaneSet), BindPipeline(MirrorPipeline), DrawMesh(PlaneMesh)]
  }

  /** A full-screen quad: bind the set, bind the pipeline, push the constants, draw six
      vertices. */
  function QuadDraw(descriptorSet: DescriptorSet, pipeline: Pipeline, payload: PushConstant): seq<Cmd> {
    [BindSet(descriptorSet), BindPipeline(pipeline), Push(payload), Draw(6)]
  }

  /** The debug quad showing attachment `index` (0 reflection, 1 refraction). */
  function DebugQuad(index: nat): seq<Cmd> {
    QuadDraw(DebugQuadSet, DebugPipeline, DebugQuadPush(index))
  }

  /** The quad showing one shadow cascade's depth. */
  function CascadeQuad(cascadeIndex: int): seq<Cmd> {
    QuadDraw(CascadeDebugSet, CascadeDebugPipeline, CascadePush(Zero4, ToUint32(cascadeIndex)))
  }

  /** The enabled debug overlays, in the order the source tests the flags. */
  function Overlays(d: DebugState): seq<Cmd> {
    (if d.displayReflection then DebugQuad(0) else [])
    + (if d.displayRefraction then DebugQuad(1) else [])
    + (if d.cascadeDebugEnabled then CascadeQuad(d.cascadeDebugIndex) else [])
  }

  /** The final pass into swap-chain image `image`: scene, water plane, overlays, UI. */
  function FinalPass(d: DebugState, image: nat, window: Extent): seq<Cmd> {
    [BeginPass(SwapchainTarget(image), window), SetViewport(window), SetScissor(window)]
    + SceneCommands(Display) + WaterPlaneCommands() + Overlays(d) + [DrawUI, EndPass]
  }

  /** The whole command buffer recorded for swap-chain image `image`. */
  function FrameCommands(d: DebugState, frameBuffers: seq<FramebufferHandle>, image: nat, window: Extent): seq<Cmd>
    requires |frameBuffers| == CascadeSplits.CascadeCount
  {
    [BeginRecording]
    + CsmCommands(frameBuffers)
    + MirrorPass(RefractionTarget, Refract)
    + MirrorPass(ReflectionTarget, Reflect)
    + FinalPass(d, image, window)
    + [EndRecording]
  }

  /** A command buffer: the commands recorded into it since its last begin(). */
  class CommandBuffer {
    var cmds: seq<Cmd>

    constructor ()
      ensures cmds == []
    {
      cmds := [];
    }

    /** Begin recording; a buffer recorded before is reset first. */
    method Begin()
      modifies this
      ensures cmds == [BeginRecording]
    {
      cmds := [BeginRecording];
    }

    /** Append one command. */
    method Record(c: Cmd)
      modifies this
      ensures cmds == old(cmds) + [c]
    {
      cmds := cmds + [c];
    }
  }
}
