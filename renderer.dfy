/**
 * The example class itself: the state the frame logic reads and writes (debug flags, the
 * split lambda, the camera, the light, the cascades, the CSM uniform blocks and the
 * command buffers), and the methods that update the cascades, record the command buffers,
 * copy the cascades into the uniform blocks, and decide when to do each.
 */
module Renderer {
  import opened Geometry
  import opened CascadeSplits
  import opened FrustumFit
  import opened Commands

  /** The camera collaborator, as far as the frame logic reads it. */
  datatype Camera = Camera(near: real, far: real, perspective: Mat4, view: Mat4)

  /** One shadow cascade: its framebuffer (one layer of the depth array), the view-space
      depth where it ends, and the light matrix that renders it. */
  datatype Cascade = Cascade(frameBuffer: FramebufferHandle, splitDepth: real, viewProjMatrix: Mat4)

  /** zNear and zFar, the clip planes the camera is given at construction. */
  const ZNear: real := 0.5
  const ZFar: real := 48.0

  /** The default split lambda. */
  const DefaultSplitLambda: real := 0.95

  /** The light position the uniform update settles on. */
  const UniformLightPos: Vec4 := Vec4(20.0, -10.0, 20.0, 0.0)

  /** The inverse of the camera's view-projection, through which the NDC corners are
      taken to world space. */
  function InverseCamera(camera: Camera): Mat4 {
    Inverse(Product(camera.perspective, camera.view))
  }

  /** Cascade `i` after updateCascades: same framebuffer, the depth of its split and the
      light matrix fitted to its slice, which starts where cascade i - 1 ends. */
  function FittedCascade(glm: Glm, camera: Camera, lightPos: Vec4, blend: real, c: Cascade, i: nat): (r: Cascade)
    requires ValidClip(camera.near, camera.far)
    ensures r.frameBuffer == c.frameBuffer
  {
    var split := SplitFraction(glm.pow, camera.near, camera.far, blend, i);
    var last := SliceStart(glm.pow, camera.near, camera.far, blend, i);
    c.(splitDepth := SplitDepth(camera.near, camera.far, split),
       viewProjMatrix := CascadeMatrix(glm, InverseCamera(camera), lightPos, last, split))
  }

  /** Every cascade of `before` refitted. */
  function Refitted(glm: Glm, camera: Camera, lightPos: Vec4, blend: real, before: seq<Cascade>): (after: seq<Cascade>)
    requires ValidClip(camera.near, camera.far)
    ensures |after| == |before|
  {
    seq(|before|, i requires 0 <= i < |before| => FittedCascade(glm, camera, lightPos, blend, before[i], i))
  }

  /** What the user did in the overlay this frame: whether the Debugging header is open,
      which checkboxes were clicked, and where the sliders were moved to, if anywhere. */
  datatype UiInput = UiInput(
    debuggingOpen: bool,
    reflectionClicked: bool,
    refractionClicked: bool,
    cascadesClicked: bool,
    cascadeIndex: Option<int>,
    splitLambda: Option<real>)

  class VulkanExample {
    var debugDisplayReflection: bool
    var debugDisplayRefraction: bool
    var cascadeDebugEnabled: bool
    var cascadeDebugIndex: int
    var cascadeSplitLambda: real
    var camera: Camera
    var lightPos: Vec4
    var width: int
    var height: int
    var prepared: bool

    /** The math library the frame logic calls into. */
    const glm: Glm

    const cascades: array<Cascade>

    /** depthPass.ubo.cascadeViewProjMat */
    const depthPassViewProj: array<Mat4>

    /** uboCSM.cascadeSplits and uboCSM.cascadeViewProjMat */
    const csmSplits: array<real>
    const csmViewProj: array<Mat4>

    /** uboCSM.inverseViewMat and uboCSM.lightDir */
    var csmInverseView: Mat4
    var csmLightDir: Vec3

    /** One command buffer per swap-chain image. */
    const commandBuffers: seq<CommandBuffer>

    ghost predicate Valid()
      reads this
    {
      && cascades.Length == CascadeCount
      && depthPassViewProj.Length == CascadeCount
      && csmSplits.Length == CascadeCount
      && csmViewProj.Length == CascadeCount
      && depthPassViewProj != csmViewProj
      && ValidClip(camera.near, camera.far)
      && 0.1 <= cascadeSplitLambda <= 1.0
      && PowLaws(glm.pow)
      && (forall i, j :: 0 <= i < j < |commandBuffers| ==> commandBuffers[i] != commandBuffers[j])
    }

    /** The framebuffers of the cascades, in cascade order. */
    function CascadeFramebuffers(): (fbs: seq<FramebufferHandle>)
      requires Valid()
      reads this, cascades
      ensures |fbs| == CascadeCount
      ensures forall j :: 0 <= j < CascadeCount ==> fbs[j] == cascades[j].frameBuffer
    {
      seq(CascadeCount, j requires 0 <= j < CascadeCount reads cascades => cascades[j].frameBuffer)
    }

    /** The debug configuration the recording depends on. */
    function Debug(): DebugState
      reads this
    {
      DebugState(debugDisplayReflection, debugDisplayRefraction, cascadeDebugEnabled, cascadeDebugIndex)
    }

    function Window(): Extent
      reads this
    {
      Extent(width, height)
    }

    /** Every command buffer holds the frame for its image under the current debug flags. */
    ghost predicate Recorded()
      requires Valid()
      reads this, cascades, commandBuffers
    {
      forall i :: 0 <= i < |commandBuffers| ==>
        commandBuffers[i].cmds == FrameCommands(Debug(), CascadeFramebuffers(), i, Window())
    }

    /** The cascades are `before` refitted with the current camera and lambda and the light
        at `light`. */
    ghost predicate FittedFrom(before: seq<Cascade>, light: Vec4)
      requires Valid()
      reads this, cascades
    {
      |before| == CascadeCount && cascades[..] == Refitted(glm, camera, light, cascadeSplitLambda, before)
    }

    /** The uniform blocks hold what the cascades hold. */
    ghost predicate UniformsCopied()
      requires Valid()
      reads this, cascades, depthPassViewProj, csmSplits, csmViewProj
    {
      && (forall i :: 0 <= i < CascadeCount ==> depthPassViewProj[i] == cascades[i].viewProjMatrix)
      && (forall i :: 0 <= i < CascadeCount ==> csmViewProj[i] == cascades[i].viewProjMatrix)
      && (forall i :: 0 <= i < CascadeCount ==> csmSplits[i] == cascades[i].splitDepth)
      && csmInverseView == Inverse(camera.view)
      && csmLightDir == LightDirection(glm, lightPos)
    }

    /** The example as constructed: debug views off, lambda 0.95, the camera between
        zNear and zFar, one empty command buffer per swap-chain image. */
    constructor (glm: Glm, width: int, height: int, perspective: Mat4, view: Mat4,
                 frameBuffers: seq<FramebufferHandle>, imageCount: nat)
      requires PowLaws(glm.pow)
      requires |frameBuffers| == CascadeCount
      ensures Valid()
      ensures !prepared
      ensures Debug() == DebugState(false, false, false, 0)
      ensures cascadeSplitLambda == DefaultSplitLambda
      ensures camera == Camera(ZNear, ZFar, perspective, view)
      ensures lightPos == Vec4(-400.0, -300.0, -300.0, 0.0)
      ensures CascadeFramebuffers() == frameBuffers
      ensures |commandBuffers| == imageCount
      ensures forall i :: 0 <= i < imageCount ==> fresh(commandBuffers[i]) && commandBuffers[i].cmds == []
      ensures fresh(cascades) && fresh(depthPassViewProj) && fresh(csmSplits) && fresh(csmViewProj)
    {
      var buffers: seq<CommandBuffer> := [];
      for i := 0 to imageCount
        invariant |buffers| == i
        invariant forall k :: 0 <= k < i ==> fresh(buffers[k]) && buffers[k].cmds == []
        invariant forall k, m :: 0 <= k < m < i ==> buffers[k] != buffers[m]
      {
        var cb := new CommandBuffer();
        buffers := buffers + [cb];
      }
      this.glm := glm;
      this.width := width;
      this.height := height;
      debugDisplayReflection := false;
      debugDisplayRefraction := false;
      cascadeDebugEnabled := false;
      cascadeDebugIndex := 0;
      cascadeSplitLambda := DefaultSplitLambda;
      camera := Camera(ZNear, ZFar, perspective, view);
      var radius := 20.0;
      lightPos := Vec4(-20.0 * radius, -15.0 * radius, -15.0 * radius, 0.0 * radius);
      prepared := false;
      cascades := new Cascade[CascadeCount](j requires 0 <= j < CascadeCount => Cascade(frameBuffers[j], 0.0, Identity));
      depthPassViewProj := new Mat4[CascadeCount](_ => Identity);
      csmSplits := new real[CascadeCount](_ => 0.0);
      csmViewProj := new Mat4[CascadeCount](_ => Identity);
      csmInverseView := Identity;
      csmLightDir := Vec3(0.0, 0.0, 0.0);
      commandBuffers := buffers;
      new;
      assert forall j :: 0 <= j < CascadeCount ==> cascades[j].frameBuffer == frameBuffers[j];
      assert CascadeFramebuffers() == frameBuffers;
    }

    /**
     * The first half of updateCascades: the split fraction of every cascade, into a local
     * array, in the code's form lambda * (log - uniform) + uniform normalised to the clip
     * range.
     */
    method ComputeSplits() returns (cascadeSplits: array<real>)
      requires Valid()
      ensures fresh(cascadeSplits)
      ensures cascadeSplits[..] == Splits(glm.pow, camera.near, camera.far, cascadeSplitLambda)
    {
      cascadeSplits := new real[CascadeCount];

      var nearClip := camera.near;
      var farClip := camera.far;
      var clipRange := farClip - nearClip;

      var minZ := nearClip;
      var maxZ := nearClip + clipRange;

      var range := maxZ - minZ;
      var ratio := maxZ / minZ;

      for i := 0 to CascadeCount
        invariant forall k :: 0 <= k < i ==>
                    cascadeSplits[k] == SplitFraction(glm.pow, nearClip, farClip, cascadeSplitLambda, k)
      {
        var p := (i + 1) as real / CascadeCount as real;
        var log := minZ * glm.pow(ratio, p);
        var uniform := minZ + range * p;
        var d := cascadeSplitLambda * (log - uniform) + uniform;
        cascadeSplits[i] := (d - nearClip) / clipRange;
        SplitFromCode(glm.pow, nearClip, farClip, cascadeSplitLambda, i, clipRange, p, log, uniform, d);
      }
    }

    /** The body of updateCascades' second loop, for cascade `i`: the light matrix fitted
        to the slice from `lastSplitDist` to `splitDist`, and the split's view-space depth. */
    method FitCascadeAt(i: nat, lastSplitDist: real, splitDist: real)
      requires Valid() && i < CascadeCount
      requires splitDist == SplitFraction(glm.pow, camera.near, camera.far, cascadeSplitLambda, i)
      requires lastSplitDist == SliceStart(glm.pow, camera.near, camera.far, cascadeSplitLambda, i)
      modifies cascades
      ensures cascades[i] == FittedCascade(glm, camera, lightPos, cascadeSplitLambda, old(cascades[i]), i)
      ensures forall k :: 0 <= k < CascadeCount && k != i ==> cascades[k] == old(cascades[k])
    {
      var clipRange := camera.far - camera.near;
      var invCam := Inverse(Product(camera.perspective, camera.view));
      var viewProj := FitCascade(glm, invCam, lightPos, lastSplitDist, splitDist);
      var splitDepth := (camera.near + splitDist * clipRange) * -1.0;
      DepthFromClipRange(camera.near, camera.far, clipRange, splitDist);
      FittedCascadeFromParts(glm, camera, lightPos, cascadeSplitLambda, cascades[i], i,
                             lastSplitDist, splitDist, splitDepth, viewProj);
      cascades[i] := cascades[i].(splitDepth := splitDepth, viewProjMatrix := viewProj);
    }

    /**
     * updateCascades: the split fractions first; then, cascade by cascade, the light matrix
     * fitted to the slice from the previous split to this one, and the split's view-space
     * depth.
     */
    method UpdateCascades()
      requires Valid()
      modifies cascades
      ensures FittedFrom(old(cascades[..]), lightPos)
      ensures CascadeFramebuffers() == old(CascadeFramebuffers())
    {
      var cascadeSplits := ComputeSplits();

      var lastSplitDist := 0.0;
      for i := 0 to CascadeCount
        modifies cascades
        invariant lastSplitDist == SliceStart(glm.pow, camera.near, camera.far, cascadeSplitLambda, i)
        invariant forall k :: 0 <= k < i ==>
                    cascades[k] == FittedCascade(glm, camera, lightPos, cascadeSplitLambda, old(cascades[k]), k)
        invariant forall k :: i <= k < CascadeCount ==> cascades[k] == old(cascades[k])
      {
        assert cascadeSplits[i] == Splits(glm.pow, camera.near, camera.far, cascadeSplitLambda)[i];
        FitCascadeAt(i, lastSplitDist, cascadeSplits[i]);
        lastSplitDist := cascadeSplits[i];
      }
    }

    /** drawScene: the draw type's push constants, then the sky sphere and the terrain. */
    method DrawScene(cb: CommandBuffer, drawType: SceneDrawType)
      modifies cb
      ensures cb.cmds == old(cb.cmds) + SceneCommands(drawType)
    {
      var scale := Identity;
      var clipPlane := Zero4;
      var shadows := 1;
      if drawType == Reflect {
        scale := Scaled(scale, Vec3(1.0, -1.0, 1.0));
      }
      match drawType {
        case Refract =>
          clipPlane := Vec4(0.0, 1.0, 0.0, 0.0);
          shadows := 0;
        case Reflect =>
          clipPlane := Vec4(0.0, 1.0, 0.0, 0.0);
          shadows := 0;
        case Display =>
      }
      var pushConst := ScenePush(scale, clipPlane, shadows);
      assert pushConst == ScenePushConstants(drawType);

      // Skysphere
      cb.Record(BindPipeline(SkyPipeline));
      cb.Record(BindSet(SkysphereSet));
      cb.Record(Push(pushConst));
      cb.Record(DrawMesh(SkysphereMesh));

      // Terrain
      cb.Record(BindPipeline(TerrainPipeline));
      cb.Record(BindSet(TerrainSet));
      cb.Record(Push(pushConst));
      cb.Record(DrawMesh(HeightMapMesh));
    }

    /** drawShadowCasters: the terrain into the depth pass, tagged with the cascade index. */
    method DrawShadowCasters(cb: CommandBuffer, cascadeIndex: nat)
      modifies cb
      ensures cb.cmds == old(cb.cmds) + ShadowCasterCommands(cascadeIndex)
    {
      var pushConst := CascadePush(Zero4, cascadeIndex);
      cb.Record(BindPipeline(DepthPassPipeline));
      cb.Record(BindSet(DepthPassSet));
      cb.Record(Push(pushConst));
      cb.Record(DrawMesh(HeightMapMesh));
    }

    /** drawCSM: the shadow-map viewport and scissor once, then one depth pass per cascade
        into that cascade's framebuffer. */
    method DrawCSM(cb: CommandBuffer)
      requires Valid()
      modifies cb
      ensures cb.cmds == old(cb.cmds) + CsmCommands(CascadeFramebuffers())
    {
      var area := Extent(ShadowMapDim, ShadowMapDim);
      cb.Record(SetViewport(area));
      cb.Record(SetScissor(area));
      ghost var fbs := CascadeFramebuffers();
      for j := 0 to CascadeCount
        invariant cb.cmds == old(cb.cmds) + ShadowViewport() + ShadowPasses(fbs, j)
      {
        cb.Record(BeginPass(CascadeTarget(cascades[j].frameBuffer), area));
        DrawShadowCasters(cb, j);
        cb.Record(EndPass);
      }
    }

    /** One mirror pass (the refraction or the reflection block of buildCommandBuffers):
        its own viewport and scissor, then the scene for its draw type. */
    method RecordMirrorPass(cb: CommandBuffer, target: Target, drawType: SceneDrawType)
      modifies cb
      ensures cb.cmds == old(cb.cmds) + MirrorPass(target, drawType)
    {
      var area := Extent(OffscreenDim, OffscreenDim);
      cb.Record(BeginPass(target, area));
      cb.Record(SetViewport(area));
      cb.Record(SetScissor(area));
      DrawScene(cb, drawType);
      cb.Record(EndPass);
    }

    /** A debug quad showing attachment `index` (0 reflection, 1 refraction). */
    method RecordDebugQuad(cb: CommandBuffer, index: nat)
      modifies cb
      ensures cb.cmds == old(cb.cmds) + DebugQuad(index)
    {
      cb.Record(BindSet(DebugQuadSet));
      cb.Record(BindPipeline(DebugPipeline));
      cb.Record(Push(DebugQuadPush(index)));
      cb.Record(Draw(6));
    }

    /** The quad showing the selected cascade's depth. */
    method RecordCascadeQuad(cb: CommandBuffer)
      modifies cb
      ensures cb.cmds == old(cb.cmds) + CascadeQuad(cascadeDebugIndex)
    {
      var pushConst := CascadePush(Zero4, ToUint32(cascadeDebugIndex));
      cb.Record(BindSet(CascadeDebugSet));
      cb.Record(BindPipeline(CascadeDebugPipeline));
      cb.Record(Push(pushConst));
      cb.Record(Draw(6));
    }

    /** The debug quads of the final pass, one per enabled flag. */
    method RecordOverlays(cb: CommandBuffer)
      modifies cb
      ensures cb.cmds == old(cb.cmds) + Overlays(Debug())
    {
      if debugDisplayReflection {
        RecordDebugQuad(cb, 0);
      }
      if debugDisplayRefraction {
        RecordDebugQuad(cb, 1);
      }
      if cascadeDebugEnabled {
        RecordCascadeQuad(cb);
      }
    }

    /** The final pass into swap-chain image `image`: the scene, the water plane, the
        debug quads and the UI. */
    method RecordFinalPass(cb: CommandBuffer, image: nat)
      modifies cb
      ensures cb.cmds == old(cb.cmds) + FinalPass(Debug(), image, Window())
    {
      ghost var start := cb.cmds;
      var area := Extent(width, height);
      cb.Record(BeginPass(SwapchainTarget(image), area));
      cb.Record(SetViewport(area));
      cb.Record(SetScissor(area));
      ghost var head := [BeginPass(SwapchainTarget(image), area), SetViewport(area), SetScissor(area)];
      assert cb.cmds == start + head;
      DrawScene(cb, Display);
      // Reflection plane
      cb.Record(BindSet(WaterplaneSet));
      cb.Record(BindPipeline(MirrorPipeline));
      cb.Record(DrawMesh(PlaneMesh));
      assert cb.cmds == start + head + SceneCommands(Display) + WaterPlaneCommands();
      RecordOverlays(cb);
      cb.Record(DrawUI);
      cb.Record(EndPass);
      AppendRegroup(start, head, SceneCommands(Display), WaterPlaneCommands(), Overlays(Debug()), [DrawUI, EndPass]);
    }

    /** The body of buildCommandBuffers' loop: command buffer `cb`, for swap-chain image
        `image`, is reset and holds the whole frame. */
    method RecordFrame(cb: CommandBuffer, image: nat)
      requires Valid()
      modifies cb
      ensures cb.cmds == FrameCommands(Debug(), CascadeFramebuffers(), image, Window())
    {
      cb.Begin();
      DrawCSM(cb);
      RecordMirrorPass(cb, RefractionTarget, Refract);
      RecordMirrorPass(cb, ReflectionTarget, Reflect);
      RecordFinalPass(cb, image);
      cb.Record(EndRecording);
    }

    /** buildCommandBuffers: every command buffer is reset and re-recorded with the frame
        for its swap-chain image. */
    method BuildCommandBuffers()
      requires Valid()
      modifies commandBuffers
      ensures Recorded()
    {
      ghost var debug, fbs, window := Debug(), CascadeFramebuffers(), Window();
      for i := 0 to |commandBuffers|
        invariant forall k :: 0 <= k < i ==> commandBuffers[k].cmds == FrameCommands(debug, fbs, k, window)
      {
        RecordFrame(commandBuffers[i], i);
      }
    }

    /** updateUniformBufferCSM: the cascades' matrices into the depth pass's block, their
        split depths and matrices into the CSM block, with the inverse view and the light
        direction. */
    method UpdateUniformBufferCSM()
      requires Valid()
      modifies this`csmInverseView, this`csmLightDir, depthPassViewProj, csmSplits, csmViewProj
      ensures UniformsCopied()
      ensures cascades[..] == old(cascades[..])
    {
      for i := 0 to CascadeCount
        invariant forall k :: 0 <= k < i ==> depthPassViewProj[k] == cascades[k].viewProjMatrix
      {
        depthPassViewProj[i] := cascades[i].viewProjMatrix;
      }
      for i := 0 to CascadeCount
        invariant forall k :: 0 <= k < CascadeCount ==> depthPassViewProj[k] == cascades[k].viewProjMatrix
        invariant forall k :: 0 <= k < i ==> csmSplits[k] == cascades[k].splitDepth
        invariant forall k :: 0 <= k < i ==> csmViewProj[k] == cascades[k].viewProjMatrix
      {
        csmSplits[i] := cascades[i].splitDepth;
        csmViewProj[i] := cascades[i].viewProjMatrix;
      }
      csmInverseView := Inverse(camera.view);
      csmLightDir := Xyz(glm.normalize(Neg(lightPos)));
    }

    /** The CSM part of updateUniformBuffers: the light settles at its fixed position, then
        the CSM blocks are refreshed. */
    method UpdateUniformBuffers()
      requires Valid()
      modifies this`lightPos, this`csmInverseView, this`csmLightDir, depthPassViewProj, csmSplits, csmViewProj
      ensures lightPos == UniformLightPos
      ensures UniformsCopied()
      ensures cascades[..] == old(cascades[..])
    {
      lightPos := Vec4(20.0, -10.0, 20.0, 0.0);
      UpdateUniformBufferCSM();
    }

    /** render: nothing before prepare; otherwise, while not paused or after the camera
        moved, the cascades are refitted and the uniforms refreshed. Command buffers are
        never re-recorded here. */
    method Render(paused: bool, cameraUpdated: bool)
      requires Valid()
      modifies this`lightPos, this`csmInverseView, this`csmLightDir, cascades, depthPassViewProj, csmSplits, csmViewProj
      ensures Valid()
      ensures unchanged(commandBuffers)
      ensures !old(prepared) || (paused && !cameraUpdated) ==>
                unchanged(this) && unchanged(cascades) && unchanged(depthPassViewProj)
                && unchanged(csmSplits) && unchanged(csmViewProj)
      ensures old(prepared) && (!paused || cameraUpdated) ==>
                && FittedFrom(old(cascades[..]), old(lightPos))
                && lightPos == UniformLightPos
                && UniformsCopied()
    {
      if !prepared {
        return;
      }
      if !paused || cameraUpdated {
        UpdateCascades();
        UpdateUniformBuffers();
      }
    }

    /** viewChanged: the camera moved, so the uniforms are refreshed; the light settles at
        its fixed position and the CSM blocks take the cascades as they are. */
    method ViewChanged()
      requires Valid()
      modifies this`lightPos, this`csmInverseView, this`csmLightDir, depthPassViewProj, csmSplits, csmViewProj
      ensures Valid()
      ensures lightPos == UniformLightPos && UniformsCopied()
      ensures cascades[..] == old(cascades[..])
    {
      UpdateUniformBuffers();
    }

    /** prepare, as far as the frame logic goes: prepareUniformBuffers runs
        updateUniformBuffers (the light settles and the CSM blocks take the cascades as they
        are, not yet fitted), the command buffers are recorded, then the example is marked
        prepared. */
    method Prepare()
      requires Valid()
      modifies this`prepared, this`lightPos, this`csmInverseView, this`csmLightDir,
               depthPassViewProj, csmSplits, csmViewProj, commandBuffers
      ensures Valid() && prepared && Recorded()
      ensures lightPos == UniformLightPos && UniformsCopied()
      ensures cascades[..] == old(cascades[..])
    {
      UpdateUniformBuffers();
      BuildCommandBuffers();
      ghost var fbs := CascadeFramebuffers();
      prepared := true;
      assert CascadeFramebuffers() == fbs;
    }

    /** The lambda slider's action: lambda takes the new value, the cascades are refitted
        and the uniforms refreshed; the recording does not depend on any of these. */
    method SetSplitLambda(blend: real)
      requires Valid()
      requires 0.1 <= blend <= 1.0
      modifies this`cascadeSplitLambda, this`lightPos, this`csmInverseView, this`csmLightDir,
               cascades, depthPassViewProj, csmSplits, csmViewProj
      ensures Valid()
      ensures cascadeSplitLambda == blend
      ensures FittedFrom(old(cascades[..]), old(lightPos))
      ensures lightPos == UniformLightPos && UniformsCopied()
      ensures CascadeFramebuffers() == old(CascadeFramebuffers())
      ensures old(Recorded()) ==> Recorded()
    {
      ghost var fbs := CascadeFramebuffers();
      ghost var debug := Debug();
      ghost var window := Window();
      cascadeSplitLambda := blend;
      UpdateCascades();
      ghost var fitted := cascades[..];
      UpdateUniformBuffers();
      assert cascades[..] == fitted;
      assert CascadeFramebuffers() == fbs;
      assert Debug() == debug && Window() == window;
      if old(Recorded()) {
        RecordingKept();
      }
    }

    /** The recording only depends on the debug flags, the cascade framebuffers, the window
        and the command buffers: a state that keeps those keeps the recording. */
    twostate lemma RecordingKept()
      requires old(Valid()) && Valid()
      requires old(Recorded())
      requires Debug() == old(Debug()) && Window() == old(Window())
      requires CascadeFramebuffers() == old(CascadeFramebuffers())
      requires forall i :: 0 <= i < |commandBuffers| ==> commandBuffers[i].cmds == old(commandBuffers[i].cmds)
      ensures Recorded()
    {
    }

    /** The "Display reflection" checkbox, clicked: the flag flips and the command
        buffers are re-recorded. */
    method ToggleReflection()
      requires Valid()
      modifies this`debugDisplayReflection, commandBuffers
      ensures Valid()
      ensures debugDisplayReflection == !old(debugDisplayReflection)
      ensures Recorded()
    {
      debugDisplayReflection := !debugDisplayReflection;
      BuildCommandBuffers();
    }

    /** The "Display refraction" checkbox, clicked. */
    method ToggleRefraction()
      requires Valid()
      modifies this`debugDisplayRefraction, commandBuffers
      ensures Valid()
      ensures debugDisplayRefraction == !old(debugDisplayRefraction)
      ensures Recorded()
    {
      debugDisplayRefraction := !debugDisplayRefraction;
      BuildCommandBuffers();
    }

    /** The "Display cascades" checkbox, clicked. */
    method ToggleCascadeDebug()
      requires Valid()
      modifies this`cascadeDebugEnabled, commandBuffers
      ensures Valid()
      ensures cascadeDebugEnabled == !old(cascadeDebugEnabled)
      ensures Recorded()
    {
      cascadeDebugEnabled := !cascadeDebugEnabled;
      BuildCommandBuffers();
    }

    /** The "Cascade" slider, moved to `index`. */
    method SelectCascade(index: int)
      requires Valid()
      modifies this`cascadeDebugIndex, commandBuffers
      ensures Valid()
      ensures cascadeDebugIndex == index
      ensures Recorded()
    {
      cascadeDebugIndex := index;
      BuildCommandBuffers();
    }

    /**
     * The checkboxes and the cascade slider of the Debugging section: each checkbox click
     * flips its flag and re-records the command buffers; the cascade slider, shown only while
     * the cascade view is on, sets the index and re-records.
     */
    method DebugWidgets(ui: UiInput)
      requires Valid()
      modifies this`debugDisplayReflection, this`debugDisplayRefraction, this`cascadeDebugEnabled,
               this`cascadeDebugIndex, commandBuffers
      ensures Valid()
      ensures Debug() == DebugState(
                old(debugDisplayReflection) != ui.reflectionClicked,
                old(debugDisplayRefraction) != ui.refractionClicked,
                old(cascadeDebugEnabled) != ui.cascadesClicked,
                if cascadeDebugEnabled && ui.cascadeIndex.Some? then ui.cascadeIndex.value
                else old(cascadeDebugIndex))
      ensures Debug() != old(Debug()) ==> Recorded()
      ensures old(Recorded()) ==> Recorded()
      ensures (!ui.reflectionClicked && !ui.refractionClicked && !ui.cascadesClicked
               && !(cascadeDebugEnabled && ui.cascadeIndex.Some?)) ==> unchanged(commandBuffers)
    {
      if ui.reflectionClicked {
        ToggleReflection();
      }
      if ui.refractionClicked {
        ToggleRefraction();
      }
      if ui.cascadesClicked {
        ToggleCascadeDebug();
      }
      if cascadeDebugEnabled {
        if ui.cascadeIndex.Some? {
          SelectCascade(ui.cascadeIndex.value);
        }
      }
    }

    /**
     * The body of the open Debugging header: the checkboxes and the cascade slider, then the
     * lambda slider, which sets lambda and refits the cascades and the uniforms without
     * re-recording.
     */
    method DebuggingSection(ui: UiInput)
      requires Valid()
      requires ui.splitLambda.Some? ==> 0.1 <= ui.splitLambda.value <= 1.0
      modifies this`debugDisplayReflection, this`debugDisplayRefraction, this`cascadeDebugEnabled,
               this`cascadeDebugIndex, this`cascadeSplitLambda, this`lightPos, this`csmInverseView,
               this`csmLightDir, commandBuffers, cascades, depthPassViewProj, csmSplits, csmViewProj
      ensures Valid()
      ensures Debug() == DebugState(
                old(debugDisplayReflection) != ui.reflectionClicked,
                old(debugDisplayRefraction) != ui.refractionClicked,
                old(cascadeDebugEnabled) != ui.cascadesClicked,
                if cascadeDebugEnabled && ui.cascadeIndex.Some? then ui.cascadeIndex.value
                else old(cascadeDebugIndex))
      ensures cascadeSplitLambda == if ui.splitLambda.Some? then ui.splitLambda.value else old(cascadeSplitLambda)
      ensures Debug() != old(Debug()) ==> Recorded()
      ensures old(Recorded()) ==> Recorded()
      ensures (!ui.reflectionClicked && !ui.refractionClicked && !ui.cascadesClicked
               && !(cascadeDebugEnabled && ui.cascadeIndex.Some?)) ==> unchanged(commandBuffers)
      ensures ui.splitLambda.Some? ==>
                FittedFrom(old(cascades[..]), old(lightPos)) && lightPos == UniformLightPos && UniformsCopied()
      ensures ui.splitLambda.None? ==>
                lightPos == old(lightPos) && csmInverseView == old(csmInverseView)
                && csmLightDir == old(csmLightDir)
                && unchanged(cascades) && unchanged(depthPassViewProj)
                && unchanged(csmSplits) && unchanged(csmViewProj)
    {
      DebugWidgets(ui);
      if ui.splitLambda.Some? {
        assert cascades[..] == old(cascades[..]);
        SetSplitLambda(ui.splitLambda.value);
      }
    }

    /** OnUpdateUIOverlay: the Debugging section runs only while its header is open. */
    method OnUpdateUIOverlay(ui: UiInput)
      requires Valid()
      requires ui.splitLambda.Some? ==> 0.1 <= ui.splitLambda.value <= 1.0
      modifies this`debugDisplayReflection, this`debugDisplayRefraction, this`cascadeDebugEnabled,
               this`cascadeDebugIndex, this`cascadeSplitLambda, this`lightPos, this`csmInverseView,
               this`csmLightDir, commandBuffers, cascades, depthPassViewProj, csmSplits, csmViewProj
      ensures Valid()
      ensures var open := ui.debuggingOpen;
              && debugDisplayReflection == (old(debugDisplayReflection) != (open && ui.reflectionClicked))
              && debugDisplayRefraction == (old(debugDisplayRefraction) != (open && ui.refractionClicked))
              && cascadeDebugEnabled == (old(cascadeDebugEnabled) != (open && ui.cascadesClicked))
              && cascadeDebugIndex == (if open && cascadeDebugEnabled && ui.cascadeIndex.Some?
                                       then ui.cascadeIndex.value else old(cascadeDebugIndex))
              && cascadeSplitLambda == (if open && ui.splitLambda.Some? then ui.splitLambda.value
                                        else old(cascadeSplitLambda))
      ensures Debug() != old(Debug()) ==> Recorded()
      ensures old(Recorded()) ==> Recorded()
      ensures ui.debuggingOpen && ui.splitLambda.Some? ==>
                FittedFrom(old(cascades[..]), old(lightPos)) && lightPos == UniformLightPos && UniformsCopied()
      ensures !(ui.debuggingOpen && ui.splitLambda.Some?) ==>
                lightPos == old(lightPos) && csmInverseView == old(csmInverseView)
                && csmLightDir == old(csmLightDir)
                && unchanged(cascades) && unchanged(depthPassViewProj)
                && unchanged(csmSplits) && unchanged(csmViewProj)
      ensures !ui.debuggingOpen ==> unchanged(this) && unchanged(commandBuffers)
      ensures !(ui.debuggingOpen
                && (ui.reflectionClicked || ui.refractionClicked || ui.cascadesClicked
                    || (cascadeDebugEnabled && ui.cascadeIndex.Some?)))
              ==> unchanged(commandBuffers)
    {
      if ui.debuggingOpen {
        DebuggingSection(ui);
      }
    }
  }

  /** Appending five pieces one by one is appending their concatenation. */
  lemma AppendRegroup<T>(a: seq<T>, b: seq<T>, c: seq<T>, d: seq<T>, e: seq<T>, f: seq<T>)
    ensures a + b + c + d + e + f == a + (b + c + d + e + f)
  {
    assert a + b + c == a + (b + c);
    assert a + (b + c) + d == a + (b + c + d);
    assert a + (b + c + d) + e == a + (b + c + d + e);
  }

  /** near + split * clipRange, negated, is the split's depth. */
  lemma DepthFromClipRange(near: real, far: real, clipRange: real, split: real)
    requires clipRange == far - near
    ensures (near + split * clipRange) * -1.0 == SplitDepth(near, far, split)
  {
  }

  /** The cascade the loop body of updateCascades builds from the split, the previous split
      and the fitted matrix is the one FittedCascade describes. */
  lemma FittedCascadeFromParts(glm: Glm, camera: Camera, lightPos: Vec4, blend: real, c: Cascade, i: nat,
                               last: real, split: real, depth: real, viewProj: Mat4)
    requires ValidClip(camera.near, camera.far)
    requires split == SplitFraction(glm.pow, camera.near, camera.far, blend, i)
    requires last == SliceStart(glm.pow, camera.near, camera.far, blend, i)
    requires depth == SplitDepth(camera.near, camera.far, split)
    requires viewProj == CascadeMatrix(glm, InverseCamera(camera), lightPos, last, split)
    ensures c.(splitDepth := depth, viewProjMatrix := viewProj) == FittedCascade(glm, camera, lightPos, blend, c, i)
  {
  }

  /** One iteration of the first loop of updateCascades: with minZ the near plane,
      maxZ = near + clipRange, the split blend * (log - uniform) + uniform, normalised to the
      clip range, is the split fraction of the cascade. */
  lemma SplitFromCode(pow: (real, real) -> real, near: real, far: real, blend: real, i: nat,
                      clipRange: real, p: real, log: real, uniform: real, d: real)
    requires ValidClip(near, far)
    requires clipRange == far - near
    requires p == (i + 1) as real / CascadeCount as real
    requires log == near * pow((near + clipRange) / near, p)
    requires uniform == near + ((near + clipRange) - near) * p
    requires d == blend * (log - uniform) + uniform
    ensures (d - near) / clipRange == SplitFraction(pow, near, far, blend, i)
  {
    assert near + clipRange == far;
    assert blend * (log - uniform) + uniform == blend * log + (1.0 - blend) * uniform;
  }
}
