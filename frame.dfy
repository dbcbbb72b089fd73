/**
 * The layout of one recorded frame: which passes it runs and in what order, where each
 * cascade's depth pass sits and what it pushes, which draws and push constants the final
 * pass issues for a given debug configuration, and how switching one overlay on or off
 * changes the recording.
 */
module FrameLayout {
  import opened Geometry
  import opened Commands
  import CascadeSplits

  /** The target of a command that begins a pass. */
  function PassOf(c: Cmd): seq<Target> {
    if c.BeginPass? then [c.target] else []
  }

  /** A command that draws. */
  function DrawOf(c: Cmd): seq<Cmd> {
    if c.DrawMesh? || c.Draw? || c.DrawUI? then [c] else []
  }

  /** The payload of a command that pushes constants. */
  function PushOf(c: Cmd): seq<PushConstant> {
    if c.Push? then [c.payload] else []
  }

  /** The targets of the passes a trace begins, in order. */
  function Passes(t: seq<Cmd>): seq<Target>
    decreases |t|
  {
    if t == [] then [] else PassOf(t[0]) + Passes(t[1..])
  }

  /** The draw commands of a trace, in order. */
  function Draws(t: seq<Cmd>): seq<Cmd>
    decreases |t|
  {
    if t == [] then [] else DrawOf(t[0]) + Draws(t[1..])
  }

  /** The push-constant payloads of a trace, in order. */
  function Pushes(t: seq<Cmd>): seq<PushConstant>
    decreases |t|
  {
    if t == [] then [] else PushOf(t[0]) + Pushes(t[1..])
  }

  lemma FiltersSingle(c: Cmd)
    ensures Passes([c]) == PassOf(c)
    ensures Draws([c]) == DrawOf(c)
    ensures Pushes([c]) == PushOf(c)
  {
    assert [c][1..] == [];
  }

  /** The filters of a trace split in two are the filters of its parts, in order. */
  lemma FiltersAppend(a: seq<Cmd>, b: seq<Cmd>)
    ensures Passes(a + b) == Passes(a) + Passes(b)
    ensures Draws(a + b) == Draws(a) + Draws(b)
    ensures Pushes(a + b) == Pushes(a) + Pushes(b)
  {
    PassesAppend(a, b);
    DrawsAppend(a, b);
    PushesAppend(a, b);
  }

  /** The filters of a block of four commands, command by command. */
  lemma Filters4(a: Cmd, b: Cmd, c: Cmd, e: Cmd)
    ensures Passes([a, b, c, e]) == PassOf(a) + PassOf(b) + PassOf(c) + PassOf(e)
    ensures Draws([a, b, c, e]) == DrawOf(a) + DrawOf(b) + DrawOf(c) + DrawOf(e)
    ensures Pushes([a, b, c, e]) == PushOf(a) + PushOf(b) + PushOf(c) + PushOf(e)
  {
    assert [a, b, c, e] == [a] + [b] + [c] + [e];
    FiltersSingle(a);
    FiltersSingle(b);
    FiltersSingle(c);
    FiltersSingle(e);
    FiltersAppend([a], [b]);
    FiltersAppend([a] + [b], [c]);
    FiltersAppend([a] + [b] + [c], [e]);
  }

  /** The filters of a mesh draw: one draw of the mesh, one payload, no pass. */
  lemma MeshDrawFilters(pipeline: Pipeline, descriptorSet: DescriptorSet, payload: PushConstant, mesh: Mesh)
    ensures Passes(MeshDraw(pipeline, descriptorSet, payload, mesh)) == []
    ensures Draws(MeshDraw(pipeline, descriptorSet, payload, mesh)) == [DrawMesh(mesh)]
    ensures Pushes(MeshDraw(pipeline, descriptorSet, payload, mesh)) == [payload]
  {
    Filters4(BindPipeline(pipeline), BindSet(descriptorSet), Push(payload), DrawMesh(mesh));
  }

  /** The filters of a quad: one six-vertex draw, one payload, no pass. */
  lemma QuadDrawFilters(descriptorSet: DescriptorSet, pipeline: Pipeline, payload: PushConstant)
    ensures Passes(QuadDraw(descriptorSet, pipeline, payload)) == []
    ensures Draws(QuadDraw(descriptorSet, pipeline, payload)) == [Draw(6)]
    ensures Pushes(QuadDraw(descriptorSet, pipeline, payload)) == [payload]
  {
    Filters4(BindSet(descriptorSet), BindPipeline(pipeline), Push(payload), Draw(6));
  }

  /** The filters of three commands. */
  lemma Filters3(a: Cmd, b: Cmd, c: Cmd)
    ensures Passes([a, b, c]) == PassOf(a) + PassOf(b) + PassOf(c)
    ensures Draws([a, b, c]) == DrawOf(a) + DrawOf(b) + DrawOf(c)
    ensures Pushes([a, b, c]) == PushOf(a) + PushOf(b) + PushOf(c)
  {
    assert [a, b, c] == [a] + [b] + [c];
    FiltersSingle(a);
    FiltersSingle(b);
    FiltersSingle(c);
    FiltersAppend([a], [b]);
    FiltersAppend([a] + [b], [c]);
  }

  /** The filters of two commands. */
  lemma Filters2(a: Cmd, b: Cmd)
    ensures Passes([a, b]) == PassOf(a) + PassOf(b)
    ensures Draws([a, b]) == DrawOf(a) + DrawOf(b)
    ensures Pushes([a, b]) == PushOf(a) + PushOf(b)
  {
    assert [a, b] == [a] + [b];
    FiltersSingle(a);
    FiltersSingle(b);
    FiltersAppend([a], [b]);
  }

  lemma {:induction false} PassesAppend(a: seq<Cmd>, b: seq<Cmd>)
    ensures Passes(a + b) == Passes(a) + Passes(b)
    decreases |a|
  {
    if a == [] {
      assert a + b == b;
    } else {
      assert (a + b)[0] == a[0];
      assert (a + b)[1..] == a[1..] + b;
      PassesAppend(a[1..], b);
    }
  }

  lemma {:induction false} DrawsAppend(a: seq<Cmd>, b: seq<Cmd>)
    ensures Draws(a + b) == Draws(a) + Draws(b)
    decreases |a|
  {
    if a == [] {
      assert a + b == b;
    } else {
      assert (a + b)[0] == a[0];
      assert (a + b)[1..] == a[1..] + b;
      DrawsAppend(a[1..], b);
    }
  }

  lemma {:induction false} PushesAppend(a: seq<Cmd>, b: seq<Cmd>)
    ensures Pushes(a + b) == Pushes(a) + Pushes(b)
    decreases |a|
  {
    if a == [] {
      assert a + b == b;
    } else {
      assert (a + b)[0] == a[0];
      assert (a + b)[1..] == a[1..] + b;
      PushesAppend(a[1..], b);
    }
  }

  /** drawScene pushes one payload, the one its draw type selects, before the sky sphere
      and again before the terrain, draws the sky sphere first, and begins no pass. */
  lemma SceneDrawsSkyThenTerrain(drawType: SceneDrawType)
    ensures Draws(SceneCommands(drawType)) == [DrawMesh(SkysphereMesh), DrawMesh(HeightMapMesh)]
    ensures Pushes(SceneCommands(drawType)) == [ScenePushConstants(drawType), ScenePushConstants(drawType)]
    ensures Passes(SceneCommands(drawType)) == []
  {
    var pc := ScenePushConstants(drawType);
    MeshDrawFilters(SkyPipeline, SkysphereSet, pc, SkysphereMesh);
    MeshDrawFilters(TerrainPipeline, TerrainSet, pc, HeightMapMesh);
    FiltersAppend(MeshDraw(SkyPipeline, SkysphereSet, pc, SkysphereMesh), MeshDraw(TerrainPipeline, TerrainSet, pc, HeightMapMesh));
  }

  /** A mirror pass begins exactly one pass, into its own target, and draws the scene. */
  lemma MirrorPassFilters(target: Target, drawType: SceneDrawType)
    ensures Passes(MirrorPass(target, drawType)) == [target]
    ensures Draws(MirrorPass(target, drawType)) == [DrawMesh(SkysphereMesh), DrawMesh(HeightMapMesh)]
  {
    var e := Extent(OffscreenDim, OffscreenDim);
    var head := [BeginPass(target, e), SetViewport(e), SetScissor(e)];
    var scene := SceneCommands(drawType);
    Filters3(BeginPass(target, e), SetViewport(e), SetScissor(e));
    SceneDrawsSkyThenTerrain(drawType);
    FiltersSingle(EndPass);
    FiltersAppend(head, scene);
    FiltersAppend(head + scene, [EndPass]);
  }

  /** The two mirror passes record the same commands except for the push-constant payload,
      and their payloads differ only in the scale. */
  lemma MirrorPassesDifferOnlyInScale()
    ensures |MirrorPass(RefractionTarget, Refract)| == |MirrorPass(ReflectionTarget, Reflect)|
    ensures forall k :: 1 <= k < |MirrorPass(RefractionTarget, Refract)| ==>
              var a, b := MirrorPass(RefractionTarget, Refract)[k], MirrorPass(ReflectionTarget, Reflect)[k];
              a == b || (a.Push? && b.Push? && b.payload == a.payload.(scale := MirrorScale))
  {
  }

  /** Slicing inside the left operand of a concatenation. */
  lemma SliceLeft(a: seq<Cmd>, b: seq<Cmd>, i: nat, j: nat)
    requires i <= j <= |a|
    ensures (a + b)[i..j] == a[i..j]
  {
  }

  /** Slicing inside the right operand of a concatenation. */
  lemma SliceRight(a: seq<Cmd>, b: seq<Cmd>, i: nat, j: nat)
    requires |a| <= i <= j <= |a| + |b|
    ensures (a + b)[i..j] == b[i - |a| .. j - |a|]
  {
  }

  /** Cascade pass j sits at offset 6j of the cascade passes, so they come in cascade order. */
  lemma {:induction false} ShadowPassesLayout(frameBuffers: seq<FramebufferHandle>, n: nat)
    requires n <= |frameBuffers|
    ensures |ShadowPasses(frameBuffers, n)| == 6 * n
    ensures forall j :: 0 <= j < n ==> ShadowPasses(frameBuffers, n)[6 * j .. 6 * j + 6] == ShadowPass(frameBuffers[j], j)
  {
    if n > 0 {
      ShadowPassesLayout(frameBuffers, n - 1);
      var prev := ShadowPasses(frameBuffers, n - 1);
      var last := ShadowPass(frameBuffers[n - 1], n - 1);
      forall j | 0 <= j < n ensures (prev + last)[6 * j .. 6 * j + 6] == ShadowPass(frameBuffers[j], j) {
        if j < n - 1 {
          SliceLeft(prev, last, 6 * j, 6 * j + 6);
        } else {
          SliceRight(prev, last, 6 * j, 6 * j + 6);
        }
      }
    }
  }

  /** What cascade pass j records: it begins the cascade's framebuffer at the shadow-map
      size, pushes cascade index j and draws the terrain once. */
  lemma ShadowPassContents(frameBuffer: FramebufferHandle, j: nat)
    ensures Passes(ShadowPass(frameBuffer, j)) == [CascadeTarget(frameBuffer)]
    ensures Pushes(ShadowPass(frameBuffer, j)) == [CascadePush(Zero4, j)]
    ensures Draws(ShadowPass(frameBuffer, j)) == [DrawMesh(HeightMapMesh)]
    ensures ShadowPass(frameBuffer, j)[0] == BeginPass(CascadeTarget(frameBuffer), Extent(ShadowMapDim, ShadowMapDim))
  {
    var begin := BeginPass(CascadeTarget(frameBuffer), Extent(ShadowMapDim, ShadowMapDim));
    var casters := ShadowCasterCommands(j);
    FiltersSingle(begin);
    MeshDrawFilters(DepthPassPipeline, DepthPassSet, CascadePush(Zero4, j), HeightMapMesh);
    FiltersSingle(EndPass);
    FiltersAppend([begin], casters);
    FiltersAppend([begin] + casters, [EndPass]);
  }

  /** The cascade passes begin, in order, the framebuffers of the cascades. */
  lemma {:induction false} ShadowPassTargets(frameBuffers: seq<FramebufferHandle>, n: nat)
    requires n <= |frameBuffers|
    ensures |Passes(ShadowPasses(frameBuffers, n))| == n
    ensures forall j :: 0 <= j < n ==> Passes(ShadowPasses(frameBuffers, n))[j] == CascadeTarget(frameBuffers[j])
  {
    if n > 0 {
      ShadowPassTargets(frameBuffers, n - 1);
      ShadowPassContents(frameBuffers[n - 1], n - 1);
      PassesAppend(ShadowPasses(frameBuffers, n - 1), ShadowPass(frameBuffers[n - 1], n - 1));
      assert Passes(ShadowPasses(frameBuffers, n))
          == Passes(ShadowPasses(frameBuffers, n - 1)) + [CascadeTarget(frameBuffers[n - 1])];
    }
  }

  /** drawCSM begins the cascades' framebuffers, in cascade order. */
  lemma CsmPassTargets(frameBuffers: seq<FramebufferHandle>)
    requires |frameBuffers| == CascadeSplits.CascadeCount
    ensures Passes(CsmCommands(frameBuffers))
         == seq(|frameBuffers|, j requires 0 <= j < |frameBuffers| => CascadeTarget(frameBuffers[j]))
  {
    var e := Extent(ShadowMapDim, ShadowMapDim);
    ShadowPassTargets(frameBuffers, |frameBuffers|);
    Filters2(SetViewport(e), SetScissor(e));
    PassesAppend(ShadowViewport(), ShadowPasses(frameBuffers, |frameBuffers|));
  }

  function Count(b: bool): nat {
    if b then 1 else 0
  }

  /** The overlays begin no pass, draw one six-vertex quad per enabled flag, and push, in
      order, 0 for the reflection quad, 1 for the refraction quad and the cascade index (as
      uint32) for the cascade quad. */
  lemma OverlayFilters(d: DebugState)
    ensures Passes(Overlays(d)) == []
    ensures Draws(Overlays(d))
         == (if d.displayReflection then [Draw(6)] else [])
            + (if d.displayRefraction then [Draw(6)] else [])
            + (if d.cascadeDebugEnabled then [Draw(6)] else [])
    ensures |Draws(Overlays(d))| == Count(d.displayReflection) + Count(d.displayRefraction) + Count(d.cascadeDebugEnabled)
    ensures Pushes(Overlays(d))
         == (if d.displayReflection then [DebugQuadPush(0)] else [])
            + (if d.displayRefraction then [DebugQuadPush(1)] else [])
            + (if d.cascadeDebugEnabled then [CascadePush(Zero4, ToUint32(d.cascadeDebugIndex))] else [])
  {
    var a := if d.displayReflection then DebugQuad(0) else [];
    var b := if d.displayRefraction then DebugQuad(1) else [];
    var c := if d.cascadeDebugEnabled then CascadeQuad(d.cascadeDebugIndex) else [];
    QuadDrawFilters(DebugQuadSet, DebugPipeline, DebugQuadPush(0));
    QuadDrawFilters(DebugQuadSet, DebugPipeline, DebugQuadPush(1));
    QuadDrawFilters(CascadeDebugSet, CascadeDebugPipeline, CascadePush(Zero4, ToUint32(d.cascadeDebugIndex)));
    FiltersAppend(a, b);
    FiltersAppend(a + b, c);
  }

  /** The final pass begins one pass, into the swap-chain image. */
  lemma FinalPassTarget(d: DebugState, image: nat, window: Extent)
    ensures Passes(FinalPass(d, image, window)) == [SwapchainTarget(image)]
  {
    var head := [BeginPass(SwapchainTarget(image), window), SetViewport(window), SetScissor(window)];
    var scene := SceneCommands(Display);
    var water := WaterPlaneCommands();
    var o := Overlays(d);
    var tail := [DrawUI, EndPass];
    assert Passes(head) == [SwapchainTarget(image)] by {
      Filters3(BeginPass(SwapchainTarget(image), window), SetViewport(window), SetScissor(window));
    }
    assert Passes(water) == [] by {
      Filters3(BindSet(WaterplaneSet), BindPipeline(MirrorPipeline), DrawMesh(PlaneMesh));
    }
    assert Passes(tail) == [] by {
      Filters2(DrawUI, EndPass);
    }
    SceneDrawsSkyThenTerrain(Display);
    OverlayFilters(d);
    PassesAppend(head, scene);
    PassesAppend(head + scene, water);
    PassesAppend(head + scene + water, o);
    PassesAppend(head + scene + water + o, tail);
  }

  /** The final pass draws the sky sphere, the terrain, the water plane, one six-vertex quad
      per enabled overlay, then the UI. */
  lemma FinalPassDraws(d: DebugState, image: nat, window: Extent)
    ensures Draws(FinalPass(d, image, window))
         == [DrawMesh(SkysphereMesh), DrawMesh(HeightMapMesh), DrawMesh(PlaneMesh)] + Draws(Overlays(d)) + [DrawUI]
  {
    var head := [BeginPass(SwapchainTarget(image), window), SetViewport(window), SetScissor(window)];
    var scene := SceneCommands(Display);
    var water := WaterPlaneCommands();
    var o := Overlays(d);
    var tail := [DrawUI, EndPass];
    assert Draws(head) == [] by {
      Filters3(BeginPass(SwapchainTarget(image), window), SetViewport(window), SetScissor(window));
    }
    assert Draws(water) == [DrawMesh(PlaneMesh)] by {
      Filters3(BindSet(WaterplaneSet), BindPipeline(MirrorPipeline), DrawMesh(PlaneMesh));
    }
    assert Draws(tail) == [DrawUI] by {
      Filters2(DrawUI, EndPass);
    }
    assert Draws(head + scene) == [DrawMesh(SkysphereMesh), DrawMesh(HeightMapMesh)] by {
      SceneDrawsSkyThenTerrain(Display);
      DrawsAppend(head, scene);
    }
    assert Draws(head + scene + water) == [DrawMesh(SkysphereMesh), DrawMesh(HeightMapMesh), DrawMesh(PlaneMesh)] by {
      DrawsAppend(head + scene, water);
    }
    DrawsAppend(head + scene + water, o);
    DrawsAppend(head + scene + water + o, tail);
  }

  /** The passes of a frame: the cascade passes in cascade order, then refraction, then
      reflection, then the final pass into the swap-chain image. */
  lemma FramePassOrder(d: DebugState, frameBuffers: seq<FramebufferHandle>, image: nat, window: Extent)
    requires |frameBuffers| == CascadeSplits.CascadeCount
    ensures Passes(FrameCommands(d, frameBuffers, image, window))
         == seq(|frameBuffers|, j requires 0 <= j < |frameBuffers| => CascadeTarget(frameBuffers[j]))
            + [RefractionTarget, ReflectionTarget, SwapchainTarget(image)]
  {
    var csm := CsmCommands(frameBuffers);
    var refraction := MirrorPass(RefractionTarget, Refract);
    var reflection := MirrorPass(ReflectionTarget, Reflect);
    var fin := FinalPass(d, image, window);
    var cascades := seq(|frameBuffers|, j requires 0 <= j < |frameBuffers| => CascadeTarget(frameBuffers[j]));
    var f0 := [BeginRecording] + csm;
    var f1 := f0 + refraction;
    var f2 := f1 + reflection;
    var f3 := f2 + fin;
    assert Passes(f0) == cascades by {
      FiltersSingle(BeginRecording);
      CsmPassTargets(frameBuffers);
      PassesAppend([BeginRecording], csm);
    }
    assert Passes(f1) == cascades + [RefractionTarget] by {
      MirrorPassFilters(RefractionTarget, Refract);
      PassesAppend(f0, refraction);
    }
    assert Passes(f2) == cascades + [RefractionTarget] + [ReflectionTarget] by {
      MirrorPassFilters(ReflectionTarget, Reflect);
      PassesAppend(f1, reflection);
    }
    assert Passes(f3) == cascades + [RefractionTarget] + [ReflectionTarget] + [SwapchainTarget(image)] by {
      FinalPassTarget(d, image, window);
      PassesAppend(f2, fin);
    }
    FiltersSingle(EndRecording);
    PassesAppend(f3, [EndRecording]);
  }

  /** Depth pass j of a frame: the shadow-map viewport and scissor are set once, right
      after the buffer begins; pass j then sits at commands 3 + 6j .. 9 + 6j. */
  lemma FrameCascadePass(d: DebugState, frameBuffers: seq<FramebufferHandle>, image: nat, window: Extent, j: nat)
    requires |frameBuffers| == CascadeSplits.CascadeCount
    requires j < CascadeSplits.CascadeCount
    ensures |FrameCommands(d, frameBuffers, image, window)| >= 3 + 6 * CascadeSplits.CascadeCount
    ensures var f := FrameCommands(d, frameBuffers, image, window);
            && f[1] == SetViewport(Extent(ShadowMapDim, ShadowMapDim))
            && f[2] == SetScissor(Extent(ShadowMapDim, ShadowMapDim))
            && f[3 + 6 * j .. 9 + 6 * j] == ShadowPass(frameBuffers[j], j)
  {
    var n := |frameBuffers|;
    ShadowPassesLayout(frameBuffers, n);
    var passes := ShadowPasses(frameBuffers, n);
    var start := [BeginRecording] + CsmCommands(frameBuffers);
    var f1 := start + MirrorPass(RefractionTarget, Refract);
    var f2 := f1 + MirrorPass(ReflectionTarget, Reflect);
    var f3 := f2 + FinalPass(d, image, window);
    var lo, hi := 3 + 6 * j, 9 + 6 * j;
    SliceLeft(f3, [EndRecording], lo, hi);
    SliceLeft(f2, FinalPass(d, image, window), lo, hi);
    SliceLeft(f1, MirrorPass(ReflectionTarget, Reflect), lo, hi);
    SliceLeft(start, MirrorPass(RefractionTarget, Refract), lo, hi);
    SliceRight([BeginRecording], CsmCommands(frameBuffers), lo, hi);
    SliceRight(ShadowViewport(), passes, lo - 1, hi - 1);
  }

  /** Everything recorded before the overlays; it does not depend on the debug state. */
  function FramePrefix(frameBuffers: seq<FramebufferHandle>, image: nat, window: Extent): seq<Cmd>
    requires |frameBuffers| == CascadeSplits.CascadeCount
  {
    [BeginRecording]
    + CsmCommands(frameBuffers)
    + MirrorPass(RefractionTarget, Refract)
    + MirrorPass(ReflectionTarget, Reflect)
    + [BeginPass(SwapchainTarget(image), window), SetViewport(window), SetScissor(window)]
    + SceneCommands(Display) + WaterPlaneCommands()
  }

  /** Regrouping used to expose the overlays inside a frame. */
  lemma Regroup(x: seq<Cmd>, h: seq<Cmd>, o: seq<Cmd>, t: seq<Cmd>, e: seq<Cmd>)
    ensures x + (h + o + t) + e == (x + h) + o + (t + e)
  {
  }

  /** A frame is the debug-independent prefix of 65 commands, the overlays, then the UI
      and the closing commands. */
  lemma FrameShape(d: DebugState, frameBuffers: seq<FramebufferHandle>, image: nat, window: Extent)
    requires |frameBuffers| == CascadeSplits.CascadeCount
    ensures FrameCommands(d, frameBuffers, image, window)
         == FramePrefix(frameBuffers, image, window) + Overlays(d) + [DrawUI, EndPass, EndRecording]
    ensures |FramePrefix(frameBuffers, image, window)| == 65
  {
    ShadowPassesLayout(frameBuffers, |frameBuffers|);
    var x := [BeginRecording] + CsmCommands(frameBuffers) + MirrorPass(RefractionTarget, Refract)
             + MirrorPass(ReflectionTarget, Reflect);
    var h := [BeginPass(SwapchainTarget(image), window), SetViewport(window), SetScissor(window)]
             + SceneCommands(Display) + WaterPlaneCommands();
    Regroup(x, h, Overlays(d), [DrawUI, EndPass], [EndRecording]);
    assert [DrawUI, EndPass] + [EndRecording] == [DrawUI, EndPass, EndRecording];
    assert x + h == FramePrefix(frameBuffers, image, window);
  }

  /** Putting `q` in at |p|: the cut of (p + r) + t at |p| around q is (p + (q + r)) + t. */
  lemma InsertAt(p: seq<Cmd>, q: seq<Cmd>, r: seq<Cmd>, t: seq<Cmd>)
    ensures |p| <= |(p + r) + t|
    ensures ((p + r) + t)[..|p|] + q + ((p + r) + t)[|p|..] == (p + (q + r)) + t
  {
    assert ((p + r) + t)[..|p|] == p;
    assert ((p + r) + t)[|p|..] == r + t;
  }

  /** Switching the reflection overlay on inserts exactly its quad at command 65. */
  lemma ReflectionToggle(d: DebugState, frameBuffers: seq<FramebufferHandle>, image: nat, window: Extent)
    requires |frameBuffers| == CascadeSplits.CascadeCount
    ensures 65 <= |FrameCommands(d.(displayReflection := false), frameBuffers, image, window)|
    ensures var off := FrameCommands(d.(displayReflection := false), frameBuffers, image, window);
            FrameCommands(d.(displayReflection := true), frameBuffers, image, window)
            == off[..65] + DebugQuad(0) + off[65..]
  {
    var on, off := d.(displayReflection := true), d.(displayReflection := false);
    var p := FramePrefix(frameBuffers, image, window);
    FrameShape(on, frameBuffers, image, window);
    FrameShape(off, frameBuffers, image, window);
    var rest := Overlays(off);
    assert Overlays(on) == DebugQuad(0) + rest;
    InsertAt(p, DebugQuad(0), rest, [DrawUI, EndPass, EndRecording]);
  }

  /** Switching the refraction overlay on inserts exactly its quad, after the reflection
      quad when that one is shown. */
  lemma RefractionToggle(d: DebugState, frameBuffers: seq<FramebufferHandle>, image: nat, window: Extent)
    requires |frameBuffers| == CascadeSplits.CascadeCount
    ensures 65 + 4 * Count(d.displayReflection) <= |FrameCommands(d.(displayRefraction := false), frameBuffers, image, window)|
    ensures var off := FrameCommands(d.(displayRefraction := false), frameBuffers, image, window);
            var k := 65 + 4 * Count(d.displayReflection);
            FrameCommands(d.(displayRefraction := true), frameBuffers, image, window)
            == off[..k] + DebugQuad(1) + off[k..]
  {
    var on, off := d.(displayRefraction := true), d.(displayRefraction := false);
    var a := if d.displayReflection then DebugQuad(0) else [];
    var c := if d.cascadeDebugEnabled then CascadeQuad(d.cascadeDebugIndex) else [];
    var p := FramePrefix(frameBuffers, image, window);
    var t := [DrawUI, EndPass, EndRecording];
    FrameShape(on, frameBuffers, image, window);
    FrameShape(off, frameBuffers, image, window);
    assert Overlays(on) == a + (DebugQuad(1) + c);
    assert Overlays(off) == a + c;
    Shift(p, a, DebugQuad(1) + c, t);
    Shift(p, a, c, t);
    InsertAt(p + a, DebugQuad(1), c, t);
  }

  /** Moving the first overlay into the prefix. */
  lemma Shift(p: seq<Cmd>, a: seq<Cmd>, m: seq<Cmd>, t: seq<Cmd>)
    ensures p + (a + m) + t == (p + a) + m + t
  {
  }

  /** Switching the cascade overlay on inserts exactly its quad, after the other quads. */
  lemma CascadeToggle(d: DebugState, frameBuffers: seq<FramebufferHandle>, image: nat, window: Extent)
    requires |frameBuffers| == CascadeSplits.CascadeCount
    ensures 65 + 4 * Count(d.displayReflection) + 4 * Count(d.displayRefraction)
         <= |FrameCommands(d.(cascadeDebugEnabled := false), frameBuffers, image, window)|
    ensures var off := FrameCommands(d.(cascadeDebugEnabled := false), frameBuffers, image, window);
            var k := 65 + 4 * Count(d.displayReflection) + 4 * Count(d.displayRefraction);
            FrameCommands(d.(cascadeDebugEnabled := true), frameBuffers, image, window)
            == off[..k] + CascadeQuad(d.cascadeDebugIndex) + off[k..]
  {
    var on, off := d.(cascadeDebugEnabled := true), d.(cascadeDebugEnabled := false);
    var a := if d.displayReflection then DebugQuad(0) else [];
    var b := if d.displayRefraction then DebugQuad(1) else [];
    var p := FramePrefix(frameBuffers, image, window);
    var t := [DrawUI, EndPass, EndRecording];
    FrameShape(on, frameBuffers, image, window);
    FrameShape(off, frameBuffers, image, window);
    assert Overlays(off) == a + b;
    assert p + Overlays(on) + t == (p + (a + b)) + (CascadeQuad(d.cascadeDebugIndex) + []) + t;
    assert p + Overlays(off) + t == (p + (a + b)) + [] + t;
    InsertAt(p + (a + b), CascadeQuad(d.cascadeDebugIndex), [], t);
  }

  /** With the cascade overlay off, the cascade index does not reach the recording. */
  lemma CascadeIndexIgnoredWhenDisabled(d: DebugState, index: int, frameBuffers: seq<FramebufferHandle>, image: nat, window: Extent)
    requires |frameBuffers| == CascadeSplits.CascadeCount
    requires !d.cascadeDebugEnabled
    ensures FrameCommands(d.(cascadeDebugIndex := index), frameBuffers, image, window)
         == FrameCommands(d, frameBuffers, image, window)
  {
    assert Overlays(d.(cascadeDebugIndex := index)) == Overlays(d);
  }
}
