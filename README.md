# Vulkan Playground: cascaded shadow maps and frame recording, in Dafny

This project models the frame logic of the Vulkan Playground example (`src/main.cpp`).
The example renders a terrain with a sky sphere, a reflective water plane, and
cascaded shadow maps (CSM) over four cascades. The model covers:

- **Cascade fitting** (`updateCascades`). The camera's view range is split into four
  slices. The split fractions blend a logarithmic and a uniform split by `cascadeSplitLambda`.
  Each slice's eight world-space corners are enclosed by a sphere whose radius is rounded up
  to a multiple of 1/16. An orthographic light matrix is fitted around that sphere.
- **Command recording** (`buildCommandBuffers`, `drawCSM`, `drawShadowCasters`,
  `drawScene`). Every command buffer holds, in order:
  - the viewport and scissor for the shadow map, set once;
  - one depth pass per cascade;
  - the refraction pass and the reflection pass, offscreen;
  - the final pass: scene, water plane, the enabled debug quads, then the UI.
- **Push constants per draw type** (`drawScene`). Refraction and reflection clip at the water
  plane and turn shadows off. Reflection also mirrors the scene in y. One payload is pushed
  for the sky and again for the terrain.
- **Uniform copy** (`updateUniformBufferCSM`). The cascades' matrices and split depths go
  into the depth pass's block and the CSM block, with the inverse view and the light direction.
- **When things are redone** (`prepare`, `render`, `viewChanged`, `OnUpdateUIOverlay`).
  `prepare` settles the light and copies the cascades into the uniforms before it records
  the command buffers. A frame refits the cascades and refreshes the uniforms only while
  the example is not paused or after the camera moved, and never re-records. `viewChanged`
  refreshes the uniforms without refitting. The debug checkboxes and the cascade slider
  re-record. The lambda slider refits without re-recording.

Files, one module each:

| file | module | contents |
|---|---|---|
| `geometry.dfy` | `Geometry` | vectors, symbolic 4x4 matrices, the math library as a value (`Glm`), `Ceil` |
| `splits.dfy` | `CascadeSplits` | split fractions, split depths and their properties |
| `frustum.dfy` | `FrustumFit` | slice corners, bounding sphere, light matrix; the in-place corner loops |
| `commands.dfy` | `Commands` | the command alphabet, the recorded frame as functions, the `CommandBuffer` class |
| `trace.dfy` | `Trace` | a recorder state machine; every recorded frame is well formed |
| `frame.dfy` | `FrameLayout` | pass order, draws and pushes of the recorded frame; what toggling a debug flag changes |
| `renderer.dfy` | `Renderer` | the `VulkanExample` class: its state and the methods that update it |

Floating point is modelled as exact `real` arithmetic. `std::pow`, the perspective
unprojection `invCam * v / w`, `glm::length` and `glm::normalize` are opaque functions,
carried in a `Glm` value. Proofs about splits assume only these laws of `pow`:

- `pow(r, 0) = 1`;
- `pow(r, 1) = r`;
- `pow(r, p)` grows strictly with `p` when `r > 1`.

Matrices are the terms that build them (`LookAt`, `Ortho`, `Product`, `Inverse`, `Scaled`).
So the model states exactly which matrix is stored, without evaluating it.

## Model

| member | source | states |
|---|---|---|
| CascadeSplits.SplitFraction | src/main.cpp:669-673 | defines split i as the lambda blend of the log and uniform split distances at p = (i+1)/4, normalised to the clip range; the lemmas below state its properties |
| CascadeSplits.SliceStart | src/main.cpp:677-730 | defines the running `lastSplitDist`: 0 for the first cascade, the previous split otherwise |
| CascadeSplits.SplitDepth | src/main.cpp:727 | the stored depth -(near + split * range) is -near at split 0 and -far at split 1 |
| CascadeSplits.SplitDepthWithinClipRange | src/main.cpp:727 | a split in [0, 1] stores a depth between -far and -near |
| CascadeSplits.Splits | src/main.cpp:668-674 | there is one split fraction per cascade, and entry i is the lambda blend of the log and uniform split at p = (i+1)/4, normalised to the clip range |
| CascadeSplits.SplitIsBlendOfFractions | src/main.cpp:669-673 | the normalised blend is the same blend of the normalised log and uniform splits |
| CascadeSplits.UniformFractionIsPosition | src/main.cpp:671-673 | the normalised uniform split at p is p itself |
| CascadeSplits.LastSplitIsFarPlane | src/main.cpp:668-674 | for any lambda, the last split fraction is exactly 1, and its split depth is -zFar |
| CascadeSplits.SplitDistancesIncrease | src/main.cpp:670-671 | both the log and the uniform split distance grow strictly with p |
| CascadeSplits.SplitsStrictlyIncrease | src/main.cpp:668-674 | for 0 <= lambda <= 1, the split fractions strictly increase with the cascade index |
| CascadeSplits.SplitInUnitInterval | src/main.cpp:668-674 | for 0 <= lambda <= 1, every split fraction lies in (0, 1] |
| CascadeSplits.UniformWhenLambdaIsZero | src/main.cpp:672 | with lambda = 0, split i is exactly (i+1)/4 |
| CascadeSplits.LogarithmicWhenLambdaIsOne | src/main.cpp:670-673 | with lambda = 1, split i is the normalised near * (far/near)^p |
| CascadeSplits.LambdaInterpolatesMonotonically | src/main.cpp:672 | a larger lambda never moves a split further from the logarithmic split |
| CascadeSplits.CloserToLogarithmic | src/main.cpp:672 | with lambda above 1/2, each split is closer to the log split than to the uniform one, strictly when the two differ |
| CascadeSplits.SplitDepthsDecrease | src/main.cpp:727 | stored split depths, -(near + split * range), strictly decrease with the cascade index |
| CascadeSplits.SplitDepthDecreasing | src/main.cpp:727 | a larger split fraction gives a strictly smaller (more negative) split depth |
| Geometry.Ceil | src/main.cpp:717 | `std::ceil`: the least integer not below x |
| Geometry.Lerp | src/main.cpp:699-703 | moving from a towards b by t gives a at t = 0 and b at t = 1 |
| FrustumFit.WorldCorners | src/main.cpp:681-697 | eight corners, corner k being the unprojected NDC corner k |
| FrustumFit.SliceCorners | src/main.cpp:699-703 | near corners k < 4 sit at `lastSplitDist` along edge k; far corners at `splitDist` |
| FrustumFit.MaxDistance | src/main.cpp:712-716 | the radius bounds every corner's distance, is not negative, and is 0 or one of those distances |
| FrustumFit.SumCorners | src/main.cpp:705-709 | defines the running sum of the corners, accumulated in order |
| FrustumFit.Centroid | src/main.cpp:705-710 | defines the centre as the corner sum divided by 8 |
| FrustumFit.BoundingSphere | src/main.cpp:705-717 | defines the sphere: the centroid, and the rounded largest corner distance from it |
| FrustumFit.CutEdge | src/main.cpp:699-703 | one edge cut in place: the far corner moves to `splitDist` along the edge, the near corner to `lastSplitDist`, and no other corner changes |
| FrustumFit.LightViewProj | src/main.cpp:719-728 | defines the light matrix: Ortho over [-r, r] x [-r, r] x [0, 2r] times a LookAt from r back along the light direction to the centre |
| FrustumFit.LightDirection | src/main.cpp:722 | defines the light direction as the xyz part of normalize(-lightPos); the CSM block stores the same value |
| FrustumFit.CascadeMatrix | src/main.cpp:681-728 | defines the matrix stored for a slice: the light matrix around the bounding sphere of the slice's world corners |
| FrustumFit.RoundRadius | src/main.cpp:717 | the rounded radius is at least the raw one, less than raw + 1/16, and a multiple of 1/16 |
| FrustumFit.SphereEnclosesSlice | src/main.cpp:705-717 | the fitted sphere holds all eight corners, and its radius is less than 1/16 above the largest corner distance |
| FrustumFit.LightBoxSpansSphere | src/main.cpp:719-728 | the light box is Ortho(-r, r, -r, r, 0, 2r) times a LookAt from center - dir * r towards the center, with up (0, 1, 0) |
| FrustumFit.SlicesAreContiguous | src/main.cpp:699-730 | a slice's near corners are the previous slice's far corners when its start is the previous split |
| FrustumFit.FullSliceIsFrustum | src/main.cpp:699-703 | the slice [0, 1] is the whole unprojected NDC cube, near face z = -1 as the code has it |
| FrustumFit.ProjectCorners | src/main.cpp:693-697 | the in-place loop leaves the corners array holding the world-space corners |
| FrustumFit.CutToSlice | src/main.cpp:699-703 | the in-place loop leaves the array holding the slice corners of its old contents |
| FrustumFit.FitCascade | src/main.cpp:681-728 | one cascade's matrix is the light matrix around the bounding sphere of its slice |
| Commands.ToUint32 | src/main.cpp:878 | the cascade index pushed as uint32 wraps modulo 2^32 and is unchanged when in range |
| Commands.ScenePushConstants | src/main.cpp:467-486 | reflection scales y by -1; refraction and reflection clip at the water plane; shadows are on exactly for the display pass |
| Commands.MeshDraw | src/main.cpp:488-498 | defines one mesh draw as drawScene and drawShadowCasters record it: bind the pipeline, bind the set, push, draw the mesh |
| Commands.SceneCommands | src/main.cpp:488-498 | defines what drawScene records: bind and push for the sky, draw the sky, then the same for the terrain |
| Commands.ShadowCasterCommands | src/main.cpp:502-506 | defines what drawShadowCasters records: bind the depth pipeline and set, push (0, cascade index), draw the terrain |
| Commands.ShadowPass | src/main.cpp:761-766 | defines one cascade's depth pass: begin its framebuffer at 4096x4096, the shadow casters, end |
| Commands.ShadowPasses | src/main.cpp:761-766 | defines the first n cascade passes, in cascade order |
| Commands.ShadowViewport | src/main.cpp:753-757 | defines the viewport and scissor of the shadow-map size that drawCSM sets once |
| Commands.CsmCommands | src/main.cpp:753-766 | defines what drawCSM records: viewport and scissor once, then all cascade passes |
| Commands.MirrorPass | src/main.cpp:794-835 | defines an offscreen pass: begin the target at 1024x1024, its own viewport and scissor, the scene for its draw type, end |
| Commands.WaterPlaneCommands | src/main.cpp:857-859 | defines the water plane draw: bind the water-plane set and the mirror pipeline, draw the plane |
| Commands.QuadDraw | src/main.cpp:861-883 | defines one debug quad: bind the set, bind the pipeline, push, draw six vertices |
| Commands.DebugQuad | src/main.cpp:861-875 | defines the reflection or refraction quad, pushing the attachment index 0 or 1 |
| Commands.CascadeQuad | src/main.cpp:877-883 | defines the cascade quad, pushing the zero position and the cascade index cast to uint32 |
| Commands.Overlays | src/main.cpp:861-883 | defines the debug quads recorded for the enabled flags, in flag order |
| Commands.FinalPass | src/main.cpp:840-888 | defines the final pass: begin the swap-chain image, viewport and scissor at window size, scene, water plane, overlays, UI, end |
| Commands.FrameCommands | src/main.cpp:782-890 | defines a whole recorded frame: begin, drawCSM, the refraction and reflection passes, the final pass, end |
| Commands.CommandBuffer.constructor | src/main.cpp:782-784 | a new command buffer is empty |
| Commands.CommandBuffer.Begin | src/main.cpp:784 | beginning a command buffer resets it |
| Commands.CommandBuffer.Record | src/main.cpp:489-498 | recording appends exactly one command |
| Trace.RunAppend | src/main.cpp:782-890 | running a concatenated command stream runs its parts in turn |
| Trace.PassKeepsState | src/main.cpp:761-766 | a pass whose body only binds, pushes and draws returns the recorder to its state before the pass |
| Trace.ShadowPassesKeepState | src/main.cpp:761-766 | the cascade depth passes are well bracketed, and they run under the shadow-map viewport set before the loop |
| Trace.CsmKeepsState | src/main.cpp:734-767 | drawCSM, run while recording outside a pass, is well formed and leaves the shadow-map viewport set |
| Trace.SelfViewportPass | src/main.cpp:794-888 | a pass that sets its own viewport and scissor to its area is well formed |
| Trace.FinalPassShape | src/main.cpp:852-887 | the final pass body only binds, pushes and draws |
| Trace.FrameIsWellFormed | src/main.cpp:782-890 | every recorded frame is well formed: the recorder runs it from idle back to idle, passes never nested, every draw inside a pass, viewport and scissor equal to the pass area |
| FrameLayout.SceneDrawsSkyThenTerrain | src/main.cpp:488-498 | drawScene draws the sky sphere, then the terrain, pushing the same payload for each and opening no pass |
| FrameLayout.MirrorPassFilters | src/main.cpp:794-835 | each offscreen pass opens exactly its own target and draws sky, then terrain |
| FrameLayout.MirrorPassesDifferOnlyInScale | src/main.cpp:794-835 | the refraction and reflection passes agree command by command, except for the target and the mirror scale in the push |
| FrameLayout.ShadowPassesLayout | src/main.cpp:761-766 | the cascade loop records six commands per cascade, block j being cascade j's pass |
| FrameLayout.ShadowPassContents | src/main.cpp:761-766 | pass j targets cascade j's framebuffer at 4096x4096, pushes cascade index j and draws the terrain once |
| FrameLayout.ShadowPassTargets | src/main.cpp:761-766 | the cascade passes target the cascades' framebuffers in order |
| FrameLayout.CsmPassTargets | src/main.cpp:734-767 | drawCSM opens one pass per cascade, in cascade order |
| FrameLayout.OverlayFilters | src/main.cpp:861-883 | debug quads draw one quad per enabled flag, in flag order, pushing 0, 1 and the cascade index |
| FrameLayout.FinalPassTarget | src/main.cpp:844-852 | the final pass targets the swap-chain image of its command buffer |
| FrameLayout.FinalPassDraws | src/main.cpp:855-885 | the final pass draws sky, terrain, water plane, the debug quads, then the UI last |
| FrameLayout.FramePassOrder | src/main.cpp:782-890 | a frame's passes are the four cascades in order, then refraction, reflection, and the swap-chain image |
| FrameLayout.FrameCascadePass | src/main.cpp:753-766 | the frame starts with the 4096x4096 viewport and scissor, followed by cascade j's pass at offset 3 + 6j |
| FrameLayout.FrameShape | src/main.cpp:782-890 | a frame is a fixed 65-command prefix, the debug quads, then UI, end pass, end recording |
| FrameLayout.ReflectionToggle | src/main.cpp:861-867 | enabling the reflection view inserts exactly its quad at offset 65 and changes nothing else |
| FrameLayout.RefractionToggle | src/main.cpp:869-875 | enabling the refraction view inserts exactly its quad after the reflection quad, if any |
| FrameLayout.CascadeToggle | src/main.cpp:877-883 | enabling the cascade view inserts exactly its quad after the other quads |
| FrameLayout.CascadeIndexIgnoredWhenDisabled | src/main.cpp:877-883 | while the cascade view is off, the cascade index does not affect the recording |
| Renderer.InverseCamera | src/main.cpp:693 | defines invCam as the inverse of perspective times view |
| Renderer.FittedCascade | src/main.cpp:726-728 | a refitted cascade keeps its framebuffer |
| Renderer.Refitted | src/main.cpp:678-731 | refitting keeps the number of cascades |
| Renderer.VulkanExample.CascadeFramebuffers | src/main.cpp:762 | one framebuffer per cascade, in cascade order |
| Renderer.VulkanExample.constructor | src/main.cpp:216-250 | debug views off, lambda 0.95, clip planes 0.5 and 48, light at (-400, -300, -300, 0), empty command buffers, fresh cascade and uniform arrays |
| Renderer.VulkanExample.ComputeSplits | src/main.cpp:654-674 | the local split array holds exactly the split fractions |
| Renderer.VulkanExample.FitCascadeAt | src/main.cpp:679-728 | cascade i gets the depth of its split and the matrix fitted to its slice; no other cascade changes |
| Renderer.VulkanExample.UpdateCascades | src/main.cpp:652-732 | every cascade is refitted to its slice under the current camera, light and lambda, keeping its framebuffer |
| Renderer.VulkanExample.DrawScene | src/main.cpp:465-499 | appends the scene commands for the draw type: sky then terrain, each with the draw type's push constants |
| Renderer.VulkanExample.DrawShadowCasters | src/main.cpp:501-507 | appends the depth-pass bind, the push of (0, cascade index) and the terrain draw |
| Renderer.VulkanExample.DrawCSM | src/main.cpp:734-767 | appends the shadow viewport and scissor, then one depth pass per cascade into its framebuffer |
| Renderer.VulkanExample.RecordMirrorPass | src/main.cpp:794-835 | appends one offscreen pass at 1024x1024 with its own viewport and scissor and the scene |
| Renderer.VulkanExample.RecordDebugQuad | src/main.cpp:861-875 | appends the quad that shows attachment 0 (reflection) or 1 (refraction) |
| Renderer.VulkanExample.RecordCascadeQuad | src/main.cpp:877-883 | appends the quad that shows the selected cascade |
| Renderer.VulkanExample.RecordOverlays | src/main.cpp:861-883 | appends the quads of the enabled debug views |
| Renderer.VulkanExample.RecordFinalPass | src/main.cpp:840-888 | appends the final pass for the current debug flags and window |
| Renderer.VulkanExample.RecordFrame | src/main.cpp:783-889 | the command buffer is reset and then holds the whole frame for its image |
| Renderer.VulkanExample.BuildCommandBuffers | src/main.cpp:773-891 | every command buffer holds the frame for its image under the current flags and cascades |
| Renderer.VulkanExample.UpdateUniformBufferCSM | src/main.cpp:1292-1305 | both blocks hold every cascade's matrix, the CSM block every split depth, plus the inverse view and normalize(-lightPos); the cascades are unchanged |
| Renderer.VulkanExample.UpdateUniformBuffers | src/main.cpp:1244-1284 | the light settles at (20, -10, 20, 0), then the CSM blocks are refreshed |
| Renderer.VulkanExample.Render | src/main.cpp:1345-1356 | before prepare, or while paused with no camera change, nothing changes. Otherwise the cascades are refitted with the light as it was, and the uniforms copied. The command buffers are never touched |
| Renderer.VulkanExample.ViewChanged | src/main.cpp:1358-1362 | the light settles at (20, -10, 20, 0) and the CSM blocks take the cascades, which are not refitted |
| Renderer.VulkanExample.Prepare | src/main.cpp:1329-1343 | the light settles at (20, -10, 20, 0) and the uniforms hold the cascades as they are (not yet fitted); every command buffer is recorded and the example is marked prepared |
| Renderer.VulkanExample.SetSplitLambda | src/main.cpp:1382-1385 | the lambda slider refits the cascades and the uniforms, and a valid recording stays valid |
| Renderer.VulkanExample.ToggleReflection | src/main.cpp:1367-1369 | the reflection checkbox flips its flag and leaves the command buffers recorded |
| Renderer.VulkanExample.ToggleRefraction | src/main.cpp:1370-1372 | the refraction checkbox flips its flag and leaves the command buffers recorded |
| Renderer.VulkanExample.ToggleCascadeDebug | src/main.cpp:1373-1375 | the cascades checkbox flips its flag and leaves the command buffers recorded |
| Renderer.VulkanExample.SelectCascade | src/main.cpp:1376-1380 | the cascade slider sets the index and leaves the command buffers recorded |
| Renderer.VulkanExample.DebugWidgets | src/main.cpp:1366-1381 | each clicked checkbox flips its flag; the slider moves the index only while the cascade view is on. Any change of the debug state leaves the buffers re-recorded, a valid recording stays valid, and when nothing is clicked and no slider value arrives the buffers are untouched |
| Renderer.VulkanExample.DebuggingSection | src/main.cpp:1367-1386 | the open Debugging header: the debug state changes as its widgets say and is re-recorded, the buffers are untouched when no widget acts, and the lambda slider refits the cascades and uniforms without re-recording; without a lambda value the light, cascades and uniform blocks stay as they were |
| Renderer.VulkanExample.OnUpdateUIOverlay | src/main.cpp:1364-1386 | nothing changes while the Debugging header is closed: the object's fields, the cascades, the uniform blocks and the command buffers are all unchanged. Otherwise the debug state changes as its widgets say and is re-recorded, the buffers are untouched when no widget acts, and the lambda slider refits the cascades and uniforms without re-recording |

## Left out

- Vulkan object creation, memory, descriptor sets and layouts, pipelines, render passes and
  the framebuffers themselves are left out. They are handles in the model; a command records
  which handle it uses.
- Asset loading, terrain generation and `draw()` (queue submission and presentation) are
  left out: they create resources or talk to the device. Because `render` calls `draw()`
  before its first `updateCascades`, and `prepare` copies cascades that were never fitted,
  the first frame draws with cascades that were never fitted (default-initialised: the
  constructor never sets `splitDepth` or `viewProjMatrix`). The model states the copy (the
  `Prepare` contract) but not the draw.
- Clear values and the pipeline layouts named in bind and push calls are not recorded in
  the command alphabet.
- `updateUniformBuffers` is modelled only for the light position and the call to
  `updateUniformBufferCSM`. The terrain, water, sky, debug-quad and offscreen uniform
  blocks are left out: the cascade and recording logic does not read them.
- The "Terrain layers" section of `OnUpdateUIOverlay` is left out. Its sliders write the
  terrain uniform block's layer ranges and set `updateTerrain`. Neither the cascades nor
  the recording reads them.
- Floating-point rounding is not modelled (reals are exact). `std::pow`, the unprojection
  with its perspective divide, `glm::length` and `glm::normalize` are opaque functions.
- `memcpy` into mapped uniform memory is modelled as assignment to arrays in the class.
- The Android build's 2048 shadow-map size is not modelled; the desktop value 4096 is.
- The camera's initial pose, rotation and movement speed are left out; only its clip planes
  and matrices are read by the frame logic.
- The cascade slider's own clamping to 0..3 belongs to the UI library, which is not part
  of this model. Any integer may arrive, and the pushed index is that integer taken modulo 2^32.
- Matrices are free terms, so two different terms are distinct values even when the
  matrices they denote are equal (`Inverse(Inverse(Identity))` is not `Identity`). No
  contract of the model states that two matrices differ, so nothing proved rests on this.
- The NDC corners use z = -1 for the near face, as the code does, while
  `GLM_FORCE_DEPTH_ZERO_TO_ONE` is defined (src/main.cpp:16). The unprojection is opaque,
  so the model does not relate these corners to the camera's depth range. "The whole camera
  frustum" in `FullSliceIsFrustum` means the unprojected NDC cube with z from -1 to 1.
- Renderer.VulkanExample.ViewChanged: does not state the offscreen uniform update
  (`updateUniformBufferOffscreen`), which is left out with the other uniform blocks.
- Renderer.VulkanExample.Prepare: does not state the offscreen uniform update either.
- Renderer.VulkanExample.Render: does not state the offscreen uniform update
  (`updateUniformBufferOffscreen`), which is left out with the other uniform blocks.

Where the code's behaviour is not what its own comments and data suggest, the code is
followed:

- Every cascade's depth pass binds the same `depthPass.descriptorSet`. The comment at
  src/main.cpp:760 says the cascade's descriptor set selects the layer, and the `Cascade`
  struct has a per-cascade `descriptorSet` (src/main.cpp:204), but the loop never binds it.
  The cascade is selected only by the framebuffer and by the pushed cascade index.
- The fitted radius is not clamped away from zero. A degenerate slice gives radius 0.
- The shadow-map viewport and scissor are set once before the cascade loop, not inside
  each pass. The model proves that the passes still draw under a matching viewport.
