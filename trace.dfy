/**
 * Properties of the recorded command stream: a state machine that says when a trace is
 * well formed (recording bracketed by begin/end, passes never nested, every draw inside a
 * pass with the viewport and scissor of that pass), the order of the passes, and how the
 * debug overlays change the final pass.
 */
module Trace {
  import opened Commands
  import CascadeSplits


  /** What the recorder knows at a point of the trace: whether the buffer is recording, the
      area of the open pass, and the dynamic viewport and scissor last set. */
  datatype Recorder = Recorder(recording: bool, pass: Option<Extent>, viewport: Option<Extent>, scissor: Option<Extent>)

  const Idle: Recorder := Recorder(false, None, None, None)

  /** One command: None when the command is out of place. */
  function Step(st: Recorder, c: Cmd): Option<Recorder> {
    match c
    case BeginRecording =>
      if st.recording then None else Some(Recorder(true, None, None, None))
    case EndRecording =>
      if st.recording && st.pass.None? then Some(Idle) else None
    case BeginPass(_, area) =>
      if st.recording && st.pass.None? then Some(st.(pass := Some(area))) else None
    case EndPass =>
      if st.recording && st.pass.Some? then Some(st.(pass := None)) else None
    case SetViewport(e) =>
      if st.recording then Some(st.(viewport := Some(e))) else None
    case SetScissor(e) =>
      if st.recording then Some(st.(scissor := Some(e))) else None
    case BindPipeline(_) =>
      if st.recording then Some(st) else None
    case BindSet(_) =>
      if st.recording then Some(st) else None
    case Push(_) =>
      if st.recording then Some(st) else None
    case DrawMesh(_) =>
      if DrawAllowed(st) then Some(st) else None
    case Draw(_) =>
      if DrawAllowed(st) then Some(st) else None
    case DrawUI =>
      if st.recording && st.pass.Some? then Some(st) else None
  }

  /** A draw needs an open pass whose area the viewport and the scissor cover exactly. */
  predicate DrawAllowed(st: Recorder) {
    st.recording && st.pass.Some? && st.viewport == st.pass && st.scissor == st.pass
  }

  function Run(st: Recorder, t: seq<Cmd>): Option<Recorder>
    decreases |t|
  {
    if t == [] then Some(st)
    else match Step(st, t[0])
      case None => None
      case Some(next) => Run(next, t[1..])
  }

  /** A complete, well-formed command buffer. */
  predicate WellFormed(t: seq<Cmd>) {
    Run(Idle, t) == Some(Idle)
  }

  /** Running a concatenation is running its parts in turn. */
  lemma {:induction false} RunAppend(st: Recorder, a: seq<Cmd>, b: seq<Cmd>)
    ensures Run(st, a).None? ==> Run(st, a + b).None?
    ensures Run(st, a).Some? ==> Run(st, a + b) == Run(Run(st, a).value, b)
    decreases |a|
  {
    if a == [] {
      assert a + b == b;
    } else {
      assert (a + b)[0] == a[0];
      assert (a + b)[1..] == a[1..] + b;
      match Step(st, a[0])
      case None =>
      case Some(next) => RunAppend(next, a[1..], b);
    }
  }

  /** Commands that neither open nor close a pass nor change the dynamic state. */
  predicate IsBodyCmd(c: Cmd) {
    c.BindPipeline? || c.BindSet? || c.Push? || c.DrawMesh? || c.Draw? || c.DrawUI?
  }

  /** Inside a pass whose area the viewport and scissor match, body commands are all
      allowed and change nothing. */
  lemma {:induction false} PassBodyKeepsState(st: Recorder, t: seq<Cmd>)
    requires DrawAllowed(st)
    requires forall k :: 0 <= k < |t| ==> IsBodyCmd(t[k])
    ensures Run(st, t) == Some(st)
    decreases |t|
  {
    if t != [] {
      assert Step(st, t[0]) == Some(st);
      PassBodyKeepsState(st, t[1..]);
    }
  }

  /** The state after setting viewport and scissor to `e` while recording. */
  function WithViewport(st: Recorder, e: Extent): Recorder {
    st.(viewport := Some(e), scissor := Some(e))
  }

  /** Running a trace that starts with `c` is one step, then the rest. */
  lemma RunCons(st: Recorder, c: Cmd, t: seq<Cmd>)
    ensures Step(st, c).None? ==> Run(st, [c] + t).None?
    ensures Step(st, c).Some? ==> Run(st, [c] + t) == Run(Step(st, c).value, t)
  {
    assert ([c] + t)[0] == c;
    assert ([c] + t)[1..] == t;
  }

  /** A pass [BeginPass(area), body..., EndPass] run with viewport and scissor already at
      `area` leaves the recorder as it was. */
  lemma {:induction false} PassKeepsState(st: Recorder, target: Target, area: Extent, body: seq<Cmd>)
    requires st.recording && st.pass.None? && st.viewport == Some(area) && st.scissor == Some(area)
    requires forall k :: 0 <= k < |body| ==> IsBodyCmd(body[k])
    ensures Run(st, [BeginPass(target, area)] + body + [EndPass]) == Some(st)
  {
    var open := st.(pass := Some(area));
    assert [BeginPass(target, area)] + body + [EndPass] == [BeginPass(target, area)] + (body + [EndPass]);
    RunCons(st, BeginPass(target, area), body + [EndPass]);
    RunAppend(open, body, [EndPass]);
    PassBodyKeepsState(open, body);
    RunCons(open, EndPass, []);
  }

  lemma {:induction false} ShadowPassesKeepState(st: Recorder, frameBuffers: seq<FramebufferHandle>, n: nat)
    requires n <= |frameBuffers|
    requires st.recording && st.pass.None?
    requires st.viewport == Some(Extent(ShadowMapDim, ShadowMapDim)) && st.scissor == st.viewport
    ensures Run(st, ShadowPasses(frameBuffers, n)) == Some(st)
  {
    if n > 0 {
      ShadowPassesKeepState(st, frameBuffers, n - 1);
      RunAppend(st, ShadowPasses(frameBuffers, n - 1), ShadowPass(frameBuffers[n - 1], n - 1));
      PassKeepsState(st, CascadeTarget(frameBuffers[n - 1]), Extent(ShadowMapDim, ShadowMapDim),
                     ShadowCasterCommands(n - 1));
    }
  }

  /** drawCSM, run while recording outside a pass, leaves the shadow-map viewport set. */
  lemma CsmKeepsState(st: Recorder, frameBuffers: seq<FramebufferHandle>)
    requires |frameBuffers| == CascadeSplits.CascadeCount
    requires st.recording && st.pass.None?
    ensures Run(st, CsmCommands(frameBuffers)) == Some(WithViewport(st, Extent(ShadowMapDim, ShadowMapDim)))
  {
    var e := Extent(ShadowMapDim, ShadowMapDim);
    var s1 := WithViewport(st, e);
    RunCons(st, SetViewport(e), [SetScissor(e)]);
    RunCons(st.(viewport := Some(e)), SetScissor(e), []);
    assert Run(st, ShadowViewport()) == Some(s1);
    ShadowPassesKeepState(s1, frameBuffers, |frameBuffers|);
    RunAppend(st, ShadowViewport(), ShadowPasses(frameBuffers, |frameBuffers|));
  }

  /** A pass that first sets its own viewport and scissor to its area. */
  lemma {:induction false} SelfViewportPass(st: Recorder, target: Target, area: Extent, body: seq<Cmd>)
    requires st.recording && st.pass.None?
    requires forall k :: 0 <= k < |body| ==> IsBodyCmd(body[k])
    ensures Run(st, [BeginPass(target, area), SetViewport(area), SetScissor(area)] + body + [EndPass])
         == Some(WithViewport(st, area))
  {
    var s1 := st.(pass := Some(area));
    var s2 := s1.(viewport := Some(area));
    var s3 := s2.(scissor := Some(area));
    var rest := body + [EndPass];
    assert [BeginPass(target, area), SetViewport(area), SetScissor(area)] + body + [EndPass]
        == [BeginPass(target, area)] + ([SetViewport(area)] + ([SetScissor(area)] + rest));
    RunCons(st, BeginPass(target, area), [SetViewport(area)] + ([SetScissor(area)] + rest));
    RunCons(s1, SetViewport(area), [SetScissor(area)] + rest);
    RunCons(s2, SetScissor(area), rest);
    RunAppend(s3, body, [EndPass]);
    PassBodyKeepsState(s3, body);
    RunCons(s3, EndPass, []);
  }

  /** The body of the final pass: scene, water plane, overlays and UI. */
  function FinalPassBody(d: DebugState): seq<Cmd> {
    SceneCommands(Display) + WaterPlaneCommands() + Overlays(d) + [DrawUI]
  }

  lemma FinalPassShape(d: DebugState, image: nat, window: Extent)
    ensures FinalPass(d, image, window)
         == [BeginPass(SwapchainTarget(image), window), SetViewport(window), SetScissor(window)]
            + FinalPassBody(d) + [EndPass]
    ensures forall k :: 0 <= k < |FinalPassBody(d)| ==> IsBodyCmd(FinalPassBody(d)[k])
  {
    var b := FinalPassBody(d);
    forall k | 0 <= k < |b| ensures IsBodyCmd(b[k]) {
      var o := Overlays(d);
      assert b == SceneCommands(Display) + WaterPlaneCommands() + o + [DrawUI];
      assert forall m :: 0 <= m < |o| ==> IsBodyCmd(o[m]);
    }
  }

  /** Every command buffer buildCommandBuffers records is well formed. */
  lemma FrameIsWellFormed(d: DebugState, frameBuffers: seq<FramebufferHandle>, image: nat, window: Extent)
    requires |frameBuffers| == CascadeSplits.CascadeCount
    ensures WellFormed(FrameCommands(d, frameBuffers, image, window))
  {
    var s0 := Recorder(true, None, None, None);
    var mirror := Extent(OffscreenDim, OffscreenDim);
    var s1 := WithViewport(s0, Extent(ShadowMapDim, ShadowMapDim));
    var s2 := WithViewport(s0, mirror);
    var s3 := WithViewport(s0, window);

    var csm := CsmCommands(frameBuffers);
    var refraction := MirrorPass(RefractionTarget, Refract);
    var reflection := MirrorPass(ReflectionTarget, Reflect);
    var final := FinalPass(d, image, window);
    var rest := csm + refraction + reflection + final + [EndRecording];

    assert FrameCommands(d, frameBuffers, image, window) == [BeginRecording] + rest;
    RunCons(Idle, BeginRecording, rest);

    CsmKeepsState(s0, frameBuffers);
    SelfViewportPass(s1, RefractionTarget, mirror, SceneCommands(Refract));
    SelfViewportPass(s2, ReflectionTarget, mirror, SceneCommands(Reflect));
    FinalPassShape(d, image, window);
    SelfViewportPass(s2, SwapchainTarget(image), window, FinalPassBody(d));
    RunCons(s3, EndRecording, []);

    RunAppend(s0, csm, refraction);
    RunAppend(s0, csm + refraction, reflection);
    RunAppend(s0, csm + refraction + reflection, final);
    RunAppend(s0, csm + refraction + reflection + final, [EndRecording]);
  }
}
