/**
 * The frustum fitter: the body of updateCascades' per-cascade loop.  It carves the slice
 * [lastSplit, split] out of the camera frustum, bounds it by a sphere whose radius is
 * rounded up to a multiple of 1/16, and builds the light's view and orthographic
 * projection around that sphere.
 */
module FrustumFit {
  import opened Geometry

  /** The eight corners of the NDC cube, near face (z = -1) first, in the source's order. */
  const NdcCorners: seq<Vec3> := [
    Vec3(-1.0,  1.0, -1.0), Vec3(1.0,  1.0, -1.0), Vec3(1.0, -1.0, -1.0), Vec3(-1.0, -1.0, -1.0),
    Vec3(-1.0,  1.0,  1.0), Vec3(1.0,  1.0,  1.0), Vec3(1.0, -1.0,  1.0), Vec3(-1.0, -1.0,  1.0)]

  /** World-space "up", the lookAt up vector. */
  const Up: Vec3 := Vec3(0.0, 1.0, 0.0)

  /** The frustum's corners in world space: each NDC corner taken through the inverse
      view-projection matrix. */
  function WorldCorners(glm: Glm, invCam: Mat4): (c: seq<Vec3>)
    ensures |c| == 8
    ensures forall k :: 0 <= k < 8 ==> c[k] == glm.unproject(invCam, NdcCorners[k])
  {
    seq(8, k requires 0 <= k < 8 => glm.unproject(invCam, NdcCorners[k]))
  }

  /** The corners of the slice [last, split] of a frustum with the given corners: each of the
      four near/far edges is cut at the fractions `last` (new near corner) and `split` (new
      far corner). */
  function SliceCorners(world: seq<Vec3>, last: real, split: real): (c: seq<Vec3>)
    requires |world| == 8
    ensures |c| == 8
    ensures forall k :: 0 <= k < 4 ==> c[k] == Lerp(world[k], world[k + 4], last)
    ensures forall k :: 4 <= k < 8 ==> c[k] == Lerp(world[k - 4], world[k], split)
  {
    seq(8, k requires 0 <= k < 8 =>
      if k < 4 then Lerp(world[k], world[k + 4], last) else Lerp(world[k - 4], world[k], split))
  }

  /** The sum of the first n corners, accumulated in order. */
  function SumCorners(c: seq<Vec3>, n: nat): Vec3
    requires n <= |c|
  {
    if n == 0 then Vec3(0.0, 0.0, 0.0) else Add(SumCorners(c, n - 1), c[n - 1])
  }

  /** The centroid of the eight corners. */
  function Centroid(c: seq<Vec3>): Vec3
    requires |c| == 8
  {
    Div(SumCorners(c, |c|), 8.0)
  }

  /** The running maximum, starting from 0, of the distances from `center` to the first n
      corners. */
  function MaxDistance(length: Vec3 -> real, c: seq<Vec3>, center: Vec3, n: nat): (r: real)
    requires n <= |c|
    ensures 0.0 <= r
    ensures forall k :: 0 <= k < n ==> length(Sub(c[k], center)) <= r
    ensures r == 0.0 || exists k :: 0 <= k < n && r == length(Sub(c[k], center))
  {
    if n == 0 then 0.0
    else
      var radius := MaxDistance(length, c, center, n - 1);
      var distance := length(Sub(c[n - 1], center));
      if radius < distance then distance else radius
  }

  /** The radius rounded up to the next multiple of 1/16 (std::ceil(r * 16) / 16). */
  function RoundRadius(r: real): (rounded: real)
    ensures r <= rounded < r + 1.0 / 16.0
    ensures (rounded * 16.0).Floor as real == rounded * 16.0
  {
    Ceil(r * 16.0) as real / 16.0
  }

  /** The bounding sphere fitted to a slice. */
  datatype Sphere = Sphere(center: Vec3, radius: real)

  function BoundingSphere(glm: Glm, corners: seq<Vec3>): Sphere
    requires |corners| == 8
  {
    var center := Centroid(corners);
    Sphere(center, RoundRadius(MaxDistance(glm.length, corners, center, |corners|)))
  }

  /** The light's view-projection for a sphere: look at the center from `radius` back along
      the light direction; orthographic box [-r, r] in x and y, [0, 2r] in depth. */
  function LightViewProj(s: Sphere, lightDir: Vec3): Mat4 {
    var maxExtents := Vec3(s.radius, s.radius, s.radius);
    var minExtents := Vec3(-s.radius, -s.radius, -s.radius);
    var lightView := LookAt(Sub(s.center, Times(lightDir, -minExtents.z)), s.center, Up);
    var lightOrtho := Ortho(minExtents.x, maxExtents.x, minExtents.y, maxExtents.y, 0.0, maxExtents.z - minExtents.z);
    Product(lightOrtho, lightView)
  }

  /** The light direction normalize(-lightPos), as a 3-vector. */
  function LightDirection(glm: Glm, lightPos: Vec4): Vec3 {
    Xyz(glm.normalize(Neg(lightPos)))
  }

  /** The matrix stored for the cascade covering the slice [last, split]. */
  function CascadeMatrix(glm: Glm, invCam: Mat4, lightPos: Vec4, last: real, split: real): Mat4 {
    LightViewProj(BoundingSphere(glm, SliceCorners(WorldCorners(glm, invCam), last, split)),
                  LightDirection(glm, lightPos))
  }

  /** The fitted sphere holds every corner of the slice, and its radius exceeds the largest
      corner distance by less than 1/16 (so rounding never shrinks it). */
  lemma SphereEnclosesSlice(glm: Glm, corners: seq<Vec3>)
    requires |corners| == 8
    ensures var s := BoundingSphere(glm, corners);
            && (forall k :: 0 <= k < 8 ==> glm.length(Sub(corners[k], s.center)) <= s.radius)
            && s.radius < MaxDistance(glm.length, corners, s.center, |corners|) + 1.0 / 16.0
  {
  }

  /** The light's projection spans exactly the sphere: x and y over [-r, r], depth over
      [0, 2r], with the eye r units back from the centre against the light direction. */
  lemma LightBoxSpansSphere(s: Sphere, lightDir: Vec3)
    ensures var m := LightViewProj(s, lightDir);
            && m.Product? && m.lhs.Ortho? && m.rhs.LookAt?
            && m.lhs.left == -s.radius && m.lhs.right == s.radius
            && m.lhs.bottom == -s.radius && m.lhs.top == s.radius
            && m.lhs.zNear == 0.0 && m.lhs.zFar == 2.0 * s.radius
            && m.rhs.center == s.center && m.rhs.up == Up
            && m.rhs.eye == Sub(s.center, Times(lightDir, s.radius))
  {
  }

  /** Adjacent slices share their boundary corners: the near corners of the slice starting at
      `split` are the far corners of the slice ending at `split`. */
  lemma SlicesAreContiguous(world: seq<Vec3>, a: real, split: real, b: real)
    requires |world| == 8
    ensures forall k :: 0 <= k < 4 ==> SliceCorners(world, split, b)[k] == SliceCorners(world, a, split)[k + 4]
  {
  }

  /** The slice [0, 1] is the whole frustum. */
  lemma FullSliceIsFrustum(world: seq<Vec3>)
    requires |world| == 8
    ensures SliceCorners(world, 0.0, 1.0) == world
  {
    var c := SliceCorners(world, 0.0, 1.0);
    forall k | 0 <= k < 8 ensures c[k] == world[k] {
      if k < 4 {
        assert c[k] == Lerp(world[k], world[k + 4], 0.0);
      } else {
        assert c[k] == Lerp(world[k - 4], world[k], 1.0);
      }
    }
  }

  /** Projects the NDC corners held in `corners` to world space, in place. */
  method ProjectCorners(glm: Glm, invCam: Mat4, corners: array<Vec3>)
    requires corners[..] == NdcCorners
    modifies corners
    ensures corners[..] == WorldCorners(glm, invCam)
  {
    for i := 0 to 8
      invariant forall k :: 0 <= k < i ==> corners[k] == glm.unproject(invCam, NdcCorners[k])
      invariant forall k :: i <= k < 8 ==> corners[k] == NdcCorners[k]
    {
      corners[i] := glm.unproject(invCam, corners[i]);
    }
  }

  /** Cuts the frustum held in `corners` down to the slice [lastSplitDist, splitDist], in
      place: far corners first, both from the same edge vector. */
  method CutToSlice(corners: array<Vec3>, lastSplitDist: real, splitDist: real)
    requires corners.Length == 8
    modifies corners
    ensures corners[..] == SliceCorners(old(corners[..]), lastSplitDist, splitDist)
  {
    ghost var world := corners[..];
    ghost var slice := SliceCorners(world, lastSplitDist, splitDist);
    for i := 0 to 4
      invariant forall k :: 0 <= k < i ==> corners[k] == slice[k]
      invariant forall k :: 4 <= k < i + 4 ==> corners[k] == slice[k]
      invariant forall k :: i <= k < 4 ==> corners[k] == world[k]
      invariant forall k :: i + 4 <= k < 8 ==> corners[k] == world[k]
    {
      CutEdge(corners, i, lastSplitDist, splitDist);
    }
    assert corners[..] == slice;
  }

  /** One edge of the frustum cut in place: the far corner moves to `splitDist` along the
      edge, then the near corner to `lastSplitDist`; no other corner changes. */
  method CutEdge(corners: array<Vec3>, i: nat, lastSplitDist: real, splitDist: real)
    requires corners.Length == 8 && i < 4
    modifies corners
    ensures corners[i] == Lerp(old(corners[i]), old(corners[i + 4]), lastSplitDist)
    ensures corners[i + 4] == Lerp(old(corners[i]), old(corners[i + 4]), splitDist)
    ensures forall k :: 0 <= k < 8 && k != i && k != i + 4 ==> corners[k] == old(corners[k])
  {
    var dist := Sub(corners[i + 4], corners[i]);
    corners[i + 4] := Add(corners[i], Times(dist, splitDist));
    corners[i] := Add(corners[i], Times(dist, lastSplitDist));
  }

  /**
   * The per-cascade body of updateCascades: fill the corner array with the NDC cube,
   * project it to world space, cut it to the slice [lastSplitDist, splitDist] in place,
   * take the centroid and the rounded bounding radius, and build the light matrix.
   */
  method FitCascade(glm: Glm, invCam: Mat4, lightPos: Vec4, lastSplitDist: real, splitDist: real)
    returns (viewProj: Mat4)
    ensures viewProj == CascadeMatrix(glm, invCam, lightPos, lastSplitDist, splitDist)
  {
    var frustumCorners := new Vec3[8](k requires 0 <= k < 8 => NdcCorners[k]);
    assert frustumCorners[..] == NdcCorners;
    ProjectCorners(glm, invCam, frustumCorners);
    CutToSlice(frustumCorners, lastSplitDist, splitDist);
    ghost var slice := SliceCorners(WorldCorners(glm, invCam), lastSplitDist, splitDist);
    assert frustumCorners[..] == slice;

    // Get frustum center
    var frustumCenter := Vec3(0.0, 0.0, 0.0);
    for i := 0 to 8
      invariant frustumCenter == SumCorners(slice, i)
    {
      frustumCenter := Add(frustumCenter, frustumCorners[i]);
    }
    frustumCenter := Div(frustumCenter, 8.0);

    var radius := 0.0;
    for i := 0 to 8
      invariant radius == MaxDistance(glm.length, slice, frustumCenter, i)
    {
      var distance := glm.length(Sub(frustumCorners[i], frustumCenter));
      radius := if radius < distance then distance else radius;
    }
    radius := RoundRadius(radius);
    ghost var sphere := BoundingSphere(glm, slice);
    assert sphere == Sphere(frustumCenter, radius);

    var lightDir := Xyz(glm.normalize(Neg(lightPos)));
    viewProj := LightViewProj(Sphere(frustumCenter, radius), lightDir);
  }
}
