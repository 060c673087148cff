/** The hard-coded meshes of `class.ts`: the `Cube` and `Plane` tables and
    the screen-space `UIPlane`, whose `initBuffer` maps pixel coordinates to
    clip space and keeps only the position and texture attributes. */
module Meshes {
  import opened Wrappers
  import opened Geometry
  import opened Primitives
  import Utils
  import Scene

  // ---------------------------------------------------------------------
  // Cube

  /** Six faces of four vertices: front, back, top, bottom, right, left. */
  const CubePoints: seq<Vec3> := [
    Vec3(-1.0, -1.0, 1.0), Vec3(1.0, -1.0, 1.0), Vec3(1.0, 1.0, 1.0), Vec3(-1.0, 1.0, 1.0),
    Vec3(-1.0, -1.0, -1.0), Vec3(-1.0, 1.0, -1.0), Vec3(1.0, 1.0, -1.0), Vec3(1.0, -1.0, -1.0),
    Vec3(-1.0, 1.0, -1.0), Vec3(-1.0, 1.0, 1.0), Vec3(1.0, 1.0, 1.0), Vec3(1.0, 1.0, -1.0),
    Vec3(-1.0, -1.0, -1.0), Vec3(1.0, -1.0, -1.0), Vec3(1.0, -1.0, 1.0), Vec3(-1.0, -1.0, 1.0),
    Vec3(1.0, -1.0, -1.0), Vec3(1.0, 1.0, -1.0), Vec3(1.0, 1.0, 1.0), Vec3(1.0, -1.0, 1.0),
    Vec3(-1.0, -1.0, -1.0), Vec3(-1.0, -1.0, 1.0), Vec3(-1.0, 1.0, 1.0), Vec3(-1.0, 1.0, -1.0)]

  const CubeTris: seq<(int, int, int)> := [
    (0, 1, 2), (0, 2, 3), (4, 5, 6), (4, 6, 7), (8, 9, 10), (8, 10, 11),
    (12, 13, 14), (12, 14, 15), (16, 17, 18), (16, 18, 19), (20, 21, 22), (20, 22, 23)]

  const CubeNormals: seq<Vec3> := [
    Vec3(0.0, 0.0, 1.0), Vec3(0.0, 0.0, 1.0), Vec3(0.0, 0.0, 1.0), Vec3(0.0, 0.0, 1.0),
    Vec3(0.0, 0.0, -1.0), Vec3(0.0, 0.0, -1.0), Vec3(0.0, 0.0, -1.0), Vec3(0.0, 0.0, -1.0),
    Vec3(0.0, 1.0, 0.0), Vec3(0.0, 1.0, 0.0), Vec3(0.0, 1.0, 0.0), Vec3(0.0, 1.0, 0.0),
    Vec3(0.0, -1.0, 0.0), Vec3(0.0, -1.0, 0.0), Vec3(0.0, -1.0, 0.0), Vec3(0.0, -1.0, 0.0),
    Vec3(1.0, 0.0, 0.0), Vec3(1.0, 0.0, 0.0), Vec3(1.0, 0.0, 0.0), Vec3(1.0, 0.0, 0.0),
    Vec3(-1.0, 0.0, 0.0), Vec3(-1.0, 0.0, 0.0), Vec3(-1.0, 0.0, 0.0), Vec3(-1.0, 0.0, 0.0)]

  /** The texture coordinates of one face, used for every face. */
  const FaceCoords: seq<(real, real)> := [(0.0, 0.0), (1.0, 0.0), (1.0, 1.0), (0.0, 1.0)]

  const CubeCoords: seq<(real, real)> := FaceCoords + FaceCoords + FaceCoords + FaceCoords + FaceCoords + FaceCoords

  /** Every triangle index addresses an existing vertex. */
  predicate IndicesBelow(ts: seq<(int, int, int)>, n: int) {
    forall i :: 0 <= i < |ts| ==> 0 <= ts[i].0 < n && 0 <= ts[i].1 < n && 0 <= ts[i].2 < n
  }

  /** Each vertex lies on the face its normal points out of (the faces are
      the planes at distance 1 from the centre), and the three corners of
      every triangle share one normal: the triangles are flat faces. */
  predicate OnFacePlanes(points: seq<Vec3>, normals: seq<Vec3>, ts: seq<(int, int, int)>)
    requires |points| == |normals| && IndicesBelow(ts, |points|)
  {
    && (forall i :: 0 <= i < |points| ==> Dot(points[i], normals[i]) == 1.0 && Dot(normals[i], normals[i]) == 1.0)
    && (forall i :: 0 <= i < |ts| ==> normals[ts[i].0] == normals[ts[i].1] == normals[ts[i].2])
  }

  lemma CubeVertex(i: nat)
    requires i < 24
    ensures |CubePoints| == 24 && |CubeNormals| == 24
    ensures Dot(CubePoints[i], CubeNormals[i]) == 1.0 && Dot(CubeNormals[i], CubeNormals[i]) == 1.0
  {
    if i < 8 {
      assert i == 0 || i == 1 || i == 2 || i == 3 || i == 4 || i == 5 || i == 6 || i == 7;
    } else if i < 16 {
      assert i == 8 || i == 9 || i == 10 || i == 11 || i == 12 || i == 13 || i == 14 || i == 15;
    } else {
      assert i == 16 || i == 17 || i == 18 || i == 19 || i == 20 || i == 21 || i == 22 || i == 23;
    }
  }

  lemma CubeTriangle(i: nat)
    requires i < 12
    ensures |CubeTris| == 12 && |CubeNormals| == 24
    ensures 0 <= CubeTris[i].0 < 24 && 0 <= CubeTris[i].1 < 24 && 0 <= CubeTris[i].2 < 24
    ensures CubeNormals[CubeTris[i].0] == CubeNormals[CubeTris[i].1] == CubeNormals[CubeTris[i].2]
  {
    if i < 6 {
      assert i == 0 || i == 1 || i == 2 || i == 3 || i == 4 || i == 5;
    } else {
      assert i == 6 || i == 7 || i == 8 || i == 9 || i == 10 || i == 11;
    }
  }

  /** 24 points, 24 normals, 24 texture coordinates and 12 triangles, all
      indices in [0, 24); the mesh is a closed set of flat unit-distance faces. */
  lemma CubeTable()
    ensures |CubePoints| == 24 && |CubeNormals| == 24 && |CubeCoords| == 24 && |CubeTris| == 12
    ensures IndicesBelow(CubeTris, 24)
    ensures OnFacePlanes(CubePoints, CubeNormals, CubeTris)
  {
    forall i | 0 <= i < 24
      ensures Dot(CubePoints[i], CubeNormals[i]) == 1.0 && Dot(CubeNormals[i], CubeNormals[i]) == 1.0
    {
      CubeVertex(i);
    }
    forall i | 0 <= i < 12
      ensures 0 <= CubeTris[i].0 < 24 && 0 <= CubeTris[i].1 < 24 && 0 <= CubeTris[i].2 < 24
    {
      CubeTriangle(i);
    }
    forall i | 0 <= i < 12
      ensures CubeNormals[CubeTris[i].0] == CubeNormals[CubeTris[i].1] == CubeNormals[CubeTris[i].2]
    {
      CubeTriangle(i);
    }
  }

  // ---------------------------------------------------------------------
  // Plane

  /** The top face of the cube: a square in the plane y = 1. */
  const PlanePoints: seq<Vec3> := [Vec3(-1.0, 1.0, -1.0), Vec3(-1.0, 1.0, 1.0), Vec3(1.0, 1.0, 1.0), Vec3(1.0, 1.0, -1.0)]

  const PlaneTris: seq<(int, int, int)> := [(0, 1, 2), (0, 2, 3)]

  const PlaneNormals: seq<Vec3> := [Vec3(0.0, 1.0, 0.0), Vec3(0.0, 1.0, 0.0), Vec3(0.0, 1.0, 0.0), Vec3(0.0, 1.0, 0.0)]

  /** 4 points, normals and texture coordinates, 2 triangles, indices in
      [0, 4), all on the face plane y = 1. */
  lemma PlaneTable()
    ensures |PlanePoints| == 4 && |PlaneNormals| == 4 && |FaceCoords| == 4 && |PlaneTris| == 2
    ensures IndicesBelow(PlaneTris, 4)
    ensures OnFacePlanes(PlanePoints, PlaneNormals, PlaneTris)
  {
    forall i | 0 <= i < 4
      ensures Dot(PlanePoints[i], PlaneNormals[i]) == 1.0 && Dot(PlaneNormals[i], PlaneNormals[i]) == 1.0
    {
      assert i == 0 || i == 1 || i == 2 || i == 3;
    }
    forall j | 0 <= j < 4
      ensures PlaneNormals[j] == Vec3(0.0, 1.0, 0.0)
    {
      assert j == 0 || j == 1 || j == 2 || j == 3;
    }
    forall i | 0 <= i < 2
      ensures 0 <= PlaneTris[i].0 < 4 && 0 <= PlaneTris[i].1 < 4 && 0 <= PlaneTris[i].2 < 4
    {
      assert PlaneTris[i] == (0, 1, 2) || PlaneTris[i] == (0, 2, 3);
    }
  }

  /** The plane is the cube's top face: the same four points and normals. */
  lemma PlaneIsCubeTop()
    ensures PlanePoints == CubePoints[8..12] && PlaneNormals == CubeNormals[8..12]
  {
    Slice4(CubePoints, 8);
    Slice4(CubeNormals, 8);
  }

  lemma Slice4<T>(s: seq<T>, k: nat)
    requires k + 4 <= |s|
    ensures s[k..k + 4] == [s[k], s[k + 1], s[k + 2], s[k + 3]]
  {
  }

  // ---------------------------------------------------------------------
  // UIPlane

  /** A rectangle in canvas pixels, as the fields `x, y, dx, dy` hold it. */
  datatype Rect = Rect(x: real, y: real, dx: real, dy: real)

  /** The constructor's assignments: `this.dx = dy; this.dy = dx`. */
  function UIPlaneFields(x: real, y: real, dx: real, dy: real): (r: Rect)
    ensures r.x == x && r.y == y && r.dx == dy && r.dy == dx
  {
    Rect(x, y, dy, dx)
  }

  /** Pixels to clip space: [0, size] onto [-1, 1]. */
  function ToClip(v: real, size: real): (c: real)
    requires size > 0.0
    ensures v == 0.0 ==> c == -1.0
    ensures v == size ==> c == 1.0
  {
    v / (size / 2.0) - 1.0
  }

  /** The quad uploaded by `UIPlane.initBuffer`, corners (x, y), (dx, y),
      (dx, dy), (x, dy) as four 2D points. */
  function QuadVertices(r: Rect, cw: real, ch: real): (q: seq<real>)
    requires cw > 0.0 && ch > 0.0
    ensures |q| == 8
  {
    var x := ToClip(r.x, cw);
    var y := ToClip(r.y, ch);
    var dx := ToClip(r.dx, cw);
    var dy := ToClip(r.dy, ch);
    [x, y, dx, y, dx, dy, x, dy]
  }

  lemma ToClipInjective(a: real, b: real, size: real)
    requires size > 0.0
    ensures ToClip(a, size) == ToClip(b, size) <==> a == b
  {
    if ToClip(a, size) == ToClip(b, size) {
      assert a / (size / 2.0) == b / (size / 2.0);
      assert a == a / (size / 2.0) * (size / 2.0);
    }
  }

  /** Because of the swap, `new UIPlane(x, y, dx, dy)` draws the quad of
      the rectangle (x, y)-(dy, dx); it matches the rectangle (x, y)-(dx, dy)
      exactly when dx == dy, which every caller in the repository passes. */
  lemma UIPlaneSwap(x: real, y: real, dx: real, dy: real, cw: real, ch: real)
    requires cw > 0.0 && ch > 0.0
    ensures QuadVertices(UIPlaneFields(x, y, dx, dy), cw, ch) == QuadVertices(Rect(x, y, dx, dy), cw, ch) <==> dx == dy
  {
    var a := QuadVertices(UIPlaneFields(x, y, dx, dy), cw, ch);
    var b := QuadVertices(Rect(x, y, dx, dy), cw, ch);
    if a == b {
      assert a[2] == b[2];
      ToClipInjective(dy, dx, cw);
    }
  }

  const UIPlaneAttributeNames: seq<string> := ["aVertexPosition", "aTextureCoord"]

  /** The one uniform of a UIPlane: the sampler at location 0. */
  const UIPlaneUniforms: seq<UniformEntry> := [UniformEntry(Uniform1i, 0, Sampler)]

  /** `UIPlane.initBuffer()`: a 2D position buffer (created first) holds the
      quad; then the `Primitive` buffers are built, the normal attribute is
      dropped and the position attribute replaced by the 2-component quad
      buffer at location 0. */
  function UIPlaneInitBuffer(p: Prim, r: Rect, cw: real, ch: real, pos: Option<Buffer>, alloc: Allocations)
    : (res: Result<(BufferData, seq<real>)>)
    requires cw > 0.0 && ch > 0.0
    ensures res.Failure? <==> pos.None? || InitBuffer(p, alloc).Failure?
    ensures pos.None? ==> res == Failure("position Buffer is null")
    ensures res.Success? ==>
      && |res.value.0.attributes| == 2
      && res.value.0.attributes[0] == Attribute(2, pos.value, 0, None, None, None, None)
      && res.value.0.attributes[1] == InitBuffer(p, alloc).value.0.attributes[1]
      && res.value.1 == QuadVertices(r, cw, ch)
  {
    var pb :- Utils.CreateBuffer(pos, "position");
    var init := InitBuffer(p, alloc);
    if init.Failure? then Failure(init.error)
    else
      var data := init.value.0;
      // the first two attributes are kept, the first one replaced
      Success((data.(attributes := [Attribute(2, pb, 0, None, None, None, None), data.attributes[1]]),
               QuadVertices(r, cw, ch)))
  }

  /** After construction a UIPlane's registry is its own: two attributes and
      the sampler, each at its own index; texture coordinates stay at
      location 1 with two components. */
  lemma UIPlaneRegistry(p: Prim, r: Rect, cw: real, ch: real, pos: Option<Buffer>, alloc: Allocations)
    requires cw > 0.0 && ch > 0.0
    requires p.attributes == UIPlaneAttributeNames && p.uniforms == ["uSampler"]
    requires p.buffer.uniforms == UIPlaneUniforms
    requires UIPlaneInitBuffer(p, r, cw, ch, pos, alloc).Success?
    ensures RegistryConsistent(p.(buffer := UIPlaneInitBuffer(p, r, cw, ch, pos, alloc).value.0))
    ensures UIPlaneInitBuffer(p, r, cw, ch, pos, alloc).value.0.attributes[1].location == 1
    ensures UIPlaneInitBuffer(p, r, cw, ch, pos, alloc).value.0.attributes[1].comp == 2
  {
    InitBufferContents(p, alloc);
  }

  // ---------------------------------------------------------------------
  // The UIPlane constructor

  /** What `super(world, vertexShaderUrl, fragmentShaderUrl, texture, 0)`
      hands to the `Primitive` constructor: the plane tables and
      reflectivity 0. */
  function UIPlaneArgs(texture: Texture): Scene.PrimitiveArgs {
    Scene.PrimitiveArgs(PlanePoints, PlaneTris, Some(PlaneNormals), FaceCoords, texture, 0.0)
  }

  /** The backend's answers to the `createBuffer` calls of `new UIPlane`,
      in call order: the unchecked index buffer of the `Primitive` field
      set-up; the first `UIPlane.initBuffer` (its quad buffer, then the four
      of `Primitive.initBuffer`), run by the `Primitive` constructor; the
      unchecked index buffer of the `UIPlane` reset; the second
      `UIPlane.initBuffer`, run by `updateBuffers`. */
  datatype UIPlaneAllocations = UIPlaneAllocations(
    placeholder: Option<Buffer>,
    firstQuad: Option<Buffer>,
    first: Allocations,
    resetPlaceholder: Option<Buffer>,
    quad: Option<Buffer>,
    second: Allocations)

  /** The object the `UIPlane` constructor leaves before `updateBuffers`:
      its own attribute and uniform names and a buffer record holding only
      the sampler. */
  function UIPlaneReset(p: Prim, placeholder: Option<Buffer>): Prim {
    p.(attributes := UIPlaneAttributeNames, uniforms := ["uSampler"],
       buffer := BufferData([], [], UIPlaneUniforms, placeholder, 0))
  }

  /** Every answer of an `initBuffer` run is a buffer. */
  predicate Allocated(quad: Option<Buffer>, a: Allocations) {
    quad.Some? && a.position.Some? && a.indexes.Some? && a.textureCoordinates.Some? && a.normals.Some?
  }

  /** `new UIPlane(x, y, dx, dy, texture, world, ...)`. The `Primitive`
      constructor registers the object and runs `initBuffer`, which
      dispatches to `UIPlane.initBuffer` while x, y, dx and dy are still
      unset: that first quad is NaN and its buffers are replaced below, so
      only its throw matters. Then the fields are set (with dx and dy
      swapped), the names and the buffer record reset, and `updateBuffers`
      runs `UIPlane.initBuffer` again. A throw in either pass leaves the
      object registered as far as it got: the fresh object after the
      first pass, the reset one after the second. The error is the quad
      buffer's if that is null, and otherwise that of the first null
      buffer of `Primitive.initBuffer`. Returns the world and the
      object with its rectangle. */
  function NewUIPlane(w: Scene.World, uuid: string, x: real, y: real, dx: real, dy: real, texture: Texture,
                      cw: real, ch: real, alloc: UIPlaneAllocations)
    : (r: (Scene.World, Result<(Prim, Rect)>))
    requires cw > 0.0 && ch > 0.0
    ensures uuid in Scene.Keys(r.0.objects)
    ensures r.1.Failure? <==> !Allocated(alloc.firstQuad, alloc.first) || !Allocated(alloc.quad, alloc.second)
    ensures alloc.firstQuad.None? ==> r.1 == Failure("position Buffer is null")
    ensures Allocated(alloc.firstQuad, alloc.first) && alloc.quad.None? ==> r.1 == Failure("position Buffer is null")
    // a throw in the first pass leaves the fresh object registered
    ensures !Allocated(alloc.firstQuad, alloc.first) ==>
      var p := Scene.Fresh(uuid, UIPlaneArgs(texture), PlaneNormals, alloc.placeholder);
      r.0 == Scene.Add(w, p)
    ensures alloc.firstQuad.Some? && !Allocated(alloc.firstQuad, alloc.first) ==>
      var p := Scene.Fresh(uuid, UIPlaneArgs(texture), PlaneNormals, alloc.placeholder);
      r.1 == Failure(InitBuffer(p, alloc.first).error)
    // a throw in the second pass leaves the reset object registered
    ensures Allocated(alloc.firstQuad, alloc.first) && !Allocated(alloc.quad, alloc.second) ==>
      var p := Scene.Fresh(uuid, UIPlaneArgs(texture), PlaneNormals, alloc.placeholder);
      r.0 == Scene.WriteBack(Scene.Add(w, p), uuid, UIPlaneReset(p, alloc.resetPlaceholder))
    ensures Allocated(alloc.firstQuad, alloc.first) && alloc.quad.Some? && !Allocated(alloc.quad, alloc.second) ==>
      var p := Scene.Fresh(uuid, UIPlaneArgs(texture), PlaneNormals, alloc.placeholder);
      r.1 == Failure(InitBuffer(UIPlaneReset(p, alloc.resetPlaceholder), alloc.second).error)
  {
    var p := Scene.Fresh(uuid, UIPlaneArgs(texture), PlaneNormals, alloc.placeholder);
    var w1 := Scene.Add(w, p);
    assert uuid in Scene.Keys(w1.objects);
    if alloc.firstQuad.None? then (w1, Failure("position Buffer is null"))
    else if InitBuffer(p, alloc.first).Failure? then (w1, Failure(InitBuffer(p, alloc.first).error))
    else
      var rect := UIPlaneFields(x, y, dx, dy);
      var q := UIPlaneReset(p, alloc.resetPlaceholder);
      var second := UIPlaneInitBuffer(q, rect, cw, ch, alloc.quad, alloc.second);
      if second.Failure? then (Scene.WriteBack(w1, uuid, q), Failure(second.error))
      else
        var built := q.(buffer := second.value.0);
        (Scene.WriteBack(w1, uuid, built), Success((built, rect)))
  }

  /** A constructed UIPlane is the world's entry under its uuid, a new uuid
      going last and every other entry unchanged; its buffers are those of
      the second `initBuffer` on the reset object, drawn from the swapped
      rectangle; its registry is consistent and it waits for its shaders. */
  lemma NewUIPlaneBuilt(w: Scene.World, uuid: string, x: real, y: real, dx: real, dy: real, texture: Texture,
                        cw: real, ch: real, alloc: UIPlaneAllocations, other: string)
    requires cw > 0.0 && ch > 0.0
    requires Scene.UniqueKeys(w.objects)
    requires NewUIPlane(w, uuid, x, y, dx, dy, texture, cw, ch, alloc).1.Success?
    ensures var (w2, r) := NewUIPlane(w, uuid, x, y, dx, dy, texture, cw, ch, alloc);
      var q := UIPlaneReset(Scene.Fresh(uuid, UIPlaneArgs(texture), PlaneNormals, alloc.placeholder), alloc.resetPlaceholder);
      && Scene.Find(w2.objects, uuid) == Some(r.value.0)
      && (other != uuid ==> Scene.Find(w2.objects, other) == Scene.Find(w.objects, other))
      && (uuid !in Scene.Keys(w.objects) ==> Scene.Keys(w2.objects) == Scene.Keys(w.objects) + [uuid])
      && r.value.1 == UIPlaneFields(x, y, dx, dy)
      && r.value.0.buffer == UIPlaneInitBuffer(q, r.value.1, cw, ch, alloc.quad, alloc.second).value.0
      && r.value.0.attributes == UIPlaneAttributeNames && r.value.0.uniforms == ["uSampler"]
      && RegistryConsistent(r.value.0)
      && !r.value.0.ready
  {
    var p := Scene.Fresh(uuid, UIPlaneArgs(texture), PlaneNormals, alloc.placeholder);
    var w1 := Scene.Add(w, p);
    var q := UIPlaneReset(p, alloc.resetPlaceholder);
    var rect := UIPlaneFields(x, y, dx, dy);
    var built := q.(buffer := UIPlaneInitBuffer(q, rect, cw, ch, alloc.quad, alloc.second).value.0);
    Scene.AddSpec(w, p, other);
    Scene.PutFind(w1.objects, uuid, built, other);
    UIPlaneRegistry(q, rect, cw, ch, alloc.quad, alloc.second);
  }
}
