/** The `World` class of `class.ts` as far as its objects are concerned:
    the uuid-keyed object map (a JavaScript `Map`, which keeps insertion
    order), the camera update that refreshes every object, the render pass,
    and the `Primitive` constructor, which validates its arguments and
    registers the new object before building its buffers. */
module Scene {
  import opened Wrappers
  import opened Geometry
  import opened Primitives

  datatype World = World(view: WorldView, objects: seq<(string, Prim)>)

  // ---------------------------------------------------------------------
  // The object map

  predicate UniqueKeys(objs: seq<(string, Prim)>) {
    forall i, j :: 0 <= i < j < |objs| ==> objs[i].0 != objs[j].0
  }

  function Keys(objs: seq<(string, Prim)>): (ks: seq<string>)
    ensures |ks| == |objs| && forall i :: 0 <= i < |objs| ==> ks[i] == objs[i].0
  {
    seq(|objs|, i requires 0 <= i < |objs| => objs[i].0)
  }

  /** `objectList.get(key)`. */
  function Find(objs: seq<(string, Prim)>, key: string): (r: Option<Prim>)
    ensures r.None? <==> key !in Keys(objs)
    ensures r.Some? ==> exists i :: 0 <= i < |objs| && objs[i] == (key, r.value)
  {
    if objs == [] then None
    else if objs[0].0 == key then Some(objs[0].1)
    else
      var r := Find(objs[1..], key);
      assert forall i :: 1 <= i < |objs| ==> objs[i] == objs[1..][i - 1];
      assert Keys(objs) == [objs[0].0] + Keys(objs[1..]);
      r
  }

  /** `Map.set`: an existing key keeps its place and takes the new value; a
      new key goes last. */
  function Put(objs: seq<(string, Prim)>, key: string, p: Prim): (r: seq<(string, Prim)>)
    ensures key in Keys(objs) ==> Keys(r) == Keys(objs)
    ensures key !in Keys(objs) ==> Keys(r) == Keys(objs) + [key]
  {
    if objs == [] then [(key, p)]
    else
      KeysCons(objs[0], objs[1..]);
      assert [objs[0]] + objs[1..] == objs;
      if objs[0].0 == key then
        KeysCons((key, p), objs[1..]);
        [(key, p)] + objs[1..]
      else
        var rest := Put(objs[1..], key, p);
        KeysCons(objs[0], rest);
        [objs[0]] + rest
  }

  lemma KeysCons(h: (string, Prim), t: seq<(string, Prim)>)
    ensures Keys([h] + t) == [h.0] + Keys(t)
  {
  }

  /** `Map.delete`: the entry goes, the others keep their order. */
  function Delete(objs: seq<(string, Prim)>, key: string): (r: seq<(string, Prim)>)
    ensures |r| <= |objs|
    ensures forall e :: e in r ==> e in objs && e.0 != key
  {
    if objs == [] then []
    else if objs[0].0 == key then Delete(objs[1..], key)
    else [objs[0]] + Delete(objs[1..], key)
  }

  /** `add(obj)`: `objectList.set(obj.uuid, obj)`. */
  function Add(w: World, p: Prim): World {
    w.(objects := Put(w.objects, p.uuid, p))
  }

  /** `remove(objectId)`: `objectList.delete(objectId)`. */
  function Remove(w: World, id: string): World {
    w.(objects := Delete(w.objects, id))
  }

  lemma {:induction false} PutFind(objs: seq<(string, Prim)>, key: string, p: Prim, other: string)
    ensures Find(Put(objs, key, p), key) == Some(p)
    ensures other != key ==> Find(Put(objs, key, p), other) == Find(objs, other)
    decreases |objs|
  {
    if objs != [] && objs[0].0 != key {
      PutFind(objs[1..], key, p, other);
    }
  }

  lemma UniqueTail(objs: seq<(string, Prim)>)
    requires UniqueKeys(objs) && objs != []
    ensures objs[0].0 !in Keys(objs[1..]) && UniqueKeys(objs[1..])
  {
    forall i, j | 0 <= i < j < |objs[1..]|
      ensures objs[1..][i].0 != objs[1..][j].0
    {
      assert objs[1..][i] == objs[i + 1] && objs[1..][j] == objs[j + 1];
    }
    forall j | 0 <= j < |objs[1..]|
      ensures Keys(objs[1..])[j] != objs[0].0
    {
      assert objs[1..][j] == objs[j + 1];
    }
  }

  lemma UniqueCons(h: (string, Prim), t: seq<(string, Prim)>)
    requires h.0 !in Keys(t) && UniqueKeys(t)
    ensures UniqueKeys([h] + t)
  {
    var s := [h] + t;
    forall i, j | 0 <= i < j < |s|
      ensures s[i].0 != s[j].0
    {
      assert s[j] == t[j - 1];
      if i == 0 {
        assert Keys(t)[j - 1] == t[j - 1].0;
      } else {
        assert s[i] == t[i - 1];
      }
    }
  }

  lemma {:induction false} PutUnique(objs: seq<(string, Prim)>, key: string, p: Prim)
    requires UniqueKeys(objs)
    ensures UniqueKeys(Put(objs, key, p))
    decreases |objs|
  {
    if objs != [] {
      UniqueTail(objs);
      if objs[0].0 == key {
        UniqueCons((key, p), objs[1..]);
      } else {
        var rest := Put(objs[1..], key, p);
        PutUnique(objs[1..], key, p);
        assert objs[0].0 !in Keys(rest);
        UniqueCons(objs[0], rest);
      }
    }
  }

  lemma {:induction false} DeleteFind(objs: seq<(string, Prim)>, key: string, other: string)
    requires UniqueKeys(objs)
    ensures Find(Delete(objs, key), key) == None
    ensures other != key ==> Find(Delete(objs, key), other) == Find(objs, other)
    ensures UniqueKeys(Delete(objs, key))
    decreases |objs|
  {
    if objs != [] {
      UniqueTail(objs);
      DeleteFind(objs[1..], key, other);
      if objs[0].0 != key {
        var rest := Delete(objs[1..], key);
        assert objs[0].0 !in Keys(rest) by {
          forall j | 0 <= j < |rest|
            ensures Keys(rest)[j] != objs[0].0
          {
            assert rest[j] in objs[1..];
            var i :| 0 <= i < |objs[1..]| && objs[1..][i] == rest[j];
            assert Keys(objs[1..])[i] == rest[j].0;
          }
        }
        UniqueCons(objs[0], rest);
      }
    }
  }

  lemma {:induction false} DeleteAbsent(objs: seq<(string, Prim)>, key: string)
    requires key !in Keys(objs)
    ensures Delete(objs, key) == objs
    decreases |objs|
  {
    if objs != [] {
      assert Keys(objs) == [objs[0].0] + Keys(objs[1..]);
      DeleteAbsent(objs[1..], key);
    }
  }

  lemma {:induction false} DeletePutNew(objs: seq<(string, Prim)>, key: string, p: Prim)
    requires key !in Keys(objs)
    ensures Delete(Put(objs, key, p), key) == objs
    decreases |objs|
  {
    if objs == [] {
    } else {
      assert Keys(objs) == [objs[0].0] + Keys(objs[1..]);
      DeletePutNew(objs[1..], key, p);
    }
  }

  /** After `add(p)` the map answers p for its uuid and nothing else
      changes; keys stay unique; a new uuid goes last. */
  lemma AddSpec(w: World, p: Prim, other: string)
    requires UniqueKeys(w.objects)
    ensures Find(Add(w, p).objects, p.uuid) == Some(p)
    ensures other != p.uuid ==> Find(Add(w, p).objects, other) == Find(w.objects, other)
    ensures UniqueKeys(Add(w, p).objects)
    ensures p.uuid !in Keys(w.objects) ==> Keys(Add(w, p).objects) == Keys(w.objects) + [p.uuid]
    ensures Add(w, p).view == w.view
  {
    PutFind(w.objects, p.uuid, p, other);
    PutUnique(w.objects, p.uuid, p);
  }

  /** With unique keys, deleting the key of the entry at position i cuts
      out exactly that entry: the others keep their order. */
  lemma DeleteAt(objs: seq<(string, Prim)>, i: nat)
    requires UniqueKeys(objs) && i < |objs|
    ensures Delete(objs, objs[i].0) == objs[..i] + objs[i + 1..]
  {
    var key := objs[i].0;
    var after := objs[i + 1..];
    forall j | 0 <= j < |after|
      ensures Keys(after)[j] != key
    {
      assert after[j] == objs[i + 1 + j];
    }
    DeleteOnly(objs, key, i);
  }

  /** Deleting a key held by entry i and by no other entry. */
  lemma {:induction false} DeleteOnly(objs: seq<(string, Prim)>, key: string, i: nat)
    requires i < |objs| && objs[i].0 == key
    requires forall j :: 0 <= j < i ==> objs[j].0 != key
    requires key !in Keys(objs[i + 1..])
    ensures Delete(objs, key) == objs[..i] + objs[i + 1..]
    decreases i
  {
    var tail := objs[1..];
    if i == 0 {
      assert Delete(objs, key) == Delete(tail, key);
      DeleteAbsent(tail, key);
    } else {
      forall j | 0 <= j < i - 1
        ensures tail[j].0 != key
      {
        assert tail[j] == objs[j + 1];
      }
      assert tail[i - 1] == objs[i];
      assert tail[i..] == objs[i + 1..];
      DeleteCons(objs, key);
      DeleteOnly(tail, key, i - 1);
      SliceTail(objs, i);
    }
  }

  lemma DeleteCons(objs: seq<(string, Prim)>, key: string)
    requires objs != [] && objs[0].0 != key
    ensures Delete(objs, key) == [objs[0]] + Delete(objs[1..], key)
  {
  }

  /** After `remove(id)` the map has no entry for id and nothing else
      changes: the other entries keep their values and their order.
      Removing an absent id is a no-op, and removing an object just added
      under a fresh uuid restores the world. */
  lemma RemoveSpec(w: World, id: string, other: string, p: Prim)
    requires UniqueKeys(w.objects)
    ensures Find(Remove(w, id).objects, id) == None
    ensures other != id ==> Find(Remove(w, id).objects, other) == Find(w.objects, other)
    ensures UniqueKeys(Remove(w, id).objects)
    ensures forall i :: 0 <= i < |w.objects| && w.objects[i].0 == id ==>
      Remove(w, id) == World(w.view, w.objects[..i] + w.objects[i + 1..])
    ensures id !in Keys(w.objects) ==> Remove(w, id) == w
    ensures p.uuid !in Keys(w.objects) ==> Remove(Add(w, p), p.uuid) == w
  {
    DeleteFind(w.objects, id, other);
    forall i | 0 <= i < |w.objects| && w.objects[i].0 == id
      ensures Remove(w, id) == World(w.view, w.objects[..i] + w.objects[i + 1..])
    {
      DeleteAt(w.objects, i);
    }
    if id !in Keys(w.objects) {
      DeleteAbsent(w.objects, id);
    }
    if p.uuid !in Keys(w.objects) {
      DeletePutNew(w.objects, p.uuid, p);
    }
  }

  // ---------------------------------------------------------------------
  // Camera update and rendering

  /** `updateValues()`: the projection, the camera rotation and the camera
      translation matrix come from gl-matrix and are inputs; the view is
      rotation . translation, and every object then runs
      `updateMatricies(true)` with its own model matrix `modelOf(p)`. */
  function UpdateValues(w: World, projection: Mat4, viewRotation: Mat4, cameraTranslation: Mat4,
                        modelOf: Prim -> Mat4): (r: World)
    ensures r.view.view == MatMul(viewRotation, cameraTranslation)
    ensures r.view.projection == projection && r.view.viewRotation == viewRotation
    ensures Keys(r.objects) == Keys(w.objects)
    ensures forall i :: 0 <= i < |w.objects| ==>
      r.objects[i].1 == UpdateMatrices(w.objects[i].1, r.view, modelOf(w.objects[i].1), true)
  {
    var v := w.view.(projection := projection, viewRotation := viewRotation,
                     view := MatMul(viewRotation, cameraTranslation));
    World(v, seq(|w.objects|, i requires 0 <= i < |w.objects| =>
      (w.objects[i].0, UpdateMatrices(w.objects[i].1, v, modelOf(w.objects[i].1), true))))
  }

  /** Every object's light snapshot follows the new camera. */
  lemma UpdateValuesMovesLights(w: World, projection: Mat4, viewRotation: Mat4, cameraTranslation: Mat4,
                                modelOf: Prim -> Mat4, i: nat)
    requires i < |w.objects|
    ensures var r := UpdateValues(w, projection, viewRotation, cameraTranslation, modelOf);
      && r.objects[i].1.movedPointLights == MovedLights(MatMul(viewRotation, cameraTranslation), w.view.pointLights)
      && r.objects[i].1.modelViewMatrix == MatMul(MatMul(viewRotation, cameraTranslation), modelOf(w.objects[i].1))
  {
  }

  /** `render()` without the pre-render GL state calls: each object's
      `draw()`, in insertion order. */
  function Render(w: World, custom: string -> seq<Arg>): seq<GlCall>
    decreases |w.objects|
  {
    if w.objects == [] then []
    else Draw(w.objects[0].1, w.view, custom) + Render(w.(objects := w.objects[1..]), custom)
  }

  /** Objects whose shaders have not loaded contribute nothing; adding a new
      object appends its draw calls after everyone else's. */
  lemma {:induction false} RenderSkipsUnready(w: World, custom: string -> seq<Arg>)
    requires forall i :: 0 <= i < |w.objects| ==> !w.objects[i].1.ready
    ensures Render(w, custom) == []
    decreases |w.objects|
  {
    if w.objects != [] {
      DrawTrace(w.objects[0].1, w.view, custom);
      RenderSkipsUnready(w.(objects := w.objects[1..]), custom);
    }
  }

  lemma {:induction false} RenderAddNew(w: World, p: Prim, custom: string -> seq<Arg>)
    requires p.uuid !in Keys(w.objects)
    ensures Render(Add(w, p), custom) == Render(w, custom) + Draw(p, w.view, custom)
    decreases |w.objects|
  {
    if w.objects != [] {
      var tail := w.(objects := w.objects[1..]);
      var first := Draw(w.objects[0].1, w.view, custom);
      assert Keys(w.objects) == [w.objects[0].0] + Keys(w.objects[1..]);
      assert Add(w, p).objects == [w.objects[0]] + Add(tail, p).objects;
      assert Add(w, p).(objects := Add(w, p).objects[1..]) == Add(tail, p);
      calc {
        Render(Add(w, p), custom);
        first + Render(Add(tail, p), custom);
        { RenderAddNew(tail, p, custom); }
        first + (Render(tail, custom) + Draw(p, w.view, custom));
        (first + Render(tail, custom)) + Draw(p, w.view, custom);
        Render(w, custom) + Draw(p, w.view, custom);
      }
    } else {
      assert Render(Add(w, p), custom) == Draw(p, w.view, custom) + Render(w, custom);
    }
  }

  // ---------------------------------------------------------------------
  // Construction

  /** The arguments of `new Primitive(...)` the model follows; `normals` is
      `None` for a `null` argument. */
  datatype PrimitiveArgs = PrimitiveArgs(
    points: seq<Vec3>,
    tris: seq<(int, int, int)>,
    normals: Option<seq<Vec3>>,
    textureCoordinates: seq<(real, real)>,
    texture: Texture,
    reflectivity: real)

  /** The object as the field initialisers and the first statements of the
      constructor leave it: default names and uniform table, no buffers
      yet (`indexs` is the unchecked placeholder buffer), not ready. */
  function Fresh(uuid: string, a: PrimitiveArgs, normals: seq<Vec3>, placeholder: Option<Buffer>): Prim {
    Prim(uuid, a.points, a.tris, normals, a.textureCoordinates, a.texture, a.reflectivity, 32,
         DefaultAttributeNames, DefaultUniformNames,
         BufferData([], [], DefaultUniforms, placeholder, 0),
         Identity, Identity, [], false, None, [], [])
  }

  /** The TypeError that reading `length` of `null` raises (V8's wording). */
  const NullNormalsError: string := "Cannot read properties of null (reading 'length')"

  /** `new Primitive(points, tris, normals, world, ...)`: a null `normals`
      throws on `.length`, a count mismatch throws before the object is
      registered; otherwise the object is added to the world and then its
      buffers are built, so a null buffer throws with the object already in
      the world.  Returns the world and the new object. */
  function NewPrimitive(w: World, uuid: string, a: PrimitiveArgs, placeholder: Option<Buffer>, alloc: Allocations)
    : (r: (World, Result<Prim>))
    ensures a.normals.None? ==> r == (w, Failure(NullNormalsError))
    ensures a.normals.Some? && |a.points| != |a.normals.value| ==>
      r == (w, Failure("you must give a normal for each points"))
    ensures a.normals.Some? && |a.points| == |a.normals.value| ==>
      && uuid in Keys(r.0.objects)
      && (r.1.Failure? <==> InitBuffer(Fresh(uuid, a, a.normals.value, placeholder), alloc).Failure?)
  {
    match a.normals
    case None => (w, Failure(NullNormalsError))
    case Some(normals) =>
      if |a.points| != |normals| then (w, Failure("you must give a normal for each points"))
      else
        var p := Fresh(uuid, a, normals, placeholder);
        var built := InitBuffer(p, alloc);
        if built.Failure? then
          (Add(w, p), Failure(built.error))
        else
          var q := p.(buffer := built.value.0);
          // the map holds the object itself, so it sees the new buffers
          (Add(w, q), Success(q))
  }

  /** A successfully built primitive is registered under its uuid, leaving
      every other entry as it was, and a new uuid goes last; it holds the
      mesh it was given, starts not ready with the built-in registry, and
      addresses 3 indices per triangle. */
  lemma NewPrimitiveBuilt(w: World, uuid: string, a: PrimitiveArgs, placeholder: Option<Buffer>, alloc: Allocations,
                          other: string)
    requires UniqueKeys(w.objects)
    requires NewPrimitive(w, uuid, a, placeholder, alloc).1.Success?
    ensures var (w2, r) := NewPrimitive(w, uuid, a, placeholder, alloc);
      && Find(w2.objects, uuid) == Some(r.value)
      && (other != uuid ==> Find(w2.objects, other) == Find(w.objects, other))
      && (uuid !in Keys(w.objects) ==> Keys(w2.objects) == Keys(w.objects) + [uuid])
      && r.value.uuid == uuid
      && r.value.points == a.points && r.value.tris == a.tris && Some(r.value.normals) == a.normals
      && r.value.textureCoordinates == a.textureCoordinates && r.value.texture == a.texture
      && r.value.reflectivity == a.reflectivity
      && r.value.attributes == DefaultAttributeNames && r.value.uniforms == DefaultUniformNames
      && !r.value.ready
      && RegistryConsistent(r.value)
      && r.value.buffer.uniforms == DefaultUniforms
      && r.value.buffer.indexsLength == 3 * |a.tris|
  {
    var p := Fresh(uuid, a, a.normals.value, placeholder);
    InitBufferContents(p, alloc);
    DefaultUniformTable();
    var q := NewPrimitive(w, uuid, a, placeholder, alloc).1.value;
    AddSpec(w, q, other);
  }

  /** The `fetchShaders(...).then` callback: the program is stored, the
      locations computed (a missing uniform throws and the object stays
      not ready), then `ready` is set and the light snapshot taken. */
  function OnShadersLoaded(p: Prim, program: Program, view: WorldView, model: Mat4,
                           attribLookup: string -> int, uniformLookup: string -> Option<UniformLocation>): (o: Outcome)
    ensures o.prim.program == Some(program)
    ensures o.thrown.None? ==> o.prim.ready && o.prim.movedPointLights == MovedLights(view.view, view.pointLights)
    ensures o.thrown.Some? ==> o.prim == p.(program := Some(program))
    ensures o.thrown.None? <==> ComputeLocations(p.(program := Some(program)), attribLookup, uniformLookup).Success?
  {
    var withProgram := p.(program := Some(program));
    var located := Relocate(withProgram, attribLookup, uniformLookup);
    if located.thrown.Some? then located
    else Outcome(UpdateMatrices(located.prim.(ready := true), view, model, true), None)
  }

  // ---------------------------------------------------------------------
  // Objects change in place

  /** The map holds each object itself, so whatever an object does to
      itself (the shader callback, `addAttribute`, `addUniform`,
      `updateBuffers`) is seen through the map: the entry under its key
      takes the object's new state, in place. A key no longer in the map
      changes nothing. */
  function WriteBack(w: World, key: string, q: Prim): (r: World)
    ensures r.view == w.view && Keys(r.objects) == Keys(w.objects)
    ensures key !in Keys(w.objects) ==> r == w
  {
    if key in Keys(w.objects) then w.(objects := Put(w.objects, key, q)) else w
  }

  /** The shader callback of the object stored under `key`, seen from the
      world: `None` when that key is no longer in the map (the callback then
      changes only an object nobody renders). */
  function ShadersLoaded(w: World, key: string, program: Program, model: Mat4,
                         attribLookup: string -> int, uniformLookup: string -> Option<UniformLocation>)
    : (r: (World, Option<Outcome>))
    ensures r.1.None? <==> key !in Keys(w.objects)
    ensures r.0.view == w.view && Keys(r.0.objects) == Keys(w.objects)
  {
    match Find(w.objects, key)
    case None => (w, None)
    case Some(p) =>
      var o := OnShadersLoaded(p, program, w.view, model, attribLookup, uniformLookup);
      (WriteBack(w, key, o.prim), Some(o))
  }

  /** Rendering a map split in two renders the halves one after the other. */
  lemma {:induction false} RenderConcat(view: WorldView, a: seq<(string, Prim)>, b: seq<(string, Prim)>, custom: string -> seq<Arg>)
    ensures Render(World(view, a + b), custom) == Render(World(view, a), custom) + Render(World(view, b), custom)
    decreases |a|
  {
    if a != [] {
      assert (a + b)[1..] == a[1..] + b;
      RenderConcat(view, a[1..], b, custom);
    } else {
      assert a + b == b;
    }
  }

  /** `Map.set` on the first entry with the key replaces just that entry. */
  lemma {:induction false} PutAt(objs: seq<(string, Prim)>, key: string, p: Prim, i: nat)
    requires i < |objs| && objs[i].0 == key
    requires forall j :: 0 <= j < i ==> objs[j].0 != key
    ensures Put(objs, key, p) == objs[..i] + [(key, p)] + objs[i + 1..]
    decreases i
  {
    var tail := objs[1..];
    if i > 0 {
      PutCons(objs, key, p);
      forall j | 0 <= j < i - 1
        ensures tail[j].0 != key
      {
        assert tail[j] == objs[j + 1];
      }
      PutAt(tail, key, p, i - 1);
      ConsSplice(objs, i, (key, p));
    } else {
      assert Put(objs, key, p) == [(key, p)] + tail;
    }
  }

  lemma PutCons(objs: seq<(string, Prim)>, key: string, p: Prim)
    requires objs != [] && objs[0].0 != key
    ensures Put(objs, key, p) == [objs[0]] + Put(objs[1..], key, p)
  {
  }

  /** Splicing e in at position i - 1 of the tail and putting the head
      back splices it in at position i. */
  lemma ConsSplice<T>(s: seq<T>, i: nat, e: T)
    requires 0 < i < |s|
    ensures [s[0]] + (s[1..][..i - 1] + [e] + s[1..][i..]) == s[..i] + [e] + s[i + 1..]
  {
    SliceTail(s, i);
  }

  lemma SliceTail<T>(s: seq<T>, i: nat)
    requires 0 < i < |s|
    ensures s[1..][..i - 1] == s[1..i] && s[1..][i..] == s[i + 1..] && s[..i] == [s[0]] + s[1..i]
  {
  }

  /** With unique keys, the entry at position i is the one `get` finds. */
  lemma {:induction false} FindAt(objs: seq<(string, Prim)>, i: nat)
    requires UniqueKeys(objs) && i < |objs|
    ensures Find(objs, objs[i].0) == Some(objs[i].1)
    decreases i
  {
    if i > 0 {
      UniqueTail(objs);
      assert objs[1..][i - 1] == objs[i];
      FindAt(objs[1..], i - 1);
    }
  }

  /** After `remove` of the object at position i, `render` draws the
      objects before it and then the objects after it, in their old order. */
  lemma RenderRemove(w: World, i: nat, custom: string -> seq<Arg>)
    requires UniqueKeys(w.objects) && i < |w.objects|
    ensures Render(Remove(w, w.objects[i].0), custom)
         == Render(World(w.view, w.objects[..i]), custom) + Render(World(w.view, w.objects[i + 1..]), custom)
  {
    DeleteAt(w.objects, i);
    RenderConcat(w.view, w.objects[..i], w.objects[i + 1..], custom);
  }

  /** Rendering around one entry: the entries before it, its `draw`, then
      the entries after it. */
  lemma RenderAround(view: WorldView, a: seq<(string, Prim)>, e: (string, Prim), b: seq<(string, Prim)>,
                     custom: string -> seq<Arg>)
    ensures Render(World(view, a + [e] + b), custom) == Render(World(view, a), custom) + Draw(e.1, view, custom) + Render(World(view, b), custom)
  {
    RenderConcat(view, a + [e], b, custom);
    RenderConcat(view, a, [e], custom);
    RenderOne(view, e, custom);
  }

  lemma RenderOne(view: WorldView, e: (string, Prim), custom: string -> seq<Arg>)
    ensures Render(World(view, [e]), custom) == Draw(e.1, view, custom)
  {
    assert World(view, [e]).(objects := [e][1..]) == World(view, []);
  }

  /** Writing back the object at position i replaces exactly that entry,
      so the rest of the map and its order are untouched. */
  lemma WriteBackAt(w: World, i: nat, q: Prim)
    requires UniqueKeys(w.objects) && i < |w.objects|
    ensures WriteBack(w, w.objects[i].0, q) == World(w.view, w.objects[..i] + [(w.objects[i].0, q)] + w.objects[i + 1..])
  {
    var objs := w.objects;
    var key := objs[i].0;
    assert key in Keys(objs);
    forall j | 0 <= j < i
      ensures objs[j].0 != key
    {
    }
    PutAt(objs, key, q, i);
  }

  /** The shader callback of the object at position i rewrites exactly that
      entry. */
  lemma ShadersLoadedAt(w: World, i: nat, program: Program, model: Mat4,
                        attribLookup: string -> int, uniformLookup: string -> Option<UniformLocation>)
    requires UniqueKeys(w.objects) && i < |w.objects|
    ensures var (w2, o) := ShadersLoaded(w, w.objects[i].0, program, model, attribLookup, uniformLookup);
      && o == Some(OnShadersLoaded(w.objects[i].1, program, w.view, model, attribLookup, uniformLookup))
      && w2 == World(w.view, w.objects[..i] + [(w.objects[i].0, o.value.prim)] + w.objects[i + 1..])
  {
    FindAt(w.objects, i);
    var o := OnShadersLoaded(w.objects[i].1, program, w.view, model, attribLookup, uniformLookup);
    WriteBackAt(w, i, o.prim);
  }

  /** Once the shaders of the object at position i have loaded, the world
      renders that object's new state at its own position, between the
      objects before and after it; when no uniform was missing the object
      is ready, so its `draw` is no longer empty. */
  lemma ShadersLoadedRender(w: World, i: nat, program: Program, model: Mat4,
                            attribLookup: string -> int, uniformLookup: string -> Option<UniformLocation>,
                            custom: string -> seq<Arg>)
    requires UniqueKeys(w.objects) && i < |w.objects|
    ensures var (w2, o) := ShadersLoaded(w, w.objects[i].0, program, model, attribLookup, uniformLookup);
      && o.Some?
      && Render(w2, custom) == Render(World(w.view, w.objects[..i]), custom) + Draw(o.value.prim, w.view, custom)
                               + Render(World(w.view, w.objects[i + 1..]), custom)
      && (o.value.thrown.None? ==> o.value.prim.ready && Draw(o.value.prim, w.view, custom) != [])
  {
    ShadersLoadedAt(w, i, program, model, attribLookup, uniformLookup);
    var o := OnShadersLoaded(w.objects[i].1, program, w.view, model, attribLookup, uniformLookup);
    RenderAround(w.view, w.objects[..i], (w.objects[i].0, o.prim), w.objects[i + 1..], custom);
    DrawTrace(o.prim, w.view, custom);
  }
}
