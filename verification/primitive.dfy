/** The data handling of the `Primitive` class in `class.ts`: the uniform
    and attribute registries, the buffer contents built by `initBuffer`, the
    zero-padded light arrays, the argument lists of the uniform calls and the
    sequence of GL calls `draw` issues, the light snapshot taken by
    `updateMatricies`, and the screen bounding box.

    GL objects are opaque handles and GL calls are records in a trace; the
    matrices gl-matrix builds from translation, rotation and scale are
    inputs. */
module Primitives {
  import opened Wrappers
  import opened Geometry
  import opened Seqs
  import Utils

  // ---------------------------------------------------------------------
  // Opaque handles and the world fields a primitive reads

  datatype Buffer = Buffer(id: nat)
  datatype Texture = Texture(id: nat)
  datatype Program = Program(id: nat)
  datatype UniformLocation = UniformLocation(id: nat)

  datatype DirectionalLight = DirectionalLight(direction: Vec3, color: Vec3)
  datatype PointLight = PointLight(position: Vec3, color: Vec3)

  /** The `World` fields the uniforms read when a primitive is drawn.  The
      primitive's `directionalLights` and `pointLights` are the world's own
      arrays (assigned by reference in the constructor), so they are read
      from here. */
  datatype WorldView = WorldView(
    projection: Mat4,
    view: Mat4,
    viewRotation: Mat4,
    ambient: Vec3,
    directionalLights: seq<DirectionalLight>,
    pointLights: seq<PointLight>)

  // ---------------------------------------------------------------------
  // Uniform and attribute descriptors

  /** `UniformTypes`, in declaration order. */
  datatype UniformKind =
    | Uniform1f | Uniform1fv | Uniform1i | Uniform1iv
    | Uniform2f | Uniform2fv | Uniform2i | Uniform2iv
    | Uniform3f | Uniform3fv | Uniform3i | Uniform3iv
    | Uniform4f | Uniform4fv | Uniform4i | Uniform4iv
    | UniformMatrix2fv | UniformMatrix3fv | UniformMatrix4fv

  predicate IsMatrix(k: UniformKind) {
    k.UniformMatrix2fv? || k.UniformMatrix3fv? || k.UniformMatrix4fv?
  }

  /** The `value` closure of a uniform entry: one of the twelve built-in
      ones, or a closure registered with `addUniform`, named by a tag. */
  datatype UniformSource =
    | Projection | ModelView | Sampler | NormalMatrix | Ambient
    | DirectionalColors | DirectionalVectors | ViewRotation
    | PointPositions | PointColors | Reflectivity | Exponent
    | Custom(tag: string)

  datatype UniformEntry = UniformEntry(kind: UniformKind, location: int, source: UniformSource)

  /** A vertex attribute; the optional fields are `undefined` on the
      built-in attributes. */
  datatype Attribute = Attribute(
    comp: int,
    value: Buffer,
    location: int,
    glType: Option<int>,
    normalize: Option<bool>,
    offset: Option<int>,
    stride: Option<int>)

  datatype BufferData = BufferData(
    attributes: seq<Attribute>,
    customAttributes: seq<Attribute>,
    uniforms: seq<UniformEntry>,
    indexs: Option<Buffer>,
    indexsLength: int)

  /** The fields of a `Primitive` the model follows.  `movedPointLights`
      holds the point lights as seen from the camera. */
  datatype Prim = Prim(
    uuid: string,
    points: seq<Vec3>,
    tris: seq<(int, int, int)>,
    normals: seq<Vec3>,
    textureCoordinates: seq<(real, real)>,
    texture: Texture,
    reflectivity: real,
    exponent: int,
    attributes: seq<string>,
    uniforms: seq<string>,
    buffer: BufferData,
    modelMatrix: Mat4,
    modelViewMatrix: Mat4,
    movedPointLights: seq<PointLight>,
    ready: bool,
    program: Option<Program>,
    attributeLocations: seq<int>,
    uniformLocations: seq<UniformLocation>)

  // ---------------------------------------------------------------------
  // The built-in tables

  /** `Primitive.MAX_LIGHTS`: the light arrays are padded to this many numbers. */
  const MaxLights: nat := 64

  /** The shader uniform each built-in closure feeds; a custom closure feeds
      the name it was registered under. */
  function SourceName(s: UniformSource): string {
    match s
    case Projection => "uProjectionMatrix"
    case ModelView => "uModelViewMatrix"
    case Sampler => "uSampler"
    case NormalMatrix => "uNormalMatrix"
    case Ambient => "uAmbiantLight"
    case DirectionalColors => "uDirectionalLightsColor"
    case DirectionalVectors => "uDirectionalsVector"
    case ViewRotation => "uViewRotationMatrix"
    case PointPositions => "uPointLightsPositions"
    case PointColors => "uPointLightsColor"
    case Reflectivity => "uReflectivity"
    case Exponent => "uExponant"
    case Custom(tag) => tag
  }

  const DefaultAttributeNames: seq<string> := ["aVertexPosition", "aTextureCoord", "aVertexNormal"]

  const DefaultUniformNames: seq<string> := [
    "uProjectionMatrix", "uModelViewMatrix", "uSampler", "uNormalMatrix",
    "uAmbiantLight", "uDirectionalLightsColor", "uDirectionalsVector", "uViewRotationMatrix",
    "uPointLightsPositions", "uPointLightsColor", "uReflectivity", "uExponant"]

  const DefaultUniforms: seq<UniformEntry> := [
    UniformEntry(UniformMatrix4fv, 0, Projection),
    UniformEntry(UniformMatrix4fv, 1, ModelView),
    UniformEntry(Uniform1i, 2, Sampler),
    UniformEntry(UniformMatrix4fv, 3, NormalMatrix),
    UniformEntry(Uniform3fv, 4, Ambient),
    UniformEntry(Uniform3fv, 5, DirectionalColors),
    UniformEntry(Uniform3fv, 6, DirectionalVectors),
    UniformEntry(UniformMatrix4fv, 7, ViewRotation),
    UniformEntry(Uniform3fv, 8, PointPositions),
    UniformEntry(Uniform3fv, 9, PointColors),
    UniformEntry(Uniform1f, 10, Reflectivity),
    UniformEntry(Uniform1i, 11, Exponent)]

  /** Attribute and uniform descriptors are indexed by their own position
      in the name lists: entry i has `location` i. */
  predicate RegistryConsistent(p: Prim) {
    && |p.buffer.attributes| == |p.attributes|
    && |p.buffer.uniforms| == |p.uniforms|
    && (forall i :: 0 <= i < |p.buffer.attributes| ==> p.buffer.attributes[i].location == i)
    && (forall i :: 0 <= i < |p.buffer.uniforms| ==> p.buffer.uniforms[i].location == i)
  }

  /** Entry i of the built-in table sits at location i, feeds the uniform
      named at index i, and carries the transpose flag exactly when it
      uploads a 4x4 matrix. */
  lemma DefaultUniformTable()
    ensures |DefaultUniforms| == |DefaultUniformNames| == 12
    ensures forall i :: 0 <= i < 12 ==> DefaultUniforms[i].location == i
    ensures forall i :: 0 <= i < 12 ==> SourceName(DefaultUniforms[i].source) == DefaultUniformNames[i]
    ensures forall i :: 0 <= i < 12 ==>
      (IsMatrix(DefaultUniforms[i].kind) <==> DefaultUniforms[i].source in {Projection, ModelView, NormalMatrix, ViewRotation})
  {
    forall i | 0 <= i < 12
      ensures DefaultUniforms[i].location == i
      ensures SourceName(DefaultUniforms[i].source) == DefaultUniformNames[i]
    {
      if i < 6 {
        assert i == 0 || i == 1 || i == 2 || i == 3 || i == 4 || i == 5;
      } else {
        assert i == 6 || i == 7 || i == 8 || i == 9 || i == 10 || i == 11;
      }
    }
  }

  // ---------------------------------------------------------------------
  // Flattening into buffer contents

  function Components(v: Vec3): seq<real> {
    [v.x, v.y, v.z]
  }

  function TriIndices(t: (int, int, int)): seq<int> {
    [t.0, t.1, t.2]
  }

  function PairCoords(p: (real, real)): seq<real> {
    [p.0, p.1]
  }

  /** `forEach(v => out.push(...v.toArray()))` over 3-vectors. */
  function Flatten3(vs: seq<Vec3>): seq<real> {
    Flatten(seq(|vs|, i requires 0 <= i < |vs| => Components(vs[i])))
  }

  function FlattenTris(ts: seq<(int, int, int)>): seq<int> {
    Flatten(seq(|ts|, i requires 0 <= i < |ts| => TriIndices(ts[i])))
  }

  function FlattenPairs(ps: seq<(real, real)>): seq<real> {
    Flatten(seq(|ps|, i requires 0 <= i < |ps| => PairCoords(ps[i])))
  }

  /** Three numbers per vector, in order; cutting the list into triples
      gives the vectors back. */
  lemma Flatten3Shape(vs: seq<Vec3>)
    ensures |Flatten3(vs)| == 3 * |vs|
    ensures forall i :: 0 <= i < |vs| ==>
      Flatten3(vs)[3 * i] == vs[i].x && Flatten3(vs)[3 * i + 1] == vs[i].y && Flatten3(vs)[3 * i + 2] == vs[i].z
    ensures Unflatten(Flatten3(vs), 3) == seq(|vs|, i requires 0 <= i < |vs| => Components(vs[i]))
  {
    var blocks := seq(|vs|, i requires 0 <= i < |vs| => Components(vs[i]));
    FlattenUniformLength(blocks, 3);
    forall i | 0 <= i < |vs|
      ensures Flatten3(vs)[3 * i] == vs[i].x && Flatten3(vs)[3 * i + 1] == vs[i].y && Flatten3(vs)[3 * i + 2] == vs[i].z
    {
      FlattenAt(blocks, 3, i, 0);
      FlattenAt(blocks, 3, i, 1);
      FlattenAt(blocks, 3, i, 2);
    }
    UnflattenFlatten(blocks, 3);
  }

  lemma FlattenTrisShape(ts: seq<(int, int, int)>)
    ensures |FlattenTris(ts)| == 3 * |ts|
    ensures forall i :: 0 <= i < |ts| ==>
      FlattenTris(ts)[3 * i] == ts[i].0 && FlattenTris(ts)[3 * i + 1] == ts[i].1 && FlattenTris(ts)[3 * i + 2] == ts[i].2
  {
    var blocks := seq(|ts|, i requires 0 <= i < |ts| => TriIndices(ts[i]));
    FlattenUniformLength(blocks, 3);
    forall i | 0 <= i < |ts|
      ensures FlattenTris(ts)[3 * i] == ts[i].0 && FlattenTris(ts)[3 * i + 1] == ts[i].1 && FlattenTris(ts)[3 * i + 2] == ts[i].2
    {
      FlattenAt(blocks, 3, i, 0);
      FlattenAt(blocks, 3, i, 1);
      FlattenAt(blocks, 3, i, 2);
    }
  }

  lemma FlattenPairsShape(ps: seq<(real, real)>)
    ensures |FlattenPairs(ps)| == 2 * |ps|
    ensures forall i :: 0 <= i < |ps| ==> FlattenPairs(ps)[2 * i] == ps[i].0 && FlattenPairs(ps)[2 * i + 1] == ps[i].1
  {
    var blocks := seq(|ps|, i requires 0 <= i < |ps| => PairCoords(ps[i]));
    FlattenUniformLength(blocks, 2);
    forall i | 0 <= i < |ps|
      ensures FlattenPairs(ps)[2 * i] == ps[i].0 && FlattenPairs(ps)[2 * i + 1] == ps[i].1
    {
      FlattenAt(blocks, 2, i, 0);
      FlattenAt(blocks, 2, i, 1);
    }
  }

  /** The conversion `new Uint16Array(...)` applies to an integer index. */
  function Wrap16(n: int): (r: int)
    ensures 0 <= r < 65536
    ensures 0 <= n < 65536 ==> r == n
  {
    n % 65536
  }

  // ---------------------------------------------------------------------
  // The light arrays

  /** `while (res.length < MAX_LIGHTS) res.push(0, 0, 0)`. */
  function PadZeros(res: seq<real>): seq<real>
    decreases MaxLights - |res|
  {
    if |res| < MaxLights then PadZeros(res + [0.0, 0.0, 0.0]) else res
  }

  /** The value of a light uniform: the lights' numbers in order, then zeros. */
  function LightArray(vs: seq<Vec3>): seq<real> {
    PadZeros(Flatten3(vs))
  }

  lemma {:induction false} PadZerosShape(res: seq<real>)
    ensures |res| >= MaxLights ==> PadZeros(res) == res
    ensures |res| < MaxLights ==> MaxLights <= |PadZeros(res)| < MaxLights + 3
    ensures (|PadZeros(res)| - |res|) % 3 == 0
    ensures |PadZeros(res)| >= |res| && PadZeros(res)[..|res|] == res
    ensures forall i :: |res| <= i < |PadZeros(res)| ==> PadZeros(res)[i] == 0.0
    decreases MaxLights - |res|
  {
    if |res| < MaxLights {
      var next := res + [0.0, 0.0, 0.0];
      PadZerosShape(next);
      assert PadZeros(res) == PadZeros(next);
      assert PadZeros(next)[..|res|] == next[..|res|];
      forall i | |res| <= i < |PadZeros(res)|
        ensures PadZeros(res)[i] == 0.0
      {
        if i < |next| {
          assert PadZeros(next)[i] == next[i];
        }
      }
    }
  }

  /** n lights give max(3n, 66) numbers: the 3n light components in order,
      then zeros. */
  lemma LightArrayShape(vs: seq<Vec3>)
    ensures |LightArray(vs)| == if 3 * |vs| >= 66 then 3 * |vs| else 66
    ensures LightArray(vs)[..3 * |vs|] == Flatten3(vs)
    ensures forall i :: 3 * |vs| <= i < |LightArray(vs)| ==> LightArray(vs)[i] == 0.0
  {
    Flatten3Shape(vs);
    PadZerosShape(Flatten3(vs));
  }

  function Colors(ls: seq<DirectionalLight>): seq<Vec3> {
    seq(|ls|, i requires 0 <= i < |ls| => ls[i].color)
  }

  function Directions(ls: seq<DirectionalLight>): seq<Vec3> {
    seq(|ls|, i requires 0 <= i < |ls| => ls[i].direction)
  }

  function PointColorsOf(ls: seq<PointLight>): seq<Vec3> {
    seq(|ls|, i requires 0 <= i < |ls| => ls[i].color)
  }

  function Positions(ls: seq<PointLight>): seq<Vec3> {
    seq(|ls|, i requires 0 <= i < |ls| => ls[i].position)
  }

  // ---------------------------------------------------------------------
  // Uniform call arguments

  /** A value handed to a GL uniform call.  The normal matrix is the
      inverse-transpose of the model-view matrix, which gl-matrix computes;
      it is kept as a term. */
  datatype Arg =
    | ALocation(loc: Option<UniformLocation>)
    | AFlag(b: bool)
    | AMatrix(m: Mat4)
    | AInverseTranspose(of: Mat4)
    | AVector(v: Vec3)
    | ANumbers(ns: seq<real>)
    | AInt(i: int)
    | AReal(r: real)

  /** A JavaScript array read: `undefined` (None) outside the array. */
  function Lookup<T>(s: seq<T>, i: int): (r: Option<T>)
    ensures r.Some? <==> 0 <= i < |s|
    ensures r.Some? ==> r.value == s[i]
  {
    if 0 <= i < |s| then Some(s[i]) else None
  }

  /** `value(this)`: what the entry's closure returns at draw time.  The
      values of custom closures are supplied by `custom`. */
  function UniformValue(s: UniformSource, p: Prim, w: WorldView, custom: string -> seq<Arg>): seq<Arg> {
    match s
    case Projection => [AMatrix(w.projection)]
    case ModelView => [AMatrix(p.modelViewMatrix)]
    case Sampler => [AInt(0)]
    case NormalMatrix => [AInverseTranspose(p.modelViewMatrix)]
    case Ambient => [AVector(w.ambient)]
    case DirectionalColors => [ANumbers(LightArray(Colors(w.directionalLights)))]
    case DirectionalVectors => [ANumbers(LightArray(Directions(w.directionalLights)))]
    case ViewRotation => [AMatrix(w.viewRotation)]
    case PointPositions => [ANumbers(LightArray(Positions(p.movedPointLights)))]
    case PointColors => [ANumbers(LightArray(PointColorsOf(w.pointLights)))]
    case Reflectivity => [AReal(p.reflectivity)]
    case Exponent => [AInt(p.exponent)]
    case Custom(tag) => custom(tag)
  }

  /** `[...args1, ...args2, ...args3]`: the location looked up by the entry's
      index, the transpose flag `false` for the matrix kinds only, then the
      closure's values. */
  function UniformArgs(e: UniformEntry, p: Prim, w: WorldView, custom: string -> seq<Arg>): (r: seq<Arg>)
    ensures |r| >= 1 && r[0] == ALocation(Lookup(p.uniformLocations, e.location))
    ensures IsMatrix(e.kind) ==> |r| >= 2 && r[1] == AFlag(false) && r[2..] == UniformValue(e.source, p, w, custom)
    ensures !IsMatrix(e.kind) ==> r[1..] == UniformValue(e.source, p, w, custom)
  {
    [ALocation(Lookup(p.uniformLocations, e.location))]
      + (if IsMatrix(e.kind) then [AFlag(false)] else [])
      + UniformValue(e.source, p, w, custom)
  }

  // ---------------------------------------------------------------------
  // The draw trace

  /** `gl.FLOAT`, the default component type of `passArg`. */
  const GlFloat: int := 0x1406

  datatype GlCall =
    | UseProgram(program: Option<Program>)
    | BindArrayBuffer(buffer: Buffer)
    | VertexAttribPointer(index: Option<int>, size: int, glType: int, normalized: bool, stride: int, offset: int)
    | EnableVertexAttribArray(index: Option<int>)
    | ActiveTexture0
    | BindTexture2D(texture: Texture)
    | SetUniform(kind: UniformKind, args: seq<Arg>)
    | BindElementArrayBuffer(indexBuffer: Option<Buffer>)
    /** `drawElements(TRIANGLES, count, UNSIGNED_SHORT, 0)` */
    | DrawElements(count: int)

  function OrElse<T>(o: Option<T>, d: T): T {
    if o.Some? then o.value else d
  }

  /** `passArg`: bind the buffer, describe it, enable the attribute.  Missing
      options take `passArg`'s defaults. */
  function AttributeCalls(a: Attribute, locations: seq<int>): seq<GlCall> {
    var index := Lookup(locations, a.location);
    [ BindArrayBuffer(a.value),
      VertexAttribPointer(index, a.comp, OrElse(a.glType, GlFloat), OrElse(a.normalize, false),
                          OrElse(a.stride, 0), OrElse(a.offset, 0)),
      EnableVertexAttribArray(index) ]
  }

  /** One `passArg` block per attribute, built-in attributes first. */
  function AttributeBlocks(attrs: seq<Attribute>, locations: seq<int>): seq<seq<GlCall>> {
    seq(|attrs|, i requires 0 <= i < |attrs| => AttributeCalls(attrs[i], locations))
  }

  function UniformCalls(es: seq<UniformEntry>, p: Prim, w: WorldView, custom: string -> seq<Arg>): (r: seq<GlCall>)
    ensures |r| == |es|
    ensures forall i :: 0 <= i < |es| ==> r[i] == SetUniform(es[i].kind, UniformArgs(es[i], p, w, custom))
  {
    seq(|es|, i requires 0 <= i < |es| => SetUniform(es[i].kind, UniformArgs(es[i], p, w, custom)))
  }

  /** `draw()`: nothing until the shaders are loaded; then the program, the
      built-in and custom attributes, the texture, one call per uniform entry
      and the indexed draw. */
  function Draw(p: Prim, w: WorldView, custom: string -> seq<Arg>): seq<GlCall> {
    if !p.ready then []
    else
      var attrs := p.buffer.attributes + p.buffer.customAttributes;
      [UseProgram(p.program)]
        + Flatten(AttributeBlocks(attrs, p.attributeLocations))
        + [ActiveTexture0, BindTexture2D(p.texture)]
        + UniformCalls(p.buffer.uniforms, p, w, custom)
        + [BindElementArrayBuffer(p.buffer.indexs), DrawElements(p.buffer.indexsLength)]
  }

  lemma ConcatAt(head: seq<GlCall>, middle: seq<GlCall>, tail: seq<GlCall>)
    ensures |head + middle + tail| == |head| + |middle| + |tail|
    ensures forall i :: 0 <= i < |head| ==> (head + middle + tail)[i] == head[i]
    ensures forall i :: 0 <= i < |middle| ==> (head + middle + tail)[|head| + i] == middle[i]
    ensures forall i :: 0 <= i < |tail| ==> (head + middle + tail)[|head| + |middle| + i] == tail[i]
  {
  }

  /** The ready gate, and the layout of the trace once ready: three calls per
      attribute, then one uniform call per entry in table order, ending with
      a draw of `indexsLength` indices. */
  lemma DrawTrace(p: Prim, w: WorldView, custom: string -> seq<Arg>)
    ensures !p.ready ==> Draw(p, w, custom) == []
    ensures p.ready ==>
      var r := Draw(p, w, custom);
      var a := |p.buffer.attributes| + |p.buffer.customAttributes|;
      && |r| == 3 * a + |p.buffer.uniforms| + 5
      && r[0] == UseProgram(p.program)
      && r[3 * a + 1] == ActiveTexture0
      && r[|r| - 1] == DrawElements(p.buffer.indexsLength)
      && (forall i :: 0 <= i < |p.buffer.uniforms| ==>
            r[3 * a + 3 + i] == SetUniform(p.buffer.uniforms[i].kind, UniformArgs(p.buffer.uniforms[i], p, w, custom)))
  {
    if p.ready {
      var attrs := p.buffer.attributes + p.buffer.customAttributes;
      var blocks := AttributeBlocks(attrs, p.attributeLocations);
      var head := [UseProgram(p.program)] + Flatten(blocks) + [ActiveTexture0, BindTexture2D(p.texture)];
      var us := UniformCalls(p.buffer.uniforms, p, w, custom);
      var tail := [BindElementArrayBuffer(p.buffer.indexs), DrawElements(p.buffer.indexsLength)];
      assert Draw(p, w, custom) == head + us + tail;
      assert |head| == 3 * |attrs| + 3 && head[0] == UseProgram(p.program) && head[3 * |attrs| + 1] == ActiveTexture0 by {
        FlattenUniformLength(blocks, 3);
      }
      ConcatAt(head, us, tail);
    }
  }

  // ---------------------------------------------------------------------
  // Locations

  /** The uniform loop of `computeLocations`: the first name the program
      does not know throws. */
  function UniformLocations(names: seq<string>, lookup: string -> Option<UniformLocation>): (r: Result<seq<UniformLocation>>)
    ensures r.Success? <==> forall i :: 0 <= i < |names| ==> lookup(names[i]).Some?
    ensures r.Success? ==> |r.value| == |names| && forall i :: 0 <= i < |names| ==> r.value[i] == lookup(names[i]).value
    ensures r.Failure? ==>
      exists i :: && 0 <= i < |names| && lookup(names[i]).None?
                  && (forall j :: 0 <= j < i ==> lookup(names[j]).Some?)
                  && r.error == "gl.getUniformLocation(this.programShader, " + names[i] + ") returns null"
  {
    if names == [] then Success([])
    else
      match lookup(names[0])
      case None => Failure("gl.getUniformLocation(this.programShader, " + names[0] + ") returns null")
      case Some(l) =>
        var rest := UniformLocations(names[1..], lookup);
        if rest.Failure? then
          assert forall i :: 1 <= i < |names| ==> names[i] == names[1..][i - 1];
          rest
        else
          assert forall i :: 1 <= i < |names| ==> names[i] == names[1..][i - 1];
          Success([l] + rest.value)
  }

  /** Every name has a uniform location in the program. */
  predicate Resolvable(names: seq<string>, lookup: string -> Option<UniformLocation>) {
    forall i :: 0 <= i < |names| ==> lookup(names[i]).Some?
  }

  lemma ResolvableSnoc(names: seq<string>, name: string, lookup: string -> Option<UniformLocation>)
    ensures Resolvable(names + [name], lookup) <==> Resolvable(names, lookup) && lookup(name).Some?
  {
    assert (names + [name])[|names|] == name;
    assert forall i :: 0 <= i < |names| ==> (names + [name])[i] == names[i];
  }

  /** The TypeError a WebGL 1 context raises (Chrome's wording) when a
      lookup is handed the `null` program: the program parameter of
      `getAttribLocation` and `getUniformLocation` is not nullable. */
  function NullProgramError(call: string): string {
    "Failed to execute '" + call + "' on 'WebGLRenderingContext': parameter 1 is not of type 'WebGLProgram'."
  }

  /** `computeLocations()`, with the program's name lookups as inputs.
      Before the shaders load the program is `null` and the first lookup
      throws; once it is set, `getAttribLocation` never fails (it answers
      -1), and a `null` uniform location throws. A throw leaves both tables
      as they were. */
  function ComputeLocations(p: Prim, attribLookup: string -> int, uniformLookup: string -> Option<UniformLocation>): (r: Result<Prim>)
    ensures p.program.None? && p.attributes != [] ==> r == Failure(NullProgramError("getAttribLocation"))
    ensures p.program.None? && p.attributes == [] && p.uniforms != [] ==> r == Failure(NullProgramError("getUniformLocation"))
    ensures r.Success? <==> (p.program.Some? || (p.attributes == [] && p.uniforms == [])) && Resolvable(p.uniforms, uniformLookup)
    ensures r.Success? ==> r.value == p.(
      attributeLocations := AttribLocations(p.attributes, attribLookup),
      uniformLocations := UniformLocations(p.uniforms, uniformLookup).value)
  {
    if p.program.None? && p.attributes != [] then Failure(NullProgramError("getAttribLocation"))
    else if p.program.None? && p.uniforms != [] then Failure(NullProgramError("getUniformLocation"))
    else LookUpAll(p, attribLookup, uniformLookup)
  }

  /** The attribute loop: one location per name, -1 for an unknown name. */
  function AttribLocations(names: seq<string>, attribLookup: string -> int): (r: seq<int>)
    ensures |r| == |names| && forall i :: 0 <= i < |names| ==> r[i] == attribLookup(names[i])
  {
    seq(|names|, i requires 0 <= i < |names| => attribLookup(names[i]))
  }

  /** The two lookup loops of `computeLocations` once the program is set. */
  function LookUpAll(p: Prim, attribLookup: string -> int, uniformLookup: string -> Option<UniformLocation>): (r: Result<Prim>)
    ensures r.Success? <==> Resolvable(p.uniforms, uniformLookup)
    ensures r.Success? ==> r.value == p.(
      attributeLocations := AttribLocations(p.attributes, attribLookup),
      uniformLocations := UniformLocations(p.uniforms, uniformLookup).value)
  {
    var aRes := AttribLocations(p.attributes, attribLookup);
    var uRes := UniformLocations(p.uniforms, uniformLookup);
    if uRes.Failure? then Failure(uRes.error)
    else Success(p.(attributeLocations := aRes, uniformLocations := uRes.value))
  }

  /** What a call that may throw midway leaves behind: the object as far as
      it got, and the thrown message if any. */
  datatype Outcome = Outcome(prim: Prim, thrown: Option<string>)

  /** `computeLocations()` as a statement: on a throw the object is left as it was. */
  function Relocate(p: Prim, attribLookup: string -> int, uniformLookup: string -> Option<UniformLocation>): (o: Outcome)
    ensures o.thrown.None? <==> ComputeLocations(p, attribLookup, uniformLookup).Success?
    ensures o.thrown.Some? ==> o.prim == p
    ensures o.prim == p.(attributeLocations := o.prim.attributeLocations, uniformLocations := o.prim.uniformLocations)
  {
    var r := ComputeLocations(p, attribLookup, uniformLookup);
    if r.Success? then Outcome(r.value, None) else Outcome(p, Some(r.error))
  }

  /** `addAttribute(name, value, component, type, normalize, offset, stride)`:
      the name is appended, its descriptor registered at the new last index,
      then the locations are recomputed. Before the shaders load that
      recomputation throws, with the registration already made. */
  function AddAttribute(p: Prim, name: string, value: Buffer, comp: int, glType: int, normalize: bool, offset: int, stride: int,
                        attribLookup: string -> int, uniformLookup: string -> Option<UniformLocation>): (o: Outcome)
    ensures p.program.None? ==> o.thrown == Some(NullProgramError("getAttribLocation"))
    ensures p.program.Some? ==> (o.thrown.None? <==> Resolvable(p.uniforms, uniformLookup))
    ensures o.prim.attributes == p.attributes + [name]
    ensures |o.prim.buffer.attributes| == |p.buffer.attributes| + 1
    ensures o.prim.buffer.attributes[..|p.buffer.attributes|] == p.buffer.attributes
    ensures o.prim.buffer.attributes[|p.buffer.attributes|].location == |p.attributes|
    ensures o.prim.uniforms == p.uniforms && o.prim.buffer.uniforms == p.buffer.uniforms
    ensures o.prim.buffer.customAttributes == p.buffer.customAttributes
  {
    var q := p.(attributes := p.attributes + [name],
                buffer := p.buffer.(attributes := p.buffer.attributes +
                  [Attribute(comp, value, |p.attributes|, Some(glType), Some(normalize), Some(offset), Some(stride))]));
    assert q.buffer.attributes[..|p.buffer.attributes|] == p.buffer.attributes;
    Relocate(q, attribLookup, uniformLookup)
  }

  /** `addUniform(name, method, value)`: the same registration for
      uniforms; before the shaders load the first lookup throws, an
      attribute one if there is any attribute name. */
  function AddUniform(p: Prim, name: string, kind: UniformKind, source: UniformSource,
                      attribLookup: string -> int, uniformLookup: string -> Option<UniformLocation>): (o: Outcome)
    ensures p.program.None? ==>
      o.thrown == Some(NullProgramError(if p.attributes == [] then "getUniformLocation" else "getAttribLocation"))
    ensures p.program.Some? ==>
      (o.thrown.None? <==> uniformLookup(name).Some? && Resolvable(p.uniforms, uniformLookup))
    ensures o.prim.uniforms == p.uniforms + [name]
    ensures |o.prim.buffer.uniforms| == |p.buffer.uniforms| + 1
    ensures o.prim.buffer.uniforms[..|p.buffer.uniforms|] == p.buffer.uniforms
    ensures o.prim.buffer.uniforms[|p.buffer.uniforms|] == UniformEntry(kind, |p.uniforms|, source)
    ensures o.prim.attributes == p.attributes && o.prim.buffer.attributes == p.buffer.attributes
  {
    var q := p.(uniforms := p.uniforms + [name],
                buffer := p.buffer.(uniforms := p.buffer.uniforms + [UniformEntry(kind, |p.uniforms|, source)]));
    assert q.buffer.uniforms[..|p.buffer.uniforms|] == p.buffer.uniforms;
    ResolvableSnoc(p.uniforms, name, uniformLookup);
    Relocate(q, attribLookup, uniformLookup)
  }

  /** Registration keeps every descriptor at its own index. */
  lemma AddKeepsRegistry(p: Prim, name: string, value: Buffer, comp: int, glType: int, normalize: bool, offset: int, stride: int,
                         kind: UniformKind, source: UniformSource,
                         attribLookup: string -> int, uniformLookup: string -> Option<UniformLocation>)
    requires RegistryConsistent(p)
    ensures RegistryConsistent(AddAttribute(p, name, value, comp, glType, normalize, offset, stride, attribLookup, uniformLookup).prim)
    ensures RegistryConsistent(AddUniform(p, name, kind, source, attribLookup, uniformLookup).prim)
  {
    AddAttributeKeepsRegistry(p, name, value, comp, glType, normalize, offset, stride, attribLookup, uniformLookup);
    AddUniformKeepsRegistry(p, name, kind, source, attribLookup, uniformLookup);
  }

  lemma AddAttributeKeepsRegistry(p: Prim, name: string, value: Buffer, comp: int, glType: int, normalize: bool, offset: int, stride: int,
                                  attribLookup: string -> int, uniformLookup: string -> Option<UniformLocation>)
    requires RegistryConsistent(p)
    ensures RegistryConsistent(AddAttribute(p, name, value, comp, glType, normalize, offset, stride, attribLookup, uniformLookup).prim)
  {
    var a := AddAttribute(p, name, value, comp, glType, normalize, offset, stride, attribLookup, uniformLookup).prim;
    var n := |p.buffer.attributes|;
    var prefix := a.buffer.attributes[..n];
    assert prefix == p.buffer.attributes;
    forall i | 0 <= i < |a.buffer.attributes|
      ensures a.buffer.attributes[i].location == i
    {
      if i < n {
        assert a.buffer.attributes[i] == prefix[i];
      }
    }
  }

  lemma AddUniformKeepsRegistry(p: Prim, name: string, kind: UniformKind, source: UniformSource,
                                attribLookup: string -> int, uniformLookup: string -> Option<UniformLocation>)
    requires RegistryConsistent(p)
    ensures RegistryConsistent(AddUniform(p, name, kind, source, attribLookup, uniformLookup).prim)
  {
    var u := AddUniform(p, name, kind, source, attribLookup, uniformLookup).prim;
    forall i | 0 <= i < |u.buffer.uniforms|
      ensures u.buffer.uniforms[i].location == i
    {
      if i < |p.buffer.uniforms| {
        assert u.buffer.uniforms[i] == u.buffer.uniforms[..|p.buffer.uniforms|][i];
      }
    }
  }

  /** With a consistent registry and the locations computed, every uniform
      call of `draw` receives the location of the very name its entry was
      registered under. */
  lemma UniformBoundToOwnName(p: Prim, attribLookup: string -> int, uniformLookup: string -> Option<UniformLocation>, i: nat)
    requires RegistryConsistent(p)
    requires ComputeLocations(p, attribLookup, uniformLookup).Success?
    requires i < |p.buffer.uniforms|
    ensures var q := ComputeLocations(p, attribLookup, uniformLookup).value;
      Lookup(q.uniformLocations, q.buffer.uniforms[i].location) == uniformLookup(p.uniforms[i])
  {
  }

  // ---------------------------------------------------------------------
  // Buffers

  /** The backend's answers to the four `createBuffer` calls of
      `initBuffer`, in call order. */
  datatype Allocations = Allocations(
    position: Option<Buffer>,
    indexes: Option<Buffer>,
    textureCoordinates: Option<Buffer>,
    normals: Option<Buffer>)

  /** The arrays handed to `bufferData`. */
  datatype Upload = Upload(positions: seq<real>, indexes: seq<int>, textureCoordinates: seq<real>, normals: seq<real>)

  /** `initBuffer()`: the buffer data and what is uploaded, or the first
      null buffer's error. */
  function InitBuffer(p: Prim, alloc: Allocations): (r: Result<(BufferData, Upload)>)
    ensures r.Failure? <==> alloc.position.None? || alloc.indexes.None? || alloc.textureCoordinates.None? || alloc.normals.None?
    ensures r.Failure? ==>
      r.error == (if alloc.position.None? then "position"
                  else if alloc.indexes.None? then "indexes"
                  else if alloc.textureCoordinates.None? then "textureCoordinates"
                  else "normals") + " Buffer is null"
    ensures r.Success? ==> |r.value.0.attributes| == 3
  {
    var pb :- Utils.CreateBuffer(alloc.position, "position");
    var ib :- Utils.CreateBuffer(alloc.indexes, "indexes");
    var tb :- Utils.CreateBuffer(alloc.textureCoordinates, "textureCoordinates");
    var nb :- Utils.CreateBuffer(alloc.normals, "normals");
    Success(FilledBuffers(p, pb, ib, tb, nb))
  }

  /** The buffer data and uploads of `initBuffer` once its four buffers exist. */
  function FilledBuffers(p: Prim, pb: Buffer, ib: Buffer, tb: Buffer, nb: Buffer): (BufferData, Upload) {
    var indexes := FlattenTris(p.tris);
    var data := BufferData(
      [ Attribute(3, pb, 0, None, None, None, None),
        Attribute(2, tb, 1, None, None, None, None),
        Attribute(3, nb, 2, None, None, None, None) ],
      p.buffer.customAttributes,
      p.buffer.uniforms,
      Some(ib),
      |indexes|);
    var up := Upload(Flatten3(p.points), seq(|indexes|, i requires 0 <= i < |indexes| => Wrap16(indexes[i])),
                     FlattenPairs(p.textureCoordinates), Flatten3(p.normals));
    (data, up)
  }

  /** On success: positions and normals three numbers per vector, indices
      three per triangle (as 16-bit values) with `indexsLength` = 3 x
      triangles, texture coordinates two per pair; the three built-in
      attributes at locations 0, 1, 2 with the custom attributes and the
      uniforms carried over. */
  lemma InitBufferContents(p: Prim, alloc: Allocations)
    requires InitBuffer(p, alloc).Success?
    ensures var (data, up) := InitBuffer(p, alloc).value;
      && data.indexsLength == 3 * |p.tris|
      && |up.positions| == 3 * |p.points| && |up.normals| == 3 * |p.normals|
      && |up.indexes| == 3 * |p.tris| && |up.textureCoordinates| == 2 * |p.textureCoordinates|
      && (forall i :: 0 <= i < |p.points| ==>
            up.positions[3 * i] == p.points[i].x && up.positions[3 * i + 1] == p.points[i].y && up.positions[3 * i + 2] == p.points[i].z)
      && (forall i :: 0 <= i < |p.tris| ==>
            up.indexes[3 * i] == Wrap16(p.tris[i].0) && up.indexes[3 * i + 1] == Wrap16(p.tris[i].1)
            && up.indexes[3 * i + 2] == Wrap16(p.tris[i].2))
      && (forall i :: 0 <= i < |p.textureCoordinates| ==>
            up.textureCoordinates[2 * i] == p.textureCoordinates[i].0
            && up.textureCoordinates[2 * i + 1] == p.textureCoordinates[i].1)
      && |data.attributes| == 3
      && (forall i :: 0 <= i < 3 ==> data.attributes[i].location == i)
      && data.attributes[0].comp == 3 && data.attributes[1].comp == 2 && data.attributes[2].comp == 3
      && data.customAttributes == p.buffer.customAttributes && data.uniforms == p.buffer.uniforms
  {
    Flatten3Shape(p.points);
    Flatten3Shape(p.normals);
    FlattenTrisShape(p.tris);
    FlattenPairsShape(p.textureCoordinates);
  }

  /** `updateBuffers()`: the buffer data is rebuilt by `initBuffer`, and
      nothing else about the primitive changes. */
  function UpdateBuffers(p: Prim, alloc: Allocations): (r: Result<Prim>)
    ensures r.Success? <==> InitBuffer(p, alloc).Success?
    ensures r.Failure? ==> r.error == InitBuffer(p, alloc).error
    ensures r.Success? ==> r.value == p.(buffer := InitBuffer(p, alloc).value.0)
    ensures r.Success? ==> r.value.attributes == p.attributes && |r.value.buffer.attributes| == 3
  {
    var (data, _) :- InitBuffer(p, alloc);
    Success(p.(buffer := data))
  }

  /** `updateBuffers` rebuilds the attribute list from the three built-ins,
      so a descriptor registered with `addAttribute` (which goes into
      `attributes`, not `customAttributes`) is dropped while its name stays:
      the registry is no longer consistent. */
  lemma UpdateBuffersDropsAddedAttributes(p: Prim, alloc: Allocations)
    requires RegistryConsistent(p) && |p.attributes| > 3
    requires InitBuffer(p, alloc).Success?
    ensures !RegistryConsistent(UpdateBuffers(p, alloc).value)
  {
  }

  // ---------------------------------------------------------------------
  // Matrices and the light snapshot

  /** The point lights moved into camera space: xyz of view . (p, 1), same
      colour, same order. */
  function MovedLights(view: Mat4, lights: seq<PointLight>): (r: seq<PointLight>)
    ensures |r| == |lights|
    ensures forall i :: 0 <= i < |lights| ==>
      r[i].color == lights[i].color && r[i].position == Xyz(Transform(view, Point(lights[i].position)))
  {
    seq(|lights|, i requires 0 <= i < |lights| =>
      PointLight(Xyz(Transform(view, Point(lights[i].position))), lights[i].color))
  }

  /** `updateMatricies(worldCall)`: the model matrix gl-matrix builds from
      translation, rotation and scale is the input `model`. */
  function UpdateMatrices(p: Prim, w: WorldView, model: Mat4, worldCall: bool): (q: Prim)
    ensures q.modelMatrix == model && q.modelViewMatrix == MatMul(w.view, model)
    ensures worldCall ==> q.movedPointLights == MovedLights(w.view, w.pointLights)
    ensures !worldCall ==> q.movedPointLights == p.movedPointLights
    ensures q.(modelMatrix := p.modelMatrix, modelViewMatrix := p.modelViewMatrix, movedPointLights := p.movedPointLights) == p
  {
    var q := p.(modelMatrix := model, modelViewMatrix := MatMul(w.view, model));
    if worldCall then q.(movedPointLights := MovedLights(w.view, w.pointLights)) else q
  }

  /** With the camera at the origin (identity view) the snapshot is the
      lights themselves and the model-view matrix is the model matrix. */
  lemma IdentityViewSnapshot(p: Prim, w: WorldView, model: Mat4)
    requires w.view == Identity
    ensures UpdateMatrices(p, w, model, true).movedPointLights == w.pointLights
    ensures UpdateMatrices(p, w, model, true).modelViewMatrix == model
  {
    MatMulIdentity(model);
    var r := MovedLights(w.view, w.pointLights);
    forall i | 0 <= i < |w.pointLights|
      ensures r[i] == w.pointLights[i]
    {
      TransformIdentity(Point(w.pointLights[i].position));
    }
  }

  // ---------------------------------------------------------------------
  // The screen bounding box

  datatype Box = Box(x: real, y: real, dx: real, dy: real)

  /** A vertex in clip space: projection . modelView . (v, 1). */
  function Clip(v: Vec3, modelView: Mat4, projection: Mat4): Vec4 {
    Transform(projection, Transform(modelView, Point(v)))
  }

  /** A vertex in front of the camera, divided by w. */
  function Screen(c: Vec4): (real, real)
    requires c.w > 0.0
  {
    (c.x / c.w, c.y / c.w)
  }

  /** The loop of `getBoundingBox`: vertices with w <= 0 are skipped, the
      others kept in order, w-divided. */
  function Visible(points: seq<Vec3>, modelView: Mat4, projection: Mat4): (r: seq<(real, real)>)
    ensures |r| <= |points|
    ensures forall i :: 0 <= i < |points| && Clip(points[i], modelView, projection).w > 0.0 ==>
      Screen(Clip(points[i], modelView, projection)) in r
    ensures forall q :: q in r ==>
      exists i :: && 0 <= i < |points| && Clip(points[i], modelView, projection).w > 0.0
                  && q == Screen(Clip(points[i], modelView, projection))
  {
    if points == [] then []
    else
      var c := Clip(points[0], modelView, projection);
      var rest := Visible(points[1..], modelView, projection);
      assert forall i :: 1 <= i < |points| ==> points[i] == points[1..][i - 1];
      if c.w <= 0.0 then rest else [Screen(c)] + rest
  }

  function MinOf(s: seq<real>): (m: real)
    requires |s| > 0
    ensures m in s && forall v :: v in s ==> m <= v
  {
    if |s| == 1 then s[0]
    else
      var rest := MinOf(s[1..]);
      assert forall v :: v in s ==> v == s[0] || v in s[1..];
      if s[0] <= rest then s[0] else rest
  }

  function MaxOf(s: seq<real>): (m: real)
    requires |s| > 0
    ensures m in s && forall v :: v in s ==> v <= m
  {
    if |s| == 1 then s[0]
    else
      var rest := MaxOf(s[1..]);
      assert forall v :: v in s ==> v == s[0] || v in s[1..];
      if s[0] >= rest then s[0] else rest
  }

  function Xs(vis: seq<(real, real)>): (xs: seq<real>)
    ensures |xs| == |vis| && forall i :: 0 <= i < |vis| ==> xs[i] == vis[i].0
  {
    seq(|vis|, i requires 0 <= i < |vis| => vis[i].0)
  }

  function Ys(vis: seq<(real, real)>): (ys: seq<real>)
    ensures |ys| == |vis| && forall i :: 0 <= i < |vis| ==> ys[i] == vis[i].1
  {
    seq(|vis|, i requires 0 <= i < |vis| => vis[i].1)
  }

  /** The extremes of the coordinate lists bound every point and are each
      reached by some point. */
  lemma ExtremesOf(vis: seq<(real, real)>)
    requires |vis| > 0
    ensures MinOf(Xs(vis)) <= MaxOf(Xs(vis)) && MinOf(Ys(vis)) <= MaxOf(Ys(vis))
    ensures forall q :: q in vis ==>
      MinOf(Xs(vis)) <= q.0 <= MaxOf(Xs(vis)) && MinOf(Ys(vis)) <= q.1 <= MaxOf(Ys(vis))
    ensures exists q :: q in vis && q.0 == MinOf(Xs(vis))
    ensures exists q :: q in vis && q.1 == MinOf(Ys(vis))
    ensures exists q :: q in vis && q.0 == MaxOf(Xs(vis))
    ensures exists q :: q in vis && q.1 == MaxOf(Ys(vis))
  {
    var xs, ys := Xs(vis), Ys(vis);
    assert xs[0] in xs && ys[0] in ys;
    forall q | q in vis
      ensures q.0 in xs && q.1 in ys
    {
      var i :| 0 <= i < |vis| && vis[i] == q;
      assert xs[i] == q.0 && ys[i] == q.1;
    }
    var i1 :| 0 <= i1 < |xs| && xs[i1] == MinOf(xs);
    var i2 :| 0 <= i2 < |ys| && ys[i2] == MinOf(ys);
    var i3 :| 0 <= i3 < |xs| && xs[i3] == MaxOf(xs);
    var i4 :| 0 <= i4 < |ys| && ys[i4] == MaxOf(ys);
    assert vis[i1] in vis && vis[i2] in vis && vis[i3] in vis && vis[i4] in vis;
  }

  /** `getBoundingBox()`: the min/max of the visible vertices' screen
      coordinates, or {0, 0, 0, 0} when no vertex is in front of the camera. */
  function GetBoundingBox(points: seq<Vec3>, modelView: Mat4, projection: Mat4): (b: Box)
    ensures Visible(points, modelView, projection) == [] ==> b == Box(0.0, 0.0, 0.0, 0.0)
    ensures Visible(points, modelView, projection) != [] ==> b.x <= b.dx && b.y <= b.dy
    ensures forall q :: q in Visible(points, modelView, projection) ==> b.x <= q.0 <= b.dx && b.y <= q.1 <= b.dy
    ensures Visible(points, modelView, projection) != [] ==>
      && (exists q :: q in Visible(points, modelView, projection) && q.0 == b.x)
      && (exists q :: q in Visible(points, modelView, projection) && q.1 == b.y)
      && (exists q :: q in Visible(points, modelView, projection) && q.0 == b.dx)
      && (exists q :: q in Visible(points, modelView, projection) && q.1 == b.dy)
  {
    var vis := Visible(points, modelView, projection);
    if |vis| > 0 then
      ExtremesOf(vis);
      Box(MinOf(Xs(vis)), MinOf(Ys(vis)), MaxOf(Xs(vis)), MaxOf(Ys(vis)))
    else Box(0.0, 0.0, 0.0, 0.0)
  }
}
