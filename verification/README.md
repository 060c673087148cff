# Voxel caves and a small WebGL scene library, modelled in Dafny

The repository is a browser toy in TypeScript. It has two parts.

- **Voxel-cave generator** (`cellularAutomata.ts`). It refines a random boolean
  voxel grid with a 3D cellular automaton. It then marches the grid cell by cell
  to produce a triangle soup, and packs that soup into chunks small enough for
  16-bit index buffers.
- **Scene library** (`class.ts`, `utils.ts`).
  - A `Primitive` holds points, triangles, normals and texture coordinates. It
    flattens them into buffers, keeps a registry of attributes and uniforms, and
    assembles the uniform calls of `draw`.
  - A `World` keeps its primitives in a map keyed by uuid.
  - `Cube`, `Plane` and `UIPlane` are fixed meshes.

The old driver `archives/main_old2.ts` contributes three small pure pieces: the
`fill0` text padding, the clip-to-pixel conversions, and the "offscreen" test
for the bounding-box overlay.

The model is functional. Grids are `seq<seq<seq<bool>>>`, a primitive is an
immutable record, and a world is an insertion-ordered list of (uuid, primitive)
pairs, which is what a JavaScript `Map` iterates. In the program the map holds
the object itself, so a change an object makes to itself is visible through the
world. In the model an operation on a primitive returns the new record, and
`Scene.WriteBack` stores it back under its key, in place (`Scene.ShadersLoaded`
does this for the shader callback). GPU objects are opaque
handles. A GPU call that can fail, such as `createBuffer` or
`getUniformLocation`, is an `Option` parameter: `None` stands for the `null`
the backend may return. An operation that throws returns a `Result` carrying
the error text. The triangulation table of `./triangulations` is not part of
this model, so it is a parameter (`Marching.Triangulation`, checked by
`ValidTable`).

Modules and files:

| file | module | models |
|---|---|---|
| wrappers.dfy | Wrappers | `Option`, `Result` |
| geometry.dfy | Geometry | `vec3`/`vec4`/`mat4` values; `transformMat4` and `multiply` |
| utils.dfy | Utils | `rad`, `deg`, `isPowerOf2`, `createBuffer` |
| seqs.dfy | Seqs | flattening a list of tuples (`push(...v)`) and cutting it back |
| automaton.dfy | Automaton | `loopTroughNeigbours`, the survival rule, `refineMap` |
| marching.dfy | Marching | `gfm`, the corner case id, edge midpoints, the x/y/z sweep over the cells |
| packing.dfy | Packing | the chunk packing loop of `updateMesh` |
| primitive.dfy | Primitives | `Primitive`: tables, buffers, registry, `draw`, bounding box, light snapshot |
| world.dfy | Scene | `World.add`/`remove`, `updateValues`, `render`, the `Primitive` constructor |
| meshes.dfy | Meshes | the `Cube`/`Plane` tables and `UIPlane` |
| overlay.dfy | Overlay | `fill0`, `convX`/`convY`, the offscreen test |

Where the code and its description disagree, the model follows the code:

- A chunk holds 21844 triangles, not 65532. The loop counts 3 per triangle
  against `MAX_TRIS` = 65532.
- The light arrays are padded with zeros up to 64 *numbers*, three at a time.
  So their final length is max(3n, 66), not 64 lights. The constant `MAXLIGHT`
  = 32 is never used.
- `addAttribute` registers its buffer in `attributes`, not `customAttributes`.
  The next `updateBuffers` rebuilds `attributes` from scratch and so drops it
  (`Primitives.UpdateBuffersDropsAddedAttributes`).
- `addAttribute` defaults to type FLOAT with normalize `true`. The `draw` helper
  `passArg` defaults normalize to `false`, which applies when the field is
  absent.
- `computeLocations` is also reached from `addAttribute` and `addUniform`,
  which may run before the shaders load. The program is then still `null`, and
  the first `getAttribLocation` or `getUniformLocation` throws a TypeError.
  `Primitives.ComputeLocations` models that throw.
- `new UIPlane(...)` builds its buffers twice. The `Primitive` constructor
  calls `initBuffer`, which already dispatches to `UIPlane.initBuffer` while
  the rectangle fields are unset. The constructor then resets the names and the
  buffer record and calls `updateBuffers` (`Meshes.NewUIPlane`).
- `updateMesh` passes `null` normals to the constructor, so the
  `points.length !== normals.length` check throws a TypeError while reading
  `.length`. `Scene.NewPrimitive` models this path.
- The overlay code calls `get2dScreenBoundingBox`, which `class.ts` does not
  define. `Primitives.GetBoundingBox` (the `getBoundingBox` method) stands in
  for it.
- The `UIPlane` constructor stores `dx` into `this.dy` and `dy` into `this.dx`.
  The quad it uploads matches the rectangle given only when dx = dy
  (`Meshes.UIPlaneSwap`).

## Model

| member | source | states |
|---|---|---|
| Utils.Rad | utils.ts:66 | degrees to radians: 180 maps to π, and the sign and zero are kept |
| Utils.Deg | utils.ts:74 | radians to degrees: π maps to 180, and the sign and zero are kept |
| Utils.DegRad | utils.ts:60-80 | over exact reals `deg(rad(x)) = x` and `rad(deg(x)) = x` |
| Utils.RadAll | utils.ts:64 | the array overload of `rad` maps elementwise, keeping length and order |
| Utils.DegAll | utils.ts:78 | the array overload of `deg` maps elementwise, keeping length and order |
| Utils.DegAllRadAll | utils.ts:60-80 | the array overloads undo each other |
| Utils.Wrap32 | utils.ts:164 | the unsigned 32-bit view of an operand lies in [0, 2^32) and leaves in-range values alone |
| Utils.BitAndSelf | utils.ts:164 | bitwise AND of a value with itself is the value |
| Utils.BitAndZeroLeft | utils.ts:164 | bitwise AND with 0 is 0, the case n = 0 of the test |
| Utils.BitAndPredecessor | utils.ts:164 | for 0 < n < 2^w, `n & (n-1)` is 0 exactly when n is a power of two |
| Utils.IsPowerOf2Correct | utils.ts:164 | `isPowerOf2(0)` holds, and for 0 < n < 2^32 `isPowerOf2(n)` holds iff n is a power of two |
| Utils.CreateBuffer | utils.ts:170-174 | fails iff the backend returns null, with "<name> Buffer is null"; otherwise returns that handle unchanged |
| Automaton.VisitAt | cellularAutomata.ts:186-190 | a neighbour outside the grid is reported as (false, exist = false); one inside as its cell value with exist = true |
| Automaton.OffsetsShape | cellularAutomata.ts:180-184 | 26 offsets in the cube [-1,1]^3, never (0,0,0), strictly increasing in nx, ny, nz order |
| Automaton.NeighbourWalkShape | cellularAutomata.ts:178-193 | the walk visits exactly 26 positions, all distinct from the cell, strictly ordered nx then ny then nz |
| Automaton.WalkLine | cellularAutomata.ts:182-191 | the nz loop appends exactly its row of the reference walk |
| Automaton.WalkPlane | cellularAutomata.ts:181-192 | the ny loop appends exactly its plane of the reference walk |
| Automaton.LoopThroughNeighbours | cellularAutomata.ts:178-195 | the nested loops report exactly the reference walk, and the function returns 0 |
| Automaton.NeighbourCount | cellularAutomata.ts:74-75 | the occupied-neighbour count lies in [0, 26] |
| Automaton.NextCellRule | cellularAutomata.ts:76 | with the walk's return value 0, an occupied cell survives iff count ≥ 13, and an empty cell is born iff 13 ≤ count ≤ 19 |
| Automaton.Step | cellularAutomata.ts:66-79 | a generation keeps the grid dimensions |
| Automaton.StepRule | cellularAutomata.ts:66-79 | every cell of the next generation follows the rule applied to the previous generation (synchronous update) |
| Automaton.Refine | cellularAutomata.ts:60-83 | `iteration` generations keep the grid dimensions |
| Automaton.RefineZero | cellularAutomata.ts:65 | zero iterations return the map unchanged |
| Automaton.RefineAdd | cellularAutomata.ts:60-83 | a generations followed by b generations equal a + b generations |
| Automaton.StepRow | cellularAutomata.ts:72-77 | the z loop builds exactly the next generation's row |
| Automaton.StepPlane | cellularAutomata.ts:70-78 | the y loop builds exactly the next generation's plane |
| Automaton.RefineMap | cellularAutomata.ts:60-83 | the loop returns exactly `iteration` generations of the automaton |
| Marching.Sample | cellularAutomata.ts:92 | `gfm` is false outside [0,mw)×[0,mh)×[0,mt) and reads the cell at mirrored x (mw-1-x) inside |
| Marching.SampleIsMirroredVisit | cellularAutomata.ts:92 | `gfm` agrees with the neighbour walk's bounds-checked reading at the mirrored x |
| Marching.CornerAt | cellularAutomata.ts:93-111 | corner k of a cell samples offset (k mod 2, ⌊k/2⌋ mod 2, ⌊k/4⌋) |
| Marching.IdString | cellularAutomata.ts:112-122 | the id string has 8 characters; character i is the bit of corner 7-i (corner111 first) |
| Marching.CaseIdValue | cellularAutomata.ts:112-124 | parsing the id string in base 2 puts corner000 in bit 0, through corner111 in bit 7 |
| Marching.CaseIdDecodes | cellularAutomata.ts:112-124 | the 8 corners can be read back from the case id |
| Marching.CaseIdRoundTrip | cellularAutomata.ts:112-124 | the id lies in [0,255], decodes to the corners, is 0 for all-empty corners and 255 for all-full |
| Marching.CornersOfRoundTrip | cellularAutomata.ts:112-124 | every byte 0..255 is the id of exactly the corner pattern it encodes |
| Marching.EdgeVertex | cellularAutomata.ts:126-146 | the vertex on an edge is ((c1+c2)/2 − 0.5 + (x+1, y+1, z+1))·l |
| Marching.CellTriangles | cellularAutomata.ts:125-148 | a cell emits one triangle per table triangle of its case, each corner being the midpoint vertex of its edge |
| Marching.EmptyCellCase | cellularAutomata.ts:92-124 | on an all-empty map every cell, in range or not, has case id 0 |
| Marching.GridCellsShape | cellularAutomata.ts:89-91 | the x loop from a given x visits exactly the cells with that x or more up to mw, y and z in [-1, mh] and [-1, mt], in increasing (x, y, z) order |
| Marching.MarchVisitsGrid | cellularAutomata.ts:89-91 | the three loops visit every cell of [-1, mw] x [-1, mh] x [-1, mt] exactly once, x slowest and z fastest: (mw+2)(mh+2)(mt+2) cells |
| Marching.EmptySoup | cellularAutomata.ts:92-148 | on an all-empty map each visited cell emits table entry 0, so a cell list yields its length times that entry's size |
| Marching.EmptyGridMarch | cellularAutomata.ts:89-151 | on an all-empty map the mesh has (mw+2)(mh+2)(mt+2) times entry 0's triangles; with the usual empty entry 0 it has none |
| Packing.Quads | cellularAutomata.ts:164-167 | n triangles get 4n texture-coordinate pairs |
| Packing.QuadsAt | cellularAutomata.ts:164-167 | the pairs repeat (0,0), (1,0), (1,1), (0,1) |
| Packing.ChunksFlatten | cellularAutomata.ts:152-169 | the chunks concatenated give back the triangle list in order |
| Packing.ChunksShape | cellularAutomata.ts:152-169 | there is at least one chunk; every chunk but the last holds 21844 triangles; the last holds at most that and is empty only for an empty input |
| Packing.ChunkIndicesFit | cellularAutomata.ts:157 | three indices per triangle of a chunk stay at most `MAX_TRIS` = 65532 < 65536 |
| Packing.ChunksSplit | cellularAutomata.ts:157-162 | a full chunk is flushed before the next triangle goes in |
| Packing.PackTriangles | cellularAutomata.ts:152-169 | the while loop produces exactly the reference chunking, with one coordinate list per chunk of 4 pairs per triangle |
| Packing.PackingCorrect | cellularAutomata.ts:152-169 | the packed chunks concatenate to the input, all but the last are full, the coordinate lists run in parallel, and the last chunk is empty iff the input is |
| Seqs.Unflatten | class.ts:225 | cutting a flat list gives blocks of the requested width |
| Seqs.FlattenUniformLength | class.ts:225 | flattening n blocks of width w gives n·w numbers |
| Seqs.FlattenAt | class.ts:225 | element j of block i lands at position w·i + j |
| Seqs.UnflattenFlatten | class.ts:225 | cutting the flat list back into width-w blocks recovers the blocks |
| Primitives.DefaultUniformTable | class.ts:80-125 | the 12 built-in uniform entries sit at location i under name i, and exactly the projection, model-view, normal and view-rotation entries use a matrix kind |
| Primitives.Flatten3Shape | class.ts:223-225 | positions flatten to 3 numbers per point, in order, and cut back into the points |
| Primitives.FlattenTrisShape | class.ts:229-231 | indices flatten to 3 numbers per triangle, in order |
| Primitives.FlattenPairsShape | class.ts:235-236 | texture coordinates flatten to 2 numbers per pair, in order |
| Primitives.Wrap16 | class.ts:233 | a `Uint16Array` element lies in [0, 65536) and keeps in-range indices |
| Primitives.PadZerosShape | class.ts:119 | padding keeps the prefix, appends only zeros three at a time, and stops at the first length ≥ 64 |
| Primitives.LightArrayShape | class.ts:119-123 | a light array is the lights' components in order followed by zeros, of length max(3n, 66) |
| Primitives.UniformArgs | class.ts:328-334 | a uniform call's arguments are [location] ++ [false] for matrix kinds only ++ the value |
| Primitives.UniformCalls | class.ts:325-336 | one uniform call per registered entry, in registry order |
| Primitives.DrawTrace | class.ts:310-343 | `draw` issues nothing before `ready`; once ready it uses the program, makes three calls per attribute, activates texture 0, makes one call per uniform entry in table order, and ends by drawing `indexsLength` indices |
| Primitives.UniformLocations | class.ts:276-280 | lookup succeeds iff every uniform name resolves, returning the locations in order; otherwise it throws naming the first unresolved name |
| Primitives.ComputeLocations | class.ts:268-283 | with the program still `null` the first lookup throws a TypeError (an attribute one if there is any attribute name); otherwise it fails iff some uniform name does not resolve; on success both location tables are replaced and nothing else changes |
| Primitives.Relocate | class.ts:268-283 | a throw leaves the primitive untouched; in every case only the two location tables can change |
| Primitives.AddAttribute | class.ts:284-297 | the name is appended and the new entry registered at location length-1, earlier entries unchanged; before the shaders load it throws with the registration kept, afterwards it throws iff a uniform name does not resolve |
| Primitives.AddUniform | class.ts:298-306 | the name is appended and the new uniform registered at location length-1, earlier entries unchanged; before the shaders load it throws with the registration kept, afterwards it throws iff the new or an old uniform name does not resolve |
| Primitives.AddKeepsRegistry | class.ts:284-306 | adding an attribute or a uniform keeps every entry's location equal to its index in the name list |
| Primitives.UniformBoundToOwnName | class.ts:276-282 | after `computeLocations` each uniform entry's location resolves to the location of its own name |
| Primitives.InitBuffer | class.ts:220-267 | fails iff one of the four buffer allocations returns null, reporting the first one in creation order |
| Primitives.InitBufferContents | class.ts:223-266 | uploads the flattened positions, 16-bit indices, coordinates and normals; registers three attributes at locations 0, 1, 2 with 3, 2, 3 components; `indexsLength` = 3·|tris| |
| Primitives.UpdateBuffers | class.ts:307-309 | `updateBuffers` fails with `initBuffer`'s error exactly when it does; otherwise the buffer data becomes `initBuffer`'s (three attributes) and every other field is kept |
| Primitives.UpdateBuffersDropsAddedAttributes | class.ts:246-266 | after `addAttribute`, `updateBuffers` leaves a registry whose attribute list no longer matches its names |
| Primitives.MovedLights | class.ts:168-177 | one moved light per point light, same order and colour, position = xyz of view·(p, 1) |
| Primitives.UpdateMatrices | class.ts:158-178 | modelView = view·model; with `worldCall` the light snapshot is rebuilt, without it untouched; nothing else changes |
| Primitives.IdentityViewSnapshot | class.ts:168-177 | with the identity view the snapshot equals the lights and modelView equals model |
| Primitives.Visible | class.ts:190-199 | exactly the vertices whose projected w > 0 survive, each divided by w |
| Primitives.GetBoundingBox | class.ts:187-219 | the zero box when nothing survives; otherwise the attained minima and maxima of the surviving coordinates, so x ≤ dx and y ≤ dy |
| Scene.Find | class.ts:358 | the map lookup is absent iff the key is not a key, and otherwise returns a stored pair |
| Scene.Put | class.ts:470 | `Map.set` keeps the key order and appends a new key at the end |
| Scene.Delete | class.ts:473 | `Map.delete` keeps only pairs of other keys |
| Scene.PutFind | class.ts:470 | after `set`, the key finds the new primitive and every other key is unaffected |
| Scene.PutUnique | class.ts:470 | `set` keeps the keys unique |
| Scene.DeleteFind | class.ts:473 | after `delete` the key is gone, other keys are unaffected and keys stay unique |
| Scene.DeleteAbsent | class.ts:473 | deleting an absent key changes nothing |
| Scene.DeletePutNew | class.ts:470-473 | deleting a freshly set key restores the map |
| Scene.DeleteAt | class.ts:473 | with unique keys, `delete` of the key at position i removes exactly that entry and keeps the others in their order |
| Scene.AddSpec | class.ts:469-471 | `add` stores the primitive under its uuid, appends a new uuid last, and leaves other entries and the camera alone |
| Scene.RemoveSpec | class.ts:472-474 | `remove` drops the uuid and leaves the other entries with their values and in their order; it does nothing for an unknown id, and it undoes an `add` of a new primitive |
| Scene.UpdateValues | class.ts:406-420 | view = viewRotation·translation, and every object in map order gets the light snapshot of the new view |
| Scene.UpdateValuesMovesLights | class.ts:417-419 | each object's moved lights are the world's point lights moved by the new view |
| Scene.RenderSkipsUnready | class.ts:421-426 | a world of unready primitives issues no draw calls |
| Scene.RenderAddNew | class.ts:421-426 | rendering after `add` issues the old calls followed by the new primitive's |
| Scene.RenderRemove | class.ts:421-426 | rendering after `remove` of the object at position i issues the calls of the objects before it, then those after it, in their old order |
| Scene.NewPrimitive | class.ts:108-153 | null normals throw a TypeError; a length mismatch throws before `world.add`; otherwise the object is added, then its buffers initialised |
| Scene.NewPrimitiveBuilt | class.ts:108-143 | a successful construction leaves the primitive in the world under its uuid with every other entry unchanged and a new uuid last; it holds the given points, triangles, normals, texture coordinates, texture and reflectivity and the built-in names, is not ready, has the built-in uniform table at consistent locations and `indexsLength` = 3·|tris| |
| Scene.OnShadersLoaded | class.ts:144-148 | the program is stored; if locations resolve the primitive is ready with a fresh light snapshot; otherwise it throws with nothing else changed |
| Scene.WriteBack | class.ts:358 | storing an object's new state keeps the view and the key order; a key no longer in the map changes nothing |
| Scene.WriteBackAt | class.ts:358 | the entry at position i takes the new state; every other entry and the order stay |
| Scene.ShadersLoaded | class.ts:144-148 | the callback reaches the world iff the object's uuid is still in the map; the keys and the view stay |
| Scene.ShadersLoadedAt | class.ts:144-148 | the callback rewrites exactly the entry of that object, with the state `OnShadersLoaded` gives it |
| Scene.RenderConcat | class.ts:421-426 | rendering a map split in two renders the two halves one after the other |
| Scene.ShadersLoadedRender | class.ts:144-148 | after the callback, `render` (class.ts:421-426) draws the object's new state at its own position; when no uniform was missing the object is ready and its draw calls are not empty |
| Meshes.CubeVertex | class.ts:481-562 | every cube vertex lies on its face's plane (p·n = 1) with a unit normal |
| Meshes.CubeTriangle | class.ts:518-562 | every cube triangle has indices in [0,24) whose normals agree |
| Meshes.CubeTable | class.ts:478-604 | 24 points, 24 normals, 24 coordinates, 12 triangles with indices in [0,24), all on their face planes |
| Meshes.PlaneTable | class.ts:606-640 | 4 points, normals and coordinates, 2 triangles with indices in [0,4), all on the face plane y = 1 |
| Meshes.PlaneIsCubeTop | class.ts:606-640 | the plane's points and normals are the cube's top face |
| Meshes.UIPlaneFields | class.ts:646-651 | the constructor stores dy in `dx` and dx in `dy` |
| Meshes.ToClip | class.ts:678-679 | pixel 0 maps to clip -1 and the full size to clip 1 |
| Meshes.QuadVertices | class.ts:682-687 | the uploaded quad is 8 numbers |
| Meshes.ToClipInjective | class.ts:678-679 | distinct pixel values give distinct clip values |
| Meshes.UIPlaneSwap | class.ts:648-687 | the uploaded quad matches the given rectangle iff dx = dy |
| Meshes.UIPlaneInitBuffer | class.ts:670-696 | fails iff the quad buffer or the inherited `initBuffer` fails; on success attribute 0 is the 2-component quad and the normal attribute is gone |
| Meshes.UIPlaneRegistry | class.ts:652-696 | the rebuilt UI plane keeps each attribute and uniform at the index of its name |
| Meshes.NewUIPlane | class.ts:641-669 | the object is registered whatever happens; it fails iff either `initBuffer` pass meets a null buffer, with the first pass checked first and, within a pass, the quad buffer before the four `Primitive.initBuffer` buffers; a first-pass throw leaves the fresh object in the world, a second-pass throw the reset one |
| Meshes.NewUIPlaneBuilt | class.ts:641-669 | on success the world's entry under the uuid is the object, other entries unchanged, a new uuid last; its buffers are those of the second pass on the reset object; the rectangle is the swapped one; the registry is consistent and the object is not ready |
| Overlay.NatToString | archives/main_old2.ts:157 | the decimal text of a number is digits only, with no leading zero |
| Overlay.ParseNatToString | archives/main_old2.ts:157 | the decimal text reads back to the number |
| Overlay.Fill0RoundTrip | archives/main_old2.ts:157 | the text starts with "-" iff n < 0 (else " "), and reading it back gives n |
| Overlay.Fill0Width | archives/main_old2.ts:157 | for integer abs(n) ≤ 999 the text is exactly 4 characters |
| Overlay.ToPixels | archives/main_old2.ts:195-196 | clip -1 maps to pixel 0 and clip 1 to the full width or height |
| Overlay.ToPixelsRoundTrip | archives/main_old2.ts:195-196 | `convX`/`convY` and the `UIPlane` clip mapping are inverse to each other for the same size, that is while the canvas is `cw` x `ch` |
| Overlay.OffscreenIgnoresDy | archives/main_old2.ts:190 | the test as written accepts the visible box (0,0,0,0.5) and collapses its overlay |
| Overlay.OverlayRectCorrect | archives/main_old2.ts:188-202 | the corrected test hides exactly the zero box; otherwise the overlay quad lands exactly on the box in clip space |
| Overlay.NothingVisibleIsOffscreen | archives/main_old2.ts:188-190 | a primitive with no vertex in front of the camera is hidden by both tests |

## Left out

- WebGL calls are not modelled: buffer upload, `vertexAttribPointer`, `drawElements`, textures, cube maps, shaders and pre-render instructions. `draw` and `render` return the list of calls they would make (`GlCall`), and allocations are `Option` handles.
- gl-matrix is not modelled: perspective, rotations, translation, scale, invert and transpose. The model, view-rotation and translation matrices are inputs. The normal matrix uniform is a symbolic term. Only `transformMat4` and `multiply` are written out, over exact reals.
- `fetchShaders` and the promise chain are not modelled: they are asynchronous I/O. `Scene.OnShadersLoaded` is the callback, with the program and the location lookups as parameters; `Scene.ShadersLoaded` applies it to the world.
- Meshes.NewUIPlane: the quad of the first `initBuffer` pass is computed from unset fields (NaN in the program) and is replaced before the constructor returns. The model records only that pass's allocations and its possible throw.
- The DOM, canvas text drawing, the keyboard, the mouse and the animation loops of the drivers are not modelled. `main.ts` and `archives/main_old.ts` are driver glue.
- `fillMapWithRandomValues` and `fillMapWithEmptyValues` are not modelled: the first uses `Math.random`, and the grid is an input.
- The interactive block after `updateMesh` in `cellularAutomata.ts` (a `prompt` and the mesh of one case) is driver code.
- `unpackTriVecArray`, `Icosphere` and the contents of `./triangulations` are not part of this model. The table is a parameter, and packing stops at the chunks handed to the constructor.
- Floating point is not modelled: every number is an exact real. Rounding in `rad`/`deg`, the w-division and `convX` is ignored, and NaN and infinities do not occur.
- Utils.Rad: `Math.PI` is the exact real 3.141592653589793, so `deg(rad(x)) = x` holds here but only approximately in the program.
- Overlay.ToPixelsRoundTrip: `convX`/`convY` divide by the constants `cw`/`ch`, while `UIPlane` divides by the canvas's current size. The round trip is stated for one size only. `resize.ts`, which `rh(canvas)` calls, is not part of this model.
- Meshes.ToClip: requires a positive canvas size. The program would divide by zero on an empty canvas.
- Overlay.Fill0RoundTrip: states the result for integer arguments only; the program only passes `Math.floor` values. Numbers of 10^21 and above, which JavaScript prints in exponent form, are not modelled.
- The constructor's `translation`, `scale` and `rotation` fields only feed the model matrix, which is an input. The `world.aspect`, `fov`, `zNear` and `zFar` setters only re-run `updateValues`.
- `Automaton.LoopThroughNeighbours` models the only neighbourhood radius the program uses (xo = yo = zo = 1). Its callback is modelled as the sequence of visits it receives.

## Findings

| source | as written | input that shows it | evidently intended | confidence | as-written member | corrected member |
|---|---|---|---|---|---|---|
| archives/main_old2.ts:190 | `x === 0 && y === 0 && dx === 0 && y === 0` tests `y` twice and never `dy` | the box {x: 0, y: 0, dx: 0, dy: 0.5} of a vertical segment through the screen centre is treated as offscreen and its overlay collapses to nothing | hide the overlay only for the all-zero box that `getBoundingBox` returns when nothing is visible (`dy === 0`) | high, not executed | Overlay.OffscreenIgnoresDy | Overlay.OverlayRectCorrect |
