# A verified model of the scene-graph engine

This project models the core of a small OpenGL scene-graph engine in
Dafny. The engine reads a scene document (`world` holding `window`,
`camera` and a tree of `group` elements). Each group names mesh files in
a `models` container. The engine loads every mesh into a list of
deduplicated vertices and a list of faces, then draws the tree once per
frame in immediate mode. A second, simpler parser (`SimpleParser`) walks
the same document but keeps file names only.

The modules:

- `Xml` (xml.dfy) is the slice of the XML reader the engine uses. It holds
  elements, the children of a given name, and attribute queries that keep
  their target when the attribute is missing or does not convert. Files
  are a map from file name to the parse outcome.
- `Cameras` (camera.dfy) is the camera. Its implementation is outside the
  model, so the camera records the setter calls made on it.
- `World` (world.dfy) reads the window size and the camera settings. Both
  parsers read them in the same way.
- `Scene` (engine_scene.dfy) holds the engine's records: `Vertex`, `Face`,
  `Model`, `Window` and `Group`.
- `Dedup` (engine_dedup.dfy) gives reference definitions for vertex
  deduplication by key.
- `MeshLoader` (engine_mesh.dfy) is `loadModel`. `Load` is its
  specification. `LoadModel`, `ReadMesh` and `AddCorners` are the source's
  loops, with the dictionary and `nextIndex`.
- `EngineParser` (engine_parse.dfy) is the engine's `parseGroup`.
- `ParserTypes` (parser_types.dfy) holds the types of engine/parser.h.
- `SimpleParser` (simple_parser.dfy) is `SimpleParser::parseXMLFile` and
  `SimpleParser::parseGroup`.
- `Correspondence` (correspondence.dfy) relates the two parsers' trees.
- `Render` (render.dfy) specifies `renderGroup`. It is a function from a
  tree and the two colour counters to a command log and the counters
  afterwards. It also proves facts about that log: OpenGL accepts it, it
  holds the right number of each command, and what happens to the
  colours between frames.
- `Engine` (engine.dfy) is the engine's global state as one object. It
  holds `parseXMLFile`, `renderGroup` and `processKeys` as methods that
  change that object. Each method is proved against the functions above.

Two details of the code shape the model:

- **Colour counters.** Triangle colours come from two `static int
  colorToggle` counters, one in the face loop (engine/engine.cpp:337) and
  one in the vertex-triple loop (engine/engine.cpp:361). Neither is ever
  reset, so both carry over from one frame to the next, and a face mesh
  followed by a vertex-triple mesh does not continue one alternation.
  The model keeps the two counters as state.
  - `Render.EveryOtherFrame` shows that a frame's log recurs two frames
    later.
  - `Render.SteadyExactlyWhenEven` shows that the next frame repeats a
    frame's log if and only if each branch draws an even number of
    triangles.
  - `Render.SingleTriangleAlternates` shows that a scene of one triangle
    changes colour on every frame.
- **Default camera height.** The engine's `parseXMLFile` gives the camera
  position a default `z` of 5 (engine/engine.cpp:149), while
  `SimpleParser::parseXMLFile` uses 0 (engine/parser.cpp:31).
  `World.CameraCalls` takes the default `z` as a parameter, and each
  parser passes its own value.

## Model

| member | source | states |
|---|---|---|
| Xml.LoadFile | engine/engine.cpp:127-130 | a document comes back exactly when the file exists and parses |
| Xml.ChildrenNamed | engine/engine.cpp:203-216 | the `FirstChildElement`/`NextSiblingElement` walk yields exactly the children of that name: every one it yields is a child with the name, every child with the name is yielded, and it yields nothing exactly when no child has the name |
| Xml.ChildrenNamedConcat | engine/engine.cpp:203-216 | the walk meets the named children in document order: over two runs of children it yields those of the first run, then those of the second |
| Xml.FirstNamed | engine/engine.cpp:133 | `FirstChildElement` finds something exactly when some child has the name; what it finds is a child with the name, the first one the sibling walk yields, and the child at the first index carrying the name |
| Xml.FirstNamedAt | engine/engine.cpp:203-204 | the sibling walk starts at the child with the name that no earlier child carries |
| Xml.Attribute | engine/engine.cpp:205 | present exactly when the attribute exists, and then it is the attribute's text |
| Xml.QueryInt | engine/engine.cpp:142-143 | the target changes only when the attribute is present and converts, and then it takes the converted value |
| Xml.QueryFloat | engine/engine.cpp:281-283 | as `QueryInt`, for floats |
| Xml.QueryFloatIn | engine/engine.cpp:154-159 | a missing element keeps the default |
| Cameras.Camera.SetPosition | engine/engine.cpp:183 | the call is recorded with its arguments, after the earlier calls |
| Cameras.Camera.SetLookAt | engine/engine.cpp:184 | the call is recorded with its arguments |
| Cameras.Camera.SetUp | engine/engine.cpp:185 | the call is recorded with its arguments |
| Cameras.Camera.SetProjection | engine/engine.cpp:186 | the call is recorded with its arguments |
| World.WorldOf | engine/engine.cpp:127-137 | the file loads and has a `world` root exactly when there is a result, and the result is named `world` |
| World.ModelElements | engine/engine.cpp:201-204 | only the first `models` container is read, and no container gives no models |
| World.WindowSize | engine/engine.cpp:140-144 | width and height are each overwritten only by an attribute that is present and converts; otherwise the incoming value is kept |
| World.CameraCalls | engine/engine.cpp:147-187 | no `camera` element gives no setter calls; otherwise there are exactly four, in the order position, look-at, up, projection |
| World.CameraDefaults | engine/engine.cpp:149-152 | a `camera` with none of the four children sets position (0,0,z), look-at (0,0,0), up (0,1,0), fov 60, near 1, far 1000 |
| World.PositionDefault | engine/engine.cpp:149-160 | without a `position` child the position is (0,0,z), whatever the other children hold |
| World.LookAtDefault | engine/engine.cpp:150-166 | without a `lookAt` child the camera looks at (0,0,0), whatever the other children hold |
| World.UpDefault | engine/engine.cpp:151-173 | without an `up` child the up vector is (0,1,0), whatever the other children hold |
| World.ProjectionDefault | engine/engine.cpp:152-180 | without a `projection` child the projection is fov 60, near 1, far 1000, whatever the other children hold |
| World.ProjectionAttributes | engine/engine.cpp:175-180 | inside a `projection` child, each of `fov`, `near` and `far` takes its attribute when present and converting, and its own default otherwise |
| World.ProjectionFovIndependent | engine/parser.cpp:57-62 | the field of view depends only on the `fov` attribute, whatever the other components are |
| World.ApplyCamera | engine/engine.cpp:147-187 | the camera's call log grows by exactly `CameraCalls` |
| World.CallSetters | engine/engine.cpp:182-186 | the four setter calls, in source order, with their arguments |
| World.QueryTriple | engine/engine.cpp:154-159 | each of the three targets is its default unless the element and that attribute are present |
| Scene.NewModel | engine/engine.cpp:207-208 | a new model has the file name, no geometry and is not loaded |
| Scene.DefaultWindow | engine/engine.cpp:46 | a default window is 800 by 600 |
| Scene.EmptyGroup | engine/engine.cpp:223 | a new group has no models and no child groups |
| Scene.Append | engine/engine.cpp:212 | `push_back` keeps what the group already held as a prefix, and the lengths add up |
| Scene.AppendWellFormed | engine/engine.cpp:225 | appending keeps every face index in range |
| Scene.AppendAllLoaded | engine/engine.cpp:212 | appending keeps every model loaded |
| Dedup.Slot | engine/engine.cpp:289-297 | the index of a key is in range exactly when the key has been seen, and the vertex there carries that key |
| Dedup.DistinctKeys | engine/engine.cpp:289-294 | the vertex list never holds two vertices with the same key |
| Dedup.SlotOfVertex | engine/engine.cpp:292-294 | vertex `i` is recorded under index `i`, so indices go 0, 1, 2, … in first-occurrence order |
| Dedup.FirstPointKept | engine/engine.cpp:289-298 | the vertex stored for a key is the first point read with it; later points with that key never replace it |
| Dedup.SlotNotAfter | engine/engine.cpp:289-298 | a key's index is no later than any point carrying it |
| Dedup.FirstOccurrencesFrom | engine/engine.cpp:291 | every stored vertex is one of the points read |
| Dedup.FirstOccurrencesKeys | engine/engine.cpp:289-292 | the stored vertices carry exactly the keys of the points read |
| Dedup.IndexMapSlot | engine/engine.cpp:262-292 | the dictionary maps exactly the keys seen, each to the index of its first vertex |
| Dedup.SlotExtend | engine/engine.cpp:295-298 | reading more points never moves a key that was already seen |
| Dedup.SlotsExtend | engine/engine.cpp:295-298 | the same, for a whole run of corners |
| Dedup.HasKeyConcat | engine/engine.cpp:289 | a key once seen stays seen |
| MeshLoader.Corner | engine/engine.cpp:280-283 | each missing or non-numeric coordinate is 0 |
| MeshLoader.ReadTriangle | engine/engine.cpp:270-274 | a triangle counts exactly when it has at least three `vertex` children, and then it uses the first three in order |
| MeshLoader.TrianglesStep | engine/engine.cpp:269-315 | a complete triangle adds exactly one triangle from its first three vertices; an incomplete one is skipped and later ones are still read |
| MeshLoader.Load | engine/engine.cpp:232-322 | the result is true exactly when the file opens, parses and has a root. A missing file leaves the model untouched. Otherwise the lists are cleared first, so a failure leaves them empty and `loaded` unchanged. Success sets `loaded`, even with no triangles. The file name is kept |
| MeshLoader.LoadModel | engine/engine.cpp:232-322 | the loader's outcome and model are exactly `Load` |
| MeshLoader.ReadMesh | engine/engine.cpp:262-315 | the triangle loop, with its dictionary and `nextIndex`, produces exactly the reference vertex and face lists |
| MeshLoader.AddCorners | engine/engine.cpp:276-298 | for the three corners, the vertex list, the dictionary and `nextIndex == \|vertices\|` stay in step with the reference, and the indices returned are each corner's slot |
| MeshLoader.MeshVertices | engine/engine.cpp:291 | at most three vertices per complete triangle |
| MeshLoader.MeshFaces | engine/engine.cpp:302-309 | one face per complete triangle |
| MeshLoader.MeshFaceCorners | engine/engine.cpp:286-307 | face `t` is triangle `t`: each index is in range and names a vertex with the same key as the matching corner |
| MeshLoader.MeshFacesInRange | engine/engine.cpp:289-307 | after a successful load every face satisfies `0 <= v1, v2, v3 < \|vertices\|` |
| MeshLoader.MeshVertexUsed | engine/engine.cpp:291-294 | every stored vertex is a corner of some face |
| MeshLoader.SameKeySameIndex | engine/engine.cpp:286-298 | two corners with equal keys get the same vertex index |
| MeshLoader.DistinctTriangle | engine/engine.cpp:269-309 | one triangle with three distinct keys gives exactly those three vertices and the face (0, 1, 2) |
| MeshLoader.FacesExtend | engine/engine.cpp:302-307 | faces already built do not change as more triangles are read |
| MeshLoader.LoadFacesInRange | engine/engine.cpp:232-322 | a load, successful or not, keeps every face index of the model in range |
| EngineParser.ModelOf | engine/engine.cpp:205-213 | a `model` element contributes a model exactly when it has a `file` attribute and that file loads; the model carries the file name and is loaded |
| EngineParser.LoadModels | engine/engine.cpp:203-217 | no more models than `model` elements |
| EngineParser.BuildGroup | engine/engine.cpp:221-228 | exactly one child group per `group` child element |
| EngineParser.ParseGroup | engine/engine.cpp:199-229 | the group ends as what it held, followed by the models and child groups the element describes, in document order |
| EngineParser.AddModels | engine/engine.cpp:203-217 | the model loop appends exactly the models that load, in order |
| EngineParser.BuildGroupWellFormed | engine/engine.cpp:199-229 | every model in a built tree is loaded and has its faces in range |
| EngineParser.LoadModelsLoaded | engine/engine.cpp:211-212 | every model kept is loaded and indexes its own vertices |
| ParserTypes.DefaultWindow | engine/parser.h:12 | a default window is 800 by 600 |
| ParserTypes.EmptyGroup | engine/parser.h:22-26 | a new group has no models and no children |
| ParserTypes.Append | engine/parser.cpp:92-103 | `push_back` keeps what the group already held as a prefix |
| SimpleParser.FileModelOf | engine/parser.cpp:88-93 | a `model` element yields one model exactly when it has a `file` attribute, and the model carries that name |
| SimpleParser.FileModels | engine/parser.cpp:86-95 | no more models than `model` elements |
| SimpleParser.Build | engine/parser.cpp:99-105 | exactly one child per `group` child element |
| SimpleParser.FileModelsAll | engine/parser.cpp:84-96 | when every element names a file, each yields exactly one model carrying that name, in document order |
| SimpleParser.FileModelsNone | engine/parser.cpp:88-89 | elements without `file` yield nothing |
| SimpleParser.ParseGroup | engine/parser.cpp:80-81 | a null element changes nothing; otherwise the element's models and children are appended after what the group held |
| SimpleParser.ParseElement | engine/parser.cpp:84-105 | the models of the first container, then one recursively built child per `group` element, appended in document order |
| SimpleParser.AddFileModels | engine/parser.cpp:86-95 | the model loop appends exactly the models with a `file` attribute, in order, and opens no file |
| SimpleParser.ParseXMLFile | engine/parser.cpp:8-78 | the result is true exactly when the file loads and has `world`; on failure nothing changes. On success the window comes from `WindowSize`, the camera receives `CameraCalls` with a default `z` of 0, and only the first `group` is appended to the root group (none leaves it untouched) |
| Correspondence.EraseModels | engine/engine.cpp:32-40 | one file name per model, in order |
| Correspondence.Erase | engine/engine.cpp:50-54 | the engine tree with its geometry dropped keeps the same shape |
| Correspondence.KeepLoadable | engine/engine.cpp:211-213 | keeps only models whose file loads, in order |
| Correspondence.Prune | engine/engine.cpp:199-229 | the parser's tree with unloadable models removed keeps its shape |
| Correspondence.EngineTreeIsPrunedParserTree | engine/engine.cpp:199-229 | the engine's tree, with geometry dropped, is exactly the simple parser's tree with every model whose file does not load removed |
| Correspondence.ModelsCorrespond | engine/engine.cpp:203-217 | the same, for one `models` container |
| Correspondence.ModelCorresponds | engine/engine.cpp:205-213 | the same, for one `model` element |
| Correspondence.KeepLoadableAll | engine/engine.cpp:211-213 | for one list of models: when every named file loads, filtering by loadability keeps the whole list |
| Correspondence.PruneAllLoadable | engine/engine.cpp:199-229 | a parser tree whose every named file loads, in every group, is unchanged by pruning |
| Correspondence.SameTreeWhenAllLoad | engine/engine.cpp:199-229 | when every file the scene names loads, the engine's tree with its geometry dropped is exactly the simple parser's tree |
| Render.FaceTriangles | engine/engine.cpp:335-353 | four commands per face |
| Render.TripleTriangles | engine/engine.cpp:358-378 | four commands per drawn triple |
| Render.DrawModel | engine/engine.cpp:329-381 | an unloaded model emits nothing and leaves the counters; a loaded one is bracketed by glBegin/glEnd |
| Render.FaceTrianglesAt | engine/engine.cpp:335-353 | the `k`-th face is drawn from its own three vertices, in the colour of the face counter plus `k` (orange when even, blue when odd) |
| Render.TripleTrianglesAt | engine/engine.cpp:358-378 | the `j`-th triangle is vertices `3j`, `3j+1`, `3j+2`, in the colour of the triple counter plus `j` |
| Render.DrawGroupRuns | engine/engine.cpp:325-389 | from any state outside glBegin/glEnd, OpenGL accepts the whole log: every glBegin has its glEnd, vertices come only inside them, and every push has its pop |
| Render.RunAppend | engine/engine.cpp:384-388 | running two logs in turn is running their concatenation |
| Render.DrawGroupCount | engine/engine.cpp:325-389 | one glBegin and one glEnd per loaded model, one push and one pop per group below the root, one colour and three vertices per triangle; a faceless model draws ⌊n/3⌋ triangles |
| Render.DrawGroupToggles | engine/engine.cpp:337-367 | each counter advances by exactly the number of triangles its branch drew |
| Render.OwnModelsFirst | engine/engine.cpp:329-388 | a group draws all of its own models, with no push or pop among them, before its children, and its first child starts with a push |
| Render.DrawGroupParity | engine/engine.cpp:337-367 | the log depends only on the counters' parities, and it leaves equal parities equal |
| Render.EveryOtherFrame | engine/engine.cpp:337-361 | because neither counter is reset, the log of a frame recurs two frames later |
| Render.SteadyWhenEven | engine/engine.cpp:337-361 | when each branch draws an even number of triangles, consecutive frames draw the same log |
| Render.SteadyExactlyWhenEven | engine/engine.cpp:337-367 | the next frame draws the same log if and only if each branch draws an even number of triangles |
| Render.ChangesWhenOdd | engine/engine.cpp:337-367 | when some branch draws an odd number of triangles, the next frame's log differs |
| Render.ChangesWhenBothOdd | engine/engine.cpp:337-367 | when both branches draw an odd number of triangles, the next frame draws the same log with every colour swapped |
| Render.ChangesWhenOneOdd | engine/engine.cpp:337-367 | when exactly one branch draws an odd number, the next frame draws a different number of orange triangles |
| Render.DrawGroupPainted | engine/engine.cpp:337-367 | the triangles drawn in a colour are every other value each counter runs through during the frame, starting with the first value when it gives that colour |
| Render.DrawGroupSwap | engine/engine.cpp:337-367 | counters whose parities are both flipped draw the same log with orange and blue exchanged, and leave both parities flipped |
| Render.SwappedChanges | engine/engine.cpp:338-367 | exchanging orange and blue twice restores a log, and changes any log that sets a colour |
| Render.FirstFaceColour | engine/engine.cpp:333-343 | a loaded model with faces starts with glBegin and a triangle in the face counter's colour, and advances that counter by its face count |
| Render.OneModelScene | engine/engine.cpp:325-389 | a one-model scene draws exactly that model |
| Render.SingleTriangleAlternates | engine/engine.cpp:337-343 | a scene of one one-face model swaps its triangle's colour between consecutive frames |
| Engine.Press | engine/engine.cpp:464-474 | 'a'/'A' and only they flip the axes flag; 'l'/'L' and only they flip the wireframe flag |
| Engine.PressTwice | engine/engine.cpp:466-474 | pressing the same key twice restores both flags |
| Engine.PressOneFlag | engine/engine.cpp:465-489 | no key changes both flags |
| Engine.AppendBuilt | engine/engine.cpp:190-193 | appending a parsed group keeps every model loaded and in range |
| Engine.Engine.constructor | engine/engine.cpp:56-62 | the globals start as an 800x600 window, a fresh camera with no calls, an empty scene, both flags off and both counters at 0 |
| Engine.Engine.ParseXMLFile | engine/engine.cpp:125-196 | the result is true exactly when the file loads and has `world`; on failure nothing changes. On success the window comes from `WindowSize`, the camera receives `CameraCalls` with a default `z` of 5, and the first `group` (if any) is appended to the root group, loading its meshes. Flags, counters and the log are unchanged, and a valid scene stays valid |
| Engine.Engine.ReadWindow | engine/engine.cpp:140-144 | the window becomes `WindowSize` of the old one; nothing else changes |
| Engine.Engine.ReadRootGroup | engine/engine.cpp:189-193 | only the first top-level `group` is appended; without one the root group is untouched |
| Engine.Engine.NextFaceColour | engine/engine.cpp:337-343 | emits orange when the face counter is even and blue when odd, then increments only that counter |
| Engine.Engine.NextTripleColour | engine/engine.cpp:361-367 | the same, on the triple counter |
| Engine.Engine.EmitVertices | engine/engine.cpp:350-352 | the three vertex calls, in order |
| Engine.Engine.FaceTriangle | engine/engine.cpp:336-352 | one triangle in the face counter's colour; the face counter goes up by one |
| Engine.Engine.TripleTriangle | engine/engine.cpp:360-376 | one triangle in the triple counter's colour; the triple counter goes up by one |
| Engine.Engine.DrawFaces | engine/engine.cpp:335-353 | the face loop appends `FaceTriangles` and advances the face counter by the number of faces |
| Engine.Engine.DrawTriples | engine/engine.cpp:358-378 | the vertex loop draws ⌊n/3⌋ triangles from consecutive triples, dropping one or two leftovers, and advances the triple counter by ⌊n/3⌋ |
| Engine.Engine.DrawModelOnce | engine/engine.cpp:330-380 | one pass of the model loop appends `DrawModel` and leaves the counters where it says |
| Engine.Engine.DrawModelsLoop | engine/engine.cpp:329-381 | the model loop appends `DrawModels` in order |
| Engine.Engine.RenderGroup | engine/engine.cpp:325-389 | the log grows by exactly `DrawGroup` from the current counters, the counters end where `DrawGroup` leaves them, and the scene is unchanged |
| Engine.Engine.DrawChildrenLoop | engine/engine.cpp:384-388 | each child is drawn between a push and a pop, in order |
| Engine.Engine.RenderScene | engine/engine.cpp:456-457 | drawing a valid scene keeps it valid and appends `DrawGroup` of the root group |
| Engine.Engine.ProcessKeys | engine/engine.cpp:464-474 | the flags become `Press` of the old flags; the window, scene, counters and log are unchanged |

## Left out

- OpenGL and GLUT plumbing is not modelled: `main`, callback registration, `glutMainLoop`, `glClear`, `glPolygonMode`, `camera->place()`, `drawAxes` and `glutSwapBuffers` in `renderScene`, and `glutPostRedisplay` in `processKeys`. Drawing is the command log of `renderGroup` only.
- `changeSize` is not modelled. It computes a float aspect ratio and calls `gluPerspective`; the only logic in it is clamping a zero height to 1.
- The camera's own behaviour is not modelled, because its class is not part of this model. `processKeys`' `w`/`W` and `s`/`S` (zoom) and `processSpecialKeys`' arrow keys (rotate) only call into it, so they are left out.
- Escape's `exit(0)` ends the process and is not modelled.
- Console output (`cout`, `cerr`) is left out: it is observational only.
- File reading is a map from file name to the parse outcome. `ifstream` and the XML reader's text parsing are not modelled.
- The text-to-number conversions of the XML reader are given per attribute (`asInt`, `asFloat`) rather than computed.
- MeshLoader.VertexKey: the key is `to_string` of each coordinate, joined by commas. `to_string` is a parameter (`Show`), so its six-decimal formatting is not modelled. Nothing assumes that distinct points have distinct keys.
- Coordinates are reals, not 32-bit floats. Nothing in the core computes with them.
- MeshLoader.VertexKey: reals have no signed zero and no NaN. `to_string` prints `-0.000000` for a negative zero, so the source keeps (0,0,0) and (-0,0,0) as two vertices where the model, which has one zero, keeps one; a NaN coordinate cannot be written down at all.
- Engine.Engine.NextFaceColour: the counters are unbounded naturals. The source's `int` counters would overflow after 2^31 triangles, and that is not modelled. The same holds for `nextIndex` in MeshLoader.AddCorners.
- Engine.Engine.RenderGroup: requires every face index to be in range. The source indexes the vertex list without checking. Every scene the parser builds meets this requirement (`EngineParser.BuildGroupWellFormed`, `Engine.Engine.Valid`).
- The `SimpleParser` interface's private/public split (engine/parser.h:29-37) is not modelled. Its two functions are the module's `ParseXMLFile` and `ParseGroup`. The window and root group come back as results, and the camera is an object it calls.
- The generator tool is not part of this model.
