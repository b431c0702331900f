/**
  The engine's global state and the functions of engine/engine.cpp that
  change it: `parseXMLFile` (which fills the window, drives the camera and
  grows `rootGroup`), `renderGroup` (which emits OpenGL calls and advances
  the two `static int colorToggle` counters) and `processKeys`.

  The globals become the fields of one `Engine` object. OpenGL is the log
  `commands` of the calls `renderGroup` makes; the two counters are the
  fields `faceToggle` and `tripleToggle`, which live as long as the
  program and are never reset.
 */
module Engine {
  import opened Xml
  import opened Scene
  import opened Cameras
  import opened World
  import MeshLoader
  import EngineParser
  import opened Render
  import Dedup

  /** The flags `processKeys` flips: `(showAxes, wireframeMode)`. */
  function Press(key: char, flags: (bool, bool)): (r: (bool, bool))
    ensures r.0 != flags.0 <==> key == 'a' || key == 'A'
    ensures r.1 != flags.1 <==> key == 'l' || key == 'L'
  {
    if key == 'a' || key == 'A' then (!flags.0, flags.1)
    else if key == 'l' || key == 'L' then (flags.0, !flags.1)
    else flags
  }

  /** Pressing the same key twice leaves both flags as they were. */
  lemma PressTwice(key: char, flags: (bool, bool))
    ensures Press(key, Press(key, flags)) == flags
  {
  }

  /** No key changes both flags. */
  lemma PressOneFlag(key: char, flags: (bool, bool))
    ensures Press(key, flags).0 == flags.0 || Press(key, flags).1 == flags.1
  {
  }

  /** Appending a parsed group keeps every model loaded and in range. */
  lemma AppendBuilt(group: Group, files: Files, key: Dedup.KeyFn, e: Element)
    ensures WellFormed(group) && AllLoaded(group) ==>
      var r := Append(group, EngineParser.BuildGroup(files, key, e));
      WellFormed(r) && AllLoaded(r)
  {
    EngineParser.BuildGroupWellFormed(files, key, e);
    if WellFormed(group) && AllLoaded(group) {
      AppendWellFormed(group, EngineParser.BuildGroup(files, key, e));
      AppendAllLoaded(group, EngineParser.BuildGroup(files, key, e));
    }
  }

  lemma TriangleLog(drawn: seq<Cmd>, toggle: nat, a: Vertex, b: Vertex, c: Vertex)
    ensures drawn + [Color(ColourOf(toggle))] + [Vert(a), Vert(b), Vert(c)] == drawn + Triangle(toggle, a, b, c)
  {
  }

  lemma ChildLog(before: seq<Cmd>, r: seq<Cmd>, child: seq<Cmd>)
    ensures before + r + [Push] + child + [Pop] == before + (r + [Push] + child + [Pop])
  {
  }

  class Engine {
    var window: Window
    const camera: Camera
    var rootGroup: Group
    var showAxes: bool
    var wireframeMode: bool
    /** The `colorToggle` of the face branch of `renderGroup`. */
    var faceToggle: nat
    /** The `colorToggle` of the vertex-triple branch of `renderGroup`. */
    var tripleToggle: nat
    /** Every OpenGL call `renderGroup` has made, oldest first. */
    var commands: seq<Cmd>

    /** Every model in the scene is loaded and indexes its own vertices. */
    predicate Valid()
      reads this
    {
      WellFormed(rootGroup) && AllLoaded(rootGroup)
    }

    function Counters(): (t: Toggles)
      reads this
      ensures t.faces == faceToggle && t.triples == tripleToggle
    {
      Toggles(faceToggle, tripleToggle)
    }

    /** The two counters hold `t`. */
    predicate At(t: Toggles)
      reads this
    {
      faceToggle == t.faces && tripleToggle == t.triples
    }

    /** The window, the scene and the flags are as they were. */
    twostate predicate SceneUnchanged()
      reads this
    {
      && window == old(window) && rootGroup == old(rootGroup)
      && showAxes == old(showAxes) && wireframeMode == old(wireframeMode)
    }

    /** The globals before `main` runs: an 800x600 window, an empty scene, both flags off. */
    constructor ()
      ensures window == DefaultWindow() && rootGroup == EmptyGroup()
      ensures !showAxes && !wireframeMode
      ensures faceToggle == 0 && tripleToggle == 0 && commands == []
      ensures fresh(camera) && camera.calls == []
      ensures Valid()
    {
      window := DefaultWindow();
      camera := new Camera();
      rootGroup := EmptyGroup();
      showAxes, wireframeMode := false, false;
      faceToggle, tripleToggle := 0, 0;
      commands := [];
    }

    /**
      `parseXMLFile`: fails, changing nothing, when the file does not load
      or has no `world` element; otherwise reads the window, drives the
      camera (with a default height of 5) and appends the first top-level
      `group` to `rootGroup`, loading its meshes, and succeeds.
     */
    method ParseXMLFile(files: Files, show: MeshLoader.Show, filename: string) returns (ok: bool)
      modifies this, camera
      ensures ok <==> WorldOf(files, filename).Some?
      ensures !ok ==> window == old(window) && rootGroup == old(rootGroup) && camera.calls == old(camera.calls)
      ensures ok ==>
        var world := WorldOf(files, filename).value;
        var size := WindowSize(world, old(window).width, old(window).height);
        && window == Window(size.0, size.1)
        && camera.calls == old(camera.calls) + CameraCalls(world, 5.0)
        && rootGroup == match FirstNamed(world.children, "group")
                        case None => old(rootGroup)
                        case Some(g) => Append(old(rootGroup), EngineParser.BuildGroup(files, MeshLoader.SourceKey(show), g))
      ensures showAxes == old(showAxes) && wireframeMode == old(wireframeMode)
      ensures faceToggle == old(faceToggle) && tripleToggle == old(tripleToggle) && commands == old(commands)
      ensures old(Valid()) ==> Valid()
    {
      var doc := LoadFile(files, filename);
      if doc.None? {
        return false;
      }
      var worldElement := FirstNamed(doc.value.roots, "world");
      if worldElement.None? {
        return false;
      }
      var world := worldElement.value;
      ReadWindow(world);
      ApplyCamera(world, 5.0, camera);
      ReadRootGroup(files, show, world);
      ok := true;
    }

    /** The window section of `parseXMLFile`. */
    method ReadWindow(world: Element)
      modifies this
      ensures var size := WindowSize(world, old(window).width, old(window).height);
        window == Window(size.0, size.1)
      ensures rootGroup == old(rootGroup) && showAxes == old(showAxes) && wireframeMode == old(wireframeMode)
      ensures faceToggle == old(faceToggle) && tripleToggle == old(tripleToggle) && commands == old(commands)
    {
      var windowElement := FirstNamed(world.children, "window");
      if windowElement.Some? {
        var width := QueryInt(windowElement.value, "width", window.width);
        var height := QueryInt(windowElement.value, "height", window.height);
        window := Window(width, height);
      }
    }

    /** The group section of `parseXMLFile`: the first `group` child of `world`, if any. */
    method ReadRootGroup(files: Files, show: MeshLoader.Show, world: Element)
      modifies this
      ensures rootGroup == match FirstNamed(world.children, "group")
                           case None => old(rootGroup)
                           case Some(g) => Append(old(rootGroup), EngineParser.BuildGroup(files, MeshLoader.SourceKey(show), g))
      ensures window == old(window) && showAxes == old(showAxes) && wireframeMode == old(wireframeMode)
      ensures faceToggle == old(faceToggle) && tripleToggle == old(tripleToggle) && commands == old(commands)
      ensures old(Valid()) ==> Valid()
    {
      var groupElement := FirstNamed(world.children, "group");
      if groupElement.Some? {
        ghost var before := rootGroup;
        rootGroup := EngineParser.ParseGroup(files, show, groupElement.value, rootGroup);
        AppendBuilt(before, files, MeshLoader.SourceKey(show), groupElement.value);
      }
    }

    /**
      The `glColor3f` choice of the face branch, orange on an even count and
      blue on an odd one, followed by the `colorToggle++` that goes with it.
     */
    method NextFaceColour()
      modifies this
      ensures commands == old(commands) + [Color(ColourOf(old(faceToggle)))]
      ensures faceToggle == old(faceToggle) + 1 && tripleToggle == old(tripleToggle)
      ensures SceneUnchanged()
    {
      if faceToggle % 2 == 0 {
        commands := commands + [Color(Orange)];
      } else {
        commands := commands + [Color(Blue)];
      }
      faceToggle := faceToggle + 1;
    }

    /** The same block in the vertex-triple branch, on that branch's own counter. */
    method NextTripleColour()
      modifies this
      ensures commands == old(commands) + [Color(ColourOf(old(tripleToggle)))]
      ensures tripleToggle == old(tripleToggle) + 1 && faceToggle == old(faceToggle)
      ensures SceneUnchanged()
    {
      if tripleToggle % 2 == 0 {
        commands := commands + [Color(Orange)];
      } else {
        commands := commands + [Color(Blue)];
      }
      tripleToggle := tripleToggle + 1;
    }

    /** The three `glVertex3f` calls of one triangle. */
    method EmitVertices(a: Vertex, b: Vertex, c: Vertex)
      modifies this
      ensures commands == old(commands) + [Vert(a), Vert(b), Vert(c)]
      ensures faceToggle == old(faceToggle) && tripleToggle == old(tripleToggle)
      ensures SceneUnchanged()
    {
      commands := commands + [Vert(a)];
      commands := commands + [Vert(b)];
      commands := commands + [Vert(c)];
    }

    /** One pass of the face loop: the colour block, then the three vertices. */
    method FaceTriangle(a: Vertex, b: Vertex, c: Vertex)
      modifies this
      ensures commands == old(commands) + Triangle(old(faceToggle), a, b, c)
      ensures faceToggle == old(faceToggle) + 1 && tripleToggle == old(tripleToggle)
      ensures SceneUnchanged()
    {
      ghost var drawn := commands;
      NextFaceColour();
      EmitVertices(a, b, c);
      TriangleLog(drawn, old(faceToggle), a, b, c);
    }

    /** One drawing pass of the vertex loop, on the triple counter. */
    method TripleTriangle(a: Vertex, b: Vertex, c: Vertex)
      modifies this
      ensures commands == old(commands) + Triangle(old(tripleToggle), a, b, c)
      ensures tripleToggle == old(tripleToggle) + 1 && faceToggle == old(faceToggle)
      ensures SceneUnchanged()
    {
      ghost var drawn := commands;
      NextTripleColour();
      EmitVertices(a, b, c);
      TriangleLog(drawn, old(tripleToggle), a, b, c);
    }

    /** The face loop: one triangle per face, coloured by the face counter. */
    method DrawFaces(vs: seq<Vertex>, fs: seq<Face>)
      requires forall f :: f in fs ==> FaceInRange(f, |vs|)
      modifies this
      ensures commands == old(commands) + FaceTriangles(vs, fs, old(faceToggle))
      ensures faceToggle == old(faceToggle) + |fs| && tripleToggle == old(tripleToggle)
      ensures SceneUnchanged()
    {
      var i := 0;
      while i < |fs|
        invariant 0 <= i <= |fs|
        invariant commands == old(commands) + FaceTriangles(vs, fs[..i], old(faceToggle))
        invariant faceToggle == old(faceToggle) + i && tripleToggle == old(tripleToggle)
        invariant SceneUnchanged()
      {
        FaceTrianglesStep(vs, fs, i, old(faceToggle));
        var face := fs[i];
        ghost var done := FaceTriangles(vs, fs[..i], old(faceToggle));
        ghost var drawn := commands;
        FaceTriangle(vs[face.v1], vs[face.v2], vs[face.v3]);
        ghost var tri := Triangle(old(faceToggle) + i, vs[face.v1], vs[face.v2], vs[face.v3]);
        assert commands == drawn + tri;
        ConcatAssoc(old(commands), done, tri);
        i := i + 1;
      }
      assert fs[..|fs|] == fs;
    }

    /**
      The vertex loop: `i` steps by three and a triangle is drawn while
      `i + 2` is still an index, coloured by the triple counter; one or two
      vertices left over are skipped.
     */
    method DrawTriples(vs: seq<Vertex>)
      modifies this
      ensures commands == old(commands) + TripleTriangles(vs, |vs| / 3, old(tripleToggle))
      ensures tripleToggle == old(tripleToggle) + |vs| / 3 && faceToggle == old(faceToggle)
      ensures SceneUnchanged()
    {
      var n := |vs|;
      var i := 0;
      ghost var j := 0;
      ghost var k := 0;
      while i < n
        invariant i == 3 * j && k <= j && 3 * k <= n
        invariant k == j || n < 3 * k + 3
        invariant commands == old(commands) + TripleTriangles(vs, k, old(tripleToggle))
        invariant tripleToggle == old(tripleToggle) + k && faceToggle == old(faceToggle)
        invariant SceneUnchanged()
        decreases n - i
      {
        if i + 2 < n {
          assert k == j;
          ghost var done := TripleTriangles(vs, k, old(tripleToggle));
          ghost var drawn := commands;
          TripleTriangle(vs[i], vs[i + 1], vs[i + 2]);
          ghost var tri := Triangle(old(tripleToggle) + k, vs[i], vs[i + 1], vs[i + 2]);
          assert commands == drawn + tri;
          ConcatAssoc(old(commands), done, tri);
          TripleTrianglesNext(vs, k, old(tripleToggle));
          k := k + 1;
        }
        i := i + 3;
        j := j + 1;
      }
      assert k == n / 3;
    }

    /**
      One pass of the model loop: skips an unloaded model, and otherwise
      brackets the face loop or the vertex loop in glBegin/glEnd.
     */
    method DrawModelOnce(m: Model)
      requires FacesInRange(m)
      modifies this
      ensures commands == old(commands) + DrawModel(m, old(Counters())).cmds
      ensures At(DrawModel(m, old(Counters())).toggles)
      ensures SceneUnchanged()
    {
      if !m.loaded {
        return;
      }
      commands := commands + [Begin];
      if m.faces != [] {
        DrawFaces(m.vertices, m.faces);
      } else {
        DrawTriples(m.vertices);
      }
      commands := commands + [End];
    }

    /** The model loop of `renderGroup`, in order. */
    method DrawModelsLoop(ms: seq<Model>)
      requires forall m :: m in ms ==> FacesInRange(m)
      modifies this
      ensures commands == old(commands) + DrawModels(ms, old(Counters())).cmds
      ensures At(DrawModels(ms, old(Counters())).toggles)
      ensures SceneUnchanged()
    {
      ghost var t := Counters();
      var i := 0;
      while i < |ms|
        invariant 0 <= i <= |ms|
        invariant Drawn(old(commands), DrawModels(ms[..i], t))
        invariant SceneUnchanged()
      {
        DrawModelsStep(ms, i, t);
        ghost var r := DrawModels(ms[..i], t);
        ghost var before := commands;
        assert Counters() == r.toggles;
        DrawModelOnce(ms[i]);
        ghost var d := DrawModel(ms[i], r.toggles);
        assert commands == before + d.cmds && At(d.toggles);
        ConcatAssoc(old(commands), r.cmds, d.cmds);
        i := i + 1;
      }
      assert ms[..|ms|] == ms;
    }

    /** The log is `start` followed by `f`'s commands, and the counters are where `f` leaves them. */
    predicate Drawn(start: seq<Cmd>, f: Frame)
      reads this
    {
      commands == start + f.cmds && At(f.toggles)
    }

    /**
      `renderGroup`: draws the group's models, then each child group between
      glPushMatrix and glPopMatrix. The log grows by `DrawGroup` and the
      counters carry on from where the previous call left them.
     */
    method RenderGroup(g: Group)
      requires WellFormed(g)
      modifies this
      ensures commands == old(commands) + DrawGroup(g, old(Counters())).cmds
      ensures At(DrawGroup(g, old(Counters())).toggles)
      ensures SceneUnchanged()
      decreases g, 1
    {
      ghost var t := Counters();
      DrawModelsLoop(g.models);
      ghost var own := DrawModels(g.models, t);
      assert Counters() == own.toggles;
      DrawChildrenLoop(g);
      ConcatAssoc(old(commands), own.cmds, DrawChildren(g, |g.childGroups|, own.toggles).cmds);
    }

    /** The child loop of `renderGroup`. */
    method DrawChildrenLoop(g: Group)
      requires WellFormed(g)
      modifies this
      ensures commands == old(commands) + DrawChildren(g, |g.childGroups|, old(Counters())).cmds
      ensures At(DrawChildren(g, |g.childGroups|, old(Counters())).toggles)
      ensures SceneUnchanged()
      decreases g, 0
    {
      ghost var t := Counters();
      var j := 0;
      while j < |g.childGroups|
        invariant 0 <= j <= |g.childGroups|
        invariant commands == old(commands) + DrawChildren(g, j, t).cmds
        invariant At(DrawChildren(g, j, t).toggles)
        invariant SceneUnchanged()
      {
        DrawChildStep(g, j + 1, t);
        var childGroup := g.childGroups[j];
        ghost var r := DrawChildren(g, j, t);
        commands := commands + [Push];
        ghost var pushed := commands;
        assert Counters() == r.toggles;
        RenderGroup(childGroup);
        ghost var child := DrawGroup(childGroup, r.toggles);
        assert commands == pushed + child.cmds && At(child.toggles);
        commands := commands + [Pop];
        ChildLog(old(commands), r.cmds, child.cmds);
        j := j + 1;
      }
    }

    /**
      The `renderGroup(rootGroup)` call of `renderScene`: a scene built by
      `ParseXMLFile` satisfies what drawing it needs.
     */
    method RenderScene()
      requires Valid()
      modifies this
      ensures SceneUnchanged() && Valid()
      ensures commands == old(commands) + DrawGroup(rootGroup, old(Counters())).cmds
      ensures At(DrawGroup(rootGroup, old(Counters())).toggles)
    {
      RenderGroup(rootGroup);
    }

    /**
      `processKeys`: a and A flip the axes flag, l and L the wireframe
      flag; no other key touches either.
     */
    method ProcessKeys(key: char)
      modifies this
      ensures (showAxes, wireframeMode) == Press(key, old((showAxes, wireframeMode)))
      ensures window == old(window) && rootGroup == old(rootGroup)
      ensures faceToggle == old(faceToggle) && tripleToggle == old(tripleToggle) && commands == old(commands)
    {
      if key == 'a' || key == 'A' {
        showAxes := !showAxes;
      } else if key == 'l' || key == 'L' {
        wireframeMode := !wireframeMode;
      }
    }
  }
}
