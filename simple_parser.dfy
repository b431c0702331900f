/**
  `SimpleParser` of engine/parser.cpp: the same descent over a scene
  document as the engine's, but it keeps file names only and opens no mesh
  file. Its results go out through the `window`, `camera` and `rootGroup`
  parameters; the window and the group are values passed by reference, so
  they come back as results here, while the camera is an object it calls.
 */
module SimpleParser {
  import opened Xml
  import opened Cameras
  import opened World
  import opened ParserTypes

  /** What one `model` element yields: a model named by its `file` attribute, or nothing without one. */
  function FileModelOf(m: Element): (r: seq<Model>)
    ensures |r| <= 1
    ensures r != [] <==> Attribute(m, "file").Some?
    ensures r != [] ==> r[0].filename == m.attrs["file"].text
  {
    match Attribute(m, "file")
    case None => []
    case Some(f) => [Model(f)]
  }

  /** The models a run of `model` elements yields, in order. */
  function FileModels(ms: seq<Element>): (r: seq<Model>)
    ensures |r| <= |ms|
    decreases |ms|
  {
    if ms == [] then [] else FileModels(ms[..|ms| - 1]) + FileModelOf(ms[|ms| - 1])
  }

  /** The group a `group` element describes. */
  function Build(e: Element): (g: Group)
    ensures |g.children| == |ChildrenNamed(e.children, "group")|
    decreases e
  {
    var cs := ChildrenNamed(e.children, "group");
    Group(FileModels(ModelElements(e)), seq(|cs|, i requires 0 <= i < |cs| => assert cs[i] in cs; Build(cs[i])))
  }

  /** `parseGroup(groupElement, group)`: a null element changes nothing. */
  method ParseGroup(e: Option<Element>, group: Group) returns (g: Group)
    ensures e.None? ==> g == group
    ensures e.Some? ==> g == Append(group, Build(e.value))
  {
    if e.None? {
      return group;
    }
    g := ParseElement(e.value, group);
  }

  /** The body of `parseGroup` for an element that is present. */
  method ParseElement(e: Element, group: Group) returns (g: Group)
    ensures g == Append(group, Build(e))
    decreases e
  {
    g := group;
    var modelsElement := FirstNamed(e.children, "models");
    if modelsElement.Some? {
      var models := AddFileModels(ChildrenNamed(modelsElement.value.children, "model"), g.models);
      g := g.(models := models);
    }
    var cs := ChildrenNamed(e.children, "group");
    ghost var children := Build(e).children;
    for j := 0 to |cs|
      invariant g.models == group.models + FileModels(ModelElements(e))
      invariant g.children == group.children + children[..j]
    {
      assert cs[j] in e.children;
      var childGroup := ParseElement(cs[j], EmptyGroup());
      AppendToEmpty(Build(cs[j]));
      assert childGroup == children[j];
      g := g.(children := g.children + [childGroup]);
      SliceStep(children, j);
      ConcatAssoc(group.children, children[..j], [children[j]]);
    }
    assert children[..|cs|] == children;
  }

  /**
    `SimpleParser::parseXMLFile`: fails, changing nothing, when the file
    does not load or has no `world` element; otherwise reads the window,
    drives the camera and seeds `rootGroup` from the first top-level
    `group`, and succeeds.
   */
  method ParseXMLFile(files: Files, filename: string, window: Window, camera: Camera, rootGroup: Group)
    returns (ok: bool, window': Window, rootGroup': Group)
    modifies camera
    ensures ok <==> WorldOf(files, filename).Some?
    ensures !ok ==> window' == window && rootGroup' == rootGroup && camera.calls == old(camera.calls)
    ensures ok ==>
      var world := WorldOf(files, filename).value;
      var size := WindowSize(world, window.width, window.height);
      && window' == Window(size.0, size.1)
      && camera.calls == old(camera.calls) + CameraCalls(world, 0.0)
      && rootGroup' == match FirstNamed(world.children, "group")
                       case None => rootGroup
                       case Some(g) => Append(rootGroup, Build(g))
  {
    window', rootGroup' := window, rootGroup;
    var doc := LoadFile(files, filename);
    if doc.None? {
      return false, window', rootGroup';
    }
    var worldElement := FirstNamed(doc.value.roots, "world");
    if worldElement.None? {
      return false, window', rootGroup';
    }
    var world := worldElement.value;
    var windowElement := FirstNamed(world.children, "window");
    if windowElement.Some? {
      var width := QueryInt(windowElement.value, "width", window'.width);
      var height := QueryInt(windowElement.value, "height", window'.height);
      window' := Window(width, height);
    }
    ApplyCamera(world, 0.0, camera);
    rootGroup' := ParseGroup(FirstNamed(world.children, "group"), rootGroup');
    ok := true;
  }

  /** The `model` loop of `parseGroup`: one model per element with a `file` attribute. */
  method AddFileModels(ms: seq<Element>, models: seq<Model>) returns (r: seq<Model>)
    ensures r == models + FileModels(ms)
  {
    r := models;
    for i := 0 to |ms|
      invariant r == models + FileModels(ms[..i])
    {
      FileModelsStep(ms, i, models);
      var filename := Attribute(ms[i], "file");
      if filename.Some? {
        r := r + [Model(filename.value)];
      }
    }
    assert ms[..|ms|] == ms;
  }

  lemma FileModelsStep(ms: seq<Element>, i: nat, models: seq<Model>)
    requires i < |ms|
    ensures models + FileModels(ms[..i + 1]) == models + FileModels(ms[..i]) + FileModelOf(ms[i])
  {
    assert ms[..i + 1][..i] == ms[..i];
  }

  lemma AppendToEmpty(g: Group)
    ensures Append(EmptyGroup(), g) == g
  {
    assert [] + g.models == g.models;
    assert [] + g.children == g.children;
  }

  /**
    When every `model` element names a file, each yields exactly one model,
    carrying that file name, in document order.
   */
  lemma {:induction false} FileModelsAll(ms: seq<Element>)
    requires forall k :: 0 <= k < |ms| ==> "file" in ms[k].attrs
    ensures |FileModels(ms)| == |ms|
    ensures forall k :: 0 <= k < |ms| ==> FileModels(ms)[k].filename == ms[k].attrs["file"].text
    decreases |ms|
  {
    if ms != [] {
      var init := ms[..|ms| - 1];
      FileModelsAll(init);
    }
  }

  /** `model` elements without a `file` attribute yield nothing. */
  lemma {:induction false} FileModelsNone(ms: seq<Element>)
    requires forall k :: 0 <= k < |ms| ==> "file" !in ms[k].attrs
    ensures FileModels(ms) == []
    decreases |ms|
  {
    if ms != [] {
      FileModelsNone(ms[..|ms| - 1]);
    }
  }
}
