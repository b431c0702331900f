/**
  The scene-tree builder of engine/engine.cpp (`parseGroup`): a recursive
  descent over `group` elements that loads every model named in the first
  `models` container, keeps the models that load, and builds one child
  group per `group` child element, all in document order.
 */
module EngineParser {
  import opened Xml
  import opened Scene
  import opened Dedup
  import opened MeshLoader
  import opened World

  /**
    What one `model` element contributes: the loaded model when the element
    has a `file` attribute and the mesh loads, nothing otherwise.
   */
  function ModelOf(files: Files, key: KeyFn, m: Element): (r: seq<Model>)
    ensures |r| <= 1
    ensures r != [] <==> Attribute(m, "file").Some? && Loadable(files, Attribute(m, "file").value)
    ensures r != [] ==> r[0].filename == Attribute(m, "file").value && r[0].loaded
  {
    match Attribute(m, "file")
    case None => []
    case Some(f) =>
      var loaded := Load(files, key, NewModel(f));
      if loaded.0 then [loaded.1] else []
  }

  /** The models a run of `model` elements contributes, in order. */
  function LoadModels(files: Files, key: KeyFn, ms: seq<Element>): (r: seq<Model>)
    ensures |r| <= |ms|
    decreases |ms|
  {
    if ms == [] then [] else LoadModels(files, key, ms[..|ms| - 1]) + ModelOf(files, key, ms[|ms| - 1])
  }

  /** The group a `group` element describes. */
  function BuildGroup(files: Files, key: KeyFn, e: Element): (g: Group)
    ensures |g.childGroups| == |ChildrenNamed(e.children, "group")|
    decreases e
  {
    var cs := ChildrenNamed(e.children, "group");
    Group(LoadModels(files, key, ModelElements(e)),
          seq(|cs|, i requires 0 <= i < |cs| => assert cs[i] in cs; BuildGroup(files, key, cs[i])))
  }

  /**
    `parseGroup(groupElement, group)`: appends the element's models and
    child groups to `group`, leaving what `group` already held in front.
   */
  method ParseGroup(files: Files, show: Show, e: Element, group: Group) returns (g: Group)
    ensures g == Append(group, BuildGroup(files, SourceKey(show), e))
    decreases e
  {
    ghost var key := SourceKey(show);
    g := group;
    var modelsElement := FirstNamed(e.children, "models");
    if modelsElement.Some? {
      var models := AddModels(files, show, ChildrenNamed(modelsElement.value.children, "model"), g.models);
      g := g.(models := models);
    }
    var cs := ChildrenNamed(e.children, "group");
    ghost var children := BuildGroup(files, key, e).childGroups;
    for j := 0 to |cs|
      invariant g.models == group.models + LoadModels(files, key, ModelElements(e))
      invariant g.childGroups == group.childGroups + children[..j]
    {
      assert cs[j] in e.children;
      var childGroup := ParseGroup(files, show, cs[j], EmptyGroup());
      AppendToEmpty(BuildGroup(files, key, cs[j]));
      assert childGroup == children[j];
      g := g.(childGroups := g.childGroups + [childGroup]);
      SliceStep(children, j);
      ConcatAssoc(group.childGroups, children[..j], [children[j]]);
    }
    assert children[..|cs|] == children;
  }

  /**
    The `model` loop of `parseGroup`: each `model` element with a `file`
    attribute is loaded into a fresh model, which is appended when the load
    succeeds.
   */
  method AddModels(files: Files, show: Show, ms: seq<Element>, models: seq<Model>) returns (r: seq<Model>)
    ensures r == models + LoadModels(files, SourceKey(show), ms)
  {
    r := models;
    for i := 0 to |ms|
      invariant r == models + LoadModels(files, SourceKey(show), ms[..i])
    {
      LoadModelsStep(files, SourceKey(show), ms, i, models);
      var filename := Attribute(ms[i], "file");
      if filename.Some? {
        var ok, model := LoadModel(files, show, NewModel(filename.value));
        if ok {
          r := r + [model];
        } else {
          assert ModelOf(files, SourceKey(show), ms[i]) == [];
        }
      } else {
        assert ModelOf(files, SourceKey(show), ms[i]) == [];
      }
    }
    assert ms[..|ms|] == ms;
  }

  lemma AppendToEmpty(g: Group)
    ensures Append(EmptyGroup(), g) == g
  {
    assert [] + g.models == g.models;
    assert [] + g.childGroups == g.childGroups;
  }

  lemma LoadModelsStep(files: Files, key: KeyFn, ms: seq<Element>, i: nat, models: seq<Model>)
    requires i < |ms|
    ensures models + LoadModels(files, key, ms[..i + 1]) == models + LoadModels(files, key, ms[..i]) + ModelOf(files, key, ms[i])
  {
    assert ms[..i + 1][..i] == ms[..i];
  }

  /** Every model in a built tree is loaded and has its faces in range. */
  lemma {:induction false} BuildGroupWellFormed(files: Files, key: KeyFn, e: Element)
    ensures WellFormed(BuildGroup(files, key, e)) && AllLoaded(BuildGroup(files, key, e))
    decreases e
  {
    var g := BuildGroup(files, key, e);
    LoadModelsLoaded(files, key, ModelElements(e));
    forall c | c in g.childGroups
      ensures WellFormed(c) && AllLoaded(c)
    {
      var cs := ChildrenNamed(e.children, "group");
      var i :| 0 <= i < |g.childGroups| && g.childGroups[i] == c;
      assert cs[i] in e.children;
      BuildGroupWellFormed(files, key, cs[i]);
    }
  }

  /** The models `LoadModels` keeps are loaded and index their own vertices. */
  lemma {:induction false} LoadModelsLoaded(files: Files, key: KeyFn, ms: seq<Element>)
    ensures forall m :: m in LoadModels(files, key, ms) ==> m.loaded && FacesInRange(m)
    decreases |ms|
  {
    if ms != [] {
      var m := ms[|ms| - 1];
      LoadModelsLoaded(files, key, ms[..|ms| - 1]);
      if Attribute(m, "file").Some? {
        LoadFacesInRange(files, key, NewModel(Attribute(m, "file").value));
      }
    }
  }
}
