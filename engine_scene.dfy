/**
  The records of engine/engine.cpp: vertices, faces, models (meshes),
  the window settings and the scene tree. All of them are held by value
  in the source (a group owns its models and child groups in vectors), so
  they are datatypes here, and the tree has no sharing by construction.
  Coordinates are reals: nothing in the engine computes with them.
 */
module Scene {

  datatype Vertex = Vertex(x: real, y: real, z: real)

  /** Three indices into the owning model's vertex list. */
  datatype Face = Face(v1: int, v2: int, v3: int)

  datatype Model = Model(filename: string, vertices: seq<Vertex>, faces: seq<Face>, loaded: bool)

  datatype Window = Window(width: int, height: int)

  datatype Group = Group(models: seq<Model>, childGroups: seq<Group>)

  /** `Model model; model.filename = f;` */
  function NewModel(filename: string): (m: Model)
    ensures m.filename == filename && !m.loaded
    ensures m.vertices == [] && m.faces == []
  {
    Model(filename, [], [], false)
  }

  /** `Window window;` */
  function DefaultWindow(): (w: Window)
    ensures w.width == 800 && w.height == 600
  {
    Window(800, 600)
  }

  /** `Group childGroup;` */
  function EmptyGroup(): (g: Group)
    ensures g.models == [] && g.childGroups == []
  {
    Group([], [])
  }

  predicate FaceInRange(f: Face, n: int)
  {
    0 <= f.v1 < n && 0 <= f.v2 < n && 0 <= f.v3 < n
  }

  /** Every face of `m` indexes `m`'s own vertex list. */
  predicate FacesInRange(m: Model)
  {
    forall f :: f in m.faces ==> FaceInRange(f, |m.vertices|)
  }

  /** The invariant the renderer relies on, over the whole tree. */
  predicate WellFormed(g: Group)
  {
    && (forall m :: m in g.models ==> FacesInRange(m))
    && (forall c :: c in g.childGroups ==> WellFormed(c))
  }

  /** Every model in the tree is loaded. */
  predicate AllLoaded(g: Group)
  {
    && (forall m :: m in g.models ==> m.loaded)
    && (forall c :: c in g.childGroups ==> AllLoaded(c))
  }

  /** `parseGroup(e, group)` only ever pushes onto `group`'s two vectors. */
  function Append(group: Group, more: Group): (r: Group)
    ensures |r.models| == |group.models| + |more.models|
    ensures |r.childGroups| == |group.childGroups| + |more.childGroups|
    ensures r.models[..|group.models|] == group.models
    ensures r.childGroups[..|group.childGroups|] == group.childGroups
  {
    Group(group.models + more.models, group.childGroups + more.childGroups)
  }

  lemma AppendWellFormed(group: Group, more: Group)
    requires WellFormed(group) && WellFormed(more)
    ensures WellFormed(Append(group, more))
  {
  }

  lemma AppendAllLoaded(group: Group, more: Group)
    requires AllLoaded(group) && AllLoaded(more)
    ensures AllLoaded(Append(group, more))
  {
  }
}
