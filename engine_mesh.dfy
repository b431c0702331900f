/**
  The mesh loader of engine/engine.cpp (`loadModel`).

  A mesh document is a root element holding `triangle` elements, each of
  which should hold three `vertex` elements with optional x/y/z
  attributes. The loader keeps one vertex per distinct key, the key being
  the three coordinates printed with `to_string` and joined by commas, and
  one face per complete triangle.

  `Load` says what the loader produces in terms of the reference
  definitions of module `Dedup`; `LoadModel` is the source's loop, with its
  dictionary and its running index, proved equal to it.
 */
module MeshLoader {
  import opened Xml
  import opened Scene
  import opened Dedup

  /** `to_string` on one coordinate. Its number formatting is not modelled. */
  type Show = real -> string

  /** The key of engine/engine.cpp:286: the coordinates printed and joined by commas. */
  function VertexKey(show: Show, v: Vertex): string
  {
    show(v.x) + "," + show(v.y) + "," + show(v.z)
  }

  function SourceKey(show: Show): KeyFn
  {
    v => VertexKey(show, v)
  }

  /** The three corners of a complete triangle, in document order. */
  datatype Triangle = Triangle(a: Vertex, b: Vertex, c: Vertex)

  /** A `vertex` element's point: each missing (or non-numeric) coordinate is 0. */
  function Corner(v: Element): (p: Vertex)
    ensures p.x == if "x" in v.attrs && v.attrs["x"].asFloat.Some? then v.attrs["x"].asFloat.value else 0.0
    ensures p.y == if "y" in v.attrs && v.attrs["y"].asFloat.Some? then v.attrs["y"].asFloat.value else 0.0
    ensures p.z == if "z" in v.attrs && v.attrs["z"].asFloat.Some? then v.attrs["z"].asFloat.value else 0.0
  {
    Vertex(QueryFloat(v, "x", 0.0), QueryFloat(v, "y", 0.0), QueryFloat(v, "z", 0.0))
  }

  /** The first three `vertex` children of a `triangle`, or `None` when it has fewer. */
  function ReadTriangle(t: Element): (r: Option<Triangle>)
    ensures r.Some? <==> |ChildrenNamed(t.children, "vertex")| >= 3
  {
    var vs := ChildrenNamed(t.children, "vertex");
    if |vs| >= 3 then Some(Triangle(Corner(vs[0]), Corner(vs[1]), Corner(vs[2]))) else None
  }

  /** The complete triangles among `tris`, in order; the others are skipped. */
  function Triangles(tris: seq<Element>): (ts: seq<Triangle>)
    ensures |ts| <= |tris|
    decreases |tris|
  {
    if tris == [] then []
    else
      var t := ReadTriangle(tris[|tris| - 1]);
      Triangles(tris[..|tris| - 1]) + if t.Some? then [t.value] else []
  }

  function Corners(t: Triangle): seq<Vertex>
  {
    [t.a, t.b, t.c]
  }

  /** All corner points, three per triangle, in order. */
  function AllCorners(ts: seq<Triangle>): (ps: seq<Vertex>)
    ensures |ps| == 3 * |ts|
    decreases |ts|
  {
    if ts == [] then [] else AllCorners(ts[..|ts| - 1]) + Corners(ts[|ts| - 1])
  }

  /** The face of a triangle: the slots of its three corners' keys in `vs`. */
  function FaceOf(key: KeyFn, vs: seq<Vertex>, t: Triangle): Face
  {
    Face(Slot(key, vs, key(t.a)), Slot(key, vs, key(t.b)), Slot(key, vs, key(t.c)))
  }

  function Faces(key: KeyFn, vs: seq<Vertex>, ts: seq<Triangle>): (fs: seq<Face>)
    ensures |fs| == |ts|
    decreases |ts|
  {
    if ts == [] then [] else Faces(key, vs, ts[..|ts| - 1]) + [FaceOf(key, vs, ts[|ts| - 1])]
  }

  /** The complete triangles of a mesh document's root element. */
  function RootTriangles(root: Element): seq<Triangle>
  {
    Triangles(ChildrenNamed(root.children, "triangle"))
  }

  /** The vertex list a successful load produces: at most three per complete triangle. */
  function MeshVertices(key: KeyFn, root: Element): (vs: seq<Vertex>)
    ensures |vs| <= 3 * |RootTriangles(root)|
  {
    FirstOccurrences(key, AllCorners(RootTriangles(root)))
  }

  /** The face list a successful load produces: one per complete triangle. */
  function MeshFaces(key: KeyFn, root: Element): (fs: seq<Face>)
    ensures |fs| == |RootTriangles(root)|
  {
    Faces(key, MeshVertices(key, root), RootTriangles(root))
  }

  /**
    What `loadModel(model)` returns and what `model` is afterwards. The
    model is untouched when the file cannot be opened; its lists are
    cleared before parsing, so a parse failure or a missing root element
    leaves them empty and `loaded` as it was.
   */
  function Load(files: Files, key: KeyFn, model: Model): (r: (bool, Model))
    ensures r.1.filename == model.filename
    ensures r.0 <==> Loadable(files, model.filename)
    ensures r.0 ==> r.1.loaded
    ensures !r.0 ==> r.1.loaded == model.loaded
    ensures model.filename !in files ==> r.1 == model
    ensures model.filename in files && !r.0 ==> r.1.vertices == [] && r.1.faces == []
  {
    if model.filename !in files then (false, model)
    else
      var cleared := model.(vertices := [], faces := []);
      match files[model.filename]
      case None => (false, cleared)
      case Some(doc) =>
        if doc.roots == [] then (false, cleared)
        else
          var root := doc.roots[0];
          (true, cleared.(vertices := MeshVertices(key, root), faces := MeshFaces(key, root), loaded := true))
  }

  /** A mesh file that `loadModel` accepts: it opens, parses and has a root element. */
  predicate Loadable(files: Files, name: string)
  {
    name in files && files[name].Some? && files[name].value.roots != []
  }

  /**
    `loadModel`: opens and parses the mesh file, clearing the model's lists
    first, then reads the root element's triangles.
   */
  method LoadModel(files: Files, show: Show, model: Model) returns (ok: bool, result: Model)
    ensures (ok, result) == Load(files, SourceKey(show), model)
  {
    if model.filename !in files {
      return false, model;
    }
    result := model.(vertices := [], faces := []);
    var parsed := files[model.filename];
    if parsed.None? {
      return false, result;
    }
    var doc := parsed.value;
    if doc.roots == [] {
      return false, result;
    }
    var vertices, faces := ReadMesh(show, doc.roots[0]);
    result := result.(vertices := vertices, faces := faces, loaded := true);
    ok := true;
  }

  /**
    The triangle loop of `loadModel`: reads the `triangle` children of the
    root one by one, keeping a dictionary from key to vertex index and the
    next free index, and skipping triangles with fewer than three vertices.
   */
  method ReadMesh(show: Show, root: Element) returns (vertices: seq<Vertex>, faces: seq<Face>)
    ensures vertices == MeshVertices(SourceKey(show), root)
    ensures faces == MeshFaces(SourceKey(show), root)
  {
    ghost var key := SourceKey(show);
    var vertexIndices: map<string, int> := map[];
    var nextIndex := 0;
    vertices, faces := [], [];
    var tris := ChildrenNamed(root.children, "triangle");
    var i := 0;
    ghost var done: seq<Triangle> := [];
    while i < |tris|
      invariant 0 <= i <= |tris|
      invariant done == Triangles(tris[..i])
      invariant vertices == FirstOccurrences(key, AllCorners(done))
      invariant nextIndex == |vertices|
      invariant vertexIndices == IndexMap(key, vertices)
      invariant faces == Faces(key, vertices, done)
    {
      TrianglesStep(tris, i);
      var vs := ChildrenNamed(tris[i].children, "vertex");
      if |vs| >= 3 {
        ghost var tri := Triangle(Corner(vs[0]), Corner(vs[1]), Corner(vs[2]));
        var triangleIndices;
        vertices, vertexIndices, nextIndex, triangleIndices :=
          AddCorners(show, [vs[0], vs[1], vs[2]], Corners(tri), AllCorners(done), vertices, vertexIndices, nextIndex);
        FinishTriangle(key, done, tri);
        if |triangleIndices| == 3 {
          faces := faces + [Face(triangleIndices[0], triangleIndices[1], triangleIndices[2])];
        }
        done := done + [tri];
      }
      i := i + 1;
    }
    assert tris[..i] == tris;
  }

  /**
    The inner loop of `loadModel` over the three `vertex` elements of a
    complete triangle, whose points are `cs`: each corner either reuses the index
    recorded for its key or is appended as a new vertex.
   */
  method AddCorners(show: Show, corners: seq<Element>, ghost cs: seq<Vertex>, ghost before: seq<Vertex>,
                    vertices: seq<Vertex>, vertexIndices: map<string, int>, nextIndex: int)
    returns (vertices': seq<Vertex>, vertexIndices': map<string, int>, nextIndex': int, triangleIndices: seq<int>)
    requires |corners| == 3 && cs == [Corner(corners[0]), Corner(corners[1]), Corner(corners[2])]
    requires vertices == FirstOccurrences(SourceKey(show), before)
    requires nextIndex == |vertices|
    requires vertexIndices == IndexMap(SourceKey(show), vertices)
    ensures vertices' == FirstOccurrences(SourceKey(show), before + cs)
    ensures nextIndex' == |vertices'|
    ensures vertexIndices' == IndexMap(SourceKey(show), vertices')
    ensures triangleIndices == Slots(SourceKey(show), vertices', cs)
  {
    ghost var key := SourceKey(show);
    vertices', vertexIndices', nextIndex' := vertices, vertexIndices, nextIndex;
    triangleIndices := [];
    assert before + cs[..0] == before;
    assert forall j :: 0 <= j < 3 ==> cs[j] == Corner(corners[j]);
    for j := 0 to |corners|
      invariant vertices' == FirstOccurrences(key, before + cs[..j])
      invariant nextIndex' == |vertices'|
      invariant vertexIndices' == IndexMap(key, vertices')
      invariant triangleIndices == Slots(key, vertices', cs[..j])
    {
      var p := Corner(corners[j]);
      var k := VertexKey(show, p);
      assert p == cs[j] && k == key(p);
      if k !in vertexIndices' {
        NewCorner(key, before, cs, j);
        vertices' := vertices' + [p];
        vertexIndices' := vertexIndices'[k := nextIndex'];
        triangleIndices := triangleIndices + [nextIndex'];
        nextIndex' := nextIndex' + 1;
      } else {
        SeenCorner(key, before, cs, j);
        triangleIndices := triangleIndices + [vertexIndices'[k]];
      }
    }
    assert cs[..|corners|] == cs;
  }

  // ---------------------------------------------------------------------
  // Steps of the loop

  lemma TrianglesStep(tris: seq<Element>, i: nat)
    requires i < |tris|
    ensures var vs := ChildrenNamed(tris[i].children, "vertex");
      && (|vs| >= 3 ==> Triangles(tris[..i + 1])
                        == Triangles(tris[..i]) + [Triangle(Corner(vs[0]), Corner(vs[1]), Corner(vs[2]))])
      && (|vs| < 3 ==> Triangles(tris[..i + 1]) == Triangles(tris[..i]))
  {
    assert tris[..i + 1][..i] == tris[..i];
  }

  lemma AllCornersAppend(ts: seq<Triangle>, t: Triangle)
    ensures AllCorners(ts + [t]) == AllCorners(ts) + Corners(t)
  {
    assert (ts + [t])[..|ts|] == ts;
  }

  lemma FacesAppend(key: KeyFn, vs: seq<Vertex>, ts: seq<Triangle>, t: Triangle)
    ensures Faces(key, vs, ts + [t]) == Faces(key, vs, ts) + [FaceOf(key, vs, t)]
  {
    assert (ts + [t])[..|ts|] == ts;
  }

  /** A corner whose key is new is appended and takes the next index. */
  lemma NewCorner(key: KeyFn, before: seq<Vertex>, cs: seq<Vertex>, j: nat)
    requires j < |cs|
    requires key(cs[j]) !in IndexMap(key, FirstOccurrences(key, before + cs[..j]))
    ensures FirstOccurrences(key, before + cs[..j + 1]) == FirstOccurrences(key, before + cs[..j]) + [cs[j]]
    ensures IndexMap(key, FirstOccurrences(key, before + cs[..j + 1]))
         == IndexMap(key, FirstOccurrences(key, before + cs[..j]))[key(cs[j]) := |FirstOccurrences(key, before + cs[..j])|]
    ensures Slots(key, FirstOccurrences(key, before + cs[..j + 1]), cs[..j + 1])
         == Slots(key, FirstOccurrences(key, before + cs[..j]), cs[..j]) + [|FirstOccurrences(key, before + cs[..j])|]
  {
    var ps, c := before + cs[..j], cs[j];
    var d := FirstOccurrences(key, ps);
    assert before + cs[..j + 1] == ps + [c];
    assert cs[..j + 1] == cs[..j] + [c];
    assert ps[|ps| - j..] == cs[..j];
    IndexMapSlot(key, d, key(c));
    FirstOccurrencesKeys(key, ps, key(c));
    FirstOccurrencesAppend(key, ps, c);
    IndexMapAppend(key, d, c);
    SlotsAppend(key, d + [c], cs[..j], c);
    SlotsExtend(key, ps, [c], cs[..j]);
    SlotAppend(key, d, c, key(c));
  }

  /** A corner whose key was seen reuses the recorded index. */
  lemma SeenCorner(key: KeyFn, before: seq<Vertex>, cs: seq<Vertex>, j: nat)
    requires j < |cs|
    requires key(cs[j]) in IndexMap(key, FirstOccurrences(key, before + cs[..j]))
    ensures FirstOccurrences(key, before + cs[..j + 1]) == FirstOccurrences(key, before + cs[..j])
    ensures Slots(key, FirstOccurrences(key, before + cs[..j]), cs[..j + 1])
         == Slots(key, FirstOccurrences(key, before + cs[..j]), cs[..j])
          + [IndexMap(key, FirstOccurrences(key, before + cs[..j]))[key(cs[j])]]
  {
    var ps, c := before + cs[..j], cs[j];
    var d := FirstOccurrences(key, ps);
    assert before + cs[..j + 1] == ps + [c];
    assert cs[..j + 1] == cs[..j] + [c];
    IndexMapSlot(key, d, key(c));
    FirstOccurrencesKeys(key, ps, key(c));
    FirstOccurrencesAppend(key, ps, c);
    assert FirstOccurrences(key, ps + [c]) == d;
    SlotsAppend(key, d, cs[..j], c);
  }

  /** After its three corners, a complete triangle contributes its face. */
  lemma FinishTriangle(key: KeyFn, done: seq<Triangle>, t: Triangle)
    ensures AllCorners(done) + Corners(t) == AllCorners(done + [t])
    ensures Faces(key, FirstOccurrences(key, AllCorners(done)), done)
          + [Face(Slots(key, FirstOccurrences(key, AllCorners(done) + Corners(t)), Corners(t))[0],
                  Slots(key, FirstOccurrences(key, AllCorners(done) + Corners(t)), Corners(t))[1],
                  Slots(key, FirstOccurrences(key, AllCorners(done) + Corners(t)), Corners(t))[2])]
         == Faces(key, FirstOccurrences(key, AllCorners(done + [t])), done + [t])
  {
    var cs := Corners(t);
    AllCornersAppend(done, t);
    var vs := FirstOccurrences(key, AllCorners(done + [t]));
    FacesAppend(key, vs, done, t);
    FacesExtend(key, done, cs);
    Slots3(key, vs, t.a, t.b, t.c);
  }

  lemma Slots3(key: KeyFn, vs: seq<Vertex>, a: Vertex, b: Vertex, c: Vertex)
    ensures Slots(key, vs, [a, b, c]) == [Slot(key, vs, key(a)), Slot(key, vs, key(b)), Slot(key, vs, key(c))]
  {
    assert [a, b, c] == [a, b] + [c];
    assert [a, b] == [a] + [b];
    assert [a] == [] + [a];
    SlotsAppend(key, vs, [a, b], c);
    SlotsAppend(key, vs, [a], b);
    SlotsAppend(key, vs, [], a);
  }

  /**
    The faces of triangles already read do not change when more corners
    are read: every corner key they use is already recorded.
   */
  lemma {:induction false} FacesExtend(key: KeyFn, ts: seq<Triangle>, qs: seq<Vertex>)
    ensures Faces(key, FirstOccurrences(key, AllCorners(ts) + qs), ts)
         == Faces(key, FirstOccurrences(key, AllCorners(ts)), ts)
    decreases |ts|
  {
    if ts != [] {
      var init, t := ts[..|ts| - 1], ts[|ts| - 1];
      var before, ps := AllCorners(init), AllCorners(ts);
      assert ts == init + [t];
      AllCornersAppend(init, t);
      assert ps + qs == before + (Corners(t) + qs);
      FacesExtend(key, init, Corners(t) + qs);
      FacesExtend(key, init, Corners(t));
      var vs, vs' := FirstOccurrences(key, ps), FirstOccurrences(key, ps + qs);
      FacesAppend(key, vs, init, t);
      FacesAppend(key, vs', init, t);
      HasKeyAt(key, ps, |before|);
      HasKeyAt(key, ps, |before| + 1);
      HasKeyAt(key, ps, |before| + 2);
      SlotExtend(key, ps, qs, key(t.a));
      SlotExtend(key, ps, qs, key(t.b));
      SlotExtend(key, ps, qs, key(t.c));
    }
  }

  // ---------------------------------------------------------------------
  // What a loaded mesh is

  lemma {:induction false} FacesAt(key: KeyFn, vs: seq<Vertex>, ts: seq<Triangle>, t: nat)
    requires t < |ts|
    ensures Faces(key, vs, ts)[t] == FaceOf(key, vs, ts[t])
    decreases |ts|
  {
    if t < |ts| - 1 {
      FacesAt(key, vs, ts[..|ts| - 1], t);
    }
  }

  lemma {:induction false} CornersAt(ts: seq<Triangle>, t: nat)
    requires t < |ts|
    ensures AllCorners(ts)[3 * t] == ts[t].a
    ensures AllCorners(ts)[3 * t + 1] == ts[t].b
    ensures AllCorners(ts)[3 * t + 2] == ts[t].c
    decreases |ts|
  {
    if t < |ts| - 1 {
      CornersAt(ts[..|ts| - 1], t);
    }
  }

  /** Corner `r` (0, 1 or 2) of a face. */
  function FaceCorner(f: Face, r: nat): int
  {
    if r == 0 then f.v1 else if r == 1 then f.v2 else f.v3
  }

  /** Corner `r` of face `t` is the slot of the key of the `3t+r`-th corner point. */
  lemma FaceCornerSlot(key: KeyFn, vs: seq<Vertex>, ts: seq<Triangle>, t: nat, r: nat)
    requires t < |ts| && r < 3
    ensures FaceCorner(Faces(key, vs, ts)[t], r) == Slot(key, vs, key(AllCorners(ts)[3 * t + r]))
  {
    FacesAt(key, vs, ts, t);
    CornersAt(ts, t);
  }

  /** Each corner point has a vertex: its slot is in range and the vertex there carries its key. */
  lemma CornerHasVertex(key: KeyFn, ps: seq<Vertex>, m: nat)
    requires m < |ps|
    ensures Slot(key, FirstOccurrences(key, ps), key(ps[m])) < |FirstOccurrences(key, ps)|
  {
    HasKeyAt(key, ps, m);
    FirstOccurrencesKeys(key, ps, key(ps[m]));
  }

  /**
    Face `t` of a loaded mesh is triangle `t`: each of its three indices is
    in range and names a vertex with the same key as the matching corner.
   */
  lemma MeshFaceCorners(key: KeyFn, root: Element, t: nat)
    requires t < |MeshFaces(key, root)|
    ensures var vs, f, tri := MeshVertices(key, root), MeshFaces(key, root)[t], RootTriangles(root)[t];
      && FaceInRange(f, |vs|)
      && key(vs[f.v1]) == key(tri.a) && key(vs[f.v2]) == key(tri.b) && key(vs[f.v3]) == key(tri.c)
  {
    var ts := RootTriangles(root);
    var ps := AllCorners(ts);
    var vs := FirstOccurrences(key, ps);
    CornersAt(ts, t);
    FaceCornerSlot(key, vs, ts, t, 0);
    FaceCornerSlot(key, vs, ts, t, 1);
    FaceCornerSlot(key, vs, ts, t, 2);
    CornerHasVertex(key, ps, 3 * t);
    CornerHasVertex(key, ps, 3 * t + 1);
    CornerHasVertex(key, ps, 3 * t + 2);
  }

  /** Every face of a loaded mesh indexes the mesh's own vertex list. */
  lemma MeshFacesInRange(key: KeyFn, root: Element)
    ensures forall f :: f in MeshFaces(key, root) ==> FaceInRange(f, |MeshVertices(key, root)|)
  {
    forall f | f in MeshFaces(key, root)
      ensures FaceInRange(f, |MeshVertices(key, root)|)
    {
      var t :| 0 <= t < |MeshFaces(key, root)| && MeshFaces(key, root)[t] == f;
      MeshFaceCorners(key, root, t);
    }
  }

  /** No vertex is stored for nothing: every vertex is a corner of some face. */
  lemma MeshVertexUsed(key: KeyFn, root: Element, i: nat)
    requires i < |MeshVertices(key, root)|
    ensures exists t, r :: 0 <= t < |MeshFaces(key, root)| && 0 <= r < 3 && FaceCorner(MeshFaces(key, root)[t], r) == i
  {
    var ts := RootTriangles(root);
    var ps := AllCorners(ts);
    var vs := FirstOccurrences(key, ps);
    FirstOccurrencesFrom(key, ps, i);
    var m :| 0 <= m < |ps| && ps[m] == vs[i];
    FaceCornerSlot(key, vs, ts, m / 3, m % 3);
    SlotOfVertex(key, ps, i);
    assert FaceCorner(MeshFaces(key, root)[m / 3], m % 3) == i;
  }

  /**
    A load keeps the faces of the model in range: the loaded mesh has
    in-range faces, and a failed load leaves the lists as they were or empty.
   */
  lemma LoadFacesInRange(files: Files, key: KeyFn, model: Model)
    requires FacesInRange(model)
    ensures FacesInRange(Load(files, key, model).1)
  {
    if Loadable(files, model.filename) {
      MeshFacesInRange(key, files[model.filename].value.roots[0]);
    }
  }

  /**
    Two corners with the same key get the same vertex index, wherever they
    occur in the mesh.
   */
  lemma SameKeySameIndex(key: KeyFn, root: Element, t1: nat, r1: nat, t2: nat, r2: nat)
    requires t1 < |RootTriangles(root)| && t2 < |RootTriangles(root)| && r1 < 3 && r2 < 3
    requires key(Corners(RootTriangles(root)[t1])[r1]) == key(Corners(RootTriangles(root)[t2])[r2])
    ensures FaceCorner(MeshFaces(key, root)[t1], r1) == FaceCorner(MeshFaces(key, root)[t2], r2)
  {
    var ts := RootTriangles(root);
    var vs := MeshVertices(key, root);
    CornerIndex(ts, t1, r1);
    CornerIndex(ts, t2, r2);
    FaceCornerSlot(key, vs, ts, t1, r1);
    FaceCornerSlot(key, vs, ts, t2, r2);
  }

  /** Corner `r` of triangle `t` is corner point `3t + r`. */
  lemma CornerIndex(ts: seq<Triangle>, t: nat, r: nat)
    requires t < |ts| && r < 3
    ensures 3 * t + r < |AllCorners(ts)| && Corners(ts[t])[r] == AllCorners(ts)[3 * t + r]
  {
    CornersAt(ts, t);
  }

  /** A mesh of one triangle whose three corners have distinct keys: three vertices and the face (0, 1, 2). */
  lemma DistinctTriangle(key: KeyFn, root: Element, a: Vertex, b: Vertex, c: Vertex)
    requires RootTriangles(root) == [Triangle(a, b, c)]
    requires key(a) != key(b) && key(a) != key(c) && key(b) != key(c)
    ensures MeshVertices(key, root) == [a, b, c]
    ensures MeshFaces(key, root) == [Face(0, 1, 2)]
  {
    var t := Triangle(a, b, c);
    assert [t][..0] == [];
    assert AllCorners([t]) == [a, b, c];
    assert [a, b, c][..2] == [a, b];
    assert [a, b][..1] == [a];
    assert [a][..0] == [];
    assert FirstOccurrences(key, [a]) == [a];
    assert !HasKey(key, [a], key(b));
    assert FirstOccurrences(key, [a, b]) == [a, b];
    assert !HasKey(key, [a], key(c));
    assert !HasKey(key, [a, b], key(c));
    assert FirstOccurrences(key, [a, b, c]) == [a, b, c];
    assert HasKey(key, [a], key(a)) && HasKey(key, [a, b], key(a));
    assert Slot(key, [a, b, c], key(a)) == 0;
    assert Slot(key, [a, b, c], key(b)) == 1;
    assert Slot(key, [a, b, c], key(c)) == 2;
  }
}
