/**
  What `renderGroup` (engine/engine.cpp) sends to OpenGL, as a log of
  immediate-mode commands, and what it does to its two counters.

  The source keeps one `static int colorToggle` in the loop over faces and
  another, distinct one in the loop over vertex triples. Each counter
  survives across calls and frames and is never reset, and each picks the
  colour of the triangle it is consulted for: orange when even, blue when
  odd. The functions below draw a scene tree from given counter values and
  give back the counters' new values.
 */
module Render {
  import opened Xml
  import opened Scene

  /**
    The two `glColor3f` colours: `Orange` is (0.8, 0.6, 0.2) and `Blue` is
    (0.2, 0.6, 0.8). Only which of the two is set matters here.
   */
  datatype Colour = Orange | Blue

  /** `glBegin(GL_TRIANGLES)`, `glColor3f`, `glVertex3f`, `glEnd`, `glPushMatrix`, `glPopMatrix`. */
  datatype Cmd = Begin | Color(c: Colour) | Vert(v: Vertex) | End | Push | Pop

  /** The two static counters: the face loop's and the vertex-triple loop's. */
  datatype Toggles = Toggles(faces: nat, triples: nat)

  /** The log a drawing step emits and the counters it leaves. */
  datatype Frame = Frame(cmds: seq<Cmd>, toggles: Toggles)

  function ColourOf(toggle: nat): Colour
  {
    if toggle % 2 == 0 then Orange else Blue
  }

  /** One triangle drawn while its counter reads `toggle`. */
  function Triangle(toggle: nat, a: Vertex, b: Vertex, c: Vertex): seq<Cmd>
  {
    [Color(ColourOf(toggle)), Vert(a), Vert(b), Vert(c)]
  }

  /** The face loop: one triangle per face, the counter starting at `toggle`. */
  function FaceTriangles(vs: seq<Vertex>, fs: seq<Face>, toggle: nat): (cmds: seq<Cmd>)
    requires forall f :: f in fs ==> FaceInRange(f, |vs|)
    ensures |cmds| == 4 * |fs|
    decreases |fs|
  {
    if fs == [] then []
    else
      var f := fs[|fs| - 1];
      assert f in fs && FaceInRange(f, |vs|);
      FaceTriangles(vs, fs[..|fs| - 1], toggle) + Triangle(toggle + |fs| - 1, vs[f.v1], vs[f.v2], vs[f.v3])
  }

  /** The first `k` passes of the vertex-triple loop that draw. */
  function TripleTriangles(vs: seq<Vertex>, k: nat, toggle: nat): (cmds: seq<Cmd>)
    requires 3 * k <= |vs|
    ensures |cmds| == 4 * k
  {
    if k == 0 then []
    else
      var i := 3 * (k - 1);
      TripleTriangles(vs, k - 1, toggle) + Triangle(toggle + k - 1, vs[i], vs[i + 1], vs[i + 2])
  }

  /**
    One pass of the model loop. An unloaded model is skipped. A model with
    faces is drawn face by face; one without is drawn from consecutive
    vertex triples, and one or two vertices left over are not drawn.
   */
  function DrawModel(m: Model, t: Toggles): (r: Frame)
    requires FacesInRange(m)
    ensures !m.loaded ==> r.cmds == [] && r.toggles == t
    ensures m.loaded ==> |r.cmds| >= 2 && r.cmds[0] == Begin && r.cmds[|r.cmds| - 1] == End
  {
    if !m.loaded then Frame([], t)
    else if m.faces != [] then
      Frame([Begin] + FaceTriangles(m.vertices, m.faces, t.faces) + [End], t.(faces := t.faces + |m.faces|))
    else
      var k := |m.vertices| / 3;
      Frame([Begin] + TripleTriangles(m.vertices, k, t.triples) + [End], t.(triples := t.triples + k))
  }

  function DrawModels(ms: seq<Model>, t: Toggles): Frame
    requires forall m :: m in ms ==> FacesInRange(m)
    decreases |ms|
  {
    if ms == [] then Frame([], t)
    else
      var r := DrawModels(ms[..|ms| - 1], t);
      var last := DrawModel(ms[|ms| - 1], r.toggles);
      Frame(r.cmds + last.cmds, last.toggles)
  }

  /** `renderGroup(g)`: the group's own models, then each child between a push and a pop. */
  function DrawGroup(g: Group, t: Toggles): Frame
    requires WellFormed(g)
    decreases g, 1
  {
    var own := DrawModels(g.models, t);
    var kids := DrawChildren(g, |g.childGroups|, own.toggles);
    Frame(own.cmds + kids.cmds, kids.toggles)
  }

  /** The first `k` passes of the child loop. */
  function DrawChildren(g: Group, k: nat, t: Toggles): Frame
    requires WellFormed(g) && k <= |g.childGroups|
    decreases g, 0, k
  {
    if k == 0 then Frame([], t)
    else
      var r := DrawChildren(g, k - 1, t);
      var c := g.childGroups[k - 1];
      assert c in g.childGroups;
      var child := DrawGroup(c, r.toggles);
      Frame(r.cmds + [Push] + child.cmds + [Pop], child.toggles)
  }

  // ---------------------------------------------------------------------
  // What OpenGL accepts. A log is accepted when no glBegin is nested, every
  // glEnd closes a glBegin, vertices come only between the two, and the
  // matrix stack is neither pushed nor popped inside glBegin/glEnd nor
  // popped when empty.
  // ---------------------------------------------------------------------

  datatype GlState = GlState(inBegin: bool, depth: nat)

  function Step(s: GlState, c: Cmd): Option<GlState>
  {
    match c
    case Begin => if s.inBegin then None else Some(s.(inBegin := true))
    case End => if s.inBegin then Some(s.(inBegin := false)) else None
    case Color(_) => Some(s)
    case Vert(_) => if s.inBegin then Some(s) else None
    case Push => if s.inBegin then None else Some(s.(depth := s.depth + 1))
    case Pop => if s.inBegin || s.depth == 0 then None else Some(s.(depth := s.depth - 1))
  }

  /** The state after a whole log, or `None` at the first command OpenGL refuses. */
  function Run(s: GlState, cmds: seq<Cmd>): Option<GlState>
    decreases |cmds|
  {
    if cmds == [] then Some(s)
    else
      match Run(s, cmds[..|cmds| - 1])
      case None => None
      case Some(s') => Step(s', cmds[|cmds| - 1])
  }

  function RunAfter(r: Option<GlState>, cmds: seq<Cmd>): Option<GlState>
  {
    match r
    case None => None
    case Some(s) => Run(s, cmds)
  }

  /** Running two logs one after the other is running their concatenation. */
  lemma {:induction false} RunAppend(s: GlState, a: seq<Cmd>, b: seq<Cmd>)
    ensures Run(s, a + b) == RunAfter(Run(s, a), b)
    decreases |b|
  {
    if b == [] {
      assert a + b == a;
    } else {
      var init := b[..|b| - 1];
      assert (a + b)[..|a + b| - 1] == a + init;
      RunAppend(s, a, init);
    }
  }

  lemma TriangleRuns(s: GlState, toggle: nat, a: Vertex, b: Vertex, c: Vertex)
    requires s.inBegin
    ensures Run(s, Triangle(toggle, a, b, c)) == Some(s)
  {
    var cmds := Triangle(toggle, a, b, c);
    assert cmds[..1][..0] == [];
    assert Run(s, cmds[..1]) == Some(s);
    assert cmds[..2][..1] == cmds[..1];
    assert Run(s, cmds[..2]) == Some(s);
    assert cmds[..3][..2] == cmds[..2];
    assert Run(s, cmds[..3]) == Some(s);
  }

  lemma {:induction false} FaceTrianglesRun(s: GlState, vs: seq<Vertex>, fs: seq<Face>, toggle: nat)
    requires forall f :: f in fs ==> FaceInRange(f, |vs|)
    requires s.inBegin
    ensures Run(s, FaceTriangles(vs, fs, toggle)) == Some(s)
    decreases |fs|
  {
    if fs != [] {
      var f := fs[|fs| - 1];
      assert f in fs;
      FaceTrianglesRun(s, vs, fs[..|fs| - 1], toggle);
      RunAppend(s, FaceTriangles(vs, fs[..|fs| - 1], toggle), Triangle(toggle + |fs| - 1, vs[f.v1], vs[f.v2], vs[f.v3]));
      TriangleRuns(s, toggle + |fs| - 1, vs[f.v1], vs[f.v2], vs[f.v3]);
    }
  }

  lemma {:induction false} TripleTrianglesRun(s: GlState, vs: seq<Vertex>, k: nat, toggle: nat)
    requires 3 * k <= |vs|
    requires s.inBegin
    ensures Run(s, TripleTriangles(vs, k, toggle)) == Some(s)
  {
    if k != 0 {
      var i := 3 * (k - 1);
      TripleTrianglesRun(s, vs, k - 1, toggle);
      RunAppend(s, TripleTriangles(vs, k - 1, toggle), Triangle(toggle + k - 1, vs[i], vs[i + 1], vs[i + 2]));
      TriangleRuns(s, toggle + k - 1, vs[i], vs[i + 1], vs[i + 2]);
    }
  }

  /** `[Begin] + body + [End]` is accepted when the body is accepted inside glBegin/glEnd. */
  lemma Bracketed(s: GlState, body: seq<Cmd>)
    requires !s.inBegin
    requires Run(s.(inBegin := true), body) == Some(s.(inBegin := true))
    ensures Run(s, [Begin] + body + [End]) == Some(s)
  {
    RunAppend(s, [Begin], body);
    RunAppend(s, [Begin] + body, [End]);
    assert [Begin][..0] == [];
  }

  /** After an accepted log, `[Push] + body + [Pop]` is accepted when the body is accepted one level deeper. */
  lemma Wrapped(s: GlState, before: seq<Cmd>, body: seq<Cmd>)
    requires !s.inBegin
    requires Run(s, before) == Some(s)
    requires Run(s.(depth := s.depth + 1), body) == Some(s.(depth := s.depth + 1))
    ensures Run(s, before + [Push] + body + [Pop]) == Some(s)
  {
    RunAppend(s, before, [Push]);
    assert [Push][..0] == [];
    RunAppend(s, before + [Push], body);
    RunAppend(s, before + [Push] + body, [Pop]);
    assert [Pop][..0] == [];
  }

  lemma DrawModelRuns(s: GlState, m: Model, t: Toggles)
    requires FacesInRange(m)
    requires !s.inBegin
    ensures Run(s, DrawModel(m, t).cmds) == Some(s)
  {
    var inside := s.(inBegin := true);
    if m.loaded {
      if m.faces != [] {
        FaceTrianglesRun(inside, m.vertices, m.faces, t.faces);
        Bracketed(s, FaceTriangles(m.vertices, m.faces, t.faces));
      } else {
        TripleTrianglesRun(inside, m.vertices, |m.vertices| / 3, t.triples);
        Bracketed(s, TripleTriangles(m.vertices, |m.vertices| / 3, t.triples));
      }
    }
  }

  lemma {:induction false} DrawModelsRuns(s: GlState, ms: seq<Model>, t: Toggles)
    requires forall m :: m in ms ==> FacesInRange(m)
    requires !s.inBegin
    ensures Run(s, DrawModels(ms, t).cmds) == Some(s)
    decreases |ms|
  {
    if ms != [] {
      var r := DrawModels(ms[..|ms| - 1], t);
      DrawModelsRuns(s, ms[..|ms| - 1], t);
      DrawModelRuns(s, ms[|ms| - 1], r.toggles);
      RunAppend(s, r.cmds, DrawModel(ms[|ms| - 1], r.toggles).cmds);
    }
  }

  /**
    Whatever the counters, OpenGL accepts the log `renderGroup` emits from
    any state outside glBegin/glEnd, and the log leaves the matrix stack
    as deep as it found it: every glBegin has its glEnd and every push
    its pop.
   */
  lemma {:induction false} DrawGroupRuns(s: GlState, g: Group, t: Toggles)
    requires WellFormed(g)
    requires !s.inBegin
    ensures Run(s, DrawGroup(g, t).cmds) == Some(s)
    decreases g, 1
  {
    var own := DrawModels(g.models, t);
    DrawModelsRuns(s, g.models, t);
    DrawChildrenRuns(s, g, |g.childGroups|, own.toggles);
    RunAppend(s, own.cmds, DrawChildren(g, |g.childGroups|, own.toggles).cmds);
  }

  lemma {:induction false} DrawChildrenRuns(s: GlState, g: Group, k: nat, t: Toggles)
    requires WellFormed(g) && k <= |g.childGroups|
    requires !s.inBegin
    ensures Run(s, DrawChildren(g, k, t).cmds) == Some(s)
    decreases g, 0, k
  {
    if k != 0 {
      var r := DrawChildren(g, k - 1, t);
      var c := g.childGroups[k - 1];
      assert c in g.childGroups;
      DrawChildrenRuns(s, g, k - 1, t);
      DrawGroupRuns(s.(depth := s.depth + 1), c, r.toggles);
      ChildRuns(s, g, k, t);
    }
  }

  lemma ChildRuns(s: GlState, g: Group, k: nat, t: Toggles)
    requires WellFormed(g) && 0 < k <= |g.childGroups|
    requires !s.inBegin
    requires Run(s, DrawChildren(g, k - 1, t).cmds) == Some(s)
    requires WellFormed(g.childGroups[k - 1])
    requires
      var pushed := s.(depth := s.depth + 1);
      Run(pushed, DrawGroup(g.childGroups[k - 1], DrawChildren(g, k - 1, t).toggles).cmds) == Some(pushed)
    ensures Run(s, DrawChildren(g, k, t).cmds) == Some(s)
  {
    var r := DrawChildren(g, k - 1, t);
    var child := DrawGroup(g.childGroups[k - 1], r.toggles);
    Wrapped(s, r.cmds, child.cmds);
  }

  // ---------------------------------------------------------------------
  // How much a scene tree draws.
  // ---------------------------------------------------------------------

  /**
    Loaded models, groups strictly below the root, triangles drawn from
    faces and triangles drawn from vertex triples.
   */
  datatype Census = Census(models: nat, groups: nat, faceTris: nat, tripleTris: nat)

  function Plus(a: Census, b: Census): Census
  {
    Census(a.models + b.models, a.groups + b.groups, a.faceTris + b.faceTris, a.tripleTris + b.tripleTris)
  }

  function ModelCensus(m: Model): Census
  {
    if !m.loaded then Census(0, 0, 0, 0)
    else if m.faces != [] then Census(1, 0, |m.faces|, 0)
    else Census(1, 0, 0, |m.vertices| / 3)
  }

  function ModelsCensus(ms: seq<Model>): Census
    decreases |ms|
  {
    if ms == [] then Census(0, 0, 0, 0) else Plus(ModelsCensus(ms[..|ms| - 1]), ModelCensus(ms[|ms| - 1]))
  }

  function GroupCensus(g: Group): Census
    decreases g, 1
  {
    Plus(ModelsCensus(g.models), ChildrenCensus(g, |g.childGroups|))
  }

  function ChildrenCensus(g: Group, k: nat): Census
    requires k <= |g.childGroups|
    decreases g, 0, k
  {
    if k == 0 then Census(0, 0, 0, 0)
    else
      assert g.childGroups[k - 1] in g.childGroups;
      Plus(ChildrenCensus(g, k - 1), Plus(Census(0, 1, 0, 0), GroupCensus(g.childGroups[k - 1])))
  }

  datatype Kind = KBegin | KEnd | KColour | KVertex | KPush | KPop

  function KindOf(c: Cmd): Kind
  {
    match c
    case Begin => KBegin
    case End => KEnd
    case Color(_) => KColour
    case Vert(_) => KVertex
    case Push => KPush
    case Pop => KPop
  }

  /** How many commands of a kind a log holds. */
  function Count(cmds: seq<Cmd>, k: Kind): nat
    decreases |cmds|
  {
    if cmds == [] then 0 else Count(cmds[..|cmds| - 1], k) + if KindOf(cmds[|cmds| - 1]) == k then 1 else 0
  }

  /** How many commands of a kind a tree with census `c` should emit. */
  function Expected(c: Census, k: Kind): nat
  {
    match k
    case KBegin => c.models
    case KEnd => c.models
    case KColour => c.faceTris + c.tripleTris
    case KVertex => 3 * (c.faceTris + c.tripleTris)
    case KPush => c.groups
    case KPop => c.groups
  }

  lemma {:induction false} CountAppend(a: seq<Cmd>, b: seq<Cmd>, k: Kind)
    ensures Count(a + b, k) == Count(a, k) + Count(b, k)
    decreases |b|
  {
    if b == [] {
      assert a + b == a;
    } else {
      var init := b[..|b| - 1];
      assert (a + b)[..|a + b| - 1] == a + init;
      CountAppend(a, init, k);
    }
  }

  lemma CountSingle(c: Cmd, k: Kind)
    ensures Count([c], k) == if KindOf(c) == k then 1 else 0
  {
    assert [c][..0] == [];
  }

  lemma TriangleCount(toggle: nat, a: Vertex, b: Vertex, c: Vertex, k: Kind)
    ensures Count(Triangle(toggle, a, b, c), k) == Expected(Census(0, 0, 1, 0), k)
  {
    var cmds := Triangle(toggle, a, b, c);
    var colours := if k == KColour then 1 else 0;
    var vertices := if k == KVertex then 1 else 0;
    CountSingle(cmds[0], k);
    assert cmds[..1] == [cmds[0]];
    assert cmds[..2][..1] == cmds[..1];
    assert Count(cmds[..2], k) == colours + vertices;
    assert cmds[..3][..2] == cmds[..2];
    assert Count(cmds[..3], k) == colours + 2 * vertices;
  }

  lemma {:induction false} FaceTrianglesCount(vs: seq<Vertex>, fs: seq<Face>, toggle: nat, k: Kind)
    requires forall f :: f in fs ==> FaceInRange(f, |vs|)
    ensures Count(FaceTriangles(vs, fs, toggle), k) == Expected(Census(0, 0, |fs|, 0), k)
    decreases |fs|
  {
    if fs != [] {
      var f := fs[|fs| - 1];
      assert f in fs;
      FaceTrianglesCount(vs, fs[..|fs| - 1], toggle, k);
      TriangleCount(toggle + |fs| - 1, vs[f.v1], vs[f.v2], vs[f.v3], k);
      CountAppend(FaceTriangles(vs, fs[..|fs| - 1], toggle), Triangle(toggle + |fs| - 1, vs[f.v1], vs[f.v2], vs[f.v3]), k);
    }
  }

  lemma {:induction false} TripleTrianglesCount(vs: seq<Vertex>, n: nat, toggle: nat, k: Kind)
    requires 3 * n <= |vs|
    ensures Count(TripleTriangles(vs, n, toggle), k) == Expected(Census(0, 0, 0, n), k)
  {
    if n != 0 {
      var i := 3 * (n - 1);
      TripleTrianglesCount(vs, n - 1, toggle, k);
      TriangleCount(toggle + n - 1, vs[i], vs[i + 1], vs[i + 2], k);
      CountAppend(TripleTriangles(vs, n - 1, toggle), Triangle(toggle + n - 1, vs[i], vs[i + 1], vs[i + 2]), k);
    }
  }

  lemma Enclosed(body: seq<Cmd>, c: Census, k: Kind)
    requires Count(body, k) == Expected(c, k)
    requires c.models == 0
    ensures Count([Begin] + body + [End], k) == Expected(c.(models := 1), k)
  {
    CountSingle(Begin, k);
    CountSingle(End, k);
    CountAppend([Begin], body, k);
    CountAppend([Begin] + body, [End], k);
  }

  lemma DrawModelCount(m: Model, t: Toggles, k: Kind)
    requires FacesInRange(m)
    ensures Count(DrawModel(m, t).cmds, k) == Expected(ModelCensus(m), k)
  {
    if m.loaded {
      if m.faces != [] {
        FaceTrianglesCount(m.vertices, m.faces, t.faces, k);
        Enclosed(FaceTriangles(m.vertices, m.faces, t.faces), Census(0, 0, |m.faces|, 0), k);
      } else {
        TripleTrianglesCount(m.vertices, |m.vertices| / 3, t.triples, k);
        Enclosed(TripleTriangles(m.vertices, |m.vertices| / 3, t.triples), Census(0, 0, 0, |m.vertices| / 3), k);
      }
    }
  }

  lemma {:induction false} DrawModelsCount(ms: seq<Model>, t: Toggles, k: Kind)
    requires forall m :: m in ms ==> FacesInRange(m)
    ensures Count(DrawModels(ms, t).cmds, k) == Expected(ModelsCensus(ms), k)
    decreases |ms|
  {
    if ms != [] {
      var r := DrawModels(ms[..|ms| - 1], t);
      DrawModelsCount(ms[..|ms| - 1], t, k);
      DrawModelCount(ms[|ms| - 1], r.toggles, k);
      CountAppend(r.cmds, DrawModel(ms[|ms| - 1], r.toggles).cmds, k);
    }
  }

  /**
    Drawing a tree emits one glBegin and one glEnd per loaded model, one
    push and one pop per group below the root, and one colour and three
    vertices per triangle.
   */
  lemma {:induction false} DrawGroupCount(g: Group, t: Toggles, k: Kind)
    requires WellFormed(g)
    ensures Count(DrawGroup(g, t).cmds, k) == Expected(GroupCensus(g), k)
    decreases g, 1
  {
    var own := DrawModels(g.models, t);
    DrawModelsCount(g.models, t, k);
    DrawChildrenCount(g, |g.childGroups|, own.toggles, k);
    CountAppend(own.cmds, DrawChildren(g, |g.childGroups|, own.toggles).cmds, k);
  }

  lemma {:induction false} DrawChildrenCount(g: Group, n: nat, t: Toggles, k: Kind)
    requires WellFormed(g) && n <= |g.childGroups|
    ensures Count(DrawChildren(g, n, t).cmds, k) == Expected(ChildrenCensus(g, n), k)
    decreases g, 0, n
  {
    if n != 0 {
      var r := DrawChildren(g, n - 1, t);
      var c := g.childGroups[n - 1];
      assert c in g.childGroups;
      DrawChildrenCount(g, n - 1, t, k);
      DrawGroupCount(c, r.toggles, k);
      ChildCount(g, n, t, k);
    }
  }

  lemma ChildCount(g: Group, n: nat, t: Toggles, k: Kind)
    requires WellFormed(g) && 0 < n <= |g.childGroups|
    requires WellFormed(g.childGroups[n - 1])
    requires Count(DrawChildren(g, n - 1, t).cmds, k) == Expected(ChildrenCensus(g, n - 1), k)
    requires Count(DrawGroup(g.childGroups[n - 1], DrawChildren(g, n - 1, t).toggles).cmds, k) == Expected(GroupCensus(g.childGroups[n - 1]), k)
    ensures Count(DrawChildren(g, n, t).cmds, k) == Expected(ChildrenCensus(g, n), k)
  {
    var r := DrawChildren(g, n - 1, t);
    var x := Count(r.cmds, k);
    var e := Expected(ChildrenCensus(g, n - 1), k);
    assert x == e;
    var c := g.childGroups[n - 1];
    var child := DrawGroup(c, r.toggles);
    WrappedCount(r.cmds, child.cmds, k);
    DrawChildStep(g, n, t);
    ChildCensusStep(g, n);
    ExpectedStep(ChildrenCensus(g, n - 1), GroupCensus(c), ChildrenCensus(g, n), k);
    var y := Count(child.cmds, k);
    var d := if k == KPush || k == KPop then 1 else 0;
    assert Count(r.cmds + [Push] + child.cmds + [Pop], k) == x + y + d;
    assert DrawChildren(g, n, t).cmds == r.cmds + [Push] + child.cmds + [Pop];
    assert Expected(ChildrenCensus(g, n), k) == x + y + d;
  }

  lemma DrawChildStep(g: Group, n: nat, t: Toggles)
    requires WellFormed(g) && 0 < n <= |g.childGroups|
    ensures g.childGroups[n - 1] in g.childGroups && WellFormed(g.childGroups[n - 1])
    ensures
      var r := DrawChildren(g, n - 1, t);
      var child := DrawGroup(g.childGroups[n - 1], r.toggles);
      DrawChildren(g, n, t) == Frame(r.cmds + [Push] + child.cmds + [Pop], child.toggles)
  {
  }

  lemma ChildCensusStep(g: Group, n: nat)
    requires 0 < n <= |g.childGroups|
    ensures
      var before := ChildrenCensus(g, n - 1);
      var child := GroupCensus(g.childGroups[n - 1]);
      var after := ChildrenCensus(g, n);
      && after.models == before.models + child.models
      && after.groups == before.groups + 1 + child.groups
      && after.faceTris == before.faceTris + child.faceTris
      && after.tripleTris == before.tripleTris + child.tripleTris
  {
  }

  lemma ExpectedStep(before: Census, child: Census, after: Census, k: Kind)
    requires after.models == before.models + child.models
    requires after.groups == before.groups + 1 + child.groups
    requires after.faceTris == before.faceTris + child.faceTris
    requires after.tripleTris == before.tripleTris + child.tripleTris
    ensures Expected(after, k) == Expected(before, k) + Expected(child, k) + if k == KPush || k == KPop then 1 else 0
  {
  }

  lemma WrappedCount(before: seq<Cmd>, body: seq<Cmd>, k: Kind)
    ensures Count(before + [Push] + body + [Pop], k) == Count(before, k) + Count(body, k) + if k == KPush || k == KPop then 1 else 0
  {
    CountSingle(Push, k);
    CountSingle(Pop, k);
    CountAppend(before, [Push], k);
    CountAppend(before + [Push], body, k);
    CountAppend(before + [Push] + body, [Pop], k);
  }

  /** Each counter advances by the number of triangles its branch drew, whatever its value. */
  lemma {:induction false} DrawGroupToggles(g: Group, t: Toggles)
    requires WellFormed(g)
    ensures DrawGroup(g, t).toggles.faces == t.faces + GroupCensus(g).faceTris
    ensures DrawGroup(g, t).toggles.triples == t.triples + GroupCensus(g).tripleTris
    decreases g, 1
  {
    DrawModelsToggles(g.models, t);
    DrawChildrenToggles(g, |g.childGroups|, DrawModels(g.models, t).toggles);
  }

  lemma {:induction false} DrawModelsToggles(ms: seq<Model>, t: Toggles)
    requires forall m :: m in ms ==> FacesInRange(m)
    ensures DrawModels(ms, t).toggles.faces == t.faces + ModelsCensus(ms).faceTris
    ensures DrawModels(ms, t).toggles.triples == t.triples + ModelsCensus(ms).tripleTris
    decreases |ms|
  {
    if ms != [] {
      DrawModelsToggles(ms[..|ms| - 1], t);
    }
  }

  lemma {:induction false} DrawChildrenToggles(g: Group, n: nat, t: Toggles)
    requires WellFormed(g) && n <= |g.childGroups|
    ensures DrawChildren(g, n, t).toggles.faces == t.faces + ChildrenCensus(g, n).faceTris
    ensures DrawChildren(g, n, t).toggles.triples == t.triples + ChildrenCensus(g, n).tripleTris
    decreases g, 0, n
  {
    if n != 0 {
      var c := g.childGroups[n - 1];
      assert c in g.childGroups;
      var r := DrawChildren(g, n - 1, t);
      DrawChildrenToggles(g, n - 1, t);
      DrawGroupToggles(c, r.toggles);
      DrawChildStep(g, n, t);
      ChildCensusStep(g, n);
    }
  }

  // ---------------------------------------------------------------------
  // Which colour each triangle gets.
  // ---------------------------------------------------------------------

  /** The `k`-th face is drawn from its own three vertices, in the colour of the counter plus `k`. */
  lemma {:induction false} FaceTrianglesAt(vs: seq<Vertex>, fs: seq<Face>, toggle: nat, k: nat)
    requires forall f :: f in fs ==> FaceInRange(f, |vs|)
    requires k < |fs|
    ensures fs[k] in fs
    ensures FaceTriangles(vs, fs, toggle)[4 * k .. 4 * k + 4] == Triangle(toggle + k, vs[fs[k].v1], vs[fs[k].v2], vs[fs[k].v3])
    decreases |fs|
  {
    var init := fs[..|fs| - 1];
    var before := FaceTriangles(vs, init, toggle);
    if k < |fs| - 1 {
      FaceTrianglesAt(vs, init, toggle, k);
      assert FaceTriangles(vs, fs, toggle)[4 * k .. 4 * k + 4] == before[4 * k .. 4 * k + 4];
    }
  }

  /** The `j`-th drawn triple is vertices `3j`, `3j+1`, `3j+2`, in the colour of the counter plus `j`. */
  lemma {:induction false} TripleTrianglesAt(vs: seq<Vertex>, k: nat, toggle: nat, j: nat)
    requires 3 * k <= |vs|
    requires j < k
    ensures TripleTriangles(vs, k, toggle)[4 * j .. 4 * j + 4] == Triangle(toggle + j, vs[3 * j], vs[3 * j + 1], vs[3 * j + 2])
  {
    if j < k - 1 {
      TripleTrianglesAt(vs, k - 1, toggle, j);
      assert TripleTriangles(vs, k, toggle)[4 * j .. 4 * j + 4] == TripleTriangles(vs, k - 1, toggle)[4 * j .. 4 * j + 4];
    }
  }

  lemma {:induction false} ModelsCensusNoGroups(ms: seq<Model>)
    ensures ModelsCensus(ms).groups == 0
    decreases |ms|
  {
    if ms != [] {
      ModelsCensusNoGroups(ms[..|ms| - 1]);
    }
  }

  lemma {:induction false} ChildrenStartWithPush(g: Group, n: nat, t: Toggles)
    requires WellFormed(g) && 0 < n <= |g.childGroups|
    ensures |DrawChildren(g, n, t).cmds| > 0 && DrawChildren(g, n, t).cmds[0] == Push
  {
    DrawChildStep(g, n, t);
    if n > 1 {
      ChildrenStartWithPush(g, n - 1, t);
    }
  }

  /**
    A group draws all of its own models before anything of its children:
    the log starts with the models' commands, which hold no push or pop,
    and a group with children continues with a push.
   */
  lemma OwnModelsFirst(g: Group, t: Toggles)
    requires WellFormed(g)
    ensures
      var own := DrawModels(g.models, t).cmds;
      && own <= DrawGroup(g, t).cmds
      && Count(own, KPush) == 0 && Count(own, KPop) == 0
      && (g.childGroups != [] ==> |DrawGroup(g, t).cmds| > |own| && DrawGroup(g, t).cmds[|own|] == Push)
  {
    var own := DrawModels(g.models, t);
    var kids := DrawChildren(g, |g.childGroups|, own.toggles);
    assert DrawGroup(g, t).cmds == own.cmds + kids.cmds;
    DrawModelsCount(g.models, t, KPush);
    DrawModelsCount(g.models, t, KPop);
    ModelsCensusNoGroups(g.models);
    if g.childGroups != [] {
      ChildrenStartWithPush(g, |g.childGroups|, own.toggles);
    }
  }

  // ---------------------------------------------------------------------
  // The log depends on the counters only through their parities.
  // ---------------------------------------------------------------------

  predicate SameParity(t: Toggles, u: Toggles)
  {
    t.faces % 2 == u.faces % 2 && t.triples % 2 == u.triples % 2
  }

  lemma {:induction false} FaceTrianglesParity(vs: seq<Vertex>, fs: seq<Face>, a: nat, b: nat)
    requires forall f :: f in fs ==> FaceInRange(f, |vs|)
    requires a % 2 == b % 2
    ensures FaceTriangles(vs, fs, a) == FaceTriangles(vs, fs, b)
    decreases |fs|
  {
    if fs != [] {
      FaceTrianglesParity(vs, fs[..|fs| - 1], a, b);
      assert ColourOf(a + |fs| - 1) == ColourOf(b + |fs| - 1);
    }
  }

  lemma {:induction false} TripleTrianglesParity(vs: seq<Vertex>, k: nat, a: nat, b: nat)
    requires 3 * k <= |vs|
    requires a % 2 == b % 2
    ensures TripleTriangles(vs, k, a) == TripleTriangles(vs, k, b)
  {
    if k != 0 {
      var j := k - 1;
      TripleTrianglesParity(vs, j, a, b);
      TripleTrianglesNext(vs, j, a);
      TripleTrianglesNext(vs, j, b);
      ParityShift(a, b, j);
      assert ColourOf(a + j) == ColourOf(b + j);
    }
  }

  lemma ParityShift(a: nat, b: nat, n: nat)
    requires a % 2 == b % 2
    ensures (a + n) % 2 == (b + n) % 2
  {
  }

  lemma DrawModelParity(m: Model, t: Toggles, u: Toggles)
    requires FacesInRange(m)
    requires SameParity(t, u)
    ensures DrawModel(m, t).cmds == DrawModel(m, u).cmds
    ensures SameParity(DrawModel(m, t).toggles, DrawModel(m, u).toggles)
  {
    if m.loaded {
      if m.faces != [] {
        var bt := FaceTriangles(m.vertices, m.faces, t.faces);
        var bu := FaceTriangles(m.vertices, m.faces, u.faces);
        FaceTrianglesParity(m.vertices, m.faces, t.faces, u.faces);
        assert bt == bu;
        assert DrawModel(m, t).cmds == [Begin] + bt + [End];
        assert DrawModel(m, u).cmds == [Begin] + bu + [End];
        ParityShift(t.faces, u.faces, |m.faces|);
      } else {
        var k := |m.vertices| / 3;
        var bt := TripleTriangles(m.vertices, k, t.triples);
        var bu := TripleTriangles(m.vertices, k, u.triples);
        TripleTrianglesParity(m.vertices, k, t.triples, u.triples);
        assert bt == bu;
        assert DrawModel(m, t).cmds == [Begin] + bt + [End];
        assert DrawModel(m, u).cmds == [Begin] + bu + [End];
        ParityShift(t.triples, u.triples, k);
      }
    }
  }

  lemma {:induction false} DrawModelsParity(ms: seq<Model>, t: Toggles, u: Toggles)
    requires forall m :: m in ms ==> FacesInRange(m)
    requires SameParity(t, u)
    ensures DrawModels(ms, t).cmds == DrawModels(ms, u).cmds
    ensures SameParity(DrawModels(ms, t).toggles, DrawModels(ms, u).toggles)
    decreases |ms|
  {
    if ms != [] {
      var init := ms[..|ms| - 1];
      DrawModelsParity(init, t, u);
      DrawModelParity(ms[|ms| - 1], DrawModels(init, t).toggles, DrawModels(init, u).toggles);
    }
  }

  /** Two counter states with the same parities draw the same log and leave the same parities. */
  lemma {:induction false} DrawGroupParity(g: Group, t: Toggles, u: Toggles)
    requires WellFormed(g)
    requires SameParity(t, u)
    ensures DrawGroup(g, t).cmds == DrawGroup(g, u).cmds
    ensures SameParity(DrawGroup(g, t).toggles, DrawGroup(g, u).toggles)
    decreases g, 1
  {
    DrawModelsParity(g.models, t, u);
    DrawChildrenParity(g, |g.childGroups|, DrawModels(g.models, t).toggles, DrawModels(g.models, u).toggles);
  }

  lemma {:induction false} DrawChildrenParity(g: Group, n: nat, t: Toggles, u: Toggles)
    requires WellFormed(g) && n <= |g.childGroups|
    requires SameParity(t, u)
    ensures DrawChildren(g, n, t).cmds == DrawChildren(g, n, u).cmds
    ensures SameParity(DrawChildren(g, n, t).toggles, DrawChildren(g, n, u).toggles)
    decreases g, 0, n
  {
    if n != 0 {
      var c := g.childGroups[n - 1];
      assert c in g.childGroups;
      var rt := DrawChildren(g, n - 1, t);
      var ru := DrawChildren(g, n - 1, u);
      DrawChildrenParity(g, n - 1, t, u);
      DrawGroupParity(c, rt.toggles, ru.toggles);
      DrawChildStep(g, n, t);
      DrawChildStep(g, n, u);
    }
  }

  /** Because the counters are never reset, a frame's log recurs every other frame. */
  lemma EveryOtherFrame(g: Group, t: Toggles)
    requires WellFormed(g)
    ensures
      var second := DrawGroup(g, t).toggles;
      DrawGroup(g, DrawGroup(g, second).toggles).cmds == DrawGroup(g, t).cmds
  {
    var second := DrawGroup(g, t).toggles;
    var third := DrawGroup(g, second).toggles;
    DrawGroupToggles(g, t);
    DrawGroupToggles(g, second);
    DrawGroupParity(g, third, t);
  }

  /** When each branch draws an even number of triangles, every frame draws the same log. */
  lemma SteadyWhenEven(g: Group, t: Toggles)
    requires WellFormed(g)
    requires GroupCensus(g).faceTris % 2 == 0 && GroupCensus(g).tripleTris % 2 == 0
    ensures DrawGroup(g, DrawGroup(g, t).toggles).cmds == DrawGroup(g, t).cmds
  {
    DrawGroupToggles(g, t);
    DrawGroupParity(g, DrawGroup(g, t).toggles, t);
  }

  /** A loaded model with faces starts its log with a triangle in the face counter's colour. */
  lemma FirstFaceColour(m: Model, t: Toggles)
    requires m.loaded && m.faces != [] && FacesInRange(m)
    ensures |DrawModel(m, t).cmds| > 1
    ensures DrawModel(m, t).cmds[1] == Color(ColourOf(t.faces))
    ensures DrawModel(m, t).toggles.faces == t.faces + |m.faces|
  {
    var body := FaceTriangles(m.vertices, m.faces, t.faces);
    FaceTrianglesAt(m.vertices, m.faces, t.faces, 0);
    assert body[0] == body[0..4][0];
    assert DrawModel(m, t).cmds == [Begin] + body + [End];
  }

  /** A scene of one model draws exactly that model. */
  lemma OneModelScene(m: Model, t: Toggles)
    requires FacesInRange(m)
    ensures WellFormed(Group([m], []))
    ensures DrawGroup(Group([m], []), t).cmds == DrawModel(m, t).cmds
    ensures DrawGroup(Group([m], []), t).toggles == DrawModel(m, t).toggles
  {
    assert [m][..0] == [];
    assert DrawModels([m], t) == DrawModel(m, t);
  }

  /**
    A scene of a single one-face model swaps its triangle's colour every
    frame: the face counter carries over from the previous frame.
   */
  lemma SingleTriangleAlternates(m: Model, t: Toggles)
    requires m.loaded && |m.faces| == 1 && FacesInRange(m)
    ensures WellFormed(Group([m], []))
    ensures
      var g := Group([m], []);
      var first := DrawGroup(g, t);
      && first.cmds[1] == Color(ColourOf(t.faces))
      && DrawGroup(g, first.toggles).cmds[1] == Color(ColourOf(t.faces + 1))
      && ColourOf(t.faces) != ColourOf(t.faces + 1)
  {
    OneModelScene(m, t);
    FirstFaceColour(m, t);
    var t2 := DrawModel(m, t).toggles;
    OneModelScene(m, t2);
    FirstFaceColour(m, t2);
  }

  // ---------------------------------------------------------------------
  // Consecutive frames differ as soon as one branch draws an odd number of
  // triangles: with one such branch the number of triangles of each colour
  // moves, with two every colour is swapped.
  // ---------------------------------------------------------------------

  /** How many colour commands of a log set colour `col`. */
  function Painted(cmds: seq<Cmd>, col: Colour): nat
    decreases |cmds|
  {
    if cmds == [] then 0 else Painted(cmds[..|cmds| - 1], col) + if cmds[|cmds| - 1] == Color(col) then 1 else 0
  }

  lemma {:induction false} PaintedAppend(a: seq<Cmd>, b: seq<Cmd>, col: Colour)
    ensures Painted(a + b, col) == Painted(a, col) + Painted(b, col)
    decreases |b|
  {
    if b == [] {
      assert a + b == a;
    } else {
      var init := b[..|b| - 1];
      assert (a + b)[..|a + b| - 1] == a + init;
      PaintedAppend(a, init, col);
    }
  }

  /**
    How many of `n` consecutive counter values give a colour, when the
    first of them gives it exactly if `first` holds: every other one does.
   */
  function Matching(first: bool, n: nat): nat
    decreases n
  {
    if n == 0 then 0 else (if first then 1 else 0) + Matching(!first, n - 1)
  }

  /** Whether the value `a` places further on gives the colour, given whether the first one does. */
  function MatchesAfter(first: bool, a: nat): bool
  {
    if a % 2 == 0 then first else !first
  }

  lemma MatchesAfterValue(start: nat, a: nat, col: Colour)
    ensures MatchesAfter(ColourOf(start) == col, a) == (ColourOf(start + a) == col)
  {
  }

  lemma {:induction false} MatchingSplit(first: bool, a: nat, b: nat)
    ensures Matching(first, a + b) == Matching(first, a) + Matching(MatchesAfter(first, a), b)
    decreases a
  {
    if a != 0 {
      MatchingSplit(!first, a - 1, b);
      assert a + b - 1 == (a - 1) + b;
    }
  }

  /** Of `n` consecutive values, half give the colour, rounded up when the first one does. */
  lemma {:induction false} MatchingHalf(first: bool, n: nat)
    ensures Matching(first, n) == (n + if first then 1 else 0) / 2
    decreases n
  {
    if n != 0 {
      MatchingHalf(!first, n - 1);
    }
  }

  /** The next `n` values give the colour as often as these `n` exactly when `n` is even. */
  lemma MatchingNext(start: nat, n: nat, col: Colour)
    ensures Matching(ColourOf(start + n) == col, n) == Matching(ColourOf(start) == col, n) <==> n % 2 == 0
  {
    MatchingHalf(ColourOf(start) == col, n);
    MatchingHalf(ColourOf(start + n) == col, n);
  }

  lemma TrianglePainted(toggle: nat, a: Vertex, b: Vertex, c: Vertex, col: Colour)
    ensures Painted(Triangle(toggle, a, b, c), col) == Matching(ColourOf(toggle) == col, 1)
  {
    var cmds := Triangle(toggle, a, b, c);
    assert cmds[..1][..0] == [];
    assert cmds[..2][..1] == cmds[..1];
    assert cmds[..3][..2] == cmds[..2];
    assert cmds[..4] == cmds;
    assert Painted(cmds[..3], col) == Painted(cmds[..1], col);
  }

  lemma {:induction false} FaceTrianglesPainted(vs: seq<Vertex>, fs: seq<Face>, toggle: nat, col: Colour)
    requires forall f :: f in fs ==> FaceInRange(f, |vs|)
    ensures Painted(FaceTriangles(vs, fs, toggle), col) == Matching(ColourOf(toggle) == col, |fs|)
    decreases |fs|
  {
    if fs != [] {
      var init := fs[..|fs| - 1];
      var f := fs[|fs| - 1];
      assert f in fs;
      FaceTrianglesPainted(vs, init, toggle, col);
      TrianglePainted(toggle + |init|, vs[f.v1], vs[f.v2], vs[f.v3], col);
      PaintedAppend(FaceTriangles(vs, init, toggle), Triangle(toggle + |init|, vs[f.v1], vs[f.v2], vs[f.v3]), col);
      MatchingSplit(ColourOf(toggle) == col, |init|, 1);
      MatchesAfterValue(toggle, |init|, col);
    }
  }

  lemma {:induction false} TripleTrianglesPainted(vs: seq<Vertex>, k: nat, toggle: nat, col: Colour)
    requires 3 * k <= |vs|
    ensures Painted(TripleTriangles(vs, k, toggle), col) == Matching(ColourOf(toggle) == col, k)
  {
    if k != 0 {
      var j := k - 1;
      var last := Triangle(toggle + j, vs[3 * j], vs[3 * j + 1], vs[3 * j + 2]);
      TripleTrianglesPainted(vs, j, toggle, col);
      TripleTrianglesNext(vs, j, toggle);
      TrianglePainted(toggle + j, vs[3 * j], vs[3 * j + 1], vs[3 * j + 2], col);
      PaintedAppend(TripleTriangles(vs, j, toggle), last, col);
      MatchingSplit(ColourOf(toggle) == col, j, 1);
      MatchesAfterValue(toggle, j, col);
    }
  }

  /** Neither counter has gone down between `t` and `u`. */
  predicate Advances(t: Toggles, u: Toggles)
  {
    t.faces <= u.faces && t.triples <= u.triples
  }

  /** How many triangles of colour `col` are drawn while the counters move from `t` to `u`. */
  function Between(t: Toggles, u: Toggles, col: Colour): nat
    requires Advances(t, u)
  {
    Matching(ColourOf(t.faces) == col, u.faces - t.faces) + Matching(ColourOf(t.triples) == col, u.triples - t.triples)
  }

  lemma BetweenSplit(t: Toggles, u: Toggles, v: Toggles, col: Colour)
    requires Advances(t, u) && Advances(u, v)
    ensures Advances(t, v)
    ensures Between(t, v, col) == Between(t, u, col) + Between(u, v, col)
  {
    RunSplit(t.faces, u.faces, v.faces, col);
    RunSplit(t.triples, u.triples, v.triples, col);
  }

  /** One counter moving from `a` to `b` and on to `c`. */
  lemma RunSplit(a: nat, b: nat, c: nat, col: Colour)
    requires a <= b <= c
    ensures Matching(ColourOf(a) == col, c - a) == Matching(ColourOf(a) == col, b - a) + Matching(ColourOf(b) == col, c - b)
  {
    MatchingSplit(ColourOf(a) == col, b - a, c - b);
    MatchesAfterValue(a, b - a, col);
  }

  lemma PaintedEnclosed(body: seq<Cmd>, col: Colour)
    ensures Painted([Begin] + body + [End], col) == Painted(body, col)
  {
    assert [Begin][..0] == [];
    assert [End][..0] == [];
    PaintedAppend([Begin], body, col);
    PaintedAppend([Begin] + body, [End], col);
  }

  lemma PaintedWrapped(before: seq<Cmd>, body: seq<Cmd>, col: Colour)
    ensures Painted(before + [Push] + body + [Pop], col) == Painted(before, col) + Painted(body, col)
  {
    assert [Push][..0] == [];
    assert [Pop][..0] == [];
    PaintedAppend(before, [Push], col);
    PaintedAppend(before + [Push], body, col);
    PaintedAppend(before + [Push] + body, [Pop], col);
  }

  lemma DrawModelPainted(m: Model, t: Toggles, col: Colour)
    requires FacesInRange(m)
    ensures Advances(t, DrawModel(m, t).toggles)
    ensures Painted(DrawModel(m, t).cmds, col) == Between(t, DrawModel(m, t).toggles, col)
  {
    var r := DrawModel(m, t);
    if !m.loaded {
      assert r == Frame([], t);
    } else if m.faces != [] {
      var body := FaceTriangles(m.vertices, m.faces, t.faces);
      assert r == Frame([Begin] + body + [End], t.(faces := t.faces + |m.faces|));
      FaceTrianglesPainted(m.vertices, m.faces, t.faces, col);
      PaintedEnclosed(body, col);
    } else {
      var k := |m.vertices| / 3;
      var body := TripleTriangles(m.vertices, k, t.triples);
      assert r == Frame([Begin] + body + [End], t.(triples := t.triples + k));
      TripleTrianglesPainted(m.vertices, k, t.triples, col);
      PaintedEnclosed(body, col);
    }
  }

  lemma {:induction false} DrawModelsPainted(ms: seq<Model>, t: Toggles, col: Colour)
    requires forall m :: m in ms ==> FacesInRange(m)
    ensures Advances(t, DrawModels(ms, t).toggles)
    ensures Painted(DrawModels(ms, t).cmds, col) == Between(t, DrawModels(ms, t).toggles, col)
    decreases |ms|
  {
    if ms != [] {
      var init := ms[..|ms| - 1];
      var r := DrawModels(init, t);
      var last := DrawModel(ms[|ms| - 1], r.toggles);
      DrawModelsPainted(init, t, col);
      DrawModelPainted(ms[|ms| - 1], r.toggles, col);
      PaintedAppend(r.cmds, last.cmds, col);
      BetweenSplit(t, r.toggles, last.toggles, col);
    }
  }

  /**
    A frame draws in a colour every other value each counter passes
    through, starting with the first when that value gives the colour.
   */
  lemma {:induction false} DrawGroupPainted(g: Group, t: Toggles, col: Colour)
    requires WellFormed(g)
    ensures Advances(t, DrawGroup(g, t).toggles)
    ensures Painted(DrawGroup(g, t).cmds, col) == Between(t, DrawGroup(g, t).toggles, col)
    decreases g, 1
  {
    var own := DrawModels(g.models, t);
    var kids := DrawChildren(g, |g.childGroups|, own.toggles);
    DrawModelsPainted(g.models, t, col);
    DrawChildrenPainted(g, |g.childGroups|, own.toggles, col);
    PaintedAppend(own.cmds, kids.cmds, col);
    BetweenSplit(t, own.toggles, kids.toggles, col);
  }

  lemma {:induction false} DrawChildrenPainted(g: Group, n: nat, t: Toggles, col: Colour)
    requires WellFormed(g) && n <= |g.childGroups|
    ensures Advances(t, DrawChildren(g, n, t).toggles)
    ensures Painted(DrawChildren(g, n, t).cmds, col) == Between(t, DrawChildren(g, n, t).toggles, col)
    decreases g, 0, n
  {
    if n != 0 {
      var c := g.childGroups[n - 1];
      assert c in g.childGroups;
      var r := DrawChildren(g, n - 1, t);
      var child := DrawGroup(c, r.toggles);
      DrawChildrenPainted(g, n - 1, t, col);
      DrawGroupPainted(c, r.toggles, col);
      WrappedPainted(r.cmds, child.cmds, t, r.toggles, child.toggles, col);
      DrawChildStep(g, n, t);
    }
  }

  /** A child drawn between a push and a pop adds the triangles drawn while it moves the counters on. */
  lemma WrappedPainted(before: seq<Cmd>, body: seq<Cmd>, t: Toggles, u: Toggles, v: Toggles, col: Colour)
    requires Advances(t, u) && Advances(u, v)
    requires Painted(before, col) == Between(t, u, col)
    requires Painted(body, col) == Between(u, v, col)
    ensures Advances(t, v)
    ensures Painted(before + [Push] + body + [Pop], col) == Between(t, v, col)
  {
    PaintedWrapped(before, body, col);
    BetweenSplit(t, u, v, col);
  }

  function Swap(c: Colour): Colour
  {
    if c == Orange then Blue else Orange
  }

  /** A log with every colour command turned to the other colour. */
  function Swapped(cmds: seq<Cmd>): seq<Cmd>
  {
    seq(|cmds|, i requires 0 <= i < |cmds| => if cmds[i].Color? then Color(Swap(cmds[i].c)) else cmds[i])
  }

  lemma SwappedAppend(a: seq<Cmd>, b: seq<Cmd>)
    ensures Swapped(a + b) == Swapped(a) + Swapped(b)
  {
  }

  /** Swapping is undone by swapping again, and leaves a log with a colour command in it changed. */
  lemma {:induction false} SwappedChanges(cmds: seq<Cmd>)
    ensures Swapped(Swapped(cmds)) == cmds
    ensures Count(cmds, KColour) > 0 ==> Swapped(cmds) != cmds
    decreases |cmds|
  {
    if cmds != [] {
      var init := cmds[..|cmds| - 1];
      SwappedChanges(init);
      assert Swapped(cmds)[..|cmds| - 1] == Swapped(init);
    }
  }

  /** Each counter has one parity in `t` and the other in `u`. */
  predicate Opposite(t: Toggles, u: Toggles)
  {
    t.faces % 2 != u.faces % 2 && t.triples % 2 != u.triples % 2
  }

  lemma OppositeShift(a: nat, b: nat, n: nat)
    requires a % 2 != b % 2
    ensures (a + n) % 2 != (b + n) % 2
    ensures ColourOf(a + n) == Swap(ColourOf(b + n))
  {
  }

  lemma TriangleSwapped(x: nat, y: nat, p: Vertex, q: Vertex, r: Vertex)
    requires ColourOf(y) == Swap(ColourOf(x))
    ensures Triangle(y, p, q, r) == Swapped(Triangle(x, p, q, r))
  {
  }

  lemma {:induction false} FaceTrianglesSwap(vs: seq<Vertex>, fs: seq<Face>, a: nat, b: nat)
    requires forall f :: f in fs ==> FaceInRange(f, |vs|)
    requires a % 2 != b % 2
    ensures FaceTriangles(vs, fs, b) == Swapped(FaceTriangles(vs, fs, a))
    decreases |fs|
  {
    if fs != [] {
      var init := fs[..|fs| - 1];
      var f := fs[|fs| - 1];
      assert f in fs;
      FaceTrianglesSwap(vs, init, a, b);
      OppositeShift(b, a, |init|);
      TriangleSwapped(a + |init|, b + |init|, vs[f.v1], vs[f.v2], vs[f.v3]);
      SwappedAppend(FaceTriangles(vs, init, a), Triangle(a + |init|, vs[f.v1], vs[f.v2], vs[f.v3]));
    }
  }

  lemma {:induction false} TripleTrianglesSwap(vs: seq<Vertex>, k: nat, a: nat, b: nat)
    requires 3 * k <= |vs|
    requires a % 2 != b % 2
    ensures TripleTriangles(vs, k, b) == Swapped(TripleTriangles(vs, k, a))
  {
    if k != 0 {
      var j := k - 1;
      var i := 3 * j;
      TripleTrianglesSwap(vs, j, a, b);
      TripleTrianglesNext(vs, j, a);
      TripleTrianglesNext(vs, j, b);
      OppositeShift(b, a, j);
      TriangleSwapped(a + j, b + j, vs[i], vs[i + 1], vs[i + 2]);
      SwappedAppend(TripleTriangles(vs, j, a), Triangle(a + j, vs[i], vs[i + 1], vs[i + 2]));
    }
  }

  lemma SwappedEnclosed(body: seq<Cmd>)
    ensures Swapped([Begin] + body + [End]) == [Begin] + Swapped(body) + [End]
  {
    SwappedAppend([Begin], body);
    SwappedAppend([Begin] + body, [End]);
  }

  lemma SwappedWrapped(before: seq<Cmd>, body: seq<Cmd>)
    ensures Swapped(before + [Push] + body + [Pop]) == Swapped(before) + [Push] + Swapped(body) + [Pop]
  {
    SwappedAppend(before, [Push]);
    SwappedAppend(before + [Push], body);
    SwappedAppend(before + [Push] + body, [Pop]);
  }

  lemma DrawModelSwap(m: Model, t: Toggles, u: Toggles)
    requires FacesInRange(m)
    requires Opposite(t, u)
    ensures DrawModel(m, u).cmds == Swapped(DrawModel(m, t).cmds)
    ensures Opposite(DrawModel(m, t).toggles, DrawModel(m, u).toggles)
  {
    if m.loaded {
      if m.faces != [] {
        var bt := FaceTriangles(m.vertices, m.faces, t.faces);
        assert DrawModel(m, t) == Frame([Begin] + bt + [End], t.(faces := t.faces + |m.faces|));
        FaceTrianglesSwap(m.vertices, m.faces, t.faces, u.faces);
        SwappedEnclosed(bt);
        OppositeShift(t.faces, u.faces, |m.faces|);
      } else {
        var k := |m.vertices| / 3;
        var bt := TripleTriangles(m.vertices, k, t.triples);
        assert DrawModel(m, t) == Frame([Begin] + bt + [End], t.(triples := t.triples + k));
        TripleTrianglesSwap(m.vertices, k, t.triples, u.triples);
        SwappedEnclosed(bt);
        OppositeShift(t.triples, u.triples, k);
      }
    }
  }

  lemma {:induction false} DrawModelsSwap(ms: seq<Model>, t: Toggles, u: Toggles)
    requires forall m :: m in ms ==> FacesInRange(m)
    requires Opposite(t, u)
    ensures DrawModels(ms, u).cmds == Swapped(DrawModels(ms, t).cmds)
    ensures Opposite(DrawModels(ms, t).toggles, DrawModels(ms, u).toggles)
    decreases |ms|
  {
    if ms != [] {
      var init := ms[..|ms| - 1];
      var rt := DrawModels(init, t);
      DrawModelsSwap(init, t, u);
      DrawModelSwap(ms[|ms| - 1], rt.toggles, DrawModels(init, u).toggles);
      SwappedAppend(rt.cmds, DrawModel(ms[|ms| - 1], rt.toggles).cmds);
    }
  }

  /** Counters of opposite parities draw the same log with every colour swapped. */
  lemma {:induction false} DrawGroupSwap(g: Group, t: Toggles, u: Toggles)
    requires WellFormed(g)
    requires Opposite(t, u)
    ensures DrawGroup(g, u).cmds == Swapped(DrawGroup(g, t).cmds)
    ensures Opposite(DrawGroup(g, t).toggles, DrawGroup(g, u).toggles)
    decreases g, 1
  {
    var own := DrawModels(g.models, t);
    DrawModelsSwap(g.models, t, u);
    DrawChildrenSwap(g, |g.childGroups|, own.toggles, DrawModels(g.models, u).toggles);
    SwappedAppend(own.cmds, DrawChildren(g, |g.childGroups|, own.toggles).cmds);
  }

  lemma {:induction false} DrawChildrenSwap(g: Group, n: nat, t: Toggles, u: Toggles)
    requires WellFormed(g) && n <= |g.childGroups|
    requires Opposite(t, u)
    ensures DrawChildren(g, n, u).cmds == Swapped(DrawChildren(g, n, t).cmds)
    ensures Opposite(DrawChildren(g, n, t).toggles, DrawChildren(g, n, u).toggles)
    decreases g, 0, n
  {
    if n != 0 {
      var c := g.childGroups[n - 1];
      assert c in g.childGroups;
      var rt := DrawChildren(g, n - 1, t);
      var ru := DrawChildren(g, n - 1, u);
      DrawChildrenSwap(g, n - 1, t, u);
      DrawGroupSwap(c, rt.toggles, ru.toggles);
      DrawChildStep(g, n, t);
      DrawChildStep(g, n, u);
      SwappedWrapped(rt.cmds, DrawGroup(c, rt.toggles).cmds);
    }
  }

  /**
    When a branch draws an odd number of triangles, the next frame's log
    differs from this one's.
   */
  lemma ChangesWhenOdd(g: Group, t: Toggles)
    requires WellFormed(g)
    requires GroupCensus(g).faceTris % 2 == 1 || GroupCensus(g).tripleTris % 2 == 1
    ensures DrawGroup(g, DrawGroup(g, t).toggles).cmds != DrawGroup(g, t).cmds
  {
    if GroupCensus(g).faceTris % 2 == 1 && GroupCensus(g).tripleTris % 2 == 1 {
      ChangesWhenBothOdd(g, t);
    } else {
      ChangesWhenOneOdd(g, t);
    }
  }

  /** With both branches odd, both counters change parity, so the next frame swaps every colour. */
  lemma ChangesWhenBothOdd(g: Group, t: Toggles)
    requires WellFormed(g)
    requires GroupCensus(g).faceTris % 2 == 1 && GroupCensus(g).tripleTris % 2 == 1
    ensures DrawGroup(g, DrawGroup(g, t).toggles).cmds == Swapped(DrawGroup(g, t).cmds)
    ensures DrawGroup(g, DrawGroup(g, t).toggles).cmds != DrawGroup(g, t).cmds
  {
    var first := DrawGroup(g, t);
    DrawGroupToggles(g, t);
    assert Opposite(t, first.toggles);
    DrawGroupSwap(g, t, first.toggles);
    DrawGroupCount(g, t, KColour);
    SwappedChanges(first.cmds);
  }

  /** With exactly one branch odd, the next frame draws a different number of orange triangles. */
  lemma ChangesWhenOneOdd(g: Group, t: Toggles)
    requires WellFormed(g)
    requires GroupCensus(g).faceTris % 2 != GroupCensus(g).tripleTris % 2
    ensures Painted(DrawGroup(g, DrawGroup(g, t).toggles).cmds, Orange) != Painted(DrawGroup(g, t).cmds, Orange)
  {
    var first := DrawGroup(g, t);
    var second := DrawGroup(g, first.toggles);
    DrawGroupToggles(g, t);
    DrawGroupToggles(g, first.toggles);
    DrawGroupPainted(g, t, Orange);
    DrawGroupPainted(g, first.toggles, Orange);
    OrangesMove(t, first.toggles, second.toggles, GroupCensus(g));
  }

  /** Two equal advances of the counters by an odd and an even amount draw different numbers of orange triangles. */
  lemma OrangesMove(t: Toggles, u: Toggles, v: Toggles, c: Census)
    requires u.faces == t.faces + c.faceTris && u.triples == t.triples + c.tripleTris
    requires v.faces == u.faces + c.faceTris && v.triples == u.triples + c.tripleTris
    requires c.faceTris % 2 != c.tripleTris % 2
    ensures Advances(t, u) && Advances(u, v)
    ensures Between(u, v, Orange) != Between(t, u, Orange)
  {
    MatchingNext(t.faces, c.faceTris, Orange);
    MatchingNext(t.triples, c.tripleTris, Orange);
  }

  /** A frame's log recurs in the next frame exactly when each branch draws an even number of triangles. */
  lemma SteadyExactlyWhenEven(g: Group, t: Toggles)
    requires WellFormed(g)
    ensures DrawGroup(g, DrawGroup(g, t).toggles).cmds == DrawGroup(g, t).cmds
        <==> GroupCensus(g).faceTris % 2 == 0 && GroupCensus(g).tripleTris % 2 == 0
  {
    if GroupCensus(g).faceTris % 2 == 0 && GroupCensus(g).tripleTris % 2 == 0 {
      SteadyWhenEven(g, t);
    } else {
      ChangesWhenOdd(g, t);
    }
  }

  // ---------------------------------------------------------------------
  // One more pass of each loop of `renderGroup`, for the imperative model.
  // ---------------------------------------------------------------------

  lemma FaceTrianglesStep(vs: seq<Vertex>, fs: seq<Face>, i: nat, toggle: nat)
    requires forall f :: f in fs ==> FaceInRange(f, |vs|)
    requires i < |fs|
    ensures forall f :: f in fs[..i] ==> FaceInRange(f, |vs|)
    ensures forall f :: f in fs[..i + 1] ==> FaceInRange(f, |vs|)
    ensures FaceInRange(fs[i], |vs|)
    ensures FaceTriangles(vs, fs[..i + 1], toggle)
         == FaceTriangles(vs, fs[..i], toggle) + Triangle(toggle + i, vs[fs[i].v1], vs[fs[i].v2], vs[fs[i].v3])
  {
    assert fs[i] in fs;
    assert fs[..i + 1][..i] == fs[..i];
  }

  lemma TripleTrianglesNext(vs: seq<Vertex>, k: nat, toggle: nat)
    requires 3 * k + 3 <= |vs|
    ensures TripleTriangles(vs, k, toggle) + Triangle(toggle + k, vs[3 * k], vs[3 * k + 1], vs[3 * k + 2])
         == TripleTriangles(vs, k + 1, toggle)
  {
  }

  lemma DrawModelsStep(ms: seq<Model>, i: nat, t: Toggles)
    requires forall m :: m in ms ==> FacesInRange(m)
    requires i < |ms|
    ensures forall m :: m in ms[..i] ==> FacesInRange(m)
    ensures forall m :: m in ms[..i + 1] ==> FacesInRange(m)
    ensures FacesInRange(ms[i])
    ensures
      var r := DrawModels(ms[..i], t);
      var last := DrawModel(ms[i], r.toggles);
      && DrawModels(ms[..i + 1], t).cmds == r.cmds + last.cmds
      && DrawModels(ms[..i + 1], t).toggles == last.toggles
  {
    assert ms[i] in ms;
    assert ms[..i + 1][..i] == ms[..i];
  }
}
