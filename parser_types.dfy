/**
  The types of engine/parser.h. They are plain values: the parser's scene
  tree holds file names only, and a group owns its models and child groups
  by value, so the tree has no sharing.
 */
module ParserTypes {

  datatype Window = Window(width: int, height: int)

  /** A model as the parser sees it: the mesh file name, no geometry. */
  datatype Model = Model(filename: string)

  datatype Group = Group(models: seq<Model>, children: seq<Group>)

  /** `Window()`: 800 by 600. */
  function DefaultWindow(): (w: Window)
    ensures w.width == 800 && w.height == 600
  {
    Window(800, 600)
  }

  /** `Group()`: no models, no children. */
  function EmptyGroup(): (g: Group)
    ensures g.models == [] && g.children == []
  {
    Group([], [])
  }

  /** What `push_back` onto both vectors of `group` leaves: `group`'s contents, then `more`'s. */
  function Append(group: Group, more: Group): (r: Group)
    ensures |r.models| == |group.models| + |more.models|
    ensures |r.children| == |group.children| + |more.children|
    ensures r.models[..|group.models|] == group.models
    ensures r.children[..|group.children|] == group.children
  {
    Group(group.models + more.models, group.children + more.children)
  }
}
