/**
  How the two parsers of the repository relate. The engine's `parseGroup`
  (engine/engine.cpp) and `SimpleParser::parseGroup` (engine/parser.cpp)
  walk a `group` element in the same way; the engine additionally loads
  every model and drops those whose file does not load. Forgetting the
  geometry of the engine's tree therefore gives the parser's tree with
  the unloadable models pruned.
 */
module Correspondence {
  import opened Xml
  import opened Dedup
  import opened MeshLoader
  import opened World
  import S = Scene
  import P = ParserTypes
  import EngineParser
  import SimpleParser

  /** The file names of a run of engine models. */
  function EraseModels(ms: seq<S.Model>): (r: seq<P.Model>)
    ensures |r| == |ms|
    ensures forall i :: 0 <= i < |ms| ==> r[i].filename == ms[i].filename
  {
    seq(|ms|, i requires 0 <= i < |ms| => P.Model(ms[i].filename))
  }

  /** The engine's scene tree with the geometry forgotten. */
  function Erase(g: S.Group): (r: P.Group)
    ensures r.models == EraseModels(g.models)
    ensures |r.children| == |g.childGroups|
    decreases g
  {
    var cs := g.childGroups;
    P.Group(EraseModels(g.models), seq(|cs|, i requires 0 <= i < |cs| => assert cs[i] in cs; Erase(cs[i])))
  }

  /** The models whose file loads, in order. */
  function KeepLoadable(files: Files, ms: seq<P.Model>): (r: seq<P.Model>)
    ensures |r| <= |ms|
    ensures forall m :: m in r ==> m in ms && Loadable(files, m.filename)
    decreases |ms|
  {
    if ms == [] then []
    else
      var m := ms[|ms| - 1];
      KeepLoadable(files, ms[..|ms| - 1]) + if Loadable(files, m.filename) then [m] else []
  }

  /** The parser's tree with every model whose file does not load removed. */
  function Prune(files: Files, g: P.Group): (r: P.Group)
    ensures r.models == KeepLoadable(files, g.models)
    ensures |r.children| == |g.children|
    decreases g
  {
    var cs := g.children;
    P.Group(KeepLoadable(files, g.models), seq(|cs|, i requires 0 <= i < |cs| => assert cs[i] in cs; Prune(files, cs[i])))
  }

  /**
    The engine keeps exactly the models of the parser's tree whose file
    loads, in the same order and in the same place of the same tree.
   */
  lemma {:induction false} EngineTreeIsPrunedParserTree(files: Files, key: KeyFn, e: Element)
    ensures Erase(EngineParser.BuildGroup(files, key, e)) == Prune(files, SimpleParser.Build(e))
    decreases e
  {
    var eg := EngineParser.BuildGroup(files, key, e);
    var pg := SimpleParser.Build(e);
    ModelsCorrespond(files, key, ModelElements(e));
    var cs := ChildrenNamed(e.children, "group");
    forall i | 0 <= i < |cs|
      ensures Erase(eg.childGroups[i]) == Prune(files, pg.children[i])
    {
      assert cs[i] in e.children;
      EngineTreeIsPrunedParserTree(files, key, cs[i]);
    }
    SameChildren(files, eg, pg);
  }

  /** Two trees whose children correspond one by one have corresponding lists of children. */
  lemma SameChildren(files: Files, eg: S.Group, pg: P.Group)
    requires |eg.childGroups| == |pg.children|
    requires forall i :: 0 <= i < |eg.childGroups| ==> Erase(eg.childGroups[i]) == Prune(files, pg.children[i])
    ensures Erase(eg).children == Prune(files, pg).children
  {
  }

  /** The engine's model loop, with geometry forgotten, keeps the loadable files the parser names. */
  lemma {:induction false} ModelsCorrespond(files: Files, key: KeyFn, ms: seq<Element>)
    ensures EraseModels(EngineParser.LoadModels(files, key, ms)) == KeepLoadable(files, SimpleParser.FileModels(ms))
    decreases |ms|
  {
    if ms != [] {
      var init := ms[..|ms| - 1];
      var m := ms[|ms| - 1];
      ModelsCorrespond(files, key, init);
      var loaded := EngineParser.LoadModels(files, key, init);
      var named := SimpleParser.FileModels(init);
      assert EngineParser.LoadModels(files, key, ms) == loaded + EngineParser.ModelOf(files, key, m);
      assert SimpleParser.FileModels(ms) == named + SimpleParser.FileModelOf(m);
      KeepLoadableAppend(files, named, SimpleParser.FileModelOf(m));
      EraseModelsAppend(loaded, EngineParser.ModelOf(files, key, m));
      ModelCorresponds(files, key, m);
    }
  }

  /** One `model` element: the engine keeps it exactly when the parser names a file that loads. */
  lemma ModelCorresponds(files: Files, key: KeyFn, m: Element)
    ensures EraseModels(EngineParser.ModelOf(files, key, m)) == KeepLoadable(files, SimpleParser.FileModelOf(m))
  {
    var named := SimpleParser.FileModelOf(m);
    if named != [] {
      assert named == [P.Model(m.attrs["file"].text)];
      assert KeepLoadable(files, named) == KeepLoadable(files, []) + if Loadable(files, named[0].filename) then named else [];
    }
  }

  lemma EraseModelsAppend(ms: seq<S.Model>, more: seq<S.Model>)
    ensures EraseModels(ms + more) == EraseModels(ms) + EraseModels(more)
  {
  }

  lemma KeepLoadableAppend(files: Files, ms: seq<P.Model>, more: seq<P.Model>)
    requires |more| <= 1
    ensures KeepLoadable(files, ms + more) == KeepLoadable(files, ms) + KeepLoadable(files, more)
  {
    if more == [] {
      assert ms + more == ms;
    } else {
      assert (ms + more)[..|ms + more| - 1] == ms;
    }
  }

  /** When every file the parser names loads, the two trees carry the same names. */
  lemma {:induction false} KeepLoadableAll(files: Files, ms: seq<P.Model>)
    requires forall i :: 0 <= i < |ms| ==> Loadable(files, ms[i].filename)
    ensures KeepLoadable(files, ms) == ms
    decreases |ms|
  {
    if ms != [] {
      KeepLoadableAll(files, ms[..|ms| - 1]);
      assert ms[..|ms| - 1] + [ms[|ms| - 1]] == ms;
    }
  }

  /** Every file the parser's tree names loads, in every group of the tree. */
  predicate AllNamesLoad(files: Files, g: P.Group)
    decreases g
  {
    && (forall i :: 0 <= i < |g.models| ==> Loadable(files, g.models[i].filename))
    && (forall c :: c in g.children ==> AllNamesLoad(files, c))
  }

  /** A tree whose every named file loads loses nothing to pruning. */
  lemma {:induction false} PruneAllLoadable(files: Files, g: P.Group)
    requires AllNamesLoad(files, g)
    ensures Prune(files, g) == g
    decreases g
  {
    KeepLoadableAll(files, g.models);
    forall i | 0 <= i < |g.children|
      ensures Prune(files, g).children[i] == g.children[i]
    {
      assert g.children[i] in g.children;
      PruneAllLoadable(files, g.children[i]);
    }
  }

  /**
    When every file the scene names loads, the engine's tree, with the
    geometry forgotten, is exactly the parser's tree: same names, same
    order, same shape.
   */
  lemma SameTreeWhenAllLoad(files: Files, key: KeyFn, e: Element)
    requires AllNamesLoad(files, SimpleParser.Build(e))
    ensures Erase(EngineParser.BuildGroup(files, key, e)) == SimpleParser.Build(e)
  {
    EngineTreeIsPrunedParserTree(files, key, e);
    PruneAllLoadable(files, SimpleParser.Build(e));
  }
}
