/**
  Vertex deduplication as `loadModel` in engine/engine.cpp performs it,
  stated without the dictionary the source uses.

  Points are compared by key only. The vertex list of a mesh is the list
  of its corner points with every point whose key occurred earlier
  dropped (`FirstOccurrences`); a corner's index is the position of the
  first vertex carrying its key (`Slot`). All definitions recurse on the
  last element, the order in which the loader sees the points.
 */
module Dedup {
  import opened Scene

  /**
    A vertex's deduplication key. Nothing here assumes that the key tells
    distinct points apart: `to_string` keeps six decimals, so distinct
    floats can share a key.
   */
  type KeyFn = Vertex -> string

  /** Some point of `vs` has key `k`. */
  predicate HasKey(key: KeyFn, vs: seq<Vertex>, k: string)
    decreases |vs|
  {
    vs != [] && (key(vs[|vs| - 1]) == k || HasKey(key, vs[..|vs| - 1], k))
  }

  /** The position of the first point of `vs` with key `k`; `|vs|` when there is none. */
  function Slot(key: KeyFn, vs: seq<Vertex>, k: string): (j: nat)
    ensures j <= |vs|
    ensures j < |vs| <==> HasKey(key, vs, k)
    ensures j < |vs| ==> key(vs[j]) == k
    decreases |vs|
  {
    if vs == [] then 0
    else
      var prefix := vs[..|vs| - 1];
      if HasKey(key, prefix, k) then Slot(key, prefix, k)
      else if key(vs[|vs| - 1]) == k then |vs| - 1
      else |vs|
  }

  /** The points of `ps` whose key does not occur earlier in `ps`, in order. */
  function FirstOccurrences(key: KeyFn, ps: seq<Vertex>): (d: seq<Vertex>)
    ensures |d| <= |ps|
    decreases |ps|
  {
    if ps == [] then []
    else
      var prefix := ps[..|ps| - 1];
      var p := ps[|ps| - 1];
      FirstOccurrences(key, prefix) + if HasKey(key, prefix, key(p)) then [] else [p]
  }

  /** The slots of the points `cs` in `vs`, in order. */
  function Slots(key: KeyFn, vs: seq<Vertex>, cs: seq<Vertex>): (r: seq<int>)
    ensures |r| == |cs|
    decreases |cs|
  {
    if cs == [] then [] else Slots(key, vs, cs[..|cs| - 1]) + [Slot(key, vs, key(cs[|cs| - 1]))]
  }

  /** The dictionary `vertexIndices` once the points `vs` have been recorded, in order. */
  function IndexMap(key: KeyFn, vs: seq<Vertex>): map<string, int>
    decreases |vs|
  {
    if vs == [] then map[]
    else
      var m := IndexMap(key, vs[..|vs| - 1]);
      var k := key(vs[|vs| - 1]);
      if k in m then m else m[k := |vs| - 1]
  }

  // ---------------------------------------------------------------------
  // One more point

  lemma Prefix(vs: seq<Vertex>, p: Vertex)
    ensures (vs + [p])[..|vs|] == vs
  {
  }

  lemma HasKeyAppend(key: KeyFn, vs: seq<Vertex>, p: Vertex, k: string)
    ensures HasKey(key, vs + [p], k) <==> key(p) == k || HasKey(key, vs, k)
  {
    Prefix(vs, p);
  }

  lemma SlotAppend(key: KeyFn, vs: seq<Vertex>, p: Vertex, k: string)
    ensures HasKey(key, vs, k) ==> Slot(key, vs + [p], k) == Slot(key, vs, k)
    ensures !HasKey(key, vs, k) && key(p) == k ==> Slot(key, vs + [p], k) == |vs|
  {
    Prefix(vs, p);
  }

  lemma FirstOccurrencesAppend(key: KeyFn, ps: seq<Vertex>, p: Vertex)
    ensures FirstOccurrences(key, ps + [p])
         == FirstOccurrences(key, ps) + if HasKey(key, ps, key(p)) then [] else [p]
  {
    Prefix(ps, p);
  }

  lemma IndexMapAppend(key: KeyFn, vs: seq<Vertex>, p: Vertex)
    requires key(p) !in IndexMap(key, vs)
    ensures IndexMap(key, vs + [p]) == IndexMap(key, vs)[key(p) := |vs|]
  {
    Prefix(vs, p);
  }

  lemma SlotsAppend(key: KeyFn, vs: seq<Vertex>, cs: seq<Vertex>, c: Vertex)
    ensures Slots(key, vs, cs + [c]) == Slots(key, vs, cs) + [Slot(key, vs, key(c))]
  {
    Prefix(cs, c);
  }

  // ---------------------------------------------------------------------
  // Keys

  /** A point of `vs` makes its key present. */
  lemma {:induction false} HasKeyAt(key: KeyFn, vs: seq<Vertex>, i: nat)
    requires i < |vs|
    ensures HasKey(key, vs, key(vs[i]))
    decreases |vs|
  {
    if i < |vs| - 1 {
      HasKeyAt(key, vs[..|vs| - 1], i);
    }
  }

  /** Appending more points keeps every key present. */
  lemma {:induction false} HasKeyConcat(key: KeyFn, vs: seq<Vertex>, ws: seq<Vertex>, k: string)
    requires HasKey(key, vs, k)
    ensures HasKey(key, vs + ws, k)
    decreases |ws|
  {
    if ws != [] {
      var init := ws[..|ws| - 1];
      assert vs + ws == (vs + init) + [ws[|ws| - 1]];
      HasKeyConcat(key, vs, init, k);
      HasKeyAppend(key, vs + init, ws[|ws| - 1], k);
    } else {
      assert vs + ws == vs;
    }
  }

  /** The keys of `FirstOccurrences(ps)` are exactly the keys of `ps`. */
  lemma {:induction false} FirstOccurrencesKeys(key: KeyFn, ps: seq<Vertex>, k: string)
    ensures HasKey(key, FirstOccurrences(key, ps), k) <==> HasKey(key, ps, k)
    decreases |ps|
  {
    if ps != [] {
      var prefix, p := ps[..|ps| - 1], ps[|ps| - 1];
      assert ps == prefix + [p];
      FirstOccurrencesKeys(key, prefix, k);
      HasKeyAppend(key, prefix, p, k);
      FirstOccurrencesAppend(key, prefix, p);
      if !HasKey(key, prefix, key(p)) {
        HasKeyAppend(key, FirstOccurrences(key, prefix), p, k);
      } else {
        assert FirstOccurrences(key, ps) == FirstOccurrences(key, prefix);
      }
    }
  }

  /** The dictionary maps exactly the keys of `vs`, each to the slot of its first point. */
  lemma {:induction false} IndexMapSlot(key: KeyFn, vs: seq<Vertex>, k: string)
    ensures k in IndexMap(key, vs) <==> HasKey(key, vs, k)
    ensures k in IndexMap(key, vs) ==> IndexMap(key, vs)[k] == Slot(key, vs, k)
    decreases |vs|
  {
    if vs != [] {
      var prefix, p := vs[..|vs| - 1], vs[|vs| - 1];
      assert vs == prefix + [p];
      IndexMapSlot(key, prefix, k);
      IndexMapSlot(key, prefix, key(p));
      HasKeyAppend(key, prefix, p, k);
      SlotAppend(key, prefix, p, k);
    }
  }

  /**
    Reading more points never moves a key already seen: its slot in the
    vertex list stays where its first point put it.
   */
  lemma {:induction false} SlotExtend(key: KeyFn, ps: seq<Vertex>, qs: seq<Vertex>, k: string)
    requires HasKey(key, ps, k)
    ensures Slot(key, FirstOccurrences(key, ps + qs), k) == Slot(key, FirstOccurrences(key, ps), k)
    decreases |qs|
  {
    if qs != [] {
      var init, q := qs[..|qs| - 1], qs[|qs| - 1];
      var d := FirstOccurrences(key, ps + init);
      assert ps + qs == (ps + init) + [q];
      SlotExtend(key, ps, init, k);
      HasKeyConcat(key, ps, init, k);
      FirstOccurrencesKeys(key, ps + init, k);
      FirstOccurrencesAppend(key, ps + init, q);
      if HasKey(key, ps + init, key(q)) {
        assert FirstOccurrences(key, ps + qs) == d;
      } else {
        assert FirstOccurrences(key, ps + qs) == d + [q];
        SlotAppend(key, d, q, k);
      }
    } else {
      assert ps + qs == ps;
    }
  }

  /** `SlotExtend` for every point of a final stretch `cs` of `ps`. */
  lemma {:induction false} SlotsExtend(key: KeyFn, ps: seq<Vertex>, qs: seq<Vertex>, cs: seq<Vertex>)
    requires |cs| <= |ps| && ps[|ps| - |cs|..] == cs
    ensures Slots(key, FirstOccurrences(key, ps + qs), cs) == Slots(key, FirstOccurrences(key, ps), cs)
    decreases |cs|
  {
    if cs != [] {
      var init, c := cs[..|cs| - 1], cs[|cs| - 1];
      var ps' := ps[..|ps| - 1];
      assert cs == init + [c];
      assert ps == ps' + [c];
      assert ps + qs == ps' + ([c] + qs);
      assert ps'[|ps'| - |init|..] == init;
      SlotsAppend(key, FirstOccurrences(key, ps + qs), init, c);
      SlotsAppend(key, FirstOccurrences(key, ps), init, c);
      HasKeyAt(key, ps, |ps| - 1);
      SlotExtend(key, ps, qs, key(c));
      SlotsExtend(key, ps', [c] + qs, init);
      SlotsExtend(key, ps', [c], init);
    }
  }

  // ---------------------------------------------------------------------
  // What the deduplicated list is

  /** No two vertices of the deduplicated list share a key. */
  lemma {:induction false} DistinctKeys(key: KeyFn, ps: seq<Vertex>, i: nat, j: nat)
    requires i < j < |FirstOccurrences(key, ps)|
    ensures key(FirstOccurrences(key, ps)[i]) != key(FirstOccurrences(key, ps)[j])
    decreases |ps|
  {
    var prefix, p := ps[..|ps| - 1], ps[|ps| - 1];
    var d := FirstOccurrences(key, prefix);
    FirstOccurrencesAppend(key, prefix, p);
    assert ps == prefix + [p];
    if j < |d| {
      DistinctKeys(key, prefix, i, j);
    } else {
      assert FirstOccurrences(key, ps) == d + [p];
      HasKeyAt(key, d, i);
      FirstOccurrencesKeys(key, prefix, key(d[i]));
    }
  }

  /** Each vertex of a list with distinct keys is the slot of its own key. */
  lemma {:induction false} SlotOfVertex(key: KeyFn, ps: seq<Vertex>, i: nat)
    requires i < |FirstOccurrences(key, ps)|
    ensures Slot(key, FirstOccurrences(key, ps), key(FirstOccurrences(key, ps)[i])) == i
  {
    var d := FirstOccurrences(key, ps);
    var j := Slot(key, d, key(d[i]));
    HasKeyAt(key, d, i);
    if j < i {
      DistinctKeys(key, ps, j, i);
    } else if i < j {
      SlotNotAfter(key, d, i, key(d[i]));
    }
  }

  /** The slot of a key is no later than any point carrying it. */
  lemma {:induction false} SlotNotAfter(key: KeyFn, vs: seq<Vertex>, i: nat, k: string)
    requires i < |vs| && key(vs[i]) == k
    ensures Slot(key, vs, k) <= i
    decreases |vs|
  {
    var prefix, p := vs[..|vs| - 1], vs[|vs| - 1];
    assert vs == prefix + [p];
    if i < |prefix| {
      HasKeyAt(key, prefix, i);
      SlotNotAfter(key, prefix, i, k);
    }
  }

  /**
    The vertex kept for a key is the FIRST point read with that key: later
    points with the same key never replace it.
   */
  lemma {:induction false} FirstPointKept(key: KeyFn, ps: seq<Vertex>, k: string)
    requires HasKey(key, ps, k)
    ensures Slot(key, FirstOccurrences(key, ps), k) < |FirstOccurrences(key, ps)|
    ensures FirstOccurrences(key, ps)[Slot(key, FirstOccurrences(key, ps), k)] == ps[Slot(key, ps, k)]
    decreases |ps|
  {
    var prefix, p := ps[..|ps| - 1], ps[|ps| - 1];
    var d := FirstOccurrences(key, prefix);
    assert ps == prefix + [p];
    FirstOccurrencesKeys(key, ps, k);
    FirstOccurrencesAppend(key, prefix, p);
    FirstOccurrencesKeys(key, prefix, k);
    SlotAppend(key, prefix, p, k);
    if HasKey(key, prefix, k) {
      FirstPointKept(key, prefix, k);
      if HasKey(key, prefix, key(p)) {
        assert FirstOccurrences(key, ps) == d;
      } else {
        assert FirstOccurrences(key, ps) == d + [p];
        SlotAppend(key, d, p, k);
      }
    } else {
      assert FirstOccurrences(key, ps) == d + [p];
      SlotAppend(key, d, p, k);
    }
  }

  /** Every vertex of the deduplicated list is one of the points read. */
  lemma {:induction false} FirstOccurrencesFrom(key: KeyFn, ps: seq<Vertex>, i: nat)
    requires i < |FirstOccurrences(key, ps)|
    ensures FirstOccurrences(key, ps)[i] in ps
    decreases |ps|
  {
    var prefix, p := ps[..|ps| - 1], ps[|ps| - 1];
    assert ps == prefix + [p];
    FirstOccurrencesAppend(key, prefix, p);
    if i < |FirstOccurrences(key, prefix)| {
      FirstOccurrencesFrom(key, prefix, i);
    }
  }
}
