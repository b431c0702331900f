/**
  The slice of tinyxml2 that the engine relies on, as values.

  An element keeps its name, its attributes and its element children in
  document order (text, comments and declarations play no part in the
  engine, so they are not kept). Each attribute carries its text together
  with what tinyxml2's integer and float conversions make of it: `None`
  when the text does not convert, in which case `QueryIntAttribute` and
  `QueryFloatAttribute` leave their target untouched.

  The file system is a map from file name to the parse outcome: a name
  that is not in the map cannot be opened, `None` is a file that opens but
  does not parse, `Some(doc)` is a parsed document.
 */
module Xml {

  datatype Option<+T> = None | Some(value: T)

  datatype Attr = Attr(text: string, asInt: Option<int>, asFloat: Option<real>)

  datatype Element = Element(name: string, attrs: map<string, Attr>, children: seq<Element>)

  /** The element children of the document node, in document order. */
  datatype Document = Document(roots: seq<Element>)

  type Files = map<string, Option<Document>>

  /** `XMLDocument::LoadFile`: a document only when the file opens and parses. */
  function LoadFile(files: Files, name: string): (r: Option<Document>)
    ensures r.Some? <==> name in files && files[name].Some?
    ensures r.Some? ==> r.value == files[name].value
  {
    if name in files then files[name] else None
  }

  /**
    The elements reached by `FirstChildElement(name)` followed by repeated
    `NextSiblingElement(name)`: every child called `name` and nothing else,
    in document order.
   */
  function ChildrenNamed(children: seq<Element>, name: string): (r: seq<Element>)
    ensures |r| <= |children|
    ensures forall c :: c in r ==> c in children && c.name == name
    ensures forall i :: 0 <= i < |children| && children[i].name == name ==> children[i] in r
    ensures (forall c :: c in children ==> c.name != name) <==> r == []
  {
    if children == [] then []
    else
      var rest := ChildrenNamed(children[1..], name);
      assert forall i :: 1 <= i < |children| ==> children[i] == children[1..][i - 1];
      if children[0].name == name then [children[0]] + rest else rest
  }

  /** `FirstChildElement(name)`: the first child called `name`, or null. */
  function FirstNamed(children: seq<Element>, name: string): (r: Option<Element>)
    ensures r.Some? <==> exists i :: 0 <= i < |children| && children[i].name == name
    ensures r.Some? ==> r.value == ChildrenNamed(children, name)[0]
    ensures r.Some? ==> r.value in children && r.value.name == name
    ensures forall i :: 0 <= i < |children| && children[i].name == name && NoneNamedBefore(children, name, i) ==>
                r == Some(children[i])
  {
    var named := ChildrenNamed(children, name);
    if named == [] then None
    else
      FirstNamedAt(children, name);
      Some(named[0])
  }

  /** No child before position `i` is called `name`. */
  predicate NoneNamedBefore(children: seq<Element>, name: string, i: int)
    requires 0 <= i <= |children|
  {
    forall j :: 0 <= j < i ==> children[j].name != name
  }

  /** The walk meets the children called `name` in document order. */
  lemma {:induction false} ChildrenNamedConcat(a: seq<Element>, b: seq<Element>, name: string)
    ensures ChildrenNamed(a + b, name) == ChildrenNamed(a, name) + ChildrenNamed(b, name)
    decreases |a|
  {
    if a == [] {
      assert a + b == b;
    } else {
      var ab := a + b;
      assert ab[0] == a[0] && ab[1..] == a[1..] + b;
      ChildrenNamedConcat(a[1..], b, name);
      var rest := ChildrenNamed(a[1..], name) + ChildrenNamed(b, name);
      assert ChildrenNamed(ab, name) == (if a[0].name == name then [a[0]] + rest else rest);
    }
  }

  /** The first child the walk meets is the first child called `name`. */
  lemma {:induction false} FirstNamedAt(children: seq<Element>, name: string)
    ensures forall i :: 0 <= i < |children| && children[i].name == name && NoneNamedBefore(children, name, i) ==>
                ChildrenNamed(children, name) != [] && ChildrenNamed(children, name)[0] == children[i]
    decreases |children|
  {
    if children != [] {
      FirstNamedAt(children[1..], name);
      forall i | 0 <= i < |children| && children[i].name == name && NoneNamedBefore(children, name, i)
        ensures ChildrenNamed(children, name) != [] && ChildrenNamed(children, name)[0] == children[i]
      {
        if i > 0 {
          assert children[1..][i - 1] == children[i];
          assert NoneNamedBefore(children[1..], name, i - 1) by {
            forall j | 0 <= j < i - 1 ensures children[1..][j].name != name {
              assert children[1..][j] == children[j + 1];
            }
          }
        }
      }
    }
  }

  /** `Attribute(name)`: the attribute's text, or null when it is absent. */
  function Attribute(e: Element, name: string): (r: Option<string>)
    ensures r.Some? <==> name in e.attrs
    ensures r.Some? ==> r.value == e.attrs[name].text
  {
    if name in e.attrs then Some(e.attrs[name].text) else None
  }

  /** `QueryIntAttribute(name, &target)`: the target after the call. */
  function QueryInt(e: Element, name: string, target: int): (r: int)
    ensures name !in e.attrs ==> r == target
    ensures name in e.attrs && e.attrs[name].asInt.None? ==> r == target
    ensures name in e.attrs && e.attrs[name].asInt.Some? ==> r == e.attrs[name].asInt.value
  {
    if name in e.attrs && e.attrs[name].asInt.Some? then e.attrs[name].asInt.value else target
  }

  /** `QueryFloatAttribute(name, &target)`: the target after the call. */
  function QueryFloat(e: Element, name: string, target: real): (r: real)
    ensures name !in e.attrs ==> r == target
    ensures name in e.attrs && e.attrs[name].asFloat.None? ==> r == target
    ensures name in e.attrs && e.attrs[name].asFloat.Some? ==> r == e.attrs[name].asFloat.value
  {
    if name in e.attrs && e.attrs[name].asFloat.Some? then e.attrs[name].asFloat.value else target
  }

  /** Each query on an absent element child reads as "keep the defaults". */
  function QueryFloatIn(e: Option<Element>, name: string, target: real): (r: real)
    ensures e.None? ==> r == target
    ensures e.Some? ==> r == QueryFloat(e.value, name, target)
  {
    if e.Some? then QueryFloat(e.value, name, target) else target
  }

  /** One more step of a loop that walks the children in order. */
  lemma SliceStep<T>(s: seq<T>, j: nat)
    requires j < |s|
    ensures s[..j + 1] == s[..j] + [s[j]]
  {
  }

  /** Appending to a log that already extends `before`. */
  lemma ConcatAssoc<T>(before: seq<T>, done: seq<T>, more: seq<T>)
    ensures before + done + more == before + (done + more)
  {
  }
}
