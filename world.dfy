/**
  The `world` settings that engine/engine.cpp and engine/parser.cpp read
  in the same way: the window size and the camera. The two files differ
  only in the default camera height (`posZ` is 5 in the engine and 0 in
  the parser), which is a parameter here. Both also find a group's models
  in the same place.
 */
module World {
  import opened Xml
  import opened Cameras

  /** `doc.LoadFile(filename)` followed by `doc.FirstChildElement("world")`. */
  function WorldOf(files: Files, filename: string): (r: Option<Element>)
    ensures r.Some? <==> LoadFile(files, filename).Some? && FirstNamed(LoadFile(files, filename).value.roots, "world").Some?
    ensures r.Some? ==> r.value.name == "world"
  {
    match LoadFile(files, filename)
    case None => None
    case Some(doc) => FirstNamed(doc.roots, "world")
  }

  /** The `model` elements of the first `models` child of a `group`; none without one. */
  function ModelElements(e: Element): (ms: seq<Element>)
    ensures FirstNamed(e.children, "models").None? ==> ms == []
    ensures FirstNamed(e.children, "models").Some? ==> ms == ChildrenNamed(FirstNamed(e.children, "models").value.children, "model")
  {
    match FirstNamed(e.children, "models")
    case None => []
    case Some(models) => ChildrenNamed(models.children, "model")
  }

  /**
    The window size after reading the first `window` child of `world`: each
    of width and height is overwritten only by an attribute that is present
    and converts to an integer.
   */
  function WindowSize(world: Element, width: int, height: int): (r: (int, int))
    ensures FirstNamed(world.children, "window").None? ==> r == (width, height)
    ensures FirstNamed(world.children, "window").Some? ==>
      var w := FirstNamed(world.children, "window").value;
      && ("width" in w.attrs && w.attrs["width"].asInt.Some? ==> r.0 == w.attrs["width"].asInt.value)
      && (!("width" in w.attrs && w.attrs["width"].asInt.Some?) ==> r.0 == width)
      && ("height" in w.attrs && w.attrs["height"].asInt.Some? ==> r.1 == w.attrs["height"].asInt.value)
      && (!("height" in w.attrs && w.attrs["height"].asInt.Some?) ==> r.1 == height)
  {
    match FirstNamed(world.children, "window")
    case None => (width, height)
    case Some(w) => (QueryInt(w, "width", width), QueryInt(w, "height", height))
  }

  /**
    The setter calls made on the camera: none without a `camera` child;
    otherwise position, look-at point, up vector and projection, in that
    order, each component read from the first child of its name and
    defaulting independently of the others.
   */
  function CameraCalls(world: Element, posZ: real): (r: seq<CameraCall>)
    ensures FirstNamed(world.children, "camera").None? <==> r == []
    ensures r != [] ==> |r| == 4 && r[0].SetPosition? && r[1].SetLookAt? && r[2].SetUp? && r[3].SetProjection?
  {
    match FirstNamed(world.children, "camera")
    case None => []
    case Some(cam) => CameraCallsFor(cam, posZ)
  }

  /** The four calls a `camera` element makes, each child read on its own. */
  function CameraCallsFor(cam: Element, posZ: real): (r: seq<CameraCall>)
    ensures |r| == 4 && r[0].SetPosition? && r[1].SetLookAt? && r[2].SetUp? && r[3].SetProjection?
  {
    var pos := FirstNamed(cam.children, "position");
    var look := FirstNamed(cam.children, "lookAt");
    var up := FirstNamed(cam.children, "up");
    var proj := FirstNamed(cam.children, "projection");
    [ CameraCall.SetPosition(QueryFloatIn(pos, "x", 0.0), QueryFloatIn(pos, "y", 0.0), QueryFloatIn(pos, "z", posZ)),
      CameraCall.SetLookAt(QueryFloatIn(look, "x", 0.0), QueryFloatIn(look, "y", 0.0), QueryFloatIn(look, "z", 0.0)),
      CameraCall.SetUp(QueryFloatIn(up, "x", 0.0), QueryFloatIn(up, "y", 1.0), QueryFloatIn(up, "z", 0.0)),
      CameraCall.SetProjection(QueryFloatIn(proj, "fov", 60.0), QueryFloatIn(proj, "near", 1.0), QueryFloatIn(proj, "far", 1000.0)) ]
  }

  /** A `camera` element with none of the four children sets exactly the defaults. */
  lemma CameraDefaults(world: Element, posZ: real)
    requires FirstNamed(world.children, "camera").Some?
    requires var cam := FirstNamed(world.children, "camera").value;
      && ChildrenNamed(cam.children, "position") == [] && ChildrenNamed(cam.children, "lookAt") == []
      && ChildrenNamed(cam.children, "up") == [] && ChildrenNamed(cam.children, "projection") == []
    ensures CameraCalls(world, posZ)
         == [ CameraCall.SetPosition(0.0, 0.0, posZ), CameraCall.SetLookAt(0.0, 0.0, 0.0),
              CameraCall.SetUp(0.0, 1.0, 0.0), CameraCall.SetProjection(60.0, 1.0, 1000.0) ]
  {
  }

  /** Without a `position` child the camera goes to (0, 0, posZ), whatever the other children hold. */
  lemma PositionDefault(world: Element, posZ: real)
    requires FirstNamed(world.children, "camera").Some?
    requires ChildrenNamed(FirstNamed(world.children, "camera").value.children, "position") == []
    ensures CameraCalls(world, posZ)[0] == CameraCall.SetPosition(0.0, 0.0, posZ)
  {
  }

  /** Without a `lookAt` child the camera looks at the origin, whatever the other children hold. */
  lemma LookAtDefault(world: Element, posZ: real)
    requires FirstNamed(world.children, "camera").Some?
    requires ChildrenNamed(FirstNamed(world.children, "camera").value.children, "lookAt") == []
    ensures CameraCalls(world, posZ)[1] == CameraCall.SetLookAt(0.0, 0.0, 0.0)
  {
  }

  /** Without an `up` child the up vector is (0, 1, 0), whatever the other children hold. */
  lemma UpDefault(world: Element, posZ: real)
    requires FirstNamed(world.children, "camera").Some?
    requires ChildrenNamed(FirstNamed(world.children, "camera").value.children, "up") == []
    ensures CameraCalls(world, posZ)[2] == CameraCall.SetUp(0.0, 1.0, 0.0)
  {
  }

  /** Without a `projection` child the projection is fov 60, near 1, far 1000, whatever the other children hold. */
  lemma ProjectionDefault(world: Element, posZ: real)
    requires FirstNamed(world.children, "camera").Some?
    requires ChildrenNamed(FirstNamed(world.children, "camera").value.children, "projection") == []
    ensures CameraCalls(world, posZ)[3] == CameraCall.SetProjection(60.0, 1.0, 1000.0)
  {
  }

  /**
    Inside a `projection` child, each of `fov`, `near` and `far` is its own
    attribute when that converts and its own default otherwise.
   */
  lemma ProjectionAttributes(world: Element, posZ: real)
    requires FirstNamed(world.children, "camera").Some?
    requires FirstNamed(FirstNamed(world.children, "camera").value.children, "projection").Some?
    ensures var p := FirstNamed(FirstNamed(world.children, "camera").value.children, "projection").value;
      var call := CameraCalls(world, posZ)[3];
      && ("fov" in p.attrs && p.attrs["fov"].asFloat.Some? ==> call.fov == p.attrs["fov"].asFloat.value)
      && (!("fov" in p.attrs && p.attrs["fov"].asFloat.Some?) ==> call.fov == 60.0)
      && ("near" in p.attrs && p.attrs["near"].asFloat.Some? ==> call.near == p.attrs["near"].asFloat.value)
      && (!("near" in p.attrs && p.attrs["near"].asFloat.Some?) ==> call.near == 1.0)
      && ("far" in p.attrs && p.attrs["far"].asFloat.Some? ==> call.far == p.attrs["far"].asFloat.value)
      && (!("far" in p.attrs && p.attrs["far"].asFloat.Some?) ==> call.far == 1000.0)
  {
  }

  /**
    Each camera component depends only on its own attribute: two cameras
    whose `projection` children agree on `fov` (both absent, or both
    present with the same value) get the same field of view, whatever else
    they hold.
   */
  lemma ProjectionFovIndependent(w1: Element, w2: Element, z1: real, z2: real)
    requires FirstNamed(w1.children, "camera").Some? && FirstNamed(w2.children, "camera").Some?
    requires var p1 := FirstNamed(FirstNamed(w1.children, "camera").value.children, "projection");
             var p2 := FirstNamed(FirstNamed(w2.children, "camera").value.children, "projection");
             QueryFloatIn(p1, "fov", 60.0) == QueryFloatIn(p2, "fov", 60.0)
    ensures CameraCalls(w1, z1)[3].fov == CameraCalls(w2, z2)[3].fov
  {
  }

  /**
    `camera->setPosition(...)` and the three other setters, in source order:
    the camera's call log grows by exactly `CameraCalls(world, posZ)`.
   */
  method ApplyCamera(world: Element, posZ: real, camera: Camera)
    modifies camera
    ensures camera.calls == old(camera.calls) + CameraCalls(world, posZ)
  {
    var cameraElement := FirstNamed(world.children, "camera");
    if cameraElement.Some? {
      var cam := cameraElement.value;
      var posX, posY, posZ' := QueryTriple(FirstNamed(cam.children, "position"), "x", "y", "z", 0.0, 0.0, posZ);
      var lookX, lookY, lookZ := QueryTriple(FirstNamed(cam.children, "lookAt"), "x", "y", "z", 0.0, 0.0, 0.0);
      var upX, upY, upZ := QueryTriple(FirstNamed(cam.children, "up"), "x", "y", "z", 0.0, 1.0, 0.0);
      var fov, near, far := QueryTriple(FirstNamed(cam.children, "projection"), "fov", "near", "far", 60.0, 1.0, 1000.0);
      CallSetters(camera, posX, posY, posZ', lookX, lookY, lookZ, upX, upY, upZ, fov, near, far);
    }
  }

  /** The four setter calls that end the camera section, in source order. */
  method CallSetters(camera: Camera, posX: real, posY: real, posZ: real, lookX: real, lookY: real, lookZ: real,
                     upX: real, upY: real, upZ: real, fov: real, near: real, far: real)
    modifies camera
    ensures camera.calls == old(camera.calls)
      + [ CameraCall.SetPosition(posX, posY, posZ), CameraCall.SetLookAt(lookX, lookY, lookZ),
          CameraCall.SetUp(upX, upY, upZ), CameraCall.SetProjection(fov, near, far) ]
  {
    camera.SetPosition(posX, posY, posZ);
    camera.SetLookAt(lookX, lookY, lookZ);
    camera.SetUp(upX, upY, upZ);
    camera.SetProjection(fov, near, far);
  }

  /**
    One `if (element) { three QueryFloatAttribute calls }` block of the
    camera section: the three targets start at their defaults and are
    overwritten only when the element and the attribute are present.
   */
  method QueryTriple(e: Option<Element>, n1: string, n2: string, n3: string, d1: real, d2: real, d3: real)
    returns (a: real, b: real, c: real)
    ensures a == QueryFloatIn(e, n1, d1) && b == QueryFloatIn(e, n2, d2) && c == QueryFloatIn(e, n3, d3)
  {
    a, b, c := d1, d2, d3;
    if e.Some? {
      a := QueryFloat(e.value, n1, a);
      b := QueryFloat(e.value, n2, b);
      c := QueryFloat(e.value, n3, c);
    }
  }
}
