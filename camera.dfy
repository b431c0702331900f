/**
  The camera is a collaborator whose implementation is not part of this
  model. What the engine does to it is call four setters; the camera here
  records each call with its arguments, in call order.
 */
module Cameras {

  datatype CameraCall =
    | SetPosition(x: real, y: real, z: real)
    | SetLookAt(x: real, y: real, z: real)
    | SetUp(x: real, y: real, z: real)
    | SetProjection(fov: real, near: real, far: real)

  class Camera {
    /** Every setter call made on this camera so far. */
    var calls: seq<CameraCall>

    constructor ()
      ensures calls == []
    {
      calls := [];
    }

    method SetPosition(x: real, y: real, z: real)
      modifies this
      ensures calls == old(calls) + [CameraCall.SetPosition(x, y, z)]
    {
      calls := calls + [CameraCall.SetPosition(x, y, z)];
    }

    method SetLookAt(x: real, y: real, z: real)
      modifies this
      ensures calls == old(calls) + [CameraCall.SetLookAt(x, y, z)]
    {
      calls := calls + [CameraCall.SetLookAt(x, y, z)];
    }

    method SetUp(x: real, y: real, z: real)
      modifies this
      ensures calls == old(calls) + [CameraCall.SetUp(x, y, z)]
    {
      calls := calls + [CameraCall.SetUp(x, y, z)];
    }

    method SetProjection(fov: real, near: real, far: real)
      modifies this
      ensures calls == old(calls) + [CameraCall.SetProjection(fov, near, far)]
    {
      calls := calls + [CameraCall.SetProjection(fov, near, far)];
    }
  }
}
