/**
 * Scene-graph transforms and the float geometry the protocol consults. Float arithmetic is not
 * modelled: distance, angle and multiplication are supplied as functions.
 */
module Scene {
  import opened Wire

  datatype Pose = Pose(position: Vec3, rotation: Quat)
  datatype FullPose = FullPose(position: Vec3, rotation: Quat, scale: Vec3)

  /** Vector3.Distance, Quaternion.Angle (degrees) and float multiplication. */
  datatype Geometry = Geometry(
    distance: (Vec3, Vec3) -> real,
    angle: (Quat, Quat) -> real,
    mul: (Float32, Float32) -> Float32)

  /**
   * A Unity transform. Local and global fields are stored side by side; the engine's
   * recomputation of one frame from the other is float geometry, so setting one frame
   * leaves the derived fields of the other unconstrained.
   */
  class Transform {
    const name: string
    const parent: Transform?
    var localPosition: Vec3
    var localRotation: Quat
    var localScale: Vec3
    var position: Vec3
    var rotation: Quat
    var lossyScale: Vec3

    constructor (name: string, parent: Transform?, local: FullPose, global: FullPose)
      ensures this.name == name && this.parent == parent
      ensures LocalFull() == local && GlobalFull() == global
    {
      this.name := name;
      this.parent := parent;
      localPosition, localRotation, localScale := local.position, local.rotation, local.scale;
      position, rotation, lossyScale := global.position, global.rotation, global.scale;
    }

    function LocalPose(): Pose
      reads this
    {
      Pose(localPosition, localRotation)
    }

    function GlobalPose(): Pose
      reads this
    {
      Pose(position, rotation)
    }

    function LocalFull(): FullPose
      reads this
    {
      FullPose(localPosition, localRotation, localScale)
    }

    function GlobalFull(): FullPose
      reads this
    {
      FullPose(position, rotation, lossyScale)
    }

    /** Assigning localPosition and localRotation; the world position and rotation follow. */
    method SetLocalPose(p: Vec3, r: Quat)
      modifies this
      ensures localPosition == p && localRotation == r
      ensures localScale == old(localScale) && lossyScale == old(lossyScale)
    {
      localPosition, localRotation := p, r;
      position, rotation := *, *;
    }

    /** SetPositionAndRotation; the local position and rotation follow. */
    method SetPositionAndRotation(p: Vec3, r: Quat)
      modifies this
      ensures position == p && rotation == r
      ensures localScale == old(localScale) && lossyScale == old(lossyScale)
    {
      position, rotation := p, r;
      localPosition, localRotation := *, *;
    }

    /** Assigning localScale; the lossy scale follows. */
    method SetLocalScale(s: Vec3)
      modifies this
      ensures localScale == s
      ensures LocalPose() == old(LocalPose()) && GlobalPose() == old(GlobalPose())
    {
      localScale := s;
      lossyScale := *;
    }
  }
}
