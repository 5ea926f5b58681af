/** Message types the two relay nodes exchange with the middleware.

    `Odometry` follows the layout of a nav_msgs/Odometry record: a header, the
    child frame name, a pose with its covariance and a twist with its covariance.
    Numbers are `real`: the relays only copy, swap and negate them, which is exact.
    `FcuState` is the flight-controller link status (a mavros_msgs/State record
    without its header: nothing reads the header, and the status callbacks
    replace the whole record).
 */
module Messages {

  datatype Option<+T> = None | Some(value: T)

  datatype Vec3 = Vec3(x: real, y: real, z: real)

  datatype Quat = Quat(x: real, y: real, z: real, w: real)

  /** Time stamps are integer nanoseconds. */
  datatype Header = Header(seqNo: nat, stampNs: int, frameId: string)

  datatype Pose = Pose(position: Vec3, orientation: Quat)

  datatype PoseWithCovariance = PoseWithCovariance(pose: Pose, covariance: seq<real>)

  datatype Twist = Twist(linear: Vec3, angular: Vec3)

  datatype TwistWithCovariance = TwistWithCovariance(twist: Twist, covariance: seq<real>)

  datatype Odometry = Odometry(
    header: Header,
    childFrameId: string,
    pose: PoseWithCovariance,
    twist: TwistWithCovariance)

  datatype FcuState = FcuState(
    connected: bool,
    armed: bool,
    guided: bool,
    manualInput: bool,
    mode: string,
    systemStatus: nat)

  /** The value of a freshly constructed status record: every flag false. */
  const INITIAL_STATE: FcuState := FcuState(false, false, false, false, "", 0)

  function Norm2(v: Vec3): real
  {
    v.x * v.x + v.y * v.y + v.z * v.z
  }

  function QuatNorm2(q: Quat): real
  {
    q.x * q.x + q.y * q.y + q.z * q.z + q.w * q.w
  }
}
