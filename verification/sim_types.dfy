/**
  The data of the maneuver sequencer (`SimManager`): its enums, the scripted
  configurations, the wheel actuators, the telemetry buffers it exports and the
  run-time state that one physics tick reads and writes.
 */
module SimTypes {
  import opened Wrappers
  import opened Geometry

  /** Which mass object models the drivetrain: internal combustion or electric. */
  datatype WeightConfig = IC | EV

  /** `WeightConfig.Count`, the sentinel that follows the last real member. */
  const WeightCount := 2

  function WeightOrdinal(w: WeightConfig): (k: int)
    ensures 0 <= k < WeightCount
  {
    match w
    case IC => 0
    case EV => 1
  }

  function WeightOf(k: int): (w: WeightConfig)
    requires 0 <= k < WeightCount
    ensures WeightOrdinal(w) == k
  {
    if k == 0 then IC else EV
  }

  datatype CameraMode = Heli | Behind | Side

  /** `CameraMode.Count` */
  const CameraCount := 3

  function CameraOrdinal(c: CameraMode): (k: int)
    ensures 0 <= k < CameraCount
  {
    match c
    case Heli => 0
    case Behind => 1
    case Side => 2
  }

  function CameraOf(k: int): (c: CameraMode)
    requires 0 <= k < CameraCount
    ensures CameraOrdinal(c) == k
  {
    if k == 0 then Heli else if k == 1 then Behind else Side
  }

  /** One entry of a scripted turn sequence: steer angle in degrees, duration in seconds. */
  datatype ConfigTurn = ConfigTurn(angle: real, duration: real)

  /** One scripted maneuver. */
  datatype SimConfig = SimConfig(name: string, weight: WeightConfig, initSpeed: real, turns: seq<ConfigTurn>)

  /** The four phases of a maneuver. */
  datatype SimState = Acc | Turn | Rest | End

  /** A wheel collider: its local longitudinal position and the three actuation values the script sets. */
  datatype Wheel = Wheel(z: real, motorTorque: real, brakeTorque: real, steerAngle: real)

  /** The per-wheel telemetry series: force, longitudinal slip and lateral slip. */
  datatype WheelSeries = WheelSeries(force: seq<real>, long: seq<real>, lat: seq<real>)

  /** The telemetry buffers: car-level series and one `WheelSeries` per wheel. */
  datatype Telemetry = Telemetry(time: seq<real>, velocity: seq<real>, roll: seq<real>, wheels: seq<WheelSeries>)

  /** `ClearAll` on the car data and on every wheel's data: every buffer becomes empty. */
  function Cleared(tel: Telemetry): (r: Telemetry)
    ensures |r.time| == |r.velocity| == |r.roll| == 0
    ensures |r.wheels| == |tel.wheels|
    ensures forall k :: 0 <= k < |r.wheels| ==> |r.wheels[k].force| == |r.wheels[k].long| == |r.wheels[k].lat| == 0
  {
    Telemetry([], [], [], seq(|tel.wheels|, _ => WheelSeries([], [], [])))
  }

  /**
    The inspector-set values a tick reads but never writes, plus `format`, the
    float-to-string conversion used in file names (left uninterpreted).
   */
  datatype Settings = Settings(
    configs: seq<SimConfig>,
    driveForce: real,
    restTime: real,
    spawn: Vec3,
    format: real -> string)

  /** The mutable fields of `SimManager` together with the scene objects it writes. */
  datatype Sim = Sim(
    started: bool,
    state: SimState,
    configIndex: nat,
    turns: seq<ConfigTurn>,
    turnIndex: nat,
    simTimer: real,
    turnTimer: real,
    restTimer: real,
    configName: string,
    turnSpeed: real,
    weight: WeightConfig,
    camera: CameraMode,
    batteryActive: bool,
    engineActive: bool,
    wheels: seq<Wheel>,
    body: Body,
    telemetry: Telemetry)

  /** The exceptions the code can raise: an out-of-range list index in each of three places. */
  datatype Fault = ConfigIndexOutOfRange | TurnIndexOutOfRange | TelemetryIndexOutOfRange

  /** The result of an operation that may throw part-way: the state it leaves, and the exception if any. */
  datatype Outcome = Outcome(next: Sim, fault: Option<Fault>)

  /** `UpdateWeightConfig`: exactly one of battery pack and engine block is active, the battery exactly for EV. */
  function UpdateWeightConfig(s: Sim): (r: Sim)
    ensures r.batteryActive != r.engineActive
    ensures r.batteryActive <==> s.weight == EV
    ensures r == s.(batteryActive := r.batteryActive, engineActive := r.engineActive)
  {
    match s.weight
    case EV => s.(batteryActive := true, engineActive := false)
    case IC => s.(batteryActive := false, engineActive := true)
  }

  /** `ResetCar` (without its sleep/wake coroutine): the car is put upright at the spawn point and stopped. */
  function ResetCar(b: Body, spawn: Vec3): (r: Body)
    ensures r.position == spawn && r.rotation == Identity && r.velocity == Zero
    ensures r.angularVelocity == b.angularVelocity
  {
    b.(rotation := Identity, position := spawn, velocity := Zero)
  }
}
