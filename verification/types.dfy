/** Data model of one printer extruder: the planned move it is handed, its
    validated configuration, its mutable pressure-advance and position state,
    and the calls it makes into its external collaborators (planner, iterative
    solver, motor driver), recorded as events. */
module ExtruderTypes {

  /** Optional parameter value, as for a command parameter that may be absent. */
  datatype Option<+T> = None | Some(value: T) {
    /** The carried value, or `default` when absent. */
    function GetOr(default: T): T {
      match this
      case Some(v) => v
      case None => default
    }
  }

  function Abs(x: real): real {
    if x < 0.0 then -x else x
  }

  /** A position or displacement on the toolhead's four axes; `e` is the
      extruder axis (index 3 in the source). */
  datatype Coord = Coord(x: real, y: real, z: real, e: real)

  /** A move as produced by the trapezoidal planner, read-only here.
      `moveD` is the move's length, `maxCruiseV2` its own squared cruise
      limit, and the three phase times describe the accel/cruise/decel
      trapezoid that all axes share. */
  datatype Move = Move(
    axesD: Coord,
    moveD: real,
    isKinematicMove: bool,
    startPos: Coord,
    endPos: Coord,
    accel: real,
    startV: real,
    cruiseV: real,
    accelT: real,
    cruiseT: real,
    decelT: real,
    maxCruiseV2: real)

  /** Extruder-axis displacement per unit of move length. */
  function ExtrudeRatio(m: Move): real
    requires m.moveD > 0.0
  {
    m.axesD.e / m.moveD
  }

  /** The validated configuration of one extruder; derived values
      (`filamentArea`, `maxExtrudeRatio`) are taken as given reals. */
  datatype Config = Config(
    nozzleDiameter: real,
    filamentArea: real,
    maxExtrudeRatio: real,
    maxEVelocity: real,
    maxEAccel: real,
    maxEDist: real,
    instantCornerV: real)
  {
    /** The signs the configuration layer guarantees. */
    predicate Valid() {
      && nozzleDiameter > 0.0
      && filamentArea > 0.0
      && maxExtrudeRatio > 0.0
      && maxEVelocity > 0.0
      && maxEAccel > 0.0
      && maxEDist >= 0.0
      && instantCornerV >= 0.0
    }
  }

  /** Upper bound on the smoothing time accepted from the configuration file. */
  const MaxConfigSmoothTime: real := 0.100
  /** Upper bound on the smoothing time accepted by SET_PRESSURE_ADVANCE. */
  const MaxCommandSmoothTime: real := 0.105

  /** One extruder instance: its configuration, the raw pressure-advance
      values last requested, the one-shot motor-enable latch and the two
      position counters. */
  datatype Extruder = Extruder(
    cfg: Config,
    pressureAdvance: real,
    smoothTime: real,
    needMotorEnable: bool,
    extrudePos: real,
    extrudePaPos: real)
  {
    predicate Valid() {
      && cfg.Valid()
      && pressureAdvance >= 0.0
      && 0.0 <= smoothTime <= MaxCommandSmoothTime
    }
  }

  /** The time-windowed segment handed to the iterative solver for one move. */
  datatype Segment = Segment(
    printTime: real,
    accelT: real,
    cruiseT: real,
    decelT: real,
    startPos: real,
    paPos: real,
    startV: real,
    cruiseV: real,
    accel: real,
    isPaMove: bool)

  /** A call into an external collaborator. */
  datatype Event =
    | FlushDelay(newDelay: real, oldDelay: real)  // planner: note_flush_delay
    | SetPressure(advance: real, smoothTime: real) // solver: extruder_set_pressure
    | MotorEnable(printTime: real, enable: bool)   // stepper: motor_enable
    | MoveFill(segment: Segment)                   // solver: extruder_move_fill

  /** The state after an operation together with the calls it made, in order. */
  datatype Step = Step(ext: Extruder, events: seq<Event>)
}
