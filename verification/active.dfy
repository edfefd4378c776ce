/** The extruder a toolhead drives: a configured extruder, or the stand-in
    used when the printer has no extruder at all. Both answer the same
    calls. */
module ActiveExtruder {
  import opened ExtruderTypes
  import ExtrusionLimits
  import MoveProjection

  datatype Active = Configured(ext: Extruder) | NoExtruder

  /** Validate a move against whichever extruder is active; the stand-in
      refuses every move, whatever the heater or the move. */
  function CheckMove(a: Active, canExtrude: bool, m: Move): (v: ExtrusionLimits.Verdict)
    requires a.Configured? ==> a.ext.cfg.Valid() && m.moveD > 0.0
    ensures a.NoExtruder? ==> v == ExtrusionLimits.Reject(ExtrusionLimits.NoExtruderPresent(m.endPos))
    ensures a.Configured? ==> v == ExtrusionLimits.CheckMove(a.ext.cfg, canExtrude, m)
    ensures !v.Reject? ==> a.Configured? && canExtrude
  {
    match a
    case Configured(ext) => ExtrusionLimits.CheckMove(ext.cfg, canExtrude, m)
    case NoExtruder => ExtrusionLimits.Reject(ExtrusionLimits.NoExtruderPresent(m.endPos))
  }

  /** Junction bound of the active extruder; the stand-in leaves the move's
      own limit in force. */
  function CalcJunction(a: Active, prev: Move, m: Move): (v2: real)
    requires a.Configured? ==> prev.moveD > 0.0 && m.moveD > 0.0
    ensures a.NoExtruder? ==> v2 == m.maxCruiseV2
    ensures a.Configured? ==> v2 == ExtrusionLimits.CalcJunction(a.ext.cfg, prev, m)
  {
    match a
    case Configured(ext) => ExtrusionLimits.CalcJunction(ext.cfg, prev, m)
    case NoExtruder => m.maxCruiseV2
  }

  /** Extruder position reported on activation: the stand-in contributes none. */
  function SetActive(a: Active): (pos: real)
    ensures a.NoExtruder? ==> pos == 0.0
    ensures a.Configured? ==> pos == a.ext.extrudePos
  {
    match a
    case Configured(ext) => MoveProjection.SetActive(ext)
    case NoExtruder => 0.0
  }

  /** Motor off: the stand-in does nothing. */
  function MotorOff(a: Active, printTime: real): (r: (Active, seq<Event>))
    ensures a.NoExtruder? ==> r == (a, [])
    ensures a.Configured? ==>
              r == (Configured(a.ext.(needMotorEnable := true)), [MotorEnable(printTime, false)])
  {
    match a
    case Configured(ext) =>
      var step := MoveProjection.MotorOff(ext, printTime);
      (Configured(step.ext), step.events)
    case NoExtruder => (a, [])
  }
}
