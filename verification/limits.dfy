/** Extrusion limits: validating a candidate move (`check_move`) and the
    extruder's contribution to the junction speed between two moves
    (`calc_junction`). */
module ExtrusionLimits {
  import opened ExtruderTypes

  /** Why a move is refused. */
  datatype MoveError =
    | BelowMinTemp
    | ExtrudeOnlyTooLong(distance: real, maxDistance: real)
    | CrossSectionTooLarge(area: real, maxArea: real)
      // a non-kinematic move with no extrusion: the ratio inverse divides by zero
    | ZeroExtrudeRatio
    | NoExtruderPresent(endPos: Coord)

  /** Outcome of checking a move: accepted as is, accepted once its speed and
      acceleration are capped, or refused. */
  datatype Verdict =
    | Accept
    | AcceptWithLimit(speed: real, accel: real)
    | Reject(error: MoveError)

  /** The move is treated as extrude-only: it has no kinematic motion, or it
      retracts filament. */
  predicate IsExtrudeOnly(m: Move)
    requires m.moveD > 0.0
  {
    !m.isKinematicMove || ExtrudeRatio(m) < 0.0
  }

  /** Extruder-axis speed while the move travels at Cartesian speed `v`. */
  function AxisRate(v: real, m: Move): real
    requires m.moveD > 0.0
  {
    v * Abs(ExtrudeRatio(m))
  }

  /** Validate `m` against the heater gate and the configured limits, in the
      source's order: heater gate, extrude-only branch, over-ratio branch. */
  function CheckMove(cfg: Config, canExtrude: bool, m: Move): (v: Verdict)
    requires cfg.Valid()
    requires m.moveD > 0.0
    ensures !canExtrude <==> v == Reject(BelowMinTemp)
    ensures v.AcceptWithLimit? ==>
              && canExtrude && IsExtrudeOnly(m)
              && v.speed > 0.0 && v.accel > 0.0
              && AxisRate(v.speed, m) == cfg.maxEVelocity
              && AxisRate(v.accel, m) == cfg.maxEAccel
    ensures v.Reject? && v.error.CrossSectionTooLarge? ==>
              && !IsExtrudeOnly(m)
              && v.error.area > v.error.maxArea
              && v.error.area * m.moveD == m.axesD.e * cfg.filamentArea
              && v.error.maxArea == cfg.maxExtrudeRatio * cfg.filamentArea
    ensures v.Reject? && v.error.ExtrudeOnlyTooLong? ==>
              && IsExtrudeOnly(m)
              && v.error.distance == m.axesD.e
              && v.error.maxDistance == cfg.maxEDist
              && Abs(m.axesD.e) > cfg.maxEDist
  {
    var r := ExtrudeRatio(m);
    if !canExtrude then
      Reject(BelowMinTemp)
    else if !m.isKinematicMove || r < 0.0 then
      if Abs(m.axesD.e) > cfg.maxEDist then
        Reject(ExtrudeOnlyTooLong(m.axesD.e, cfg.maxEDist))
      else if r == 0.0 then
        Reject(ZeroExtrudeRatio)
      else
        var inv := 1.0 / Abs(r);
        AcceptWithLimit(cfg.maxEVelocity * inv, cfg.maxEAccel * inv)
    else if r > cfg.maxExtrudeRatio then
      if m.axesD.e <= cfg.nozzleDiameter * cfg.maxExtrudeRatio then
        Accept
      else
        var area := m.axesD.e * cfg.filamentArea / m.moveD;
        Reject(CrossSectionTooLarge(area, cfg.maxExtrudeRatio * cfg.filamentArea))
    else
      Accept
  }

  /** The heater gate is checked before anything else: a cold heater refuses
      every move with the same error, whatever its distance or ratio. */
  lemma HeaterGateFirst(cfg: Config, m: Move, m': Move)
    requires cfg.Valid() && m.moveD > 0.0 && m'.moveD > 0.0
    ensures CheckMove(cfg, false, m) == CheckMove(cfg, false, m') == Reject(BelowMinTemp)
  {
  }

  /** Extrude-only and retraction moves: refused exactly when the extruded
      distance exceeds the maximum; otherwise accepted with speed and
      acceleration capped by the ratio (a zero ratio divides by zero). */
  lemma ExtrudeOnlyBranch(cfg: Config, m: Move)
    requires cfg.Valid() && m.moveD > 0.0 && IsExtrudeOnly(m)
    ensures var v := CheckMove(cfg, true, m);
            && (v.Reject? && v.error.ExtrudeOnlyTooLong? <==> Abs(m.axesD.e) > cfg.maxEDist)
            && (Abs(m.axesD.e) <= cfg.maxEDist && m.axesD.e != 0.0 ==>
                  v == AcceptWithLimit(cfg.maxEVelocity / Abs(ExtrudeRatio(m)),
                                       cfg.maxEAccel / Abs(ExtrudeRatio(m))))
            && (Abs(m.axesD.e) <= cfg.maxEDist && m.axesD.e == 0.0 ==> v == Reject(ZeroExtrudeRatio))
  {
  }

  /** The extrude-only branch never consults the cross-section limit: the
      verdict is the same whatever `maxExtrudeRatio`, nozzle diameter or
      filament area are configured. */
  lemma ExtrudeOnlyIgnoresRatio(cfg: Config, cfg': Config, canExtrude: bool, m: Move)
    requires cfg.Valid() && cfg'.Valid() && m.moveD > 0.0 && IsExtrudeOnly(m)
    requires cfg'.maxEVelocity == cfg.maxEVelocity && cfg'.maxEAccel == cfg.maxEAccel
    requires cfg'.maxEDist == cfg.maxEDist
    ensures CheckMove(cfg, canExtrude, m) == CheckMove(cfg', canExtrude, m)
  {
  }

  /** Kinematic forward moves: accepted without a speed cap up to the
      maximum ratio; above it accepted only when the extruded amount is tiny,
      refused otherwise. */
  lemma KinematicForwardBranch(cfg: Config, m: Move)
    requires cfg.Valid() && m.moveD > 0.0 && !IsExtrudeOnly(m)
    ensures var v := CheckMove(cfg, true, m);
            && (ExtrudeRatio(m) <= cfg.maxExtrudeRatio ==> v == Accept)
            && (ExtrudeRatio(m) > cfg.maxExtrudeRatio ==>
                  (v == Accept <==> m.axesD.e <= cfg.nozzleDiameter * cfg.maxExtrudeRatio))
            && (v.Accept? || (v.Reject? && v.error.CrossSectionTooLarge?))
  {
  }

  /** A tiny extrusion is never refused for its cross-section, whatever its
      ratio. */
  lemma TinyExtrusionNeverOverCrossSection(cfg: Config, canExtrude: bool, m: Move)
    requires cfg.Valid() && m.moveD > 0.0
    requires Abs(m.axesD.e) <= cfg.nozzleDiameter * cfg.maxExtrudeRatio
    ensures !(CheckMove(cfg, canExtrude, m).Reject? && CheckMove(cfg, canExtrude, m).error.CrossSectionTooLarge?)
  {
  }

  /** Squared junction speed allowed when the extrusion ratio changes by
      `diff` across a corner. */
  function CornerLimit(cornerV: real, diff: real): real
    requires diff != 0.0
  {
    var q := cornerV / Abs(diff);
    q * q
  }

  /** The extruder's bound on the squared speed at the junction between
      `prev` and `m`: the change in extruder speed across the corner,
      `|diff| * v`, may not exceed the corner velocity. Equal ratios leave
      the move's own limit in force. */
  function CalcJunction(cfg: Config, prev: Move, m: Move): (v2: real)
    requires prev.moveD > 0.0 && m.moveD > 0.0
    ensures var diff := ExtrudeRatio(m) - ExtrudeRatio(prev);
            && (diff != 0.0 ==> v2 >= 0.0 && v2 * (diff * diff) == cfg.instantCornerV * cfg.instantCornerV)
            && (diff == 0.0 ==> v2 == m.maxCruiseV2)
  {
    var diff := ExtrudeRatio(m) - ExtrudeRatio(prev);
    if diff != 0.0 then
      CornerLimit(cfg.instantCornerV, diff)
    else
      m.maxCruiseV2
  }

  /** The junction limit depends on the ratio change only through its
      magnitude, so reversing the pair of moves gives the same bound when
      their ratios differ. */
  lemma JunctionSymmetric(cfg: Config, a: Move, b: Move)
    requires a.moveD > 0.0 && b.moveD > 0.0
    requires ExtrudeRatio(a) != ExtrudeRatio(b)
    ensures CalcJunction(cfg, a, b) == CalcJunction(cfg, b, a)
  {
    assert Abs(ExtrudeRatio(b) - ExtrudeRatio(a)) == Abs(ExtrudeRatio(a) - ExtrudeRatio(b));
  }

  /** Two junctions whose ratio changes have the same magnitude get the same
      bound, whatever the moves' other fields. */
  lemma JunctionDependsOnMagnitude(cfg: Config, p1: Move, m1: Move, p2: Move, m2: Move)
    requires p1.moveD > 0.0 && m1.moveD > 0.0 && p2.moveD > 0.0 && m2.moveD > 0.0
    requires var d1 := ExtrudeRatio(m1) - ExtrudeRatio(p1);
             var d2 := ExtrudeRatio(m2) - ExtrudeRatio(p2);
             d1 != 0.0 && Abs(d1) == Abs(d2)
    ensures CalcJunction(cfg, p1, m1) == CalcJunction(cfg, p2, m2)
  {
  }

  /** A larger change of extrusion ratio never permits a faster junction. */
  lemma JunctionAntitone(cfg: Config, p1: Move, m1: Move, p2: Move, m2: Move)
    requires cfg.Valid()
    requires p1.moveD > 0.0 && m1.moveD > 0.0 && p2.moveD > 0.0 && m2.moveD > 0.0
    requires var d1 := ExtrudeRatio(m1) - ExtrudeRatio(p1);
             var d2 := ExtrudeRatio(m2) - ExtrudeRatio(p2);
             0.0 < Abs(d1) <= Abs(d2)
    ensures CalcJunction(cfg, p2, m2) <= CalcJunction(cfg, p1, m1)
  {
    var d1 := ExtrudeRatio(m1) - ExtrudeRatio(p1);
    var d2 := ExtrudeRatio(m2) - ExtrudeRatio(p2);
    var c := cfg.instantCornerV;
    var q1 := c / Abs(d1);
    var q2 := c / Abs(d2);
    assert q1 * Abs(d1) == c;
    assert q2 * Abs(d2) == c;
    assert 0.0 <= q2 <= q1 by {
      assert q2 * Abs(d2) == q1 * Abs(d1);
      assert q1 * Abs(d1) <= q1 * Abs(d2);
    }
    assert q2 * q2 <= q1 * q1 by {
      assert q2 * q2 <= q1 * q2;
      assert q1 * q2 <= q1 * q1;
    }
  }
}
