/** Move projection: executing an accepted move on the extruder axis. The
    Cartesian trapezoid is scaled onto the extruder by the move's extrusion
    ratio and handed to the solver; the motor-enable latch and the two
    position counters are updated. */
module MoveProjection {
  import opened ExtruderTypes

  /** Pressure advance couples to this move: it does not retract and it
      moves laterally in X or Y. */
  predicate IsPaMove(m: Move) {
    m.axesD.e >= 0.0 && (m.axesD.x != 0.0 || m.axesD.y != 0.0)
  }

  /** Execute `m` at `printTime`: enable the motor if the latch is armed,
      queue the projected segment, then record the end position. */
  function ProjectMove(s: Extruder, printTime: real, m: Move): (r: Step)
    requires m.moveD > 0.0
    ensures !r.ext.needMotorEnable
    ensures |r.events| == (if s.needMotorEnable then 2 else 1)
    ensures s.needMotorEnable ==> r.events[0] == MotorEnable(printTime, true)
    ensures var seg := r.events[|r.events| - 1];
            && seg.MoveFill?
            && seg.segment.printTime == printTime
            && seg.segment.accelT == m.accelT
            && seg.segment.cruiseT == m.cruiseT
            && seg.segment.decelT == m.decelT
            && seg.segment.startPos == m.startPos.e
            && seg.segment.paPos == s.extrudePaPos
            && seg.segment.isPaMove == IsPaMove(m)
            && seg.segment.accel * m.moveD == m.accel * m.axesD.e
            && seg.segment.startV * m.moveD == m.startV * m.axesD.e
            && seg.segment.cruiseV * m.moveD == m.cruiseV * m.axesD.e
    ensures r.ext.extrudePos == m.endPos.e
    ensures IsPaMove(m) ==> r.ext.extrudePaPos == s.extrudePaPos + m.axesD.e
    ensures !IsPaMove(m) ==> r.ext.extrudePaPos == s.extrudePaPos
    ensures r.ext.extrudePaPos >= s.extrudePaPos
    ensures r.ext == s.(needMotorEnable := false, extrudePos := r.ext.extrudePos,
                        extrudePaPos := r.ext.extrudePaPos)
  {
    var enable := if s.needMotorEnable then [MotorEnable(printTime, true)] else [];
    var axisD := m.axesD.e;
    var axisR := axisD / m.moveD;
    var accel := m.accel * axisR;
    var startV := m.startV * axisR;
    var cruiseV := m.cruiseV * axisR;
    var isPa := axisD >= 0.0 && (m.axesD.x != 0.0 || m.axesD.y != 0.0);
    var seg := Segment(printTime, m.accelT, m.cruiseT, m.decelT,
                       m.startPos.e, s.extrudePaPos, startV, cruiseV, accel, isPa);
    var paPos := if isPa then s.extrudePaPos + axisD else s.extrudePaPos;
    Step(s.(needMotorEnable := false, extrudePos := m.endPos.e, extrudePaPos := paPos),
         enable + [MoveFill(seg)])
  }

  /** Switch the motor off and re-arm the enable latch. */
  function MotorOff(s: Extruder, printTime: real): (r: Step)
    ensures r.ext.needMotorEnable
    ensures r.events == [MotorEnable(printTime, false)]
    ensures r.ext == s.(needMotorEnable := true)
  {
    Step(s.(needMotorEnable := true), [MotorEnable(printTime, false)])
  }

  /** Position reported when the extruder becomes (in)active. */
  function SetActive(s: Extruder): real {
    s.extrudePos
  }

  /** After a move, activating the extruder reports that move's end position. */
  lemma SetActiveAfterMove(s: Extruder, printTime: real, m: Move)
    requires m.moveD > 0.0
    ensures SetActive(ProjectMove(s, printTime, m).ext) == m.endPos.e
  {
  }

  /** Distance covered by a trapezoid: accelerate from `startV` for
      `accelT`, cruise at `cruiseV` for `cruiseT`, decelerate for `decelT`. */
  function TrapezoidDistance(startV: real, cruiseV: real, accel: real,
                             accelT: real, cruiseT: real, decelT: real): real
  {
    (startV + 0.5 * accel * accelT) * accelT
    + cruiseV * cruiseT
    + (cruiseV - 0.5 * accel * decelT) * decelT
  }

  /** The projection keeps the extruder in step with the toolhead: if the
      move's Cartesian trapezoid covers `moveD`, the segment handed to the
      solver covers exactly the extruder displacement `axesD.e`. */
  lemma ProjectionCoversExtrusion(s: Extruder, printTime: real, m: Move)
    requires m.moveD > 0.0
    requires TrapezoidDistance(m.startV, m.cruiseV, m.accel, m.accelT, m.cruiseT, m.decelT) == m.moveD
    ensures var seg := ProjectMove(s, printTime, m).events[|ProjectMove(s, printTime, m).events| - 1].segment;
            TrapezoidDistance(seg.startV, seg.cruiseV, seg.accel, seg.accelT, seg.cruiseT, seg.decelT)
            == m.axesD.e
  {
  }

  /** One scheduled move: its print time and the move itself. */
  datatype Scheduled = Scheduled(printTime: real, move: Move)

  predicate AllPositiveLength(moves: seq<Scheduled>) {
    forall i :: 0 <= i < |moves| ==> moves[i].move.moveD > 0.0
  }

  /** Execute a series of moves in order, collecting every call made. */
  function RunMoves(s: Extruder, moves: seq<Scheduled>): (r: Step)
    requires AllPositiveLength(moves)
    decreases |moves|
  {
    if |moves| == 0 then
      Step(s, [])
    else
      var first := ProjectMove(s, moves[0].printTime, moves[0].move);
      var rest := RunMoves(first.ext, moves[1..]);
      Step(rest.ext, first.events + rest.events)
  }

  /** Number of motor-enable (switch on) calls in a trace. */
  function EnableCount(events: seq<Event>): nat {
    if |events| == 0 then 0
    else (if events[0].MotorEnable? && events[0].enable then 1 else 0) + EnableCount(events[1..])
  }

  lemma {:induction false} EnableCountAppend(a: seq<Event>, b: seq<Event>)
    ensures EnableCount(a + b) == EnableCount(a) + EnableCount(b)
  {
    if |a| == 0 {
      assert a + b == b;
    } else {
      assert (a + b)[1..] == a[1..] + b;
      EnableCountAppend(a[1..], b);
    }
  }

  /** The latch is one-shot: a run of moves switches the motor on exactly
      once if the latch was armed and at most zero times otherwise. */
  lemma {:induction false} RunMovesEnablesOnce(s: Extruder, moves: seq<Scheduled>)
    requires AllPositiveLength(moves)
    ensures EnableCount(RunMoves(s, moves).events)
            == (if s.needMotorEnable && |moves| > 0 then 1 else 0)
    ensures |moves| > 0 ==> !RunMoves(s, moves).ext.needMotorEnable
    ensures |moves| == 0 ==> RunMoves(s, moves).ext == s
    decreases |moves|
  {
    if |moves| > 0 {
      var first := ProjectMove(s, moves[0].printTime, moves[0].move);
      var rest := RunMoves(first.ext, moves[1..]);
      assert AllPositiveLength(moves[1..]) by {
        forall i | 0 <= i < |moves[1..]| ensures moves[1..][i].move.moveD > 0.0 {
          assert moves[1..][i] == moves[i + 1];
        }
      }
      RunMovesEnablesOnce(first.ext, moves[1..]);
      EnableCountAppend(first.events, rest.events);
      if s.needMotorEnable {
        assert first.events[1..][1..] == [];
      } else {
        assert first.events[1..] == [];
      }
    }
  }

  /** After motor_off, the next move switches the motor on again. */
  lemma MotorOffRearms(s: Extruder, offTime: real, printTime: real, m: Move)
    requires m.moveD > 0.0
    ensures ProjectMove(MotorOff(s, offTime).ext, printTime, m).events[0] == MotorEnable(printTime, true)
  {
  }

  /** Reference definition: the summed extruder displacement of the moves
      pressure advance couples to. */
  function PaDisplacement(moves: seq<Scheduled>): real {
    if |moves| == 0 then 0.0
    else (if IsPaMove(moves[0].move) then moves[0].move.axesD.e else 0.0) + PaDisplacement(moves[1..])
  }

  /** Over a run of moves, the pressure-advance counter grows by exactly the
      coupled moves' displacement, never decreases, and the plain counter
      ends at the last move's end position. */
  lemma {:induction false} RunMovesCounters(s: Extruder, moves: seq<Scheduled>)
    requires AllPositiveLength(moves)
    ensures RunMoves(s, moves).ext.extrudePaPos == s.extrudePaPos + PaDisplacement(moves)
    ensures RunMoves(s, moves).ext.extrudePaPos >= s.extrudePaPos
    ensures |moves| > 0 ==> RunMoves(s, moves).ext.extrudePos == moves[|moves| - 1].move.endPos.e
    ensures RunMoves(s, moves).ext.cfg == s.cfg
    ensures RunMoves(s, moves).ext.pressureAdvance == s.pressureAdvance
    ensures RunMoves(s, moves).ext.smoothTime == s.smoothTime
    decreases |moves|
  {
    if |moves| > 0 {
      var first := ProjectMove(s, moves[0].printTime, moves[0].move);
      assert AllPositiveLength(moves[1..]) by {
        forall i | 0 <= i < |moves[1..]| ensures moves[1..][i].move.moveD > 0.0 {
          assert moves[1..][i] == moves[i + 1];
        }
      }
      RunMovesCounters(first.ext, moves[1..]);
      if |moves| > 1 {
        assert moves[1..][|moves[1..]| - 1] == moves[|moves| - 1];
      }
    }
  }
}
