/** Pressure-advance state: publishing a new gain and smoothing time to the
    planner (flush delay) and to the iterative solver, the SET_PRESSURE_ADVANCE
    parameter defaulting, and the extruder's initial state. */
module PressureAdvance {
  import opened ExtruderTypes

  /** The smoothing time that is actually in force: none while the gain is
      zero, whatever smoothing time is stored. */
  function EffectiveSmoothTime(advance: real, smoothTime: real): real {
    if advance == 0.0 then 0.0 else smoothTime
  }

  /** The smoothing window the extruder currently asks the planner to hold. */
  function ActiveDelay(s: Extruder): real {
    EffectiveSmoothTime(s.pressureAdvance, s.smoothTime)
  }

  /** Publish a new gain and smoothing time: first tell the planner how the
      smoothing window changes, then hand the solver the gain with the
      effective smoothing time, then store the raw requested values. */
  function SetPressureAdvance(s: Extruder, advance: real, smoothTime: real): (r: Step)
    ensures r.ext == s.(pressureAdvance := advance, smoothTime := smoothTime)
    ensures |r.events| == 2
    ensures r.events[0] == FlushDelay(ActiveDelay(r.ext), ActiveDelay(s))
    ensures r.events[1] == SetPressure(advance, r.events[0].newDelay)
    ensures r.events[0].newDelay == (if advance == 0.0 then 0.0 else smoothTime)
    ensures r.events[0].oldDelay == (if s.pressureAdvance == 0.0 then 0.0 else s.smoothTime)
  {
    var oldDelay := EffectiveSmoothTime(s.pressureAdvance, s.smoothTime);
    var newDelay := EffectiveSmoothTime(advance, smoothTime);
    Step(s.(pressureAdvance := advance, smoothTime := smoothTime),
         [FlushDelay(newDelay, oldDelay), SetPressure(advance, newDelay)])
  }

  /** A zero gain closes the smoothing window regardless of the smoothing
      time supplied, while still storing that smoothing time. */
  lemma DisableClosesWindow(s: Extruder, smoothTime: real)
    ensures var r := SetPressureAdvance(s, 0.0, smoothTime);
            && r.events[0] == FlushDelay(0.0, ActiveDelay(s))
            && r.events[1] == SetPressure(0.0, 0.0)
            && r.ext.smoothTime == smoothTime
            && ActiveDelay(r.ext) == 0.0
  {
  }

  /** Setting the gain and smoothing time is valid-state preserving for
      in-range values. */
  lemma SetPreservesValid(s: Extruder, advance: real, smoothTime: real)
    requires s.Valid()
    requires advance >= 0.0 && 0.0 <= smoothTime <= MaxCommandSmoothTime
    ensures SetPressureAdvance(s, advance, smoothTime).ext.Valid()
  {
  }

  /** The extruder as constructed: motor latch armed, counters at zero, and
      the configured gain and smoothing time published from an all-zero
      pressure-advance state. */
  function NewExtruder(cfg: Config, advance: real, smoothTime: real): (r: Step)
    requires cfg.Valid()
    requires advance >= 0.0 && 0.0 < smoothTime <= MaxConfigSmoothTime
    ensures r.ext.Valid()
    ensures r.ext.cfg == cfg && r.ext.needMotorEnable
    ensures r.ext.extrudePos == 0.0 && r.ext.extrudePaPos == 0.0
    ensures r.ext.pressureAdvance == advance && r.ext.smoothTime == smoothTime
    ensures r.events == [FlushDelay(ActiveDelay(r.ext), 0.0), SetPressure(advance, ActiveDelay(r.ext))]
  {
    var blank := Extruder(cfg, 0.0, 0.0, true, 0.0, 0.0);
    SetPressureAdvance(blank, advance, smoothTime)
  }

  /** SET_PRESSURE_ADVANCE: an absent parameter keeps its current stored
      value; the result is published through `SetPressureAdvance`. */
  function CmdSetPressureAdvance(s: Extruder, advance: Option<real>, smoothTime: Option<real>): (r: Step)
    requires advance.Some? ==> advance.value >= 0.0
    requires smoothTime.Some? ==> 0.0 <= smoothTime.value <= MaxCommandSmoothTime
    ensures s.Valid() ==> r.ext.Valid()
    ensures r.ext.pressureAdvance == (if advance.Some? then advance.value else s.pressureAdvance)
    ensures r.ext.smoothTime == (if smoothTime.Some? then smoothTime.value else s.smoothTime)
    ensures r.ext == s.(pressureAdvance := r.ext.pressureAdvance, smoothTime := r.ext.smoothTime)
    ensures r.events == [FlushDelay(ActiveDelay(r.ext), ActiveDelay(s)),
                         SetPressure(r.ext.pressureAdvance, ActiveDelay(r.ext))]
  {
    SetPressureAdvance(s, advance.GetOr(s.pressureAdvance), smoothTime.GetOr(s.smoothTime))
  }

  /** A command without parameters changes nothing but still goes through
      the flush-delay negotiation, reporting an unchanged window. */
  lemma CmdWithoutParamsRepublishes(s: Extruder)
    ensures var r := CmdSetPressureAdvance(s, None, None);
            && r.ext == s
            && r.events == [FlushDelay(ActiveDelay(s), ActiveDelay(s)),
                            SetPressure(s.pressureAdvance, ActiveDelay(s))]
  {
  }

  /** Apply a sequence of (gain, smoothing time) settings in order,
      collecting every call made. */
  function ApplySettings(s: Extruder, settings: seq<(real, real)>): (r: Step)
    ensures |r.events| == 2 * |settings|
    ensures r.ext.cfg == s.cfg && r.ext.needMotorEnable == s.needMotorEnable
    ensures r.ext.extrudePos == s.extrudePos && r.ext.extrudePaPos == s.extrudePaPos
    decreases |settings|
  {
    if |settings| == 0 then
      Step(s, [])
    else
      var first := SetPressureAdvance(s, settings[0].0, settings[0].1);
      var rest := ApplySettings(first.ext, settings[1..]);
      Step(rest.ext, first.events + rest.events)
  }

  /** Net change of the planner's smoothing window announced by a trace. */
  function NetDelayChange(events: seq<Event>): real {
    if |events| == 0 then 0.0
    else
      (match events[0]
       case FlushDelay(newDelay, oldDelay) => newDelay - oldDelay
       case _ => 0.0)
      + NetDelayChange(events[1..])
  }

  lemma {:induction false} NetDelayChangeAppend(a: seq<Event>, b: seq<Event>)
    ensures NetDelayChange(a + b) == NetDelayChange(a) + NetDelayChange(b)
  {
    if |a| == 0 {
      assert a + b == b;
    } else {
      assert (a + b)[1..] == a[1..] + b;
      NetDelayChangeAppend(a[1..], b);
    }
  }

  /** The planner's flush-delay bookkeeping is cumulative: over any series
      of settings the announced changes add up to exactly the difference
      between the final and the initial effective smoothing windows, so no
      change is lost or counted twice. */
  lemma {:induction false} FlushDelaysTelescope(s: Extruder, settings: seq<(real, real)>)
    ensures NetDelayChange(ApplySettings(s, settings).events)
            == ActiveDelay(ApplySettings(s, settings).ext) - ActiveDelay(s)
    decreases |settings|
  {
    if |settings| > 0 {
      var first := SetPressureAdvance(s, settings[0].0, settings[0].1);
      var rest := ApplySettings(first.ext, settings[1..]);
      FlushDelaysTelescope(first.ext, settings[1..]);
      NetDelayChangeAppend(first.events, rest.events);
      assert NetDelayChange(first.events) == ActiveDelay(first.ext) - ActiveDelay(s) by {
        assert first.events[1..][1..] == [];
      }
    }
  }

  /** Successive settings chain: each announcement's old window is the
      previous announcement's new window. */
  lemma SuccessiveSettingsChain(s: Extruder, a1: real, t1: real, a2: real, t2: real)
    ensures var r1 := SetPressureAdvance(s, a1, t1);
            var r2 := SetPressureAdvance(r1.ext, a2, t2);
            r2.events[0].oldDelay == r1.events[0].newDelay
  {
  }
}
