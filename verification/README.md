# Extruder kinematics — a Dafny model

This project models the decision and state logic of Klipper's extruder
kinematics module, `klippy/kinematics/extruder.py`. It covers the following:

- **Move validation** (`check_move`). The heater gate comes first. Then comes
  the extrude-only/retraction branch, which either refuses the move for its
  distance or caps its speed and acceleration. Last comes the over-ratio
  branch, with its tiny-extrusion exception and its cross-section error.
- **Junction limit** (`calc_junction`). This is the extruder's bound on the
  squared speed at the corner between two moves.
- **Pressure-advance state** (`_set_pressure_advance`,
  `cmd_SET_PRESSURE_ADVANCE`). This covers the effective smoothing times, the
  flush-delay notice to the planner, the solver update, the stored raw values
  and the command's parameter defaulting.
- **Move projection** (`move`, `motor_off`, `set_active`). This covers the
  one-shot motor-enable latch, the scaling of the Cartesian trapezoid onto
  the extruder axis, the pressure-advance coupling test and the two position
  counters.
- **The stand-in** (`DummyExtruder`), used when the printer has no extruder.
- **The registry** (`add_printer_objects`, `get_printer_extruders`).

All arithmetic is on Dafny `real`. An extruder is an immutable `Extruder`
record. Every operation is a pure function that returns the new record
together with the calls it made into its collaborators. Those calls are
recorded, in order, as `Event` values:

- `FlushDelay` is the planner's `note_flush_delay`.
- `SetPressure` is the solver's `extruder_set_pressure`.
- `MoveFill` is the solver's `extruder_move_fill`.
- `MotorEnable` is the stepper's `motor_enable`.

The configuration's derived values are abstract reals. These are
`filament_area`, `max_extrude_ratio`, the `max_extrude_only_*` limits and
`instantaneous_corner_velocity`. `Config.Valid()` gives them the signs the
configuration layer guarantees.

Files:

- `types.dfy` holds the data model (module `ExtruderTypes`).
- `limits.dfy` holds `check_move` and `calc_junction` (`ExtrusionLimits`).
- `pressure_advance.dfy` holds `PressureAdvance`.
- `projection.dfy` holds `move`, `motor_off` and `set_active`
  (`MoveProjection`).
- `active.dfy` holds the configured-or-absent extruder variant
  (`ActiveExtruder`).
- `registry.dfy` holds `ExtruderRegistry`.

Notes on the code's behaviour:

- The extrude-only branch is selected by the move's `is_kinematic_move` flag
  or by a negative ratio. It is not selected by `move_d == 0`.
- The stored pressure-advance fields are the raw requested values. A zero gain
  still stores the requested smoothing time. The value sent to the planner is
  the effective smoothing time.
- The stand-in's junction bound is the move's own `max_cruise_v2`.

## Model

| member | source | states |
|---|---|---|
| ExtrusionLimits.CheckMove | klippy/kinematics/extruder.py:107-134 | A cold heater is refused with the min-temp error, and only then. A capped acceptance only happens on an extrude-only move. Its positive caps make the extruder-axis speed and acceleration exactly `max_e_velocity` and `max_e_accel`. A cross-section refusal only happens on a kinematic forward move. It reports area `e*filament_area/move_d`, which exceeds the reported limit `max_extrude_ratio*filament_area`. A distance refusal reports the distance, which exceeds `max_e_dist`, together with `max_e_dist` as the limit. |
| ExtrusionLimits.HeaterGateFirst | klippy/kinematics/extruder.py:107-112 | Whatever the move, a heater that cannot extrude gives the same min-temp refusal. No distance or ratio check can win over it. |
| ExtrusionLimits.ExtrudeOnlyBranch | klippy/kinematics/extruder.py:113-122 | On an extrude-only or retraction move, the move is refused for its distance exactly when `abs(e) > max_e_dist`. Otherwise it is accepted with limits `max_e_velocity/abs(r)` and `max_e_accel/abs(r)`. The exception is a zero ratio, where the inverse divides by zero. |
| ExtrusionLimits.ExtrudeOnlyIgnoresRatio | klippy/kinematics/extruder.py:113-123 | On the extrude-only branch the verdict does not change when `max_extrude_ratio`, the nozzle diameter or the filament area change. |
| ExtrusionLimits.KinematicForwardBranch | klippy/kinematics/extruder.py:123-134 | A kinematic forward move up to the maximum ratio is accepted with no cap. Above that ratio it is accepted exactly when `e <= nozzle_diameter*max_extrude_ratio`. Any other outcome is a cross-section refusal. |
| ExtrusionLimits.TinyExtrusionNeverOverCrossSection | klippy/kinematics/extruder.py:123-126 | A move with `abs(e) <= nozzle_diameter*max_extrude_ratio` is never refused for its cross-section. |
| ExtrusionLimits.CalcJunction | klippy/kinematics/extruder.py:135-141 | When the ratios differ, the bound is non-negative. At that squared speed, the change in extruder speed across the corner, `abs(diff_r)*v`, equals the corner velocity exactly. When the ratios are equal, the move's own `max_cruise_v2` is returned. |
| ExtrusionLimits.JunctionSymmetric | klippy/kinematics/extruder.py:135-140 | When the two ratios differ, swapping the moves gives the same bound. |
| ExtrusionLimits.JunctionDependsOnMagnitude | klippy/kinematics/extruder.py:138-140 | Any two junctions whose nonzero ratio changes have the same magnitude `abs(diff_r)` get the same bound, whatever the moves' other fields. |
| ExtrusionLimits.JunctionAntitone | klippy/kinematics/extruder.py:138-140 | A larger ratio change never allows a faster junction. |
| PressureAdvance.SetPressureAdvance | klippy/kinematics/extruder.py:77-89 | It makes exactly two calls. The first is one flush-delay notice from the old effective window to the new one, where a zero gain means a window of 0. The second sends the solver the new gain with the same new window. The stored fields become the raw requested pair, and nothing else changes. |
| PressureAdvance.DisableClosesWindow | klippy/kinematics/extruder.py:81-88 | A zero gain announces a new window of 0 and an old window equal to the previous effective one. It sends `(0, 0)` to the solver. It still stores the requested smoothing time. |
| PressureAdvance.SetPreservesValid | klippy/kinematics/extruder.py:172-177 | In-range gain and smoothing time keep the extruder state valid. |
| PressureAdvance.NewExtruder | klippy/kinematics/extruder.py:51-66 | The fresh extruder has its motor latch armed and both counters at 0. It stores the configured gain and smoothing time. It announces a flush delay whose old window is 0. |
| PressureAdvance.CmdSetPressureAdvance | klippy/kinematics/extruder.py:170-177 | An absent parameter takes the current stored value. The command preserves a valid state. It always makes the flush-delay notice and then the solver update. |
| PressureAdvance.CmdWithoutParamsRepublishes | klippy/kinematics/extruder.py:170-177 | A command with no parameters leaves the state unchanged. It still announces a flush delay, with old window equal to new, and re-sends the current values. |
| PressureAdvance.FlushDelaysTelescope | klippy/kinematics/extruder.py:77-89 | Over any series of settings, the announced window changes add up to exactly the final effective window minus the initial one. |
| PressureAdvance.SuccessiveSettingsChain | klippy/kinematics/extruder.py:78-89 | The old window of each announcement is the new window of the previous announcement. |
| MoveProjection.ProjectMove | klippy/kinematics/extruder.py:144-165 | A motor-enable call is made first exactly when the latch was armed, and the latch ends cleared. The queued segment has three properties: its phase times and start position are the move's own; its acceleration and velocities times `move_d` equal the move's times `e` (scaled by `axis_r`); and it carries the pressure-advance position from before the move. Afterwards `extrude_pos` is the move's end `e`. `extrude_pa_pos` grows by `e` exactly for pressure-advance moves, is otherwise unchanged, and never decreases. |
| MoveProjection.ProjectionCoversExtrusion | klippy/kinematics/extruder.py:148-162 | If the move's trapezoid covers `move_d`, the segment sent to the solver covers exactly the extruder displacement. |
| MoveProjection.MotorOff | klippy/kinematics/extruder.py:104-106 | It switches the motor off with one call and re-arms the enable latch. Nothing else changes. |
| MoveProjection.SetActiveAfterMove | klippy/kinematics/extruder.py:96-97 | After a move, activation reports that move's end position. |
| MoveProjection.RunMovesEnablesOnce | klippy/kinematics/extruder.py:145-147 | A run of moves switches the motor on exactly once when the latch was armed, and otherwise never. |
| MoveProjection.MotorOffRearms | klippy/kinematics/extruder.py:145-147 | After motor off, the next move's first call switches the motor on. |
| MoveProjection.RunMovesCounters | klippy/kinematics/extruder.py:153-165 | Over a run of moves, `extrude_pa_pos` grows by exactly the summed displacement of the pressure-advance moves and never decreases. `extrude_pos` ends at the last move's end position. The configuration and the pressure-advance settings are untouched. |
| ActiveExtruder.CheckMove | klippy/kinematics/extruder.py:190-192 | The stand-in refuses every move with the no-extruder error carrying the move's end position. Acceptance requires a configured extruder and a heater that can extrude. |
| ActiveExtruder.CalcJunction | klippy/kinematics/extruder.py:193-194 | The stand-in returns the move's own `max_cruise_v2`. A configured extruder returns its own bound. |
| ActiveExtruder.SetActive | klippy/kinematics/extruder.py:186-187 | The stand-in reports position 0. A configured extruder reports its `extrude_pos`. |
| ActiveExtruder.MotorOff | klippy/kinematics/extruder.py:188-189 | The stand-in does nothing and makes no call. A configured extruder makes one motor-off call and re-arms its latch, with the rest of its state unchanged. |
| ExtruderRegistry.PrefixEnd | klippy/kinematics/extruder.py:200-207 | The scan ends at the first index without a section, and never beyond 99. Every index before it has a section, with index 0 also satisfied by the legacy `extruder` section. |
| ExtruderRegistry.AddPrinterObjects | klippy/kinematics/extruder.py:198-209 | The registered objects are exactly one extruder per index of the configured prefix. Each is numbered by its index and built from `extruderN`, or from the legacy section at index 0 when `extruder0` is absent. There are at most 99. |
| ExtruderRegistry.GetPrinterExtruders | klippy/kinematics/extruder.py:211-218 | It returns the registered extruders for indices 0, 1, … in order. It stops at the first missing index or at 99. |
| ExtruderRegistry.RegistryRoundTrip | klippy/kinematics/extruder.py:198-218 | Listing what the scan registered gives back exactly the configured prefix, in index order. |
| ExtruderRegistry.LoadExtruders | klippy/kinematics/extruder.py:198-218 | Configuring then listing yields `PrefixEnd` extruders (at most 99) numbered 0, 1, …. Only index 0 can come from the legacy section, and only when `extruder0` is absent. |

## Left out

- ExtrusionLimits.CheckMove: requires `move_d > 0`, because the ratio division at line 108 is unguarded. A zero-length move is not given to it.
- ExtrusionLimits.CalcJunction: requires both moves' `move_d > 0`, for the same unguarded divisions.
- MoveProjection.ProjectMove: requires `move_d > 0`, for the same unguarded division.
- On a non-kinematic move with no extrusion, line 120 divides by zero and raises an exception. The model reports this as the `ZeroExtrudeRatio` refusal.
- The capped acceptance carries the speed and acceleration limits. Applying them to the move (`move.limit_speed`) belongs to the toolhead, which is not part of this model.
- Constructor wiring is not modelled, because it is object plumbing. This covers heater setup and lookup, `PrinterStepper`, `setup_itersolve`, the step-compression hookup, the activate/deactivate gcode templates, the loading of `tune_pa`, and the command registration. `NewExtruder` keeps only the state initialisation and the first publish.
- The derivation of `filament_area`, `max_extrude_ratio` and the default limits from raw configuration values is not modelled, including `math.pi`. The derived values are abstract reals with the guaranteed signs.
- Command parameter parsing and range checking (`gcode.get_float`) are not modelled. Given parameters are taken as parsed and in range. The command's info message, rollover info and reply are left out too, and so is the default-extruder delegation.
- `get_status`, `stats`, `get_heater`, `get_activate_gcode` and logging are left out as reporting and I/O.
- The `lookahead` stubs and the unused `EXTRUDE_DIFF_IGNORE` constant are left out, because nothing uses them.
- The foreign solver and motor calls are recorded as events with their arguments. Their effects are not modelled.
- The registry's printer object table is a map from `N` to the registered extruder, standing for the object named `extruderN`. Other printer objects and name formatting are not modelled.
- IEEE float rounding is not modelled. All arithmetic is exact on reals.
