# Drift-car maneuver sequencer, modelled in Dafny

This project models the scripted maneuver sequencer of the carsim Unity
drift-car test rig (`SimManager`) and the key handling of `CarSwitcher`.

The sequencer drives a car through four phases for each configuration of a
list. ACC accelerates to a target speed. TURN steers the front wheels through
a scripted list of timed turns. REST brakes, and the tick that ends the rest
moves to END and exports the telemetry to a CSV file. END starts the next
configuration, or stops after the last one. One `FixedUpdate` tick is the pure
function `Sequencer.Tick`. It takes the state, the car's speed in km/h and the
fixed time step. It returns the next state, with the wheel actuators, the
export it performed and the exception it raised, if any.

Modules:

- `Cycle`: the increment-and-wrap-to-zero step behind the weight, camera and
  weight-variant selectors, with its modular reading and its period. The
  vehicle selector computes `(id + 1) % Count` directly and is proved to take
  the same step.
- `Geometry`: vectors, quaternions and a rigid body's pose and velocities.
- `SimTypes`: the enums, configurations, wheels, telemetry buffers and state of
  `SimManager`; `UpdateWeightConfig` and `ResetCar`.
- `CsvExport`: `SaveFile` (path choice, header, rows, roll normalisation,
  length-mismatch logging).
- `Sequencer`: `StartSimIndex`, `OnStartSimClick` and the tick with its four
  phase branches.
- `SequencerRuns`: invariants and bounds over sequences of ticks.
- `Controls`: `SimManager.Start` and `SimManager.Update` (W, C and R keys).
- `CarSwitcher`: the W, K and R key handlers of `CarSwitcher.Update`. This
  includes the closest-spawn-point loop.

Physical quantities (speed, timers, torques, angles, distances) are real
numbers. C# exceptions are modelled as a `fault` value. The state returned
with a fault is what the code leaves behind before throwing. Examples: the
car reset and cleared buffers before a bad `StartSimIndex` index, the wheel
writes before the out-of-range turn read, and `END` before a failing
telemetry read.

## Model

| member | source | states |
|---|---|---|
| Cycle.Succ | Assets/SimManager.cs:250-252 | one press of a selector keeps it in range and moves it to (k + 1) mod Count |
| Cycle.StepsIsModular | Assets/SimManager.cs:258-260 | m presses of a selector move it m places modulo Count |
| Cycle.Period | Assets/Scripts/CarSwitcher.cs:54 | a selector over Count values returns to its start after exactly Count presses and never sooner |
| SimTypes.WeightOf | Assets/SimManager.cs:10-13 | the weight enum's members IC and EV are ordinals 0 and 1 below Count, with the ordinal round trip |
| SimTypes.CameraOf | Assets/SimManager.cs:15-18 | the camera enum's members HELI, BEHIND, SIDE are ordinals 0, 1, 2 below Count, with the ordinal round trip |
| SimTypes.Cleared | Assets/SimManager.cs:471-474 | clearing the car data and every wheel's data leaves every buffer empty and the wheel count unchanged |
| SimTypes.UpdateWeightConfig | Assets/SimManager.cs:290-302 | exactly one of battery pack and engine block is active, the battery exactly for EV; nothing else changes |
| SimTypes.ResetCar | Assets/SimManager.cs:274-282 | the car is at the spawn position, unrotated, with zero velocity; its angular velocity is not touched |
| CsvExport.NormalizeRoll | Assets/SimManager.cs:542-545 | the written roll is the same angle or one turn lower, unchanged exactly when at most 300, and in (-60, 300] for input in [0, 360) |
| CsvExport.SavePath | Assets/SimManager.cs:506-521 | a named config writes Results/name.csv; an unnamed one writes ic_ or ev_, then the formatted speed, then .csv, with no Results/ prefix |
| CsvExport.NamedPathRoundTrip | Assets/SimManager.cs:518-521 | the configuration name can be read back from a named config's file path |
| CsvExport.UnnamedPathHasNoDirectory | Assets/SimManager.cs:508-516 | an unnamed config's path has no directory separator whenever the formatted speed has none |
| CsvExport.Row | Assets/SimManager.cs:547-551 | a row has 15 values: time, speed, normalized roll, then force, longitudinal and lateral slip of wheels 0 to 3 |
| CsvExport.WriteRows | Assets/SimManager.cs:531-552 | the row loop writes rows in index order and stops exactly at the first row with an index out of range |
| CsvExport.SaveFile | Assets/SimManager.cs:503-556 | header of 15 columns; one row per roll sample, all written exactly when every row is readable; the mismatch is logged exactly when the roll count differs from wheel 0's counts |
| CsvExport.MismatchOnlyLogged | Assets/SimManager.cs:533-540 | a length mismatch is logged but every row is still written when all buffers are long enough |
| Sequencer.StartSimIndex | Assets/SimManager.cs:467-496 | a valid index gives ACC, turn index 0, all timers 0, the config's turns, speed, weight and name, started, that index; any index resets the car and clears telemetry; an invalid one throws |
| Sequencer.StartRunSet | Assets/SimManager.cs:498-501 | the start button starts configuration 0, and fails exactly on an empty list |
| Sequencer.Driven | Assets/SimManager.cs:171-183 | the two drive branches together give every wheel the drive force, with brake and steer 0 |
| Sequencer.TurnWheels | Assets/SimManager.cs:189-195 | every wheel coasts and front wheels take the turn angle; with the index out of range it throws at the first front wheel, leaving later wheels unchanged |
| Sequencer.AccTick | Assets/SimManager.cs:156-185 | at or above the target speed: TURN, turn timer 0, every wheel released; below it: stay in ACC with every wheel driven |
| Sequencer.TurnTick | Assets/SimManager.cs:187-208 | motor and brake 0, front wheels steered; index +1 exactly when the timer reached the duration, never past the count; REST exactly at the count, with the rest timer untouched while still turning; the timer restarts at dt; out-of-range index throws |
| Sequencer.RestTick | Assets/SimManager.cs:210-224 | every wheel braked at 1000000; END and one export exactly when the rest timer reached the rest time; an export that throws skips the timer update |
| Sequencer.EndTick | Assets/SimManager.cs:226-234 | stops after the last configuration, otherwise restarts at the next index with fresh timers, cleared telemetry, the reset car and the next config's turns, name, target speed, weight and mass objects |
| Sequencer.Tick | Assets/SimManager.cs:150-238 | a stopped sequencer is unchanged; the export happens exactly on REST with the timer reached; faults exactly as the branches throw; the sim timer grows by dt, or is dt after a restart |
| SequencerRuns.StartIsWellFormed | Assets/SimManager.cs:476-494 | starting a configuration establishes the sequencer invariant |
| SequencerRuns.TickPreservesWellFormed | Assets/SimManager.cs:150-238 | every tick keeps the sequencer invariant (loaded config, turn index consistent with the phase) |
| SequencerRuns.TickBudget | Assets/SimManager.cs:218-233 | each export uses one unit of the remaining-export budget; the config index grows exactly on a restart from END |
| SequencerRuns.RunBudget | Assets/SimManager.cs:150-238 | over any tick sequence the invariant holds and the exports equal the budget spent |
| SequencerRuns.RunSetExportsAtMostCount | Assets/SimManager.cs:226-234 | a run set started at configuration 0 performs at most Count exports, whatever the readings |
| SequencerRuns.StoppedRunIsIdle | Assets/SimManager.cs:152 | ticks of a stopped sequencer change nothing and export nothing |
| SequencerRuns.TickProgress | Assets/SimManager.cs:156-224 | within a configuration a tick advances the maneuver position by at most one, exactly when the phase or the turn index changes |
| SequencerRuns.RunProgress | Assets/SimManager.cs:156-224 | m ticks on one configuration advance the position by at most m |
| SequencerRuns.StoppedOrSameConfig | Assets/SimManager.cs:226-234 | a run that ends started was started throughout, on a config index no larger than the final one |
| Controls.NextWeight | Assets/SimManager.cs:249-253 | W always changes the weight and never leaves it at Count |
| Controls.NextCamera | Assets/SimManager.cs:257-261 | C moves HELI to BEHIND, BEHIND to SIDE, SIDE to HELI |
| Controls.WeightAfterIsCycle | Assets/SimManager.cs:249-253 | m presses of W follow the cyclic selector over 2 values |
| Controls.CameraAfterIsCycle | Assets/SimManager.cs:257-261 | m presses of C follow the cyclic selector over 3 values |
| Controls.WeightKeyPeriod | Assets/SimManager.cs:249-255 | W toggles: two presses, and not one, restore the weight |
| Controls.CameraKeyPeriod | Assets/SimManager.cs:257-262 | three presses of C, and no fewer, restore the camera mode |
| Controls.Start | Assets/SimManager.cs:116-122 | the scene starts in HELI view with weight IC and only the engine block active |
| Controls.Update | Assets/SimManager.cs:245-266 | W cycles the weight and refreshes the mass objects, C cycles the camera, R resets the car; nothing else changes |
| CarSwitcher.ApplyWeightIndex | Assets/Scripts/CarSwitcher.cs:33-42 | variant 0 activates neither mass, 1 only the battery, 2 only the engine; never both |
| CarSwitcher.ReleaseWeightKey | Assets/Scripts/CarSwitcher.cs:21-44 | the weight index stays in {0, 1, 2} and moves to (i + 1) mod 3; only the selected vehicle's masses change; an invalid selection throws after the index moves |
| CarSwitcher.ReleaseSwitchKey | Assets/Scripts/CarSwitcher.cs:49-56 | the id moves to (id + 1) mod Count and stays in range; the new vehicle ends active and the old one inactive unless it is the same, with nothing else of either changed; the only-selected-active invariant is kept |
| CarSwitcher.SwitchAfterIsCycle | Assets/Scripts/CarSwitcher.cs:49-56 | m releases of K follow the cyclic selector over the vehicle count |
| CarSwitcher.SwitchPeriod | Assets/Scripts/CarSwitcher.cs:54 | Count releases of K, and no fewer, bring back the starting vehicle |
| CarSwitcher.FirstClosestUnique | Assets/Scripts/CarSwitcher.cs:92-95 | the first spawn point at minimum distance is unique |
| CarSwitcher.FindClosest | Assets/Scripts/CarSwitcher.cs:82-96 | the loop returns a spawn point no farther than any other, with every earlier one strictly farther |
| CarSwitcher.Snap | Assets/Scripts/CarSwitcher.cs:112-120 | on a probe hit the car is moved vertically by the hit distance less the wheel radius; on a miss it is placed exactly at the spawn point |
| CarSwitcher.ReleaseResetKey | Assets/Scripts/CarSwitcher.cs:77-126 | the vehicle takes the first closest spawn point's rotation and snapped position, with zero velocity and angular velocity; no spawn point throws after the vehicle was set upright |
| CarSwitcher.Update | Assets/Scripts/CarSwitcher.cs:19-127 | keys W, K, R in order, an exception ending the frame; the weight index and the selection stay in range |

## Notes on the code's behaviour

- Empty turn list: the first TURN tick reads past the end of the list and
  throws (`Sequencer.TurnTick`).
- Unnamed configuration: the path is `ic_<speed>.csv` or `ev_<speed>.csv`
  in the working directory, because the weight prefix replaces the
  `Results/` directory instead of being appended to it.
- Length mismatch: it is only logged and the export goes on; rows stop only
  when an index is actually out of range.
- Transition count: a maneuver with N turns makes N + 2 phase or turn
  transitions (`SequencerRuns.Position`): ACC to TURN, N turn advances with
  the last one entering REST, and REST to END.

## Left out

- Unity physics: wheel friction and suspension, rigid-body integration, and
  the speed computed from the velocity magnitude. Speed and the time step are
  inputs of `Sequencer.Tick`.
- Floating point: `float` is modelled as real, so NaN and rounding are not
  modelled. A NaN wheel position would escape both drive branches of ACC.
- `UpdateCameraMode` and all of `DriftCamera`: camera interpolation and
  look-at math.
- The friction-curve UI handlers, `PlayerPrefs` persistence, `OnSetToDefaultClick`
  and the speed and weight texts: float parsing, key/value storage and UI.
- File I/O: the file is modelled as its path, header and numeric rows.
  Number-to-text formatting is the uninterpreted `format`. Whether an
  unclosed writer flushes the rows written before an exception is not
  modelled.
- Sequencer.RestTick: does not model a failure to open or write the file
  (for example a missing `Results/` directory). The writer would throw,
  leaving the state END with the rest and sim timers not advanced. The model
  raises a fault only for a telemetry index out of range, because the file
  system is outside the model.
- Sequencer.Tick: for the same reason, its fault clause omits the file open
  and write failures of the export.
- `SleepAndWakeUp`: a timed coroutine.
- The ground probe `BoxCast`: its result is the input `hit` of
  `CarSwitcher.ReleaseResetKey`.
- Telemetry recording: samples are appended by `GraphOverlay`, which is not
  part of this model. The buffers are state that only `StartSimIndex` clears,
  so `SequencerRuns.Run` never appends samples.
- `WeightConfig.Count` as a stored value: the enum is modelled with only its
  two real members. So `UpdateWeightConfig` and `SavePath` never meet the
  sentinel.
- Null objects: missing children found by name, and missing renderer, wheel
  or camera rig.
- The K handler's rewiring of `GraphOverlay` and the `DriftCamera` targets:
  those components are not part of this model.
- `turnTime`: a field the code never reads.
- CarSwitcher.Update: its contract states when it faults, that the ranges are
  kept and that only the selected vehicle stays active; the full per-key
  effect is stated by the three key members it calls.
