/**
  The scripted maneuver sequencer of `SimManager`: `StartSimIndex` and one
  `FixedUpdate` tick, as pure functions of the state, the speed reading and the
  fixed time step.
 */
module Sequencer {
  import opened Wrappers
  import opened Geometry
  import opened SimTypes
  import opened CsvExport

  /** The brake torque applied to every wheel while resting. */
  const MaxBrakeTorque := 1000000.0

  /** One tick's result: the state it leaves, the export it performed, and the exception it raised. */
  datatype Step = Step(next: Sim, saved: Option<Saved>, fault: Option<Fault>)

  /**
    `StartSimIndex(index)`: reset the car, clear the telemetry, then load
    configuration `index` and enter ACC with all timers at zero. An index
    outside the list throws after the reset and the clearing.
   */
  function StartSimIndex(settings: Settings, s: Sim, index: int): (o: Outcome)
    ensures o.fault.None? <==> 0 <= index < |settings.configs|
    ensures o.next.body == ResetCar(s.body, settings.spawn)
    ensures o.next.telemetry == Cleared(s.telemetry)
    ensures o.next.camera == s.camera && o.next.wheels == s.wheels
    ensures o.fault.Some? ==>
      o.fault == Some(ConfigIndexOutOfRange) && o.next == s.(body := o.next.body, telemetry := o.next.telemetry)
    ensures o.fault.None? ==>
      var c := settings.configs[index];
      && o.next.started && o.next.state == Acc && o.next.configIndex == index
      && o.next.turns == c.turns && o.next.turnIndex == 0
      && o.next.simTimer == 0.0 && o.next.turnTimer == 0.0 && o.next.restTimer == 0.0
      && o.next.configName == c.name && o.next.turnSpeed == c.initSpeed && o.next.weight == c.weight
      && (o.next.batteryActive <==> c.weight == EV) && o.next.batteryActive != o.next.engineActive
  {
    var reset := s.(body := ResetCar(s.body, settings.spawn), telemetry := Cleared(s.telemetry));
    if !(0 <= index < |settings.configs|) then
      Outcome(reset, Some(ConfigIndexOutOfRange))
    else
      var c := settings.configs[index];
      var loaded := UpdateWeightConfig(reset.(turns := c.turns, turnIndex := 0, configName := c.name,
                                              turnSpeed := c.initSpeed, weight := c.weight));
      Outcome(loaded.(started := true, configIndex := index, state := Acc,
                      simTimer := 0.0, turnTimer := 0.0, restTimer := 0.0), None)
  }

  /** `OnStartSimClick`: start the run set at the first configuration. */
  function StartRunSet(settings: Settings, s: Sim): (o: Outcome)
    ensures o.fault.None? <==> |settings.configs| > 0
    ensures o.fault.None? ==> o.next.started && o.next.configIndex == 0 && o.next.state == Acc
  {
    StartSimIndex(settings, s, 0)
  }

  /** A wheel with all three actuation values at zero. */
  function Released(w: Wheel): Wheel
  {
    w.(motorTorque := 0.0, steerAngle := 0.0, brakeTorque := 0.0)
  }

  /**
    An accelerating wheel. The source sets the drive torque in two separate
    branches, for wheels behind and in front of the centre; together they
    cover every wheel.
   */
  function Driven(w: Wheel, driveForce: real): (r: Wheel)
    ensures r == w.(motorTorque := driveForce, brakeTorque := 0.0, steerAngle := 0.0)
  {
    var w1 := w.(steerAngle := 0.0, brakeTorque := 0.0);
    var w2 := if w1.z < 0.0 then w1.(motorTorque := driveForce) else w1;
    if w2.z >= 0.0 then w2.(motorTorque := driveForce) else w2
  }

  /** A resting wheel: no drive, full brake, straight. */
  function Braked(w: Wheel): Wheel
  {
    w.(motorTorque := 0.0, brakeTorque := MaxBrakeTorque, steerAngle := 0.0)
  }

  /** A turning wheel before its steer angle is set: no drive and no brake. */
  function Coasting(w: Wheel): Wheel
  {
    w.(motorTorque := 0.0, brakeTorque := 0.0)
  }

  /** Index of the first front wheel (local z above zero), or `|ws|` if there is none. */
  function FirstFront(ws: seq<Wheel>): (f: nat)
    ensures f <= |ws|
    ensures forall i :: 0 <= i < f ==> ws[i].z <= 0.0
    ensures f < |ws| ==> ws[f].z > 0.0
  {
    if |ws| == 0 then 0
    else if ws[0].z > 0.0 then 0
    else 1 + FirstFront(ws[1..])
  }

  /**
    The TURN wheel loop: every wheel coasts and front wheels take the current
    turn's angle. `angle` is `None` when the turn index is out of range; the
    loop then throws at the first front wheel, leaving the wheels after it
    untouched. The second component tells whether it threw.
   */
  function TurnWheels(ws: seq<Wheel>, angle: Option<real>): (r: (seq<Wheel>, bool))
    ensures |r.0| == |ws|
    ensures r.1 <==> angle.None? && FirstFront(ws) < |ws|
    ensures angle.Some? ==> forall i :: 0 <= i < |ws| ==>
      r.0[i] == if ws[i].z > 0.0 then Coasting(ws[i]).(steerAngle := angle.value) else Coasting(ws[i])
    ensures angle.None? ==> forall i :: 0 <= i < |ws| ==>
      r.0[i] == if i <= FirstFront(ws) then Coasting(ws[i]) else ws[i]
  {
    if |ws| == 0 then ([], false)
    else
      var w := Coasting(ws[0]);
      if w.z > 0.0 && angle.None? then
        ([w] + ws[1..], true)
      else
        var w' := if w.z > 0.0 then w.(steerAngle := angle.value) else w;
        var (rest, thrown) := TurnWheels(ws[1..], angle);
        assert forall i :: 1 <= i < |ws| ==> ws[1..][i - 1] == ws[i];
        ([w'] + rest, thrown)
  }

  /** The sim timer grows by the time step: the last statement of a tick that did not throw. */
  function Advance(s: Sim, dt: real): (r: Sim)
    ensures r.simTimer == s.simTimer + dt
    ensures r == s.(simTimer := r.simTimer)
  {
    s.(simTimer := s.simTimer + dt)
  }

  /** The ACC branch: accelerate until the target speed is reached, then release everything and enter TURN. */
  function AccTick(settings: Settings, s: Sim, vel: real): (r: Sim)
    requires s.state == Acc
    ensures |r.wheels| == |s.wheels|
    ensures vel >= s.turnSpeed ==> r.state == Turn && r.turnTimer == 0.0
    ensures vel >= s.turnSpeed ==> forall i :: 0 <= i < |s.wheels| ==>
      r.wheels[i] == s.wheels[i].(motorTorque := 0.0, brakeTorque := 0.0, steerAngle := 0.0)
    ensures vel < s.turnSpeed ==> r.state == Acc && r.turnTimer == s.turnTimer
    ensures vel < s.turnSpeed ==> forall i :: 0 <= i < |s.wheels| ==>
      r.wheels[i] == s.wheels[i].(motorTorque := settings.driveForce, brakeTorque := 0.0, steerAngle := 0.0)
    ensures r == s.(state := r.state, turnTimer := r.turnTimer, wheels := r.wheels)
  {
    if vel >= s.turnSpeed then
      s.(wheels := seq(|s.wheels|, i requires 0 <= i < |s.wheels| => Released(s.wheels[i])),
         state := Turn, turnTimer := 0.0)
    else
      s.(wheels := seq(|s.wheels|, i requires 0 <= i < |s.wheels| => Driven(s.wheels[i], settings.driveForce)))
  }

  /**
    The TURN branch. Front wheels steer to the current turn's angle; once the
    turn timer has reached the turn's duration the index advances by one and
    the timer restarts, entering REST after the last turn. The timer is
    incremented after the check, so a fresh turn starts at `dt`. An index past
    the end of the turn list throws.
   */
  function TurnTick(s: Sim, dt: real): (o: Outcome)
    requires s.state == Turn
    ensures o.fault.Some? <==> s.turnIndex >= |s.turns|
    ensures o.fault.Some? ==> o.fault == Some(TurnIndexOutOfRange)
    ensures o.fault.Some? ==> o.next == s.(wheels := TurnWheels(s.wheels, None).0)
    ensures |o.next.wheels| == |s.wheels|
    ensures o.fault.None? ==>
      var t := s.turns[s.turnIndex];
      var advanced := s.turnTimer >= t.duration;
      && (forall i :: 0 <= i < |s.wheels| ==>
            && o.next.wheels[i].z == s.wheels[i].z
            && o.next.wheels[i].motorTorque == 0.0 && o.next.wheels[i].brakeTorque == 0.0
            && o.next.wheels[i].steerAngle == (if s.wheels[i].z > 0.0 then t.angle else s.wheels[i].steerAngle))
      && (o.next.turnIndex == s.turnIndex || o.next.turnIndex == s.turnIndex + 1)
      && (o.next.turnIndex == s.turnIndex + 1 <==> advanced)
      && o.next.turnIndex <= |s.turns|
      && (o.next.state == Rest <==> o.next.turnIndex == |s.turns|)
      && (o.next.state == Turn || o.next.state == Rest)
      && (o.next.state == Rest ==> o.next.restTimer == 0.0)
      && (o.next.state == Turn ==> o.next.restTimer == s.restTimer)
      && o.next.turnTimer == (if advanced then dt else s.turnTimer + dt)
      && o.next == s.(wheels := o.next.wheels, turnIndex := o.next.turnIndex, turnTimer := o.next.turnTimer,
                      state := o.next.state, restTimer := o.next.restTimer)
  {
    var angle := if s.turnIndex < |s.turns| then Some(s.turns[s.turnIndex].angle) else None;
    var (wheels, thrown) := TurnWheels(s.wheels, angle);
    var s1 := s.(wheels := wheels);
    if s.turnIndex >= |s.turns| then
      Outcome(s1, Some(TurnIndexOutOfRange))
    else
      var s2 :=
        if s.turnTimer >= s.turns[s.turnIndex].duration then
          var s3 := s1.(turnIndex := s.turnIndex + 1, turnTimer := 0.0);
          if s3.turnIndex >= |s.turns| then s3.(state := Rest, restTimer := 0.0) else s3
        else s1;
      Outcome(s2.(turnTimer := s2.turnTimer + dt), None)
  }

  /**
    The REST branch: brake every wheel; once the rest timer has reached the
    rest time, enter END and export. The export may throw part-way, which
    skips the rest of the tick.
   */
  function RestTick(settings: Settings, s: Sim, dt: real): (st: Step)
    requires s.state == Rest
    ensures |st.next.wheels| == |s.wheels|
    ensures forall i :: 0 <= i < |s.wheels| ==>
      st.next.wheels[i] == s.wheels[i].(motorTorque := 0.0, brakeTorque := MaxBrakeTorque, steerAngle := 0.0)
    ensures st.saved.Some? <==> s.restTimer >= settings.restTime
    ensures st.next.state == (if s.restTimer >= settings.restTime then End else Rest)
    ensures st.saved.Some? ==> st.saved.value == SaveFile(s.configName, s.weight, s.turnSpeed, settings.format, s.telemetry)
    ensures st.fault.Some? <==> st.saved.Some? && !st.saved.value.complete
    ensures st.fault.Some? ==> st.fault == Some(TelemetryIndexOutOfRange) && st.next.restTimer == s.restTimer
    ensures st.fault.None? ==> st.next.restTimer == s.restTimer + dt
    ensures st.next == s.(wheels := st.next.wheels, state := st.next.state, restTimer := st.next.restTimer)
  {
    var s1 := s.(wheels := seq(|s.wheels|, i requires 0 <= i < |s.wheels| => Braked(s.wheels[i])));
    if s.restTimer >= settings.restTime then
      var saved := SaveFile(s.configName, s.weight, s.turnSpeed, settings.format, s.telemetry);
      if saved.complete then
        Step(s1.(state := End, restTimer := s.restTimer + dt), Some(saved), None)
      else
        Step(s1.(state := End), Some(saved), Some(TelemetryIndexOutOfRange))
    else
      Step(s1.(restTimer := s.restTimer + dt), None, None)
  }

  /** The END branch: start the next configuration, or stop after the last one. */
  function EndTick(settings: Settings, s: Sim): (r: Sim)
    requires s.state == End
    ensures s.configIndex + 1 >= |settings.configs| ==> r == s.(started := false)
    ensures s.configIndex + 1 < |settings.configs| ==>
      r.started && r.configIndex == s.configIndex + 1 && r.state == Acc
      && r.turns == settings.configs[s.configIndex + 1].turns && r.turnIndex == 0
      && r.simTimer == 0.0 && r.turnTimer == 0.0 && r.restTimer == 0.0
      && r.telemetry == Cleared(s.telemetry) && r.wheels == s.wheels
    ensures s.configIndex + 1 < |settings.configs| ==>
      var c := settings.configs[s.configIndex + 1];
      && r.configName == c.name && r.turnSpeed == c.initSpeed && r.weight == c.weight
      && (r.batteryActive <==> c.weight == EV) && r.batteryActive != r.engineActive
      && r.body == ResetCar(s.body, settings.spawn) && r.camera == s.camera
  {
    if s.configIndex + 1 >= |settings.configs| then
      s.(started := false)
    else
      StartSimIndex(settings, s, s.configIndex + 1).next
  }

  /** One `FixedUpdate` tick of the sequencer, given the car's speed in km/h and the fixed time step. */
  function Tick(settings: Settings, s: Sim, vel: real, dt: real): (st: Step)
    ensures !s.started ==> st == Step(s, None, None)
    ensures st.saved.Some? <==> s.started && s.state == Rest && s.restTimer >= settings.restTime
    ensures st.fault.Some? <==>
      s.started && ((s.state == Turn && s.turnIndex >= |s.turns|) || (st.saved.Some? && !st.saved.value.complete))
    ensures |st.next.wheels| == |s.wheels|
    ensures forall i :: 0 <= i < |s.wheels| ==> st.next.wheels[i].z == s.wheels[i].z
    ensures s.started && st.fault.None? && !(s.state == End && s.configIndex + 1 < |settings.configs|) ==>
      st.next.simTimer == s.simTimer + dt
    ensures s.started && s.state == End && s.configIndex + 1 < |settings.configs| ==> st.next.simTimer == dt
  {
    if !s.started then Step(s, None, None)
    else
      match s.state
      case Acc => Step(Advance(AccTick(settings, s, vel), dt), None, None)
      case Turn =>
        var o := TurnTick(s, dt);
        if o.fault.Some? then Step(o.next, None, o.fault) else Step(Advance(o.next, dt), None, None)
      case Rest =>
        var st := RestTick(settings, s, dt);
        if st.fault.Some? then st else st.(next := Advance(st.next, dt))
      case End => Step(Advance(EndTick(settings, s), dt), None, None)
  }
}
