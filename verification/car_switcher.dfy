/**
  `CarSwitcher.Update`: on key release, W cycles the mass variant of the
  current vehicle, K switches to the next vehicle and R puts the current
  vehicle back at the closest spawn point.
 */
module CarSwitcher {
  import opened Wrappers
  import opened Geometry
  import Cycle

  /** `weightIndex` cycles over three variants: no extra mass, battery pack, engine block. */
  const WeightVariants := 3

  /** A vehicle object: whether it and its two mass children are active, and its body. */
  datatype Vehicle = Vehicle(active: bool, batteryActive: bool, engineActive: bool, body: Body)

  datatype SpawnPoint = SpawnPoint(position: Vec3, rotation: Quat)

  /** The switcher's state: the vehicle list, the selected vehicle and the weight variant. */
  datatype Switcher = Switcher(vehicles: seq<Vehicle>, vehicleId: int, weightIndex: int)

  /** The exceptions: an empty vehicle list indexed, or a spawn-point parent without children. */
  datatype KeyFault = VehicleIndexOutOfRange | NoSpawnPoint

  datatype KeyOutcome = KeyOutcome(next: Switcher, fault: Option<KeyFault>)

  /** Index `id` selects a vehicle of the list. */
  predicate Selects(vehicles: seq<Vehicle>, id: int)
  {
    0 <= id < |vehicles|
  }

  /** Exactly the selected vehicle is active. */
  predicate OnlySelectedActive(sw: Switcher)
  {
    forall j :: 0 <= j < |sw.vehicles| ==> (sw.vehicles[j].active <==> j == sw.vehicleId)
  }

  /**
    The mass children for a weight variant: 0 neither, 1 battery only, 2
    engine only. Any other index changes nothing.
   */
  function ApplyWeightIndex(v: Vehicle, index: int): (r: Vehicle)
    ensures 0 <= index < WeightVariants ==> !(r.batteryActive && r.engineActive)
    ensures 0 <= index < WeightVariants ==> (r.batteryActive <==> index == 1) && (r.engineActive <==> index == 2)
    ensures !(0 <= index < WeightVariants) ==> r == v
    ensures r == v.(batteryActive := r.batteryActive, engineActive := r.engineActive)
  {
    if index == 0 then v.(batteryActive := false, engineActive := false)
    else if index == 1 then v.(batteryActive := true, engineActive := false)
    else if index == 2 then v.(batteryActive := false, engineActive := true)
    else v
  }

  /** W released: advance the weight variant, then apply it to the selected vehicle. */
  function ReleaseWeightKey(sw: Switcher): (o: KeyOutcome)
    ensures 0 <= sw.weightIndex < WeightVariants ==>
      0 <= o.next.weightIndex < WeightVariants && o.next.weightIndex == (sw.weightIndex + 1) % WeightVariants
    ensures o.fault.Some? <==> !Selects(sw.vehicles, sw.vehicleId)
    ensures o.fault.Some? ==> o.fault == Some(VehicleIndexOutOfRange) && o.next.vehicles == sw.vehicles
    ensures o.next.vehicleId == sw.vehicleId && |o.next.vehicles| == |sw.vehicles|
    ensures o.fault.None? ==> forall j :: 0 <= j < |sw.vehicles| && j != sw.vehicleId ==> o.next.vehicles[j] == sw.vehicles[j]
    ensures o.fault.None? ==> o.next.vehicles[sw.vehicleId] == ApplyWeightIndex(sw.vehicles[sw.vehicleId], o.next.weightIndex)
  {
    var index := Cycle.Succ(sw.weightIndex, WeightVariants);
    var sw1 := sw.(weightIndex := index);
    if !Selects(sw.vehicles, sw.vehicleId) then
      KeyOutcome(sw1, Some(VehicleIndexOutOfRange))
    else
      var id := sw.vehicleId;
      KeyOutcome(sw1.(vehicles := sw.vehicles[id := ApplyWeightIndex(sw.vehicles[id], index)]), None)
  }

  /**
    K released: deactivate the selected vehicle, select the next one modulo
    the list length, activate it. With a single vehicle the same one ends up
    active, since the activation comes last.
   */
  function ReleaseSwitchKey(sw: Switcher): (o: KeyOutcome)
    ensures o.fault.Some? <==> !Selects(sw.vehicles, sw.vehicleId)
    ensures o.fault.Some? ==> o == KeyOutcome(sw, Some(VehicleIndexOutOfRange))
    ensures |o.next.vehicles| == |sw.vehicles| && o.next.weightIndex == sw.weightIndex
    ensures o.fault.None? ==>
      var id, id' := sw.vehicleId, o.next.vehicleId;
      && Selects(sw.vehicles, id')
      && id' == Cycle.Succ(id, |sw.vehicles|)
      && o.next.vehicles[id'] == sw.vehicles[id'].(active := true)
      && (id' != id ==> o.next.vehicles[id] == sw.vehicles[id].(active := false))
      && (forall j :: 0 <= j < |sw.vehicles| && j != id && j != id' ==> o.next.vehicles[j] == sw.vehicles[j])
    ensures o.fault.None? && OnlySelectedActive(sw) ==> OnlySelectedActive(o.next)
  {
    if !Selects(sw.vehicles, sw.vehicleId) then
      KeyOutcome(sw, Some(VehicleIndexOutOfRange))
    else
      var id := sw.vehicleId;
      var off := sw.vehicles[id := sw.vehicles[id].(active := false)];
      var id' := (id + 1) % |sw.vehicles|;
      var on := off[id' := off[id'].(active := true)];
      KeyOutcome(sw.(vehicles := on, vehicleId := id'), None)
  }

  /** The state after `m` releases of K, stopping at the first exception. */
  function SwitchAfter(sw: Switcher, m: nat): KeyOutcome
  {
    if m == 0 then KeyOutcome(sw, None)
    else
      var o := SwitchAfter(sw, m - 1);
      if o.fault.Some? then o else ReleaseSwitchKey(o.next)
  }

  lemma {:induction false} SwitchAfterIsCycle(sw: Switcher, m: nat)
    requires Selects(sw.vehicles, sw.vehicleId)
    ensures SwitchAfter(sw, m).fault.None?
    ensures |SwitchAfter(sw, m).next.vehicles| == |sw.vehicles|
    ensures SwitchAfter(sw, m).next.vehicleId == Cycle.Steps(sw.vehicleId, |sw.vehicles|, m)
    ensures OnlySelectedActive(sw) ==> OnlySelectedActive(SwitchAfter(sw, m).next)
  {
    if m > 0 {
      SwitchAfterIsCycle(sw, m - 1);
    }
  }

  /**
    With `n` vehicles, `n` releases of K, and no fewer, bring the selection
    back to the starting vehicle; if only the selected vehicle was active,
    that is still so.
   */
  lemma SwitchPeriod(sw: Switcher)
    requires Selects(sw.vehicles, sw.vehicleId)
    ensures SwitchAfter(sw, |sw.vehicles|).next.vehicleId == sw.vehicleId
    ensures forall m: nat :: 0 < m < |sw.vehicles| ==> SwitchAfter(sw, m).next.vehicleId != sw.vehicleId
    ensures OnlySelectedActive(sw) ==> OnlySelectedActive(SwitchAfter(sw, |sw.vehicles|).next)
  {
    Cycle.Period(sw.vehicleId, |sw.vehicles|);
    SwitchAfterIsCycle(sw, |sw.vehicles|);
    forall m: nat | 0 < m < |sw.vehicles|
      ensures SwitchAfter(sw, m).next.vehicleId != sw.vehicleId
    {
      SwitchAfterIsCycle(sw, m);
    }
  }

  /**
    Spawn point `k` is at the least distance from the car, and every spawn
    point before it is strictly farther: the first closest one.
   */
  predicate IsFirstClosest(points: seq<SpawnPoint>, car: Vec3, dist: (Vec3, Vec3) -> real, k: int)
  {
    && 0 <= k < |points|
    && (forall j :: 0 <= j < |points| ==> dist(points[k].position, car) <= dist(points[j].position, car))
    && (forall j :: 0 <= j < k ==> dist(points[j].position, car) > dist(points[k].position, car))
  }

  /** The first closest spawn point is unique. */
  lemma FirstClosestUnique(points: seq<SpawnPoint>, car: Vec3, dist: (Vec3, Vec3) -> real, k1: int, k2: int)
    requires IsFirstClosest(points, car, dist, k1) && IsFirstClosest(points, car, dist, k2)
    ensures k1 == k2
  {
    var d1, d2 := dist(points[k1].position, car), dist(points[k2].position, car);
    assert d1 <= d2 && d2 <= d1;
    assert k1 < k2 ==> d1 > d2;
    assert k2 < k1 ==> d2 > d1;
  }

  /**
    The closest-spawn-point loop: start from child 0 and replace the candidate
    only by a strictly closer child, so ties keep the earliest.
   */
  method FindClosest(points: seq<SpawnPoint>, car: Vec3, dist: (Vec3, Vec3) -> real) returns (closest: int)
    requires |points| > 0
    ensures IsFirstClosest(points, car, dist, closest)
  {
    closest := 0;
    var i := 0;
    while i < |points|
      invariant 0 <= i <= |points|
      invariant 0 <= closest < |points| && (closest == 0 || closest < i)
      invariant forall j :: 0 <= j < i ==> dist(points[closest].position, car) <= dist(points[j].position, car)
      invariant forall j :: 0 <= j < closest ==> dist(points[j].position, car) > dist(points[closest].position, car)
    {
      var distanceToClosest := dist(points[closest].position, car);
      var distanceToThis := dist(points[i].position, car);
      if distanceToThis < distanceToClosest {
        closest := i;
      }
      i := i + 1;
    }
  }

  /**
    Where the car is placed above a spawn point: moved down by the
    ground-probe hit distance less the wheel radius when the probe hits (up,
    if the hit is closer than the wheel radius), otherwise exactly at the
    spawn point.
   */
  function Snap(spawn: Vec3, hit: Option<real>, wheelRadius: real): (p: Vec3)
    ensures p.x == spawn.x && p.z == spawn.z
    ensures hit.None? ==> p == spawn
    ensures hit.Some? ==> p.y == spawn.y - (hit.value - wheelRadius)
  {
    match hit
    case None => spawn
    case Some(d) => Vec3(spawn.x, spawn.y - (d - wheelRadius), spawn.z)
  }

  /**
    R released: put the selected vehicle upright, move it to the closest spawn
    point with that point's rotation, and stop it. `hit` is the result of the
    ground probe below the spawn point. Also returns the chosen spawn index.
   */
  method ReleaseResetKey(sw: Switcher, points: seq<SpawnPoint>, dist: (Vec3, Vec3) -> real,
                         hit: Option<real>, wheelRadius: real)
    returns (o: KeyOutcome, chosen: int)
    ensures o.next.vehicleId == sw.vehicleId && o.next.weightIndex == sw.weightIndex
    ensures |o.next.vehicles| == |sw.vehicles|
    ensures !Selects(sw.vehicles, sw.vehicleId) ==> o == KeyOutcome(sw, Some(VehicleIndexOutOfRange))
    ensures Selects(sw.vehicles, sw.vehicleId) && |points| == 0 ==>
      o.fault == Some(NoSpawnPoint)
      && o.next.vehicles == sw.vehicles[sw.vehicleId := sw.vehicles[sw.vehicleId].(body := sw.vehicles[sw.vehicleId].body.(rotation := Identity))]
    ensures o.fault.None? <==> Selects(sw.vehicles, sw.vehicleId) && |points| > 0
    ensures o.fault.None? ==>
      var id := sw.vehicleId;
      var b := o.next.vehicles[id].body;
      && IsFirstClosest(points, sw.vehicles[id].body.position, dist, chosen)
      && b.rotation == points[chosen].rotation
      && b.position == Snap(points[chosen].position, hit, wheelRadius)
      && b.velocity == Zero && b.angularVelocity == Zero
      && o.next.vehicles == sw.vehicles[id := sw.vehicles[id].(body := b)]
  {
    chosen := 0;
    if !Selects(sw.vehicles, sw.vehicleId) {
      o := KeyOutcome(sw, Some(VehicleIndexOutOfRange));
      return;
    }
    var id := sw.vehicleId;
    var v := sw.vehicles[id];
    var upright := v.(body := v.body.(rotation := Identity));
    if |points| == 0 {
      o := KeyOutcome(sw.(vehicles := sw.vehicles[id := upright]), Some(NoSpawnPoint));
      return;
    }
    chosen := FindClosest(points, upright.body.position, dist);
    var spawn := points[chosen];
    var body := upright.body.(rotation := spawn.rotation);
    body := body.(position := Snap(spawn.position, hit, wheelRadius));
    body := body.(velocity := Zero, angularVelocity := Zero);
    o := KeyOutcome(sw.(vehicles := sw.vehicles[id := v.(body := body)]), None);
  }

  /**
    One `Update` frame with the given keys released, handled in the order W,
    K, R; an exception ends the frame.
   */
  method Update(sw: Switcher, keyW: bool, keyK: bool, keyR: bool,
                points: seq<SpawnPoint>, dist: (Vec3, Vec3) -> real, hit: Option<real>, wheelRadius: real)
    returns (o: KeyOutcome)
    ensures o.fault.Some? <==>
      (keyW || keyK || keyR) && (!Selects(sw.vehicles, sw.vehicleId) || (keyR && |points| == 0))
    ensures 0 <= sw.weightIndex < WeightVariants ==> 0 <= o.next.weightIndex < WeightVariants
    ensures Selects(sw.vehicles, sw.vehicleId) ==> Selects(o.next.vehicles, o.next.vehicleId)
    ensures o.fault.None? && OnlySelectedActive(sw) ==> OnlySelectedActive(o.next)
  {
    o := KeyOutcome(sw, None);
    if keyW {
      o := ReleaseWeightKey(o.next);
      if o.fault.Some? {
        return;
      }
    }
    if keyK {
      o := ReleaseSwitchKey(o.next);
      if o.fault.Some? {
        return;
      }
    }
    if keyR {
      var chosen;
      o, chosen := ReleaseResetKey(o.next, points, dist, hit, wheelRadius);
    }
  }
}
