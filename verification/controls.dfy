/** `SimManager.Update`: the W (weight), C (camera) and R (reset) keys. */
module Controls {
  import opened Geometry
  import opened SimTypes
  import Cycle

  /** W: `weightConfig++`, wrapping to the first member when it reaches `Count`. */
  function NextWeight(w: WeightConfig): (r: WeightConfig)
    ensures r != w
    ensures WeightOrdinal(r) == (WeightOrdinal(w) + 1) % WeightCount
  {
    WeightOf(Cycle.Succ(WeightOrdinal(w), WeightCount))
  }

  /** C: `cameraMode++`, wrapping to the first member when it reaches `Count`. */
  function NextCamera(c: CameraMode): (r: CameraMode)
    ensures c == Heli ==> r == Behind
    ensures c == Behind ==> r == Side
    ensures c == Side ==> r == Heli
  {
    CameraOf(Cycle.Succ(CameraOrdinal(c), CameraCount))
  }

  /** The weight after `m` presses of W. */
  function WeightAfter(w: WeightConfig, m: nat): WeightConfig
  {
    if m == 0 then w else NextWeight(WeightAfter(w, m - 1))
  }

  /** The camera mode after `m` presses of C. */
  function CameraAfter(c: CameraMode, m: nat): CameraMode
  {
    if m == 0 then c else NextCamera(CameraAfter(c, m - 1))
  }

  lemma {:induction false} WeightAfterIsCycle(w: WeightConfig, m: nat)
    ensures WeightOrdinal(WeightAfter(w, m)) == Cycle.Steps(WeightOrdinal(w), WeightCount, m)
  {
    if m > 0 {
      WeightAfterIsCycle(w, m - 1);
    }
  }

  lemma {:induction false} CameraAfterIsCycle(c: CameraMode, m: nat)
    ensures CameraOrdinal(CameraAfter(c, m)) == Cycle.Steps(CameraOrdinal(c), CameraCount, m)
  {
    if m > 0 {
      CameraAfterIsCycle(c, m - 1);
    }
  }

  /** W toggles between the two weight configurations: two presses, and no fewer, restore it. */
  lemma WeightKeyPeriod(w: WeightConfig)
    ensures WeightAfter(w, WeightCount) == w
    ensures forall m: nat :: 0 < m < WeightCount ==> WeightAfter(w, m) != w
  {
  }

  /** C cycles HELI, BEHIND, SIDE: three presses, and no fewer, restore the mode. */
  lemma CameraKeyPeriod(c: CameraMode)
    ensures CameraAfter(c, CameraCount) == c
    ensures forall m: nat :: 0 < m < CameraCount ==> CameraAfter(c, m) != c
  {
  }

  /** `Start`: the helicopter view and the IC weight, with the engine block as the active mass. */
  function Start(s: Sim): (r: Sim)
    ensures r.camera == Heli && r.weight == IC
    ensures r.engineActive && !r.batteryActive
    ensures r == s.(camera := r.camera, weight := r.weight, batteryActive := r.batteryActive, engineActive := r.engineActive)
  {
    UpdateWeightConfig(s.(camera := Heli, weight := IC))
  }

  /**
    One `Update` frame with the given keys pressed, handled in the order W, C,
    R. W also refreshes which mass object is active; R resets the car.
   */
  function Update(settings: Settings, s: Sim, keyW: bool, keyC: bool, keyR: bool): (r: Sim)
    ensures r.weight == (if keyW then NextWeight(s.weight) else s.weight)
    ensures keyW ==> r.batteryActive != r.engineActive && (r.batteryActive <==> r.weight == EV)
    ensures !keyW ==> r.batteryActive == s.batteryActive && r.engineActive == s.engineActive
    ensures r.camera == (if keyC then NextCamera(s.camera) else s.camera)
    ensures r.body == (if keyR then ResetCar(s.body, settings.spawn) else s.body)
    ensures r == s.(weight := r.weight, batteryActive := r.batteryActive, engineActive := r.engineActive,
                    camera := r.camera, body := r.body)
  {
    var s1 := if keyW then UpdateWeightConfig(s.(weight := NextWeight(s.weight))) else s;
    var s2 := if keyC then s1.(camera := NextCamera(s1.camera)) else s1;
    if keyR then s2.(body := ResetCar(s2.body, settings.spawn)) else s2
  }
}
