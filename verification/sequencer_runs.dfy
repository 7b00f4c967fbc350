/**
  Properties of sequences of sequencer ticks: the state invariant a tick keeps,
  the bound on how many exports a run set performs, and how far one tick can
  move a maneuver forward.
 */
module SequencerRuns {
  import opened Wrappers
  import opened SimTypes
  import opened CsvExport
  import opened Sequencer

  /** The invariant of a started sequencer: a loaded configuration and a turn index consistent with the phase. */
  predicate WellFormed(settings: Settings, s: Sim)
  {
    s.started ==>
      && s.configIndex < |settings.configs|
      && s.turns == settings.configs[s.configIndex].turns
      && s.turnIndex <= |s.turns|
      && (s.state == Acc ==> s.turnIndex == 0)
      && (s.state == Turn ==> s.turnIndex < |s.turns| || |s.turns| == 0)
      && (s.state == Rest || s.state == End ==> s.turnIndex == |s.turns|)
  }

  /** Starting a configuration establishes the invariant. */
  lemma StartIsWellFormed(settings: Settings, s: Sim, index: int)
    requires 0 <= index < |settings.configs|
    ensures WellFormed(settings, StartSimIndex(settings, s, index).next)
  {
  }

  lemma TickPreservesWellFormed(settings: Settings, s: Sim, vel: real, dt: real)
    requires WellFormed(settings, s)
    ensures WellFormed(settings, Tick(settings, s, vel, dt).next)
  {
  }

  /**
    The number of exports the sequencer can still perform: one per
    configuration from the current one on, minus one once the current one has
    exported.
   */
  function Budget(settings: Settings, s: Sim): int
  {
    if !s.started then 0
    else if s.state == End then |settings.configs| - s.configIndex - 1
    else |settings.configs| - s.configIndex
  }

  /**
    Every export uses up one unit of budget and nothing else changes it; the
    configuration index never decreases while started, and grows exactly on a
    restart from END.
   */
  lemma TickBudget(settings: Settings, s: Sim, vel: real, dt: real)
    requires WellFormed(settings, s)
    ensures Budget(settings, s) >= 0
    ensures var st := Tick(settings, s, vel, dt);
      Budget(settings, st.next) + (if st.saved.Some? then 1 else 0) == Budget(settings, s)
    ensures var st := Tick(settings, s, vel, dt);
      s.started && st.next.started ==>
        (st.next.configIndex == s.configIndex + 1 && s.state == End)
        || (st.next.configIndex == s.configIndex && s.state != End)
  {
  }

  /** The speed reading and time step of one tick. */
  datatype Reading = Reading(vel: real, dt: real)

  /** Feeding ticks one per reading: the final state and the exports performed, in order. */
  function Run(settings: Settings, s: Sim, rs: seq<Reading>): (r: (Sim, seq<Saved>))
    decreases |rs|
  {
    if |rs| == 0 then (s, [])
    else
      var st := Tick(settings, s, rs[0].vel, rs[0].dt);
      var (final, saves) := Run(settings, st.next, rs[1..]);
      (final, (if st.saved.Some? then [st.saved.value] else []) + saves)
  }

  /** Over any sequence of ticks the invariant holds and the exports performed are paid for by the budget. */
  lemma {:induction false} RunBudget(settings: Settings, s: Sim, rs: seq<Reading>)
    requires WellFormed(settings, s)
    decreases |rs|
    ensures WellFormed(settings, Run(settings, s, rs).0)
    ensures |Run(settings, s, rs).1| + Budget(settings, Run(settings, s, rs).0) == Budget(settings, s)
  {
    if |rs| > 0 {
      TickPreservesWellFormed(settings, s, rs[0].vel, rs[0].dt);
      TickBudget(settings, s, rs[0].vel, rs[0].dt);
      RunBudget(settings, Tick(settings, s, rs[0].vel, rs[0].dt).next, rs[1..]);
    }
  }

  /** A run set started from the first configuration exports at most once per configuration. */
  lemma RunSetExportsAtMostCount(settings: Settings, s: Sim, rs: seq<Reading>)
    requires |settings.configs| > 0
    ensures |Run(settings, StartRunSet(settings, s).next, rs).1| <= |settings.configs|
  {
    var s0 := StartRunSet(settings, s).next;
    StartIsWellFormed(settings, s, 0);
    RunBudget(settings, s0, rs);
    TickBudget(settings, Run(settings, s0, rs).0, 0.0, 0.0);
  }

  /** A stopped sequencer stays exactly as it is, however many ticks pass, and exports nothing. */
  lemma {:induction false} StoppedRunIsIdle(settings: Settings, s: Sim, rs: seq<Reading>)
    requires !s.started
    decreases |rs|
    ensures Run(settings, s, rs) == (s, [])
  {
    if |rs| > 0 {
      assert Tick(settings, s, rs[0].vel, rs[0].dt) == Step(s, None, None);
      StoppedRunIsIdle(settings, s, rs[1..]);
      var tail := Run(settings, s, rs[1..]);
      assert Run(settings, s, rs) == (tail.0, [] + tail.1);
      assert tail.1 == [];
      assert [] + tail.1 == tail.1;
    }
  }

  /**
    How far a maneuver has got: 0 in ACC, `1 + i` while performing turn `i`,
    `|turns| + 1` in REST and `|turns| + 2` in END. A full maneuver with N turns
    thus makes N + 2 phase or turn transitions.
   */
  function Position(s: Sim): int
  {
    match s.state
    case Acc => 0
    case Turn => 1 + s.turnIndex
    case Rest => |s.turns| + 1
    case End => |s.turns| + 2
  }

  /**
    Within one configuration a tick moves the maneuver forward by at most one
    position, and by exactly one when the phase or the turn index changes.
   */
  lemma TickProgress(settings: Settings, s: Sim, vel: real, dt: real)
    requires WellFormed(settings, s) && s.started
    requires Tick(settings, s, vel, dt).next.started
    requires Tick(settings, s, vel, dt).next.configIndex == s.configIndex
    ensures var n := Tick(settings, s, vel, dt).next;
      && n.turns == s.turns
      && (Position(n) == Position(s) || Position(n) == Position(s) + 1)
      && (Position(n) == Position(s) + 1 <==> n.state != s.state || n.turnIndex != s.turnIndex)
  {
  }

  /** `m` ticks from one state, as long as the sequencer stays on the same configuration, advance at most `m` positions. */
  lemma {:induction false} RunProgress(settings: Settings, s: Sim, rs: seq<Reading>)
    requires WellFormed(settings, s) && s.started
    requires Run(settings, s, rs).0.started && Run(settings, s, rs).0.configIndex == s.configIndex
    decreases |rs|
    ensures Run(settings, s, rs).0.turns == s.turns
    ensures Position(s) <= Position(Run(settings, s, rs).0) <= Position(s) + |rs|
  {
    if |rs| > 0 {
      var n := Tick(settings, s, rs[0].vel, rs[0].dt).next;
      TickPreservesWellFormed(settings, s, rs[0].vel, rs[0].dt);
      StoppedOrSameConfig(settings, n, rs[1..]);
      TickProgress(settings, s, rs[0].vel, rs[0].dt);
      RunProgress(settings, n, rs[1..]);
    }
  }

  /** A run that ends started on configuration `c` was started on a configuration at most `c` throughout. */
  lemma {:induction false} StoppedOrSameConfig(settings: Settings, s: Sim, rs: seq<Reading>)
    requires WellFormed(settings, s)
    requires Run(settings, s, rs).0.started
    decreases |rs|
    ensures s.started && s.configIndex <= Run(settings, s, rs).0.configIndex
  {
    if |rs| == 0 {
    } else {
      var n := Tick(settings, s, rs[0].vel, rs[0].dt).next;
      TickPreservesWellFormed(settings, s, rs[0].vel, rs[0].dt);
      TickBudget(settings, s, rs[0].vel, rs[0].dt);
      StoppedOrSameConfig(settings, n, rs[1..]);
      if !s.started {
        StoppedRunIsIdle(settings, s, rs);
      }
    }
  }
}
