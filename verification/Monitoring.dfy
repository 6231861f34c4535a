/** The adaptive monitoring engine: per-entity threshold and hysteresis state, the
    manual-viewer count, and what whole runs of inputs do to them. */
module Monitoring {
  import opened Options

  datatype EntityKind = Host | Container

  datatype Mode = Normal | Critical | ManualRealtime

  datatype ContainerStatus = Running | Exited | Paused | UnknownStatus

  datatype HealthStatus = Healthy | Unhealthy | NoHealth

  datatype Thresholds = Thresholds(
    cpuCritical: real, cpuRecovery: real, memCritical: real, memRecovery: real,
    window: int, minSamples: int,
    normalInterval: int, criticalInterval: int, manualInterval: int)

  datatype Metric = Metric(
    entityType: string, entityId: string,
    cpu: real, memUsed: nat, memLimit: nat, netRX: nat, netTX: nat,
    collectedAt: int, mode: Mode, intervalSeconds: int)

  datatype Reason =
    | CpuThreshold | MemThreshold | Recovered
    | ContainerCrashed | ContainerUnhealthy | ContainerRestarted

  datatype TransitionEvent = TransitionEvent(kind: EntityKind, id: string, entered: Mode, reason: Reason, at: int)

  /** streakStart means nothing while the streak is 0. */
  datatype EntityState = EntityState(critical: bool, streak: nat, streakStart: int, viewers: nat)

  const INITIAL := EntityState(false, 0, 0, 0)

  // ------------------------------------------------------------------ one input

  function MemPercent(m: Metric): real {
    if m.memLimit == 0 then 0.0 else m.memUsed as real / m.memLimit as real * 100.0
  }

  /** At least so many hundredths of the memory limit are in use; without a limit, none. */
  predicate MemAtLeast(m: Metric, percent: real) {
    if m.memLimit == 0 then percent <= 0.0
    else 100.0 * m.memUsed as real >= percent * m.memLimit as real
  }

  lemma ScaledQuotient(a: real, b: real, p: real)
    requires b > 0.0
    ensures a / b * 100.0 >= p <==> 100.0 * a >= p * b
  {
    var q := a / b;
    assert a == q * b;
    if q * 100.0 >= p {
      assert q * 100.0 * b >= p * b;
    } else {
      assert q * 100.0 * b < p * b;
    }
  }

  lemma MemPercentExactly(m: Metric, p: real)
    ensures MemPercent(m) >= p <==> MemAtLeast(m, p)
  {
    if m.memLimit != 0 {
      ScaledQuotient(m.memUsed as real, m.memLimit as real, p);
    }
  }

  /** Below the recovery thresholds in processor and memory. */
  predicate IsClean(cfg: Thresholds, m: Metric) {
    m.cpu < cfg.cpuRecovery && !MemAtLeast(m, cfg.memRecovery)
  }

  lemma CleanExactly(cfg: Thresholds, m: Metric)
    ensures IsClean(cfg, m) <==> m.cpu < cfg.cpuRecovery && MemPercent(m) < cfg.memRecovery
  {
    MemPercentExactly(m, cfg.memRecovery);
  }

  datatype Outcome = Outcome(state: EntityState, reason: Option<Reason>)

  function OnMetric(cfg: Thresholds, st: EntityState, m: Metric, now: int): Outcome {
    if !st.critical then
      if m.cpu >= cfg.cpuCritical then Outcome(st.(critical := true, streak := 0), Some(CpuThreshold))
      else if MemPercent(m) >= cfg.memCritical then Outcome(st.(critical := true, streak := 0), Some(MemThreshold))
      else Outcome(st, None)
    else if !(m.cpu < cfg.cpuRecovery && MemPercent(m) < cfg.memRecovery) then Outcome(st.(streak := 0, streakStart := 0), None)
    else
      var start := if st.streak == 0 then now else st.streakStart;
      if st.streak + 1 >= cfg.minSamples && now - start >= cfg.window
      then Outcome(st.(critical := false, streak := 0, streakStart := 0), Some(Recovered))
      else Outcome(st.(streak := st.streak + 1, streakStart := start), None)
  }

  function OnHealth(st: EntityState, status: ContainerStatus, health: HealthStatus, restarts: int, previous: int): Outcome {
    if st.critical then Outcome(st, None)
    else if status == Exited then Outcome(st.(critical := true), Some(ContainerCrashed))
    else if health == Unhealthy then Outcome(st.(critical := true), Some(ContainerUnhealthy))
    else if restarts > previous then Outcome(st.(critical := true), Some(ContainerRestarted))
    else Outcome(st, None)
  }

  function Opened(st: EntityState): EntityState {
    st.(viewers := st.viewers + 1)
  }

  function Closed(st: EntityState): EntityState {
    if st.viewers > 0 then st.(viewers := st.viewers - 1) else st
  }

  function ModeOf(st: EntityState): Mode {
    if st.viewers > 0 then ManualRealtime else if st.critical then Critical else Normal
  }

  function Entered(reason: Reason): Mode {
    if reason == Recovered then Normal else Critical
  }

  // ------------------------------------------------------------- keys and states

  function KindName(kind: EntityKind): string {
    match kind
    case Host => "host"
    case Container => "container"
  }

  function StateKey(kind: EntityKind, id: string): string {
    KindName(kind) + "/" + id
  }

  lemma StateKeyIsInjective(k1: EntityKind, id1: string, k2: EntityKind, id2: string)
    requires StateKey(k1, id1) == StateKey(k2, id2)
    ensures k1 == k2 && id1 == id2
  {
    var s := StateKey(k1, id1);
    assert s[0] == KindName(k1)[0] == KindName(k2)[0];
    assert s[|KindName(k1)| + 1..] == id1;
    assert s[|KindName(k2)| + 1..] == id2;
  }

  type States = map<string, EntityState>

  /** An entity never seen before is in the initial state. */
  function StateOf(states: States, kind: EntityKind, id: string): EntityState {
    var key := StateKey(kind, id);
    if key in states then states[key] else INITIAL
  }

  function WithState(states: States, kind: EntityKind, id: string, st: EntityState): States {
    states[StateKey(kind, id) := st]
  }

  // ------------------------------------------------------------------- intervals

  function ModeRank(m: Mode): nat {
    match m
    case Normal => 0
    case Critical => 1
    case ManualRealtime => 2
  }

  function IntervalSeconds(cfg: Thresholds, m: Mode): int {
    match m
    case Critical => cfg.criticalInterval
    case ManualRealtime => cfg.manualInterval
    case Normal => cfg.normalInterval
  }

  /** best is the mode to poll at for entities in the given modes. */
  ghost predicate IsFastest(best: Mode, modes: seq<Mode>) {
    if modes == [] then best == Normal
    else best in modes && forall m :: m in modes ==> ModeRank(m) <= ModeRank(best)
  }

  method FastestMode(modes: seq<Mode>) returns (best: Mode)
    ensures IsFastest(best, modes)
  {
    if |modes| == 0 {
      return Normal;
    }
    best := modes[0];
    for i := 1 to |modes|
      invariant best in modes[..i]
      invariant forall m :: m in modes[..i] ==> ModeRank(m) <= ModeRank(best)
    {
      if ModeRank(modes[i]) > ModeRank(best) {
        best := modes[i];
      }
      assert modes[..i + 1] == modes[..i] + [modes[i]];
    }
    assert modes[..|modes|] == modes;
  }

  lemma FastestIsUnique(a: Mode, b: Mode, modes: seq<Mode>)
    requires IsFastest(a, modes) && IsFastest(b, modes)
    ensures a == b
  {
  }

  /** With sensibly ordered intervals the fastest mode's interval is the minimum. */
  lemma FastestPollsMostOften(cfg: Thresholds, best: Mode, modes: seq<Mode>)
    requires cfg.manualInterval <= cfg.criticalInterval <= cfg.normalInterval
    requires IsFastest(best, modes) && modes != []
    ensures best in modes && forall m :: m in modes ==> IntervalSeconds(cfg, best) <= IntervalSeconds(cfg, m)
  {
  }

  // ---------------------------------------------------------------------- engine

  class Engine {
    const cfg: Thresholds
    var state: States

    constructor (cfg: Thresholds)
      ensures this.cfg == cfg && state == map[]
    {
      this.cfg, state := cfg, map[];
    }

    method GetOrCreate(kind: EntityKind, id: string) returns (st: EntityState)
      modifies this
      ensures st == StateOf(old(state), kind, id)
      ensures state == WithState(old(state), kind, id, st)
    {
      var key := StateKey(kind, id);
      if key !in state {
        state := state[key := INITIAL];
      }
      st := state[key];
    }

    method EffectiveMode(kind: EntityKind, id: string) returns (mode: Mode)
      ensures mode == ModeOf(StateOf(state, kind, id))
      ensures mode == ManualRealtime <==> StateOf(state, kind, id).viewers > 0
      ensures mode == Critical <==> StateOf(state, kind, id).viewers == 0 && StateOf(state, kind, id).critical
    {
      var key := StateKey(kind, id);
      if key !in state {
        return Normal;
      }
      var st := state[key];
      if st.viewers > 0 {
        return ManualRealtime;
      } else if st.critical {
        return Critical;
      } else {
        return Normal;
      }
    }

    method EvaluateMetric(kind: EntityKind, id: string, m: Metric, now: int)
        returns (transitioned: bool, ev: Option<TransitionEvent>)
      modifies this
      ensures var o := OnMetric(cfg, StateOf(old(state), kind, id), m, now);
              && state == WithState(old(state), kind, id, o.state)
              && transitioned == o.reason.Some?
              && ev == if transitioned then Some(TransitionEvent(kind, id, Entered(o.reason.value), o.reason.value, now)) else None
      ensures !StateOf(old(state), kind, id).critical ==>
                (transitioned <==> m.cpu >= cfg.cpuCritical || MemAtLeast(m, cfg.memCritical))
    {
      MemPercentExactly(m, cfg.memCritical);
      hide MemAtLeast, MemPercent;
      var st := GetOrCreate(kind, id);
      var key := StateKey(kind, id);
      var cpuPct, memPct := m.cpu, MemPercent(m);
      if !st.critical {
        if cpuPct >= cfg.cpuCritical {
          state := state[key := st.(critical := true, streak := 0)];
          return true, Some(TransitionEvent(kind, id, Critical, CpuThreshold, now));
        } else if memPct >= cfg.memCritical {
          state := state[key := st.(critical := true, streak := 0)];
          return true, Some(TransitionEvent(kind, id, Critical, MemThreshold, now));
        } else {
          return false, None;
        }
      }
      var isClean := cpuPct < cfg.cpuRecovery && memPct < cfg.memRecovery;
      if !isClean {
        state := state[key := st.(streak := 0, streakStart := 0)];
        return false, None;
      }
      if st.streak == 0 {
        st := st.(streakStart := now);
      }
      st := st.(streak := st.streak + 1);
      if st.streak >= cfg.minSamples && now - st.streakStart >= cfg.window {
        state := state[key := st.(critical := false, streak := 0, streakStart := 0)];
        return true, Some(TransitionEvent(kind, id, Normal, Recovered, now));
      }
      state := state[key := st];
      return false, None;
    }

    method EvaluateContainerHealth(id: string, status: ContainerStatus, health: HealthStatus,
                                   restarts: int, previous: int, now: int)
        returns (transitioned: bool, ev: Option<TransitionEvent>)
      modifies this
      ensures var o := OnHealth(StateOf(old(state), Container, id), status, health, restarts, previous);
              && state == WithState(old(state), Container, id, o.state)
              && transitioned == o.reason.Some?
              && ev == if transitioned then Some(TransitionEvent(Container, id, Critical, o.reason.value, now)) else None
    {
      var st := GetOrCreate(Container, id);
      if st.critical {
        return false, None;
      }
      var key := StateKey(Container, id);
      if status == Exited {
        state := state[key := st.(critical := true)];
        return true, Some(TransitionEvent(Container, id, Critical, ContainerCrashed, now));
      } else if health == Unhealthy {
        state := state[key := st.(critical := true)];
        return true, Some(TransitionEvent(Container, id, Critical, ContainerUnhealthy, now));
      } else if restarts > previous {
        state := state[key := st.(critical := true)];
        return true, Some(TransitionEvent(Container, id, Critical, ContainerRestarted, now));
      } else {
        return false, None;
      }
    }

    method ManualViewerOpen(kind: EntityKind, id: string)
      modifies this
      ensures state == WithState(old(state), kind, id, Opened(StateOf(old(state), kind, id)))
    {
      var st := GetOrCreate(kind, id);
      state := state[StateKey(kind, id) := st.(viewers := st.viewers + 1)];
    }

    method ManualViewerClose(kind: EntityKind, id: string)
      modifies this
      ensures state == WithState(old(state), kind, id, Closed(StateOf(old(state), kind, id)))
    {
      var st := GetOrCreate(kind, id);
      if st.viewers > 0 {
        state := state[StateKey(kind, id) := st.(viewers := st.viewers - 1)];
      }
    }
  }
}
