/** What every run of batches, heartbeats, enrollments and viewer calls keeps true. */
module IngestionRuns {
  import opened Options
  import opened Monitoring
  import opened Ingestion

  datatype Op =
    | Telemetry(batch: Batch, fault: Fault)
    | Viewer(kind: EntityKind, id: string, opens: bool)
    | Heartbeat(hostId: string, dockerVersion: string, osInfo: string, now: int)
    | IssueToken(hostId: string, token: string, now: int)
    | EnrollAgent(hostId: string, token: string, cert: Option<string>, now: int)

  function ViewerStep(w: World, kind: EntityKind, id: string, opens: bool): World {
    if w.engine.None? then w
    else
      var st := EngineState(w, kind, id);
      w.(engine := Some(WithState(w.engine.value, kind, id, if opens then Opened(st) else Closed(st))))
  }

  function Step(env: Env, w: World, op: Op): World {
    match op
    case Telemetry(b, f) => if b.hostId in w.hosts then Attempted(env, w, b, f) else w
    case Viewer(kind, id, opens) => ViewerStep(w, kind, id, opens)
    case Heartbeat(h, dv, os, now) => Beat(w, h, dv, os, now)
    case IssueToken(h, token, now) => Issue(env, w, h, token, now)
    case EnrollAgent(h, token, cert, now) => Enroll(env, w, h, token, cert, now)
  }

  function Run(env: Env, w: World, ops: seq<Op>): World {
    if ops == [] then w else Step(env, Run(env, w, ops[..|ops| - 1]), ops[|ops| - 1])
  }

  // --------------------------------------------------------------- event log replay

  predicate IsAbout(ev: Event, kind: EntityKind, id: string) {
    && "monitoring." <= ev.typ
    && if kind == Container then ev.containerId == Some(id) else ev.containerId.None? && ev.hostId == id
  }

  /** An entity's criticality as its monitoring events tell it, starting from normal;
      None if they do not alternate between entering and recovering. */
  function Replay(events: seq<Event>, kind: EntityKind, id: string): Option<bool> {
    if events == [] then Some(false)
    else
      var told, ev := Replay(events[..|events| - 1], kind, id), events[|events| - 1];
      if !IsAbout(ev, kind, id) || told.None? then told
      else if (ev.typ == "monitoring.recovered") == told.value then Some(!told.value)
      else None
  }

  /** For every entity the log alternates and tells the engine's own verdict. */
  ghost predicate LogAgrees(w: World) {
    forall kind: EntityKind, id: string :: Replay(w.events, kind, id) == Some(EngineState(w, kind, id).critical)
  }

  lemma ReplayAppend(events: seq<Event>, ev: Event, kind: EntityKind, id: string)
    ensures var told := Replay(events, kind, id);
            (Replay(events + [ev], kind, id)
             == if !IsAbout(ev, kind, id) || told.None? then told
                else if (ev.typ == "monitoring.recovered") == told.value then Some(!told.value)
                else None)
  {
    assert (events + [ev])[..|events|] == events;
  }

  lemma TransitionTyp(r: Reason)
    ensures "monitoring." <= "monitoring." + ReasonName(r)
    ensures "monitoring." + ReasonName(r) == "monitoring.recovered" <==> r == Recovered
    ensures "monitoring." + ReasonName(r) == "monitoring.container_restarted" <==> r == ContainerRestarted
  {
    ReasonNames(r);
    hide ReasonName;
    SamePrefix(ReasonName(r), "recovered");
    SamePrefix(ReasonName(r), "container_restarted");
    assert "monitoring.recovered" == "monitoring." + "recovered";
    assert "monitoring.container_restarted" == "monitoring." + "container_restarted";
  }

  lemma SamePrefix(a: string, b: string)
    ensures "monitoring." + a == "monitoring." + b <==> a == b
  {
    assert ("monitoring." + a)[11..] == a && ("monitoring." + b)[11..] == b;
  }

  lemma ReasonNames(r: Reason)
    ensures ReasonName(r) == "recovered" <==> r == Recovered
    ensures ReasonName(r) == "container_restarted" <==> r == ContainerRestarted
  {
    assert |"recovered"| == 9 && |"container_restarted"| == 19;
    match r
    case CpuThreshold => assert |ReasonName(r)| == 13;
    case MemThreshold => assert |ReasonName(r)| == 13;
    case Recovered =>
    case ContainerCrashed => assert |ReasonName(r)| == 17;
    case ContainerUnhealthy => assert ReasonName(r)[10] == 'u' && "container_restarted"[10] == 'r';
    case ContainerRestarted =>
  }

  /** Some state change by the engine, with the event it logs if it is a transition. */
  predicate IsCoherent(st: EntityState, o: Outcome) {
    match o.reason
    case None => o.state.critical == st.critical
    case Some(r) => o.state.critical == !st.critical && (r == Recovered <==> st.critical)
  }

  lemma StateAfter(states: States, kind: EntityKind, id: string, st: EntityState, k: EntityKind, i: string)
    ensures StateOf(WithState(states, kind, id, st), k, i) == if k == kind && i == id then st else StateOf(states, k, i)
  {
    if StateKey(k, i) == StateKey(kind, id) {
      StateKeyIsInjective(k, i, kind, id);
    }
  }

  lemma TransitionKeepsAgreement(w: World, hostId: string, kind: EntityKind, id: string, o: Outcome, at: int)
    requires LogAgrees(w) && w.engine.Some? && (kind == Host ==> id == hostId)
    requires IsCoherent(EngineState(w, kind, id), o)
    ensures LogAgrees(w.(engine := Some(WithState(w.engine.value, kind, id, o.state)),
                         events := Logged(w.events, hostId, kind, id, o.reason, at)))
  {
    var w' := w.(engine := Some(WithState(w.engine.value, kind, id, o.state)),
                 events := Logged(w.events, hostId, kind, id, o.reason, at));
    forall k: EntityKind, i: string
      ensures Replay(w'.events, k, i) == Some(EngineState(w', k, i).critical)
    {
      assert Replay(w.events, k, i) == Some(EngineState(w, k, i).critical);
      StateAfter(w.engine.value, kind, id, o.state, k, i);
      if o.reason.Some? {
        var ev := TransitionRow(hostId, id, TransitionEvent(kind, id, Entered(o.reason.value), o.reason.value, at));
        ReplayAppend(w.events, ev, k, i);
        TransitionTyp(o.reason.value);
      }
    }
  }

  lemma OtherEventKeepsAgreement(w: World, ev: Event)
    requires LogAgrees(w) && !("monitoring." <= ev.typ)
    ensures LogAgrees(w.(events := w.events + [ev]))
  {
    forall k: EntityKind, i: string
      ensures Replay(w.events + [ev], k, i) == Some(EngineState(w, k, i).critical)
    {
      ReplayAppend(w.events, ev, k, i);
      assert Replay(w.events, k, i) == Some(EngineState(w, k, i).critical);
    }
  }

  lemma RowsDoNotMatter(w: World, w': World)
    requires LogAgrees(w) && w'.events == w.events && w'.engine == w.engine
    ensures LogAgrees(w')
  {
    forall k: EntityKind, i: string
      ensures Replay(w'.events, k, i) == Some(EngineState(w', k, i).critical)
    {
      assert Replay(w.events, k, i) == Some(EngineState(w, k, i).critical);
    }
  }

  lemma {:induction false} HealthKeepsAgreement(env: Env, w: World, hostId: string, rs: seq<Report>)
    requires LogAgrees(w)
    ensures LogAgrees(HealthSteps(env, w, hostId, rs))
  {
    if rs != [] {
      var w1, r := HealthSteps(env, w, hostId, rs[..|rs| - 1]), rs[|rs| - 1];
      HealthKeepsAgreement(env, w, hostId, rs[..|rs| - 1]);
      if w1.engine.Some? {
        var id := env.ContainerId(hostId, r.dockerId);
        HealthIsCoherent(EngineState(w1, Container, id), r.status, r.health, r.restartCount,
                         PreviousRestarts(w1.containers, id, r));
        TransitionKeepsAgreement(w1, hostId, Container, id, HealthOutcome(env, w1, hostId, r), r.evaluatedAt);
      }
    }
  }

  lemma HealthIsCoherent(st: EntityState, s: ContainerStatus, h: HealthStatus, r: int, p: int)
    ensures IsCoherent(st, OnHealth(st, s, h, r, p))
  {
  }

  lemma MetricIsCoherent(cfg: Thresholds, st: EntityState, m: Metric, now: int)
    ensures IsCoherent(st, OnMetric(cfg, st, m, now))
    ensures OnMetric(cfg, st, m, now).reason != Some(ContainerRestarted)
  {
    hide MemPercent;
  }

  lemma EvaluatedKeepsAgreement(env: Env, w: World, hostId: string, kind: EntityKind, id: string, x: Reading)
    requires LogAgrees(w) && (kind == Host ==> id == hostId)
    ensures LogAgrees(EvaluatedStep(env, w, hostId, kind, id, x))
  {
    hide OnMetric;
    var w1 := w;
    if w.engine.Some? {
      var o := OnMetric(env.cfg, EngineState(w, kind, id), x.metric, x.evaluatedAt);
      MetricIsCoherent(env.cfg, EngineState(w, kind, id), x.metric, x.evaluatedAt);
      TransitionKeepsAgreement(w, hostId, kind, id, o, x.evaluatedAt);
      w1 := w.(engine := Some(WithState(w.engine.value, kind, id, o.state)),
               events := Logged(w.events, hostId, kind, id, o.reason, x.evaluatedAt));
    }
    RowsDoNotMatter(w1, EvaluatedStep(env, w, hostId, kind, id, x));
  }

  lemma {:induction false} MetricsKeepAgreement(env: Env, w: World, hostId: string, reported: set<string>, xs: seq<Reading>)
    requires LogAgrees(w)
    ensures LogAgrees(MetricSteps(env, w, hostId, reported, xs))
  {
    if xs != [] {
      var w1, x := MetricSteps(env, w, hostId, reported, xs[..|xs| - 1]), xs[|xs| - 1];
      MetricsKeepAgreement(env, w, hostId, reported, xs[..|xs| - 1]);
      if x.metric.entityType == "host" {
        EvaluatedKeepsAgreement(env, w1, hostId, Host, hostId, x);
      } else if x.metric.entityType == "container" {
        EvaluatedKeepsAgreement(env, w1, hostId, Container, env.ContainerId(hostId, x.metric.entityId), x);
      } else {
        RowsDoNotMatter(w1, MetricStep(env, w1, hostId, reported, x));
      }
    }
  }

  lemma ViewerKeepsAgreement(w: World, kind: EntityKind, id: string, opens: bool)
    requires LogAgrees(w)
    ensures LogAgrees(ViewerStep(w, kind, id, opens))
  {
    if w.engine.Some? {
      var w' := ViewerStep(w, kind, id, opens);
      forall k: EntityKind, i: string
        ensures Replay(w'.events, k, i) == Some(EngineState(w', k, i).critical)
      {
        assert Replay(w.events, k, i) == Some(EngineState(w, k, i).critical);
        StateAfter(w.engine.value, kind, id, StateOf(w'.engine.value, kind, id), k, i);
        StateAfter(w.engine.value, kind, id, StateOf(w'.engine.value, kind, id), kind, id);
      }
    }
  }

  lemma StepKeepsAgreement(env: Env, w: World, op: Op)
    requires LogAgrees(w)
    ensures LogAgrees(Step(env, w, op))
  {
    match op
    case Telemetry(b, f) =>
      if b.hostId in w.hosts {
        var w1, reported := HealthSteps(env, w, b.hostId, b.containers), DockerIds(b.containers);
        HealthKeepsAgreement(env, w, b.hostId, b.containers);
        MetricsKeepAgreement(env, w1, b.hostId, reported, EvaluatedReadings(b, f));
        AttemptedParts(env, w, b, f);
        RowsDoNotMatter(MetricSteps(env, w1, b.hostId, reported, EvaluatedReadings(b, f)), Attempted(env, w, b, f));
      }
    case Viewer(kind, id, opens) =>
      ViewerKeepsAgreement(w, kind, id, opens);
    case Heartbeat(h, dv, os, now) =>
      if h in w.hosts {
        var ev := Event("host.connected", Info, h, None, "Host " + w.hosts[h].name + " came online");
        assert ev.typ[0] != "monitoring."[0];
        OtherEventKeepsAgreement(w, ev);
        RowsDoNotMatter(if w.hosts[h].connection == Online then w else w.(events := w.events + [ev]), Step(env, w, op));
      }
    case IssueToken(h, token, now) =>
      RowsDoNotMatter(w, Step(env, w, op));
    case EnrollAgent(h, token, cert, now) =>
      if Step(env, w, op) != w {
        var ev := Event("host.agent_enrolled", Info, h, None, "Agent enrolled for host " + w.hosts[h].name);
        assert ev.typ[0] != "monitoring."[0];
        OtherEventKeepsAgreement(w, ev);
        RowsDoNotMatter(w.(events := w.events + [ev]), Step(env, w, op));
      }
  }

  /** Over every run, each entity's monitoring events strictly alternate, entering CRITICAL
      first, and replaying them gives the engine's verdict. */
  lemma {:induction false} LogReplaysTheEngine(env: Env, w: World, ops: seq<Op>)
    requires w.events == [] && w.engine in {None, Some(map[])}
    ensures LogAgrees(Run(env, w, ops))
  {
    if ops != [] {
      LogReplaysTheEngine(env, w, ops[..|ops| - 1]);
      StepKeepsAgreement(env, Run(env, w, ops[..|ops| - 1]), ops[|ops| - 1]);
    }
  }
}
