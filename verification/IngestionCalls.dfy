/** What the registry asks of the monitoring engine: the calls that a run of operations
    makes, so that every theorem about runs of the engine applies to ingestion. */
module IngestionCalls {
  import opened Options
  import opened Monitoring
  import opened Ingestion
  import opened IngestionRuns
  import MonitoringRuns

  type Calls = seq<MonitoringRuns.Call>

  function HealthCall(env: Env, w: World, hostId: string, r: Report): MonitoringRuns.Call {
    var id := env.ContainerId(hostId, r.dockerId);
    MonitoringRuns.Call(Container, id,
                        MonitoringRuns.Health(r.status, r.health, r.restartCount, PreviousRestarts(w.containers, id, r), r.evaluatedAt))
  }

  function HealthCalls(env: Env, w: World, hostId: string, rs: seq<Report>): Calls {
    if rs == [] then []
    else HealthCalls(env, w, hostId, rs[..|rs| - 1]) + [HealthCall(env, w, hostId, rs[|rs| - 1])]
  }

  /** The call a reading makes; none for an unreported container or another kind of entity. */
  function MetricCall(env: Env, hostId: string, reported: set<string>, x: Reading): Calls {
    var input := MonitoringRuns.Sample(x.metric, x.evaluatedAt);
    if x.metric.entityType == "host" then [MonitoringRuns.Call(Host, hostId, input)]
    else if x.metric.entityType == "container" && x.metric.entityId in reported
    then [MonitoringRuns.Call(Container, env.ContainerId(hostId, x.metric.entityId), input)]
    else []
  }

  function MetricCalls(env: Env, hostId: string, reported: set<string>, xs: seq<Reading>): Calls {
    if xs == [] then []
    else MetricCalls(env, hostId, reported, xs[..|xs| - 1]) + MetricCall(env, hostId, reported, xs[|xs| - 1])
  }

  /** The calls an operation makes in a given world, in order. */
  function StepCalls(env: Env, w: World, op: Op): Calls {
    match op
    case Telemetry(b, f) =>
      if b.hostId !in w.hosts then []
      else HealthCalls(env, w, b.hostId, b.containers)
           + MetricCalls(env, b.hostId, DockerIds(b.containers), EvaluatedReadings(b, f))
    case Viewer(kind, id, opens) =>
      [MonitoringRuns.Call(kind, id, if opens then MonitoringRuns.Open else MonitoringRuns.Close)]
    case _ => []
  }

  function RunCalls(env: Env, w: World, ops: seq<Op>): Calls {
    if ops == [] then []
    else
      var earlier, op := ops[..|ops| - 1], ops[|ops| - 1];
      RunCalls(env, w, earlier) + StepCalls(env, Run(env, w, earlier), op)
  }

  // ------------------------------------------------------------ what the log tells

  /** What an event says happened to its entity. */
  datatype Told = Told(typ: string, severity: Severity)

  /** What is logged when an input changes an entity's criticality. */
  function Cause(cfg: Thresholds, wasCritical: bool, x: MonitoringRuns.Input): Told {
    if wasCritical then Told("monitoring." + "recovered", Info)
    else Told("monitoring." + EntryCause(cfg, x), CriticalSeverity)
  }

  function EntryCause(cfg: Thresholds, x: MonitoringRuns.Input): string {
    match x
    case Sample(m, _) => if m.cpu >= cfg.cpuCritical then "cpu_threshold" else "mem_threshold"
    case Health(status, health, _, _, _) =>
      if status == Exited then "container_crashed"
      else if health == Unhealthy then "container_unhealthy"
      else "container_restarted"
    case _ => ""
  }

  /** The changes of criticality along a run of one entity, each with its cause. */
  function Course(cfg: Thresholds, h: MonitoringRuns.Run): seq<Told> {
    if h == [] then []
    else
      var earlier, x := h[..|h| - 1], h[|h| - 1];
      var was := MonitoringRuns.After(cfg, earlier).critical;
      Course(cfg, earlier) + if MonitoringRuns.After(cfg, h).critical != was then [Cause(cfg, was, x)] else []
  }

  /** What the log says of an entity, in order. */
  function EntityLog(events: seq<Event>, kind: EntityKind, id: string): seq<Told> {
    if events == [] then []
    else
      var ev := events[|events| - 1];
      EntityLog(events[..|events| - 1], kind, id) + if IsAbout(ev, kind, id) then [Told(ev.typ, ev.severity)] else []
  }

  function ToldOf(r: Reason): Told {
    Told("monitoring." + ReasonName(r), if Entered(r) == Critical then CriticalSeverity else Info)
  }

  /** The reason of a transition, and so what is logged, is its cause. */
  lemma ReasonIsCause(cfg: Thresholds, st: EntityState, x: MonitoringRuns.Input)
    ensures var o := MonitoringRuns.Next(cfg, st, x);
            && (o.reason.Some? <==> o.state.critical != st.critical)
            && (o.reason == Some(Recovered) <==> st.critical && !o.state.critical)
            && (o.reason.Some? ==> Cause(cfg, st.critical, x) == ToldOf(o.reason.value))
  {
    hide MemPercent;
  }

  lemma EntityLogAppend(events: seq<Event>, ev: Event, kind: EntityKind, id: string)
    ensures EntityLog(events + [ev], kind, id)
         == EntityLog(events, kind, id) + if IsAbout(ev, kind, id) then [Told(ev.typ, ev.severity)] else []
  {
    assert (events + [ev])[..|events|] == events;
  }

  lemma CourseAppend(cfg: Thresholds, h: MonitoringRuns.Run, x: MonitoringRuns.Input)
    ensures var o := MonitoringRuns.Next(cfg, MonitoringRuns.After(cfg, h), x);
            Course(cfg, h + [x]) == Course(cfg, h) + if o.reason.Some? then [ToldOf(o.reason.value)] else []
  {
    hide MonitoringRuns.Next, ToldOf, Cause;
    assert (h + [x])[..|h|] == h;
    MonitoringRuns.AfterAppend(cfg, h, x);
    ReasonIsCause(cfg, MonitoringRuns.After(cfg, h), x);
  }

  /** The engine is where the calls have brought it. */
  ghost predicate EngineIsAfter(env: Env, w: World, calls: Calls) {
    w.engine == Some(MonitoringRuns.StatesAfter(env.cfg, calls))
  }

  /** And the log tells each entity's course. */
  ghost predicate LogTells(env: Env, w: World, calls: Calls) {
    forall kind: EntityKind, id: string ::
      EntityLog(w.events, kind, id) == Course(env.cfg, MonitoringRuns.For(calls, kind, id))
  }

  ghost predicate IsAfter(env: Env, w: World, calls: Calls) {
    EngineIsAfter(env, w, calls) && LogTells(env, w, calls)
  }

  // ------------------------------------------------------------------- one call

  /** The world after one call, with the event it logs for a batch of the host. */
  function Called(env: Env, w: World, hostId: string, c: MonitoringRuns.Call, at: int): World
    requires w.engine.Some?
  {
    var o := MonitoringRuns.Next(env.cfg, EngineState(w, c.kind, c.id), c.input);
    w.(engine := Some(WithState(w.engine.value, c.kind, c.id, o.state)),
       events := Logged(w.events, hostId, c.kind, c.id, o.reason, at))
  }

  lemma ForAppend(calls: Calls, c: MonitoringRuns.Call, kind: EntityKind, id: string)
    ensures MonitoringRuns.For(calls + [c], kind, id)
         == if c.kind == kind && c.id == id then MonitoringRuns.For(calls, kind, id) + [c.input]
            else MonitoringRuns.For(calls, kind, id)
  {
    assert (calls + [c])[..|calls|] == calls;
    assert MonitoringRuns.For(calls, kind, id) + [] == MonitoringRuns.For(calls, kind, id);
  }

  lemma LoggedTold(events: seq<Event>, hostId: string, kind: EntityKind, i: string, reason: Option<Reason>, at: int,
                   k: EntityKind, id: string)
    requires kind == Host ==> i == hostId
    ensures EntityLog(Logged(events, hostId, kind, i, reason, at), k, id)
         == EntityLog(events, k, id) + if reason.Some? && k == kind && id == i then [ToldOf(reason.value)] else []
  {
    if reason.Some? {
      var ev := TransitionRow(hostId, i, TransitionEvent(kind, i, Entered(reason.value), reason.value, at));
      EntityLogAppend(events, ev, k, id);
      TransitionTyp(reason.value);
    }
  }

  lemma CallIsTold(env: Env, w: World, hostId: string, calls: Calls, c: MonitoringRuns.Call, at: int, k: EntityKind, id: string)
    requires IsAfter(env, w, calls) && (c.kind == Host ==> c.id == hostId)
    ensures EntityLog(Called(env, w, hostId, c, at).events, k, id)
         == Course(env.cfg, MonitoringRuns.For(calls + [c], k, id))
  {
    hide MonitoringRuns.Next, Course, MonitoringRuns.For, MonitoringRuns.After, MonitoringRuns.StatesAfter;
    hide EntityLog, Logged, ToldOf;
    var reason := MonitoringRuns.Next(env.cfg, EngineState(w, c.kind, c.id), c.input).reason;
    LoggedTold(w.events, hostId, c.kind, c.id, reason, at, k, id);
    ForAppend(calls, c, k, id);
    assert EntityLog(w.events, k, id) == Course(env.cfg, MonitoringRuns.For(calls, k, id));
    if c.kind == k && c.id == id {
      MonitoringRuns.EntitiesAreIndependent(env.cfg, calls, k, id);
      CourseAppend(env.cfg, MonitoringRuns.For(calls, k, id), c.input);
    }
  }

  lemma OneMoreCall(env: Env, w: World, hostId: string, calls: Calls, c: MonitoringRuns.Call, at: int)
    requires IsAfter(env, w, calls) && (c.kind == Host ==> c.id == hostId)
    ensures IsAfter(env, Called(env, w, hostId, c, at), calls + [c])
  {
    hide MonitoringRuns.Next;
    var w' := Called(env, w, hostId, c, at);
    assert (calls + [c])[..|calls|] == calls;
    forall k: EntityKind, id: string
      ensures EntityLog(w'.events, k, id) == Course(env.cfg, MonitoringRuns.For(calls + [c], k, id))
    {
      CallIsTold(env, w, hostId, calls, c, at, k, id);
    }
  }

  /** An operation that neither calls the engine nor logs a transition. */
  lemma NoCall(env: Env, w: World, w': World, calls: Calls)
    requires IsAfter(env, w, calls) && w'.engine == w.engine
    requires w'.events == w.events
          || exists ev :: w'.events == w.events + [ev] && !("monitoring." <= ev.typ)
    ensures IsAfter(env, w', calls)
  {
    forall k: EntityKind, id: string
      ensures EntityLog(w'.events, k, id) == Course(env.cfg, MonitoringRuns.For(calls, k, id))
    {
      assert EntityLog(w.events, k, id) == Course(env.cfg, MonitoringRuns.For(calls, k, id));
      if w'.events != w.events {
        assert w'.events[..|w'.events| - 1] == w.events;
      }
    }
  }

  // ------------------------------------------------------------------- one batch

  lemma {:induction false} HealthIsCalls(env: Env, w: World, hostId: string, rs: seq<Report>, calls: Calls)
    requires IsAfter(env, w, calls)
    ensures IsAfter(env, HealthSteps(env, w, hostId, rs), calls + HealthCalls(env, w, hostId, rs))
  {
    hide OnHealth, EngineIsAfter, LogTells, Logged;
    if rs == [] {
      assert calls + [] == calls;
    } else {
      var rest, r := rs[..|rs| - 1], rs[|rs| - 1];
      var w1, made := HealthSteps(env, w, hostId, rest), calls + HealthCalls(env, w, hostId, rest);
      HealthIsCalls(env, w, hostId, rest, calls);
      HealthKeepsRows(env, w, hostId, rest);
      EngineIsThere(env, w1, made);
      OneMoreCall(env, w1, hostId, made, HealthCall(env, w, hostId, r), r.evaluatedAt);
      assert calls + HealthCalls(env, w, hostId, rs) == made + [HealthCall(env, w, hostId, r)];
    }
  }

  lemma EngineIsThere(env: Env, w: World, calls: Calls)
    requires IsAfter(env, w, calls)
    ensures w.engine.Some?
  {
  }

  lemma EvaluatedIsCall(env: Env, w: World, hostId: string, kind: EntityKind, id: string, x: Reading, calls: Calls)
    requires IsAfter(env, w, calls) && (kind == Host ==> id == hostId)
    ensures IsAfter(env, EvaluatedStep(env, w, hostId, kind, id, x),
                    calls + [MonitoringRuns.Call(kind, id, MonitoringRuns.Sample(x.metric, x.evaluatedAt))])
  {
    hide OnMetric, EngineIsAfter, LogTells, Logged;
    var c := MonitoringRuns.Call(kind, id, MonitoringRuns.Sample(x.metric, x.evaluatedAt));
    EngineIsThere(env, w, calls);
    OneMoreCall(env, w, hostId, calls, c, x.evaluatedAt);
    MetricsDoNotMatter(env, Called(env, w, hostId, c, x.evaluatedAt), EvaluatedStep(env, w, hostId, kind, id, x), calls + [c]);
  }

  lemma MetricsDoNotMatter(env: Env, w: World, w': World, calls: Calls)
    requires IsAfter(env, w, calls) && w'.engine == w.engine && w'.events == w.events
    ensures IsAfter(env, w', calls)
  {
  }

  lemma MetricIsCall(env: Env, w: World, hostId: string, reported: set<string>, x: Reading, calls: Calls)
    requires IsAfter(env, w, calls)
    ensures IsAfter(env, MetricStep(env, w, hostId, reported, x), calls + MetricCall(env, hostId, reported, x))
  {
    hide EvaluatedStep, IsAfter;
    if x.metric.entityType == "host" {
      EvaluatedIsCall(env, w, hostId, Host, hostId, x, calls);
    } else if x.metric.entityType == "container" && x.metric.entityId in reported {
      EvaluatedIsCall(env, w, hostId, Container, env.ContainerId(hostId, x.metric.entityId), x, calls);
    } else {
      assert calls + [] == calls;
      MetricsDoNotMatter(env, w, MetricStep(env, w, hostId, reported, x), calls);
    }
  }

  lemma {:induction false} MetricsAreCalls(env: Env, w: World, hostId: string, reported: set<string>, xs: seq<Reading>, calls: Calls)
    requires IsAfter(env, w, calls)
    ensures IsAfter(env, MetricSteps(env, w, hostId, reported, xs), calls + MetricCalls(env, hostId, reported, xs))
  {
    hide MetricStep, MetricCall, IsAfter;
    if xs == [] {
      assert calls + [] == calls;
    } else {
      var rest, x := xs[..|xs| - 1], xs[|xs| - 1];
      var made := calls + MetricCalls(env, hostId, reported, rest);
      MetricsAreCalls(env, w, hostId, reported, rest, calls);
      MetricIsCall(env, MetricSteps(env, w, hostId, reported, rest), hostId, reported, x, made);
      assert calls + MetricCalls(env, hostId, reported, xs) == made + MetricCall(env, hostId, reported, x);
    }
  }

  lemma BatchIsCalls(env: Env, w: World, b: Batch, f: Fault, calls: Calls)
    requires IsAfter(env, w, calls) && b.hostId in w.hosts
    ensures IsAfter(env, Attempted(env, w, b, f), calls + StepCalls(env, w, Telemetry(b, f)))
  {
    hide HealthSteps, MetricSteps, HealthCalls, MetricCalls, Attempted, IsAfter, EvaluatedReadings;
    var made := calls + HealthCalls(env, w, b.hostId, b.containers);
    var w1, reported := HealthSteps(env, w, b.hostId, b.containers), DockerIds(b.containers);
    HealthIsCalls(env, w, b.hostId, b.containers, calls);
    MetricsAreCalls(env, w1, b.hostId, reported, EvaluatedReadings(b, f), made);
    AttemptedParts(env, w, b, f);
    assert calls + StepCalls(env, w, Telemetry(b, f)) == made + MetricCalls(env, b.hostId, reported, EvaluatedReadings(b, f));
    MetricsDoNotMatter(env, MetricSteps(env, w1, b.hostId, reported, EvaluatedReadings(b, f)), Attempted(env, w, b, f),
                       made + MetricCalls(env, b.hostId, reported, EvaluatedReadings(b, f)));
  }

  // ------------------------------------------------------------------ whole runs

  lemma ViewerIsCall(env: Env, w: World, op: Op, calls: Calls)
    requires IsAfter(env, w, calls) && op.Viewer?
    ensures IsAfter(env, Step(env, w, op), calls + StepCalls(env, w, op))
  {
    hide EngineIsAfter, LogTells;
    EngineIsThere(env, w, calls);
    var c := StepCalls(env, w, op)[0];
    assert StepCalls(env, w, op) == [c];
    OneMoreCall(env, w, op.id, calls, c, 0);
    MetricsDoNotMatter(env, Called(env, w, op.id, c, 0), Step(env, w, op), calls + [c]);
  }

  lemma StepIsCalls(env: Env, w: World, op: Op, calls: Calls)
    requires IsAfter(env, w, calls)
    ensures IsAfter(env, Step(env, w, op), calls + StepCalls(env, w, op))
  {
    hide IsAfter, Attempted, HealthCalls, MetricCalls;
    if op.Telemetry? && op.batch.hostId in w.hosts {
      BatchIsCalls(env, w, op.batch, op.fault, calls);
    } else if op.Viewer? {
      ViewerIsCall(env, w, op, calls);
    } else {
      assert calls + StepCalls(env, w, op) == calls;
      assert "host.connected"[0] != "monitoring."[0] && "host.agent_enrolled"[0] != "monitoring."[0];
      if Step(env, w, op).events != w.events {
        var events := Step(env, w, op).events;
        var ev := events[|events| - 1];
        assert events == w.events + [ev] && !("monitoring." <= ev.typ);
      }
      NoCall(env, w, Step(env, w, op), calls);
    }
  }

  /** Over every run, the engine has been through exactly the calls of the run, and the event
      log tells for each entity exactly the changes of criticality these made and why. */
  lemma {:induction false} RunIsCalls(env: Env, w: World, ops: seq<Op>)
    requires w.engine == Some(map[]) && w.events == []
    ensures IsAfter(env, Run(env, w, ops), RunCalls(env, w, ops))
  {
    if ops == [] {
      forall k: EntityKind, id: string
        ensures EntityLog([], k, id) == Course(env.cfg, MonitoringRuns.For([], k, id))
      {
      }
    } else {
      hide Step, StepCalls, IsAfter;
      RunIsCalls(env, w, ops[..|ops| - 1]);
      StepIsCalls(env, Run(env, w, ops[..|ops| - 1]), ops[|ops| - 1], RunCalls(env, w, ops[..|ops| - 1]));
    }
  }

  /** So each entity's state is that of a machine of its own, fed only its own calls. */
  lemma EntityIsOneMachine(env: Env, w: World, ops: seq<Op>, kind: EntityKind, id: string)
    requires w.engine == Some(map[]) && w.events == []
    ensures EngineState(Run(env, w, ops), kind, id)
         == MonitoringRuns.After(env.cfg, MonitoringRuns.For(RunCalls(env, w, ops), kind, id))
  {
    RunIsCalls(env, w, ops);
    MonitoringRuns.EntitiesAreIndependent(env.cfg, RunCalls(env, w, ops), kind, id);
  }

  /** Its effective mode is that machine's. */
  lemma EntityMode(env: Env, w: World, ops: seq<Op>, kind: EntityKind, id: string)
    requires w.engine == Some(map[]) && w.events == []
    ensures var h := MonitoringRuns.For(RunCalls(env, w, ops), kind, id);
            var watched := exists p :: 0 <= p <= |h| && MonitoringRuns.Balance(h) > MonitoringRuns.Balance(h[..p]);
            var mode := EffectiveMode(Run(env, w, ops), kind, id);
            && (mode == ManualRealtime <==> watched)
            && (mode == Critical <==> !watched && MonitoringRuns.Entries(env.cfg, h) == MonitoringRuns.Recoveries(env.cfg, h) + 1)
  {
    hide MonitoringRuns.After, MonitoringRuns.Entries, MonitoringRuns.Recoveries, MonitoringRuns.Balance, Run, RunCalls;
    EntityIsOneMachine(env, w, ops, kind, id);
    MonitoringRuns.ModeOverRuns(env.cfg, MonitoringRuns.For(RunCalls(env, w, ops), kind, id));
  }

  // ------------------------------------------------------------------- flap bound

  /** The number of recoveries logged for an entity. */
  function RecoveryEvents(events: seq<Event>, kind: EntityKind, id: string): nat {
    if events == [] then 0
    else
      var ev := events[|events| - 1];
      RecoveryEvents(events[..|events| - 1], kind, id)
      + if IsAbout(ev, kind, id) && ev.typ == "monitoring.recovered" then 1 else 0
  }

  function ToldRecoveries(told: seq<Told>): nat {
    if told == [] then 0
    else ToldRecoveries(told[..|told| - 1]) + if told[|told| - 1].typ == "monitoring.recovered" then 1 else 0
  }

  lemma ToldAppend(told: seq<Told>, t: Told)
    ensures ToldRecoveries(told + [t]) == ToldRecoveries(told) + if t.typ == "monitoring.recovered" then 1 else 0
    ensures told + [] == told
  {
    assert (told + [t])[..|told|] == told;
  }

  lemma {:induction false} RecoveriesOfLog(events: seq<Event>, kind: EntityKind, id: string)
    ensures RecoveryEvents(events, kind, id) == ToldRecoveries(EntityLog(events, kind, id))
  {
    if events != [] {
      var ev := events[|events| - 1];
      RecoveriesOfLog(events[..|events| - 1], kind, id);
      ToldAppend(EntityLog(events[..|events| - 1], kind, id), Told(ev.typ, ev.severity));
    }
  }

  lemma IsToldRecovery(r: Reason)
    ensures ToldOf(r).typ == "monitoring.recovered" <==> r == Recovered
  {
    TransitionTyp(r);
  }

  lemma RecoveriesOfOneMore(cfg: Thresholds, h: MonitoringRuns.Run, x: MonitoringRuns.Input)
    requires ToldRecoveries(Course(cfg, h)) == MonitoringRuns.Recoveries(cfg, h)
    ensures ToldRecoveries(Course(cfg, h + [x])) == MonitoringRuns.Recoveries(cfg, h + [x])
  {
    hide *;
    var reason := MonitoringRuns.Next(cfg, MonitoringRuns.After(cfg, h), x).reason;
    CourseAppend(cfg, h, x);
    MonitoringRuns.RecoveriesAppend(cfg, h, x);
    if reason.Some? {
      IsToldRecovery(reason.value);
      ToldAppend(Course(cfg, h), ToldOf(reason.value));
    } else {
      assert Course(cfg, h) + [] == Course(cfg, h);
    }
  }

  lemma NothingTold(cfg: Thresholds)
    ensures ToldRecoveries(Course(cfg, [])) == MonitoringRuns.Recoveries(cfg, []) == 0
  {
    hide MonitoringRuns.Next, MonitoringRuns.After, Cause;
    assert MonitoringRuns.Transitions(cfg, []) == [];
  }

  lemma {:induction false} RecoveriesOfCourse(cfg: Thresholds, h: MonitoringRuns.Run)
    ensures ToldRecoveries(Course(cfg, h)) == MonitoringRuns.Recoveries(cfg, h)
  {
    hide *;
    if h == [] {
      NothingTold(cfg);
    } else {
      var n := |h| - 1;
      RecoveriesOfCourse(cfg, h[..n]);
      RecoveriesOfOneMore(cfg, h[..n], h[n]);
      assert h == h[..n] + [h[n]];
    }
  }

  /** The clock readings a batch's health reports take, in order. */
  function ReportTimes(rs: seq<Report>): (r: seq<int>)
    ensures |r| == |rs|
  {
    seq(|rs|, i requires 0 <= i < |rs| => rs[i].evaluatedAt)
  }

  /** Those its readings take; one that is not evaluated takes none. */
  function ReadingTimes(reported: set<string>, xs: seq<Reading>): seq<int> {
    if xs == [] then []
    else
      var x := xs[|xs| - 1];
      ReadingTimes(reported, xs[..|xs| - 1])
      + if x.metric.entityType == "host" || (x.metric.entityType == "container" && x.metric.entityId in reported)
        then [x.evaluatedAt] else []
  }

  function StepTimes(w: World, op: Op): seq<int> {
    if op.Telemetry? && op.batch.hostId in w.hosts
    then ReportTimes(op.batch.containers) + ReadingTimes(DockerIds(op.batch.containers), EvaluatedReadings(op.batch, op.fault))
    else []
  }

  /** All clock readings of a run, in order. */
  function RunTimes(env: Env, w: World, ops: seq<Op>): seq<int> {
    if ops == [] then []
    else RunTimes(env, w, ops[..|ops| - 1]) + StepTimes(Run(env, w, ops[..|ops| - 1]), ops[|ops| - 1])
  }

  /** The clock reads times from lo to hi and never goes back. */
  ghost predicate IsOrdered(times: seq<int>, lo: int, hi: int) {
    && (forall i :: 0 <= i < |times| ==> lo <= times[i] <= hi)
    && (forall i, j :: 0 <= i < j < |times| ==> times[i] <= times[j])
  }

  /** So do the calls. */
  ghost predicate IsTimed(calls: Calls, lo: int, hi: int) {
    && (forall i :: 0 <= i < |calls| && calls[i].input.IsTimed() ==> lo <= calls[i].input.now <= hi)
    && (forall i, j :: 0 <= i < j < |calls| && calls[i].input.IsTimed() && calls[j].input.IsTimed() ==>
                         calls[i].input.now <= calls[j].input.now)
  }

  lemma SplitTimes(a: seq<int>, b: seq<int>, lo: int, hi: int) returns (mid: int)
    requires IsOrdered(a + b, lo, hi) && lo <= hi
    ensures lo <= mid <= hi && IsOrdered(a, lo, mid) && IsOrdered(b, mid, hi)
  {
    mid := if a == [] then lo else a[|a| - 1];
    assert forall i :: 0 <= i < |a| ==> (a + b)[i] == a[i];
    assert forall i :: 0 <= i < |b| ==> (a + b)[|a| + i] == b[i];
  }

  lemma JoinCalls(a: Calls, b: Calls, lo: int, mid: int, hi: int)
    requires IsTimed(a, lo, mid) && IsTimed(b, mid, hi) && lo <= mid <= hi
    ensures IsTimed(a + b, lo, hi)
  {
  }

  lemma {:induction false} HealthCallsAreTimed(env: Env, w: World, hostId: string, rs: seq<Report>, lo: int, hi: int)
    requires IsOrdered(ReportTimes(rs), lo, hi) && lo <= hi
    ensures IsTimed(HealthCalls(env, w, hostId, rs), lo, hi)
  {
    if rs != [] {
      var n := |rs| - 1;
      assert ReportTimes(rs) == ReportTimes(rs[..n]) + [rs[n].evaluatedAt];
      var mid := SplitTimes(ReportTimes(rs[..n]), [rs[n].evaluatedAt], lo, hi);
      HealthCallsAreTimed(env, w, hostId, rs[..n], lo, mid);
      assert [rs[n].evaluatedAt][0] == rs[n].evaluatedAt;
      JoinCalls(HealthCalls(env, w, hostId, rs[..n]), [HealthCall(env, w, hostId, rs[n])], lo, mid, hi);
    }
  }

  lemma {:induction false} MetricCallsAreTimed(env: Env, hostId: string, reported: set<string>, xs: seq<Reading>, lo: int, hi: int)
    requires IsOrdered(ReadingTimes(reported, xs), lo, hi) && lo <= hi
    ensures IsTimed(MetricCalls(env, hostId, reported, xs), lo, hi)
  {
    if xs != [] {
      var n := |xs| - 1;
      var made := MetricCall(env, hostId, reported, xs[n]);
      var times := if made != [] then [xs[n].evaluatedAt] else [];
      var mid := SplitTimes(ReadingTimes(reported, xs[..n]), times, lo, hi);
      MetricCallsAreTimed(env, hostId, reported, xs[..n], lo, mid);
      assert made != [] ==> times[0] == xs[n].evaluatedAt;
      JoinCalls(MetricCalls(env, hostId, reported, xs[..n]), made, lo, mid, hi);
    }
  }

  lemma StepCallsAreTimed(env: Env, w: World, op: Op, lo: int, hi: int)
    requires IsOrdered(StepTimes(w, op), lo, hi) && lo <= hi
    ensures IsTimed(StepCalls(env, w, op), lo, hi)
  {
    hide HealthCalls, MetricCalls, ReportTimes, ReadingTimes, EvaluatedReadings;
    if op.Telemetry? && op.batch.hostId in w.hosts {
      var b, reported, xs := op.batch, DockerIds(op.batch.containers), EvaluatedReadings(op.batch, op.fault);
      var mid := SplitTimes(ReportTimes(b.containers), ReadingTimes(reported, xs), lo, hi);
      HealthCallsAreTimed(env, w, b.hostId, b.containers, lo, mid);
      MetricCallsAreTimed(env, b.hostId, reported, xs, mid, hi);
      JoinCalls(HealthCalls(env, w, b.hostId, b.containers), MetricCalls(env, b.hostId, reported, xs), lo, mid, hi);
    }
  }

  lemma {:induction false} RunCallsAreTimed(env: Env, w: World, ops: seq<Op>, lo: int, hi: int)
    requires IsOrdered(RunTimes(env, w, ops), lo, hi) && lo <= hi
    ensures IsTimed(RunCalls(env, w, ops), lo, hi)
  {
    if ops != [] {
      hide Run, StepTimes, StepCalls;
      var earlier, op := ops[..|ops| - 1], ops[|ops| - 1];
      var w1 := Run(env, w, earlier);
      var mid := SplitTimes(RunTimes(env, w, earlier), StepTimes(w1, op), lo, hi);
      RunCallsAreTimed(env, w, earlier, lo, mid);
      StepCallsAreTimed(env, w1, op, mid, hi);
      JoinCalls(RunCalls(env, w, earlier), StepCalls(env, w1, op), lo, mid, hi);
    }
  }

  /** Each entity sees the clock of all calls go forward. */
  lemma {:induction false} EntityClock(calls: Calls, kind: EntityKind, id: string, lo: int, hi: int)
    requires IsTimed(calls, lo, hi)
    ensures MonitoringRuns.Within(MonitoringRuns.For(calls, kind, id), lo, hi)
    ensures MonitoringRuns.ClockNeverGoesBack(MonitoringRuns.For(calls, kind, id))
  {
    if calls != [] {
      var n := |calls| - 1;
      var rest, c := calls[..n], calls[n];
      assert forall i :: 0 <= i < n ==> rest[i] == calls[i];
      EntityClock(rest, kind, id, lo, if c.input.IsTimed() then c.input.now else hi);
      assert calls == rest + [c];
      ForAppend(rest, c, kind, id);
    }
  }

  /** Over every run in which the clock never goes back, k recoveries in an entity's event log
      take at least k hysteresis windows of time, and k times the required metric samples. */
  lemma LoggedFlapBound(env: Env, w: World, ops: seq<Op>, kind: EntityKind, id: string, t0: int, t1: int)
    requires w.engine == Some(map[]) && w.events == []
    requires IsOrdered(RunTimes(env, w, ops), t0, t1) && t0 <= t1
    ensures var k, h := RecoveryEvents(Run(env, w, ops).events, kind, id), MonitoringRuns.For(RunCalls(env, w, ops), kind, id);
            k * env.cfg.window <= t1 - t0 && k * env.cfg.minSamples <= MonitoringRuns.SamplesFrom(h, 0)
  {
    hide Run, RunCalls, RunTimes, RecoveryEvents, MonitoringRuns.For, MonitoringRuns.Recoveries, MonitoringRuns.SamplesFrom,
         MonitoringRuns.After, MonitoringRuns.Within, MonitoringRuns.ClockNeverGoesBack, EngineIsAfter, Course, EntityLog;
    var calls := RunCalls(env, w, ops);
    var h := MonitoringRuns.For(calls, kind, id);
    RunIsCalls(env, w, ops);
    RunCallsAreTimed(env, w, ops, t0, t1);
    EntityClock(calls, kind, id, t0, t1);
    MonitoringRuns.FlapBound(env.cfg, h, t0, t1);
    assert EntityLog(Run(env, w, ops).events, kind, id) == Course(env.cfg, h);
    RecoveriesOfLog(Run(env, w, ops).events, kind, id);
    RecoveriesOfCourse(env.cfg, h);
  }
}
