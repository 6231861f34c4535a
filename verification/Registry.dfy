/** The agent registry: telemetry ingestion, heartbeats and enrollment over in-memory
    stores, as methods that update them in place. */
module Registry {
  import opened Options
  import opened Monitoring
  import opened Ingestion

  datatype TelemetryResult = TelemetryResult(mode: Mode, intervalSeconds: int)

  datatype TelemetryOutcome = HostNotFound | WriteFailed | Answered(result: TelemetryResult)

  /** internalId and existing answer for exactly the reported Docker IDs. */
  ghost predicate AreResolved(env: Env, hostId: string, reports: seq<Report>, before: Containers,
                              internalId: map<string, string>, existing: map<string, Option<ContainerRow>>) {
    && internalId.Keys == existing.Keys == DockerIds(reports)
    && forall d :: d in internalId ==>
                     && internalId[d] == env.ContainerId(hostId, d)
                     && existing[d] == Existing(before, internalId[d])
  }

  lemma ResolvedAt(env: Env, hostId: string, reports: seq<Report>, before: Containers,
                   internalId: map<string, string>, existing: map<string, Option<ContainerRow>>, i: int)
    requires AreResolved(env, hostId, reports, before, internalId, existing) && 0 <= i < |reports|
    ensures var d := reports[i].dockerId;
            && d in internalId && d in existing
            && internalId[d] == env.ContainerId(hostId, d) && existing[d] == Existing(before, internalId[d])
  {
    KnownDockerId(reports, i);
  }

  lemma NoUpserts(env: Env, w: World, hostId: string, before: Containers, reports: seq<Report>)
    ensures UpsertSteps(env, w, hostId, before, reports[..0]) == w
  {
  }

  lemma OneMoreUpsert(env: Env, w: World, hostId: string, before: Containers, reports: seq<Report>, i: int)
    requires 0 <= i < |reports|
    ensures var w1 := UpsertSteps(env, w, hostId, before, reports[..i]);
            && UpsertSteps(env, w, hostId, before, reports[..i + 1]) == UpsertStep(env, w1, hostId, before, reports[i])
            && forall id :: EffectiveMode(w1, Container, id) == EffectiveMode(w, Container, id)
  {
    assert reports[..i + 1][..i] == reports[..i];
    UpsertsKeepTheRest(env, w, hostId, before, reports[..i]);
  }

  /** Which entity a metric is labelled with does not matter to its evaluation. */
  lemma OnMetricOfId(cfg: Thresholds, st: EntityState, m: Metric, id: string, now: int)
    ensures OnMetric(cfg, st, m.(entityId := id), now) == OnMetric(cfg, st, m, now)
  {
    assert MemPercent(m.(entityId := id)) == MemPercent(m);
    hide MemPercent;
  }

  lemma DockerIdsAppend(rs: seq<Report>, i: int)
    requires 0 <= i < |rs|
    ensures DockerIds(rs[..i + 1]) == DockerIds(rs[..i]) + {rs[i].dockerId}
  {
    assert rs[..i + 1][i] == rs[i];
    assert forall j :: 0 <= j < i ==> rs[..i + 1][j] == rs[..i][j];
    forall d | d in DockerIds(rs[..i])
      ensures d in DockerIds(rs[..i + 1])
    {
      var j :| 0 <= j < i && rs[..i][j].dockerId == d;
      assert rs[..i + 1][j].dockerId == d;
    }
  }

  lemma KnownDockerId(rs: seq<Report>, i: int)
    requires 0 <= i < |rs|
    ensures rs[i].dockerId in DockerIds(rs)
  {
  }

  lemma AllPersisted(b: Batch, fault: Fault)
    ensures !MetricAborts(b, fault) && !UpsertAborts(b, fault) ==> PersistedReports(b, fault) == b.containers
  {
  }

  lemma OnlyFastest(best: Mode, modes: seq<Mode>)
    requires IsFastest(best, modes)
    ensures forall m :: IsFastest(m, modes) <==> m == best
  {
    forall m | IsFastest(m, modes)
      ensures m == best
    {
      FastestIsUnique(m, best, modes);
    }
  }

  class Registry {
    const env: Env
    const monitor: Engine?
    var hosts: map<string, HostRow>
    var containers: Containers
    var metrics: map<(string, string), Metric>
    var events: seq<Event>

    ghost function View(): World
      reads this, monitor
    {
      World(hosts, containers, metrics, events, if monitor == null then None else Some(monitor.state))
    }

    ghost predicate Valid()
      reads this, monitor
    {
      && (monitor != null ==> monitor.cfg == env.cfg)
      && RowsAreWellKeyed(env, containers)
      && (forall id :: id in hosts ==> '/' !in id)
    }

    constructor (env: Env, monitor: Engine?)
      requires monitor != null ==> monitor.cfg == env.cfg
      ensures Valid() && this.env == env && this.monitor == monitor
      ensures hosts == map[] && containers == map[] && metrics == map[] && events == []
    {
      this.env, this.monitor := env, monitor;
      hosts, containers, metrics, events := map[], map[], map[], [];
    }

    /** The row of a host's container with the given Docker ID, found by looking at each row. */
    method FindContainerByDockerId(hostId: string, dockerId: string) returns (found: Option<ContainerRow>)
      requires Valid() && env.Injective() && '/' !in hostId
      ensures found == Existing(containers, env.ContainerId(hostId, dockerId))
    {
      var todo := containers.Keys;
      while todo != {}
        invariant todo <= containers.Keys
        invariant forall id :: id in containers.Keys - todo ==>
                                 containers[id].hostId != hostId || containers[id].dockerId != dockerId
        decreases todo
      {
        var id :| id in todo;
        if containers[id].hostId == hostId && containers[id].dockerId == dockerId {
          return Some(containers[id]);
        }
        todo := todo - {id};
      }
      ghost var id := env.ContainerId(hostId, dockerId);
      if id in containers {
        IdsAreDistinct(env, hostId, dockerId, containers[id].hostId, containers[id].dockerId);
        assert false;
      }
      return None;
    }

    method RecordTransition(hostId: string, entityId: string, ev: TransitionEvent)
      modifies this`events
      ensures events == old(events) + [TransitionRow(hostId, entityId, ev)]
      ensures var row := events[|old(events)|];
              && row.typ == "monitoring." + ReasonName(ev.reason)
              && (row.severity == CriticalSeverity <==> ev.entered == Critical)
              && row.hostId == hostId && row.containerId == (if ev.kind == Container then Some(entityId) else None)
              && row.message == (match ev.kind case Host => "host" case Container => "container") + " " + entityId + " entered "
                                + (match ev.entered
                                   case Normal => "normal"
                                   case Critical => "critical"
                                   case ManualRealtime => "manual_realtime")
                                + " (" + ReasonName(ev.reason) + ")"
    {
      var severity := if ev.entered == Critical then CriticalSeverity else Info;
      var containerId := if ev.kind == Container then Some(entityId) else None;
      var message := KindName(ev.kind) + " " + entityId + " entered " + ModeName(ev.entered) + " (" + ReasonName(ev.reason) + ")";
      events := events + [Event("monitoring." + ReasonName(ev.reason), severity, hostId, containerId, message)];
    }

    /** The Docker-ID to internal-ID translation and the rows known before the batch. */
    method ResolveContainers(hostId: string, reports: seq<Report>)
        returns (internalId: map<string, string>, existing: map<string, Option<ContainerRow>>)
      requires Valid() && env.Injective() && '/' !in hostId
      ensures AreResolved(env, hostId, reports, containers, internalId, existing)
    {
      internalId, existing := map[], map[];
      for i := 0 to |reports|
        invariant AreResolved(env, hostId, reports[..i], containers, internalId, existing)
      {
        var d := reports[i].dockerId;
        var found := FindContainerByDockerId(hostId, d);
        internalId := internalId[d := env.uuid(hostId + "/" + d)];
        existing := existing[d := found];
        DockerIdsAppend(reports, i);
      }
      assert reports[..|reports|] == reports;
    }

    method EvaluateReport(hostId: string, r: Report, id: string, known: Option<ContainerRow>)
      requires monitor != null && id == env.ContainerId(hostId, r.dockerId) && known == Existing(containers, id)
      modifies this`events, monitor
      ensures View() == HealthStep(env, old(View()), hostId, r)
    {
      var previous := r.restartCount;
      if known.Some? {
        previous := known.value.restartCount;
      }
      var transitioned, ev :=
        monitor.EvaluateContainerHealth(id, r.status, r.health, r.restartCount, previous, r.evaluatedAt);
      if transitioned {
        RecordTransition(hostId, id, ev.value);
      }
    }

    /** First pass: crashes, bad health and restarts. */
    method EvaluateHealth(hostId: string, reports: seq<Report>, internalId: map<string, string>,
                          existing: map<string, Option<ContainerRow>>)
      requires Valid() && AreResolved(env, hostId, reports, containers, internalId, existing)
      modifies this`events, monitor
      ensures Valid()
      ensures View() == HealthSteps(env, old(View()), hostId, reports)
    {
      ghost var w0 := View();
      if monitor == null {
        NoEngineNoHealth(env, w0, hostId, reports);
        return;
      }
      for i := 0 to |reports|
        invariant monitor.cfg == env.cfg
        invariant View() == HealthSteps(env, w0, hostId, reports[..i])
      {
        KnownDockerId(reports, i);
        HealthKeepsRows(env, w0, hostId, reports[..i]);
        var d := reports[i].dockerId;
        EvaluateReport(hostId, reports[i], internalId[d], existing[d]);
        assert reports[..i + 1][..i] == reports[..i];
      }
      assert reports[..|reports|] == reports;
    }

    /** Feeds one reading to the engine, if there is one, and returns it relabelled. */
    method Evaluate(hostId: string, kind: EntityKind, id: string, x: Reading) returns (m: Metric)
      requires monitor != null ==> monitor.cfg == env.cfg
      modifies this`events, monitor
      ensures View().(metrics := metrics[(m.entityType, m.entityId) := m])
           == EvaluatedStep(env, old(View()), hostId, kind, id, x)
      ensures m.entityType == x.metric.entityType && m.entityId == id
    {
      hide OnMetric, ModeOf;
      m := x.metric.(entityId := id);
      if monitor != null {
        OnMetricOfId(env.cfg, StateOf(monitor.state, kind, id), x.metric, id, x.evaluatedAt);
        var transitioned, ev := monitor.EvaluateMetric(kind, id, m, x.evaluatedAt);
        if transitioned {
          RecordTransition(hostId, id, ev.value);
        }
        var mode := monitor.EffectiveMode(kind, id);
        m := m.(mode := mode);
      }
    }

    method StoreReading(b: Batch, x: Reading, internalId: map<string, string>, fails: bool) returns (ok: bool)
      requires monitor != null ==> monitor.cfg == env.cfg
      requires internalId.Keys == DockerIds(b.containers)
      requires forall d :: d in internalId ==> internalId[d] == env.ContainerId(b.hostId, d)
      modifies this`events, this`metrics, monitor
      ensures ok == !(fails && IsWritten(b, x))
      ensures var w' := MetricStep(env, old(View()), b.hostId, DockerIds(b.containers), x);
              View() == if ok then w' else w'.(metrics := old(metrics))
    {
      var m := x.metric;
      if m.entityType == "host" {
        m := Evaluate(b.hostId, Host, b.hostId, x);
      } else if m.entityType == "container" {
        if m.entityId !in internalId {
          return true;
        }
        m := Evaluate(b.hostId, Container, internalId[m.entityId], x);
      }
      if fails {
        return false;
      }
      metrics := metrics[(m.entityType, m.entityId) := m];
      return true;
    }

    /** Second pass: translate, evaluate, relabel and store every reading that has an entity,
        until a metric cannot be stored. */
    method EvaluateReadings(b: Batch, internalId: map<string, string>, fault: Fault) returns (ok: bool)
      requires Valid() && internalId.Keys == DockerIds(b.containers)
      requires forall d :: d in internalId ==> internalId[d] == env.ContainerId(b.hostId, d)
      modifies this`events, this`metrics, monitor
      ensures Valid()
      ensures ok == !MetricAborts(b, fault)
      ensures View() == AfterReadings(env, old(View()), b, fault)
    {
      hide MetricStep, IsWritten, DockerIds, RowsAreWellKeyed;
      ghost var w1, reported := View(), DockerIds(b.containers);
      for i := 0 to |b.readings|
        invariant monitor != null ==> monitor.cfg == env.cfg
        invariant fault.MetricFails? && fault.i < i ==> !MetricAborts(b, fault)
        invariant View() == MetricSteps(env, w1, b.hostId, reported, b.readings[..i])
      {
        ok := StoreReading(b, b.readings[i], internalId, fault == MetricFails(i));
        assert b.readings[..i + 1][..i] == b.readings[..i];
        if !ok {
          return false;
        }
      }
      assert b.readings[..|b.readings|] == b.readings;
      return true;
    }

    method UpsertContainer(hostId: string, r: Report, id: string, known: Option<ContainerRow>, ghost before: Containers)
        returns (mode: Mode)
      requires id == env.ContainerId(hostId, r.dockerId) && known == Existing(before, id)
      modifies this`containers
      ensures mode == EffectiveMode(old(View()), Container, id)
      ensures View() == UpsertStep(env, old(View()), hostId, before, r)
    {
      mode := Normal;
      if monitor != null {
        mode := monitor.EffectiveMode(Container, id);
      }
      var row := ContainerRow(id, hostId, r.dockerId, r.name, r.image, r.status, r.health, r.restartCount, mode,
                              map[], r.seenAt, r.seenAt);
      if known.Some? {
        row := row.(tags := known.value.tags, createdAt := known.value.createdAt);
      }
      containers := containers[id := row];
    }

    /** Third pass: write every reported container with its effective mode, until a row cannot
        be written. */
    method UpsertContainers(b: Batch, internalId: map<string, string>, existing: map<string, Option<ContainerRow>>,
                            ghost before: Containers, fault: Fault)
        returns (ok: bool, containerModes: seq<Mode>)
      requires Valid() && '/' !in b.hostId && AreResolved(env, b.hostId, b.containers, before, internalId, existing)
      requires !MetricAborts(b, fault)
      modifies this`containers
      ensures Valid()
      ensures ok == !UpsertAborts(b, fault)
      ensures View() == UpsertSteps(env, old(View()), b.hostId, before, PersistedReports(b, fault))
      ensures ok ==> |containerModes| == |b.containers|
      ensures ok ==>
                forall i :: 0 <= i < |b.containers| ==>
                              containerModes[i] == EffectiveMode(old(View()), Container, env.ContainerId(b.hostId, b.containers[i].dockerId))
    {
      hide Env.Injective, RowsAreWellKeyed, UpsertSteps, AreResolved, EffectiveMode, MetricAborts;
      ghost var w2 := View();
      NoUpserts(env, w2, b.hostId, before, b.containers);
      UpsertsKeepKeys(env, w2, b.hostId, before, PersistedReports(b, fault));
      containerModes := [];
      for i := 0 to |b.containers|
        invariant View() == UpsertSteps(env, w2, b.hostId, before, b.containers[..i])
        invariant fault.UpsertFails? ==> i <= fault.i
        invariant |containerModes| == i
        invariant forall j :: 0 <= j < i ==>
                                containerModes[j] == EffectiveMode(w2, Container, env.ContainerId(b.hostId, b.containers[j].dockerId))
      {
        if fault == UpsertFails(i) {
          return false, [];
        }
        ResolvedAt(env, b.hostId, b.containers, before, internalId, existing, i);
        OneMoreUpsert(env, w2, b.hostId, before, b.containers, i);
        var r := b.containers[i];
        var mode := UpsertContainer(b.hostId, r, internalId[r.dockerId], existing[r.dockerId], before);
        containerModes := containerModes + [mode];
      }
      assert b.containers[..|b.containers|] == b.containers;
      return true, containerModes;
    }

    /** Persists the host's mode and picks the cadence that serves host and containers. */
    method Answer(hostId: string, host: HostRow, containerModes: seq<Mode>, fault: Fault)
        returns (ok: bool, result: TelemetryResult)
      requires Valid() && hostId in hosts && hosts[hostId] == host
      modifies this`hosts
      ensures Valid()
      ensures ok == !HostAborts(old(View()), hostId, fault)
      ensures View() == if ok then HostStep(old(View()), hostId) else old(View())
      ensures ok ==> IsFastest(result.mode, [EffectiveMode(old(View()), Host, hostId)] + containerModes)
      ensures ok ==> result.intervalSeconds == if monitor == null then 60 else IntervalSeconds(env.cfg, result.mode)
    {
      var hostMode := Normal;
      if monitor != null {
        hostMode := monitor.EffectiveMode(Host, hostId);
      }
      if host.mode != hostMode {
        if fault == HostFails {
          return false, TelemetryResult(Normal, 0);
        }
        hosts := hosts[hostId := host.(mode := hostMode)];
      }
      assert hosts == old(hosts)[hostId := host.(mode := hostMode)];
      var fastest := FastestMode([hostMode] + containerModes);
      var intervalSeconds := 60;
      if monitor != null {
        intervalSeconds := IntervalSeconds(monitor.cfg, fastest);
      }
      return true, TelemetryResult(fastest, intervalSeconds);
    }

    /** One batch from an enrolled agent. An unknown host is refused without effect; a write
        that the store refuses ends the batch where it stands. */
    method IngestTelemetry(b: Batch, fault: Fault) returns (outcome: TelemetryOutcome)
      requires Valid() && env.Injective()
      modifies this, monitor
      ensures Valid()
      ensures outcome.HostNotFound? <==> b.hostId !in old(hosts)
      ensures outcome.HostNotFound? ==> View() == old(View())
      ensures !outcome.HostNotFound? ==> View() == Attempted(env, old(View()), b, fault)
      ensures !outcome.HostNotFound? ==> (outcome.WriteFailed? <==> Aborts(env, old(View()), b, fault))
      ensures outcome.Answered? ==>
                forall m :: IsFastest(m, AnsweredModes(env, View(), b)) <==> m == outcome.result.mode
      ensures outcome.Answered? ==>
                (outcome.result.intervalSeconds
                 == if monitor == null then 60
                    else match outcome.result.mode
                         case Normal => env.cfg.normalInterval
                         case Critical => env.cfg.criticalInterval
                         case ManualRealtime => env.cfg.manualInterval)
    {
      hide HealthSteps, MetricSteps, UpsertSteps, IsFastest, Env.Injective, RowsAreWellKeyed;
      hide Evaluated, HostStep, Ingested, AnsweredModes, EffectiveMode, Attempted, Aborts, AfterReadings;
      hide MetricAborts, UpsertAborts, HostAborts, PersistedReports;
      var hostId := b.hostId;
      if hostId !in hosts {
        return HostNotFound;
      }
      var host := hosts[hostId];
      ghost var w0 := View();
      AttemptInSteps(env, w0, b, fault);
      var internalId, existing := ResolveContainers(hostId, b.containers);
      EvaluateHealth(hostId, b.containers, internalId, existing);
      var ok := EvaluateReadings(b, internalId, fault);
      if !ok {
        return WriteFailed;
      }
      ghost var w2 := View();
      var containerModes;
      ok, containerModes := UpsertContainers(b, internalId, existing, w0.containers, fault);
      if !ok {
        return WriteFailed;
      }
      AllPersisted(b, fault);
      var result;
      ok, result := Answer(hostId, host, containerModes, fault);
      if !ok {
        return WriteFailed;
      }
      AnswerIsOfBatch(env, w0, w2, View(), b, containerModes);
      OnlyFastest(result.mode, AnsweredModes(env, View(), b));
      return Answered(result);
    }

    method Heartbeat(hostId: string, dockerVersion: string, osInfo: string, now: int) returns (ok: bool)
      requires Valid()
      modifies this`hosts, this`events
      ensures Valid()
      ensures ok == (hostId in old(hosts))
      ensures View() == Beat(old(View()), hostId, dockerVersion, osInfo, now)
      ensures ok && old(hosts)[hostId].connection != Online ==>
                events == old(events) + [Event("host.connected", Info, hostId, None,
                                               "Host " + old(hosts)[hostId].name + " came online")]
      ensures !ok || old(hosts)[hostId].connection == Online ==> events == old(events)
    {
      if hostId !in hosts {
        return false;
      }
      var host := hosts[hostId];
      var wasOffline := host.connection != Online;
      host := host.(lastHeartbeat := Some(now), connection := Online);
      if dockerVersion != "" {
        host := host.(dockerVersion := dockerVersion);
      }
      if osInfo != "" {
        host := host.(osInfo := osInfo);
      }
      hosts := hosts[hostId := host];
      if wasOffline {
        events := events + [Event("host.connected", Info, hostId, None, "Host " + host.name + " came online")];
      }
      return true;
    }

    /** The token is drawn by the caller; only its hash is kept. */
    method IssueEnrollmentToken(hostId: string, token: string, now: int) returns (ok: bool)
      requires Valid()
      modifies this`hosts
      ensures Valid()
      ensures ok == (hostId in old(hosts))
      ensures View() == Issue(env, old(View()), hostId, token, now)
    {
      if hostId !in hosts {
        return false;
      }
      var host := hosts[hostId];
      hosts := hosts[hostId := host.(tokenHash := env.hash(token), tokenIssuedAt := Some(now), agentEnrolled := false)];
      return true;
    }

    method EnrollAgent(hostId: string, token: string, cert: Option<string>, now: int) returns (ok: bool)
      requires Valid()
      modifies this`hosts, this`events
      ensures Valid()
      ensures ok == (hostId in old(hosts) && Accepts(env, old(hosts)[hostId], token, now) && cert.Some?)
      ensures View() == Enroll(env, old(View()), hostId, token, cert, now)
      ensures events == old(events) + if ok then [Event("host.agent_enrolled", Info, hostId, None,
                                                        "Agent enrolled for host " + old(hosts)[hostId].name)] else []
    {
      if hostId !in hosts {
        return false;
      }
      var host := hosts[hostId];
      if host.tokenHash == "" || host.agentEnrolled {
        return false;
      }
      if host.tokenIssuedAt.None? || now - host.tokenIssuedAt.value > ENROLLMENT_TTL {
        return false;
      }
      if env.hash(token) != host.tokenHash {
        return false;
      }
      if cert.None? {
        return false;
      }
      hosts := hosts[hostId := host.(agentEnrolled := true, tokenHash := "", certFingerprint := env.hash(cert.value),
                                     connection := UnknownConnection)];
      events := events + [Event("host.agent_enrolled", Info, hostId, None, "Agent enrolled for host " + host.name)];
      return true;
    }
  }
}
