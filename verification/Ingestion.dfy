/** One telemetry batch as a sequence of steps on the stores and the engine's states,
    and what any run of batches keeps. */
module Ingestion {
  import opened Options
  import opened Monitoring

  // ------------------------------------------------------------------- documents

  datatype ConnectionStatus = Online | Offline | UnknownConnection

  datatype HostRow = HostRow(
    name: string, connection: ConnectionStatus, dockerVersion: string, osInfo: string, mode: Mode, lastHeartbeat: Option<int>,
    tokenHash: string, tokenIssuedAt: Option<int>, agentEnrolled: bool, certFingerprint: string)

  datatype ContainerRow = ContainerRow(
    id: string, hostId: string, dockerId: string, name: string, image: string,
    status: ContainerStatus, health: HealthStatus, restartCount: int, mode: Mode,
    tags: map<string, string>, createdAt: int, lastSeenAt: int)

  datatype Severity = Info | CriticalSeverity

  datatype Event = Event(typ: string, severity: Severity, hostId: string, containerId: Option<string>, message: string)

  /** One container of a batch; the two times are the clock readings made for it. */
  datatype Report = Report(
    dockerId: string, name: string, image: string, status: ContainerStatus, health: HealthStatus,
    restartCount: int, evaluatedAt: int, seenAt: int)

  datatype Reading = Reading(metric: Metric, evaluatedAt: int)

  datatype Batch = Batch(hostId: string, containers: seq<Report>, readings: seq<Reading>)

  /** Thresholds, the name-based UUID and the token hash; the last two are any injective functions. */
  datatype Env = Env(cfg: Thresholds, uuid: string -> string, hash: string -> string) {
    ghost predicate Injective() {
      && (forall a, b :: uuid(a) == uuid(b) ==> a == b)
      && (forall a, b :: hash(a) == hash(b) ==> a == b)
      && (forall a :: hash(a) != "")
    }

    function ContainerId(hostId: string, dockerId: string): string {
      uuid(hostId + "/" + dockerId)
    }
  }

  type Containers = map<string, ContainerRow>

  /** Everything a batch can read or change; without an engine there are no states. */
  datatype World = World(
    hosts: map<string, HostRow>, containers: Containers, metrics: map<(string, string), Metric>,
    events: seq<Event>, engine: Option<States>)

  function EngineState(w: World, kind: EntityKind, id: string): EntityState {
    if w.engine.None? then INITIAL else StateOf(w.engine.value, kind, id)
  }

  function EffectiveMode(w: World, kind: EntityKind, id: string): Mode {
    ModeOf(EngineState(w, kind, id))
  }

  // ------------------------------------------------------------------- event rows

  function ReasonName(r: Reason): string {
    match r
    case CpuThreshold => "cpu_threshold"
    case MemThreshold => "mem_threshold"
    case Recovered => "recovered"
    case ContainerCrashed => "container_crashed"
    case ContainerUnhealthy => "container_unhealthy"
    case ContainerRestarted => "container_restarted"
  }

  function ModeName(m: Mode): string {
    match m
    case Normal => "normal"
    case Critical => "critical"
    case ManualRealtime => "manual_realtime"
  }

  function TransitionRow(hostId: string, entityId: string, ev: TransitionEvent): Event {
    Event("monitoring." + ReasonName(ev.reason),
          if ev.entered == Critical then CriticalSeverity else Info,
          hostId,
          if ev.kind == Container then Some(entityId) else None,
          KindName(ev.kind) + " " + entityId + " entered " + ModeName(ev.entered) + " (" + ReasonName(ev.reason) + ")")
  }

  function Logged(events: seq<Event>, hostId: string, kind: EntityKind, id: string, reason: Option<Reason>, at: int): seq<Event> {
    if reason.None? then events
    else events + [TransitionRow(hostId, id, TransitionEvent(kind, id, Entered(reason.value), reason.value, at))]
  }

  // --------------------------------------------------------------- steps of a batch

  function Existing(containers: Containers, id: string): Option<ContainerRow> {
    if id in containers then Some(containers[id]) else None
  }

  /** The restart count a report is compared with; its own on first sighting. */
  function PreviousRestarts(containers: Containers, id: string, r: Report): int {
    if id in containers then containers[id].restartCount else r.restartCount
  }

  function HealthOutcome(env: Env, w: World, hostId: string, r: Report): Outcome {
    var id := env.ContainerId(hostId, r.dockerId);
    OnHealth(EngineState(w, Container, id), r.status, r.health, r.restartCount, PreviousRestarts(w.containers, id, r))
  }

  function HealthStep(env: Env, w: World, hostId: string, r: Report): World {
    if w.engine.None? then w
    else
      var id, o := env.ContainerId(hostId, r.dockerId), HealthOutcome(env, w, hostId, r);
      w.(engine := Some(WithState(w.engine.value, Container, id, o.state)),
         events := Logged(w.events, hostId, Container, id, o.reason, r.evaluatedAt))
  }

  function HealthSteps(env: Env, w: World, hostId: string, rs: seq<Report>): World {
    if rs == [] then w
    else HealthStep(env, HealthSteps(env, w, hostId, rs[..|rs| - 1]), hostId, rs[|rs| - 1])
  }

  /** A reading evaluated and stored for one entity. */
  function EvaluatedStep(env: Env, w: World, hostId: string, kind: EntityKind, id: string, x: Reading): World {
    var w' :=
      if w.engine.None? then w
      else
        var o := OnMetric(env.cfg, EngineState(w, kind, id), x.metric, x.evaluatedAt);
        w.(engine := Some(WithState(w.engine.value, kind, id, o.state)),
           events := Logged(w.events, hostId, kind, id, o.reason, x.evaluatedAt));
    var m := x.metric.(entityId := id, mode := if w.engine.None? then x.metric.mode else EffectiveMode(w', kind, id));
    w'.(metrics := w'.metrics[(m.entityType, id) := m])
  }

  function MetricStep(env: Env, w: World, hostId: string, reported: set<string>, x: Reading): World {
    if x.metric.entityType == "host" then EvaluatedStep(env, w, hostId, Host, hostId, x)
    else if x.metric.entityType == "container" then
      if x.metric.entityId !in reported then w
      else EvaluatedStep(env, w, hostId, Container, env.ContainerId(hostId, x.metric.entityId), x)
    else w.(metrics := w.metrics[(x.metric.entityType, x.metric.entityId) := x.metric])
  }

  function MetricSteps(env: Env, w: World, hostId: string, reported: set<string>, xs: seq<Reading>): World {
    if xs == [] then w
    else MetricStep(env, MetricSteps(env, w, hostId, reported, xs[..|xs| - 1]), hostId, reported, xs[|xs| - 1])
  }

  /** The row written for a report, given the containers known before the batch. */
  function RowFor(env: Env, w: World, hostId: string, before: Containers, r: Report): ContainerRow {
    var id := env.ContainerId(hostId, r.dockerId);
    var known := Existing(before, id);
    ContainerRow(id, hostId, r.dockerId, r.name, r.image, r.status, r.health, r.restartCount,
                 EffectiveMode(w, Container, id),
                 if known.Some? then known.value.tags else map[],
                 if known.Some? then known.value.createdAt else r.seenAt,
                 r.seenAt)
  }

  function UpsertStep(env: Env, w: World, hostId: string, before: Containers, r: Report): World {
    var row := RowFor(env, w, hostId, before, r);
    w.(containers := w.containers[row.id := row])
  }

  function UpsertSteps(env: Env, w: World, hostId: string, before: Containers, rs: seq<Report>): World {
    if rs == [] then w
    else UpsertStep(env, UpsertSteps(env, w, hostId, before, rs[..|rs| - 1]), hostId, before, rs[|rs| - 1])
  }

  function HostStep(w: World, hostId: string): World {
    if hostId !in w.hosts then w
    else w.(hosts := w.hosts[hostId := w.hosts[hostId].(mode := EffectiveMode(w, Host, hostId))])
  }

  function DockerIds(rs: seq<Report>): set<string> {
    set i | 0 <= i < |rs| :: rs[i].dockerId
  }

  function Evaluated(env: Env, w: World, b: Batch): World {
    MetricSteps(env, HealthSteps(env, w, b.hostId, b.containers), b.hostId, DockerIds(b.containers), b.readings)
  }

  /** A whole batch of a known host. */
  function Ingested(env: Env, w: World, b: Batch): World {
    HostStep(UpsertSteps(env, Evaluated(env, w, b), b.hostId, w.containers, b.containers), b.hostId)
  }

  // ------------------------------------------------------------------ failing writes

  /** The write of a batch that the store refuses, if any: that of a reading's metric, that of
      a container's row, or that of the host's mode. */
  datatype Fault = NoFault | MetricFails(i: nat) | UpsertFails(i: nat) | HostFails

  /** A reading is written unless it is of a container the batch does not report. */
  predicate IsWritten(b: Batch, x: Reading) {
    x.metric.entityType == "container" ==> x.metric.entityId in DockerIds(b.containers)
  }

  predicate MetricAborts(b: Batch, f: Fault) {
    f.MetricFails? && f.i < |b.readings| && IsWritten(b, b.readings[f.i])
  }

  predicate UpsertAborts(b: Batch, f: Fault) {
    f.UpsertFails? && f.i < |b.containers|
  }

  /** The host's row is written only if its mode has changed. */
  predicate HostAborts(w: World, hostId: string, f: Fault) {
    f == HostFails && hostId in w.hosts && w.hosts[hostId].mode != EffectiveMode(w, Host, hostId)
  }

  predicate Aborts(env: Env, w: World, b: Batch, f: Fault) {
    MetricAborts(b, f) || UpsertAborts(b, f) || HostAborts(Evaluated(env, w, b), b.hostId, f)
  }

  /** The readings that reach the engine. */
  function EvaluatedReadings(b: Batch, f: Fault): seq<Reading> {
    if MetricAborts(b, f) then b.readings[..f.i + 1] else b.readings
  }

  /** The readings whose metrics are stored. */
  function StoredReadings(b: Batch, f: Fault): seq<Reading> {
    if MetricAborts(b, f) then b.readings[..f.i] else b.readings
  }

  /** The reports whose rows are written. */
  function PersistedReports(b: Batch, f: Fault): seq<Report> {
    if MetricAborts(b, f) then [] else if UpsertAborts(b, f) then b.containers[..f.i] else b.containers
  }

  /** The readings up to one whose metric cannot be stored. */
  function AfterReadings(env: Env, w: World, b: Batch, f: Fault): World {
    var reported := DockerIds(b.containers);
    MetricSteps(env, w, b.hostId, reported, EvaluatedReadings(b, f))
    .(metrics := MetricSteps(env, w, b.hostId, reported, StoredReadings(b, f)).metrics)
  }

  /** What a batch of a known host leaves behind: a refused write ends it where it stands. */
  function Attempted(env: Env, w: World, b: Batch, f: Fault): World {
    var w2 := AfterReadings(env, HealthSteps(env, w, b.hostId, b.containers), b, f);
    var w3 := UpsertSteps(env, w2, b.hostId, w.containers, PersistedReports(b, f));
    if Aborts(env, w, b, f) then w3 else HostStep(w3, b.hostId)
  }

  // -------------------------------------------------------- heartbeats and enrollment

  /** 15 minutes, in nanoseconds. */
  const ENROLLMENT_TTL: int := 900_000_000_000

  function Beat(w: World, hostId: string, dockerVersion: string, osInfo: string, now: int): World {
    if hostId !in w.hosts then w
    else
      var h := w.hosts[hostId];
      var h' := h.(lastHeartbeat := Some(now), connection := Online,
                   dockerVersion := if dockerVersion != "" then dockerVersion else h.dockerVersion,
                   osInfo := if osInfo != "" then osInfo else h.osInfo);
      w.(hosts := w.hosts[hostId := h'],
         events := if h.connection == Online then w.events
                   else w.events + [Event("host.connected", Info, hostId, None, "Host " + h.name + " came online")])
  }

  function Issue(env: Env, w: World, hostId: string, token: string, now: int): World {
    if hostId !in w.hosts then w
    else w.(hosts := w.hosts[hostId := w.hosts[hostId].(tokenHash := env.hash(token), tokenIssuedAt := Some(now), agentEnrolled := false)])
  }

  predicate Accepts(env: Env, h: HostRow, token: string, now: int) {
    && h.tokenHash != "" && !h.agentEnrolled
    && h.tokenIssuedAt.Some? && now - h.tokenIssuedAt.value <= ENROLLMENT_TTL
    && env.hash(token) == h.tokenHash
  }

  /** cert is what signing the request gives, or None if signing fails. */
  function Enroll(env: Env, w: World, hostId: string, token: string, cert: Option<string>, now: int): World {
    if hostId !in w.hosts || !Accepts(env, w.hosts[hostId], token, now) || cert.None? then w
    else
      var h := w.hosts[hostId];
      w.(hosts := w.hosts[hostId := h.(agentEnrolled := true, tokenHash := "", certFingerprint := env.hash(cert.value),
                                       connection := UnknownConnection)],
         events := w.events + [Event("host.agent_enrolled", Info, hostId, None, "Agent enrolled for host " + h.name)])
  }

  // ------------------------------------------------------- what each phase leaves alone

  lemma {:induction false} HealthKeepsRows(env: Env, w: World, hostId: string, rs: seq<Report>)
    ensures var w' := HealthSteps(env, w, hostId, rs);
            w'.hosts == w.hosts && w'.containers == w.containers && w'.metrics == w.metrics
            && w'.engine.Some? == w.engine.Some?
  {
    if rs != [] {
      HealthKeepsRows(env, w, hostId, rs[..|rs| - 1]);
    }
  }

  lemma {:induction false} NoEngineNoHealth(env: Env, w: World, hostId: string, rs: seq<Report>)
    requires w.engine.None?
    ensures HealthSteps(env, w, hostId, rs) == w
  {
    if rs != [] {
      NoEngineNoHealth(env, w, hostId, rs[..|rs| - 1]);
    }
  }

  lemma {:induction false} MetricsKeepRows(env: Env, w: World, hostId: string, reported: set<string>, xs: seq<Reading>)
    ensures var w' := MetricSteps(env, w, hostId, reported, xs);
            w'.hosts == w.hosts && w'.containers == w.containers && w'.engine.Some? == w.engine.Some?
  {
    if xs != [] {
      MetricsKeepRows(env, w, hostId, reported, xs[..|xs| - 1]);
    }
  }

  lemma EvaluationKeepsRows(env: Env, w: World, b: Batch)
    ensures var w' := Evaluated(env, w, b);
            w'.hosts == w.hosts && w'.containers == w.containers && w'.engine.Some? == w.engine.Some?
  {
    HealthKeepsRows(env, w, b.hostId, b.containers);
    MetricsKeepRows(env, HealthSteps(env, w, b.hostId, b.containers), b.hostId, DockerIds(b.containers), b.readings);
  }

  lemma {:induction false} UpsertsKeepTheRest(env: Env, w: World, hostId: string, before: Containers, rs: seq<Report>)
    ensures var w' := UpsertSteps(env, w, hostId, before, rs);
            w'.(containers := w.containers) == w
  {
    if rs != [] {
      UpsertsKeepTheRest(env, w, hostId, before, rs[..|rs| - 1]);
    }
  }

  // -------------------------------------------------------------------- invariants

  /** Every container row sits under the hash of its host and Docker IDs. */
  ghost predicate RowsAreWellKeyed(env: Env, containers: Containers) {
    forall id :: id in containers ==>
                   var row := containers[id];
                   row.id == id == env.ContainerId(row.hostId, row.dockerId) && '/' !in row.hostId
  }

  lemma SlashSplits(h1: string, d1: string, h2: string, d2: string)
    requires '/' !in h1 && '/' !in h2
    requires h1 + "/" + d1 == h2 + "/" + d2
    ensures h1 == h2 && d1 == d2
  {
    var s := h1 + "/" + d1;
    assert s[|h1|] == '/' && s[|h2|] == '/';
    assert forall i :: 0 <= i < |h1| ==> s[i] == h1[i] && h1[i] in h1;
    assert forall i :: 0 <= i < |h2| ==> s[i] == h2[i] && h2[i] in h2;
    assert h1 == s[..|h1|] && h2 == s[..|h2|];
    assert d1 == s[|h1| + 1..] && d2 == s[|h2| + 1..];
  }

  lemma IdsAreDistinct(env: Env, h1: string, d1: string, h2: string, d2: string)
    requires env.Injective() && '/' !in h1 && '/' !in h2
    requires env.ContainerId(h1, d1) == env.ContainerId(h2, d2)
    ensures h1 == h2 && d1 == d2
  {
    SlashSplits(h1, d1, h2, d2);
  }

  lemma {:induction false} UpsertsKeepKeys(env: Env, w: World, hostId: string, before: Containers, rs: seq<Report>)
    requires RowsAreWellKeyed(env, w.containers) && '/' !in hostId
    ensures RowsAreWellKeyed(env, UpsertSteps(env, w, hostId, before, rs).containers)
  {
    if rs != [] {
      UpsertsKeepKeys(env, w, hostId, before, rs[..|rs| - 1]);
    }
  }

  /** The modes a batch is answered for: the host's, then each reported container's. */
  function AnsweredModes(env: Env, w: World, b: Batch): seq<Mode> {
    [EffectiveMode(w, Host, b.hostId)]
    + seq(|b.containers|, i requires 0 <= i < |b.containers| =>
        EffectiveMode(w, Container, env.ContainerId(b.hostId, b.containers[i].dockerId)))
  }

  /** How far a batch gets. */
  lemma AttemptInSteps(env: Env, w: World, b: Batch, f: Fault)
    ensures var w2 := AfterReadings(env, HealthSteps(env, w, b.hostId, b.containers), b, f);
            var w3 := UpsertSteps(env, w2, b.hostId, w.containers, PersistedReports(b, f));
            if MetricAborts(b, f) then Aborts(env, w, b, f) && Attempted(env, w, b, f) == w2
            else
              && w2 == Evaluated(env, w, b)
              && if UpsertAborts(b, f) then Aborts(env, w, b, f) && Attempted(env, w, b, f) == w3
                 else && (Aborts(env, w, b, f) <==> HostAborts(w3, b.hostId, f))
                      && Attempted(env, w, b, f) == if HostAborts(w3, b.hostId, f) then w3 else HostStep(w3, b.hostId)
  {
    hide MetricSteps, HealthSteps, HostStep;
    UpsertsKeepTheRest(env, Evaluated(env, w, b), b.hostId, w.containers, PersistedReports(b, f));
  }

  /** Without a refused write the whole batch is ingested. */
  lemma UnlessAborted(env: Env, w: World, b: Batch, f: Fault)
    requires !Aborts(env, w, b, f)
    ensures Attempted(env, w, b, f) == Ingested(env, w, b)
  {
  }

  /** Whatever is refused, the parts of the stores that a batch leaves behind. */
  lemma AttemptedParts(env: Env, w: World, b: Batch, f: Fault)
    ensures var w', w1, reported := Attempted(env, w, b, f), HealthSteps(env, w, b.hostId, b.containers), DockerIds(b.containers);
            && w'.events == MetricSteps(env, w1, b.hostId, reported, EvaluatedReadings(b, f)).events
            && w'.engine == MetricSteps(env, w1, b.hostId, reported, EvaluatedReadings(b, f)).engine
            && w'.metrics == MetricSteps(env, w1, b.hostId, reported, StoredReadings(b, f)).metrics
            && w'.containers
            == UpsertSteps(env, AfterReadings(env, w1, b, f), b.hostId, w.containers, PersistedReports(b, f)).containers
            && (w'.hosts == w.hosts || w'.hosts == HostStep(w.(engine := w'.engine), b.hostId).hosts)
            && w'.engine.Some? == w.engine.Some?
  {
    hide Aborts, MetricSteps, HealthSteps, UpsertSteps, EvaluatedReadings, StoredReadings, PersistedReports;
    var w1 := HealthSteps(env, w, b.hostId, b.containers);
    HealthKeepsRows(env, w, b.hostId, b.containers);
    MetricsKeepRows(env, w1, b.hostId, DockerIds(b.containers), EvaluatedReadings(b, f));
    UpsertsKeepTheRest(env, AfterReadings(env, w1, b, f), b.hostId, w.containers, PersistedReports(b, f));
  }

  /** The modes the steps of a batch come upon are those it leaves behind. */
  lemma AnswerIsOfBatch(env: Env, w0: World, w2: World, w: World, b: Batch, modes: seq<Mode>)
    requires w2 == Evaluated(env, w0, b)
    requires w == HostStep(UpsertSteps(env, w2, b.hostId, w0.containers, b.containers), b.hostId)
    requires |modes| == |b.containers|
    requires forall i :: 0 <= i < |modes| ==>
                           modes[i] == EffectiveMode(w2, Container, env.ContainerId(b.hostId, b.containers[i].dockerId))
    ensures w == Ingested(env, w0, b)
    ensures AnsweredModes(env, w, b)
         == [EffectiveMode(UpsertSteps(env, w2, b.hostId, w0.containers, b.containers), Host, b.hostId)] + modes
  {
    UpsertsKeepTheRest(env, w2, b.hostId, w0.containers, b.containers);
  }
}
