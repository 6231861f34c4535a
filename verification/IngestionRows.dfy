/** What batches leave in the container, metric and host rows, and when a restart is reported. */
module IngestionRows {
  import opened Options
  import opened Monitoring
  import opened Ingestion
  import opened IngestionRuns

  // ------------------------------------------------------------ rows after a batch

  /** The last report of a batch for a Docker ID. */
  function LastReport(rs: seq<Report>, dockerId: string): Option<Report> {
    if rs == [] then None
    else if rs[|rs| - 1].dockerId == dockerId then Some(rs[|rs| - 1])
    else LastReport(rs[..|rs| - 1], dockerId)
  }

  lemma {:induction false} LastReportOf(rs: seq<Report>, dockerId: string)
    ensures LastReport(rs, dockerId).Some? <==> dockerId in DockerIds(rs)
    ensures LastReport(rs, dockerId).Some? ==> LastReport(rs, dockerId).value.dockerId == dockerId
  {
    if rs != [] {
      var n := |rs| - 1;
      LastReportOf(rs[..n], dockerId);
      DockerIdsOfLast(rs);
    }
  }

  lemma DockerIdsOfLast(rs: seq<Report>)
    requires rs != []
    ensures DockerIds(rs) == DockerIds(rs[..|rs| - 1]) + {rs[|rs| - 1].dockerId}
  {
    var n := |rs| - 1;
    assert forall i :: 0 <= i < n ==> rs[..n][i] == rs[i];
    forall d | d in DockerIds(rs)
      ensures d in DockerIds(rs[..n]) + {rs[n].dockerId}
    {
      var i :| 0 <= i < |rs| && rs[i].dockerId == d;
      assert i < n ==> rs[..n][i].dockerId == d;
    }
  }

  /** The row under a container's ID after the upserts: its last report's, or as before. */
  lemma {:induction false} UpsertedRow(env: Env, w: World, hostId: string, before: Containers, rs: seq<Report>,
                                       host: string, dockerId: string)
    requires env.Injective() && '/' !in hostId && '/' !in host
    ensures var w', id := UpsertSteps(env, w, hostId, before, rs), env.ContainerId(host, dockerId);
            (Existing(w'.containers, id)
             == if host == hostId && LastReport(rs, dockerId).Some?
                then Some(RowFor(env, w, hostId, before, LastReport(rs, dockerId).value))
                else Existing(w.containers, id))
  {
    if rs != [] {
      hide Env.Injective;
      var rest, r := rs[..|rs| - 1], rs[|rs| - 1];
      UpsertedRow(env, w, hostId, before, rest, host, dockerId);
      UpsertsKeepTheRest(env, w, hostId, before, rest);
      if env.ContainerId(host, dockerId) == env.ContainerId(hostId, r.dockerId) {
        IdsAreDistinct(env, host, dockerId, hostId, r.dockerId);
      }
    }
  }

  /** The container row of a reported container after a batch, refused writes or not. */
  lemma AttemptedRow(env: Env, w: World, b: Batch, f: Fault, host: string, dockerId: string)
    requires env.Injective() && '/' !in b.hostId && '/' !in host
    ensures var w', id := Attempted(env, w, b, f), env.ContainerId(host, dockerId);
            (Existing(w'.containers, id)
             == if host == b.hostId && LastReport(PersistedReports(b, f), dockerId).Some?
                then Some(RowFor(env, w', b.hostId, w.containers, LastReport(PersistedReports(b, f), dockerId).value))
                else Existing(w.containers, id))
  {
    hide Attempted, HealthSteps, MetricSteps, UpsertSteps, EvaluatedReadings, StoredReadings, PersistedReports, LastReport;
    var w1 := HealthSteps(env, w, b.hostId, b.containers);
    var w2 := AfterReadings(env, w1, b, f);
    AttemptedParts(env, w, b, f);
    HealthKeepsRows(env, w, b.hostId, b.containers);
    MetricsKeepRows(env, w1, b.hostId, DockerIds(b.containers), EvaluatedReadings(b, f));
    UpsertedRow(env, w2, b.hostId, w.containers, PersistedReports(b, f), host, dockerId);
  }

  /** The same after a batch that goes through. */
  lemma IngestedRow(env: Env, w: World, b: Batch, host: string, dockerId: string)
    requires env.Injective() && b.hostId in w.hosts && '/' !in b.hostId && '/' !in host
    ensures var w', id := Ingested(env, w, b), env.ContainerId(host, dockerId);
            && w'.hosts == w.hosts[b.hostId := w.hosts[b.hostId].(mode := EffectiveMode(w', Host, b.hostId))]
            && Existing(w'.containers, id)
            == if host == b.hostId && LastReport(b.containers, dockerId).Some?
               then Some(RowFor(env, w', b.hostId, w.containers, LastReport(b.containers, dockerId).value))
               else Existing(w.containers, id)
  {
    var evaluated := Evaluated(env, w, b);
    EvaluationKeepsRows(env, w, b);
    UpsertsKeepTheRest(env, evaluated, b.hostId, w.containers, b.containers);
    UpsertedRow(env, evaluated, b.hostId, w.containers, b.containers, host, dockerId);
  }

  /** After a batch that goes through, the host's and every reported container's persisted mode
      is the engine's. */
  lemma PersistedModesAgree(env: Env, w: World, b: Batch, f: Fault)
    requires env.Injective() && b.hostId in w.hosts && '/' !in b.hostId
    requires !Aborts(env, w, b, f)
    ensures var w' := Attempted(env, w, b, f);
            && b.hostId in w'.hosts && w'.hosts[b.hostId].mode == EffectiveMode(w', Host, b.hostId)
            && forall i :: 0 <= i < |b.containers| ==>
                             var id := env.ContainerId(b.hostId, b.containers[i].dockerId);
                             id in w'.containers && w'.containers[id].mode == EffectiveMode(w', Container, id)
  {
    hide Ingested, Attempted, Aborts;
    UnlessAborted(env, w, b, f);
    var w' := Ingested(env, w, b);
    IngestedRow(env, w, b, b.hostId, "");
    forall i | 0 <= i < |b.containers|
      ensures var id := env.ContainerId(b.hostId, b.containers[i].dockerId);
              id in w'.containers && w'.containers[id].mode == EffectiveMode(w', Container, id)
    {
      var d := b.containers[i].dockerId;
      LastReportOf(b.containers, d);
      IngestedRow(env, w, b, b.hostId, d);
    }
  }

  /** Field by field, what the last report of a container that was written leaves. */
  lemma ReportedRow(env: Env, w: World, b: Batch, f: Fault, dockerId: string)
    requires env.Injective() && '/' !in b.hostId
    requires LastReport(PersistedReports(b, f), dockerId).Some?
    ensures env.ContainerId(b.hostId, dockerId) in Attempted(env, w, b, f).containers
    ensures var id, r := env.ContainerId(b.hostId, dockerId), LastReport(PersistedReports(b, f), dockerId).value;
            var row := Attempted(env, w, b, f).containers[id];
            && row.id == id && row.hostId == b.hostId && row.dockerId == dockerId
            && row.name == r.name && row.image == r.image && row.status == r.status && row.health == r.health
            && row.restartCount == r.restartCount && row.lastSeenAt == r.seenAt
            && row.mode == EffectiveMode(Attempted(env, w, b, f), Container, id)
            && (if id in w.containers then row.tags == w.containers[id].tags && row.createdAt == w.containers[id].createdAt
                else row.tags == map[] && row.createdAt == r.seenAt)
  {
    hide Attempted, PersistedReports, Env.Injective;
    AttemptedRow(env, w, b, f, b.hostId, dockerId);
    LastReportOf(PersistedReports(b, f), dockerId);
  }

  /** A batch that a refused metric ends: its metrics are those of a batch with only the readings
      before, its transitions those of one that ends with that reading, and no row changes. */
  lemma CutShortByMetric(env: Env, w: World, b: Batch, i: nat)
    requires MetricAborts(b, MetricFails(i))
    ensures var w' := Attempted(env, w, b, MetricFails(i));
            && w'.metrics == Ingested(env, w, b.(readings := b.readings[..i])).metrics
            && w'.events == Ingested(env, w, b.(readings := b.readings[..i + 1])).events
            && w'.engine == Ingested(env, w, b.(readings := b.readings[..i + 1])).engine
            && w'.containers == w.containers && w'.hosts == w.hosts
  {
    hide MetricSteps, HealthSteps;
    HealthKeepsRows(env, w, b.hostId, b.containers);
    MetricsKeepRows(env, HealthSteps(env, w, b.hostId, b.containers), b.hostId, DockerIds(b.containers), b.readings[..i + 1]);
    UpsertsKeepTheRest(env, Evaluated(env, w, b.(readings := b.readings[..i])), b.hostId, w.containers, b.containers);
    UpsertsKeepTheRest(env, Evaluated(env, w, b.(readings := b.readings[..i + 1])), b.hostId, w.containers, b.containers);
  }

  // ------------------------------------------------------------------ stored metrics

  /** The reading is one of the entity. */
  predicate IsReadingOf(env: Env, hostId: string, reported: set<string>, x: Reading, kind: EntityKind, id: string) {
    if kind == Host then x.metric.entityType == "host" && id == hostId
    else && x.metric.entityType == "container" && x.metric.entityId in reported
         && id == env.ContainerId(hostId, x.metric.entityId)
  }

  function LastReading(env: Env, hostId: string, reported: set<string>, xs: seq<Reading>, kind: EntityKind, id: string): Option<Reading> {
    if xs == [] then None
    else if IsReadingOf(env, hostId, reported, xs[|xs| - 1], kind, id) then Some(xs[|xs| - 1])
    else LastReading(env, hostId, reported, xs[..|xs| - 1], kind, id)
  }

  /** The metric stored under an entity is the given reading's, under the entity's own ID and,
      with an engine, labelled with the mode the engine has the entity in. */
  ghost predicate IsLabelled(w: World, x: Reading, kind: EntityKind, id: string) {
    && (KindName(kind), id) in w.metrics
    && w.metrics[(KindName(kind), id)]
    == x.metric.(entityId := id, mode := if w.engine.None? then x.metric.mode else EffectiveMode(w, kind, id))
  }

  lemma ReadingIsLabelled(env: Env, w: World, hostId: string, reported: set<string>, x: Reading, kind: EntityKind, id: string)
    requires IsReadingOf(env, hostId, reported, x, kind, id)
    ensures IsLabelled(MetricStep(env, w, hostId, reported, x), x, kind, id)
  {
    hide OnMetric;
  }

  lemma OtherReadingKeepsLabel(env: Env, w: World, hostId: string, reported: set<string>, x: Reading, last: Reading,
                               kind: EntityKind, id: string)
    requires !IsReadingOf(env, hostId, reported, x, kind, id) && IsLabelled(w, last, kind, id)
    ensures IsLabelled(MetricStep(env, w, hostId, reported, x), last, kind, id)
  {
    hide OnMetric;
    if w.engine.Some? && x.metric.entityType in {"host", "container"} {
      var k := if x.metric.entityType == "host" then Host else Container;
      var i := if k == Host then hostId else env.ContainerId(hostId, x.metric.entityId);
      var st := OnMetric(env.cfg, EngineState(w, k, i), x.metric, x.evaluatedAt).state;
      StateAfter(w.engine.value, k, i, st, kind, id);
    }
  }

  lemma {:induction false} ReadingsAreLabelled(env: Env, w: World, hostId: string, reported: set<string>, xs: seq<Reading>,
                                               kind: EntityKind, id: string)
    requires LastReading(env, hostId, reported, xs, kind, id).Some?
    ensures IsLabelled(MetricSteps(env, w, hostId, reported, xs), LastReading(env, hostId, reported, xs, kind, id).value, kind, id)
  {
    hide MetricStep, IsReadingOf, IsLabelled;
    var rest, x := xs[..|xs| - 1], xs[|xs| - 1];
    var w1 := MetricSteps(env, w, hostId, reported, rest);
    if IsReadingOf(env, hostId, reported, x, kind, id) {
      ReadingIsLabelled(env, w1, hostId, reported, x, kind, id);
    } else {
      ReadingsAreLabelled(env, w, hostId, reported, rest, kind, id);
      OtherReadingKeepsLabel(env, w1, hostId, reported, x, LastReading(env, hostId, reported, rest, kind, id).value, kind, id);
    }
  }

  /** After a batch none of whose metrics is refused, what is stored for each entity it has a
      reading of is the last such reading, labelled with the entity's mode after the batch. */
  lemma StoredMetricsAgree(env: Env, w: World, b: Batch, f: Fault, kind: EntityKind, id: string)
    requires !MetricAborts(b, f)
    requires LastReading(env, b.hostId, DockerIds(b.containers), b.readings, kind, id).Some?
    ensures IsLabelled(Attempted(env, w, b, f),
                       LastReading(env, b.hostId, DockerIds(b.containers), b.readings, kind, id).value, kind, id)
  {
    hide Attempted, MetricSteps, LastReading;
    AttemptedParts(env, w, b, f);
    ReadingsAreLabelled(env, HealthSteps(env, w, b.hostId, b.containers), b.hostId, DockerIds(b.containers), b.readings, kind, id);
  }

  /** A metric of any other kind of entity is stored as sent, and concerns nothing else. */
  lemma OtherKindsAreStored(env: Env, w: World, hostId: string, reported: set<string>, x: Reading)
    requires x.metric.entityType != "host" && x.metric.entityType != "container"
    ensures var w' := MetricStep(env, w, hostId, reported, x);
            && w'.(metrics := w.metrics) == w
            && w'.metrics == w.metrics[(x.metric.entityType, x.metric.entityId) := x.metric]
  {
  }

  lemma {:induction false} NoEngineNoEvents(env: Env, w: World, hostId: string, rs: seq<Report>, reported: set<string>, xs: seq<Reading>)
    requires w.engine.None?
    ensures var w' := MetricSteps(env, HealthSteps(env, w, hostId, rs), hostId, reported, xs);
            w'.events == w.events && w'.engine == None
  {
    if xs == [] {
      NoEngineNoHealth(env, w, hostId, rs);
    } else {
      NoEngineNoEvents(env, w, hostId, rs, reported, xs[..|xs| - 1]);
    }
  }

  /** Without an engine a batch logs nothing, and every mode it persists is normal. */
  lemma WithoutEngine(env: Env, w: World, b: Batch, f: Fault)
    requires env.Injective() && '/' !in b.hostId && b.hostId in w.hosts && w.engine.None?
    ensures var w' := Attempted(env, w, b, f);
            && w'.events == w.events && w'.engine == None
            && (!Aborts(env, w, b, f) ==> b.hostId in w'.hosts && w'.hosts[b.hostId].mode == Normal)
            && forall r :: r in PersistedReports(b, f) ==>
                             var id := env.ContainerId(b.hostId, r.dockerId);
                             id in w'.containers && w'.containers[id].mode == Normal
  {
    hide Attempted, HealthSteps, MetricSteps, Aborts;
    AttemptedParts(env, w, b, f);
    NoEngineNoEvents(env, w, b.hostId, b.containers, DockerIds(b.containers), EvaluatedReadings(b, f));
    if !Aborts(env, w, b, f) {
      PersistedModesAgree(env, w, b, f);
    }
    forall r | r in PersistedReports(b, f)
      ensures var id := env.ContainerId(b.hostId, r.dockerId);
              id in Attempted(env, w, b, f).containers && Attempted(env, w, b, f).containers[id].mode == Normal
    {
      LastReportOf(PersistedReports(b, f), r.dockerId);
      ReportedRow(env, w, b, f, r.dockerId);
    }
  }

  // ----------------------------------------------------------------------- the answer

  /** With sensibly ordered intervals, the interval answered for the fastest mode is the
      least interval over the host and the reported containers. */
  lemma AnsweredIntervalIsLeast(env: Env, w: World, b: Batch, best: Mode)
    requires env.cfg.manualInterval <= env.cfg.criticalInterval <= env.cfg.normalInterval
    requires IsFastest(best, AnsweredModes(env, w, b))
    ensures best in AnsweredModes(env, w, b)
    ensures IntervalSeconds(env.cfg, best) <= IntervalSeconds(env.cfg, EffectiveMode(w, Host, b.hostId))
    ensures forall i :: 0 <= i < |b.containers| ==>
                          var id := env.ContainerId(b.hostId, b.containers[i].dockerId);
                          IntervalSeconds(env.cfg, best) <= IntervalSeconds(env.cfg, EffectiveMode(w, Container, id))
  {
    var modes := AnsweredModes(env, w, b);
    FastestPollsMostOften(env.cfg, best, modes);
    assert modes[0] in modes;
    forall i | 0 <= i < |b.containers|
      ensures EffectiveMode(w, Container, env.ContainerId(b.hostId, b.containers[i].dockerId)) in modes
    {
      assert modes[i + 1] == EffectiveMode(w, Container, env.ContainerId(b.hostId, b.containers[i].dockerId));
    }
  }

  // ---------------------------------------------------------------- no orphan metrics

  /** Every stored container metric belongs to a stored container. */
  ghost predicate MetricsHaveRows(w: World) {
    forall id :: ("container", id) in w.metrics ==> id in w.containers
  }

  /** A reading stored for a container, under its ID. */
  ghost predicate Stores(env: Env, b: Batch, xs: seq<Reading>, id: string) {
    exists x :: && x in xs && x.metric.entityType == "container" && IsWritten(b, x)
                && id == env.ContainerId(b.hostId, x.metric.entityId)
  }

  lemma StoresOfLast(env: Env, b: Batch, xs: seq<Reading>, id: string)
    requires xs != []
    ensures var x := xs[|xs| - 1];
            (Stores(env, b, xs, id)
             <==> || Stores(env, b, xs[..|xs| - 1], id)
                  || (x.metric.entityType == "container" && IsWritten(b, x) && id == env.ContainerId(b.hostId, x.metric.entityId)))
  {
    assert xs == xs[..|xs| - 1] + [xs[|xs| - 1]];
  }

  lemma {:induction false} MetricsStored(env: Env, w: World, b: Batch, xs: seq<Reading>, id: string)
    ensures ("container", id) in MetricSteps(env, w, b.hostId, DockerIds(b.containers), xs).metrics
       <==> ("container", id) in w.metrics || Stores(env, b, xs, id)
  {
    if xs != [] {
      hide Stores, OnMetric, DockerIds;
      MetricsStored(env, w, b, xs[..|xs| - 1], id);
      StoresOfLast(env, b, xs, id);
    }
  }

  /** A container that is stored before the batch, or written by it. */
  predicate HasRow(env: Env, w: World, b: Batch, f: Fault, dockerId: string) {
    || env.ContainerId(b.hostId, dockerId) in w.containers
    || LastReport(PersistedReports(b, f), dockerId).Some?
  }

  /** A batch leaves no container metric without a row exactly if each container it stored a
      reading for had a row before or got one before a write was refused. */
  lemma BatchKeepsMetricRows(env: Env, w: World, b: Batch, f: Fault)
    requires env.Injective() && '/' !in b.hostId
    requires MetricsHaveRows(w) && RowsAreWellKeyed(env, w.containers)
    ensures RowsAreWellKeyed(env, Attempted(env, w, b, f).containers)
    ensures MetricsHaveRows(Attempted(env, w, b, f))
       <==> forall x :: x in StoredReadings(b, f) && x.metric.entityType == "container" && IsWritten(b, x) ==>
                          HasRow(env, w, b, f, x.metric.entityId)
  {
    hide Attempted, MetricSteps, HealthSteps, UpsertSteps, StoredReadings, PersistedReports, LastReport;
    var w', w1 := Attempted(env, w, b, f), HealthSteps(env, w, b.hostId, b.containers);
    AttemptedParts(env, w, b, f);
    HealthKeepsRows(env, w, b.hostId, b.containers);
    KeysAfterBatch(env, w, b, f);
    forall id
      ensures ("container", id) in w'.metrics <==> ("container", id) in w.metrics || Stores(env, b, StoredReadings(b, f), id)
      ensures id in w.containers ==> id in w'.containers
    {
      MetricsStored(env, w1, b, StoredReadings(b, f), id);
      RowsStay(env, w, b, f, id);
    }
    forall x | x in StoredReadings(b, f) && x.metric.entityType == "container" && IsWritten(b, x)
      ensures Stores(env, b, StoredReadings(b, f), env.ContainerId(b.hostId, x.metric.entityId))
      ensures HasRow(env, w, b, f, x.metric.entityId) <==> env.ContainerId(b.hostId, x.metric.entityId) in w'.containers
    {
      AttemptedRow(env, w, b, f, b.hostId, x.metric.entityId);
    }
  }

  lemma KeysAfterBatch(env: Env, w: World, b: Batch, f: Fault)
    requires '/' !in b.hostId && RowsAreWellKeyed(env, w.containers)
    ensures RowsAreWellKeyed(env, Attempted(env, w, b, f).containers)
  {
    hide Attempted, MetricSteps, HealthSteps, UpsertSteps, RowsAreWellKeyed;
    var w1 := HealthSteps(env, w, b.hostId, b.containers);
    AttemptedParts(env, w, b, f);
    HealthKeepsRows(env, w, b.hostId, b.containers);
    MetricsKeepRows(env, w1, b.hostId, DockerIds(b.containers), EvaluatedReadings(b, f));
    UpsertsKeepKeys(env, AfterReadings(env, w1, b, f), b.hostId, w.containers, PersistedReports(b, f));
  }

  /** No batch removes a row, or changes when it was first seen or its tags. */
  lemma RowsStay(env: Env, w: World, b: Batch, f: Fault, id: string)
    requires env.Injective() && '/' !in b.hostId && RowsAreWellKeyed(env, w.containers)
    ensures id in w.containers ==>
              var w' := Attempted(env, w, b, f);
              && id in w'.containers
              && w'.containers[id].createdAt == w.containers[id].createdAt
              && w'.containers[id].tags == w.containers[id].tags
  {
    hide Attempted;
    if id in w.containers {
      var row := w.containers[id];
      LastReportOf(PersistedReports(b, f), row.dockerId);
      AttemptedRow(env, w, b, f, row.hostId, row.dockerId);
    }
  }

  /** In particular a batch that goes through leaves none. */
  lemma IngestedKeepsMetricRows(env: Env, w: World, b: Batch, f: Fault)
    requires env.Injective() && '/' !in b.hostId && !Aborts(env, w, b, f)
    requires MetricsHaveRows(w) && RowsAreWellKeyed(env, w.containers)
    ensures MetricsHaveRows(Attempted(env, w, b, f))
  {
    hide Attempted;
    BatchKeepsMetricRows(env, w, b, f);
    forall x | x in StoredReadings(b, f) && x.metric.entityType == "container" && IsWritten(b, x)
      ensures HasRow(env, w, b, f, x.metric.entityId)
    {
      LastReportOf(PersistedReports(b, f), x.metric.entityId);
    }
  }

  /** A batch whose first row is refused leaves the metric of a container it discovers without
      a row. */
  lemma RefusedRowOrphans(env: Env, w: World, b: Batch, x: Reading)
    requires env.Injective() && '/' !in b.hostId && MetricsHaveRows(w) && RowsAreWellKeyed(env, w.containers)
    requires b.containers != [] && x in b.readings && x.metric.entityType == "container" && IsWritten(b, x)
    requires env.ContainerId(b.hostId, x.metric.entityId) !in w.containers
    ensures !MetricsHaveRows(Attempted(env, w, b, UpsertFails(0)))
  {
    hide Attempted;
    BatchKeepsMetricRows(env, w, b, UpsertFails(0));
    assert !HasRow(env, w, b, UpsertFails(0), x.metric.entityId);
  }

  ghost predicate HostsHaveNoSlash(w: World) {
    forall id :: id in w.hosts ==> '/' !in id
  }

  /** A world as it is before the first batch. */
  ghost predicate IsStart(w: World) {
    && w.containers == map[] && w.metrics == map[] && w.events == []
    && w.engine in {None, Some(map[])}
    && HostsHaveNoSlash(w)
  }

  lemma StepKeepsHosts(env: Env, w: World, op: Op)
    ensures Step(env, w, op).hosts.Keys == w.hosts.Keys
    ensures Step(env, w, op).engine.Some? == w.engine.Some?
    ensures !op.Telemetry? ==> Step(env, w, op).containers == w.containers && Step(env, w, op).metrics == w.metrics
  {
    hide Attempted;
    if op.Telemetry? && op.batch.hostId in w.hosts {
      AttemptedParts(env, w, op.batch, op.fault);
    }
  }

  /** Over every run, container rows sit under their own ID and hosts neither come nor go. */
  lemma {:induction false} RunKeepsRows(env: Env, w: World, ops: seq<Op>)
    requires env.Injective() && IsStart(w)
    ensures var w' := Run(env, w, ops);
            && w'.hosts.Keys == w.hosts.Keys && HostsHaveNoSlash(w') && w'.engine.Some? == w.engine.Some?
            && RowsAreWellKeyed(env, w'.containers)
  {
    if ops != [] {
      hide Step;
      var w1, op := Run(env, w, ops[..|ops| - 1]), ops[|ops| - 1];
      RunKeepsRows(env, w, ops[..|ops| - 1]);
      StepKeepsHosts(env, w1, op);
      StepKeepsKeys(env, w1, op);
    }
  }

  lemma StepKeepsKeys(env: Env, w: World, op: Op)
    requires HostsHaveNoSlash(w) && RowsAreWellKeyed(env, w.containers)
    ensures RowsAreWellKeyed(env, Step(env, w, op).containers)
  {
    hide Attempted;
    StepKeepsHosts(env, w, op);
    if op.Telemetry? && op.batch.hostId in w.hosts {
      KeysAfterBatch(env, w, op.batch, op.fault);
    }
  }

  /** Operation i is a batch that a refused write ends. */
  ghost predicate IsCutShort(env: Env, w: World, ops: seq<Op>, i: int) {
    && 0 <= i < |ops| && ops[i].Telemetry?
    && ops[i].batch.hostId in Run(env, w, ops[..i]).hosts
    && Aborts(env, Run(env, w, ops[..i]), ops[i].batch, ops[i].fault)
  }

  /** Over every run in which no batch is cut short, no container metric is without its row. */
  lemma {:induction false} NoOrphans(env: Env, w: World, ops: seq<Op>)
    requires env.Injective() && IsStart(w) && forall i :: !IsCutShort(env, w, ops, i)
    ensures MetricsHaveRows(Run(env, w, ops))
  {
    if ops != [] {
      hide Attempted, Aborts;
      var n := |ops| - 1;
      var w1, op := Run(env, w, ops[..n]), ops[n];
      forall i | 0 <= i < n
        ensures IsCutShort(env, w, ops[..n], i) <==> IsCutShort(env, w, ops, i)
      {
        assert ops[..n][..i] == ops[..i];
      }
      NoOrphans(env, w, ops[..n]);
      RunKeepsRows(env, w, ops[..n]);
      StepKeepsHosts(env, w1, op);
      if op.Telemetry? && op.batch.hostId in w1.hosts {
        assert !IsCutShort(env, w, ops, n);
        IngestedKeepsMetricRows(env, w1, op.batch, op.fault);
      }
    }
  }

  // ------------------------------------------------------------------- first sighting

  /** Once stored, a container keeps its creation time and tags through every operation. */
  lemma FirstSightingIsKept(env: Env, w: World, op: Op, id: string)
    requires env.Injective() && HostsHaveNoSlash(w) && RowsAreWellKeyed(env, w.containers)
    requires id in w.containers
    ensures var w' := Step(env, w, op);
            && id in w'.containers
            && w'.containers[id].createdAt == w.containers[id].createdAt
            && w'.containers[id].tags == w.containers[id].tags
  {
    hide Attempted;
    StepKeepsHosts(env, w, op);
    if op.Telemetry? && op.batch.hostId in w.hosts {
      RowsStay(env, w, op.batch, op.fault, id);
    }
  }

  // ---------------------------------------------------------------- restart detection

  /** The restart count in the last earlier batch of the host that wrote the container's row. */
  function LastCount(ops: seq<Op>, hostId: string, dockerId: string): Option<int> {
    if ops == [] then None
    else
      var op, earlier := ops[|ops| - 1], LastCount(ops[..|ops| - 1], hostId, dockerId);
      if op.Telemetry? && op.batch.hostId == hostId && LastReport(PersistedReports(op.batch, op.fault), dockerId).Some?
      then Some(LastReport(PersistedReports(op.batch, op.fault), dockerId).value.restartCount)
      else earlier
  }

  lemma {:induction false} StoredCountIsLastCount(env: Env, w: World, ops: seq<Op>, hostId: string, dockerId: string)
    requires env.Injective() && IsStart(w) && hostId in w.hosts
    ensures var row := Existing(Run(env, w, ops).containers, env.ContainerId(hostId, dockerId));
            (if row.Some? then Some(row.value.restartCount) else None) == LastCount(ops, hostId, dockerId)
  {
    if ops != [] {
      hide Attempted, LastReport, PersistedReports, Env.Injective;
      var w1, op := Run(env, w, ops[..|ops| - 1]), ops[|ops| - 1];
      StoredCountIsLastCount(env, w, ops[..|ops| - 1], hostId, dockerId);
      RunKeepsRows(env, w, ops[..|ops| - 1]);
      StepKeepsHosts(env, w1, op);
      if op.Telemetry? && op.batch.hostId in w1.hosts {
        AttemptedRow(env, w1, op.batch, op.fault, hostId, dockerId);
      }
    }
  }

  /** The number of restart events logged for a container. */
  function RestartEvents(events: seq<Event>, id: string): nat {
    if events == [] then 0
    else
      var ev := events[|events| - 1];
      RestartEvents(events[..|events| - 1], id)
      + if ev.typ == "monitoring.container_restarted" && ev.containerId == Some(id) then 1 else 0
  }

  lemma LoggedRestarts(events: seq<Event>, hostId: string, kind: EntityKind, i: string, reason: Option<Reason>, at: int, id: string)
    ensures RestartEvents(Logged(events, hostId, kind, i, reason, at), id)
         == RestartEvents(events, id) + if reason == Some(ContainerRestarted) && kind == Container && i == id then 1 else 0
  {
    if reason.Some? {
      var ev := TransitionRow(hostId, i, TransitionEvent(kind, i, Entered(reason.value), reason.value, at));
      assert (events + [ev])[..|events|] == events;
      TransitionTyp(reason.value);
    }
  }

  lemma HealthStepFor(env: Env, w: World, hostId: string, r: Report, id: string)
    requires w.engine.Some?
    ensures var w' := HealthStep(env, w, hostId, r);
            if env.ContainerId(hostId, r.dockerId) == id then
              RestartEvents(w'.events, id)
           == RestartEvents(w.events, id) + if HealthOutcome(env, w, hostId, r).reason == Some(ContainerRestarted) then 1 else 0
            else
              && RestartEvents(w'.events, id) == RestartEvents(w.events, id)
              && EngineState(w', Container, id) == EngineState(w, Container, id)
  {
    hide OnHealth;
    var i, o := env.ContainerId(hostId, r.dockerId), HealthOutcome(env, w, hostId, r);
    LoggedRestarts(w.events, hostId, Container, i, o.reason, r.evaluatedAt, id);
    StateAfter(w.engine.value, Container, i, o.state, Container, id);
  }

  ghost predicate NoDuplicates(rs: seq<Report>) {
    forall i, j :: 0 <= i < j < |rs| ==> rs[i].dockerId != rs[j].dockerId
  }

  /** Health reports of other containers neither touch a container nor log restarts for it. */
  lemma {:induction false} HealthOfOthers(env: Env, w: World, hostId: string, rs: seq<Report>, dockerId: string)
    requires env.Injective() && '/' !in hostId && w.engine.Some?
    requires forall i :: 0 <= i < |rs| ==> rs[i].dockerId != dockerId
    ensures var w', id := HealthSteps(env, w, hostId, rs), env.ContainerId(hostId, dockerId);
            && RestartEvents(w'.events, id) == RestartEvents(w.events, id)
            && EngineState(w', Container, id) == EngineState(w, Container, id)
  {
    if rs != [] {
      var n := |rs| - 1;
      var w1, id := HealthSteps(env, w, hostId, rs[..n]), env.ContainerId(hostId, dockerId);
      assert forall i :: 0 <= i < n ==> rs[..n][i] == rs[i];
      HealthOfOthers(env, w, hostId, rs[..n], dockerId);
      HealthKeepsRows(env, w, hostId, rs[..n]);
      if env.ContainerId(hostId, rs[n].dockerId) == id {
        IdsAreDistinct(env, hostId, rs[n].dockerId, hostId, dockerId);
      }
      HealthStepFor(env, w1, hostId, rs[n], id);
    }
  }

  lemma {:induction false} HealthOfReported(env: Env, w: World, hostId: string, rs: seq<Report>, k: int)
    requires env.Injective() && '/' !in hostId && w.engine.Some?
    requires NoDuplicates(rs) && 0 <= k < |rs|
    ensures var w', id := HealthSteps(env, w, hostId, rs), env.ContainerId(hostId, rs[k].dockerId);
            (RestartEvents(w'.events, id)
             == RestartEvents(w.events, id) + if HealthOutcome(env, w, hostId, rs[k]).reason == Some(ContainerRestarted) then 1 else 0)
  {
    hide OnHealth, HealthStep;
    var n := |rs| - 1;
    var w1, id := HealthSteps(env, w, hostId, rs[..n]), env.ContainerId(hostId, rs[k].dockerId);
    assert forall i :: 0 <= i < n ==> rs[..n][i] == rs[i];
    HealthKeepsRows(env, w, hostId, rs[..n]);
    HealthStepFor(env, w1, hostId, rs[n], id);
    if k == n {
      HealthOfOthers(env, w, hostId, rs[..n], rs[k].dockerId);
    } else {
      HealthOfReported(env, w, hostId, rs[..n], k);
      if env.ContainerId(hostId, rs[n].dockerId) == id {
        IdsAreDistinct(env, hostId, rs[n].dockerId, hostId, rs[k].dockerId);
      }
    }
  }

  lemma {:induction false} ReadingsLogNoRestarts(env: Env, w: World, hostId: string, reported: set<string>, xs: seq<Reading>, id: string)
    ensures RestartEvents(MetricSteps(env, w, hostId, reported, xs).events, id) == RestartEvents(w.events, id)
  {
    hide OnMetric;
    if xs != [] {
      var w1, x := MetricSteps(env, w, hostId, reported, xs[..|xs| - 1]), xs[|xs| - 1];
      ReadingsLogNoRestarts(env, w, hostId, reported, xs[..|xs| - 1], id);
      if x.metric.entityType == "host" {
        EvaluationLogsNoRestart(env, w1, hostId, Host, hostId, x, id);
      } else if x.metric.entityType == "container" {
        EvaluationLogsNoRestart(env, w1, hostId, Container, env.ContainerId(hostId, x.metric.entityId), x, id);
      }
    }
  }

  lemma EvaluationLogsNoRestart(env: Env, w: World, hostId: string, kind: EntityKind, i: string, x: Reading, id: string)
    ensures RestartEvents(EvaluatedStep(env, w, hostId, kind, i, x).events, id) == RestartEvents(w.events, id)
  {
    hide OnMetric;
    var st := EngineState(w, kind, i);
    MetricIsCoherent(env.cfg, st, x.metric, x.evaluatedAt);
    LoggedRestarts(w.events, hostId, kind, i, OnMetric(env.cfg, st, x.metric, x.evaluatedAt).reason, x.evaluatedAt, id);
  }

  /** After any run, a batch without duplicate Docker IDs logs a restart for a container
      exactly if its count is above the one in the last earlier batch that wrote its row and
      it is neither critical already, nor exited, nor unhealthy. In particular there is none
      on first sighting. Whether a write of this batch is refused makes no difference. */
  lemma RestartIsReportedExactly(env: Env, w: World, ops: seq<Op>, b: Batch, f: Fault, k: int)
    requires env.Injective() && IsStart(w) && w.engine.Some? && b.hostId in w.hosts
    requires NoDuplicates(b.containers) && 0 <= k < |b.containers|
    ensures var w1, r := Run(env, w, ops), b.containers[k];
            var id, last := env.ContainerId(b.hostId, r.dockerId), LastCount(ops, b.hostId, r.dockerId);
            (RestartEvents(Step(env, w1, Telemetry(b, f)).events, id)
             == RestartEvents(w1.events, id)
             + if && !EngineState(w1, Container, id).critical
                  && r.status != Exited && r.health != Unhealthy
                  && last.Some? && r.restartCount > last.value
               then 1 else 0)
  {
    hide Attempted, HealthSteps, MetricSteps, EvaluatedReadings;
    var w1, r := Run(env, w, ops), b.containers[k];
    var id := env.ContainerId(b.hostId, r.dockerId);
    RunKeepsRows(env, w, ops);
    StoredCountIsLastCount(env, w, ops, b.hostId, r.dockerId);
    HealthOfReported(env, w1, b.hostId, b.containers, k);
    var w2 := HealthSteps(env, w1, b.hostId, b.containers);
    ReadingsLogNoRestarts(env, w2, b.hostId, DockerIds(b.containers), EvaluatedReadings(b, f), id);
    AttemptedParts(env, w1, b, f);
  }
}
