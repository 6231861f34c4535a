/** Host records over whole runs: which enrollment tokens are accepted, what an accepted one
    leaves, and what heartbeats leave. */
module Enrollment {
  import opened Options
  import opened Monitoring
  import opened Ingestion
  import opened IngestionRuns
  import opened IngestionRows

  datatype Token = Token(text: string, issuedAt: int)

  /** Operation j is an enrollment of the host that goes through. */
  predicate Enrolls(env: Env, w: World, ops: seq<Op>, j: int, hostId: string) {
    && 0 <= j < |ops|
    && ops[j].EnrollAgent? && ops[j].hostId == hostId && ops[j].cert.Some?
    && hostId in Run(env, w, ops[..j]).hosts
    && Accepts(env, Run(env, w, ops[..j]).hosts[hostId], ops[j].token, ops[j].now)
  }

  predicate Issues(ops: seq<Op>, i: int, hostId: string) {
    0 <= i < |ops| && ops[i].IssueToken? && ops[i].hostId == hostId
  }

  /** The token issued for the host at i has been neither replaced nor used up since. */
  ghost predicate IsCurrent(env: Env, w: World, ops: seq<Op>, i: int, hostId: string) {
    && Issues(ops, i, hostId)
    && forall j :: i < j < |ops| ==> !Issues(ops, j, hostId) && !Enrolls(env, w, ops, j, hostId)
  }

  /** The host record holds the hash of the current token, or none. */
  ghost predicate Holds(env: Env, h: HostRow, t: Option<Token>) {
    match t
    case None => h.tokenHash == ""
    case Some(t) => h.tokenHash == env.hash(t.text) && h.tokenIssuedAt == Some(t.issuedAt) && !h.agentEnrolled
  }

  lemma EnrollsInPrefix(env: Env, w: World, ops: seq<Op>, n: int, j: int, hostId: string)
    requires 0 <= j < n <= |ops|
    ensures Enrolls(env, w, ops[..n], j, hostId) <==> Enrolls(env, w, ops, j, hostId)
    ensures Issues(ops[..n], j, hostId) <==> Issues(ops, j, hostId)
  {
    assert ops[..n][..j] == ops[..j];
  }

  lemma CurrentInPrefix(env: Env, w: World, ops: seq<Op>, i: int, hostId: string)
    requires ops != [] && 0 <= i < |ops| - 1
    requires !Issues(ops, |ops| - 1, hostId) && !Enrolls(env, w, ops, |ops| - 1, hostId)
    ensures IsCurrent(env, w, ops[..|ops| - 1], i, hostId) <==> IsCurrent(env, w, ops, i, hostId)
  {
    var n := |ops| - 1;
    forall j | i <= j < n
      ensures Enrolls(env, w, ops[..n], j, hostId) <==> Enrolls(env, w, ops, j, hostId)
      ensures Issues(ops[..n], j, hostId) <==> Issues(ops, j, hostId)
    {
      EnrollsInPrefix(env, w, ops, n, j, hostId);
    }
  }

  lemma BatchKeepsHostTokens(env: Env, w: World, op: Op, hostId: string)
    requires hostId in w.hosts && op.Telemetry?
    ensures hostId in Step(env, w, op).hosts
    ensures var h, h' := w.hosts[hostId], Step(env, w, op).hosts[hostId];
            h'.tokenHash == h.tokenHash && h'.tokenIssuedAt == h.tokenIssuedAt && h'.agentEnrolled == h.agentEnrolled
  {
    hide Attempted;
    if op.batch.hostId in w.hosts {
      AttemptedParts(env, w, op.batch, op.fault);
    }
  }

  /** The operation that made the record what it is. */
  lemma {:induction false} RecordIsCurrentToken(env: Env, w: World, ops: seq<Op>, hostId: string) returns (i: int)
    requires hostId in w.hosts && w.hosts[hostId].tokenHash == "" && env.Injective()
    ensures hostId in Run(env, w, ops).hosts
    ensures i == -1 || IsCurrent(env, w, ops, i, hostId)
    ensures i == -1 ==> forall k :: !IsCurrent(env, w, ops, k, hostId)
    ensures Holds(env, Run(env, w, ops).hosts[hostId],
                  if i == -1 then None else Some(Token(ops[i].token, ops[i].now)))
  {
    if ops == [] {
      i := -1;
    } else {
      var n := |ops| - 1;
      var w1, op := Run(env, w, ops[..n]), ops[n];
      i := RecordIsCurrentToken(env, w, ops[..n], hostId);
      StepKeepsHosts(env, w1, op);
      if Issues(ops, n, hostId) {
        i := n;
      } else if Enrolls(env, w, ops, n, hostId) {
        i := -1;
        assert forall k :: 0 <= k < n ==> !IsCurrent(env, w, ops, k, hostId);
      } else {
        KeepsToken(env, w1, op, hostId);
        forall k | 0 <= k < n
          ensures IsCurrent(env, w, ops[..n], k, hostId) <==> IsCurrent(env, w, ops, k, hostId)
        {
          CurrentInPrefix(env, w, ops, k, hostId);
        }
        assert i != -1 ==> ops[..n][i] == ops[i];
      }
    }
  }

  lemma KeepsToken(env: Env, w: World, op: Op, hostId: string)
    requires hostId in w.hosts
    requires !(op.IssueToken? && op.hostId == hostId)
    requires !(op.EnrollAgent? && op.hostId == hostId && op.cert.Some? && Accepts(env, w.hosts[hostId], op.token, op.now))
    ensures hostId in Step(env, w, op).hosts
    ensures var h, h' := w.hosts[hostId], Step(env, w, op).hosts[hostId];
            h'.tokenHash == h.tokenHash && h'.tokenIssuedAt == h.tokenIssuedAt && h'.agentEnrolled == h.agentEnrolled
  {
    if op.Telemetry? {
      BatchKeepsHostTokens(env, w, op, hostId);
    }
  }

  /** An enrollment is accepted exactly if the token is the host's latest one, was issued no
      more than 15 minutes ago and no enrollment has gone through since. */
  lemma AcceptedExactly(env: Env, w: World, ops: seq<Op>, hostId: string, token: string, now: int)
    requires hostId in w.hosts && w.hosts[hostId].tokenHash == "" && env.Injective()
    ensures hostId in Run(env, w, ops).hosts
    ensures Accepts(env, Run(env, w, ops).hosts[hostId], token, now)
       <==> exists i :: && IsCurrent(env, w, ops, i, hostId)
                        && ops[i].token == token
                        && now - ops[i].now <= 15 * 60 * 1_000_000_000
  {
    var i := RecordIsCurrentToken(env, w, ops, hostId);
    if k :| IsCurrent(env, w, ops, k, hostId) {
      assert !(k < i < |ops|) || !Issues(ops, i, hostId);
      assert !(i < k < |ops|) || i == -1 || !Issues(ops, k, hostId);
      assert i == k;
    }
  }

  // ------------------------------------------------------- the record after enrollment

  ghost predicate Beats(ops: seq<Op>, k: int, hostId: string) {
    0 <= k < |ops| && ops[k].Heartbeat? && ops[k].hostId == hostId
  }

  /** The enrollment at j is the last word on the host's token. */
  ghost predicate Stands(env: Env, w: World, ops: seq<Op>, j: int, hostId: string) {
    Enrolls(env, w, ops, j, hostId) && forall k :: j < k < |ops| ==> !Issues(ops, k, hostId)
  }

  lemma StandsInPrefix(env: Env, w: World, ops: seq<Op>, j: int, hostId: string)
    requires ops != [] && 0 <= j < |ops| - 1
    ensures Stands(env, w, ops, j, hostId)
       <==> Stands(env, w, ops[..|ops| - 1], j, hostId) && !Issues(ops, |ops| - 1, hostId)
  {
    var n := |ops| - 1;
    EnrollsInPrefix(env, w, ops, n, j, hostId);
    forall k | 0 <= k < n
      ensures Issues(ops[..n], k, hostId) <==> Issues(ops, k, hostId)
    {
    }
  }

  lemma BatchKeepsHost(env: Env, w: World, op: Op, hostId: string)
    requires hostId in w.hosts && op.Telemetry?
    ensures hostId in Step(env, w, op).hosts
    ensures var h := w.hosts[hostId];
            exists mode :: Step(env, w, op).hosts[hostId] == h.(mode := mode)
  {
    hide Attempted;
    var h := w.hosts[hostId];
    assert h == h.(mode := h.mode);
    if op.batch.hostId in w.hosts {
      AttemptedParts(env, w, op.batch, op.fault);
    }
  }

  /** What one operation does to a host's record. */
  lemma HostAfter(env: Env, w: World, op: Op, hostId: string)
    requires hostId in w.hosts
    ensures hostId in Step(env, w, op).hosts
    ensures var h, h' := w.hosts[hostId], Step(env, w, op).hosts[hostId];
            match op
            case Telemetry(_, _) => exists mode :: h' == h.(mode := mode)
            case Viewer(_, _, _) => h' == h
            case Heartbeat(id, version, os, now) =>
              h' == if id != hostId then h
                    else h.(lastHeartbeat := Some(now), connection := Online,
                            dockerVersion := if version != "" then version else h.dockerVersion,
                            osInfo := if os != "" then os else h.osInfo)
            case IssueToken(id, token, now) =>
              h' == if id != hostId then h
                    else h.(tokenHash := env.hash(token), tokenIssuedAt := Some(now), agentEnrolled := false)
            case EnrollAgent(id, token, cert, now) =>
              h' == if id != hostId || !Accepts(env, h, token, now) || cert.None? then h
                    else h.(agentEnrolled := true, tokenHash := "", certFingerprint := env.hash(cert.value),
                            connection := UnknownConnection)
  {
    hide Attempted, Accepts;
    if op.Telemetry? {
      BatchKeepsHost(env, w, op, hostId);
    }
  }

  /** After an accepted enrollment, and until a token is issued again, the host's record shows
      its agent enrolled, the token burnt and the certificate's fingerprint; and it is online
      exactly if it has sent a heartbeat since. */
  lemma {:induction false} EnrolledRecord(env: Env, w: World, ops: seq<Op>, j: int, hostId: string)
    requires hostId in w.hosts && Stands(env, w, ops, j, hostId)
    ensures hostId in Run(env, w, ops).hosts
    ensures var h := Run(env, w, ops).hosts[hostId];
            && h.agentEnrolled && h.tokenHash == "" && h.certFingerprint == env.hash(ops[j].cert.value)
            && h.connection == if exists k :: j < k < |ops| && Beats(ops, k, hostId) then Online else UnknownConnection
  {
    hide Step;
    var n := |ops| - 1;
    if j < n {
      StandsInPrefix(env, w, ops, j, hostId);
      EnrolledRecord(env, w, ops[..n], j, hostId);
      forall k | 0 <= k < n
        ensures Beats(ops[..n], k, hostId) <==> Beats(ops, k, hostId)
      {
      }
      if Beats(ops, n, hostId) {
        assert j < n < |ops|;
      }
    }
    HostAfter(env, Run(env, w, ops[..n]), ops[n], hostId);
  }

  /** From a host never enrolled, its record shows an enrolled agent exactly if some accepted
      enrollment stands. */
  lemma {:induction false} EnrolledExactly(env: Env, w: World, ops: seq<Op>, hostId: string)
    requires hostId in w.hosts && !w.hosts[hostId].agentEnrolled
    ensures hostId in Run(env, w, ops).hosts
    ensures Run(env, w, ops).hosts[hostId].agentEnrolled <==> exists j :: Stands(env, w, ops, j, hostId)
  {
    hide Step;
    if ops != [] {
      var n := |ops| - 1;
      var w1, op := Run(env, w, ops[..n]), ops[n];
      EnrolledExactly(env, w, ops[..n], hostId);
      HostAfter(env, w1, op, hostId);
      forall j | 0 <= j < n
        ensures Stands(env, w, ops, j, hostId) <==> Stands(env, w, ops[..n], j, hostId) && !Issues(ops, n, hostId)
      {
        StandsInPrefix(env, w, ops, j, hostId);
      }
      assert Stands(env, w, ops, n, hostId) <==> Enrolls(env, w, ops, n, hostId);
      if j :| Stands(env, w, ops[..n], j, hostId) && !Issues(ops, n, hostId) {
        assert Stands(env, w, ops, j, hostId);
      }
    }
  }

  // ------------------------------------------------------------------------ heartbeats

  /** The time of the host's last heartbeat. */
  function LastBeat(ops: seq<Op>, hostId: string): Option<int> {
    if ops == [] then None
    else
      var op := ops[|ops| - 1];
      if op.Heartbeat? && op.hostId == hostId then Some(op.now) else LastBeat(ops[..|ops| - 1], hostId)
  }

  /** The last Docker version, or operating system, that a heartbeat of the host did not leave blank. */
  function LastSaid(ops: seq<Op>, hostId: string, version: bool): string {
    if ops == [] then ""
    else
      var op, earlier := ops[|ops| - 1], LastSaid(ops[..|ops| - 1], hostId, version);
      if op.Heartbeat? && op.hostId == hostId && (if version then op.dockerVersion else op.osInfo) != ""
      then if version then op.dockerVersion else op.osInfo
      else earlier
  }

  /** Over every run a host's record shows its last heartbeat and what its heartbeats last said,
      and keeps its name. */
  lemma {:induction false} HeartbeatsAreKept(env: Env, w: World, ops: seq<Op>, hostId: string)
    requires hostId in w.hosts
    ensures hostId in Run(env, w, ops).hosts
    ensures var h, first := Run(env, w, ops).hosts[hostId], w.hosts[hostId];
            && h.name == first.name
            && h.lastHeartbeat == (if LastBeat(ops, hostId).Some? then LastBeat(ops, hostId) else first.lastHeartbeat)
            && h.dockerVersion == (if LastSaid(ops, hostId, true) != "" then LastSaid(ops, hostId, true) else first.dockerVersion)
            && h.osInfo == (if LastSaid(ops, hostId, false) != "" then LastSaid(ops, hostId, false) else first.osInfo)
  {
    if ops != [] {
      hide Step, Accepts;
      HeartbeatsAreKept(env, w, ops[..|ops| - 1], hostId);
      HostAfter(env, Run(env, w, ops[..|ops| - 1]), ops[|ops| - 1], hostId);
    }
  }

  // -------------------------------------------------------------------------- tokens

  /** Tokens are drawn afresh each time. */
  ghost predicate TokensAreDistinct(ops: seq<Op>) {
    forall i, j :: 0 <= i < j < |ops| && ops[i].IssueToken? && ops[j].IssueToken? ==> ops[i].token != ops[j].token
  }

  /** No token enrolls an agent twice. */
  lemma TokenWorksOnce(env: Env, w: World, ops: seq<Op>, hostId: string, i: int, j: int)
    requires hostId in w.hosts && w.hosts[hostId].tokenHash == "" && env.Injective()
    requires TokensAreDistinct(ops)
    requires 0 <= i < j < |ops| && Enrolls(env, w, ops, i, hostId) && Enrolls(env, w, ops, j, hostId)
    ensures ops[i].token != ops[j].token
  {
    AcceptedExactly(env, w, ops[..i], hostId, ops[i].token, ops[i].now);
    AcceptedExactly(env, w, ops[..j], hostId, ops[j].token, ops[j].now);
    var a :| IsCurrent(env, w, ops[..i], a, hostId) && ops[..i][a].token == ops[i].token;
    var b :| IsCurrent(env, w, ops[..j], b, hostId) && ops[..j][b].token == ops[j].token;
    EnrollsInPrefix(env, w, ops, j, i, hostId);
    assert a < i && ops[a].token == ops[i].token && ops[b].token == ops[j].token;
    assert i <= b;
  }
}
