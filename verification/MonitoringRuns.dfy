/** Runs of the monitoring engine: exactly when an entity recovers, how often it can
    flap, and how criticality, viewers and entities stay out of each other's way. */
module MonitoringRuns {
  import opened Options
  import opened Monitoring

  /** One call made for one entity. */
  datatype Input =
    | Sample(metric: Metric, now: int)
    | Health(status: ContainerStatus, health: HealthStatus, restarts: int, previous: int, now: int)
    | Open
    | Close
  {
    predicate IsTimed() {
      Sample? || Health?
    }

    predicate IsViewer() {
      Open? || Close?
    }
  }

  function Next(cfg: Thresholds, st: EntityState, x: Input): Outcome {
    match x
    case Sample(m, now) => OnMetric(cfg, st, m, now)
    case Health(s, h, r, p, _) => OnHealth(st, s, h, r, p)
    case Open => Outcome(Opened(st), None)
    case Close => Outcome(Closed(st), None)
  }

  type Run = seq<Input>

  /** The state of an entity after a run of calls. */
  function After(cfg: Thresholds, h: Run): EntityState {
    if h == [] then INITIAL else Next(cfg, After(cfg, h[..|h| - 1]), h[|h| - 1]).state
  }

  /** The reasons of the transitions made along a run. */
  function Transitions(cfg: Thresholds, h: Run): seq<Reason> {
    if h == [] then []
    else
      var r := Next(cfg, After(cfg, h[..|h| - 1]), h[|h| - 1]).reason;
      Transitions(cfg, h[..|h| - 1]) + if r.Some? then [r.value] else []
  }

  lemma AfterAppend(cfg: Thresholds, h: Run, x: Input)
    ensures After(cfg, h + [x]) == Next(cfg, After(cfg, h), x).state
  {
    assert (h + [x])[..|h|] == h;
  }

  ghost predicate ClockNeverGoesBack(h: Run) {
    forall i, j :: 0 <= i < j < |h| && h[i].IsTimed() && h[j].IsTimed() ==> h[i].now <= h[j].now
  }

  // ------------------------------------------------------------------ hysteresis

  /** The number of metric samples at or after position j. */
  function SamplesFrom(h: Run, j: nat): nat {
    if |h| <= j then 0
    else SamplesFrom(h[..|h| - 1], j) + if h[|h| - 1].Sample? then 1 else 0
  }

  /** From just before position j on the entity has been critical without
      interruption and every metric sample has been clean. */
  ghost predicate QuietSince(cfg: Thresholds, h: Run, j: int) {
    && 0 <= j <= |h|
    && (forall i :: j <= i <= |h| ==> After(cfg, h[..i]).critical)
    && (forall i :: j <= i < |h| && h[i].Sample? ==> IsClean(cfg, h[i].metric))
  }

  lemma QuietAppend(cfg: Thresholds, h: Run, x: Input, j: int)
    requires QuietSince(cfg, h, j)
    requires After(cfg, h + [x]).critical
    requires x.Sample? ==> IsClean(cfg, x.metric)
    ensures QuietSince(cfg, h + [x], j)
  {
    var h' := h + [x];
    forall i | j <= i <= |h'|
      ensures After(cfg, h'[..i]).critical
    {
      if i <= |h| {
        assert h'[..i] == h[..i];
      } else {
        assert h'[..i] == h';
      }
    }
  }

  lemma QuietPrefix(cfg: Thresholds, h: Run, x: Input, j: int)
    requires QuietSince(cfg, h + [x], j) && j <= |h|
    ensures QuietSince(cfg, h, j)
    ensures After(cfg, h).critical
  {
    var h' := h + [x];
    forall i | j <= i <= |h|
      ensures After(cfg, h[..i]).critical
    {
      assert h'[..i] == h[..i];
    }
    forall i | j <= i < |h| && h[i].Sample?
      ensures IsClean(cfg, h[i].metric)
    {
      assert h'[i] == h[i];
    }
    assert h[..|h|] == h;
  }

  lemma SamplesFromAppend(h: Run, x: Input, j: nat)
    requires j <= |h|
    ensures SamplesFrom(h + [x], j) == SamplesFrom(h, j) + if x.Sample? then 1 else 0
  {
    assert (h + [x])[..|h|] == h;
  }

  lemma {:induction false} NoStreakUnlessCritical(cfg: Thresholds, h: Run)
    ensures !After(cfg, h).critical ==> After(cfg, h).streak == 0
  {
    if h != [] {
      NoStreakUnlessCritical(cfg, h[..|h| - 1]);
    }
  }

  /** What one input does to criticality and the streak. */
  lemma StreakNext(cfg: Thresholds, st: EntityState, x: Input)
    requires !st.critical ==> st.streak == 0
    ensures var st' := Next(cfg, st, x).state;
            && (!st'.critical ==> st'.streak == 0)
            && (!x.Sample? ==> st'.streak == st.streak && st'.streakStart == st.streakStart && (st.critical ==> st'.critical))
            && (x.Sample? && !st.critical ==> st'.streak == 0)
            && (x.Sample? && st.critical && !IsClean(cfg, x.metric) ==> st'.critical && st'.streak == 0)
            && (x.Sample? && st.critical && IsClean(cfg, x.metric) ==>
                  var start := if st.streak == 0 then x.now else st.streakStart;
                  if st.streak + 1 >= cfg.minSamples && x.now - start >= cfg.window then !st'.critical
                  else st'.critical && st'.streak == st.streak + 1 && st'.streakStart == start)
  {
    if x.Sample? {
      CleanExactly(cfg, x.metric);
    }
    hide MemPercent, MemAtLeast;
  }

  /** The engine's streak counters describe a stretch of clean samples. */
  lemma {:induction false} StreakIsQuiet(cfg: Thresholds, h: Run) returns (j: int)
    requires After(cfg, h).streak > 0
    ensures QuietSince(cfg, h, j) && j < |h| && h[j].Sample?
    ensures h[j].now == After(cfg, h).streakStart && SamplesFrom(h, j) == After(cfg, h).streak
  {
    var n := |h| - 1;
    var p, x := h[..n], h[n];
    assert h == p + [x];
    NoStreakUnlessCritical(cfg, p);
    StreakNext(cfg, After(cfg, p), x);
    hide Next, IsClean;
    if After(cfg, p).streak > 0 {
      j := StreakIsQuiet(cfg, p);
      QuietAppend(cfg, p, x, j);
      SamplesFromAppend(p, x, j);
    } else {
      j := n;
      SamplesFromAppend(p, x, j);
      assert QuietSince(cfg, h, n) by {
        assert h[..n] == p && h[..n + 1] == h;
      }
    }
  }

  /** No stretch of clean samples is longer than the engine's streak, or older. */
  lemma {:induction false} QuietIsStreak(cfg: Thresholds, h: Run, j: int)
    requires ClockNeverGoesBack(h) && QuietSince(cfg, h, j)
    ensures After(cfg, h).streak >= SamplesFrom(h, j)
    ensures j < |h| && h[j].Sample? ==> After(cfg, h).streak > 0 && After(cfg, h).streakStart <= h[j].now
  {
    if j < |h| {
      var n := |h| - 1;
      var p, x := h[..n], h[n];
      assert h == p + [x];
      QuietPrefix(cfg, p, x, j);
      SamplesFromAppend(p, x, j);
      NoStreakUnlessCritical(cfg, p);
      StreakNext(cfg, After(cfg, p), x);
      hide Next, IsClean;
      assert forall i :: 0 <= i < n ==> p[i] == h[i];
      QuietIsStreak(cfg, p, j);
      assert h[..|h|] == h;
      if j == n && After(cfg, p).streak > 0 {
        var k := StreakIsQuiet(cfg, p);
        assert x.Sample? ==> h[k].now <= h[n].now;
      }
    }
  }

  /** An entity leaves CRITICAL exactly at a metric sample that completes a stretch of
      clean samples, begun at a sample while it was already critical and not interrupted
      since, which has the required number of samples and spans the required time. */
  lemma RecoversExactly(cfg: Thresholds, h: Run, m: Metric, now: int)
    requires ClockNeverGoesBack(h + [Sample(m, now)])
    ensures var h' := h + [Sample(m, now)];
            (After(cfg, h).critical && !After(cfg, h').critical
             <==>
             && IsClean(cfg, m)
             && exists j :: && QuietSince(cfg, h, j)
                            && h'[j].Sample?
                            && SamplesFrom(h', j) >= cfg.minSamples
                            && now - h'[j].now >= cfg.window)
  {
    var x := Sample(m, now);
    var h' := h + [x];
    var st := After(cfg, h);
    AfterAppend(cfg, h, x);
    assert forall i :: 0 <= i < |h| ==> h'[i] == h[i];
    assert ClockNeverGoesBack(h);
    if st.critical && !After(cfg, h').critical {
      RecoveryNeedsStretch(cfg, h, m, now);
    }
    if j :| IsClean(cfg, m) && QuietSince(cfg, h, j) && h'[j].Sample?
            && SamplesFrom(h', j) >= cfg.minSamples && now - h'[j].now >= cfg.window
    {
      StretchForcesRecovery(cfg, h, m, now, j);
    }
  }

  lemma RecoveryNeedsStretch(cfg: Thresholds, h: Run, m: Metric, now: int)
    requires After(cfg, h).critical && !After(cfg, h + [Sample(m, now)]).critical
    ensures IsClean(cfg, m)
    ensures var h' := h + [Sample(m, now)];
            exists j :: && QuietSince(cfg, h, j)
                        && h'[j].Sample?
                        && SamplesFrom(h', j) >= cfg.minSamples
                        && now - h'[j].now >= cfg.window
  {
    var x := Sample(m, now);
    var h' := h + [x];
    AfterAppend(cfg, h, x);
    CleanExactly(cfg, m);
    hide MemPercent, MemAtLeast;
    var j := |h|;
    if After(cfg, h).streak > 0 {
      j := StreakIsQuiet(cfg, h);
      assert h'[j] == h[j];
    } else {
      assert h[..|h|] == h;
    }
    SamplesFromAppend(h, x, j);
    assert QuietSince(cfg, h, j) && h'[j].Sample?;
  }

  lemma StretchForcesRecovery(cfg: Thresholds, h: Run, m: Metric, now: int, j: int)
    requires ClockNeverGoesBack(h + [Sample(m, now)])
    requires IsClean(cfg, m) && QuietSince(cfg, h, j)
    requires var h' := h + [Sample(m, now)];
             h'[j].Sample? && SamplesFrom(h', j) >= cfg.minSamples && now - h'[j].now >= cfg.window
    ensures After(cfg, h).critical && !After(cfg, h + [Sample(m, now)]).critical
  {
    var x := Sample(m, now);
    var h' := h + [x];
    AfterAppend(cfg, h, x);
    CleanExactly(cfg, m);
    hide MemPercent, MemAtLeast;
    SamplesFromAppend(h, x, j);
    assert forall i :: 0 <= i < |h| ==> h'[i] == h[i];
    assert ClockNeverGoesBack(h);
    assert h[..|h|] == h;
    QuietIsStreak(cfg, h, j);
    if After(cfg, h).streak > 0 {
      var k := StreakIsQuiet(cfg, h);
      assert h'[k].now <= h'[|h|].now;
    }
  }

  /** An entity enters CRITICAL exactly at a sample over a critical threshold or at a
      report of a crash, bad health or a new restart, whatever came before. */
  lemma EntersExactly(cfg: Thresholds, h: Run, x: Input)
    requires !After(cfg, h).critical
    ensures After(cfg, h + [x]).critical <==>
            match x
            case Sample(m, _) => m.cpu >= cfg.cpuCritical || MemAtLeast(m, cfg.memCritical)
            case Health(s, hl, r, p, _) => s == Exited || hl == Unhealthy || r > p
            case _ => false
  {
    AfterAppend(cfg, h, x);
    if x.Sample? {
      MemPercentExactly(x.metric, cfg.memCritical);
    }
  }

  // ------------------------------------------------------------------- flap bound

  function Recoveries(cfg: Thresholds, h: Run): nat {
    Count(Transitions(cfg, h), true)
  }

  function Entries(cfg: Thresholds, h: Run): nat {
    Count(Transitions(cfg, h), false)
  }

  function Count(rs: seq<Reason>, recovered: bool): nat {
    if rs == [] then 0
    else Count(rs[..|rs| - 1], recovered) + if (rs[|rs| - 1] == Recovered) == recovered then 1 else 0
  }

  lemma CountAppend(rs: seq<Reason>, r: Reason, recovered: bool)
    ensures Count(rs + [r], recovered) == Count(rs, recovered) + if (r == Recovered) == recovered then 1 else 0
  {
    assert (rs + [r])[..|rs|] == rs;
  }

  /** Along every run, entries into CRITICAL and recoveries alternate, entries first. */
  lemma {:induction false} EntriesAndRecoveriesAlternate(cfg: Thresholds, h: Run)
    ensures Entries(cfg, h) == Recoveries(cfg, h) + if After(cfg, h).critical then 1 else 0
  {
    if h != [] {
      var p, x := h[..|h| - 1], h[|h| - 1];
      EntriesAndRecoveriesAlternate(cfg, p);
      var r := Next(cfg, After(cfg, p), x).reason;
      if r.Some? {
        CountAppend(Transitions(cfg, p), r.value, true);
        CountAppend(Transitions(cfg, p), r.value, false);
      } else {
        assert Transitions(cfg, h) == Transitions(cfg, p);
      }
    }
  }

  ghost predicate Within(h: Run, t0: int, t1: int) {
    forall i :: 0 <= i < |h| && h[i].IsTimed() ==> t0 <= h[i].now <= t1
  }

  /** k recoveries take at least k windows of time and k times the required samples. */
  lemma {:induction false} FlapBound(cfg: Thresholds, h: Run, t0: int, t1: int)
    requires ClockNeverGoesBack(h) && Within(h, t0, t1) && t0 <= t1
    ensures Recoveries(cfg, h) * cfg.minSamples + After(cfg, h).streak <= SamplesFrom(h, 0)
    ensures Recoveries(cfg, h) * cfg.window
         <= if After(cfg, h).streak > 0 then After(cfg, h).streakStart - t0 else t1 - t0
    ensures Recoveries(cfg, h) * cfg.window <= t1 - t0
  {
    hide OnMetric, OnHealth;
    if h != [] {
      var n := |h| - 1;
      var p, x := h[..n], h[n];
      assert h == p + [x];
      assert forall i :: 0 <= i < n ==> p[i] == h[i];
      var last := if x.IsTimed() then x.now else t1;
      FlapBound(cfg, p, t0, last);
      StreakStartsWithin(cfg, p, t0, last);
      FlapStep(cfg, p, x, t0, last);
      StreakStartsWithin(cfg, h, t0, t1);
    }
  }

  lemma StreakStartsWithin(cfg: Thresholds, h: Run, t0: int, t1: int)
    requires Within(h, t0, t1)
    ensures After(cfg, h).streak > 0 ==> t0 <= After(cfg, h).streakStart <= t1
  {
    if After(cfg, h).streak > 0 {
      var j := StreakIsQuiet(cfg, h);
    }
  }

  /** What one input does to the streak. */
  lemma StreakStep(cfg: Thresholds, st: EntityState, x: Input)
    requires !st.critical ==> st.streak == 0
    ensures var o := Next(cfg, st, x);
            if o.reason == Some(Recovered) then
              && x.Sample? && o.state.streak == 0
              && st.streak + 1 >= cfg.minSamples
              && x.now - (if st.streak == 0 then x.now else st.streakStart) >= cfg.window
            else
              && o.state.streak <= st.streak + (if x.Sample? then 1 else 0)
              && (o.state.streak > 0 && st.streak > 0 ==> o.state.streakStart == st.streakStart)
              && (o.state.streak > 0 && st.streak == 0 ==> x.Sample? && o.state.streakStart == x.now)
  {
    hide MemPercent;
  }

  lemma FlapStep(cfg: Thresholds, p: Run, x: Input, t0: int, last: int)
    requires x.IsTimed() ==> last == x.now
    requires After(cfg, p).streak > 0 ==> After(cfg, p).streakStart <= last
    requires Recoveries(cfg, p) * cfg.minSamples + After(cfg, p).streak <= SamplesFrom(p, 0)
    requires Recoveries(cfg, p) * cfg.window
          <= if After(cfg, p).streak > 0 then After(cfg, p).streakStart - t0 else last - t0
    ensures Recoveries(cfg, p + [x]) * cfg.minSamples + After(cfg, p + [x]).streak <= SamplesFrom(p + [x], 0)
    ensures Recoveries(cfg, p + [x]) * cfg.window
         <= if After(cfg, p + [x]).streak > 0 then After(cfg, p + [x]).streakStart - t0 else last - t0
  {
    hide OnMetric, OnHealth;
    var st, h := After(cfg, p), p + [x];
    assert h[..|p|] == p;
    SamplesFromAppend(p, x, 0);
    NoStreakUnlessCritical(cfg, p);
    StreakStep(cfg, st, x);
    var k, r := Recoveries(cfg, p), Next(cfg, st, x).reason;
    RecoveriesAppend(cfg, p, x);
    Successor(k, cfg.minSamples);
    Successor(k, cfg.window);
  }

  lemma RecoveriesAppend(cfg: Thresholds, p: Run, x: Input)
    ensures Recoveries(cfg, p + [x])
         == Recoveries(cfg, p) + if Next(cfg, After(cfg, p), x).reason == Some(Recovered) then 1 else 0
  {
    hide OnMetric, OnHealth;
    assert (p + [x])[..|p|] == p;
    var r := Next(cfg, After(cfg, p), x).reason;
    if r.Some? {
      CountAppend(Transitions(cfg, p), r.value, true);
    } else {
      assert Transitions(cfg, p + [x]) == Transitions(cfg, p);
    }
  }

  lemma Successor(k: int, n: int)
    ensures (k + 1) * n == k * n + n
  {
  }

  // ------------------------------------------------------------ product structure

  /** The run without its viewer calls, or with nothing else. */
  function Only(h: Run, viewers: bool): Run {
    if h == [] then []
    else Only(h[..|h| - 1], viewers) + if h[|h| - 1].IsViewer() == viewers then [h[|h| - 1]] else []
  }

  lemma NextIgnoresViewers(cfg: Thresholds, st: EntityState, x: Input)
    requires !x.IsViewer()
    ensures Next(cfg, st, x).state.viewers == st.viewers
    ensures Next(cfg, st, x).state.(viewers := 0) == Next(cfg, st.(viewers := 0), x).state
    ensures Next(cfg, st, x).reason == Next(cfg, st.(viewers := 0), x).reason
  {
    hide MemPercent;
  }

  /** Viewer calls neither see nor touch criticality, and samples neither see nor touch
      viewers: erasing either kind leaves the other's whole course unchanged. */
  lemma {:induction false} ViewersAndCriticalityAreIndependent(cfg: Thresholds, h: Run)
    ensures After(cfg, h).viewers == After(cfg, Only(h, true)).viewers
    ensures After(cfg, h).(viewers := 0) == After(cfg, Only(h, false)).(viewers := 0)
    ensures Transitions(cfg, h) == Transitions(cfg, Only(h, false))
  {
    if h != [] {
      hide OnMetric, OnHealth;
      var p, x := h[..|h| - 1], h[|h| - 1];
      ViewersAndCriticalityAreIndependent(cfg, p);
      var kept := Only(p, x.IsViewer());
      AfterAppend(cfg, kept, x);
      assert (kept + [x])[..|kept|] == kept;
      assert Only(h, x.IsViewer()) == kept + [x];
      assert Only(h, !x.IsViewer()) == Only(p, !x.IsViewer());
      if !x.IsViewer() {
        NextIgnoresViewers(cfg, After(cfg, p), x);
        NextIgnoresViewers(cfg, After(cfg, kept), x);
      }
    }
  }

  /** Opens minus closes. */
  function Balance(h: Run): int {
    if h == [] then 0
    else Balance(h[..|h| - 1]) + if h[|h| - 1].Open? then 1 else if h[|h| - 1].Close? then -1 else 0
  }

  lemma ViewersStep(cfg: Thresholds, st: EntityState, x: Input)
    ensures Next(cfg, st, x).state.viewers
         == if x.Open? then st.viewers + 1 else if x.Close? && st.viewers > 0 then st.viewers - 1 else st.viewers
  {
    hide MemPercent;
  }

  /** The viewer count is the greatest rise of the balance over the end of the run: unmatched
      closes are forgotten, and nothing else is. */
  lemma {:induction false} ViewerCount(cfg: Thresholds, h: Run)
    ensures exists p :: 0 <= p <= |h| && After(cfg, h).viewers == Balance(h) - Balance(h[..p])
    ensures forall p :: 0 <= p <= |h| ==> After(cfg, h).viewers >= Balance(h) - Balance(h[..p])
  {
    hide OnMetric, OnHealth;
    var n := |h| - 1;
    if h == [] {
      assert h[..0] == h;
    } else {
      var q := h[..n];
      ViewerCount(cfg, q);
      ViewersStep(cfg, After(cfg, q), h[n]);
      assert h[..|h|] == h;
      var p :| 0 <= p <= n && After(cfg, q).viewers == Balance(q) - Balance(q[..p]);
      assert q[..p] == h[..p];
      forall p | 0 <= p <= n
        ensures After(cfg, h).viewers >= Balance(h) - Balance(h[..p])
      {
        assert q[..p] == h[..p];
      }
      if h[n].Close? && After(cfg, q).viewers == 0 {
        assert After(cfg, h).viewers == Balance(h) - Balance(h[..|h|]);
      } else {
        assert After(cfg, h).viewers == Balance(h) - Balance(h[..p]);
      }
    }
  }

  /** The mode over runs: real-time while some viewer's opening is unmatched, whatever else;
      otherwise critical exactly between an entry and the next recovery. */
  lemma ModeOverRuns(cfg: Thresholds, h: Run)
    ensures var watched := exists p :: 0 <= p <= |h| && Balance(h) > Balance(h[..p]);
            && (ModeOf(After(cfg, h)) == ManualRealtime <==> watched)
            && (ModeOf(After(cfg, h)) == Critical <==> !watched && Entries(cfg, h) == Recoveries(cfg, h) + 1)
            && (ModeOf(After(cfg, h)) == Normal <==> !watched && Entries(cfg, h) == Recoveries(cfg, h))
  {
    hide After, Entries, Recoveries, Balance;
    ViewerCount(cfg, h);
    EntriesAndRecoveriesAlternate(cfg, h);
    if After(cfg, h).viewers > 0 {
      var p :| 0 <= p <= |h| && After(cfg, h).viewers == Balance(h) - Balance(h[..p]);
      assert Balance(h) > Balance(h[..p]);
    }
  }

  // --------------------------------------------------------------------- locality

  datatype Call = Call(kind: EntityKind, id: string, input: Input)

  /** All entities' states after a run of calls to one engine. */
  function StatesAfter(cfg: Thresholds, calls: seq<Call>): States {
    if calls == [] then map[]
    else
      var states, c := StatesAfter(cfg, calls[..|calls| - 1]), calls[|calls| - 1];
      WithState(states, c.kind, c.id, Next(cfg, StateOf(states, c.kind, c.id), c.input).state)
  }

  /** The calls made for one entity. */
  function For(calls: seq<Call>, kind: EntityKind, id: string): Run {
    if calls == [] then []
    else
      var c := calls[|calls| - 1];
      For(calls[..|calls| - 1], kind, id) + if c.kind == kind && c.id == id then [c.input] else []
  }

  /** One engine serves every entity as if it were alone. */
  lemma {:induction false} EntitiesAreIndependent(cfg: Thresholds, calls: seq<Call>, kind: EntityKind, id: string)
    ensures StateOf(StatesAfter(cfg, calls), kind, id) == After(cfg, For(calls, kind, id))
  {
    if calls != [] {
      var rest, c := calls[..|calls| - 1], calls[|calls| - 1];
      EntitiesAreIndependent(cfg, rest, kind, id);
      if c.kind == kind && c.id == id {
        AfterAppend(cfg, For(rest, kind, id), c.input);
      } else {
        assert For(calls, kind, id) == For(rest, kind, id);
      }
      if StateKey(c.kind, c.id) == StateKey(kind, id) {
        StateKeyIsInjective(c.kind, c.id, kind, id);
      }
    }
  }
}
