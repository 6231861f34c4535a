/** Whole runs in which a roll-up's read and write are separate steps and samples may be
    recorded at any point in between. */
module HistoryInterleaving {
  import opened Options
  import opened HistoryIndex
  import opened HistoryStore
  import opened HistoryRuns

  /** A retention pass selects, commits and expires; one that fails leaves out what follows. */
  datatype Move =
    | Arrive(sample: Sample)
    | Select(now: int)
    | Commit
    | Expire(now: int)

  // ---------------------------------------------------------------- on the samples

  /** A roll-up that has selected its rows, when the log had n entries. */
  datatype Rolling = Rolling(now: int, n: nat)

  datatype State = State(log: Log, rolling: Option<Rolling>)

  const EMPTY := State([], None)

  /** The minutes before the cutoff that have a minute row. */
  function OldMinutes(log: Log, cutoff: int): set<int> {
    set i | 0 <= i < |log| && log[i].place.Minute? && MinuteOf(log[i].sample.at) < cutoff :: MinuteOf(log[i].sample.at)
  }

  /** The effect of the write transaction on a sample that arrived after the read. */
  function Overtake(p: Placed, deleted: set<int>): Placed {
    if p.place.Minute? && MinuteOf(p.sample.at) in deleted then Placed(p.sample, Gone) else p
  }

  /** The effect of the write transaction when the read saw the first n entries. */
  function CommittedLog(log: Log, cutoff: int, n: nat): (r: Log)
    ensures |r| == |log|
  {
    var deleted := OldMinutes(if n <= |log| then log[..n] else log, cutoff);
    seq(|log|, i requires 0 <= i < |log| => if i < n then Roll(log[i], cutoff) else Overtake(log[i], deleted))
  }

  function Next(s: State, m: Move, days: int): State {
    match m
    case Arrive(x) => s.(log := s.log + [Placed(x, Minute)])
    case Select(now) => s.(rolling := Some(Rolling(now, |s.log|)))
    case Commit =>
      if s.rolling.None? then s
      else State(CommittedLog(s.log, s.rolling.value.now - ROLLUP_AFTER, s.rolling.value.n), None)
    case Expire(now) => State(Expired(s.log, now, days), None)
  }

  function After(moves: seq<Move>, days: int): State {
    if moves == [] then EMPTY else Next(After(moves[..|moves| - 1], days), moves[|moves| - 1], days)
  }

  // ------------------------------------------------------------------ on the table

  /** The rows read and their grouping, held in memory until the write transaction. */
  datatype Held = Held(snap: seq<Selected>, groups: map<Key, Tot>)

  datatype Stored = Stored(table: Table, held: Option<Held>)

  predicate IsPopulated(table: Table) {
    forall k :: k in table ==> table[k].count > 0
  }

  predicate GroupsAreReady(groups: map<Key, Tot>) {
    forall g :: g in groups ==> groups[g].n > 0
  }

  /** What a move does to the table, in terms of what Store's methods do. */
  ghost predicate Moves(t: Stored, m: Move, t': Stored, days: int) {
    match m
    case Arrive(x) => t'.held == t.held && (IsPopulated(t.table) ==> t'.table == WithSample(t.table, x))
    case Select(now) =>
      && t'.table == t.table && t'.held.Some?
      && IsSelection(t'.held.value.snap, t.table, now - ROLLUP_AFTER)
      && IsGrouping(t'.held.value.groups, t'.held.value.snap)
    case Commit =>
      if t.held.None? then t' == t
      else && t'.held.None?
           && (IsPopulated(t.table) && GroupsAreReady(t.held.value.groups) ==>
                 t'.table == HistoryStore.Committed(t.table, t.held.value.groups, SourceBuckets(t.held.value.snap)))
    case Expire(now) =>
      && t'.held.None?
      && t'.table == if days > 0 then map k | k in t.table && !(k.bucket < RetentionCutoff(now, days)) :: t.table[k]
                     else t.table
  }

  ghost predicate IsRun(ts: seq<Stored>, moves: seq<Move>, days: int) {
    && |ts| == |moves| + 1 && ts[0] == Stored(map[], None)
    && forall i :: 0 <= i < |moves| ==> Moves(ts[i], moves[i], ts[i + 1], days)
  }

  /** What arrived after the read is in the log's tail, each sample in its minute. */
  ghost predicate IsSound(s: State) {
    s.rolling.Some? ==>
      && s.rolling.value.n <= |s.log|
      && forall i :: s.rolling.value.n <= i < |s.log| ==> s.log[i].place.Minute?
  }

  /** The table represents the log, and what is held was selected from the log's first part. */
  ghost predicate Agrees(t: Stored, s: State) {
    && Represents(t.table, s.log) && IsSound(s)
    && (t.held.Some? <==> s.rolling.Some?)
    && (t.held.Some? ==>
          && IsSelection(t.held.value.snap, IndexOf(s.log[..s.rolling.value.n]), s.rolling.value.now - ROLLUP_AFTER)
          && IsGrouping(t.held.value.groups, t.held.value.snap))
  }

  lemma DeletedAreOld(log: Log, cutoff: int, snap: seq<Selected>, b: int)
    requires IsSelection(snap, IndexOf(log), cutoff)
    ensures b in SourceBuckets(snap) <==> b in OldMinutes(log, cutoff)
  {
    IndexRepresents(log);
    SourceBucketsAre(snap);
    if b in SourceBuckets(snap) {
      var k :| k in SelectedKeys(snap) && k.bucket == b;
      assert Shows(IndexOf(log), k, Total(log, {k}));
      var i := TotalHasWitness(log, {k});
    }
    if b in OldMinutes(log, cutoff) {
      var i :| 0 <= i < |log| && log[i].place.Minute? && MinuteOf(log[i].sample.at) == b < cutoff;
      var k := log[i].Key();
      TotalIsPositive(log, {k}, i);
      assert Shows(IndexOf(log), k, Total(log, {k}));
    }
  }

  lemma TailIsFresh(s: State) returns (between: seq<Sample>)
    requires IsSound(s) && s.rolling.Some?
    ensures s.log == s.log[..s.rolling.value.n] + Fresh(between)
  {
    var n := s.rolling.value.n;
    between := seq(|s.log| - n, i requires 0 <= i < |s.log| - n => s.log[n + i].sample);
    assert s.log[n..] == Fresh(between);
  }

  lemma CommittedLogIs(log: Log, between: seq<Sample>, cutoff: int, n: nat, deleted: seq<int>)
    requires n <= |log| && log == log[..n] + Fresh(between)
    requires forall b :: b in deleted <==> b in OldMinutes(log[..n], cutoff)
    ensures CommittedLog(log, cutoff, n) == RolledUp(log[..n], cutoff) + Arrived(between, deleted)
  {
    hide OldMinutes, Roll;
    forall i | n <= i < |log|
      ensures log[i] == Placed(between[i - n], Minute)
    {
      assert log[i] == Fresh(between)[i - n];
    }
  }

  lemma CommitRefines(t: Stored, t': Stored, s: State, days: int)
    requires Agrees(t, s) && Moves(t, Commit, t', days) && t.held.Some?
    ensures Represents(t'.table, Next(s, Commit, days).log)
  {
    hide Represents, IsSelection, IsGrouping, HistoryStore.Committed, CommittedLog, OldMinutes, IndexOf;
    var n, cutoff := s.rolling.value.n, s.rolling.value.now - ROLLUP_AFTER;
    var snap, groups, seen := t.held.value.snap, t.held.value.groups, s.log[..n];
    var between := TailIsFresh(s);
    IndexRepresents(seen);
    InterleavedOutcome(seen, IndexOf(seen), cutoff, snap, groups, between, t.table);
    forall b
      ensures b in SourceBuckets(snap) <==> b in OldMinutes(seen, cutoff)
    {
      DeletedAreOld(seen, cutoff, snap, b);
    }
    CommittedLogIs(s.log, between, cutoff, n, SourceBuckets(snap));
  }

  lemma MoveRefines(t: Stored, m: Move, t': Stored, s: State, days: int)
    requires Agrees(t, s) && Moves(t, m, t', days)
    ensures Agrees(t', Next(s, m, days))
  {
    match m
    case Arrive(x) =>
      RecordedRow(t.table, s.log, x);
      if s.rolling.Some? {
        assert (s.log + [Placed(x, Minute)])[..s.rolling.value.n] == s.log[..s.rolling.value.n];
      }
    case Select(now) =>
      IndexRepresents(s.log);
      RepresentationIsUnique(t.table, IndexOf(s.log), s.log);
      assert s.log[..|s.log|] == s.log;
    case Commit =>
      if t.held.Some? {
        CommitRefines(t, t', s, days);
      }
    case Expire(now) =>
      if days > 0 {
        DroppedTable(t.table, t'.table, s.log, RetentionCutoff(now, days));
      }
  }

  /** In every interleaving, the table represents the samples as the moves have placed them. */
  lemma {:induction false} RunRefines(ts: seq<Stored>, moves: seq<Move>, days: int)
    requires IsRun(ts, moves, days)
    ensures Agrees(ts[|moves|], After(moves, days))
  {
    if moves == [] {
      assert forall k: Key :: Shows(map[], k, Total([], {k}));
    } else {
      var n := |moves| - 1;
      RunRefines(ts[..n + 1], moves[..n], days);
      MoveRefines(ts[n], moves[n], ts[n + 1], After(moves[..n], days), days);
    }
  }

  // ------------------------------------------------------------- as if atomic

  /** The atomic operation a move amounts to: a roll-up happens at its write transaction. */
  function AtomicOp(rolling: Option<Rolling>, m: Move): (r: seq<Op>)
    ensures |r| <= 1
  {
    match m
    case Arrive(x) => [Record(x)]
    case Select(_) => []
    case Commit => if rolling.None? then [] else [Rollup(rolling.value.now)]
    case Expire(now) => [Delete(now)]
  }

  function Atomic(moves: seq<Move>, days: int): seq<Op> {
    if moves == [] then []
    else
      var earlier := moves[..|moves| - 1];
      Atomic(earlier, days) + AtomicOp(After(earlier, days).rolling, moves[|moves| - 1])
  }

  /** Whatever arrives between a read and its write is no older than the roll-up's cutoff. */
  predicate IsRecent(rolling: Option<Rolling>, m: Move) {
    m.Arrive? && rolling.Some? ==> MinuteOf(m.sample.at) >= rolling.value.now - ROLLUP_AFTER
  }

  ghost predicate IsGuarded(moves: seq<Move>, days: int) {
    forall i :: 0 <= i < |moves| ==> IsRecent(After(moves[..i], days).rolling, moves[i])
  }

  ghost predicate TailIsRecent(s: State) {
    s.rolling.Some? ==>
      forall i :: s.rolling.value.n <= i < |s.log| ==>
                    MinuteOf(s.log[i].sample.at) >= s.rolling.value.now - ROLLUP_AFTER
  }

  lemma RecentCommit(log: Log, cutoff: int, n: nat)
    requires n <= |log| && forall i :: n <= i < |log| ==> MinuteOf(log[i].sample.at) >= cutoff
    ensures CommittedLog(log, cutoff, n) == RolledUp(log, cutoff)
  {
    forall i | 0 <= i < |log|
      ensures CommittedLog(log, cutoff, n)[i] == RolledUp(log, cutoff)[i]
    {
    }
  }

  lemma GuardedMove(s: State, m: Move, days: int)
    requires IsSound(s) && TailIsRecent(s) && IsRecent(s.rolling, m)
    ensures IsSound(Next(s, m, days)) && TailIsRecent(Next(s, m, days))
    ensures var ops := AtomicOp(s.rolling, m);
            Next(s, m, days).log == if ops == [] then s.log else Step(s.log, ops[0], days)
  {
    hide RolledUp, CommittedLog, Expired, MinuteOf;
    if m == Commit && s.rolling.Some? {
      RecentCommit(s.log, s.rolling.value.now - ROLLUP_AFTER, s.rolling.value.n);
    }
  }

  lemma RunOfOne(ops: seq<Op>, more: seq<Op>, days: int)
    requires |more| <= 1
    ensures Run(ops + more, days) == if more == [] then Run(ops, days) else Step(Run(ops, days), more[0], days)
  {
    if more == [] {
      assert ops + more == ops;
    } else {
      assert (ops + more)[..|ops|] == ops;
    }
  }

  /** Under that guard, splitting the roll-ups makes no difference. */
  lemma {:induction false} GuardedRunIsAtomic(moves: seq<Move>, days: int)
    requires IsGuarded(moves, days)
    ensures After(moves, days).log == Run(Atomic(moves, days), days)
    ensures IsSound(After(moves, days)) && TailIsRecent(After(moves, days))
  {
    if moves != [] {
      hide Next, AtomicOp, IsRecent, IsSound, TailIsRecent, Step;
      var n := |moves| - 1;
      var earlier, m := moves[..n], moves[n];
      var s := After(earlier, days);
      assert forall i :: 0 <= i < n ==> earlier[i] == moves[i] && earlier[..i] == moves[..i];
      GuardedRunIsAtomic(earlier, days);
      GuardedMove(s, m, days);
      RunOfOne(Atomic(earlier, days), AtomicOp(s.rolling, m), days);
    }
  }

  // ------------------------------------------------------------- the closed form

  function Arrivals(samples: seq<Sample>): (r: seq<Move>)
    ensures |r| == |samples|
  {
    seq(|samples|, i requires 0 <= i < |samples| => Arrive(samples[i]))
  }

  /** One retention pass with what arrives between its read and its write, and between its
      write and its delete. */
  function SplitPass(now: int, during: seq<Sample>, since: seq<Sample>): seq<Move> {
    [Select(now)] + Arrivals(during) + [Commit] + Arrivals(since) + [Expire(now)]
  }

  function Recorded(moves: seq<Move>): seq<Sample> {
    if moves == [] then []
    else
      var m := moves[|moves| - 1];
      Recorded(moves[..|moves| - 1]) + if m.Arrive? then [m.sample] else []
  }

  /** No pass of the run carries a later time than now. */
  ghost predicate NoLaterThan(moves: seq<Move>, now: int) {
    forall i :: 0 <= i < |moves| && (moves[i].Select? || moves[i].Expire?) ==> moves[i].now <= now
  }

  ghost predicate AllRecent(samples: seq<Sample>, cutoff: int) {
    forall s :: s in samples ==> MinuteOf(s.at) >= cutoff
  }

  lemma SamplesOfOne(ops: seq<Op>, more: seq<Op>)
    requires |more| <= 1
    ensures Samples(ops + more) == Samples(ops) + if more != [] && more[0].Record? then [more[0].sample] else []
  {
    if more == [] {
      assert ops + more == ops;
    } else {
      assert (ops + more)[..|ops|] == ops;
    }
  }

  lemma OpOfMove(s: State, m: Move, now: int, days: int)
    requires s.rolling.Some? ==> s.rolling.value.now <= now
    requires m.Select? || m.Expire? ==> m.now <= now
    ensures var ops := AtomicOp(s.rolling, m);
            && NotAfter(ops, now)
            && (if m.Arrive? then ops == [Record(m.sample)] else ops == [] || !ops[0].Record?)
    ensures Next(s, m, days).rolling.Some? ==> Next(s, m, days).rolling.value.now <= now
  {
    hide CommittedLog, Expired;
  }

  lemma {:induction false} AtomicKeeps(moves: seq<Move>, now: int, days: int)
    requires NoLaterThan(moves, now)
    ensures Samples(Atomic(moves, days)) == Recorded(moves)
    ensures NotAfter(Atomic(moves, days), now)
    ensures After(moves, days).rolling.Some? ==> After(moves, days).rolling.value.now <= now
  {
    if moves != [] {
      var n := |moves| - 1;
      var earlier := moves[..n];
      AtomicKeeps(earlier, now, days);
      hide Next, AtomicOp, Samples;
      OpOfMove(After(earlier, days), moves[n], now, days);
      SamplesOfOne(Atomic(earlier, days), AtomicOp(After(earlier, days).rolling, moves[n]));
    }
  }

  lemma AfterOne(moves: seq<Move>, m: Move, days: int)
    ensures After(moves + [m], days) == Next(After(moves, days), m, days)
  {
    assert (moves + [m])[..|moves|] == moves;
  }

  lemma ArrivalsOfLast(samples: seq<Sample>)
    requires samples != []
    ensures var n := |samples| - 1;
            && Arrivals(samples) == Arrivals(samples[..n]) + [Arrive(samples[n])]
            && Fresh(samples) == Fresh(samples[..n]) + [Placed(samples[n], Minute)]
  {
  }

  lemma {:induction false} AfterArrivals(moves: seq<Move>, samples: seq<Sample>, days: int)
    ensures After(moves + Arrivals(samples), days) == After(moves, days).(log := After(moves, days).log + Fresh(samples))
  {
    hide After, Arrivals, Fresh;
    if samples == [] {
      assert moves + Arrivals(samples) == moves;
    } else {
      var n := |samples| - 1;
      AfterArrivals(moves, samples[..n], days);
      AfterOne(moves + Arrivals(samples[..n]), Arrive(samples[n]), days);
      ArrivalsOfLast(samples);
      assert moves + Arrivals(samples) == moves + Arrivals(samples[..n]) + [Arrive(samples[n])];
    }
  }

  /** What a pass that is split in this way makes of the log. */
  lemma AfterSplitPass(moves: seq<Move>, now: int, during: seq<Sample>, since: seq<Sample>, days: int)
    requires AllRecent(during, now - ROLLUP_AFTER)
    ensures After(moves + SplitPass(now, during, since), days).log
         == Expired(RolledUp(After(moves, days).log + Fresh(during), now - ROLLUP_AFTER) + Fresh(since), now, days)
  {
    hide After, Expired, RolledUp, CommittedLog;
    var log := After(moves, days).log;
    var m1 := moves + [Select(now)];
    AfterOne(moves, Select(now), days);
    var m2 := m1 + Arrivals(during);
    AfterArrivals(m1, during, days);
    forall i | |log| <= i < |log + Fresh(during)|
      ensures MinuteOf((log + Fresh(during))[i].sample.at) >= now - ROLLUP_AFTER
    {
      assert during[i - |log|] in during;
    }
    RecentCommit(log + Fresh(during), now - ROLLUP_AFTER, |log|);
    AfterOne(m2, Commit, days);
    var m4 := m2 + [Commit] + Arrivals(since);
    AfterArrivals(m2 + [Commit], since, days);
    AfterOne(m4, Expire(now), days);
    assert moves + SplitPass(now, during, since) == m4 + [Expire(now)];
  }

  lemma OnTheWayInRun(moves: seq<Move>, now: int, days: int)
    requires IsGuarded(moves, days) && NoLaterThan(moves, now)
    ensures |After(moves, days).log| == |Recorded(moves)|
    ensures forall i :: 0 <= i < |Recorded(moves)| ==>
                          && After(moves, days).log[i].sample == Recorded(moves)[i]
                          && OnTheWay(After(moves, days).log[i], now, days)
  {
    GuardedRunIsAtomic(moves, days);
    AtomicKeeps(moves, now, days);
    RunKeepsSamples(Atomic(moves, days), now, days);
  }

  lemma SettledByPass(log: Log, during: seq<Sample>, since: seq<Sample>, samples: seq<Sample>, now: int, days: int)
    requires |log| == |samples|
    requires forall i :: 0 <= i < |log| ==> log[i].sample == samples[i] && OnTheWay(log[i], now, days)
    requires AllRecent(during, now - ROLLUP_AFTER) && AllRecent(since, now - ROLLUP_AFTER)
    ensures Expired(RolledUp(log + Fresh(during), now - ROLLUP_AFTER) + Fresh(since), now, days)
         == Settled(samples + during + since, now, days)
  {
    hide OnTheWay, Roll, Drop, Target, MinuteOf;
    var c, all := now - ROLLUP_AFTER, samples + during + since;
    var before := log + Fresh(during);
    var r := Expired(RolledUp(before, c) + Fresh(since), now, days);
    forall i | 0 <= i < |all|
      ensures r[i] == Placed(all[i], Target(all[i], now, days))
    {
      if i < |samples| {
        PassSettles(log[i], now, days);
      } else if i < |before| {
        assert before[i] == Placed(all[i], Minute);
        FreshSettles(all[i], now, days);
      } else {
        assert (RolledUp(before, c) + Fresh(since))[i] == Placed(all[i], Minute);
        assert all[i] in since;
        RecentStays(all[i], now, days);
      }
    }
  }

  lemma FreshSettles(s: Sample, now: int, days: int)
    ensures HistoryRuns.Expire(Roll(Placed(s, Minute), now - ROLLUP_AFTER), now, days) == Placed(s, Target(s, now, days))
  {
    PassSettles(Placed(s, Minute), now, days);
  }

  lemma RecentStays(s: Sample, now: int, days: int)
    requires MinuteOf(s.at) >= now - ROLLUP_AFTER
    ensures HistoryRuns.Expire(Placed(s, Minute), now, days) == Placed(s, Target(s, now, days))
  {
    FreshSettles(s, now, days);
  }

  /** Splitting the passes leaves the closed form as it is, as long as nothing older than the
      roll-up cutoff arrives while a pass is under way. */
  lemma SplitClosedForm(moves: seq<Move>, now: int, during: seq<Sample>, since: seq<Sample>, days: int)
    requires IsGuarded(moves, days) && NoLaterThan(moves, now)
    requires AllRecent(during, now - ROLLUP_AFTER) && AllRecent(since, now - ROLLUP_AFTER)
    ensures After(moves + SplitPass(now, during, since), days).log
         == Settled(Recorded(moves) + during + since, now, days)
  {
    OnTheWayInRun(moves, now, days);
    AfterSplitPass(moves, now, during, since, days);
    SettledByPass(After(moves, days).log, during, since, Recorded(moves), now, days);
  }

  /** And so it leaves the table a function of the samples recorded and the pass alone. */
  lemma SplitTableIsClosedForm(ts: seq<Stored>, moves: seq<Move>, now: int, during: seq<Sample>, since: seq<Sample>, days: int)
    requires IsRun(ts, moves + SplitPass(now, during, since), days)
    requires IsGuarded(moves, days) && NoLaterThan(moves, now)
    requires AllRecent(during, now - ROLLUP_AFTER) && AllRecent(since, now - ROLLUP_AFTER)
    ensures ts[|ts| - 1].table == IndexOf(Settled(Recorded(moves) + during + since, now, days))
  {
    var log := Settled(Recorded(moves) + during + since, now, days);
    RunRefines(ts, moves + SplitPass(now, during, since), days);
    SplitClosedForm(moves, now, during, since, days);
    IndexRepresents(log);
    RepresentationIsUnique(ts[|ts| - 1].table, IndexOf(log), log);
  }
}
