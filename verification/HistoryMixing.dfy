/** When a stretch of time is stored at more than one resolution: at any time, right after a
    retention pass, and after whatever is recorded since. */
module HistoryMixing {
  import opened HistoryIndex
  import opened HistoryStore
  import opened HistoryRuns

  /** The table holds rows of both resolutions for the window w of e. */
  ghost predicate IsMixed(table: Table, e: Entity, w: int) {
    && Key(e, COARSE_RESOLUTION, w) in table
    && exists b :: w <= b < w + FIVE_MINUTES && Key(e, MINUTE_RESOLUTION, b) in table
  }

  // ---------------------------------------------------------------- at any time

  /** A sample of e within the five-minute window w. */
  predicate IsWithin(s: Sample, e: Entity, w: int) {
    s.entity == e && CoarseOf(s.at) == w
  }

  /** Some sample within the window lives at the place. */
  ghost predicate Lives(log: Log, e: Entity, w: int, place: Place) {
    exists i :: 0 <= i < |log| && log[i].place == place && IsWithin(log[i].sample, e, w)
  }

  lemma CoarseRowExactly(table: Table, log: Log, e: Entity, w: int)
    requires Represents(table, log) && w % 300_000_000_000 == 0
    ensures Key(e, COARSE_RESOLUTION, w) in table <==> Lives(log, e, w, Coarse)
  {
    var k := Key(e, COARSE_RESOLUTION, w);
    assert Shows(table, k, Total(log, {k}));
    if k in table {
      var i := TotalHasWitness(log, {k});
      KeyOfPlaced(log[i]);
    }
    if i :| 0 <= i < |log| && log[i].place == Coarse && IsWithin(log[i].sample, e, w) {
      KeyOfPlaced(log[i]);
      TotalIsPositive(log, {k}, i);
    }
  }

  lemma MinuteRowExactly(table: Table, log: Log, e: Entity, w: int)
    requires Represents(table, log) && w % 300_000_000_000 == 0
    ensures (exists b :: w <= b < w + FIVE_MINUTES && Key(e, MINUTE_RESOLUTION, b) in table) <==> Lives(log, e, w, Minute)
  {
    if b :| w <= b < w + FIVE_MINUTES && Key(e, MINUTE_RESOLUTION, b) in table {
      var k := Key(e, MINUTE_RESOLUTION, b);
      assert Shows(table, k, Total(log, {k}));
      var i := TotalHasWitness(log, {k});
      KeyOfPlaced(log[i]);
      CoarseIs(b, w / 300_000_000_000);
      CoarseOfMinute(log[i].sample.at);
      assert IsWithin(log[i].sample, e, w);
    }
    if i :| 0 <= i < |log| && log[i].place == Minute && IsWithin(log[i].sample, e, w) {
      var k := log[i].Key();
      MinuteInWindow(log[i].sample.at, w);
      TotalIsPositive(log, {k}, i);
      assert Shows(table, k, Total(log, {k}));
      assert k == Key(e, MINUTE_RESOLUTION, k.bucket);
    }
  }

  /** At any time a window is stored at two resolutions exactly if one sample within it has
      been rolled up and another has not. */
  lemma MixedExactly(table: Table, log: Log, e: Entity, w: int)
    requires Represents(table, log) && w % 300_000_000_000 == 0
    ensures IsMixed(table, e, w) <==> Lives(log, e, w, Coarse) && Lives(log, e, w, Minute)
  {
    CoarseRowExactly(table, log, e, w);
    MinuteRowExactly(table, log, e, w);
  }

  // ---------------------------------------------------------- right after a pass

  /** Right after a pass, both resolutions can meet only in the window that the roll-up
      cutoff falls into. */
  lemma MixedOnlyAtCutoff(ops: seq<Op>, now: int, days: int, table: Table, e: Entity, w: int)
    requires NotAfter(ops, now) && Represents(table, Run(ops + Pass(now), days))
    requires IsMixed(table, e, w)
    ensures w == CoarseOf(now - ROLLUP_AFTER)
    ensures 0 < (now - ROLLUP_AFTER) % 300_000_000_000 <= 240_000_000_000
  {
    ClosedForm(ops, now, days);
    MixedSettled(Samples(ops), now, days, table, e, w);
  }

  lemma MixedSettled(samples: seq<Sample>, now: int, days: int, table: Table, e: Entity, w: int)
    requires Represents(table, Settled(samples, now, days)) && IsMixed(table, e, w)
    ensures w == CoarseOf(now - ROLLUP_AFTER)
    ensures 0 < (now - ROLLUP_AFTER) % 300_000_000_000 <= 240_000_000_000
  {
    var b :| w <= b < w + FIVE_MINUTES && Key(e, MINUTE_RESOLUTION, b) in table;
    var s := StoredKey(samples, now, days, table, Key(e, MINUTE_RESOLUTION, b));
    var t := StoredKey(samples, now, days, table, Key(e, COARSE_RESOLUTION, w));
    CutoffInWindow(w, b, now - ROLLUP_AFTER);
  }

  lemma CutoffInWindow(w: int, b: int, c: int)
    requires w % 300_000_000_000 == 0 && b % 60_000_000_000 == 0
    requires w < c <= b < w + FIVE_MINUTES
    ensures w == CoarseOf(c) && 0 < c % 300_000_000_000 <= 240_000_000_000
  {
    CoarseIs(c, w / 300_000_000_000);
    assert b <= w + 240_000_000_000;
  }

  /** One sample in the first minute of the cutoff's window, and one in its last. */
  function Straddle(e: Entity, now: int): seq<Sample> {
    var w := CoarseOf(now - ROLLUP_AFTER);
    [Sample(e, w, ZERO), Sample(e, w + 240_000_000_000, ZERO)]
  }

  /** The documented "exactly one resolution" fails whenever the cutoff is off the
      five-minute grid by at most four minutes: two samples are enough. */
  lemma MixedAtCutoff(now: int, days: int, table: Table, e: Entity)
    requires 0 < (now - ROLLUP_AFTER) % 300_000_000_000 <= 240_000_000_000
    requires Represents(table, Settled(Straddle(e, now), now, days))
    ensures IsMixed(table, e, CoarseOf(now - ROLLUP_AFTER))
  {
    var samples := Straddle(e, now);
    var log := Settled(samples, now, days);
    var w := CoarseOf(now - ROLLUP_AFTER);
    StraddleKeys(now, days, e);
    var k, m := Key(e, COARSE_RESOLUTION, w), Key(e, MINUTE_RESOLUTION, w + 240_000_000_000);
    assert log[0].In({k}) && log[1].In({m});
    TotalIsPositive(log, {k}, 0);
    TotalIsPositive(log, {m}, 1);
    assert Shows(table, k, Total(log, {k})) && Shows(table, m, Total(log, {m}));
  }

  lemma StraddleKeys(now: int, days: int, e: Entity)
    requires 0 < (now - ROLLUP_AFTER) % 300_000_000_000 <= 240_000_000_000
    ensures var samples, w := Straddle(e, now), CoarseOf(now - ROLLUP_AFTER);
            && Target(samples[0], now, days) == Coarse
            && Target(samples[1], now, days) == Minute
            && Placed(samples[0], Coarse).Key() == Key(e, COARSE_RESOLUTION, w)
            && Placed(samples[1], Minute).Key() == Key(e, MINUTE_RESOLUTION, w + 240_000_000_000)
  {
    var w := CoarseOf(now - ROLLUP_AFTER);
    BucketsAreAligned(now - ROLLUP_AFTER);
    FirstAndLastMinute(w);
    assert w < now - ROLLUP_AFTER <= w + 240_000_000_000;
    hide MinuteOf, CoarseOf;
    KeyOfPlaced(Placed(Straddle(e, now)[0], Coarse));
  }

  lemma FirstAndLastMinute(w: int)
    requires w % 300_000_000_000 == 0
    ensures CoarseOf(w) == w && MinuteOf(w) == w && MinuteOf(w + 240_000_000_000) == w + 240_000_000_000
  {
    var q := w / 300_000_000_000;
    CoarseIs(w, q);
    MinuteIs(w, 5 * q);
    MinuteIs(w + 240_000_000_000, 5 * q + 4);
  }

  /** When a pass can leave a window at two resolutions: exactly if its roll-up cutoff is
      off the five-minute grid by at most four minutes. */
  lemma MixedIff(now: int, days: int, e: Entity)
    ensures (exists samples :: IsMixed(IndexOf(Settled(samples, now, days)), e, CoarseOf(now - ROLLUP_AFTER)))
       <==> 0 < (now - ROLLUP_AFTER) % 300_000_000_000 <= 240_000_000_000
  {
    var w := CoarseOf(now - ROLLUP_AFTER);
    if samples :| IsMixed(IndexOf(Settled(samples, now, days)), e, w) {
      IndexRepresents(Settled(samples, now, days));
      MixedSettled(samples, now, days, IndexOf(Settled(samples, now, days)), e, w);
    }
    if 0 < (now - ROLLUP_AFTER) % 300_000_000_000 <= 240_000_000_000 {
      var straddle := Straddle(e, now);
      IndexRepresents(Settled(straddle, now, days));
      MixedAtCutoff(now, days, IndexOf(Settled(straddle, now, days)), e);
    }
  }

  // ------------------------------------------------------ recordings since a pass

  function Recordings(samples: seq<Sample>): (r: seq<Op>)
    ensures |r| == |samples|
  {
    seq(|samples|, i requires 0 <= i < |samples| => Record(samples[i]))
  }

  lemma {:induction false} RunOfRecordings(ops: seq<Op>, late: seq<Sample>, days: int)
    ensures Run(ops + Recordings(late), days) == Run(ops, days) + Fresh(late)
  {
    if late == [] {
      assert ops + Recordings(late) == ops;
    } else {
      var n := |late| - 1;
      RunOfRecordings(ops, late[..n], days);
      assert ops + Recordings(late) == ops + Recordings(late[..n]) + [Record(late[n])];
      assert Fresh(late) == Fresh(late[..n]) + [Placed(late[n], Minute)];
    }
  }

  /** Some sample within the window belongs at the place by a pass at time now. */
  ghost predicate Belongs(samples: seq<Sample>, now: int, days: int, e: Entity, w: int, place: Place) {
    exists s :: s in samples && IsWithin(s, e, w) && Target(s, now, days) == place
  }

  lemma LivesLater(samples: seq<Sample>, now: int, days: int, late: seq<Sample>, e: Entity, w: int)
    ensures var log := Settled(samples, now, days) + Fresh(late);
            && (Lives(log, e, w, Coarse) <==> Belongs(samples, now, days, e, w, Coarse))
            && (Lives(log, e, w, Minute) <==>
                Belongs(samples, now, days, e, w, Minute) || exists s :: s in late && IsWithin(s, e, w))
  {
    hide Target, IsWithin;
    var log := Settled(samples, now, days) + Fresh(late);
    forall s | s in samples && IsWithin(s, e, w)
      ensures Lives(log, e, w, Target(s, now, days))
    {
      var i :| 0 <= i < |samples| && samples[i] == s;
      assert log[i] == Placed(s, Target(s, now, days));
    }
    forall s | s in late && IsWithin(s, e, w)
      ensures Lives(log, e, w, Minute)
    {
      var i :| 0 <= i < |late| && late[i] == s;
      assert log[|samples| + i] == Placed(s, Minute);
    }
    forall i | 0 <= i < |log| && IsWithin(log[i].sample, e, w)
      ensures i < |samples| ==> Belongs(samples, now, days, e, w, log[i].place)
      ensures i >= |samples| ==> log[i].place == Minute && log[i].sample in late
    {
      if i < |samples| {
        assert samples[i] in samples;
      } else {
        assert log[i] == Fresh(late)[i - |samples|];
      }
    }
  }

  /** After a run, a pass, and anything recorded since, a window is stored at two resolutions
      exactly if the pass left a five-minute row there, and either left a minute row there as
      well or a sample within the window has been recorded since. */
  lemma MixedLaterExactly(ops: seq<Op>, now: int, days: int, late: seq<Sample>, table: Table, e: Entity, w: int)
    requires NotAfter(ops, now) && w % 300_000_000_000 == 0
    requires Represents(table, Run(ops + Pass(now) + Recordings(late), days))
    ensures IsMixed(table, e, w)
       <==> && Belongs(Samples(ops), now, days, e, w, Coarse)
            && (Belongs(Samples(ops), now, days, e, w, Minute) || exists s :: s in late && IsWithin(s, e, w))
  {
    ClosedForm(ops, now, days);
    RunOfRecordings(ops + Pass(now), late, days);
    MixedExactly(table, Run(ops + Pass(now) + Recordings(late), days), e, w);
    LivesLater(Samples(ops), now, days, late, e, w);
  }

  /** A window that may hold a five-minute row after a pass at time now. */
  predicate TakesLateMinutes(w: int, now: int, days: int) {
    w < now - ROLLUP_AFTER && (days > 0 ==> RetentionCutoff(now, days) <= w)
  }

  /** A five-minute row belongs in a window only if the window starts before the roll-up
      cutoff and has not expired; and then a sample at its start belongs there. */
  lemma CoarseTargets(s: Sample, now: int, days: int)
    ensures Target(s, now, days) == Coarse ==> TakesLateMinutes(CoarseOf(s.at), now, days)
    ensures TakesLateMinutes(CoarseOf(s.at), now, days) ==>
              var first := Sample(s.entity, CoarseOf(s.at), ZERO);
              IsWithin(first, s.entity, CoarseOf(s.at)) && Target(first, now, days) == Coarse
  {
    var w := CoarseOf(s.at);
    CoarseOfMinute(s.at);
    BucketsAreAligned(s.at);
    FirstAndLastMinute(w);
  }

  /** One sample rolled up by the pass and one recorded late are enough, wherever the cutoff. */
  lemma LateSampleMixes(now: int, days: int, s: Sample)
    requires TakesLateMinutes(CoarseOf(s.at), now, days)
    ensures var ops, w := [Record(Sample(s.entity, CoarseOf(s.at), ZERO))], CoarseOf(s.at);
            && NotAfter(ops, now)
            && !IsMixed(IndexOf(Run(ops + Pass(now), days)), s.entity, w)
            && IsMixed(IndexOf(Run(ops + Pass(now) + Recordings([s]), days)), s.entity, w)
  {
    var first, w := Sample(s.entity, CoarseOf(s.at), ZERO), CoarseOf(s.at);
    var ops := [Record(first)];
    BucketsAreAligned(s.at);
    CoarseTargets(s, now, days);
    assert ops[..0] == [] && Samples(ops) == [first];
    hide Run, Target, IsMixed, Represents, CoarseOf, Samples, Recordings;
    assert ops + Pass(now) + Recordings([]) == ops + Pass(now);
    var before, after := Run(ops + Pass(now), days), Run(ops + Pass(now) + Recordings([s]), days);
    IndexRepresents(before);
    IndexRepresents(after);
    MixedLaterExactly(ops, now, days, [], IndexOf(before), s.entity, w);
    MixedLaterExactly(ops, now, days, [s], IndexOf(after), s.entity, w);
    assert first in Samples(ops) && s in [s] && IsWithin(s, s.entity, w);
  }

  /** Recording a sample after a pass can put its window at two resolutions exactly if the
      window starts before the pass's roll-up cutoff and has not expired. */
  lemma LateSampleMixesExactly(now: int, days: int, s: Sample)
    ensures (exists ops :: && NotAfter(ops, now)
                           && !IsMixed(IndexOf(Run(ops + Pass(now), days)), s.entity, CoarseOf(s.at))
                           && IsMixed(IndexOf(Run(ops + Pass(now) + Recordings([s]), days)), s.entity, CoarseOf(s.at)))
       <==> TakesLateMinutes(CoarseOf(s.at), now, days)
  {
    var w := CoarseOf(s.at);
    BucketsAreAligned(s.at);
    if ops :| NotAfter(ops, now) && IsMixed(IndexOf(Run(ops + Pass(now) + Recordings([s]), days)), s.entity, w) {
      var log := Run(ops + Pass(now) + Recordings([s]), days);
      IndexRepresents(log);
      MixedLaterExactly(ops, now, days, [s], IndexOf(log), s.entity, w);
      var early :| early in Samples(ops) && IsWithin(early, s.entity, w) && Target(early, now, days) == Coarse;
      CoarseTargets(early, now, days);
    }
    if TakesLateMinutes(w, now, days) {
      LateSampleMixes(now, days, s);
    }
  }

  /** The simplest such run, with the cutoff on the five-minute grid: the same sample recorded
      before a pass and again after it. */
  lemma AlignedCutoffIsNotEnough(e: Entity)
    ensures var now, s := ROLLUP_AFTER + FIVE_MINUTES, Sample(e, 0, ZERO);
            && (now - ROLLUP_AFTER) % 300_000_000_000 == 0
            && IsMixed(IndexOf(Run([Record(s)] + Pass(now) + [Record(s)], 1)), e, 0)
  {
    hide Run, IsMixed, IndexOf, Pass;
    var now, s := ROLLUP_AFTER + FIVE_MINUTES, Sample(e, 0, ZERO);
    CoarseIs(0, 0);
    assert TakesLateMinutes(0, now, 1);
    LateSampleMixes(now, 1, s);
    assert Recordings([s]) == [Record(s)];
  }

  /** What a caller has to check: recordings whose windows start at or after the last roll-up
      cutoff leave every window as the pass did. */
  lemma GuardedRecordingsKeepResolutions(ops: seq<Op>, now: int, days: int, late: seq<Sample>,
                                         before: Table, after: Table, e: Entity, w: int)
    requires NotAfter(ops, now) && w % 300_000_000_000 == 0
    requires forall s :: s in late ==> CoarseOf(s.at) >= now - ROLLUP_AFTER
    requires Represents(before, Run(ops + Pass(now), days))
    requires Represents(after, Run(ops + Pass(now) + Recordings(late), days))
    ensures IsMixed(after, e, w) <==> IsMixed(before, e, w)
  {
    assert ops + Pass(now) + Recordings([]) == ops + Pass(now);
    MixedLaterExactly(ops, now, days, [], before, e, w);
    MixedLaterExactly(ops, now, days, late, after, e, w);
    if s :| s in Samples(ops) && IsWithin(s, e, w) && Target(s, now, days) == Coarse {
      CoarseTargets(s, now, days);
    }
  }

  /** If moreover the cutoff lies on the five-minute grid, it is enough to look at the samples'
      minutes, and the promise of a single resolution holds throughout. */
  lemma SingleResolution(ops: seq<Op>, now: int, days: int, late: seq<Sample>, table: Table, e: Entity, w: int)
    requires NotAfter(ops, now) && w % 300_000_000_000 == 0
    requires (now - ROLLUP_AFTER) % 300_000_000_000 == 0
    requires forall s :: s in late ==> MinuteOf(s.at) >= now - ROLLUP_AFTER
    requires Represents(table, Run(ops + Pass(now) + Recordings(late), days))
    ensures !IsMixed(table, e, w)
  {
    var before := IndexOf(Run(ops + Pass(now), days));
    IndexRepresents(Run(ops + Pass(now), days));
    forall s | s in late
      ensures CoarseOf(s.at) >= now - ROLLUP_AFTER
    {
      AlignedBound(s.at, now - ROLLUP_AFTER);
    }
    GuardedRecordingsKeepResolutions(ops, now, days, late, before, table, e, w);
    if IsMixed(before, e, w) {
      MixedOnlyAtCutoff(ops, now, days, before, e, w);
    }
  }
}
