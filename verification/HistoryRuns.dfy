/** What the historical table holds after whole runs of recordings and retention
    passes, in terms of the raw samples alone. */
module HistoryRuns {
  import opened HistoryIndex
  import opened HistoryStore

  /** A retention pass is a roll-up followed by a delete. Samples may be recorded between
      the two, and a pass that fails half-way leaves out the delete. */
  datatype Op =
    | Record(sample: Sample)
    | Rollup(now: int)
    | Delete(now: int)

  function Pass(now: int): seq<Op> {
    [Rollup(now), Delete(now)]
  }

  function Step(log: Log, op: Op, days: int): Log {
    match op
    case Record(s) => log + [Placed(s, Minute)]
    case Rollup(now) => RolledUp(log, now - ROLLUP_AFTER)
    case Delete(now) => Expired(log, now, days)
  }

  /** The log after a run from an empty store, by the contracts of Store's methods. */
  function Run(ops: seq<Op>, days: int): Log {
    if ops == [] then []
    else Step(Run(ops[..|ops| - 1], days), ops[|ops| - 1], days)
  }

  /** Every sample ever recorded, in order of arrival. */
  function Samples(ops: seq<Op>): seq<Sample> {
    if ops == [] then []
    else
      var op := ops[|ops| - 1];
      Samples(ops[..|ops| - 1]) + if op.Record? then [op.sample] else []
  }

  /** No pass of the run carries a later time than now. */
  ghost predicate NotAfter(ops: seq<Op>, now: int) {
    forall i :: 0 <= i < |ops| && !ops[i].Record? ==> ops[i].now <= now
  }

  // ---------------------------------------------------------------- closed form

  /** Where a sample belongs once a pass has run at time now. */
  function Target(s: Sample, now: int, days: int): Place {
    if MinuteOf(s.at) >= now - ROLLUP_AFTER then Minute
    else if days > 0 && CoarseOf(s.at) < RetentionCutoff(now, days) then Gone
    else Coarse
  }

  function Settled(samples: seq<Sample>, now: int, days: int): (r: Log)
    ensures |r| == |samples|
  {
    seq(|samples|, i requires 0 <= i < |samples| => Placed(samples[i], Target(samples[i], now, days)))
  }

  /** p may have got to its place by passes no later than now. */
  predicate OnTheWay(p: Placed, now: int, days: int) {
    match p.place
    case Minute => true
    case Coarse => MinuteOf(p.sample.at) < now - ROLLUP_AFTER
    case Gone => Target(p.sample, now, days).Gone?
  }

  function Expire(p: Placed, now: int, days: int): Placed {
    if days > 0 then Drop(p, RetentionCutoff(now, days)) else p
  }

  lemma KeyOfPlaced(p: Placed)
    requires !p.place.Gone?
    ensures p.Key().bucket == if p.place.Minute? then MinuteOf(p.sample.at) else CoarseOf(p.sample.at)
  {
    CoarseOfMinute(p.sample.at);
  }

  lemma PassSettles(p: Placed, now: int, days: int)
    requires OnTheWay(p, now, days)
    ensures Expire(Roll(p, now - ROLLUP_AFTER), now, days) == Placed(p.sample, Target(p.sample, now, days))
  {
    var r := Roll(p, now - ROLLUP_AFTER);
    if !r.place.Gone? {
      KeyOfPlaced(r);
    }
  }

  lemma RolledOnTheWay(p: Placed, at: int, now: int, days: int)
    requires OnTheWay(p, now, days) && at <= now
    ensures OnTheWay(Roll(p, at - ROLLUP_AFTER), now, days)
  {
  }

  lemma ExpiredOnTheWay(p: Placed, at: int, now: int, days: int)
    requires OnTheWay(p, now, days) && at <= now
    ensures OnTheWay(Expire(p, at, days), now, days)
  {
    if !p.place.Gone? {
      KeyOfPlaced(p);
    }
  }

  lemma {:induction false} RunKeepsSamples(ops: seq<Op>, now: int, days: int)
    requires NotAfter(ops, now)
    ensures |Run(ops, days)| == |Samples(ops)|
    ensures forall i :: 0 <= i < |Samples(ops)| ==>
                          Run(ops, days)[i].sample == Samples(ops)[i] && OnTheWay(Run(ops, days)[i], now, days)
  {
    if ops != [] {
      var n := |ops| - 1;
      assert forall i :: 0 <= i < n ==> ops[..n][i] == ops[i];
      RunKeepsSamples(ops[..n], now, days);
      var log := Run(ops[..n], days);
      if !ops[n].Record? {
        forall i | 0 <= i < |log|
          ensures Run(ops, days)[i].sample == log[i].sample && OnTheWay(Run(ops, days)[i], now, days)
        {
          RolledOnTheWay(log[i], ops[n].now, now, days);
          ExpiredOnTheWay(log[i], ops[n].now, now, days);
        }
      }
    }
  }

  lemma RunOfPass(ops: seq<Op>, now: int, days: int)
    ensures Run(ops + Pass(now), days) == Expired(RolledUp(Run(ops, days), now - ROLLUP_AFTER), now, days)
    ensures Samples(ops + Pass(now)) == Samples(ops)
  {
    var half := ops + [Rollup(now)];
    assert half[..|ops|] == ops;
    assert (ops + Pass(now))[..|half|] == half;
  }

  /** After a pass that is no earlier than the passes before it, the place of every
      sample ever recorded is a function of that sample and the pass alone: earlier
      passes, failed or skipped, and late arrivals leave no trace. */
  lemma ClosedForm(ops: seq<Op>, now: int, days: int)
    requires NotAfter(ops, now)
    ensures Run(ops + Pass(now), days) == Settled(Samples(ops), now, days)
  {
    RunOfPass(ops, now, days);
    RunKeepsSamples(ops, now, days);
    var log := Run(ops, days);
    forall i | 0 <= i < |log|
      ensures Run(ops + Pass(now), days)[i] == Settled(Samples(ops), now, days)[i]
    {
      PassSettles(log[i], now, days);
    }
  }

  lemma SettledConcat(a: seq<Sample>, b: seq<Sample>, now: int, days: int)
    ensures Settled(a + b, now, days) == Settled(a, now, days) + Settled(b, now, days)
  {
  }

  lemma {:induction false} SettledPermutation(a: seq<Sample>, b: seq<Sample>, now: int, days: int)
    requires multiset(a) == multiset(b)
    ensures multiset(Settled(a, now, days)) == multiset(Settled(b, now, days))
  {
    if a == [] {
      assert |multiset(b)| == 0;
    } else {
      var a', x := a[..|a| - 1], a[|a| - 1];
      var u, v := SplitAtLast(a, b);
      SettledPermutation(a', u + v, now, days);
      assert a == a' + [x];
      SettledConcat(a', [x], now, days);
      SettledConcat(u + [x], v, now, days);
      SettledConcat(u, [x], now, days);
      SettledConcat(u, v, now, days);
    }
  }

  /** Two runs that recorded the same samples, in any order and with any passes in
      between, and end in a pass at the same time have the same table. */
  lemma Confluence(ops1: seq<Op>, ops2: seq<Op>, now: int, days: int, table1: Table, table2: Table)
    requires NotAfter(ops1, now) && NotAfter(ops2, now)
    requires multiset(Samples(ops1)) == multiset(Samples(ops2))
    requires Represents(table1, Run(ops1 + Pass(now), days))
    requires Represents(table2, Run(ops2 + Pass(now), days))
    ensures table1 == table2
  {
    ClosedForm(ops1, now, days);
    ClosedForm(ops2, now, days);
    var log1, log2 := Settled(Samples(ops1), now, days), Settled(Samples(ops2), now, days);
    SettledPermutation(Samples(ops1), Samples(ops2), now, days);
    forall k: Key
      ensures Shows(table2, k, Total(log1, {k}))
    {
      TotalOfPermutation(log1, log2, {k});
      assert Shows(table2, k, Total(log2, {k}));
    }
    RepresentationIsUnique(table1, table2, log1);
  }

  /** Repeating a pass changes nothing. */
  lemma PassIsIdempotent(ops: seq<Op>, now: int, days: int)
    requires NotAfter(ops, now)
    ensures Run(ops + Pass(now) + Pass(now), days) == Run(ops + Pass(now), days)
  {
    ClosedForm(ops, now, days);
    RunOfPass(ops, now, days);
    ClosedForm(ops + Pass(now), now, days);
  }

  // --------------------------------------------------------- retention accuracy

  /** After a pass with retention, a sample is dropped exactly if its five-minute
      window starts before the cutoff; so what is kept is never older than the cutoff. */
  lemma RetainedSamples(ops: seq<Op>, now: int, days: int, i: int)
    requires NotAfter(ops, now) && days >= 1
    requires 0 <= i < |Samples(ops)|
    ensures |Run(ops + Pass(now), days)| == |Samples(ops)|
    ensures var p := Run(ops + Pass(now), days)[i];
            && p.sample == Samples(ops)[i]
            && (p.place.Gone? <==> CoarseOf(p.sample.at) < RetentionCutoff(now, days))
            && (!p.place.Gone? ==> p.sample.at >= RetentionCutoff(now, days))
  {
    ClosedForm(ops, now, days);
  }

  /** The same in plain numbers. After a pass a sample is in a minute row exactly if its minute
      started at most six hours before, and with d >= 1 days of retention it is gone exactly if
      its five-minute window started more than d times 24 hours before; without retention no
      sample is ever gone. */
  lemma PlaceByAge(ops: seq<Op>, now: int, days: int, i: int)
    requires NotAfter(ops, now) && 0 <= i < |Samples(ops)|
    ensures |Run(ops + Pass(now), days)| == |Samples(ops)|
    ensures var p := Run(ops + Pass(now), days)[i];
            && p.sample == Samples(ops)[i]
            && (p.place.Minute? <==> now - MinuteOf(p.sample.at) <= 6 * 60 * MINUTE)
            && (days >= 1 ==> (p.place.Gone? <==> now - CoarseOf(p.sample.at) > days * 24 * 60 * MINUTE))
            && (days <= 0 ==> !p.place.Gone?)
  {
    ClosedForm(ops, now, days);
    if days >= 1 {
      RetainedSamples(ops, now, days, i);
    }
  }

  /** Whatever the order of times, a dropped sample was dropped by one particular delete of
      the run, and was less than five minutes newer than that delete's cutoff. */
  lemma {:induction false} DroppedSamples(ops: seq<Op>, days: int, i: int) returns (j: int)
    requires 0 <= i < |Run(ops, days)| && Run(ops, days)[i].place.Gone?
    ensures days > 0 && 0 <= j < |ops| && ops[j].Delete?
    ensures i < |Run(ops[..j], days)| && !Run(ops[..j], days)[i].place.Gone?
    ensures i < |Run(ops[..j + 1], days)| && Run(ops[..j + 1], days)[i].place.Gone?
    ensures Run(ops, days)[i].sample == Run(ops[..j], days)[i].sample
    ensures Run(ops, days)[i].sample.at < RetentionCutoff(ops[j].now, days) + FIVE_MINUTES
  {
    var n := |ops| - 1;
    var log := Run(ops[..n], days);
    if i < |log| && log[i].place.Gone? {
      j := DroppedSamples(ops[..n], days, i);
      assert ops[..n][..j] == ops[..j] && ops[..n][..j + 1] == ops[..j + 1];
    } else {
      j := n;
      KeyOfPlaced(log[i]);
      assert ops[..n + 1] == ops;
    }
  }

  // --------------------------------------------------------------- conservation

  /** The rows that cover one five-minute window of one entity. */
  function WindowKeys(e: Entity, w: int): set<Key> {
    {Key(e, 60, w), Key(e, 60, w + 60_000_000_000), Key(e, 60, w + 120_000_000_000),
     Key(e, 60, w + 180_000_000_000), Key(e, 60, w + 240_000_000_000), Key(e, 300, w)}
  }

  /** Count and count-weighted sum held under a key. */
  function Held(table: Table, k: Key): Tot {
    if k in table then TotOf(table[k]) else NOTHING
  }

  /** Count and count-weighted sums over the rows of one window. */
  function WindowTotal(table: Table, e: Entity, w: int): Tot {
    Held(table, Key(e, 60, w))
    .Plus(Held(table, Key(e, 60, w + 60_000_000_000)))
    .Plus(Held(table, Key(e, 60, w + 120_000_000_000)))
    .Plus(Held(table, Key(e, 60, w + 180_000_000_000)))
    .Plus(Held(table, Key(e, 60, w + 240_000_000_000)))
    .Plus(Held(table, Key(e, 300, w)))
  }

  lemma HeldIsTotal(table: Table, log: Log, k: Key)
    requires Represents(table, log)
    ensures Held(table, k) == Total(log, {k})
  {
    assert Shows(table, k, Total(log, {k}));
    if k in table {
      TotOfRowOf(Total(log, {k}));
    } else {
      EmptyTotal(log, {k});
    }
  }

  lemma AddKey(log: Log, s: set<Key>, k: Key, t: Tot, h: Tot)
    requires k !in s && Total(log, s) == t && Total(log, {k}) == h
    ensures Total(log, s + {k}) == t.Plus(h)
  {
    TotalOfUnion(log, s, {k});
  }

  lemma WindowTotalIsTotal(table: Table, log: Log, e: Entity, w: int)
    requires Represents(table, log)
    ensures WindowTotal(table, e, w) == Total(log, WindowKeys(e, w))
  {
    hide Held, Tot.Plus;
    var a, b, c := Key(e, 60, w), Key(e, 60, w + 60_000_000_000), Key(e, 60, w + 120_000_000_000);
    var d, f, g := Key(e, 60, w + 180_000_000_000), Key(e, 60, w + 240_000_000_000), Key(e, 300, w);
    HeldIsTotal(table, log, a);
    HeldIsTotal(table, log, b);
    HeldIsTotal(table, log, c);
    HeldIsTotal(table, log, d);
    HeldIsTotal(table, log, f);
    HeldIsTotal(table, log, g);
    AddKey(log, {a}, b, Held(table, a), Held(table, b));
    AddKey(log, {a} + {b}, c, Total(log, {a} + {b}), Held(table, c));
    AddKey(log, {a} + {b} + {c}, d, Total(log, {a} + {b} + {c}), Held(table, d));
    AddKey(log, {a} + {b} + {c} + {d}, f, Total(log, {a} + {b} + {c} + {d}), Held(table, f));
    AddKey(log, {a} + {b} + {c} + {d} + {f}, g, Total(log, {a} + {b} + {c} + {d} + {f}), Held(table, g));
    assert WindowKeys(e, w) == {a} + {b} + {c} + {d} + {f} + {g};
  }

  /** A sample's keys at either resolution belong to the same window. */
  lemma InWindow(p: Placed, e: Entity, w: int)
    requires w % 300_000_000_000 == 0
    ensures p.In(WindowKeys(e, w)) <==> !p.place.Gone? && p.sample.entity == e && CoarseOf(p.sample.at) == w
  {
    if !p.place.Gone? {
      KeyOfPlaced(p);
      CoarseOfMinute(p.sample.at);
      if p.place.Minute? {
        MinuteInWindow(p.sample.at, w);
      }
    }
  }

  lemma MinuteInWindow(t: int, w: int)
    requires w % 300_000_000_000 == 0
    ensures CoarseOf(t) == w <==>
            || MinuteOf(t) == w || MinuteOf(t) == w + 60_000_000_000 || MinuteOf(t) == w + 120_000_000_000
            || MinuteOf(t) == w + 180_000_000_000 || MinuteOf(t) == w + 240_000_000_000
  {
    var q := w / 300_000_000_000;
    if CoarseOf(t) == w {
      var m := (t - w) / 60_000_000_000;
      MinuteIs(t, 5 * q + m);
    } else if w <= MinuteOf(t) <= w + 240_000_000_000 {
      CoarseIs(t, q);
    }
  }

  /** A roll-up preserves, for every entity and five-minute window, the number of samples
      and the sums of all five measures, whether or not the coarse row already existed. */
  lemma RollupConserves(before: Table, log: Log, cutoff: int, after: Table, e: Entity, w: int)
    requires Represents(before, log) && Represents(after, RolledUp(log, cutoff))
    requires w % 300_000_000_000 == 0
    ensures WindowTotal(after, e, w) == WindowTotal(before, e, w)
  {
    WindowTotalIsTotal(before, log, e, w);
    WindowTotalIsTotal(after, RolledUp(log, cutoff), e, w);
    RolledWindow(log, cutoff, e, w);
  }

  lemma RolledWindow(log: Log, cutoff: int, e: Entity, w: int)
    requires w % 300_000_000_000 == 0
    ensures Total(RolledUp(log, cutoff), WindowKeys(e, w)) == Total(log, WindowKeys(e, w))
  {
    var r, keys := RolledUp(log, cutoff), WindowKeys(e, w);
    forall i | 0 <= i < |log|
      ensures r[i].sample == log[i].sample && (r[i].In(keys) <==> log[i].In(keys))
    {
      InWindow(log[i], e, w);
      InWindow(r[i], e, w);
    }
    TotalOfRelabelled(r, keys, log, keys);
  }

  // --------------------------------------------------------------- the table itself

  /** Every log has a table. */
  function IndexOf(log: Log): Table {
    map k | k in LiveKeys(log) :: RowOf(Total(log, {k}))
  }

  function LiveKeys(log: Log): set<Key> {
    set i | 0 <= i < |log| && !log[i].place.Gone? :: log[i].Key()
  }

  lemma IndexRepresents(log: Log)
    ensures Represents(IndexOf(log), log)
  {
    forall k: Key
      ensures Shows(IndexOf(log), k, Total(log, {k}))
    {
      if k in LiveKeys(log) {
        var i :| 0 <= i < |log| && !log[i].place.Gone? && log[i].Key() == k;
        TotalIsPositive(log, {k}, i);
      } else if Total(log, {k}).n > 0 {
        var i := TotalHasWitness(log, {k});
        assert false;
      }
    }
  }

  /** After a run and a pass the table itself is a function of the samples ever recorded, the
      time of that pass and the retention days. */
  lemma TableIsClosedForm(ops: seq<Op>, now: int, days: int, table: Table)
    requires NotAfter(ops, now) && Represents(table, Run(ops + Pass(now), days))
    ensures table == IndexOf(Settled(Samples(ops), now, days))
  {
    ClosedForm(ops, now, days);
    IndexRepresents(Settled(Samples(ops), now, days));
    RepresentationIsUnique(table, IndexOf(Settled(Samples(ops), now, days)), Settled(Samples(ops), now, days));
  }

  // --------------------------------------------------------------- storage bound

  function RowKeys(table: Table, e: Entity, resolution: int): set<Key> {
    set k | k in table && k.entity == e && k.resolution == resolution
  }

  lemma {:induction false} CountByIndex(keys: set<Key>, e: Entity, resolution: int, index: Key -> int, first: int, n: nat)
    requires forall k :: k in keys ==> k.entity == e && k.resolution == resolution && first <= index(k) < first + n
    requires forall j, k :: j in keys && k in keys && index(j) == index(k) ==> j.bucket == k.bucket
    ensures |keys| <= n
    decreases n
  {
    if n == 0 {
      assert forall k :: k !in keys;
      assert keys == {};
    } else {
      var top := set k | k in keys && index(k) == first + n - 1;
      CountByIndex(keys - top, e, resolution, index, first, n - 1);
      if k :| k in top {
        assert top == {k};
      } else {
        assert keys - top == keys;
      }
      assert |keys| <= |keys - top| + |top| by {
        assert keys == (keys - top) + top;
      }
    }
  }

  lemma SettledKey(s: Sample, now: int, days: int)
    requires Target(s, now, days) != Gone
    ensures var k := Placed(s, Target(s, now, days)).Key();
            && k.entity == s.entity
            && if MinuteOf(s.at) >= now - ROLLUP_AFTER then k.resolution == MINUTE_RESOLUTION && k.bucket == MinuteOf(s.at)
               else && k.resolution == COARSE_RESOLUTION && k.bucket == CoarseOf(s.at) <= MinuteOf(s.at)
                    && (days > 0 ==> RetentionCutoff(now, days) <= k.bucket)
  {
    KeyOfPlaced(Placed(s, Target(s, now, days)));
    CoarseOfMinute(s.at);
  }

  /** Every stored row has a sample behind it, which fixes its bucket and resolution. */
  lemma StoredKey(samples: seq<Sample>, now: int, days: int, table: Table, k: Key) returns (s: Sample)
    requires Represents(table, Settled(samples, now, days)) && k in table
    ensures s in samples && s.entity == k.entity && k.bucket <= s.at
    ensures k.resolution == MINUTE_RESOLUTION ==>
              k.bucket == MinuteOf(s.at) && k.bucket % 60_000_000_000 == 0 && now - ROLLUP_AFTER <= k.bucket
    ensures k.resolution != MINUTE_RESOLUTION ==>
              && k.resolution == COARSE_RESOLUTION
              && k.bucket == CoarseOf(s.at)
              && k.bucket % 300_000_000_000 == 0
              && MinuteOf(s.at) < now - ROLLUP_AFTER
              && k.bucket < now - ROLLUP_AFTER
              && (days > 0 ==> RetentionCutoff(now, days) <= k.bucket)
  {
    var log := Settled(samples, now, days);
    assert Shows(table, k, Total(log, {k}));
    var i := TotalHasWitness(log, {k});
    s := samples[i];
    assert k == log[i].Key();
    BucketsAreAligned(s.at);
    SettledKey(s, now, days);
  }

  lemma SettledBound(samples: seq<Sample>, now: int, days: int, table: Table, e: Entity)
    requires days >= 1 && Represents(table, Settled(samples, now, days))
    requires forall s :: s in samples && s.entity == e ==> s.at <= now
    ensures |RowKeys(table, e, MINUTE_RESOLUTION)| <= 361
    ensures |RowKeys(table, e, COARSE_RESOLUTION)| <= 288 * days - 72
  {
    var minutes, coarse := RowKeys(table, e, MINUTE_RESOLUTION), RowKeys(table, e, COARSE_RESOLUTION);
    forall k | k in minutes
      ensures k.bucket % 60_000_000_000 == 0 && now - ROLLUP_AFTER <= k.bucket <= now
    {
      var s := StoredKey(samples, now, days, table, k);
    }
    forall k | k in coarse
      ensures k.bucket % 300_000_000_000 == 0 && RetentionCutoff(now, days) <= k.bucket < now - ROLLUP_AFTER
    {
      var s := StoredKey(samples, now, days, table, k);
    }
    var minuteIndex := (k: Key) => k.bucket / 60_000_000_000;
    CountByIndex(minutes, e, MINUTE_RESOLUTION, minuteIndex, (now - ROLLUP_AFTER + 59_999_999_999) / 60_000_000_000, 361);
    var coarseIndex := (k: Key) => k.bucket / 300_000_000_000;
    CountByIndex(coarse, e, COARSE_RESOLUTION, coarseIndex,
                 (RetentionCutoff(now, days) + 299_999_999_999) / 300_000_000_000, 288 * days - 72);
  }

  /** Right after a pass with d days of retention, an entity without samples from the
      future takes at most 361 minute rows and 288 d - 72 five-minute rows. */
  lemma StorageBound(ops: seq<Op>, now: int, days: int, table: Table, e: Entity)
    requires NotAfter(ops, now) && days >= 1
    requires Represents(table, Run(ops + Pass(now), days))
    requires forall s :: s in Samples(ops) && s.entity == e ==> s.at <= now
    ensures |RowKeys(table, e, MINUTE_RESOLUTION)| <= 361
    ensures |RowKeys(table, e, COARSE_RESOLUTION)| <= 288 * days - 72
  {
    ClosedForm(ops, now, days);
    SettledBound(Samples(ops), now, days, table, e);
  }

  /** One sample in each of n minutes, from start on. */
  function EveryMinute(e: Entity, start: int, n: nat): (r: seq<Sample>)
    ensures |r| == n
  {
    seq(n, i requires 0 <= i < n => Sample(e, start + i * 60_000_000_000, ZERO))
  }

  /** The samples of a whole retention time up to now. */
  function EveryMinuteOf(e: Entity, now: int, days: nat): seq<Sample> {
    EveryMinute(e, now - days * 86_400_000_000_000, days * 1440 + 1)
  }

  /** Keys of one resolution at the first n places of a sequence of starts. */
  function Starts(e: Entity, resolution: int, at: nat -> int, n: nat): set<Key> {
    set i: nat | i < n :: Key(e, resolution, at(i))
  }

  lemma {:induction false} StartsAreDistinct(e: Entity, resolution: int, at: nat -> int, n: nat)
    requires forall i: nat, j: nat :: i < j < n ==> at(i) != at(j)
    ensures |Starts(e, resolution, at, n)| == n
  {
    if n > 0 {
      var earlier, last := Starts(e, resolution, at, n - 1), Key(e, resolution, at(n - 1));
      StartsAreDistinct(e, resolution, at, n - 1);
      assert last !in earlier;
      assert Starts(e, resolution, at, n) == earlier + {last};
    }
  }

  lemma KeyIsStored(samples: seq<Sample>, now: int, days: int, i: int)
    requires 0 <= i < |samples| && Target(samples[i], now, days) != Gone
    ensures Placed(samples[i], Target(samples[i], now, days)).Key() in IndexOf(Settled(samples, now, days))
  {
    var log := Settled(samples, now, days);
    assert log[i] == Placed(samples[i], Target(samples[i], now, days));
    assert log[i].Key() in LiveKeys(log);
  }

  lemma MinuteStart(now: int, i: nat)
    requires now % 300_000_000_000 == 0
    ensures var t := now - ROLLUP_AFTER + i * 60_000_000_000;
            MinuteOf(t) == t
  {
    MinuteIs(now - ROLLUP_AFTER + i * 60_000_000_000, now / 300_000_000_000 * 5 - 360 + i);
  }

  lemma MinuteTarget(s: Sample, now: int, days: int)
    requires MinuteOf(s.at) >= now - ROLLUP_AFTER
    ensures Target(s, now, days) == Minute
  {
  }

  lemma MinuteRowIsThere(now: int, days: nat, e: Entity, i: nat)
    requires days >= 1 && now % 300_000_000_000 == 0 && i < 361
    ensures Key(e, MINUTE_RESOLUTION, now - ROLLUP_AFTER + i * 60_000_000_000)
         in IndexOf(Settled(EveryMinuteOf(e, now, days), now, days))
  {
    var t, j := now - ROLLUP_AFTER + i * 60_000_000_000, days * 1440 - 360 + i;
    hide MinuteOf, CoarseOf, Target;
    assert EveryMinuteOf(e, now, days)[j] == Sample(e, t, ZERO);
    MinuteStart(now, i);
    MinuteTarget(Sample(e, t, ZERO), now, days);
    KeyIsStored(EveryMinuteOf(e, now, days), now, days, j);
  }

  lemma CoarseRowIsThere(now: int, days: nat, e: Entity, i: nat)
    requires days >= 1 && now % 300_000_000_000 == 0 && i < 288 * days - 72
    ensures Key(e, COARSE_RESOLUTION, now - days * 86_400_000_000_000 + i * 300_000_000_000)
         in IndexOf(Settled(EveryMinuteOf(e, now, days), now, days))
  {
    var t, j := now - days * 86_400_000_000_000 + i * 300_000_000_000, 5 * i;
    assert EveryMinuteOf(e, now, days)[j] == Sample(e, t, ZERO);
    MinuteIs(t, now / 60_000_000_000 - days * 1440 + 5 * i);
    CoarseIs(t, now / 300_000_000_000 - days * 288 + i);
    KeyOfPlaced(Placed(Sample(e, t, ZERO), Coarse));
    hide MinuteOf, CoarseOf, EveryMinuteOf;
    assert t < now - ROLLUP_AFTER;
    KeyIsStored(EveryMinuteOf(e, now, days), now, days, j);
  }

  lemma AtLeast<T>(a: set<T>, b: set<T>)
    requires a <= b
    ensures |a| <= |b|
  {
    assert b == a + (b - a);
  }

  lemma MinuteRowsAreThere(now: int, days: nat, e: Entity)
    requires days >= 1 && now % 300_000_000_000 == 0
    ensures |RowKeys(IndexOf(Settled(EveryMinuteOf(e, now, days), now, days)), e, MINUTE_RESOLUTION)| >= 361
  {
    hide EveryMinuteOf, Settled, IndexOf;
    var table := IndexOf(Settled(EveryMinuteOf(e, now, days), now, days));
    var at := (i: nat) => now - ROLLUP_AFTER + i * 60_000_000_000;
    forall i: nat | i < 361
      ensures Key(e, MINUTE_RESOLUTION, at(i)) in table
    {
      MinuteRowIsThere(now, days, e, i);
    }
    StartsAreDistinct(e, MINUTE_RESOLUTION, at, 361);
    AtLeast(Starts(e, MINUTE_RESOLUTION, at, 361), RowKeys(table, e, MINUTE_RESOLUTION));
  }

  lemma CoarseRowsAreThere(now: int, days: nat, e: Entity)
    requires days >= 1 && now % 300_000_000_000 == 0
    ensures |RowKeys(IndexOf(Settled(EveryMinuteOf(e, now, days), now, days)), e, COARSE_RESOLUTION)| >= 288 * days - 72
  {
    hide EveryMinuteOf, Settled, IndexOf;
    var table := IndexOf(Settled(EveryMinuteOf(e, now, days), now, days));
    var at := (i: nat) => now - days * 86_400_000_000_000 + i * 300_000_000_000;
    forall i: nat | i < 288 * days - 72
      ensures Key(e, COARSE_RESOLUTION, at(i)) in table
    {
      CoarseRowIsThere(now, days, e, i);
    }
    StartsAreDistinct(e, COARSE_RESOLUTION, at, 288 * days - 72);
    AtLeast(Starts(e, COARSE_RESOLUTION, at, 288 * days - 72), RowKeys(table, e, COARSE_RESOLUTION));
  }

  /** The bound is attained: by a sample in every minute of the retention time, right after a
      pass on a five-minute mark. */
  lemma StorageBoundIsAttained(now: int, days: nat, e: Entity)
    requires days >= 1 && now % 300_000_000_000 == 0
    ensures forall s :: s in EveryMinuteOf(e, now, days) ==> s.at <= now
    ensures var table := IndexOf(Settled(EveryMinuteOf(e, now, days), now, days));
            && |RowKeys(table, e, MINUTE_RESOLUTION)| == 361
            && |RowKeys(table, e, COARSE_RESOLUTION)| == 288 * days - 72
  {
    assert forall s :: s in EveryMinuteOf(e, now, days) ==> s.at <= now;
    hide EveryMinuteOf, Settled, IndexOf, RowKeys;
    var log := Settled(EveryMinuteOf(e, now, days), now, days);
    IndexRepresents(log);
    SettledBound(EveryMinuteOf(e, now, days), now, days, IndexOf(log), e);
    MinuteRowsAreThere(now, days, e);
    CoarseRowsAreThere(now, days, e);
  }

  // --------------------------------------------------------------------- queries

  function SumOfCounts(points: seq<Point>): int {
    if points == [] then 0
    else SumOfCounts(points[..|points| - 1]) + points[|points| - 1].sampleCount
  }

  function PointKeys(e: Entity, points: seq<Point>): set<Key> {
    set i | 0 <= i < |points| :: PointKey(e, points[i])
  }

  /** The number of samples of e taken in [from, end) that are still represented. */
  function Retained(log: Log, e: Entity, from: int, end: int): nat {
    if log == [] then 0
    else
      Retained(log[..|log| - 1], e, from, end)
      + if IsRetained(log[|log| - 1], e, from, end) then 1 else 0
  }

  predicate IsRetained(p: Placed, e: Entity, from: int, end: int) {
    !p.place.Gone? && p.sample.entity == e && from <= p.sample.at < end
  }

  lemma CountOfPlus(a: Tot, b: Tot)
    ensures a.Plus(b).n == a.n + b.n
  {
  }

  lemma CountIsTotal(table: Table, log: Log, k: Key)
    requires Represents(table, log) && k in table
    ensures table[k].count == Total(log, {k}).n
  {
    assert Shows(table, k, Total(log, {k}));
  }

  lemma {:induction false} SumIsTotal(points: seq<Point>, table: Table, log: Log, e: Entity)
    requires Represents(table, log)
    requires forall i :: 0 <= i < |points| ==>
                           && PointKey(e, points[i]) in table
                           && table[PointKey(e, points[i])].count == points[i].sampleCount
    requires forall i, j :: 0 <= i < j < |points| ==> PointKey(e, points[i]) != PointKey(e, points[j])
    ensures SumOfCounts(points) == Total(log, PointKeys(e, points)).n
  {
    hide Total, Represents, RowOf, Tot.Plus;
    if points == [] {
      TotalOfNone(log, PointKeys(e, points));
    } else {
      var n := |points| - 1;
      var rest, k := points[..n], PointKey(e, points[n]);
      assert forall i :: 0 <= i < n ==> rest[i] == points[i];
      SumIsTotal(rest, table, log, e);
      assert PointKeys(e, points) == PointKeys(e, rest) + {k};
      TotalOfUnion(log, PointKeys(e, rest), {k});
      CountOfPlus(Total(log, PointKeys(e, rest)), Total(log, {k}));
      CountIsTotal(table, log, k);
    }
  }

  lemma NothingCounted(keys: set<Key>, e: Entity, from: int, end: int)
    ensures Total([], keys).n == Retained([], e, from, end)
  {
  }

  lemma CountOfTotal(log: Log, keys: set<Key>)
    requires log != []
    ensures Total(log, keys).n == Total(log[..|log| - 1], keys).n + if log[|log| - 1].In(keys) then 1 else 0
  {
  }

  lemma CountOfRetained(log: Log, e: Entity, from: int, end: int)
    requires log != []
    ensures Retained(log, e, from, end)
         == Retained(log[..|log| - 1], e, from, end) + if IsRetained(log[|log| - 1], e, from, end) then 1 else 0
  {
  }

  lemma {:induction false} RetainedIsTotal(log: Log, keys: set<Key>, e: Entity, from: int, end: int)
    requires forall i :: 0 <= i < |log| ==> (log[i].In(keys) <==> IsRetained(log[i], e, from, end))
    ensures Total(log, keys).n == Retained(log, e, from, end)
  {
    hide *;
    if log == [] {
      NothingCounted(keys, e, from, end);
    } else {
      var n := |log| - 1;
      assert forall i :: 0 <= i < n ==> log[..n][i] == log[i];
      RetainedIsTotal(log[..n], keys, e, from, end);
      CountOfTotal(log, keys);
      CountOfRetained(log, e, from, end);
    }
  }

  /** At any time, a query over whole five-minute windows accounts for exactly the
      samples taken in them that are still represented: none missed, none twice. */
  lemma QueryCountsSamples(points: seq<Point>, table: Table, log: Log, e: Entity, from: int, end: int)
    requires Represents(table, log) && IsRange(points, table, e, from, end - 1)
    requires from % 300_000_000_000 == 0 && end % 300_000_000_000 == 0
    ensures SumOfCounts(points) == Retained(log, e, from, end)
  {
    SumIsTotal(points, table, log, e);
    forall i | 0 <= i < |log|
      ensures log[i].In(PointKeys(e, points)) <==> IsRetained(log[i], e, from, end)
    {
      QueriedEntry(points, table, log, e, from, end, i);
    }
    RetainedIsTotal(log, PointKeys(e, points), e, from, end);
  }

  lemma QueriedEntry(points: seq<Point>, table: Table, log: Log, e: Entity, from: int, end: int, i: int)
    requires Represents(table, log) && IsRange(points, table, e, from, end - 1)
    requires from % 300_000_000_000 == 0 && end % 300_000_000_000 == 0
    requires 0 <= i < |log|
    ensures log[i].In(PointKeys(e, points)) <==> IsRetained(log[i], e, from, end)
  {
    var p := log[i];
    if !p.place.Gone? {
      var k := p.Key();
      KeyOfPlaced(p);
      AlignedBound(p.sample.at, from);
      AlignedBound(p.sample.at, end);
      TotalIsPositive(log, {k}, i);
      assert Shows(table, k, Total(log, {k}));
      if k in PointKeys(e, points) {
        var j :| 0 <= j < |points| && PointKey(e, points[j]) == k;
        assert from <= points[j].bucketStart <= end - 1;
      }
    }
  }

  /** Right after a pass, no two points of a query start at the same time. */
  lemma QueryIsStrictlyAscending(ops: seq<Op>, now: int, days: int, table: Table, points: seq<Point>,
                                 e: Entity, from: int, to: int, i: int, j: int)
    requires NotAfter(ops, now) && Represents(table, Run(ops + Pass(now), days))
    requires IsRange(points, table, e, from, to) && 0 <= i < j < |points|
    ensures points[i].bucketStart < points[j].bucketStart
  {
    ClosedForm(ops, now, days);
    var s := StoredKey(Samples(ops), now, days, table, PointKey(e, points[i]));
    var t := StoredKey(Samples(ops), now, days, table, PointKey(e, points[j]));
  }
}
