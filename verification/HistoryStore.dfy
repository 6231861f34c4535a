/** The historical store: the running-average upsert, the roll-up of old minute
    buckets, retention and range queries, each proved against the samples the
    table stands for. */
module HistoryStore {
  import opened HistoryIndex

  // ------------------------------------------------------------- upserted rows

  /** The DO UPDATE of a single sample; every right-hand side reads the old row. */
  function FoldSample(r: Row, v: Vec): Row
    requires r.count > 0
  {
    var n := r.count as real + 1.0;
    Row(r.count + 1,
        Vec(r.avg.cpu + (v.cpu - r.avg.cpu) / n,
            r.avg.memUsed + (v.memUsed - r.avg.memUsed) / n,
            r.avg.memLimit + (v.memLimit - r.avg.memLimit) / n,
            r.avg.netRX + (v.netRX - r.avg.netRX) / n,
            r.avg.netTX + (v.netTX - r.avg.netTX) / n))
  }

  lemma FoldSampleIsMean(t: Tot, v: Vec)
    requires t.n > 0
    ensures FoldSample(RowOf(t), v) == RowOf(t.Plus(Tot(1, v)))
  {
    var n := t.n as real;
    assert (t.n + 1) as real == n + 1.0;
    RunningMean(t.sum.cpu, n, v.cpu);
    RunningMean(t.sum.memUsed, n, v.memUsed);
    RunningMean(t.sum.memLimit, n, v.memLimit);
    RunningMean(t.sum.netRX, n, v.netRX);
    RunningMean(t.sum.netTX, n, v.netTX);
  }

  /** The table after the upsert of one sample into its one-minute bucket. */
  function WithSample(table: Table, s: Sample): Table
    requires forall k :: k in table ==> table[k].count > 0
  {
    var key := MinuteKey(s.entity, s.at);
    table[key := if key in table then FoldSample(table[key], s.value) else Row(1, s.value)]
  }

  /** The DO UPDATE of a rolled-up bucket. */
  function MergeRows(r: Row, x: Row): Row
    requires r.count > 0 && x.count > 0
  {
    var a, b := r.count as real, x.count as real;
    Row(r.count + x.count, r.avg.Times(a).Plus(x.avg.Times(b)).Over(a + b))
  }

  lemma MergeRowsIsMean(s: Tot, t: Tot)
    requires s.n > 0 && t.n > 0
    ensures MergeRows(RowOf(s), RowOf(t)) == RowOf(s.Plus(t))
  {
    TotOfRowOf(s);
    TotOfRowOf(t);
    assert (s.n + t.n) as real == s.n as real + t.n as real;
  }

  // ------------------------------------------------- what a roll-up has to do

  /** The effect on one sample of a roll-up with the given cutoff. */
  function Roll(p: Placed, cutoff: int): Placed {
    if p.place.Minute? && MinuteOf(p.sample.at) < cutoff then Placed(p.sample, Coarse) else p
  }

  function RolledUp(log: Log, cutoff: int): (r: Log)
    ensures |r| == |log|
  {
    seq(|log|, i requires 0 <= i < |log| => Roll(log[i], cutoff))
  }

  /** The effect on one sample of deleting every row that starts before the cutoff. */
  function Drop(p: Placed, cutoff: int): Placed {
    if !p.place.Gone? && p.Key().bucket < cutoff then Placed(p.sample, Gone) else p
  }

  function Dropped(log: Log, cutoff: int): (r: Log)
    ensures |r| == |log|
  {
    seq(|log|, i requires 0 <= i < |log| => Drop(log[i], cutoff))
  }

  /** The delete of a retention pass; without a positive number of days there is none. */
  function Expired(log: Log, now: int, days: int): (r: Log)
    ensures |r| == |log|
  {
    if days > 0 then Dropped(log, RetentionCutoff(now, days)) else log
  }

  /** Newly recorded samples, in order of arrival. */
  function Fresh(samples: seq<Sample>): (r: Log)
    ensures |r| == |samples|
  {
    seq(|samples|, i requires 0 <= i < |samples| => Placed(samples[i], Minute))
  }

  /** The same once the minute rows at the given starts have been deleted. */
  function Arrived(samples: seq<Sample>, deleted: seq<int>): (r: Log)
    ensures |r| == |samples|
  {
    seq(|samples|, i requires 0 <= i < |samples| =>
      Placed(samples[i], if MinuteOf(samples[i].at) in deleted then Gone else Minute))
  }

  // ------------------------------------------------------- one roll-up's parts

  datatype Selected = Selected(key: Key, row: Row)

  predicate IsOld(k: Key, cutoff: int) {
    k.resolution == MINUTE_RESOLUTION && k.bucket < cutoff
  }

  /** snap is a result, in any order, of selecting the minute rows before cutoff. */
  ghost predicate IsSelection(snap: seq<Selected>, table: Table, cutoff: int) {
    && IsPartOf(snap, table)
    && (forall k :: k in SelectedKeys(snap) <==> k in table && IsOld(k, cutoff))
  }

  function SelectedKeys(snap: seq<Selected>): set<Key> {
    set i | 0 <= i < |snap| :: snap[i].key
  }

  /** The selected rows that fall into the coarse bucket g. */
  function Sources(snap: seq<Selected>, g: Key): set<Key> {
    set k | k in SelectedKeys(snap) && CoarseKey(k) == g
  }

  function CoarseKeys(snap: seq<Selected>): set<Key> {
    set k | k in SelectedKeys(snap) :: CoarseKey(k)
  }

  function GroupTotal(snap: seq<Selected>, g: Key): Tot {
    if snap == [] then NOTHING
    else
      var rest, x := snap[..|snap| - 1], snap[|snap| - 1];
      if CoarseKey(x.key) == g then GroupTotal(rest, g).Plus(TotOf(x.row)) else GroupTotal(rest, g)
  }

  ghost predicate IsGrouping(groups: map<Key, Tot>, snap: seq<Selected>) {
    && groups.Keys == CoarseKeys(snap)
    && (forall g :: g in groups ==> groups[g] == GroupTotal(snap, g))
  }

  function SourceBuckets(snap: seq<Selected>): (r: seq<int>)
    ensures |r| == |snap|
  {
    seq(|snap|, i requires 0 <= i < |snap| => snap[i].key.bucket)
  }

  /** The table once the groups in done have been upserted. */
  function Upserted(table: Table, groups: map<Key, Tot>, done: set<Key>): Table
    requires done <= groups.Keys
    requires forall g :: g in groups ==> groups[g].n > 0
    requires forall k :: k in table ==> table[k].count > 0
  {
    map k | k in table.Keys + done ::
      if k !in done then table[k]
      else if k in table then MergeRows(table[k], RowOf(groups[k]))
      else RowOf(groups[k])
  }

  /** The table without the minute rows, of any entity, that start at one of the buckets. */
  function Purged(table: Table, buckets: seq<int>): Table {
    map k | k in table && !(k.resolution == MINUTE_RESOLUTION && k.bucket in buckets) :: table[k]
  }

  // ------------------------------------------------------- roll-up correctness

  lemma RowsArePopulated(table: Table, log: Log)
    requires Represents(table, log)
    ensures forall k :: k in table ==> table[k].count > 0
  {
    forall k | k in table
      ensures table[k].count > 0
    {
      assert Shows(table, k, Total(log, {k}));
    }
  }

  ghost predicate IsPartOf(snap: seq<Selected>, table: Table) {
    && (forall i :: 0 <= i < |snap| ==> snap[i].key in table && table[snap[i].key] == snap[i].row)
    && (forall i, j :: 0 <= i < j < |snap| ==> snap[i].key != snap[j].key)
  }

  lemma SelectedLast(snap: seq<Selected>)
    requires snap != []
    ensures var rest, x := snap[..|snap| - 1], snap[|snap| - 1];
            SelectedKeys(snap) == SelectedKeys(rest) + {x.key}
  {
    var n := |snap| - 1;
    assert forall i :: 0 <= i < n ==> snap[..n][i] == snap[i];
    forall k | k in SelectedKeys(snap)
      ensures k in SelectedKeys(snap[..n]) + {snap[n].key}
    {
      var i :| 0 <= i < |snap| && snap[i].key == k;
      assert i < n ==> snap[..n][i].key == k;
    }
  }

  lemma {:induction false} GroupTotalIsTotal(snap: seq<Selected>, table: Table, log: Log, g: Key)
    requires Represents(table, log) && IsPartOf(snap, table)
    ensures GroupTotal(snap, g) == Total(log, Sources(snap, g))
  {
    hide Represents, Total, TotOf, Tot.Plus;
    if snap == [] {
      TotalOfNone(log, Sources(snap, g));
    } else {
      var n := |snap| - 1;
      var rest, x := snap[..n], snap[n];
      assert forall i :: 0 <= i < n ==> rest[i] == snap[i];
      GroupTotalIsTotal(rest, table, log, g);
      RowIsTotal(x, table, log);
      SourcesOfLast(snap, g);
      if CoarseKey(x.key) == g {
        TotalOfUnion(log, Sources(rest, g), {x.key});
      }
    }
  }

  lemma RowIsTotal(x: Selected, table: Table, log: Log)
    requires Represents(table, log) && x.key in table && table[x.key] == x.row
    ensures TotOf(x.row) == Total(log, {x.key})
  {
    assert Shows(table, x.key, Total(log, {x.key}));
    TotOfRowOf(Total(log, {x.key}));
  }

  lemma SourcesOfLast(snap: seq<Selected>, g: Key)
    requires snap != [] && forall i, j :: 0 <= i < j < |snap| ==> snap[i].key != snap[j].key
    ensures var rest, k := snap[..|snap| - 1], snap[|snap| - 1].key;
            && k !in Sources(rest, g)
            && Sources(snap, g) == if CoarseKey(k) == g then Sources(rest, g) + {k} else Sources(rest, g)
  {
    SelectedLast(snap);
  }

  /** Every group formed has something in it, and whatever has something in it forms a group. */
  lemma GroupsArePopulated(snap: seq<Selected>, table: Table, log: Log, g: Key)
    requires Represents(table, log) && IsPartOf(snap, table)
    ensures g in CoarseKeys(snap) <==> GroupTotal(snap, g).n > 0
  {
    GroupTotalIsTotal(snap, table, log, g);
    if g in CoarseKeys(snap) {
      var k :| k in SelectedKeys(snap) && CoarseKey(k) == g;
      assert Shows(table, k, Total(log, {k}));
      var i := TotalHasWitness(log, {k});
      TotalIsPositive(log, Sources(snap, g), i);
    } else {
      assert Sources(snap, g) == {};
      TotalOfNone(log, {});
    }
  }

  /** Old minute buckets end up empty, the others are untouched. */
  lemma RolledMinute(log: Log, cutoff: int, k: Key)
    requires k.resolution == MINUTE_RESOLUTION
    ensures Total(RolledUp(log, cutoff), {k}) == if k.bucket < cutoff then NOTHING else Total(log, {k})
  {
    if k.bucket < cutoff {
      TotalOfNone(RolledUp(log, cutoff), {k});
    } else {
      TotalOfRelabelled(RolledUp(log, cutoff), {k}, log, {k});
    }
  }

  lemma RolledEntry(log: Log, i: int, table: Table, snap: seq<Selected>, cutoff: int, g: Key)
    requires Represents(table, log) && IsSelection(snap, table, cutoff)
    requires 0 <= i < |log| && g.resolution != MINUTE_RESOLUTION
    ensures RolledUp(log, cutoff)[i].sample == log[i].sample
    ensures RolledUp(log, cutoff)[i].In({g}) <==> log[i].In({g} + Sources(snap, g))
  {
    var p := log[i];
    if p.place.Minute? {
      var k := p.Key();
      TotalIsPositive(log, {k}, i);
      assert Shows(table, k, Total(log, {k}));
    }
  }

  lemma RolledCoarseTotal(log: Log, table: Table, snap: seq<Selected>, cutoff: int, g: Key)
    requires Represents(table, log) && IsSelection(snap, table, cutoff)
    requires g.resolution != MINUTE_RESOLUTION
    ensures Total(RolledUp(log, cutoff), {g}) == Total(log, {g} + Sources(snap, g))
  {
    var r, s := RolledUp(log, cutoff), {g} + Sources(snap, g);
    forall i | 0 <= i < |log|
      ensures r[i].sample == log[i].sample && (r[i].In({g}) <==> log[i].In(s))
    {
      RolledEntry(log, i, table, snap, cutoff, g);
    }
    TotalOfRelabelled(r, {g}, log, s);
  }

  /** A coarse bucket gains what the selected minute rows of its window held. */
  lemma RolledCoarse(log: Log, table: Table, snap: seq<Selected>, cutoff: int, g: Key)
    requires Represents(table, log) && IsSelection(snap, table, cutoff)
    requires g.resolution != MINUTE_RESOLUTION
    ensures Total(RolledUp(log, cutoff), {g}) == Total(log, {g}).Plus(GroupTotal(snap, g))
  {
    RolledCoarseTotal(log, table, snap, cutoff, g);
    GroupTotalIsTotal(snap, table, log, g);
    TotalOfUnion(log, {g}, Sources(snap, g));
  }

  lemma FreshIsMinute(between: seq<Sample>, k: Key)
    requires k.resolution != MINUTE_RESOLUTION
    ensures Total(Fresh(between), {k}) == NOTHING
  {
    TotalOfNone(Fresh(between), {k});
  }

  lemma ArrivedTotal(between: seq<Sample>, deleted: seq<int>, k: Key)
    ensures Total(Arrived(between, deleted), {k})
         == if k.resolution != MINUTE_RESOLUTION || k.bucket in deleted then NOTHING else Total(Fresh(between), {k})
  {
    if k.resolution != MINUTE_RESOLUTION || k.bucket in deleted {
      TotalOfNone(Arrived(between, deleted), {k});
    } else {
      TotalOfRelabelled(Arrived(between, deleted), {k}, Fresh(between), {k});
    }
  }

  /** The table after the write transaction. */
  function Committed(table: Table, groups: map<Key, Tot>, buckets: seq<int>): Table
    requires forall g :: g in groups ==> groups[g].n > 0
    requires forall k :: k in table ==> table[k].count > 0
  {
    Purged(Upserted(table, groups, groups.Keys), buckets)
  }

  lemma CommittedMinute(table: Table, groups: map<Key, Tot>, buckets: seq<int>, k: Key, t: Tot)
    requires forall g :: g in groups ==> groups[g].n > 0
    requires forall k :: k in table ==> table[k].count > 0
    requires k.resolution == MINUTE_RESOLUTION && k !in groups
    requires Shows(table, k, t)
    ensures Shows(Committed(table, groups, buckets), k, if k.bucket in buckets then NOTHING else t)
  {
  }

  /** The total under a key after merging, without adding to or from nothing. */
  function Merged(held: Tot, gained: Tot): Tot {
    if gained.n == 0 then held else if held.n == 0 then gained else held.Plus(gained)
  }

  lemma MergedIsPlus(held: Tot, gained: Tot)
    requires held.n == 0 ==> held == NOTHING
    requires gained.n == 0 ==> gained == NOTHING
    ensures held.Plus(gained) == Merged(held, gained)
  {
    if gained.n == 0 {
      PlusNothing(held);
    } else if held.n == 0 {
      PlusNothing(gained);
    }
  }

  lemma CommittedCoarse(table: Table, groups: map<Key, Tot>, buckets: seq<int>, g: Key, held: Tot, gained: Tot)
    requires forall g :: g in groups ==> groups[g].n > 0
    requires forall k :: k in table ==> table[k].count > 0
    requires g.resolution != MINUTE_RESOLUTION
    requires Shows(table, g, held) && held.n >= 0
    requires if g in groups then groups[g] == gained else gained.n == 0
    ensures Shows(Committed(table, groups, buckets), g, Merged(held, gained))
  {
    if g in groups && g in table {
      MergeRowsIsMean(held, gained);
    }
  }

  lemma SourceBucketsAre(snap: seq<Selected>)
    ensures forall k :: k in SelectedKeys(snap) ==> k.bucket in SourceBuckets(snap)
    ensures forall b :: b in SourceBuckets(snap) ==> exists k :: k in SelectedKeys(snap) && k.bucket == b
  {
    forall k | k in SelectedKeys(snap)
      ensures k.bucket in SourceBuckets(snap)
    {
      var i :| 0 <= i < |snap| && snap[i].key == k;
      assert SourceBuckets(snap)[i] == k.bucket;
    }
    forall b | b in SourceBuckets(snap)
      ensures exists k :: k in SelectedKeys(snap) && k.bucket == b
    {
      var i :| 0 <= i < |snap| && SourceBuckets(snap)[i] == b;
      assert snap[i].key in SelectedKeys(snap);
    }
  }

  /** A minute was selected exactly if it is old and some row starts there; the other old
      minutes are empty. */
  lemma SelectedBuckets(log: Log, table: Table, cutoff: int, snap: seq<Selected>, k: Key)
    requires Represents(table, log) && IsSelection(snap, table, cutoff)
    requires k.resolution == MINUTE_RESOLUTION
    ensures k.bucket in SourceBuckets(snap) ==> k.bucket < cutoff
    ensures k.bucket !in SourceBuckets(snap) && k.bucket < cutoff ==> Total(log, {k}) == NOTHING
  {
    SourceBucketsAre(snap);
    if k.bucket !in SourceBuckets(snap) && k.bucket < cutoff {
      assert Shows(table, k, Total(log, {k}));
      EmptyTotal(log, {k});
    }
  }

  /** What the roll-up should leave under a minute key. */
  lemma TargetMinute(log: Log, table: Table, cutoff: int, snap: seq<Selected>, between: seq<Sample>, k: Key)
    requires Represents(table, log) && IsSelection(snap, table, cutoff)
    requires k.resolution == MINUTE_RESOLUTION
    ensures Total(RolledUp(log, cutoff) + Arrived(between, SourceBuckets(snap)), {k})
         == if k.bucket in SourceBuckets(snap) then NOTHING else Total(log + Fresh(between), {k})
  {
    hide RolledUp, Arrived, Fresh, Total, Tot.Plus;
    TotalOfConcat(RolledUp(log, cutoff), Arrived(between, SourceBuckets(snap)), {k});
    TotalOfConcat(log, Fresh(between), {k});
    ArrivedTotal(between, SourceBuckets(snap), k);
    RolledMinute(log, cutoff, k);
    PlusNothing(NOTHING);
    SelectedBuckets(log, table, cutoff, snap, k);
  }

  /** What the roll-up should leave under a coarse key. */
  lemma TargetCoarse(log: Log, table: Table, cutoff: int, snap: seq<Selected>, between: seq<Sample>, g: Key)
    requires Represents(table, log) && IsSelection(snap, table, cutoff)
    requires g.resolution != MINUTE_RESOLUTION
    ensures Total(RolledUp(log, cutoff) + Arrived(between, SourceBuckets(snap)), {g})
         == Merged(Total(log + Fresh(between), {g}), GroupTotal(snap, g))
  {
    hide RolledUp, Arrived, Fresh, Total, Tot.Plus, Merged, GroupTotal, Represents, Sources;
    var held, gained := Total(log, {g}), GroupTotal(snap, g);
    TotalOfConcat(log, Fresh(between), {g});
    FreshIsMinute(between, g);
    TotalOfConcat(RolledUp(log, cutoff), Arrived(between, SourceBuckets(snap)), {g});
    ArrivedTotal(between, SourceBuckets(snap), g);
    PlusNothing(held);
    PlusNothing(Total(RolledUp(log, cutoff), {g}));
    RolledCoarse(log, table, snap, cutoff, g);
    GroupTotalIsTotal(snap, table, log, g);
    MergedIsPlus(held, gained) by {
      if held.n == 0 {
        EmptyTotal(log, {g});
      }
      if gained.n == 0 {
        EmptyTotal(log, Sources(snap, g));
      }
    }
  }

  /** What a roll-up whose read and write are separate steps leaves behind, whatever is
      recorded in between: the old minute samples move to their windows, and each sample
      recorded in between stays in its minute unless that minute was selected, for whichever
      entity; then it is lost. */
  lemma InterleavedOutcome(log: Log, table: Table, cutoff: int, snap: seq<Selected>, groups: map<Key, Tot>,
                           between: seq<Sample>, now: Table)
    requires Represents(table, log) && IsSelection(snap, table, cutoff) && IsGrouping(groups, snap)
    requires Represents(now, log + Fresh(between))
    ensures forall g :: g in groups ==> groups[g].n > 0
    ensures forall k :: k in now ==> now[k].count > 0
    ensures Represents(Committed(now, groups, SourceBuckets(snap)),
                       RolledUp(log, cutoff) + Arrived(between, SourceBuckets(snap)))
  {
    RowsArePopulated(now, log + Fresh(between));
    forall g | g in groups
      ensures groups[g].n > 0
    {
      GroupsArePopulated(snap, table, log, g);
    }
    forall k: Key
      ensures Shows(Committed(now, groups, SourceBuckets(snap)), k,
                    Total(RolledUp(log, cutoff) + Arrived(between, SourceBuckets(snap)), {k}))
    {
      assert Shows(now, k, Total(log + Fresh(between), {k}));
      if k.resolution == MINUTE_RESOLUTION {
        TargetMinute(log, table, cutoff, snap, between, k);
        CommittedMinute(now, groups, SourceBuckets(snap), k, Total(log + Fresh(between), {k}));
      } else {
        TargetCoarse(log, table, cutoff, snap, between, k);
        GroupsArePopulated(snap, table, log, k);
        GroupTotalIsTotal(snap, table, log, k);
        CommittedCoarse(now, groups, SourceBuckets(snap), k,
                        Total(log + Fresh(between), {k}), GroupTotal(snap, k));
      }
    }
  }

  /** So it loses nothing and counts nothing twice exactly when no sample recorded in between
      falls into a selected minute. */
  lemma InterleavedRollup(log: Log, table: Table, cutoff: int, snap: seq<Selected>, groups: map<Key, Tot>,
                          between: seq<Sample>, now: Table)
    requires Represents(table, log) && IsSelection(snap, table, cutoff) && IsGrouping(groups, snap)
    requires Represents(now, log + Fresh(between))
    ensures forall g :: g in groups ==> groups[g].n > 0
    ensures forall k :: k in now ==> now[k].count > 0
    ensures Represents(Committed(now, groups, SourceBuckets(snap)), RolledUp(log, cutoff) + Fresh(between))
       <==> forall s :: s in between ==> MinuteOf(s.at) !in SourceBuckets(snap)
  {
    InterleavedOutcome(log, table, cutoff, snap, groups, between, now);
    if s :| s in between && MinuteOf(s.at) in SourceBuckets(snap) {
      LostSample(log, cutoff, snap, groups, between, now, s);
    } else {
      assert Arrived(between, SourceBuckets(snap)) == Fresh(between);
    }
  }

  lemma LostSample(log: Log, cutoff: int, snap: seq<Selected>, groups: map<Key, Tot>,
                   between: seq<Sample>, now: Table, s: Sample)
    requires forall g :: g in groups ==> groups[g].n > 0
    requires forall k :: k in now ==> now[k].count > 0
    requires s in between && MinuteOf(s.at) in SourceBuckets(snap)
    ensures !Represents(Committed(now, groups, SourceBuckets(snap)), RolledUp(log, cutoff) + Fresh(between))
  {
    var k := MinuteKey(s.entity, s.at);
    var i :| 0 <= i < |between| && between[i] == s;
    TotalIsPositive(Fresh(between), {k}, i);
    TotalOfConcat(RolledUp(log, cutoff), Fresh(between), {k});
    var after := Committed(now, groups, SourceBuckets(snap));
    assert k !in after;
    assert !Shows(after, k, Total(RolledUp(log, cutoff) + Fresh(between), {k}));
  }

  /** Recording only at or after the cutoff is enough for the interleaving to be harmless. */
  lemma RecentSamplesAreSafe(table: Table, cutoff: int, snap: seq<Selected>, between: seq<Sample>)
    requires IsSelection(snap, table, cutoff)
    requires forall s :: s in between ==> MinuteOf(s.at) >= cutoff
    ensures forall s :: s in between ==> MinuteOf(s.at) !in SourceBuckets(snap)
  {
  }

  /** Then the outcome is that of an atomic roll-up run after those recordings. */
  lemma InterleavingIsAtomic(log: Log, table: Table, cutoff: int, snap: seq<Selected>, groups: map<Key, Tot>,
                             between: seq<Sample>, now: Table)
    requires Represents(table, log) && IsSelection(snap, table, cutoff) && IsGrouping(groups, snap)
    requires Represents(now, log + Fresh(between))
    requires forall s :: s in between ==> MinuteOf(s.at) >= cutoff
    ensures forall g :: g in groups ==> groups[g].n > 0
    ensures forall k :: k in now ==> now[k].count > 0
    ensures Represents(Committed(now, groups, SourceBuckets(snap)), RolledUp(log + Fresh(between), cutoff))
  {
    RecentSamplesAreSafe(table, cutoff, snap, between);
    InterleavedRollup(log, table, cutoff, snap, groups, between, now);
    assert RolledUp(log + Fresh(between), cutoff) == RolledUp(log, cutoff) + Fresh(between);
  }

  // -------------------------------------------------------------------- queries

  datatype Point = Point(bucketStart: int, resolution: int, sampleCount: int, avg: Vec)

  function PointKey(e: Entity, p: Point): Key {
    Key(e, p.resolution, p.bucketStart)
  }

  /** out lists each row of e that starts in [from, to] once, ascending by start. */
  ghost predicate IsRange(out: seq<Point>, table: Table, e: Entity, from: int, to: int) {
    && (forall i :: 0 <= i < |out| ==>
                      && from <= out[i].bucketStart <= to
                      && PointKey(e, out[i]) in table
                      && table[PointKey(e, out[i])] == Row(out[i].sampleCount, out[i].avg))
    && (forall i, j :: 0 <= i < j < |out| ==> out[i].bucketStart <= out[j].bucketStart)
    && (forall i, j :: 0 <= i < j < |out| ==> PointKey(e, out[i]) != PointKey(e, out[j]))
    && (forall k :: k in table && k.entity == e && from <= k.bucket <= to ==>
                      exists i :: 0 <= i < |out| && PointKey(e, out[i]) == k)
  }

  lemma {:induction false} EarliestExists(keys: set<Key>) returns (k: Key)
    requires keys != {}
    ensures k in keys && forall x :: x in keys ==> k.bucket <= x.bucket
    decreases |keys|
  {
    k :| k in keys;
    if keys != {k} {
      var rest := keys - {k};
      assert keys == rest + {k};
      var r := EarliestExists(rest);
      if r.bucket < k.bucket {
        k := r;
      }
    }
  }

  lemma ScannedOne(out: seq<Point>, seen: Table, e: Entity, from: int, to: int, k: Key, row: Row)
    requires IsRange(out, seen, e, from, to)
    requires k !in seen && k.entity == e && from <= k.bucket <= to
    requires forall i :: 0 <= i < |out| ==> out[i].bucketStart <= k.bucket
    ensures IsRange(out + [Point(k.bucket, k.resolution, row.count, row.avg)], seen[k := row], e, from, to)
  {
    var n, out' := |out|, out + [Point(k.bucket, k.resolution, row.count, row.avg)];
    assert PointKey(e, out'[n]) == k;
    assert forall i :: 0 <= i < n ==> out'[i] == out[i];
    forall x | x in seen[k := row] && x.entity == e && from <= x.bucket <= to
      ensures exists i :: 0 <= i < |out'| && PointKey(e, out'[i]) == x
    {
      if x != k {
        var i :| 0 <= i < |out| && PointKey(e, out[i]) == x;
        assert PointKey(e, out'[i]) == x;
      }
    }
  }

  /** The upserted row is the exact mean of the old samples and the new one. */
  lemma RecordedRow(table: Table, log: Log, s: Sample)
    requires Represents(table, log)
    ensures forall k :: k in table ==> table[k].count > 0
    ensures Represents(WithSample(table, s), log + [Placed(s, Minute)])
  {
    RowsArePopulated(table, log);
    var p := Placed(s, Minute);
    forall k: Key
      ensures Shows(WithSample(table, s), k, Total(log + [p], {k}))
    {
      var t := Total(log, {k});
      assert Shows(table, k, t);
      TotalOfAppended(log, p, {k});
      PlusNothing(t);
      MergedIsPlus(t, p.Share({k})) by {
        if t.n == 0 {
          EmptyTotal(log, {k});
        }
      }
      WithSampleShows(table, s, k, t);
    }
  }

  lemma WithSampleShows(table: Table, s: Sample, k: Key, t: Tot)
    requires Shows(table, k, t) && t.n >= 0
    requires forall k :: k in table ==> table[k].count > 0
    ensures Shows(WithSample(table, s), k, Merged(t, Placed(s, Minute).Share({k})))
  {
    if k == MinuteKey(s.entity, s.at) && t.n > 0 {
      FoldSampleIsMean(t, s.value);
    }
  }

  lemma GroupedOne(groups: map<Key, Tot>, snap: seq<Selected>, x: Selected)
    requires IsGrouping(groups, snap)
    ensures var k := CoarseKey(x.key);
            var g := if k in groups then groups[k] else NOTHING;
            IsGrouping(groups[k := g.Plus(TotOf(x.row))], snap + [x])
  {
    hide TotOf;
    var k, snap' := CoarseKey(x.key), snap + [x];
    assert snap'[..|snap|] == snap;
    SelectedLast(snap');
    assert CoarseKeys(snap') == CoarseKeys(snap) + {k};
    if k !in groups {
      NoGroupYet(snap, k);
    }
  }

  lemma {:induction false} NoGroupYet(snap: seq<Selected>, g: Key)
    requires g !in CoarseKeys(snap)
    ensures GroupTotal(snap, g) == NOTHING
  {
    if snap != [] {
      SelectedLast(snap);
      NoGroupYet(snap[..|snap| - 1], g);
    }
  }

  lemma NothingSelected(snap: seq<Selected>)
    ensures CoarseKeys(snap) == {} ==> snap == []
  {
    if snap != [] {
      assert snap[0].key in SelectedKeys(snap);
      assert CoarseKey(snap[0].key) in CoarseKeys(snap);
    }
  }

  lemma DroppedTotal(log: Log, cutoff: int, k: Key)
    ensures Total(Dropped(log, cutoff), {k}) == if k.bucket < cutoff then NOTHING else Total(log, {k})
  {
    if k.bucket < cutoff {
      TotalOfNone(Dropped(log, cutoff), {k});
    } else {
      TotalOfRelabelled(Dropped(log, cutoff), {k}, log, {k});
    }
  }

  lemma DroppedTable(before: Table, after: Table, log: Log, cutoff: int)
    requires Represents(before, log)
    requires after == map k | k in before && !(k.bucket < cutoff) :: before[k]
    ensures Represents(after, Dropped(log, cutoff))
  {
    forall k: Key
      ensures Shows(after, k, Total(Dropped(log, cutoff), {k}))
    {
      assert Shows(before, k, Total(log, {k}));
      DroppedTotal(log, cutoff, k);
    }
  }

  // ---------------------------------------------------------------------- store

  class Store {
    var table: Table
    ghost var log: Log

    /** The table is at all times a lossless index of the samples still retained. */
    ghost predicate Valid()
      reads this
    {
      Represents(table, log)
    }

    constructor ()
      ensures Valid() && log == []
    {
      table, log := map[], [];
    }

    method RecordHistoricalSample(s: Sample)
      requires Valid()
      modifies this
      ensures Valid()
      ensures log == old(log) + [Placed(s, Minute)]
    {
      RecordedRow(table, log, s);
      var key := MinuteKey(s.entity, s.at);
      if key in table {
        table := table[key := FoldSample(table[key], s.value)];
      } else {
        table := table[key := Row(1, s.value)];
      }
      log := log + [Placed(s, Minute)];
    }

    /** The roll-up's SELECT: the old minute rows in whatever order they come. */
    method SelectOldMinutes(cutoff: int) returns (snap: seq<Selected>)
      ensures IsSelection(snap, table, cutoff)
    {
      snap := [];
      var todo := set k | k in table && IsOld(k, cutoff);
      while todo != {}
        invariant forall k :: k in todo ==> k in table && IsOld(k, cutoff) && k !in SelectedKeys(snap)
        invariant IsPartOf(snap, table)
        invariant forall k :: k in todo || k in SelectedKeys(snap) <==> k in table && IsOld(k, cutoff)
        decreases todo
      {
        var k :| k in todo;
        ghost var before := snap;
        snap := snap + [Selected(k, table[k])];
        assert snap[..|snap| - 1] == before;
        SelectedLast(snap);
        todo := todo - {k};
      }
    }

    /** The in-memory grouping of the selected rows into five-minute windows. */
    static method GroupRows(snap: seq<Selected>) returns (groups: map<Key, Tot>, buckets: seq<int>)
      ensures IsGrouping(groups, snap)
      ensures buckets == SourceBuckets(snap)
    {
      groups, buckets := map[], [];
      for i := 0 to |snap|
        invariant IsGrouping(groups, snap[..i])
        invariant buckets == SourceBuckets(snap[..i])
      {
        GroupedOne(groups, snap[..i], snap[i]);
        assert snap[..i + 1] == snap[..i] + [snap[i]];
        var k := CoarseKey(snap[i].key);
        if k !in groups {
          groups := groups[k := NOTHING];
        }
        groups := groups[k := groups[k].Plus(TotOf(snap[i].row))];
        buckets := buckets + [snap[i].key.bucket];
      }
      assert snap[..|snap|] == snap;
    }

    /** The write transaction: upsert every group, then delete the source buckets. */
    method CommitRollup(groups: map<Key, Tot>, buckets: seq<int>)
      requires forall g :: g in groups ==> groups[g].n > 0
      requires forall k :: k in table ==> table[k].count > 0
      modifies this`table
      ensures table == Committed(old(table), groups, buckets)
    {
      var todo := groups.Keys;
      while todo != {}
        invariant todo <= groups.Keys
        invariant table == Upserted(old(table), groups, groups.Keys - todo)
        decreases todo
      {
        var k :| k in todo;
        var proposed := RowOf(groups[k]);
        table := table[k := if k in table then MergeRows(table[k], proposed) else proposed];
        todo := todo - {k};
        assert table == Upserted(old(table), groups, groups.Keys - todo);
      }
      assert groups.Keys - {} == groups.Keys;
      ghost var upserted := table;
      for i := 0 to |buckets|
        invariant table == Purged(upserted, buckets[..i])
      {
        table := map k | k in table && !(k.resolution == MINUTE_RESOLUTION && k.bucket == buckets[i]) :: table[k];
        assert buckets[..i + 1] == buckets[..i] + [buckets[i]];
      }
      assert buckets[..|buckets|] == buckets;
    }

    method RollupOldMinuteBuckets(now: int)
      requires Valid()
      modifies this
      ensures Valid()
      ensures log == RolledUp(old(log), now - ROLLUP_AFTER)
    {
      var cutoff := now - ROLLUP_AFTER;
      var snap := SelectOldMinutes(cutoff);
      var groups, buckets := GroupRows(snap);
      assert log + Fresh([]) == log && RolledUp(log, cutoff) + Fresh([]) == RolledUp(log, cutoff);
      InterleavedRollup(log, table, cutoff, snap, groups, [], table);
      if |groups| == 0 {
        assert groups.Keys == {};
        NothingSelected(snap);
        assert Committed(table, groups, buckets) == table;
      } else {
        CommitRollup(groups, buckets);
      }
      log := RolledUp(log, cutoff);
    }

    /** One retention pass: roll up, then delete. */
    method RunRetention(now: int, retentionDays: int)
      requires Valid()
      modifies this
      ensures Valid()
      ensures log == Expired(RolledUp(old(log), now - ROLLUP_AFTER), now, retentionDays)
      ensures forall i :: 0 <= i < |log| && !old(log)[i].place.Gone? ==>
                            (log[i].place.Gone? <==>
                             retentionDays >= 1 &&
                             now - Roll(old(log)[i], now - ROLLUP_AFTER).Key().bucket > retentionDays * 24 * 60 * MINUTE)
    {
      RollupOldMinuteBuckets(now);
      if retentionDays > 0 {
        var cutoff := RetentionCutoff(now, retentionDays);
        ghost var before := table;
        table := map k | k in table && !(k.bucket < cutoff) :: table[k];
        DroppedTable(before, table, log, cutoff);
        log := Dropped(log, cutoff);
      }
    }

    method QueryRange(e: Entity, from: int, to: int) returns (out: seq<Point>)
      ensures IsRange(out, table, e, from, to)
    {
      out := [];
      var todo := set k | k in table && k.entity == e && from <= k.bucket <= to;
      while todo != {}
        invariant forall k :: k in todo ==> k in table && k.entity == e && from <= k.bucket <= to
        invariant forall i, k :: 0 <= i < |out| && k in todo ==> out[i].bucketStart <= k.bucket
        invariant IsRange(out, table - todo, e, from, to)
        decreases todo
      {
        ghost var w := EarliestExists(todo);
        var k :| k in todo && forall x :: x in todo ==> k.bucket <= x.bucket;
        var p := Point(k.bucket, k.resolution, table[k].count, table[k].avg);
        ScannedOne(out, table - todo, e, from, to, k, table[k]);
        assert table - (todo - {k}) == (table - todo)[k := table[k]];
        out := out + [p];
        todo := todo - {k};
      }
      assert table - {} == table;
    }
  }
}
