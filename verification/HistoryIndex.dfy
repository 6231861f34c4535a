/** The historical metric table and what it stands for: a compressed index of
    the raw samples. Times are integer nanoseconds since the zero time
    0001-01-01T00:00:00Z; measures are exact reals. */
module HistoryIndex {

  const SECOND: int := 1_000_000_000
  const MINUTE: int := 60 * SECOND
  const FIVE_MINUTES: int := 300 * SECOND
  const ROLLUP_AFTER: int := 21_600 * SECOND

  const MINUTE_RESOLUTION := 60
  const COARSE_RESOLUTION := 300

  /** t.Truncate(time.Minute): the last whole minute. */
  function MinuteOf(t: int): (r: int)
    ensures r <= t < r + MINUTE
  {
    t - t % 60_000_000_000
  }

  /** t.Truncate(5 * time.Minute). */
  function CoarseOf(t: int): (r: int)
    ensures r <= t < r + FIVE_MINUTES
  {
    t - t % 300_000_000_000
  }

  /** now minus retentionDays times 24 hours. */
  function RetentionCutoff(now: int, retentionDays: int): int {
    now - retentionDays * 86_400_000_000_000
  }

  lemma MinuteIs(t: int, k: int)
    requires k * MINUTE <= t < (k + 1) * MINUTE
    ensures MinuteOf(t) == k * MINUTE
  {
  }

  lemma CoarseIs(t: int, k: int)
    requires k * FIVE_MINUTES <= t < (k + 1) * FIVE_MINUTES
    ensures CoarseOf(t) == k * FIVE_MINUTES
  {
  }

  lemma BucketsAreAligned(t: int)
    ensures MinuteOf(t) % 60_000_000_000 == 0 && CoarseOf(t) % 300_000_000_000 == 0
  {
    assert MinuteOf(t) == t / 60_000_000_000 * 60_000_000_000;
    assert CoarseOf(t) == t / 300_000_000_000 * 300_000_000_000;
  }

  lemma CoarseOfMinute(t: int)
    ensures CoarseOf(MinuteOf(t)) == CoarseOf(t)
  {
    var q, m := t / 300_000_000_000, t % 300_000_000_000;
    var r := m / 60_000_000_000;
    MinuteIs(t, 5 * q + r);
    CoarseIs(MinuteOf(t), q);
  }

  /** A bucket starts at or after a five-minute mark exactly if its samples do. */
  lemma AlignedBound(t: int, from: int)
    requires from % 300_000_000_000 == 0
    ensures from <= t <==> from <= CoarseOf(t)
    ensures from <= t <==> from <= MinuteOf(t)
  {
    if from <= t {
      assert from / 300_000_000_000 <= t / 300_000_000_000;
      assert CoarseOf(t) == t / 300_000_000_000 * 300_000_000_000;
      CoarseOfMinute(t);
    }
  }

  // ---------------------------------------------------------------- measures

  datatype Measure = Cpu | MemUsed | MemLimit | NetRX | NetTX

  /** The five averaged columns. */
  datatype Vec = Vec(cpu: real, memUsed: real, memLimit: real, netRX: real, netTX: real) {
    function Plus(v: Vec): Vec {
      Vec(cpu + v.cpu, memUsed + v.memUsed, memLimit + v.memLimit, netRX + v.netRX, netTX + v.netTX)
    }

    function Times(x: real): Vec {
      Vec(cpu * x, memUsed * x, memLimit * x, netRX * x, netTX * x)
    }

    function Over(x: real): Vec
      requires x != 0.0
    {
      Vec(cpu / x, memUsed / x, memLimit / x, netRX / x, netTX / x)
    }

    function Get(m: Measure): real {
      match m
      case Cpu => cpu
      case MemUsed => memUsed
      case MemLimit => memLimit
      case NetRX => netRX
      case NetTX => netTX
    }
  }

  const ZERO := Vec(0.0, 0.0, 0.0, 0.0, 0.0)

  /** A number of samples and their sum; also the rollup's accumulator. */
  datatype Tot = Tot(n: int, sum: Vec) {
    function Plus(t: Tot): Tot {
      Tot(n + t.n, sum.Plus(t.sum))
    }
  }

  const NOTHING := Tot(0, ZERO)

  // -------------------------------------------------------------------- rows

  datatype Entity = Entity(kind: string, id: string)

  /** The primary key of metric_history. */
  datatype Key = Key(entity: Entity, resolution: int, bucket: int)

  /** The non-key columns of a row. */
  datatype Row = Row(count: int, avg: Vec)

  type Table = map<Key, Row>

  /** The row that holds exactly the samples totalled by t. */
  function RowOf(t: Tot): Row {
    if t.n <= 0 then Row(0, ZERO) else Row(t.n, t.sum.Over(t.n as real))
  }

  /** A row's contribution to a count-weighted sum. */
  function TotOf(r: Row): Tot {
    Tot(r.count, r.avg.Times(r.count as real))
  }

  function MinuteKey(e: Entity, at: int): Key {
    Key(e, MINUTE_RESOLUTION, MinuteOf(at))
  }

  function CoarseKey(k: Key): Key {
    Key(k.entity, COARSE_RESOLUTION, CoarseOf(k.bucket))
  }

  // ----------------------------------------------------------------- samples

  datatype Sample = Sample(entity: Entity, at: int, value: Vec)

  /** Where a recorded sample now lives. */
  datatype Place = Minute | Coarse | Gone

  datatype Placed = Placed(sample: Sample, place: Place) {
    function Key(): (k: Key)
      requires !place.Gone?
    {
      var m := MinuteKey(sample.entity, sample.at);
      if place.Minute? then m else CoarseKey(m)
    }

    predicate In(keys: set<Key>) {
      !place.Gone? && Key() in keys
    }

    function Share(keys: set<Key>): Tot {
      if In(keys) then Tot(1, sample.value) else NOTHING
    }
  }

  type Log = seq<Placed>

  /** Count and sum of the samples of log that live under one of the keys. */
  function Total(log: Log, keys: set<Key>): (t: Tot)
    ensures t.n >= 0
  {
    if log == [] then NOTHING
    else Total(log[..|log| - 1], keys).Plus(log[|log| - 1].Share(keys))
  }

  /** The table's entry under k is the row of the samples totalled by t, or absent if there are none. */
  ghost predicate Shows(table: Table, k: Key, t: Tot) {
    && (k in table <==> t.n > 0)
    && (k in table ==> table[k] == RowOf(t))
  }

  /** The table holds exactly one row per populated key, and that row's count and
      averages are those of the samples living there. */
  ghost predicate Represents(table: Table, log: Log) {
    forall k: Key :: Shows(table, k, Total(log, {k}))
  }

  lemma RepresentationIsUnique(t1: Table, t2: Table, log: Log)
    requires Represents(t1, log) && Represents(t2, log)
    ensures t1 == t2
  {
    forall k: Key
      ensures (k in t1 <==> k in t2) && (k in t1 ==> t1[k] == t2[k])
    {
      assert Shows(t1, k, Total(log, {k})) && Shows(t2, k, Total(log, {k}));
    }
    assert t1.Keys == t2.Keys;
  }

  // ---------------------------------------------------- algebra of the totals

  lemma PlusLaws(a: Tot, b: Tot, c: Tot)
    ensures a.Plus(b) == b.Plus(a)
    ensures a.Plus(b).Plus(c) == a.Plus(b.Plus(c))
  {
  }

  lemma TotalOfAppended(log: Log, x: Placed, keys: set<Key>)
    ensures Total(log + [x], keys) == Total(log, keys).Plus(x.Share(keys))
  {
    assert (log + [x])[..|log|] == log;
  }

  lemma PlusNothing(a: Tot)
    ensures a.Plus(NOTHING) == a == NOTHING.Plus(a)
  {
  }

  lemma {:induction false} TotalOfConcat(a: Log, b: Log, keys: set<Key>)
    ensures Total(a + b, keys) == Total(a, keys).Plus(Total(b, keys))
  {
    if b == [] {
      assert a + b == a;
      PlusNothing(Total(a, keys));
    } else {
      var b', x := b[..|b| - 1], b[|b| - 1];
      calc {
        Total(a + b, keys);
        { assert a + b == a + b' + [x]; TotalOfAppended(a + b', x, keys); }
        Total(a + b', keys).Plus(x.Share(keys));
        { TotalOfConcat(a, b', keys); }
        Total(a, keys).Plus(Total(b', keys)).Plus(x.Share(keys));
        { PlusLaws(Total(a, keys), Total(b', keys), x.Share(keys)); }
        Total(a, keys).Plus(Total(b, keys));
      }
    }
  }

  lemma ShareOfUnion(x: Placed, s: set<Key>, t: set<Key>)
    requires s !! t
    ensures x.Share(s + t) == x.Share(s).Plus(x.Share(t))
  {
    if x.In(s) {
      assert !x.In(t) && x.In(s + t);
    } else if x.In(t) {
      assert x.In(s + t);
    } else {
      assert !x.In(s + t);
    }
  }

  lemma Interchange(a: Tot, b: Tot, c: Tot, d: Tot)
    ensures a.Plus(b).Plus(c.Plus(d)) == a.Plus(c).Plus(b.Plus(d))
  {
  }

  lemma {:induction false} TotalOfUnion(log: Log, s: set<Key>, t: set<Key>)
    requires s !! t
    ensures Total(log, s + t) == Total(log, s).Plus(Total(log, t))
  {
    if log != [] {
      var l, x := log[..|log| - 1], log[|log| - 1];
      calc {
        Total(log, s + t);
        Total(l, s + t).Plus(x.Share(s + t));
        { TotalOfUnion(l, s, t); ShareOfUnion(x, s, t); }
        Total(l, s).Plus(Total(l, t)).Plus(x.Share(s).Plus(x.Share(t)));
        { Interchange(Total(l, s), Total(l, t), x.Share(s), x.Share(t)); }
        Total(log, s).Plus(Total(log, t));
      }
    }
  }

  /** Two logs of the same samples have the same total when every sample is
      counted on one side exactly if it is counted on the other. */
  lemma {:induction false} TotalOfRelabelled(a: Log, s: set<Key>, b: Log, t: set<Key>)
    requires |a| == |b|
    requires forall i :: 0 <= i < |a| ==> a[i].sample == b[i].sample && (a[i].In(s) <==> b[i].In(t))
    ensures Total(a, s) == Total(b, t)
  {
    if a != [] {
      var n := |a| - 1;
      assert forall i :: 0 <= i < n ==> a[..n][i] == a[i] && b[..n][i] == b[i];
      TotalOfRelabelled(a[..n], s, b[..n], t);
    }
  }

  lemma {:induction false} TotalIsPositive(log: Log, keys: set<Key>, i: int)
    requires 0 <= i < |log| && log[i].In(keys)
    ensures Total(log, keys).n > 0
  {
    if i < |log| - 1 {
      TotalIsPositive(log[..|log| - 1], keys, i);
    }
  }

  lemma {:induction false} TotalHasWitness(log: Log, keys: set<Key>) returns (i: int)
    requires Total(log, keys).n > 0
    ensures 0 <= i < |log| && log[i].In(keys)
  {
    if log[|log| - 1].In(keys) {
      i := |log| - 1;
    } else {
      i := TotalHasWitness(log[..|log| - 1], keys);
    }
  }

  lemma {:induction false} TotalOfNone(log: Log, keys: set<Key>)
    requires forall i :: 0 <= i < |log| ==> !log[i].In(keys)
    ensures Total(log, keys) == NOTHING
  {
    if log != [] {
      TotalOfNone(log[..|log| - 1], keys);
    }
  }

  lemma EmptyTotal(log: Log, keys: set<Key>)
    requires Total(log, keys).n == 0
    ensures Total(log, keys) == NOTHING
  {
    forall i | 0 <= i < |log|
      ensures !log[i].In(keys)
    {
      if log[i].In(keys) {
        TotalIsPositive(log, keys, i);
      }
    }
    TotalOfNone(log, keys);
  }

  /** Where the last element of a sits in a permutation b of it. */
  lemma SplitAtLast<T>(a: seq<T>, b: seq<T>) returns (u: seq<T>, v: seq<T>)
    requires multiset(a) == multiset(b) && a != []
    ensures b == u + [a[|a| - 1]] + v
    ensures multiset(u + v) == multiset(a[..|a| - 1])
  {
    var a', x := a[..|a| - 1], a[|a| - 1];
    assert a == a' + [x];
    assert x in multiset(b);
    var i :| 0 <= i < |b| && b[i] == x;
    u, v := b[..i], b[i + 1..];
    assert b == u + [x] + v;
    assert multiset(a) == multiset(a') + multiset{x};
    assert multiset(b) == multiset(u) + multiset{x} + multiset(v);
    assert multiset(a') == multiset(a) - multiset{x};
    assert multiset(u + v) == multiset(u) + multiset(v);
  }

  lemma {:induction false} TotalOfPermutation(a: Log, b: Log, keys: set<Key>)
    requires multiset(a) == multiset(b)
    ensures Total(a, keys) == Total(b, keys)
  {
    if a == [] {
      assert |multiset(b)| == 0;
    } else {
      var u, v := SplitAtLast(a, b);
      TotalOfPermutation(a[..|a| - 1], u + v, keys);
      TotalOfMiddle(u, a[|a| - 1], v, keys);
    }
  }

  lemma TotalOfMiddle(u: Log, x: Placed, v: Log, keys: set<Key>)
    ensures Total(u + [x] + v, keys) == Total(u + v, keys).Plus(x.Share(keys))
  {
    TotalOfConcat(u + [x], v, keys);
    TotalOfAppended(u, x, keys);
    TotalOfConcat(u, v, keys);
    Interchange(Total(u, keys), x.Share(keys), Total(v, keys), NOTHING);
    PlusNothing(Total(v, keys));
    PlusNothing(x.Share(keys));
  }

  // ------------------------------------------------- averages and their sums

  lemma MeanTimesCount(s: real, n: real)
    requires n != 0.0
    ensures s / n * n == s
  {
  }

  /** A row's count-weighted average gives back the total it was made from. */
  lemma TotOfRowOf(t: Tot)
    requires t.n > 0
    ensures TotOf(RowOf(t)) == t
  {
    var n := t.n as real;
    MeanTimesCount(t.sum.cpu, n);
    MeanTimesCount(t.sum.memUsed, n);
    MeanTimesCount(t.sum.memLimit, n);
    MeanTimesCount(t.sum.netRX, n);
    MeanTimesCount(t.sum.netTX, n);
  }

  lemma RunningMean(s: real, n: real, x: real)
    requires n > 0.0
    ensures s / n + (x - s / n) / (n + 1.0) == (s + x) / (n + 1.0)
  {
    var a := s / n;
    assert s == a * n;
    assert (a + (x - a) / (n + 1.0)) * (n + 1.0) == a * n + x;
  }

  lemma MeanBound(s: real, n: real, lo: real, hi: real)
    requires n > 0.0 && lo * n <= s <= hi * n
    ensures lo <= s / n <= hi
  {
    assert s / n * n == s;
  }

  lemma GetOfPlus(a: Vec, b: Vec, m: Measure)
    ensures a.Plus(b).Get(m) == a.Get(m) + b.Get(m)
  {
  }

  lemma GetOfRow(t: Tot, m: Measure)
    requires t.n > 0
    ensures RowOf(t).avg.Get(m) == t.sum.Get(m) / t.n as real
  {
  }

  ghost predicate Bounded(n: int, s: real, lo: real, hi: real) {
    lo * n as real <= s <= hi * n as real
  }

  lemma BoundedStep(n: int, s: real, x: real, lo: real, hi: real)
    requires Bounded(n, s, lo, hi) && lo <= x <= hi
    ensures Bounded(n + 1, s + x, lo, hi)
  {
    assert lo * (n + 1) as real == lo * n as real + lo;
    assert hi * (n + 1) as real == hi * n as real + hi;
  }

  lemma {:induction false} TotalIsBounded(log: Log, keys: set<Key>, m: Measure, lo: real, hi: real)
    requires forall i :: 0 <= i < |log| && log[i].In(keys) ==> lo <= log[i].sample.value.Get(m) <= hi
    ensures Bounded(Total(log, keys).n, Total(log, keys).sum.Get(m), lo, hi)
  {
    if log != [] {
      var l, x := log[..|log| - 1], log[|log| - 1];
      assert forall i :: 0 <= i < |l| ==> l[i] == log[i];
      TotalIsBounded(l, keys, m, lo, hi);
      GetOfPlus(Total(l, keys).sum, x.Share(keys).sum, m);
      if x.In(keys) {
        BoundedStep(Total(l, keys).n, Total(l, keys).sum.Get(m), x.sample.value.Get(m), lo, hi);
      }
    }
  }

  /** Every stored average lies between the extremes of the samples it stands for. */
  lemma AverageIsBounded(table: Table, log: Log, k: Key, m: Measure, lo: real, hi: real)
    requires Represents(table, log) && k in table
    requires forall i :: 0 <= i < |log| && log[i].In({k}) ==> lo <= log[i].sample.value.Get(m) <= hi
    ensures lo <= table[k].avg.Get(m) <= hi
  {
    TotalIsBounded(log, {k}, m, lo, hi);
    var t := Total(log, {k});
    assert Shows(table, k, t);
    GetOfRow(t, m);
    MeanBound(t.sum.Get(m), t.n as real, lo, hi);
  }
}
