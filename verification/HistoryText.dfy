/** The history table as it is stored, with bucket starts as text: comparing, selecting and
    deleting by text is comparing, selecting and deleting by time. */
module HistoryText {
  import opened Options
  import opened Timestamps
  import opened HistoryIndex
  import opened HistoryStore

  datatype TextKey = TextKey(entity: Entity, resolution: int, bucketStart: string)

  type TextTable = map<TextKey, Row>

  function TextOf(k: Key): TextKey
    requires InRange(k.bucket)
  {
    TextKey(k.entity, k.resolution, FormatTime(k.bucket))
  }

  ghost predicate IsWritable(table: Table) {
    forall k :: k in table ==> InRange(k.bucket)
  }

  lemma TextIsInjective(j: Key, k: Key)
    requires InRange(j.bucket) && InRange(k.bucket)
    ensures TextOf(j) == TextOf(k) <==> j == k
  {
    FormatKeepsOrder(j.bucket, k.bucket);
  }

  /** stored holds the rows of table under the texts of their keys. */
  ghost predicate IsTextOf(stored: TextTable, table: Table) {
    && IsWritable(table)
    && (forall k :: k in table ==> TextOf(k) in stored && stored[TextOf(k)] == table[k])
    && (forall t :: t in stored ==> exists k :: k in table && TextOf(k) == t)
  }

  predicate TextLess(a: string, b: string) {
    LexLess(a, b)
  }

  predicate TextAtMost(a: string, b: string) {
    a == b || LexLess(a, b)
  }

  lemma TextOrder(t: int, u: int)
    requires InRange(t) && InRange(u)
    ensures TextLess(FormatTime(t), FormatTime(u)) <==> t < u
    ensures TextAtMost(FormatTime(t), FormatTime(u)) <==> t <= u
  {
    FormatKeepsOrder(t, u);
  }

  /** Truncation stays within the years that can be written. */
  lemma BucketsAreWritable(t: int)
    requires InRange(t)
    ensures InRange(MinuteOf(t)) && InRange(CoarseOf(t))
  {
    hide YearStart, MinuteOf, CoarseOf;
    AlignedBound(t, -ZERO_TIME);
  }

  lemma RowsAreTexts(stored: TextTable, table: Table, k: Key)
    requires IsTextOf(stored, table) && InRange(k.bucket)
    ensures TextOf(k) in stored <==> k in table
    ensures k in table ==> stored[TextOf(k)] == table[k]
  {
    if TextOf(k) in stored {
      var j :| j in table && TextOf(j) == TextOf(k);
      TextIsInjective(j, k);
    }
  }

  /** The text key of a row read back gives its bucket start, and its window's text. */
  lemma TextReadsBack(k: Key)
    requires InRange(k.bucket)
    ensures ParseTime(TextOf(k).bucketStart) == Some(k.bucket)
    ensures InRange(CoarseKey(k).bucket)
    ensures TextOf(CoarseKey(k)) == TextKey(k.entity, COARSE_RESOLUTION, FormatTime(CoarseOf(k.bucket)))
  {
    ParseInvertsFormat(k.bucket);
    BucketsAreWritable(k.bucket);
  }

  // ------------------------------------------------------------------- writing

  /** An upsert finds the old row exactly if there is one at that time, and replaces only it. */
  lemma UpsertByText(stored: TextTable, table: Table, k: Key, row: Row)
    requires IsTextOf(stored, table) && InRange(k.bucket)
    ensures TextOf(k) in stored <==> k in table
    ensures k in table ==> stored[TextOf(k)] == table[k]
    ensures IsTextOf(stored[TextOf(k) := row], table[k := row])
  {
    hide FormatTime, InRange;
    RowsAreTexts(stored, table, k);
    var stored', table' := stored[TextOf(k) := row], table[k := row];
    forall j | j in table'
      ensures TextOf(j) in stored' && stored'[TextOf(j)] == table'[j]
    {
      TextIsInjective(j, k);
    }
    forall t | t in stored'
      ensures exists j :: j in table' && TextOf(j) == t
    {
      if t == TextOf(k) {
        assert k in table';
      } else {
        var j :| j in table && TextOf(j) == t;
        assert j in table';
      }
    }
  }

  /** Keeping the rows whose text passes keeps the rows whose time does, if the two agree. */
  lemma FilterByText(stored: TextTable, table: Table, stored': TextTable, table': Table)
    requires IsTextOf(stored, table)
    requires forall t :: t in stored' ==> t in stored && stored'[t] == stored[t]
    requires forall k :: k in table' ==> k in table && table'[k] == table[k]
    requires forall k :: k in table ==> (TextOf(k) in stored' <==> k in table')
    ensures IsTextOf(stored', table')
  {
    hide FormatTime, InRange, TextOf;
    forall t | t in stored'
      ensures exists k :: k in table' && TextOf(k) == t
    {
      var k :| k in table && TextOf(k) == t;
    }
  }

  /** DELETE ... WHERE bucket_start < cutoff. */
  function DeletedBefore(stored: TextTable, cutoff: string): TextTable {
    map t | t in stored && !TextLess(t.bucketStart, cutoff) :: stored[t]
  }

  /** The retention delete by text drops exactly the rows before the cutoff. */
  lemma DeleteByText(stored: TextTable, table: Table, cutoff: int)
    requires IsTextOf(stored, table) && InRange(cutoff)
    ensures IsTextOf(DeletedBefore(stored, FormatTime(cutoff)), map k | k in table && !(k.bucket < cutoff) :: table[k])
  {
    hide FormatTime, LexLess, InRange;
    var stored', table' := DeletedBefore(stored, FormatTime(cutoff)), map k | k in table && !(k.bucket < cutoff) :: table[k];
    forall k | k in table
      ensures TextOf(k) in stored' <==> k in table'
    {
      RowsAreTexts(stored, table, k);
      TextOrder(k.bucket, cutoff);
    }
    FilterByText(stored, table, stored', table');
  }

  /** The source texts of the rows a roll-up has read. */
  ghost predicate AreTextsOf(texts: seq<string>, buckets: seq<int>) {
    && |texts| == |buckets|
    && forall i :: 0 <= i < |buckets| ==> InRange(buckets[i]) && texts[i] == FormatTime(buckets[i])
  }

  lemma SameMembers(texts: seq<string>, buckets: seq<int>, b: int)
    requires AreTextsOf(texts, buckets) && InRange(b)
    ensures FormatTime(b) in texts <==> b in buckets
  {
    hide FormatTime;
    if FormatTime(b) in texts {
      var i :| 0 <= i < |texts| && texts[i] == FormatTime(b);
      FormatKeepsOrder(b, buckets[i]);
    }
    if b in buckets {
      var i :| 0 <= i < |buckets| && buckets[i] == b;
      assert texts[i] == FormatTime(b);
    }
  }

  /** DELETE ... WHERE resolution_seconds = 60 AND bucket_start = b, for each b of texts. */
  function DeletedAt(stored: TextTable, texts: seq<string>): TextTable {
    map t | t in stored && !(t.resolution == MINUTE_RESOLUTION && t.bucketStart in texts) :: stored[t]
  }

  /** Deleting the minute rows whose text is one of the sources' deletes exactly those whose
      start is. */
  lemma PurgeByText(stored: TextTable, table: Table, texts: seq<string>, buckets: seq<int>)
    requires IsTextOf(stored, table) && AreTextsOf(texts, buckets)
    ensures IsTextOf(DeletedAt(stored, texts), Purged(table, buckets))
  {
    hide FormatTime, InRange, AreTextsOf;
    forall k | k in table
      ensures TextOf(k) in DeletedAt(stored, texts) <==> k in Purged(table, buckets)
    {
      RowsAreTexts(stored, table, k);
      SameMembers(texts, buckets, k.bucket);
    }
    FilterByText(stored, table, DeletedAt(stored, texts), Purged(table, buckets));
  }

  // ------------------------------------------------------------------- reading

  /** The roll-up's select by text reads exactly the old minute rows. */
  lemma SelectByText(stored: TextTable, table: Table, cutoff: int, k: Key)
    requires IsTextOf(stored, table) && InRange(cutoff) && InRange(k.bucket)
    ensures TextOf(k) in stored && k.resolution == MINUTE_RESOLUTION && TextLess(TextOf(k).bucketStart, FormatTime(cutoff))
       <==> k in table && IsOld(k, cutoff)
  {
    RowsAreTexts(stored, table, k);
    TextOrder(k.bucket, cutoff);
  }

  /** The range query by text reads exactly the entity's rows in the range, and ordering its
      result by text is ordering it by time. */
  lemma RangeByText(stored: TextTable, table: Table, e: Entity, from: int, to: int, k: Key)
    requires IsTextOf(stored, table) && InRange(from) && InRange(to) && InRange(k.bucket)
    ensures && TextOf(k) in stored && k.entity == e
            && TextAtMost(FormatTime(from), TextOf(k).bucketStart) && TextAtMost(TextOf(k).bucketStart, FormatTime(to))
       <==> k in table && k.entity == e && from <= k.bucket <= to
    ensures forall j: Key :: InRange(j.bucket) ==>
              (TextAtMost(TextOf(j).bucketStart, TextOf(k).bucketStart) <==> j.bucket <= k.bucket)
  {
    RowsAreTexts(stored, table, k);
    TextOrder(from, k.bucket);
    TextOrder(k.bucket, to);
    forall j: Key | InRange(j.bucket)
      ensures TextAtMost(TextOf(j).bucketStart, TextOf(k).bucketStart) <==> j.bucket <= k.bucket
    {
      TextOrder(j.bucket, k.bucket);
    }
  }
}
