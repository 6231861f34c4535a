/** The migration runner: numbered files applied in ascending order, each in its own
    transaction, over any number of start-ups that may fail anywhere. */
module Migrations {

  /** An embedded .sql file; a name without a numeric prefix has no version. */
  datatype File = File(name: string, hasVersion: bool, version: int)

  predicate IsAscending(s: seq<int>) {
    forall i, j :: 0 <= i < j < |s| ==> s[i] < s[j]
  }

  predicate IsSorted(fs: seq<File>) {
    forall i, j :: 0 <= i < j < |fs| ==> fs[i].version <= fs[j].version
  }

  ghost predicate Mentions(fs: seq<File>, v: int) {
    exists f :: f in fs && f.version == v
  }

  predicate AllNamed(files: seq<File>) {
    forall f :: f in files ==> f.hasVersion
  }

  ghost predicate HasDistinctVersions(files: seq<File>) {
    forall i, j :: 0 <= i < j < |files| ==> files[i].version != files[j].version
  }

  /** order lists the versions of the files from lowest to highest, each once. */
  ghost predicate IsOrderOf(order: seq<int>, files: seq<File>) {
    IsAscending(order) && forall v :: v in order <==> Mentions(files, v)
  }

  function Inserted(fs: seq<File>, f: File): seq<File> {
    if fs == [] || f.version < fs[0].version then [f] + fs else [fs[0]] + Inserted(fs[1..], f)
  }

  function SortedByVersion(fs: seq<File>): seq<File> {
    if fs == [] then [] else Inserted(SortedByVersion(fs[1..]), fs[0])
  }

  lemma {:induction false} InsertionKeepsElements(fs: seq<File>, f: File)
    ensures forall g :: g in Inserted(fs, f) <==> g in fs || g == f
  {
    if fs != [] {
      assert fs == [fs[0]] + fs[1..];
      InsertionKeepsElements(fs[1..], f);
    }
  }

  lemma {:induction false} InsertionSorts(fs: seq<File>, f: File)
    requires IsSorted(fs)
    ensures IsSorted(Inserted(fs, f))
  {
    if fs != [] && fs[0].version <= f.version {
      InsertionSorts(fs[1..], f);
      InsertionKeepsElements(fs[1..], f);
      assert forall g :: g in Inserted(fs[1..], f) ==> fs[0].version <= g.version;
    }
  }

  lemma {:induction false} InsertionKeepsDistinct(fs: seq<File>, f: File)
    requires HasDistinctVersions(fs) && !Mentions(fs, f.version)
    ensures HasDistinctVersions(Inserted(fs, f))
  {
    assert forall i :: 0 <= i < |fs| ==> fs[i] in fs;
    if fs != [] && fs[0].version <= f.version {
      assert !Mentions(fs[1..], f.version);
      InsertionKeepsDistinct(fs[1..], f);
      InsertionKeepsElements(fs[1..], f);
      assert forall g :: g in Inserted(fs[1..], f) ==> fs[0].version != g.version;
    }
  }

  /** The files to apply come out lowest version first, none lost and none twice. */
  lemma {:induction false} SortingSorts(fs: seq<File>)
    ensures IsSorted(SortedByVersion(fs))
    ensures forall g :: g in SortedByVersion(fs) <==> g in fs
    ensures HasDistinctVersions(fs) ==> HasDistinctVersions(SortedByVersion(fs))
  {
    if fs != [] {
      assert fs == [fs[0]] + fs[1..];
      SortingSorts(fs[1..]);
      InsertionSorts(SortedByVersion(fs[1..]), fs[0]);
      InsertionKeepsElements(SortedByVersion(fs[1..]), fs[0]);
      if HasDistinctVersions(fs) {
        InsertionKeepsDistinct(SortedByVersion(fs[1..]), fs[0]);
      }
    }
  }

  /** What remains of a start-up: every version of the order that is not recorded, lowest first. */
  ghost predicate IsRemainder(order: seq<int>, recorded: set<int>, rest: seq<File>) {
    && IsSorted(rest)
    && (forall v :: v in order && v !in recorded ==> Mentions(rest, v))
    && (forall f :: f in rest ==> f.version in order)
  }

  ghost predicate NoneRecorded(rest: seq<File>, recorded: set<int>) {
    HasDistinctVersions(rest) && forall f :: f in rest ==> f.version !in recorded
  }

  ghost predicate IsSetOf(recorded: set<int>, applied: seq<int>) {
    forall v :: v in recorded <==> v in applied
  }

  lemma AllRemain(order: seq<int>, recorded: set<int>, files: seq<File>, pending: seq<File>)
    requires IsOrderOf(order, files) && IsSorted(pending)
    requires forall f :: f in pending <==> f in files && f.version !in recorded
    ensures IsRemainder(order, recorded, pending)
    ensures HasDistinctVersions(pending) ==> NoneRecorded(pending, recorded)
  {
    assert forall f :: f in files ==> Mentions(files, f.version);
  }

  lemma HeadIsNew(rest: seq<File>, recorded: set<int>)
    requires rest != []
    ensures NoneRecorded(rest, recorded) ==> rest[0].version !in recorded
  {
    assert rest[0] in rest;
  }

  lemma NextIsNew(order: seq<int>, applied: seq<int>)
    ensures IsAscending(order) && applied < order ==> order[|applied|] in order && order[|applied|] !in applied
  {
  }

  lemma NothingRemains(order: seq<int>, applied: seq<int>, recorded: set<int>, rest: seq<File>)
    requires IsAscending(order) && applied <= order && IsSetOf(recorded, applied)
    requires rest == [] && IsRemainder(order, recorded, rest)
    ensures applied == order
  {
    NextIsNew(order, applied);
  }

  lemma Remaining(order: seq<int>, recorded: set<int>, rest: seq<File>)
    requires rest != [] && IsRemainder(order, recorded, rest)
    ensures IsRemainder(order, recorded + {rest[0].version}, rest[1..])
    ensures NoneRecorded(rest, recorded) ==> NoneRecorded(rest[1..], recorded + {rest[0].version})
  {
    assert rest == [rest[0]] + rest[1..];
    forall v | v in order && v !in recorded + {rest[0].version}
      ensures Mentions(rest[1..], v)
    {
      var f :| f in rest && f.version == v;
      assert f in rest[1..];
    }
  }

  lemma LowestIsAt(order: seq<int>, applied: seq<int>, recorded: set<int>, rest: seq<File>)
    requires IsAscending(order) && applied <= order && IsSetOf(recorded, applied)
    requires rest != [] && IsRemainder(order, recorded, rest) && rest[0].version !in recorded
    ensures applied < order && rest[0].version == order[|applied|]
  {
    var n, w := |applied|, rest[0].version;
    assert w in order;
    assert applied < order;
    assert order[n] in order && order[n] !in applied;
    var f :| f in rest && f.version == order[n];
    assert w <= order[n];
    var k :| 0 <= k < |order| && order[k] == w;
    assert n <= k;
  }

  /** The lowest pending version is the one right after those applied. */
  lemma LowestIsNext(order: seq<int>, applied: seq<int>, recorded: set<int>, rest: seq<File>)
    requires IsAscending(order) && applied <= order && IsSetOf(recorded, applied)
    requires rest != [] && IsRemainder(order, recorded, rest) && rest[0].version !in recorded
    ensures applied < order && rest[0].version == order[|applied|]
    ensures applied + [rest[0].version] <= order
    ensures IsSetOf(recorded + {rest[0].version}, applied + [rest[0].version])
    ensures IsRemainder(order, recorded + {rest[0].version}, rest[1..])
    ensures NoneRecorded(rest, recorded) ==> NoneRecorded(rest[1..], recorded + {rest[0].version})
  {
    LowestIsAt(order, applied, recorded, rest);
    Remaining(order, recorded, rest);
  }

  lemma {:induction false} InitialPart(before: seq<int>, after: seq<int>, n: nat)
    requires n <= |before| && IsAscending(before) && IsAscending(after)
    requires forall v :: v in before ==> v in after
    requires forall v, w :: v in before && w in after && w !in before ==> v < w
    ensures before[..n] <= after
  {
    if n > 0 {
      var k := n - 1;
      InitialPart(before, after, k);
      assert forall i :: 0 <= i < k ==> before[..k][i] == before[i] == after[i];
      assert before[k] in after;
      var j :| 0 <= j < |after| && after[j] == before[k];
      assert k <= j;
      if k < j {
        assert after[k] in after && before[k] in before;
        var m :| 0 <= m < |before| && before[m] == after[k];
        assert false;
      }
      assert before[..n] == before[..k] + [before[k]];
    }
  }

  /** A release may add migrations to a database with any initial part of the old ones applied
      exactly if each new version is higher than every old one. */
  lemma ReleaseKeepsOrder(shipped: seq<File>, added: seq<File>, before: seq<int>, after: seq<int>)
    requires IsOrderOf(before, shipped) && IsOrderOf(after, shipped + added)
    ensures before <= after
       <==> forall v, w :: Mentions(shipped, v) && Mentions(added, w) && !Mentions(shipped, w) ==> v < w
  {
    forall v
      ensures Mentions(shipped + added, v) <==> Mentions(shipped, v) || Mentions(added, v)
    {
      assert forall f :: f in shipped + added <==> f in shipped || f in added;
    }
    if before <= after {
      forall v, w | Mentions(shipped, v) && Mentions(added, w) && !Mentions(shipped, w)
        ensures v < w
      {
        var i :| 0 <= i < |before| && before[i] == v;
        var j :| 0 <= j < |after| && after[j] == w;
        assert before[i] == after[i];
        assert w !in before;
      }
    }
    if forall v, w :: Mentions(shipped, v) && Mentions(added, w) && !Mentions(shipped, w) ==> v < w {
      InitialPart(before, after, |before|);
    }
  }

  class Database {
    /** schema_migrations. */
    var recorded: set<int>
    /** Every migration that has taken effect, in the order it did. */
    ghost var applied: seq<int>

    constructor ()
      ensures recorded == {} && applied == []
    {
      recorded, applied := {}, [];
    }

    /** What has taken effect is an initial part of the ascending order, and is what is recorded. */
    ghost predicate Valid(order: seq<int>)
      reads this
    {
      applied <= order && IsSetOf(recorded, applied)
    }

    /** The files still to apply, lowest version first; fails on a malformed name. */
    method Pending(files: seq<File>) returns (ok: bool, pending: seq<File>)
      ensures ok == AllNamed(files)
      ensures ok ==> IsSorted(pending) && forall f :: f in pending <==> f in files && f.version !in recorded
      ensures ok && HasDistinctVersions(files) ==> HasDistinctVersions(pending)
    {
      pending := [];
      for i := 0 to |files|
        invariant AllNamed(files[..i])
        invariant forall f :: f in pending <==> f in files[..i] && f.version !in recorded
        invariant HasDistinctVersions(files) ==> HasDistinctVersions(pending)
      {
        var f := files[i];
        if !f.hasVersion {
          assert f in files;
          return false, [];
        }
        assert files[..i + 1] == files[..i] + [f];
        if f.version !in recorded {
          assert HasDistinctVersions(files) ==> forall g :: g in files[..i] ==> g.version != f.version;
          pending := pending + [f];
        }
      }
      assert files[..|files|] == files;
      SortingSorts(pending);
      return true, SortedByVersion(pending);
    }

    /** Each file in its own transaction, up to the first that fails. */
    method Apply(pending: seq<File>, broken: set<int>, ghost order: seq<int>) returns (ok: bool)
      requires Valid(order) && IsAscending(order) && IsRemainder(order, recorded, pending)
      modifies this
      ensures Valid(order) && old(applied) <= applied
      ensures ok ==> applied == order
      ensures !ok && NoneRecorded(pending, old(recorded)) ==> applied < order && order[|applied|] in broken
      ensures recorded * broken <= old(recorded)
    {
      hide IsSetOf, IsAscending, IsRemainder, NoneRecorded;
      assert pending[0..] == pending;
      for i := 0 to |pending|
        invariant Valid(order) && old(applied) <= applied
        invariant IsRemainder(order, recorded, pending[i..])
        invariant NoneRecorded(pending, old(recorded)) ==> NoneRecorded(pending[i..], recorded)
        invariant recorded * broken <= old(recorded)
      {
        var v := pending[i].version;
        assert pending[i..][0] == pending[i] && pending[i..][1..] == pending[i + 1..];
        if v in recorded {
          HeadIsNew(pending[i..], recorded);
          return false; // its row is already there
        }
        LowestIsNext(order, applied, recorded, pending[i..]);
        if v in broken {
          return false; // the transaction is rolled back
        }
        recorded, applied := recorded + {v}, applied + [v];
      }
      NothingRemains(order, applied, recorded, pending[|pending|..]);
      return true;
    }

    /** One start-up, in which the migrations in broken fail. */
    method Migrate(files: seq<File>, broken: set<int>, ghost order: seq<int>) returns (ok: bool)
      requires IsOrderOf(order, files) && Valid(order)
      modifies this
      ensures Valid(order) && old(applied) <= applied
      ensures ok ==> applied == order
      ensures !AllNamed(files) ==> !ok && applied == old(applied)
      ensures !ok && AllNamed(files) && HasDistinctVersions(files) ==> applied < order && order[|applied|] in broken
      ensures recorded * broken <= old(recorded)
    {
      assert IsAscending(order);
      hide IsSetOf, IsAscending, IsOrderOf, IsRemainder, NoneRecorded, HasDistinctVersions, AllNamed;
      var named, pending := Pending(files);
      if !named {
        return false;
      }
      AllRemain(order, recorded, files, pending);
      ok := Apply(pending, broken, order);
    }
  }
}
