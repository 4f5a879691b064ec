/**
 The duplicate report over binary_file: groups of rows with one checksum, and what they waste.
 */
module DataQuality {
  import opened Content
  import opened CasStore
  import opened Collections
  import opened BlobService

  /** Rows the report looks at: those with a checksum. */
  ghost function Checked(rows: map<int, Row>): set<int> {
    set n | n in rows && rows[n].checksum != ""
  }

  ghost function ChecksumOf(rows: map<int, Row>): int -> string {
    n => if n in rows then rows[n].checksum else ""
  }

  ghost function SizeOf(rows: map<int, Row>): int -> int {
    n => if n in rows then rows[n].size else 0
  }

  ghost function Duplicates(rows: map<int, Row>, checksum: string): set<int> {
    Group(Checked(rows), ChecksumOf(rows), checksum)
  }

  ghost function Checksums(rows: map<int, Row>): set<string> {
    Keys(Checked(rows), ChecksumOf(rows))
  }

  /** MAX(size) of a group. */
  ghost function FileSize(rows: map<int, Row>, checksum: string): int {
    MaxOrZero(set n | n in Duplicates(rows, checksum) :: rows[n].size)
  }

  datatype Totals = Totals(duplicates: int, wasted: int)

  /** The totals query: only groups HAVING COUNT(*) > 1 contribute. */
  ghost function TotalsQuery(rows: map<int, Row>): Totals {
    Totals(Sum(ExtraCopies(rows), Repeated(rows)), Sum(ExtraBytes(rows), Repeated(rows)))
  }

  ghost function Repeated(rows: map<int, Row>): set<string> {
    set h | h in Checksums(rows) && |Duplicates(rows, h)| > 1
  }

  ghost function ExtraCopies(rows: map<int, Row>): string -> int {
    h => |Duplicates(rows, h)| - 1
  }

  ghost function ExtraBytes(rows: map<int, Row>): string -> int {
    h => (|Duplicates(rows, h)| - 1) * FileSize(rows, h)
  }

  ghost function TotalSize(rows: map<int, Row>): int {
    Sum(SizeOf(rows), Checked(rows))
  }

  /** The space one copy of each distinct content takes. */
  ghost function DistinctSize(rows: map<int, Row>): int {
    Sum(CopySize(rows), Checksums(rows))
  }

  ghost function CopySize(rows: map<int, Row>): string -> int {
    h => FileSize(rows, h)
  }

  /** Rows with one checksum have one size. */
  ghost predicate SizesAgree(rows: map<int, Row>) {
    forall m, n | m in Checked(rows) && n in Checked(rows) && rows[m].checksum == rows[n].checksum ::
      rows[m].size == rows[n].size
  }

  lemma GroupFacts(rows: map<int, Row>, h: string)
    requires h in Checksums(rows)
    ensures |Duplicates(rows, h)| >= 1
    ensures forall n | n in Duplicates(rows, h) :: rows[n].size <= FileSize(rows, h)
    ensures exists n :: n in Duplicates(rows, h) && rows[n].size == FileSize(rows, h)
  {
    var sizes := set n | n in Duplicates(rows, h) :: rows[n].size as int;
    var w := KeyWitness(Checked(rows), ChecksumOf(rows), h);
    assert rows[w].size in sizes;
    assert sizes == set n | n in Duplicates(rows, h) :: rows[n].size;
    forall n | n in Duplicates(rows, h)
      ensures rows[n].size <= FileSize(rows, h)
    {
      assert rows[n].size in sizes;
    }
  }

  /** How far a row falls short of the size its group is charged with. */
  ghost function Slack(rows: map<int, Row>): int -> int {
    n => if n in rows then FileSize(rows, rows[n].checksum) - rows[n].size else 0
  }

  ghost function Charged(rows: map<int, Row>): int -> int {
    n => if n in rows then FileSize(rows, rows[n].checksum) else 0
  }

  ghost function GroupBytes(rows: map<int, Row>): string -> int {
    h => |Duplicates(rows, h)| * FileSize(rows, h)
  }

  lemma ChargedByGroups(rows: map<int, Row>)
    ensures Sum(Charged(rows), Checked(rows)) == Sum(GroupBytes(rows), Checksums(rows))
  {
    forall h | h in Checksums(rows)
      ensures GroupBytes(rows)(h) == Sum(Charged(rows), Group(Checked(rows), ChecksumOf(rows), h))
    {
      SumConst(Charged(rows), FileSize(rows, h), Duplicates(rows, h));
    }
    SumByGroups(Charged(rows), Checked(rows), ChecksumOf(rows), Checksums(rows), GroupBytes(rows));
  }

  lemma GroupsByCopy(rows: map<int, Row>)
    ensures Sum(GroupBytes(rows), Checksums(rows)) == DistinctSize(rows) + TotalsQuery(rows).wasted
  {
    forall h | h in Checksums(rows)
      ensures GroupBytes(rows)(h) == CopySize(rows)(h) + ExtraBytes(rows)(h)
      ensures h !in Repeated(rows) ==> ExtraBytes(rows)(h) == 0
    {
      GroupFacts(rows, h);
      assert (|Duplicates(rows, h)| - 1) * FileSize(rows, h) == |Duplicates(rows, h)| * FileSize(rows, h) - FileSize(rows, h);
    }
    SumAdd(CopySize(rows), ExtraBytes(rows), GroupBytes(rows), Checksums(rows));
    SumSupport(ExtraBytes(rows), Checksums(rows), Repeated(rows));
  }

  lemma SlackIsShortfall(rows: map<int, Row>)
    ensures Sum(Charged(rows), Checked(rows)) == TotalSize(rows) + Sum(Slack(rows), Checked(rows))
  {
    SumAdd(SizeOf(rows), Slack(rows), Charged(rows), Checked(rows));
  }

  lemma SlackSign(rows: map<int, Row>, n: int)
    requires n in Checked(rows)
    ensures Slack(rows)(n) >= 0
    ensures SizesAgree(rows) ==> Slack(rows)(n) == 0
  {
    assert ChecksumOf(rows)(n) in Checksums(rows);
    GroupFacts(rows, rows[n].checksum);
    assert n in Duplicates(rows, rows[n].checksum);
  }

  lemma SlackVanishesIff(rows: map<int, Row>)
    ensures Sum(Slack(rows), Checked(rows)) >= 0
    ensures Sum(Slack(rows), Checked(rows)) == 0 <==> SizesAgree(rows)
  {
    forall n | n in Checked(rows) {
      SlackSign(rows, n);
    }
    SumZeroIff(Slack(rows), Checked(rows));
    if Sum(Slack(rows), Checked(rows)) == 0 {
      forall m, n | m in Checked(rows) && n in Checked(rows) && rows[m].checksum == rows[n].checksum
        ensures rows[m].size == rows[n].size
      {
        assert Slack(rows)(m) == 0 && Slack(rows)(n) == 0;
      }
    }
  }

  /**
   On any table the stored bytes are at most one copy of each content plus the reported waste, and
   they are equal to it exactly when rows that share a checksum share a size.
   */
  lemma WasteAccountsForAllBytesIff(rows: map<int, Row>)
    ensures TotalSize(rows) <= DistinctSize(rows) + TotalsQuery(rows).wasted
    ensures TotalSize(rows) == DistinctSize(rows) + TotalsQuery(rows).wasted <==> SizesAgree(rows)
  {
    ChargedByGroups(rows);
    GroupsByCopy(rows);
    SlackIsShortfall(rows);
    SlackVanishesIff(rows);
  }

  lemma ChecksumsAre(rows: map<int, Row>)
    ensures Checksums(rows) == set n | n in rows && rows[n].checksum != "" :: rows[n].checksum
  {
    forall n | n in rows && rows[n].checksum != ""
      ensures rows[n].checksum in Checksums(rows)
    {
      assert n in Checked(rows) && ChecksumOf(rows)(n) == rows[n].checksum;
    }
    forall h | h in Checksums(rows)
      ensures h in set n | n in rows && rows[n].checksum != "" :: rows[n].checksum
    {
      var n := KeyWitness(Checked(rows), ChecksumOf(rows), h);
    }
  }

  /** Duplicates are the rows beyond the first of each distinct checksum; rows without one are left out. */
  lemma DuplicateCount(rows: map<int, Row>)
    ensures TotalsQuery(rows).duplicates ==
      |set n | n in rows && rows[n].checksum != ""| - |set n | n in rows && rows[n].checksum != "" :: rows[n].checksum|
    ensures TotalsQuery(rows).duplicates == |Checked(rows)| - |Checksums(rows)|
  {
    ChecksumsAre(rows);
    assert Checked(rows) == set n | n in rows && rows[n].checksum != "";
    var one := (n: int) => 1;
    var each := (h: string) => 1;
    var size := (h: string) => |Duplicates(rows, h)|;
    forall h | h in Checksums(rows)
      ensures size(h) == Sum(one, Group(Checked(rows), ChecksumOf(rows), h))
      ensures h !in Repeated(rows) ==> ExtraCopies(rows)(h) == 0
    {
      SumConst(one, 1, Duplicates(rows, h));
      GroupFacts(rows, h);
    }
    SumByGroups(one, Checked(rows), ChecksumOf(rows), Checksums(rows), size);
    SumConst(one, 1, Checked(rows));
    SumConst(each, 1, Checksums(rows));
    SumAdd(each, ExtraCopies(rows), size, Checksums(rows));
    SumSupport(ExtraCopies(rows), Checksums(rows), Repeated(rows));
  }

  /** Rows of offered streams that share a checksum share the stream, stored or not. */
  lemma OfferedSizesAgree(hash: Hasher, s: Service)
    requires RowsOffered(hash, s) && CollisionFree(hash, s.store.streams)
    ensures SizesAgree(s.rows)
  {
    forall m, n | m in Checked(s.rows) && n in Checked(s.rows) && s.rows[m].checksum == s.rows[n].checksum
      ensures s.rows[m].size == s.rows[n].size
    {
      var a :| a in s.store.streams && s.rows[m].checksum == hash(a) && s.rows[m].size == |a|;
      var b :| b in s.store.streams && s.rows[n].checksum == hash(b) && s.rows[n].size == |b|;
    }
  }

  /** In every state uploads, deletes, failures, misread stats and crashes can reach, the report adds up to the byte. */
  lemma ReportIsExactForUploads(hash: Hasher, trace: seq<ServiceEvent>, s: Service)
    requires ServiceRun(hash, EmptyService, trace, s) && CollisionFree(hash, s.store.streams)
    ensures TotalSize(s.rows) == DistinctSize(s.rows) + TotalsQuery(s.rows).wasted
    ensures TotalsQuery(s.rows).duplicates == |Checked(s.rows)| - |Checksums(s.rows)|
  {
    RunKeepsLoose(hash, EmptyService, trace, s);
    OfferedSizesAgree(hash, s);
    WasteAccountsForAllBytesIff(s.rows);
    DuplicateCount(s.rows);
  }
}
