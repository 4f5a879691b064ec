/**
 The clock that does not go backwards: the largest reading recorded so far, kept in a file.
 */
module Watermark {
  import opened Collections

  /** Whether the record can be read, written, and read again. An unreadable record counts as none. */
  datatype ClockIO = ClockIO(legible: bool, writable: bool, legibleAfter: bool)

  datatype Update = Saved | ClockTampered | WriteFailed

  function Seen(record: Option<int>, legible: bool): Option<int> {
    if legible then record else None
  }

  /** The record after UpdateWatermark: a reading behind it is refused. */
  function Recorded(record: Option<int>, now: int, io: ClockIO): Option<int> {
    var seen := Seen(record, io.legible);
    if seen.Some? && now < seen.value then record else if io.writable then Some(now) else record
  }

  /** GetMonotonicTime. */
  function Clock(record: Option<int>, now: int, io: ClockIO): int {
    var last := Seen(Recorded(record, now, io), io.legibleAfter);
    if last.Some? && last.value > now then last.value else now
  }

  const Plain := ClockIO(true, true, true)

  function Max(a: int, b: int): int {
    if a < b then b else a
  }

  /** The larger of the reading and the record. */
  function Peak(record: Option<int>, now: int): int {
    if record.Some? then Max(record.value, now) else now
  }

  /** With a legible record, the clock is the larger of the two; it is recorded exactly when that can be written. */
  lemma {:induction false} ClockIsMaximum(record: Option<int>, now: int, io: ClockIO)
    requires io.legible && io.legibleAfter
    ensures Clock(record, now, io) == Peak(record, now)
    ensures Recorded(record, now, io) == if io.writable then Some(Peak(record, now)) else record
  {
  }

  /**
   A call returns less than what is recorded exactly when its own reading is less and the record could
   not be read: afterwards, or before, so that it was overwritten. Only the latter lowers the record.
   */
  lemma {:induction false} FallsBehindIff(record: int, now: int, io: ClockIO)
    ensures Clock(Some(record), now, io) < record <==>
      now < record && (!io.legibleAfter || (!io.legible && io.writable))
    ensures Recorded(Some(record), now, io).Some?
    ensures Recorded(Some(record), now, io).value < record <==> now < record && !io.legible && io.writable
  {
  }

  // ---------- Sequences of readings ----------

  datatype Reading = Reading(now: int, io: ClockIO)

  /** The record after some readings. */
  function RecordAfter(record: Option<int>, readings: seq<Reading>): Option<int> {
    if readings == [] then record
    else
      var last := readings[|readings| - 1];
      Recorded(RecordAfter(record, readings[..|readings| - 1]), last.now, last.io)
  }

  /** What GetMonotonicTime returns for each of them. */
  function Stamp(record: Option<int>, readings: seq<Reading>, k: nat): int
    requires k < |readings|
  {
    Clock(RecordAfter(record, readings[..k]), readings[k].now, readings[k].io)
  }

  /** The reading replaces a record that could not be read, whatever it said. */
  predicate Overwrites(r: Reading) {
    !r.io.legible && r.io.writable
  }

  predicate NoOverwrite(readings: seq<Reading>, from: int, to: int) {
    forall i | from <= i < to && 0 <= i < |readings| :: !Overwrites(readings[i])
  }

  /** x was written, or recorded at the start, and not overwritten before call k. */
  predicate Held(record: Option<int>, readings: seq<Reading>, k: nat, x: int) {
    || (record == Some(x) && NoOverwrite(readings, 0, k))
    || exists i | 0 <= i < k && i < |readings| :: WrittenAt(readings, k, x, i)
  }

  predicate WrittenAt(readings: seq<Reading>, k: nat, x: int, i: int) {
    0 <= i < k && i < |readings| && readings[i].io.writable && readings[i].now == x && NoOverwrite(readings, i + 1, k)
  }

  lemma HeldAfter(record: Option<int>, readings: seq<Reading>, x: int)
    requires readings != []
    ensures
      var front, last := readings[..|readings| - 1], readings[|readings| - 1];
      Held(record, readings, |readings|, x) <==>
        (last.io.writable && last.now == x) || (!Overwrites(last) && Held(record, front, |front|, x))
  {
    var n := |readings| - 1;
    var front, last := readings[..n], readings[n];
    assert NoOverwrite(readings, n + 1, |readings|);
    assert forall from: int | from <= n && NoOverwrite(readings, from, |readings|) :: NoOverwrite(front, from, n);
    if last.io.writable && last.now == x {
      assert WrittenAt(readings, |readings|, x, n);
    }
    if !Overwrites(last) && Held(record, front, n, x) {
      StillHeld(record, readings, x);
    }
    if Held(record, readings, |readings|, x) && !(last.io.writable && last.now == x) {
      if !(record == Some(x) && NoOverwrite(readings, 0, |readings|)) {
        var i :| 0 <= i < |readings| && WrittenAt(readings, |readings|, x, i);
        assert !Overwrites(readings[n]);
        assert WrittenAt(front, n, x, i);
      }
    }
  }

  lemma StillHeld(record: Option<int>, readings: seq<Reading>, x: int)
    requires readings != [] && !Overwrites(readings[|readings| - 1])
    requires Held(record, readings[..|readings| - 1], |readings| - 1, x)
    ensures Held(record, readings, |readings|, x)
  {
    var n := |readings| - 1;
    var front := readings[..n];
    if record == Some(x) && NoOverwrite(front, 0, n) {
      assert forall i | 0 <= i < n :: readings[i] == front[i];
    } else {
      var i :| 0 <= i < n && WrittenAt(front, n, x, i);
      assert forall m | 0 <= m < n :: readings[m] == front[m];
      assert WrittenAt(readings, |readings|, x, i);
    }
  }

  /** The record is the largest value held. */
  lemma {:induction false} RecordIsLargestHeld(record: Option<int>, readings: seq<Reading>)
    ensures
      var r := RecordAfter(record, readings);
      && (r.Some? ==> Held(record, readings, |readings|, r.value))
      && (forall x | Held(record, readings, |readings|, x) :: r.Some? && x <= r.value)
    decreases |readings|
  {
    if readings != [] {
      var front, last := readings[..|readings| - 1], readings[|readings| - 1];
      RecordIsLargestHeld(record, front);
      var was, r := RecordAfter(record, front), RecordAfter(record, readings);
      if r.Some? {
        HeldAfter(record, readings, r.value);
      }
      forall x | Held(record, readings, |readings|, x)
        ensures r.Some? && x <= r.value
      {
        HeldAfter(record, readings, x);
      }
    }
  }

  /** The call reads back a record other than its own reading. */
  predicate Sees(r: Reading) {
    r.io.legibleAfter && !Overwrites(r)
  }

  /** The values call k has before it: its own reading, and what is held if it can see that. */
  predicate Known(record: Option<int>, readings: seq<Reading>, k: nat, x: int)
    requires k < |readings|
  {
    x == readings[k].now || (Sees(readings[k]) && Held(record, readings[..k], k, x))
  }

  /** Over any readings, whatever cannot be read or written, a call returns the largest value it knows. */
  lemma StampIsMaximum(record: Option<int>, readings: seq<Reading>, k: nat)
    requires k < |readings|
    ensures Known(record, readings, k, Stamp(record, readings, k))
    ensures forall x | Known(record, readings, k, x) :: x <= Stamp(record, readings, k)
  {
    RecordIsLargestHeld(record, readings[..k]);
  }

  /**
   Over any readings, a later call returns an earlier time than an earlier call exactly when the earlier
   one knew a value larger than all the later one knows: one never written, overwritten since, or out of
   sight because the record cannot be read.
   */
  lemma StampDecreasesIff(record: Option<int>, readings: seq<Reading>, j: nat, k: nat)
    requires j < k < |readings|
    ensures Stamp(record, readings, k) < Stamp(record, readings, j) <==>
      exists x :: Known(record, readings, j, x) && forall y | Known(record, readings, k, y) :: y < x
  {
    StampIsMaximum(record, readings, j);
    StampIsMaximum(record, readings, k);
    var later := Stamp(record, readings, k);
    assert Known(record, readings, k, later);
  }

  predicate Legible(readings: seq<Reading>) {
    forall i | 0 <= i < |readings| :: readings[i].io.legible && readings[i].io.legibleAfter
  }

  /** A peak that could not be written, later readings all behind it. */
  predicate Lost(record: Option<int>, readings: seq<Reading>, j: nat, k: nat)
    requires j < k < |readings|
  {
    && !readings[j].io.writable && readings[k].now < readings[j].now
    && (record.Some? ==> record.value < readings[j].now)
    && forall i | 0 <= i < k && readings[i].io.writable :: readings[i].now < readings[j].now
  }

  lemma LegibleKnown(record: Option<int>, readings: seq<Reading>, k: nat, x: int)
    requires k < |readings| && Legible(readings)
    ensures Known(record, readings, k, x) <==>
      x == readings[k].now || record == Some(x) || exists i | 0 <= i < k :: readings[i].io.writable && readings[i].now == x
  {
    var front := readings[..k];
    assert NoOverwrite(front, 0, k);
    if i :| 0 <= i < k && readings[i].io.writable && readings[i].now == x {
      assert front[i] == readings[i];
      assert WrittenAt(front, k, x, i);
    }
    if Held(record, front, k, x) && record != Some(x) {
      var i :| 0 <= i < k && WrittenAt(front, k, x, i);
      assert readings[i] == front[i];
    }
  }

  /** With legible records, the only way back is a peak that could not be written and that nothing makes up for. */
  lemma UnwrittenPeakIff(record: Option<int>, readings: seq<Reading>, j: nat, k: nat)
    requires j < k < |readings| && Legible(readings)
    ensures Stamp(record, readings, k) < Stamp(record, readings, j) <==> Lost(record, readings, j, k)
  {
    StampIsMaximum(record, readings, j);
    StampIsMaximum(record, readings, k);
    forall x
      ensures Known(record, readings, j, x) <==>
        x == readings[j].now || record == Some(x) || exists i | 0 <= i < j :: readings[i].io.writable && readings[i].now == x
      ensures Known(record, readings, k, x) <==>
        x == readings[k].now || record == Some(x) || exists i | 0 <= i < k :: readings[i].io.writable && readings[i].now == x
    {
      LegibleKnown(record, readings, j, x);
      LegibleKnown(record, readings, k, x);
    }
    var peak := Stamp(record, readings, j);
    assert Known(record, readings, j, peak);
    assert Known(record, readings, k, Stamp(record, readings, k));
    if Lost(record, readings, j, k) {
      assert Known(record, readings, j, readings[j].now);
    }
    if Stamp(record, readings, k) < peak {
      assert forall i | 0 <= i < k && readings[i].io.writable :: Known(record, readings, k, readings[i].now);
      assert record.Some? ==> Known(record, readings, k, record.value);
      assert Known(record, readings, k, readings[k].now);
    }
  }

  /** When every reading is written, the clock is the running maximum, so it never goes back. */
  lemma ClockIsRunningMaximum(readings: seq<Reading>, k: nat)
    requires k < |readings| && forall i | 0 <= i < |readings| :: readings[i].io == Plain
    ensures
      var stamp := Stamp(None, readings, k);
      (forall i | 0 <= i <= k :: readings[i].now <= stamp) && exists i | 0 <= i <= k :: readings[i].now == stamp
    ensures forall j | 0 <= j < k :: Stamp(None, readings, j) <= Stamp(None, readings, k)
  {
    StampIsMaximum(None, readings, k);
    forall x
      ensures Known(None, readings, k, x) <==> exists i | 0 <= i <= k :: readings[i].now == x
    {
      LegibleKnown(None, readings, k, x);
    }
    forall i | 0 <= i <= k
      ensures readings[i].now <= Stamp(None, readings, k)
    {
      assert Known(None, readings, k, readings[i].now);
    }
    forall j | 0 <= j < k
      ensures Stamp(None, readings, j) <= Stamp(None, readings, k)
    {
      UnwrittenPeakIff(None, readings, j, k);
    }
  }

  /** Found in the code: a reading that cannot be written, or a record that cannot be read, lets time go back. */
  lemma {:induction false} ClockCanGoBack()
    ensures
      var unwritten := [Reading(10, Plain.(writable := false)), Reading(5, Plain)];
      var unread := [Reading(10, Plain), Reading(5, Plain.(legible := false))];
      && Stamp(None, unwritten, 0) == 10 && Stamp(None, unwritten, 1) == 5
      && Stamp(None, unread, 0) == 10 && Stamp(None, unread, 1) == 5
  {
    var unwritten := [Reading(10, Plain.(writable := false)), Reading(5, Plain)];
    var unread := [Reading(10, Plain), Reading(5, Plain.(legible := false))];
    assert unwritten[..1] == [unwritten[0]] && unread[..1] == [unread[0]];
    assert unwritten[..0] == [] && unread[..0] == [];
    assert [unwritten[0]][..0] == [] && [unread[0]][..0] == [];
  }

  // ---------- The file ----------

  class ClockFile {
    var record: Option<int>

    constructor (record: Option<int>)
      ensures this.record == record
    {
      this.record := record;
    }

    method UpdateWatermark(now: int, legible: bool, writable: bool) returns (r: Update)
      modifies this
      ensures record == Recorded(old(record), now, ClockIO(legible, writable, true))
      ensures r == ClockTampered <==> legible && old(record).Some? && now < old(record).value
      ensures r == Saved <==> r != ClockTampered && writable
    {
      if legible && record.Some? && now < record.value {
        return ClockTampered;
      }
      if !writable {
        return WriteFailed;
      }
      record := Some(now);
      r := Saved;
    }

    /** The recorded time; None stands for the zero time of a missing or illegible file. */
    method GetWatermark(legible: bool) returns (last: Option<int>)
      ensures last == Seen(record, legible)
    {
      last := if legible then record else None;
    }

    method GetMonotonicTime(now: int, io: ClockIO) returns (t: int)
      modifies this
      ensures record == Recorded(old(record), now, io) && t == Clock(old(record), now, io)
      ensures io == Plain ==> t == Peak(old(record), now) && record == Some(t)
    {
      var _ := UpdateWatermark(now, io.legible, io.writable);
      var last := GetWatermark(io.legibleAfter);
      t := if last.Some? && last.value > now then last.value else now;
    }
  }
}
