/** The event store: one append inside a transaction, and what the PRIMARY KEY and
    the UNIQUE constraint keep true of the log when appends interleave freely. */
module EventStore {

  datatype NewEvent = NewEvent(name: string, payload: string, meta: string)

  /** A committed row of `sutegi_events`. */
  datatype Row = Row(position: int, stream: string, version: int, event: NewEvent)

  datatype Expected = Any | NoStream | Version(v: int) {
    predicate Matches(current: int) {
      match this
      case Any => true
      case NoStream => current == 0
      case Version(v) => current == v
    }
  }

  datatype Outcome = Appended(version: int) | Conflict(actual: int) | StoreError

  const MAX_APPEND_RETRIES := 16

  // ---- the queries ----

  /** `SELECT COALESCE(MAX(version), 0) ... WHERE stream = ?` */
  function StreamVersion(rows: seq<Row>, stream: string): int {
    if rows == [] then 0
    else
      var v := StreamVersion(rows[..|rows| - 1], stream);
      var r := rows[|rows| - 1];
      if r.stream == stream && r.version > v then r.version else v
  }

  /** `SELECT COALESCE(MAX(position), 0)` */
  function HeadPosition(rows: seq<Row>): int {
    if rows == [] then 0
    else
      var p := HeadPosition(rows[..|rows| - 1]);
      var r := rows[|rows| - 1];
      if r.position > p then r.position else p
  }

  /** Both are maxima over what they range over, or 0 where there is nothing. */
  lemma {:induction false} ReadsAreMaxima(rows: seq<Row>, stream: string)
    ensures var v := StreamVersion(rows, stream);
      && v >= 0 && (forall i :: 0 <= i < |rows| && rows[i].stream == stream ==> rows[i].version <= v)
      && (v == 0 || exists i :: 0 <= i < |rows| && rows[i].stream == stream && rows[i].version == v)
    ensures var p := HeadPosition(rows);
      && p >= 0 && (forall i :: 0 <= i < |rows| ==> rows[i].position <= p)
      && (p == 0 || exists i :: 0 <= i < |rows| && rows[i].position == p)
  {
    if rows != [] {
      var front := rows[..|rows| - 1];
      ReadsAreMaxima(front, stream);
      assert forall i :: 0 <= i < |front| ==> front[i] == rows[i];
      if i :| 0 <= i < |front| && front[i].stream == stream && front[i].version == StreamVersion(front, stream) {
        assert rows[i].stream == stream;
      }
      if i :| 0 <= i < |front| && front[i].position == HeadPosition(front) {
        assert rows[i].position == HeadPosition(front);
      }
    }
  }

  predicate SameKey(a: Row, b: Row) {
    a.position == b.position || (a.stream == b.stream && a.version == b.version)
  }

  /** Neither PRIMARY KEY (position) nor UNIQUE (stream, version) refuses `added`. */
  ghost predicate Admits(rows: seq<Row>, added: seq<Row>) {
    forall i, j :: 0 <= i < |rows| && 0 <= j < |added| ==> !SameKey(rows[i], added[j])
  }

  // ---- one append inside a transaction ----

  /** The rows an append writes when it read `current` and `head`. */
  function NewRows(stream: string, current: int, head: int, events: seq<NewEvent>): (rows: seq<Row>)
    ensures |rows| == |events|
    ensures forall i :: 0 <= i < |rows| ==> rows[i] == Row(head + 1 + i, stream, current + 1 + i, events[i])
  {
    seq(|events|, i requires 0 <= i < |events| => Row(head + 1 + i, stream, current + 1 + i, events[i]))
  }

  /** A transaction as `append_tx` sees it. Each query sees the rows committed when
      it runs, so the two reads may see different tables (READ COMMITTED); under a
      snapshot they are the same. Inserts stay in `staged` until the commit. */
  class Tx {
    const atVersionRead: seq<Row>
    const atHeadRead: seq<Row>
    var staged: seq<Row>

    constructor (v: seq<Row>, h: seq<Row>)
      ensures atVersionRead == v && atHeadRead == h && staged == []
    {
      atVersionRead, atHeadRead, staged := v, h, [];
    }

    /** `append_tx`: check the version, then insert row by row. An exact version is refused
        unless it is the stream's, a new stream unless there is none; anything else goes. */
    method AppendTx(stream: string, expected: Expected, events: seq<NewEvent>) returns (r: Outcome)
      requires staged == []
      modifies this`staged
      ensures var current := StreamVersion(atVersionRead, stream);
        && (r.Conflict? <==>
              (expected.NoStream? && current != 0) || (expected.Version? && current != expected.v))
        && (r.Conflict? ==> r == Conflict(current) && staged == [])
        && (!r.Conflict? ==>
              r == Appended(current + |events|)
              && staged == NewRows(stream, current, HeadPosition(atHeadRead), events))
    {
      var current := StreamVersion(atVersionRead, stream);
      if !expected.Matches(current) {
        return Conflict(current);
      }
      if events == [] {
        return Appended(current);
      }
      var head := HeadPosition(atHeadRead);
      ghost var all := NewRows(stream, current, head, events);
      for i := 0 to |events|
        invariant staged == all[..i]
      {
        staged := staged + [Row(head + 1 + i, stream, current + 1 + i, events[i])];
      }
      r := Appended(current + |events|);
    }
  }

  // ---- the log ----

  function Count(rows: seq<Row>, stream: string): nat {
    if rows == [] then 0
    else Count(rows[..|rows| - 1], stream) + (if rows[|rows| - 1].stream == stream then 1 else 0)
  }

  /** Positions are 1..head in commit order, and the k-th row of a stream has version k. */
  ghost predicate GapFree(rows: seq<Row>) {
    forall i :: 0 <= i < |rows| ==> rows[i].position == i + 1 && rows[i].version == Count(rows[..i], rows[i].stream) + 1
  }

  lemma {:induction false} ReadsOfLog(rows: seq<Row>, stream: string)
    requires GapFree(rows)
    ensures HeadPosition(rows) == |rows| && StreamVersion(rows, stream) == Count(rows, stream)
  {
    if rows != [] {
      var front := rows[..|rows| - 1];
      assert forall i :: 0 <= i < |front| ==> front[..i] == rows[..i];
      ReadsOfLog(front, stream);
    }
  }

  lemma {:induction false} CountGrows(rows: seq<Row>, k: nat, stream: string)
    requires k <= |rows|
    ensures Count(rows[..k], stream) <= Count(rows, stream)
  {
    if k < |rows| {
      var front := rows[..|rows| - 1];
      assert front[..k] == rows[..k];
      CountGrows(front, k, stream);
    } else {
      assert rows[..k] == rows;
    }
  }

  /** Versions 1..n of a stream are all taken. */
  lemma {:induction false} VersionTaken(rows: seq<Row>, stream: string, v: int) returns (i: nat)
    requires GapFree(rows) && 1 <= v <= Count(rows, stream)
    ensures i < |rows| && rows[i].stream == stream && rows[i].version == v
  {
    var front := rows[..|rows| - 1];
    if rows[|rows| - 1].stream == stream && v == Count(rows, stream) {
      i := |rows| - 1;
    } else {
      assert forall i :: 0 <= i < |front| ==> front[..i] == rows[..i];
      i := VersionTaken(front, stream, v);
    }
  }

  /** The constraints admit an append exactly when nothing was committed to the log
      after its head read and nothing to its stream after its version read. */
  lemma AdmittedIffFresh(rows: seq<Row>, stream: string, current: int, head: int, events: seq<NewEvent>)
    requires GapFree(rows) && events != [] && 0 <= head <= |rows| && 0 <= current <= Count(rows, stream)
    ensures Admits(rows, NewRows(stream, current, head, events)) <==> head == |rows| && current == Count(rows, stream)
  {
    var added := NewRows(stream, current, head, events);
    if head < |rows| {
      assert SameKey(rows[head], added[0]);
    } else if current < Count(rows, stream) {
      var i := VersionTaken(rows, stream, current + 1);
      assert SameKey(rows[i], added[0]);
    } else {
      forall i, j | 0 <= i < |rows| && 0 <= j < |added|
        ensures !SameKey(rows[i], added[j])
      {
        CountGrows(rows, i, rows[i].stream);
        CountIncludes(rows, i);
      }
    }
  }

  lemma {:induction false} CountIncludes(rows: seq<Row>, i: nat)
    requires i < |rows|
    ensures Count(rows[..i], rows[i].stream) + 1 <= Count(rows, rows[i].stream)
  {
    assert rows[..i + 1][..i] == rows[..i];
    CountGrows(rows, i + 1, rows[i].stream);
  }

  lemma GapFreeSnoc(rows: seq<Row>, row: Row)
    requires GapFree(rows) && row.position == |rows| + 1 && row.version == Count(rows, row.stream) + 1
    ensures GapFree(rows + [row])
    ensures forall s :: Count(rows + [row], s) == Count(rows, s) + (if s == row.stream then 1 else 0)
  {
    var all := rows + [row];
    assert all[..|rows|] == rows;
    forall i | 0 <= i < |rows|
      ensures all[..i] == rows[..i]
    {
    }
    forall s
      ensures Count(all, s) == Count(rows, s) + (if s == row.stream then 1 else 0)
    {
    }
    hide Count;
  }

  /** Appending fresh rows keeps the log gap free. */
  lemma {:induction false} GapFreeAppend(rows: seq<Row>, stream: string, events: seq<NewEvent>)
    requires GapFree(rows)
    ensures var all := rows + NewRows(stream, Count(rows, stream), |rows|, events);
      && GapFree(all)
      && Count(all, stream) == Count(rows, stream) + |events|
      && forall s :: s != stream ==> Count(all, s) == Count(rows, s)
  {
    hide Count;
    var added := NewRows(stream, Count(rows, stream), |rows|, events);
    if events == [] {
      assert rows + added == rows;
    } else {
      var n := |events| - 1;
      var front := NewRows(stream, Count(rows, stream), |rows|, events[..n]);
      GapFreeAppend(rows, stream, events[..n]);
      assert added == front + [added[n]];
      assert rows + added == (rows + front) + [added[n]];
      GapFreeSnoc(rows + front, added[n]);
    }
  }
}
