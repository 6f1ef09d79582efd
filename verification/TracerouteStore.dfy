/**
 The traceroute table: one row per request that has ended, inserted in order and pruned by age.
 Queries are written as the SQL is: a WHERE clause that keeps rows, then an aggregate.
 */
module TracerouteStore {
  import opened Options

  datatype Status = Ok | Timeout | Error

  datatype Row = Row(requestId: int, dest: string, status: Status, sent: real, recv: Option<real>, source: string)

  /** The budget counts the sources that start with this prefix. */
  const SCHEDULER_PREFIX: string := "scheduler:"

  // ----- WHERE clauses -----

  function ToDest(rows: seq<Row>, dest: string): (r: seq<Row>)
    ensures forall x :: x in r <==> x in rows && x.dest == dest
  {
    if rows == [] then []
    else
      var rest := ToDest(rows[..|rows| - 1], dest);
      if rows[|rows| - 1].dest == dest then rest + [rows[|rows| - 1]] else rest
  }

  function Succeeded(rows: seq<Row>): (r: seq<Row>)
    ensures forall x :: x in r <==> x in rows && x.status == Ok
  {
    if rows == [] then []
    else
      var rest := Succeeded(rows[..|rows| - 1]);
      if rows[|rows| - 1].status == Ok then rest + [rows[|rows| - 1]] else rest
  }

  lemma {:induction false} NothingTo(rows: seq<Row>, dest: string)
    requires forall x :: x in rows ==> x.dest != dest
    ensures ToDest(rows, dest) == []
  {
    if rows != [] {
      NothingTo(rows[..|rows| - 1], dest);
    }
  }

  /** What a prune keeps: rows sent at the cutoff or later, in their order. */
  function SentSince(rows: seq<Row>, cutoff: real): (r: seq<Row>)
    ensures forall x :: x in r <==> x in rows && x.sent >= cutoff
  {
    if rows == [] then []
    else
      var rest := SentSince(rows[..|rows| - 1], cutoff);
      if rows[|rows| - 1].sent >= cutoff then rest + [rows[|rows| - 1]] else rest
  }

  // ----- Aggregates -----

  /** max(sent_epoch): absent on an empty table, else attained and never exceeded. */
  function LastSent(rows: seq<Row>): (r: Option<real>)
    ensures r.None? <==> rows == []
    ensures forall x :: x in rows ==> x.sent <= r.value
    ensures r.Some? ==> exists x :: x in rows && x.sent == r.value
  {
    if rows == [] then None
    else
      var last := rows[|rows| - 1];
      var rest := LastSent(rows[..|rows| - 1]);
      assert rows == rows[..|rows| - 1] + [last];
      if rest.None? || rest.value <= last.sent then Some(last.sent) else rest
  }

  /** The latest send to a node, whatever came of it. */
  function LastAttempt(rows: seq<Row>, dest: string): (r: Option<real>)
    ensures r.None? <==> forall x :: x in rows ==> x.dest != dest
    ensures forall x :: x in rows && x.dest == dest ==> x.sent <= r.value
    ensures r.Some? ==> exists x :: x in rows && x.dest == dest && x.sent == r.value
  {
    LastOf(ToDest(rows, dest));
    LastSent(ToDest(rows, dest))
  }

  /** The latest send to a node that was answered. */
  function LastSuccess(rows: seq<Row>, dest: string): (r: Option<real>)
    ensures r.None? <==> forall x :: x in rows && x.dest == dest ==> x.status != Ok
    ensures forall x :: x in rows && x.dest == dest && x.status == Ok ==> x.sent <= r.value
    ensures r.Some? ==> exists x :: x in rows && x.dest == dest && x.status == Ok && x.sent == r.value
  {
    LastOf(Succeeded(ToDest(rows, dest)));
    LastSent(Succeeded(ToDest(rows, dest)))
  }

  /** The maximum is absent when no row is left over, and only then. */
  lemma LastOf(rows: seq<Row>)
    ensures LastSent(rows).None? <==> forall x :: x !in rows
  {
    if rows != [] {
      assert rows[0] in rows;
    }
  }

  function CountSince(rows: seq<Row>, since: real, prefix: string): nat {
    if rows == [] then 0
    else
      var last := rows[|rows| - 1];
      CountSince(rows[..|rows| - 1], since, prefix) + if last.sent >= since && prefix <= last.source then 1 else 0
  }

  /** The latest row of one request, which is the only kind of row the API waits for. */
  function ByRequestId(rows: seq<Row>, id: int): (r: Option<Row>)
    ensures r.None? <==> forall x :: x in rows ==> x.requestId != id
    ensures r.Some? ==> r.value in rows && r.value.requestId == id
    ensures r.Some? ==> forall x :: x in rows && x.requestId == id ==> x.sent <= r.value.sent
  {
    if rows == [] then None
    else
      var last := rows[|rows| - 1];
      var rest := ByRequestId(rows[..|rows| - 1], id);
      assert rows == rows[..|rows| - 1] + [last];
      if last.requestId == id && (rest.None? || rest.value.sent <= last.sent) then Some(last) else rest
  }

  class Table {
    var rows: seq<Row>

    constructor ()
      ensures rows == []
    {
      rows := [];
    }

    method Record(row: Row)
      modifies this
      ensures rows == old(rows) + [row]
    {
      rows := rows + [row];
    }

    /** DELETE ... WHERE sent_epoch < cutoff. */
    method Prune(now: real, olderThan: real)
      modifies this
      ensures rows == SentSince(old(rows), now - olderThan)
    {
      rows := SentSince(rows, now - olderThan);
    }
  }

  function Matching(rows: seq<Row>, since: real, prefix: string): set<nat> {
    set k: nat | k < |rows| && rows[k].sent >= since && prefix <= rows[k].source
  }

  /** count(*): the number of rows that satisfy the WHERE clause. */
  lemma {:induction false} CountIsExact(rows: seq<Row>, since: real, prefix: string)
    ensures CountSince(rows, since, prefix) == |Matching(rows, since, prefix)|
  {
    if rows != [] {
      var n := |rows| - 1;
      CountIsExact(rows[..n], since, prefix);
      var before := Matching(rows[..n], since, prefix);
      if rows[n].sent >= since && prefix <= rows[n].source {
        assert Matching(rows, since, prefix) == before + {n};
      } else {
        assert Matching(rows, since, prefix) == before;
      }
    }
  }

  lemma PruneOne(rows: seq<Row>, row: Row, cutoff: real)
    ensures SentSince(rows + [row], cutoff) == SentSince(rows, cutoff) + if row.sent >= cutoff then [row] else []
  {
    assert (rows + [row])[..|rows|] == rows;
  }

  lemma Regroup(a: seq<Row>, b: seq<Row>, c: seq<Row>)
    ensures (a + b) + c == a + (b + c)
  {
  }

  /** Pruning works row by row: it keeps the order of what it keeps, and every copy of it. */
  lemma {:induction false} PruneIsRowByRow(a: seq<Row>, b: seq<Row>, cutoff: real)
    ensures SentSince(a + b, cutoff) == SentSince(a, cutoff) + SentSince(b, cutoff)
  {
    if b == [] {
      assert a + b == a;
    } else {
      var front, last := b[..|b| - 1], b[|b| - 1];
      var tail := if last.sent >= cutoff then [last] else [];
      assert SentSince(a + b, cutoff) == SentSince(a + front, cutoff) + tail by {
        assert (a + front) + [last] == a + b;
        PruneOne(a + front, last, cutoff);
      }
      assert SentSince(b, cutoff) == SentSince(front, cutoff) + tail by {
        assert front + [last] == b;
        PruneOne(front, last, cutoff);
      }
      PruneIsRowByRow(a, front, cutoff);
      Regroup(SentSince(a, cutoff), SentSince(front, cutoff), tail);
    }
  }

  /** Pruning never changes a count whose window opens at the cutoff or later. */
  lemma {:induction false} PruneKeepsRecentCounts(rows: seq<Row>, cutoff: real, since: real, prefix: string)
    requires since >= cutoff
    ensures CountSince(SentSince(rows, cutoff), since, prefix) == CountSince(rows, since, prefix)
  {
    if rows != [] {
      var rest := SentSince(rows[..|rows| - 1], cutoff);
      PruneKeepsRecentCounts(rows[..|rows| - 1], cutoff, since, prefix);
      assert (rest + [rows[|rows| - 1]])[..|rest|] == rest;
    }
  }
}
