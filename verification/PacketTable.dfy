/**
 Counters and the time series they are flushed to. A counter is a dictionary in insertion order,
 one pair per key; a flush writes one row per pair, all stamped with one instant.
 */
module PacketTable {
  import opened Arithmetic

  datatype Row<K> = Row(ts: real, key: K, count: nat)

  type Counts<K> = seq<(K, nat)>

  // ----- Counters -----

  /** What a counter holds under a key; nothing means zero. */
  function Get<K(==)>(c: Counts<K>, k: K): nat {
    if c == [] then 0 else Get(c[..|c| - 1], k) + if c[|c| - 1].0 == k then c[|c| - 1].1 else 0
  }

  function Total<K>(c: Counts<K>): nat {
    if c == [] then 0 else Total(c[..|c| - 1]) + c[|c| - 1].1
  }

  /** One more under a key: in place if the key is there, else at the end. */
  function Bump<K(==)>(c: Counts<K>, k: K): Counts<K> {
    if c == [] then [(k, 1)]
    else if c[|c| - 1].0 == k then c[..|c| - 1] + [(k, c[|c| - 1].1 + 1)]
    else Bump(c[..|c| - 1], k) + [c[|c| - 1]]
  }

  lemma {:induction false} BumpAddsOne<K>(c: Counts<K>, k: K, j: K)
    ensures Get(Bump(c, k), j) == Get(c, j) + One(j == k)
    ensures Total(Bump(c, k)) == Total(c) + 1
  {
    var after := Bump(c, k);
    if c == [] {
      assert after[..0] == [];
    } else {
      var front := c[..|c| - 1];
      if c[|c| - 1].0 == k {
        assert after[..|c| - 1] == front;
      } else {
        BumpAddsOne(front, k, j);
        assert after[..|after| - 1] == Bump(front, k);
      }
    }
  }

  /** Keys only come from what was counted. */
  lemma {:induction false} BumpKeys<K>(c: Counts<K>, k: K, pair: (K, nat))
    requires pair in Bump(c, k)
    ensures pair.0 == k || pair in c
  {
    if c != [] && c[|c| - 1].0 != k && pair != c[|c| - 1] {
      BumpKeys(c[..|c| - 1], k, pair);
    }
  }

  // ----- Rows -----

  /** The rows one flush writes. */
  function Stamp<K>(c: Counts<K>, ts: real): (rows: seq<Row<K>>)
    ensures |rows| == |c|
    ensures forall i :: 0 <= i < |rows| ==> rows[i] == Row(ts, c[i].0, c[i].1)
  {
    seq(|c|, i requires 0 <= i < |c| => Row(ts, c[i].0, c[i].1))
  }

  /** Everything recorded under a key. */
  function Recorded<K(==)>(rows: seq<Row<K>>, k: K): nat {
    if rows == [] then 0
    else Recorded(rows[..|rows| - 1], k) + if rows[|rows| - 1].key == k then rows[|rows| - 1].count else 0
  }

  function RecordedTotal<K>(rows: seq<Row<K>>): nat {
    if rows == [] then 0 else RecordedTotal(rows[..|rows| - 1]) + rows[|rows| - 1].count
  }

  lemma {:induction false} StampKeepsCounts<K>(rows: seq<Row<K>>, c: Counts<K>, ts: real, k: K)
    ensures Recorded(rows + Stamp(c, ts), k) == Recorded(rows, k) + Get(c, k)
    ensures RecordedTotal(rows + Stamp(c, ts)) == RecordedTotal(rows) + Total(c)
  {
    var all := rows + Stamp(c, ts);
    if c == [] {
      assert all == rows;
    } else {
      StampKeepsCounts(rows, c[..|c| - 1], ts, k);
      assert all[..|all| - 1] == rows + Stamp(c[..|c| - 1], ts);
    }
  }
}
