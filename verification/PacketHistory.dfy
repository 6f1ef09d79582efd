/**
 The packet histograms: raw rows are re-binned when they are read, by a GROUP BY on the bin and the
 key. `History` builds the groups one row at a time, in order of bin; `Grouped` is the plain sum
 that each group stands for.
 */
module PacketHistory {
  import opened Arithmetic
  import opened PacketTable

  datatype Group<K> = Group(bin: int, key: K, count: nat)

  /** CAST(... AS INT): truncation toward zero. */
  function Cast(x: real): int {
    if x >= 0.0 then x.Floor else -((-x).Floor)
  }

  function BinOf(ts: real, w: int): int
    requires w > 0
  {
    Cast(ts / w as real) * w
  }

  // ----- What a group must contain -----

  predicate Belongs<K(==)>(row: Row<K>, since: real, w: int, bin: int, key: K)
    requires w > 0
  {
    row.ts >= since && BinOf(row.ts, w) == bin && row.key == key
  }

  /** SUM(count) over the rows of one bin and key. */
  function Grouped<K(==)>(rows: seq<Row<K>>, since: real, w: int, bin: int, key: K): nat
    requires w > 0
  {
    if rows == [] then 0
    else
      var last := rows[|rows| - 1];
      Grouped(rows[..|rows| - 1], since, w, bin, key) + if Belongs(last, since, w, bin, key) then last.count else 0
  }

  ghost predicate Populated<K>(rows: seq<Row<K>>, since: real, w: int, bin: int, key: K)
    requires w > 0
  {
    exists i :: 0 <= i < |rows| && Belongs(rows[i], since, w, bin, key)
  }

  // ----- The query -----

  /** Puts a count into its group, opening the group at the end of its bin when there is none yet. */
  function Add<K(==)>(groups: seq<Group<K>>, bin: int, key: K, count: nat): seq<Group<K>> {
    if groups == [] then [Group(bin, key, count)]
    else
      var last := groups[|groups| - 1];
      var front := groups[..|groups| - 1];
      if last.bin == bin && last.key == key then front + [Group(bin, key, last.count + count)]
      else if last.bin < bin || (last.bin == bin && !Has(front, bin, key)) then groups + [Group(bin, key, count)]
      else Add(front, bin, key, count) + [last]
  }

  predicate Has<K(==)>(groups: seq<Group<K>>, bin: int, key: K) {
    exists i :: 0 <= i < |groups| && groups[i].bin == bin && groups[i].key == key
  }

  function History<K(==)>(rows: seq<Row<K>>, since: real, w: int): seq<Group<K>>
    requires w > 0
  {
    if rows == [] then []
    else
      var last := rows[|rows| - 1];
      var before := History(rows[..|rows| - 1], since, w);
      if last.ts >= since then Add(before, BinOf(last.ts, w), last.key, last.count) else before
  }

  // ----- Shape of the result -----

  ghost predicate Sorted<K>(groups: seq<Group<K>>) {
    forall i, j :: 0 <= i < j < |groups| ==> groups[i].bin <= groups[j].bin
  }

  ghost predicate Distinct<K>(groups: seq<Group<K>>) {
    forall i, j :: 0 <= i < j < |groups| ==> groups[i].bin != groups[j].bin || groups[i].key != groups[j].key
  }

  /** The count shown for a bin and key. */
  function Shown<K(==)>(groups: seq<Group<K>>, bin: int, key: K): nat {
    if groups == [] then 0
    else
      var last := groups[|groups| - 1];
      Shown(groups[..|groups| - 1], bin, key) + if last.bin == bin && last.key == key then last.count else 0
  }

  lemma {:induction false} AddBins<K>(groups: seq<Group<K>>, bin: int, key: K, count: nat, g: Group<K>)
    requires g in Add(groups, bin, key, count)
    ensures (g.bin == bin && g.key == key) || g in groups
  {
    if groups != [] && g != groups[|groups| - 1] && g in Add(groups[..|groups| - 1], bin, key, count) {
      AddBins(groups[..|groups| - 1], bin, key, count, g);
    }
  }

  lemma {:induction false} AddSorted<K>(groups: seq<Group<K>>, bin: int, key: K, count: nat)
    requires Sorted(groups)
    ensures Sorted(Add(groups, bin, key, count))
  {
    if groups != [] {
      var front, last := groups[..|groups| - 1], groups[|groups| - 1];
      AddSorted(front, bin, key, count);
      var inner := Add(front, bin, key, count);
      if bin <= last.bin {
        forall i | 0 <= i < |inner| ensures inner[i].bin <= last.bin {
          AddBins(front, bin, key, count, inner[i]);
        }
      }
    }
  }

  lemma {:induction false} AddDistinct<K>(groups: seq<Group<K>>, bin: int, key: K, count: nat)
    requires Sorted(groups) && Distinct(groups)
    ensures Distinct(Add(groups, bin, key, count))
  {
    if groups != [] {
      var front, last := groups[..|groups| - 1], groups[|groups| - 1];
      AddDistinct(front, bin, key, count);
      var inner := Add(front, bin, key, count);
      if !(last.bin == bin && last.key == key) {
        forall i | 0 <= i < |inner| ensures inner[i].bin != last.bin || inner[i].key != last.key {
          AddBins(front, bin, key, count, inner[i]);
        }
      }
    }
  }

  lemma ShownAppend<K>(groups: seq<Group<K>>, g: Group<K>, b: int, k: K)
    ensures Shown(groups + [g], b, k) == Shown(groups, b, k) + if g.bin == b && g.key == k then g.count else 0
  {
    assert (groups + [g])[..|groups|] == groups;
  }

  lemma {:induction false} AddShown<K>(groups: seq<Group<K>>, bin: int, key: K, count: nat, b: int, k: K)
    ensures Shown(Add(groups, bin, key, count), b, k) ==
            Shown(groups, b, k) + if b == bin && k == key then count else 0
  {
    if groups == [] {
      ShownAppend([], Group(bin, key, count), b, k);
      assert [] + [Group(bin, key, count)] == [Group(bin, key, count)];
    } else {
      var front, last := groups[..|groups| - 1], groups[|groups| - 1];
      assert groups == front + [last];
      ShownAppend(front, last, b, k);
      if last.bin == bin && last.key == key {
        ShownAppend(front, Group(bin, key, last.count + count), b, k);
      } else if last.bin < bin || (last.bin == bin && !Has(front, bin, key)) {
        ShownAppend(groups, Group(bin, key, count), b, k);
      } else {
        AddShown(front, bin, key, count, b, k);
        ShownAppend(Add(front, bin, key, count), last, b, k);
      }
    }
  }

  lemma {:induction false} AddHas<K>(groups: seq<Group<K>>, bin: int, key: K, count: nat, b: int, k: K)
    ensures Has(Add(groups, bin, key, count), b, k) <==> Has(groups, b, k) || (b == bin && k == key)
  {
    var after := Add(groups, bin, key, count);
    if groups == [] {
      assert Has(after, b, k) <==> b == bin && k == key by { assert after[0] == Group(bin, key, count); }
    } else {
      var front, last := groups[..|groups| - 1], groups[|groups| - 1];
      AddHas(front, bin, key, count, b, k);
      HasLast(groups, b, k);
      HasLast(after, b, k);
      if last.bin == bin && last.key == key {
        assert after[..|front|] == front;
      } else if last.bin < bin || (last.bin == bin && !Has(front, bin, key)) {
        assert after[..|groups|] == groups;
      } else {
        assert after[..|after| - 1] == Add(front, bin, key, count);
      }
    }
  }

  lemma HasLast<K>(groups: seq<Group<K>>, b: int, k: K)
    requires groups != []
    ensures var last := groups[|groups| - 1];
            Has(groups, b, k) <==> Has(groups[..|groups| - 1], b, k) || (last.bin == b && last.key == k)
  {
    var front := groups[..|groups| - 1];
    if Has(front, b, k) {
      var i :| 0 <= i < |front| && front[i].bin == b && front[i].key == k;
      assert groups[i] == front[i];
    }
    if Has(groups, b, k) {
      var i :| 0 <= i < |groups| && groups[i].bin == b && groups[i].key == k;
      if i < |front| {
        assert front[i] == groups[i];
      }
    }
  }

  // ----- Main results -----

  /** The histogram has one line per bin and key, in order of bin. */
  lemma {:induction false} HistoryShape<K>(rows: seq<Row<K>>, since: real, w: int)
    requires w > 0
    ensures Sorted(History(rows, since, w)) && Distinct(History(rows, since, w))
  {
    if rows != [] {
      var last := rows[|rows| - 1];
      HistoryShape(rows[..|rows| - 1], since, w);
      var before := History(rows[..|rows| - 1], since, w);
      AddSorted(before, BinOf(last.ts, w), last.key, last.count);
      AddDistinct(before, BinOf(last.ts, w), last.key, last.count);
    }
  }

  /** Each line is the sum of the rows of its bin and key, and there is a line exactly when there is a row. */
  lemma {:induction false} HistoryIsGroupedSum<K>(rows: seq<Row<K>>, since: real, w: int, bin: int, key: K)
    requires w > 0
    ensures Shown(History(rows, since, w), bin, key) == Grouped(rows, since, w, bin, key)
    ensures Has(History(rows, since, w), bin, key) <==> Populated(rows, since, w, bin, key)
  {
    if rows != [] {
      var front, last := rows[..|rows| - 1], rows[|rows| - 1];
      HistoryIsGroupedSum(front, since, w, bin, key);
      var before := History(front, since, w);
      AddShown(before, BinOf(last.ts, w), last.key, last.count, bin, key);
      AddHas(before, BinOf(last.ts, w), last.key, last.count, bin, key);
      PopulatedLast(rows, since, w, bin, key);
    }
  }

  lemma PopulatedLast<K>(rows: seq<Row<K>>, since: real, w: int, bin: int, key: K)
    requires w > 0 && rows != []
    ensures Populated(rows, since, w, bin, key) <==>
            Populated(rows[..|rows| - 1], since, w, bin, key) || Belongs(rows[|rows| - 1], since, w, bin, key)
  {
    var front := rows[..|rows| - 1];
    if Populated(front, since, w, bin, key) {
      var i :| 0 <= i < |front| && Belongs(front[i], since, w, bin, key);
      assert rows[i] == front[i];
    }
    if Populated(rows, since, w, bin, key) {
      var i :| 0 <= i < |rows| && Belongs(rows[i], since, w, bin, key);
      if i < |front| {
        assert front[i] == rows[i];
      }
    }
  }

  // ----- Bins -----

  /** On epochs, a bin is the half-open interval of its width that starts at its name. */
  lemma BinContains(ts: real, w: int)
    requires w > 0 && ts >= 0.0
    ensures BinOf(ts, w) as real <= ts < (BinOf(ts, w) + w) as real
  {
    var r := w as real;
    var x := ts / r;
    var q := x.Floor;
    Quotient(ts, r);
    assert BinOf(ts, w) == q * w;
    ScaledFloor(q, x, w);
  }

  /** Before the epoch bins are named by their end: the cast truncates toward zero. */
  lemma BinsMirrorAtZero(ts: real, w: int)
    requires w > 0 && ts <= 0.0
    ensures BinOf(ts, w) == -BinOf(-ts, w)
    ensures (BinOf(ts, w) - w) as real < ts <= BinOf(ts, w) as real
  {
    Quotient(-ts, w as real);
    var x, y := ts / w as real, -ts / w as real;
    assert x == -y by {
      Opposite(ts, w as real);
    }
    assert Cast(x) == -Cast(y);
    assert BinOf(ts, w) == -BinOf(-ts, w) by {
      assert Cast(x) * w == -(Cast(y) * w);
    }
    BinContains(-ts, w);
  }

  lemma Opposite(a: real, r: real)
    requires r > 0.0
    ensures a / r == -(-a / r)
  {
  }

  lemma ScaledFloor(q: int, x: real, w: int)
    requires w > 0 && q as real <= x < q as real + 1.0
    ensures (q * w) as real <= x * w as real < (q * w + w) as real
  {
    var n := q + 1;
    ProductAsReal(q, w);
    ProductAsReal(n, w);
    assert n as real == q as real + 1.0;
    var r, a, b := w as real, q as real, n as real;
    ScaleLeq(a, x, r);
    ScaleLess(x, b, r);
    assert n * w == q * w + w;
    assert (q * w) as real == a * r;
    assert (n * w) as real == b * r;
    assert a * r <= x * r;
    assert x * r < b * r;
  }

  lemma Quotient(ts: real, r: real)
    requires r > 0.0 && ts >= 0.0
    ensures ts / r >= 0.0 && (ts / r) * r == ts
  {
  }

  /** The bin of an instant is the only multiple of the width within one width below it. */
  lemma BinUnique(ts: real, w: int, p: int)
    requires w > 0 && ts >= 0.0
    requires (p * w) as real <= ts < (p * w + w) as real
    ensures BinOf(ts, w) == p * w
  {
    BinContains(ts, w);
    Quotient(ts, w as real);
    var q := (ts / w as real).Floor;
    assert BinOf(ts, w) == q * w;
    assert q * w < p * w + w && p * w < q * w + w;
    assert (p + 1) * w == p * w + w && (q + 1) * w == q * w + w;
    CancelLess(q, p + 1, w);
    CancelLess(p, q + 1, w);
  }

  /** Binning a bin's name into a multiple of the width is binning the instant itself. */
  lemma BinOfBin(ts: real, w: int, m: int)
    requires w > 0 && m > 0 && ts >= 0.0
    ensures m * w > 0 && BinOf(ts, w) >= 0
    ensures BinOf(BinOf(ts, w) as real, m * w) == BinOf(ts, m * w)
  {
    assert m * w > 0;
    BinContains(ts, w);
    BinContains(ts, m * w);
    Quotient(ts, w as real);
    Quotient(ts, (m * w) as real);
    var q, p := (ts / w as real).Floor, (ts / (m * w) as real).Floor;
    var b, c := q * w, p * (m * w);
    assert BinOf(ts, w) == b && BinOf(ts, m * w) == c;
    assert c < b + w && b < c + m * w;
    Aligned(q, p, m, w);
    BinUnique(b as real, m * w, p);
  }

  lemma Aligned(q: int, p: int, m: int, w: int)
    requires w > 0 && p * (m * w) < q * w + w
    ensures p * (m * w) <= q * w
  {
    assert p * (m * w) == (p * m) * w;
    assert (q + 1) * w == q * w + w;
    CancelLess(p * m, q + 1, w);
    if p * m < q {
      assert (q - p * m) * w >= 0;
    }
  }

  // ----- Re-binning a histogram -----

  /** A histogram read back as a time series: every line dated by the name of its bin. */
  function AsRows<K>(groups: seq<Group<K>>): (rows: seq<Row<K>>)
    ensures |rows| == |groups|
    ensures forall i :: 0 <= i < |rows| ==> rows[i] == Row(groups[i].bin as real, groups[i].key, groups[i].count)
  {
    seq(|groups|, i requires 0 <= i < |groups| => Row(groups[i].bin as real, groups[i].key, groups[i].count))
  }

  lemma GroupedAppend<K>(rows: seq<Row<K>>, row: Row<K>, since: real, w: int, bin: int, key: K)
    requires w > 0
    ensures Grouped(rows + [row], since, w, bin, key) ==
            Grouped(rows, since, w, bin, key) + if Belongs(row, since, w, bin, key) then row.count else 0
  {
    assert (rows + [row])[..|rows|] == rows;
  }

  lemma {:induction false} AddRegrouped<K>(
    groups: seq<Group<K>>, bin: int, key: K, count: nat, since: real, w: int, b: int, k: K)
    requires w > 0
    ensures Grouped(AsRows(Add(groups, bin, key, count)), since, w, b, k) ==
            Grouped(AsRows(groups), since, w, b, k) +
              if Belongs(Row(bin as real, key, count), since, w, b, k) then count else 0
  {
    if groups == [] {
      assert AsRows([Group(bin, key, count)]) == [] + [Row(bin as real, key, count)];
      assert AsRows(groups) == [];
      GroupedAppend([], Row(bin as real, key, count), since, w, b, k);
    } else {
      var front, last := groups[..|groups| - 1], groups[|groups| - 1];
      var row := Row(last.bin as real, last.key, last.count);
      assert AsRows(groups) == AsRows(front) + [row];
      GroupedAppend(AsRows(front), row, since, w, b, k);
      if last.bin == bin && last.key == key {
        var merged := Row(bin as real, key, last.count + count);
        assert AsRows(Add(groups, bin, key, count)) == AsRows(front) + [merged];
        GroupedAppend(AsRows(front), merged, since, w, b, k);
      } else if last.bin < bin || (last.bin == bin && !Has(front, bin, key)) {
        assert AsRows(Add(groups, bin, key, count)) == AsRows(groups) + [Row(bin as real, key, count)];
        GroupedAppend(AsRows(groups), Row(bin as real, key, count), since, w, b, k);
      } else {
        AddRegrouped(front, bin, key, count, since, w, b, k);
        assert AsRows(Add(groups, bin, key, count)) == AsRows(Add(front, bin, key, count)) + [row];
        GroupedAppend(AsRows(Add(front, bin, key, count)), row, since, w, b, k);
      }
    }
  }

  ghost predicate Epochs<K>(rows: seq<Row<K>>) {
    forall i :: 0 <= i < |rows| ==> rows[i].ts >= 0.0
  }

  /** Summing a histogram of width w into bins of m times w gives the histogram of that width. */
  lemma {:induction false} RegroupedSums<K>(rows: seq<Row<K>>, since: real, w: int, m: int, bin: int, key: K)
    requires w > 0 && m > 0 && m * w > 0 && Epochs(rows)
    ensures Grouped(AsRows(History(rows, since, w)), 0.0, m * w, bin, key) == Grouped(rows, since, m * w, bin, key)
  {
    if rows == [] {
      assert AsRows(History(rows, since, w)) == [];
    } else {
      var front, last := rows[..|rows| - 1], rows[|rows| - 1];
      RegroupedSums(front, since, w, m, bin, key);
      BinOfBin(last.ts, w, m);
      if last.ts >= since {
        AddRegrouped(History(front, since, w), BinOf(last.ts, w), last.key, last.count, 0.0, m * w, bin, key);
      }
    }
  }

  /** Re-binning refines the raw series: the coarser query is the same on the histogram as on the rows. */
  lemma RebinningIsConsistent<K>(rows: seq<Row<K>>, since: real, w: int, m: int, bin: int, key: K)
    requires w > 0 && m > 0 && m * w > 0 && Epochs(rows)
    ensures Shown(History(AsRows(History(rows, since, w)), 0.0, m * w), bin, key)
            == Shown(History(rows, since, m * w), bin, key)
    ensures Has(History(AsRows(History(rows, since, w)), 0.0, m * w), bin, key)
            <==> Has(History(rows, since, m * w), bin, key)
  {
    var fine := History(rows, since, w);
    HistoryIsGroupedSum(AsRows(fine), 0.0, m * w, bin, key);
    HistoryIsGroupedSum(rows, since, m * w, bin, key);
    RegroupedSums(rows, since, w, m, bin, key);
    if Populated(rows, since, m * w, bin, key) {
      var i :| 0 <= i < |rows| && Belongs(rows[i], since, m * w, bin, key);
      BinOfBin(rows[i].ts, w, m);
      HistoryIsGroupedSum(rows, since, w, BinOf(rows[i].ts, w), key);
      assert Belongs(rows[i], since, w, BinOf(rows[i].ts, w), key);
      var j :| 0 <= j < |fine| && fine[j].bin == BinOf(rows[i].ts, w) && fine[j].key == key;
      assert Belongs(AsRows(fine)[j], 0.0, m * w, bin, key);
    }
    if Populated(AsRows(fine), 0.0, m * w, bin, key) {
      var j :| 0 <= j < |fine| && Belongs(AsRows(fine)[j], 0.0, m * w, bin, key);
      HistoryIsGroupedSum(rows, since, w, fine[j].bin, key);
      assert Has(fine, fine[j].bin, key);
      var i :| 0 <= i < |rows| && Belongs(rows[i], since, w, fine[j].bin, key);
      BinOfBin(rows[i].ts, w, m);
      assert Belongs(rows[i], since, m * w, bin, key);
    }
  }

  // ----- Totals, splits and prunes -----

  function ShownTotal<K>(groups: seq<Group<K>>): nat {
    if groups == [] then 0 else ShownTotal(groups[..|groups| - 1]) + groups[|groups| - 1].count
  }

  /** All that was recorded from an instant on. */
  function TotalSince<K>(rows: seq<Row<K>>, since: real): nat {
    if rows == [] then 0
    else TotalSince(rows[..|rows| - 1], since) + if rows[|rows| - 1].ts >= since then rows[|rows| - 1].count else 0
  }

  lemma {:induction false} AddTotal<K>(groups: seq<Group<K>>, bin: int, key: K, count: nat)
    ensures ShownTotal(Add(groups, bin, key, count)) == ShownTotal(groups) + count
  {
    var after := Add(groups, bin, key, count);
    if groups == [] {
      assert after[..0] == [];
    } else {
      var front, last := groups[..|groups| - 1], groups[|groups| - 1];
      if last.bin == bin && last.key == key {
        assert after[..|front|] == front;
      } else if last.bin < bin || (last.bin == bin && !Has(front, bin, key)) {
        assert after[..|groups|] == groups;
      } else {
        AddTotal(front, bin, key, count);
        assert after[..|after| - 1] == Add(front, bin, key, count);
      }
    }
  }

  /** No packet is lost or counted twice by binning. */
  lemma {:induction false} HistoryConservesTotals<K>(rows: seq<Row<K>>, since: real, w: int)
    requires w > 0
    ensures ShownTotal(History(rows, since, w)) == TotalSince(rows, since)
  {
    if rows != [] {
      var last := rows[|rows| - 1];
      HistoryConservesTotals(rows[..|rows| - 1], since, w);
      AddTotal(History(rows[..|rows| - 1], since, w), BinOf(last.ts, w), last.key, last.count);
    }
  }

  lemma {:induction false} GroupedConcat<K>(a: seq<Row<K>>, z: seq<Row<K>>, since: real, w: int, bin: int, key: K)
    requires w > 0
    ensures Grouped(a + z, since, w, bin, key) == Grouped(a, since, w, bin, key) + Grouped(z, since, w, bin, key)
  {
    if z == [] {
      assert a + z == a;
    } else {
      GroupedConcat(a, z[..|z| - 1], since, w, bin, key);
      assert (a + z)[..|a + z| - 1] == a + z[..|z| - 1];
    }
  }

  /** Splitting one flushed count over two flushes of the same bin changes no histogram of that width. */
  lemma SplitFlushIsInvisible<K>(
    a: seq<Row<K>>, z: seq<Row<K>>, whole: Row<K>, first: Row<K>, second: Row<K>, since: real, w: int, bin: int, key: K)
    requires w > 0
    requires whole.key == first.key == second.key && whole.count == first.count + second.count
    requires BinOf(whole.ts, w) == BinOf(first.ts, w) == BinOf(second.ts, w)
    requires whole.ts >= since && first.ts >= since && second.ts >= since
    ensures Shown(History(a + [first] + [second] + z, since, w), bin, key)
            == Shown(History(a + [whole] + z, since, w), bin, key)
  {
    HistoryIsGroupedSum(a + [first] + [second] + z, since, w, bin, key);
    HistoryIsGroupedSum(a + [whole] + z, since, w, bin, key);
    GroupedConcat(a + [first] + [second], z, since, w, bin, key);
    GroupedConcat(a + [whole], z, since, w, bin, key);
    GroupedAppend(a, first, since, w, bin, key);
    GroupedAppend(a + [first], second, since, w, bin, key);
    GroupedAppend(a, whole, since, w, bin, key);
  }

  /** DELETE ... WHERE ts < cutoff. */
  function Pruned<K>(rows: seq<Row<K>>, cutoff: real): seq<Row<K>> {
    if rows == [] then []
    else
      var rest := Pruned(rows[..|rows| - 1], cutoff);
      if rows[|rows| - 1].ts >= cutoff then rest + [rows[|rows| - 1]] else rest
  }

  /** The rows of the cutoff or later stay, and they alone. */
  lemma {:induction false} PruneKeepsTheYounger<K>(rows: seq<Row<K>>, cutoff: real, row: Row<K>)
    ensures row in Pruned(rows, cutoff) <==> row in rows && row.ts >= cutoff
  {
    if rows != [] {
      PruneKeepsTheYounger(rows[..|rows| - 1], cutoff, row);
    }
  }

  /** Pruning changes no histogram whose window opens at the cutoff or later. */
  lemma {:induction false} PruneIsInvisible<K>(rows: seq<Row<K>>, cutoff: real, since: real, w: int)
    requires w > 0 && since >= cutoff
    ensures History(Pruned(rows, cutoff), since, w) == History(rows, since, w)
  {
    if rows != [] {
      PruneIsInvisible(rows[..|rows| - 1], cutoff, since, w);
      var rest := Pruned(rows[..|rows| - 1], cutoff);
      assert (rest + [rows[|rows| - 1]])[..|rest|] == rest;
    }
  }
}
