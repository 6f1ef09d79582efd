/** Battery tiers: the tier for a battery level, with a hysteresis on the way up. */
module Tiers {
  import opened Arithmetic
  import opened Options

  datatype Tier = Tier(name: string, monitorInterval: Option<real>, dutyCycle: bool)

  const HIGH := Tier("HIGH", Some(900.0), false)
  const MID := Tier("MID", Some(1800.0), false)
  const LOW := Tier("LOW", Some(3600.0), false)
  const CRITICAL := Tier("CRITICAL", None, true)

  const TIER_ORDER: seq<Tier> := [HIGH, MID, LOW, CRITICAL]

  /** The level under which the battery leaves the tier of an index for the next one down. */
  function Threshold(i: nat): real
    requires i < 3
  {
    if i == 0 then 75.0 else if i == 1 then 50.0 else 25.0
  }

  function Below(level: real, offset: real, i: nat): nat
    requires i < 3
  {
    if level < Threshold(i) + offset then 1 else 0
  }

  /** How many thresholds, each raised by `offset`, the level is under. */
  function CountBelow(level: real, offset: real): (n: nat)
    ensures n <= 3
    ensures forall i: nat {:trigger Threshold(i)} :: i < 3 ==> (level < Threshold(i) + offset <==> i < n)
  {
    Below(level, offset, 0) + Below(level, offset, 1) + Below(level, offset, 2)
  }

  /** Position of a tier in the order; a tier outside the order, or none yet, counts as the highest. */
  function IndexOf(current: Option<Tier>): (i: nat)
    ensures i < 4
    ensures current.Some? && current.value in TIER_ORDER ==> TIER_ORDER[i] == current.value
    ensures current.None? || current.value !in TIER_ORDER ==> i == 0
  {
    if current == Some(MID) then 1
    else if current == Some(LOW) then 2
    else if current == Some(CRITICAL) then 3
    else 0
  }

  function SelectIndex(level: Option<real>, ci: nat, hysteresis: real): (i: nat)
    requires ci < 4
    ensures i < 4
  {
    if level.None? then ci
    else
      var down := CountBelow(level.value, 0.0);
      var up := CountBelow(level.value, hysteresis);
      if down > ci then down else if up < ci then up else ci
  }

  function SelectTier(level: Option<real>, current: Option<Tier>, hysteresis: real): Tier {
    TIER_ORDER[SelectIndex(level, IndexOf(current), hysteresis)]
  }

  lemma TierKeepsItsIndex(i: nat)
    requires i < 4
    ensures IndexOf(Some(TIER_ORDER[i])) == i
  {
    assert TIER_ORDER[0] == HIGH && TIER_ORDER[1] == MID && TIER_ORDER[2] == LOW && TIER_ORDER[3] == CRITICAL;
  }

  // ----- One reading: a clamp -----

  function Max(a: nat, b: nat): nat {
    if a >= b then a else b
  }

  function Min(a: nat, b: nat): nat {
    if a <= b then a else b
  }

  /** With a hysteresis that is not negative, a reading clamps the current tier between two bounds. */
  lemma SelectIsAClamp(level: real, ci: nat, hysteresis: real)
    requires ci < 4 && hysteresis >= 0.0
    ensures CountBelow(level, 0.0) <= CountBelow(level, hysteresis)
    ensures SelectIndex(Some(level), ci, hysteresis)
            == Max(CountBelow(level, 0.0), Min(ci, CountBelow(level, hysteresis)))
  {
  }

  /** A negative hysteresis breaks the clamp exactly when the reading is above both bounds of the current tier. */
  lemma ClampFailsOnlyAbove(level: real, ci: nat, hysteresis: real)
    requires ci < 4
    ensures SelectIndex(Some(level), ci, hysteresis)
            == Max(CountBelow(level, 0.0), Min(ci, CountBelow(level, hysteresis)))
            <==> !(CountBelow(level, hysteresis) < CountBelow(level, 0.0) <= ci)
  {
  }

  /** From a fresh start, or from the highest tier, a reading leads straight to the tier it falls in. */
  lemma FirstReading(level: real, hysteresis: real)
    requires hysteresis >= 0.0
    ensures var t := SelectTier(Some(level), None, hysteresis);
            && t == SelectTier(Some(level), Some(HIGH), hysteresis)
            && (t.dutyCycle <==> level < 25.0) && (t.monitorInterval.None? <==> level < 25.0)
            && (t.monitorInterval == Some(900.0) <==> level >= 75.0)
            && (t.monitorInterval == Some(1800.0) <==> 50.0 <= level < 75.0)
            && (t.monitorInterval == Some(3600.0) <==> 25.0 <= level < 50.0)
  {
    assert TIER_ORDER[0] == HIGH && TIER_ORDER[1] == MID && TIER_ORDER[2] == LOW && TIER_ORDER[3] == CRITICAL;
  }

  // ----- Sequences of readings -----

  function IndexAfter(levels: seq<Option<real>>, ci: nat, h: real): (i: nat)
    requires ci < 4
    ensures i < 4
    decreases |levels|
  {
    if levels == [] then ci else IndexAfter(levels[1..], SelectIndex(levels[0], ci, h), h)
  }

  datatype Trend = Fresh | Falling | Rising

  function TrendAfter(trend: Trend, before: nat, after: nat): Trend {
    if after > before then Falling else if after < before then Rising else trend
  }

  function Reverses(trend: Trend, before: nat, after: nat): nat {
    if (trend.Falling? && after < before) || (trend.Rising? && after > before) then 1 else 0
  }

  /** How many tier changes go the opposite way to the change before them. */
  function Reversals(levels: seq<Option<real>>, ci: nat, trend: Trend, h: real): nat
    requires ci < 4
    decreases |levels|
  {
    if levels == [] then 0
    else
      var next := SelectIndex(levels[0], ci, h);
      Reverses(trend, ci, next) + Reversals(levels[1..], next, TrendAfter(trend, ci, next), h)
  }

  function Changes(levels: seq<Option<real>>, ci: nat, h: real): nat
    requires ci < 4
    decreases |levels|
  {
    if levels == [] then 0
    else
      var next := SelectIndex(levels[0], ci, h);
      (if next != ci then 1 else 0) + Changes(levels[1..], next, h)
  }

  /** Total variation of the known readings, starting from a level already read. */
  function Variation(levels: seq<Option<real>>, from: real): (v: real)
    ensures v >= 0.0
    decreases |levels|
  {
    if levels == [] then 0.0
    else if levels[0].None? then Variation(levels[1..], from)
    else AbsReal(levels[0].value - from) + Variation(levels[1..], levels[0].value)
  }

  /** The same from the first known reading on. */
  function TotalVariation(levels: seq<Option<real>>): real
    decreases |levels|
  {
    if levels == [] then 0.0
    else if levels[0].None? then TotalVariation(levels[1..])
    else Variation(levels[1..], levels[0].value)
  }

  /** `level` is a reading at which the last change, in the direction of the trend, led to index `ci`. */
  predicate Anchors(level: real, ci: nat, trend: Trend, h: real) {
    match trend
    case Fresh => true
    case Falling => 0 < ci < 4 && level < Threshold(ci - 1)
    case Rising => ci < 3 && level >= Threshold(ci) + h
  }

  /** A change anchors its reading, and a reversal is more than the hysteresis away from the anchor before it. */
  lemma ChangeNeedsDistance(anchor: real, ci: nat, trend: Trend, level: real, h: real)
    requires ci < 4 && h >= 0.0 && Anchors(anchor, ci, trend, h)
    ensures var next := SelectIndex(Some(level), ci, h);
            && (next != ci ==> Anchors(level, next, TrendAfter(trend, ci, next), h))
            && (Reverses(trend, ci, next) == 1 ==> AbsReal(level - anchor) > h)
  {
    var next := SelectIndex(Some(level), ci, h);
    if next > ci {
      assert level < Threshold(next - 1) + 0.0;
      if trend.Rising? {
        assert level < Threshold(ci) + 0.0;
      }
    } else if next < ci {
      assert !(level < Threshold(next) + h);
      if trend.Falling? {
        assert !(level < Threshold(ci - 1) + h);
      }
    }
  }

  lemma {:induction false} ReversalsFromAnchor(
    levels: seq<Option<real>>, ci: nat, trend: Trend, anchor: real, last: real, h: real)
    requires ci < 4 && h >= 0.0 && Anchors(anchor, ci, trend, h)
    ensures Repeated(Reversals(levels, ci, trend, h), h) <= AbsReal(last - anchor) + Variation(levels, last)
    decreases |levels|
  {
    if levels != [] {
      var next := SelectIndex(levels[0], ci, h);
      var after := TrendAfter(trend, ci, next);
      if levels[0].None? {
        ReversalsFromAnchor(levels[1..], ci, trend, anchor, last, h);
      } else {
        var level := levels[0].value;
        ChangeNeedsDistance(anchor, ci, trend, level, h);
        if next == ci {
          ReversalsFromAnchor(levels[1..], ci, trend, anchor, level, h);
        } else {
          ReversalsFromAnchor(levels[1..], next, after, level, level, h);
        }
      }
    }
  }

  lemma {:induction false} ReversalsFromStart(levels: seq<Option<real>>, ci: nat, h: real)
    requires ci < 4 && h >= 0.0
    ensures Repeated(Reversals(levels, ci, Fresh, h), h) <= TotalVariation(levels)
    decreases |levels|
  {
    if levels != [] {
      if levels[0].None? {
        ReversalsFromStart(levels[1..], ci, h);
      } else {
        var level := levels[0].value;
        var next := SelectIndex(levels[0], ci, h);
        ChangeNeedsDistance(level, ci, Fresh, level, h);
        ReversalsFromAnchor(levels[1..], next, TrendAfter(Fresh, ci, next), level, level, h);
      }
    }
  }

  /** The number of reversals times the hysteresis never exceeds the total variation of the readings. */
  lemma ReversalsAreBounded(levels: seq<Option<real>>, ci: nat, h: real)
    requires ci < 4 && h >= 0.0
    ensures Reversals(levels, ci, Fresh, h) as real * h <= TotalVariation(levels)
  {
    ReversalsFromStart(levels, ci, h);
    RepeatedIsProduct(Reversals(levels, ci, Fresh, h), h);
  }

  // ----- Readings that stay within the hysteresis -----

  ghost predicate Within(levels: seq<Option<real>>, lo: real, hi: real) {
    forall k :: 0 <= k < |levels| && levels[k].Some? ==> lo <= levels[k].value <= hi
  }

  lemma {:induction false} NoReversalWithin(
    levels: seq<Option<real>>, ci: nat, trend: Trend, anchor: real, lo: real, hi: real, h: real)
    requires ci < 4 && h >= 0.0 && hi - lo <= h
    requires Within(levels, lo, hi) && lo <= anchor <= hi && Anchors(anchor, ci, trend, h)
    ensures Reversals(levels, ci, trend, h) == 0
    decreases |levels|
  {
    if levels != [] {
      if levels[0].None? {
        NoReversalWithin(levels[1..], ci, trend, anchor, lo, hi, h);
      } else {
        var level := levels[0].value;
        var next := SelectIndex(levels[0], ci, h);
        ChangeNeedsDistance(anchor, ci, trend, level, h);
        NoReversalWithin(levels[1..], next, TrendAfter(trend, ci, next),
                         if next == ci then anchor else level, lo, hi, h);
      }
    }
  }

  /** Without a reversal the index only travels one way, and the order has four tiers. */
  lemma {:induction false} OneWayIsShort(levels: seq<Option<real>>, ci: nat, trend: Trend, h: real)
    requires ci < 4 && Reversals(levels, ci, trend, h) == 0
    ensures trend.Falling? ==> Changes(levels, ci, h) <= 3 - ci && IndexAfter(levels, ci, h) >= ci
    ensures trend.Rising? ==> Changes(levels, ci, h) <= ci && IndexAfter(levels, ci, h) <= ci
    ensures Changes(levels, ci, h) <= 3
    decreases |levels|
  {
    if levels != [] {
      var next := SelectIndex(levels[0], ci, h);
      OneWayIsShort(levels[1..], next, TrendAfter(trend, ci, next), h);
    }
  }

  /** Readings that never spread by more than the hysteresis change tier in one direction, at most three times. */
  lemma NoFlapping(levels: seq<Option<real>>, ci: nat, lo: real, hi: real, h: real)
    requires ci < 4 && h >= 0.0 && lo <= hi <= lo + h && Within(levels, lo, hi)
    ensures Reversals(levels, ci, Fresh, h) == 0
    ensures Changes(levels, ci, h) <= 3
  {
    NoReversalWithin(levels, ci, Fresh, lo, lo, hi, h);
    OneWayIsShort(levels, ci, Fresh, h);
  }

  // ----- The tiers themselves -----

  /** The indices that a sequence of readings leads to. */
  function Trace(levels: seq<Option<real>>, ci: nat, h: real): (indices: seq<nat>)
    requires ci < 4
    ensures |indices| == |levels|
    decreases |levels|
  {
    if levels == [] then []
    else
      var next := SelectIndex(levels[0], ci, h);
      [next] + Trace(levels[1..], next, h)
  }

  lemma {:induction false} TraceAppend(levels: seq<Option<real>>, level: Option<real>, ci: nat, h: real)
    requires ci < 4
    ensures IndexAfter(levels + [level], ci, h) == SelectIndex(level, IndexAfter(levels, ci, h), h)
    ensures Trace(levels + [level], ci, h) == Trace(levels, ci, h) + [IndexAfter(levels + [level], ci, h)]
    decreases |levels|
  {
    if levels == [] {
      assert [level][1..] == [];
    } else {
      TraceAppend(levels[1..], level, SelectIndex(levels[0], ci, h), h);
      assert (levels + [level])[1..] == levels[1..] + [level];
    }
  }

  /** Reversals and changes, told from the tiers alone. */
  function TurnsIn(indices: seq<nat>, ci: nat, trend: Trend): nat
    decreases |indices|
  {
    if indices == [] then 0
    else Reverses(trend, ci, indices[0]) + TurnsIn(indices[1..], indices[0], TrendAfter(trend, ci, indices[0]))
  }

  function ChangesIn(indices: seq<nat>, ci: nat): nat
    decreases |indices|
  {
    if indices == [] then 0 else (if indices[0] != ci then 1 else 0) + ChangesIn(indices[1..], indices[0])
  }

  lemma {:induction false} TraceCounts(levels: seq<Option<real>>, ci: nat, trend: Trend, h: real)
    requires ci < 4
    ensures TurnsIn(Trace(levels, ci, h), ci, trend) == Reversals(levels, ci, trend, h)
    ensures ChangesIn(Trace(levels, ci, h), ci) == Changes(levels, ci, h)
    decreases |levels|
  {
    if levels != [] {
      var next := SelectIndex(levels[0], ci, h);
      TraceCounts(levels[1..], next, TrendAfter(trend, ci, next), h);
      assert Trace(levels, ci, h)[1..] == Trace(levels[1..], next, h);
    }
  }
}
