/**
 Counting received packets by node and by hop, and flushing both counters to their tables. The radio
 thread counts at any moment; the flush drains the two counters one after the other, and each insert
 reads its own clock.
 */
module PacketCounts {
  import opened Arithmetic
  import opened Options
  import opened PacketTable
  import PacketHistory
  import NodeIds

  // ----- One packet -----

  /** A decoded field: Python integers, booleans (which are integers too) and anything else. */
  datatype Field = Absent | Int(value: int) | Truth(b: bool) | Other

  /** The fields that counting reads; an empty `fromId` stands for a missing one. */
  datatype Packet = Packet(fromId: string, sender: Option<int>, hopStart: Field, hopLimit: Field)

  const UNKNOWN_HOPS: int := -1
  const LOCAL_HOPS: int := -2

  /** Every key the hop counter may hold. */
  predicate HopKey(k: int) {
    LOCAL_HOPS <= k <= 7
  }

  function HopBucket(p: Packet): (hops: int)
    ensures UNKNOWN_HOPS <= hops <= 7
  {
    if p.hopStart.Int? && p.hopStart.value >= 1 then
      var limit := if p.hopLimit.Int? then p.hopLimit.value else 0;
      var hops := p.hopStart.value - limit;
      if 0 <= hops <= 7 then hops else UNKNOWN_HOPS
    else UNKNOWN_HOPS
  }

  /** A hop count is known exactly when the packet set out with a budget and spent from none to seven of it. */
  lemma KnownHops(p: Packet, h: int)
    requires h >= 0
    ensures HopBucket(p) == h <==>
              && p.hopStart.Int? && p.hopStart.value >= 1 && h <= 7
              && p.hopStart.value == h + if p.hopLimit.Int? then p.hopLimit.value else 0
  {
  }

  /** The node a packet is counted for, if it can be told. */
  function NodeOf(p: Packet): Option<string> {
    if p.fromId != "" then Some(p.fromId)
    else if p.sender.Some? then Some(NodeIds.HexId(p.sender.value))
    else None
  }

  function HopsOf(p: Packet, node: string, localId: Option<string>): (hops: int)
    ensures HopKey(hops)
    ensures hops == LOCAL_HOPS <==> localId == Some(node)
  {
    if localId == Some(node) then LOCAL_HOPS else HopBucket(p)
  }

  /** The sender of a packet: the id it was decoded with, or else the printed number, whose low 32 bits count. */
  predicate SentBy(p: Packet, node: string) {
    if p.fromId != "" then node == p.fromId else p.sender.Some? && node == NodeIds.HexId(p.sender.value)
  }

  lemma SenderMeans(p: Packet, node: string)
    ensures NodeOf(p) == Some(node) <==> SentBy(p, node)
    ensures NodeOf(p).None? <==> p.fromId == "" && p.sender.None?
  {
  }

  /** The packet set out with a budget of hops and has spent so many of it, none to seven. */
  predicate Spent(p: Packet, h: int) {
    && p.hopStart.Int? && p.hopStart.value >= 1 && 0 <= h <= 7
    && p.hopStart.value == h + if p.hopLimit.Int? then p.hopLimit.value else 0
  }

  /** The bucket of a packet: the gateway's own, whatever the fields, or the hops spent, or the unknown one. */
  predicate ShownAs(p: Packet, node: string, localId: Option<string>, hops: int) {
    if localId == Some(node) then hops == -2
    else Spent(p, hops) || (hops == -1 && forall h :: 0 <= h <= 7 ==> !Spent(p, h))
  }

  lemma HopsMeans(p: Packet, node: string, localId: Option<string>, hops: int)
    ensures HopsOf(p, node, localId) == hops <==> ShownAs(p, node, localId, hops)
    ensures hops >= 0 ==>
              (HopsOf(p, node, localId) == hops <==>
                && localId != Some(node) && p.hopStart.Int? && p.hopStart.value >= 1 && hops <= 7
                && p.hopStart.value == hops + if p.hopLimit.Int? then p.hopLimit.value else 0)
  {
    if HopBucket(p) >= 0 {
      assert Spent(p, HopBucket(p));
    }
  }

  class NodeLink {
    var packetCounts: Counts<string>
    var hopCounts: Counts<int>
    var localId: Option<string>

    constructor ()
      ensures packetCounts == [] && hopCounts == [] && localId == None
    {
      packetCounts, hopCounts, localId := [], [], None;
    }

    /** Resolved once, as soon as the interface knows it, and remembered. */
    method LocalNodeId(myNum: Option<int>) returns (id: Option<string>)
      modifies this`localId
      ensures id == localId
      ensures old(localId).Some? ==> localId == old(localId)
      ensures old(localId).None? ==> localId == if myNum.Some? then Some(NodeIds.HexId(myNum.value)) else None
    {
      if localId.None? && myNum.Some? {
        localId := Some(NodeIds.HexId(myNum.value));
      }
      id := localId;
    }

    /** Both counters grow by one or neither does, in one block under the lock. */
    method CountPacket(p: Packet, myNum: Option<int>)
      modifies this
      ensures NodeOf(p).None? ==>
                packetCounts == old(packetCounts) && hopCounts == old(hopCounts) && localId == old(localId)
      ensures NodeOf(p).Some? ==>
                && packetCounts == Bump(old(packetCounts), NodeOf(p).value)
                && hopCounts == Bump(old(hopCounts), HopsOf(p, NodeOf(p).value, localId))
      ensures forall node :: Get(packetCounts, node) == Get(old(packetCounts), node) + One(SentBy(p, node))
      ensures forall hops ::
                Get(hopCounts, hops) == Get(old(hopCounts), hops) +
                  One(exists node :: SentBy(p, node) && ShownAs(p, node, localId, hops))
      ensures Total(packetCounts) - Total(old(packetCounts)) == Total(hopCounts) - Total(old(hopCounts))
    {
      var node := p.fromId;
      if node == "" {
        if p.sender.None? {
          return;
        }
        node := NodeIds.HexId(p.sender.value);
      }
      var local := LocalNodeId(myNum);
      var hops := if local == Some(node) then LOCAL_HOPS else HopBucket(p);
      assert SentBy(p, node);
      forall n ensures Get(Bump(packetCounts, node), n) == Get(packetCounts, n) + One(SentBy(p, n)) {
        BumpAddsOne(packetCounts, node, n);
      }
      forall h
        ensures Get(Bump(hopCounts, hops), h) ==
                Get(hopCounts, h) + One(exists n :: SentBy(p, n) && ShownAs(p, n, localId, h))
      {
        BumpAddsOne(hopCounts, hops, h);
        HopsMeans(p, node, localId, h);
      }
      BumpAddsOne(packetCounts, node, node);
      BumpAddsOne(hopCounts, hops, hops);
      packetCounts := Bump(packetCounts, node);
      hopCounts := Bump(hopCounts, hops);
    }

    method DrainPacketCounts() returns (counts: Counts<string>)
      modifies this`packetCounts
      ensures counts == old(packetCounts) && packetCounts == []
    {
      counts := packetCounts;
      packetCounts := [];
    }

    method DrainPacketHopCounts() returns (counts: Counts<int>)
      modifies this`hopCounts
      ensures counts == old(hopCounts) && hopCounts == []
    {
      counts := hopCounts;
      hopCounts := [];
    }
  }

  // ----- Every interleaving of counting and flushing -----

  /** One attributable packet, as it was counted. */
  datatype Arrival = Arrival(node: string, hops: int)

  function ArrivalOf(p: Packet, localId: Option<string>): Arrival
    requires NodeOf(p).Some?
  {
    Arrival(NodeOf(p).value, HopsOf(p, NodeOf(p).value, localId))
  }

  /** Where the flush stands. */
  datatype Flush = Waiting | PacketsOut | PacketsIn | HopsOut

  datatype State = State(
    arrivals: seq<Arrival>,
    counts: Counts<string>,
    hopCounts: Counts<int>,
    flush: Flush,
    batch: Counts<string>,     // drained, not inserted yet
    hopBatch: Counts<int>,
    rows: seq<Row<string>>,
    hopRows: seq<Row<int>>,
    lost: Counts<string>,      // in the memory of workers that were killed
    hopsLost: Counts<int>,
    stamp: real)               // instant of the latest packet insert

  datatype Step =
    | Count(p: Packet, localId: Option<string>)  // what CountPacket does with a packet of a known sender
    | DrainPackets
    | InsertPackets(ts: real)
    | DrainHops
    | InsertHops(ts: real)
    | Killed

  const INIT := State([], [], [], Waiting, [], [], [], [], [], [], 0.0)

  predicate Enabled(s: State, step: Step) {
    match step
    case Count(p, _) => NodeOf(p).Some?
    case DrainPackets => s.flush == Waiting
    case InsertPackets(_) => s.flush == PacketsOut
    case DrainHops => s.flush == PacketsIn
    case InsertHops(_) => s.flush == HopsOut
    case Killed => true
  }

  function Counted(s: State, a: Arrival): State {
    s.(arrivals := s.arrivals + [a], counts := Bump(s.counts, a.node), hopCounts := Bump(s.hopCounts, a.hops))
  }

  function Apply(s: State, step: Step): State
    requires Enabled(s, step)
  {
    match step
    case Count(p, localId) => Counted(s, ArrivalOf(p, localId))
    case DrainPackets => s.(batch := s.counts, counts := [], flush := PacketsOut)
    case InsertPackets(ts) => s.(rows := s.rows + Stamp(s.batch, ts), batch := [], flush := PacketsIn, stamp := ts)
    case DrainHops => s.(hopBatch := s.hopCounts, hopCounts := [], flush := HopsOut)
    case InsertHops(ts) => s.(hopRows := s.hopRows + Stamp(s.hopBatch, ts), hopBatch := [], flush := Waiting)
    case Killed =>
      s.(lost := s.lost + s.counts + s.batch, counts := [], batch := [],
         hopsLost := s.hopsLost + s.hopCounts + s.hopBatch, hopCounts := [], hopBatch := [], flush := Waiting)
  }

  predicate Run(s: State, steps: seq<Step>)
    decreases |steps|
  {
    steps == [] || (Enabled(s, steps[0]) && Run(Apply(s, steps[0]), steps[1..]))
  }

  function Final(s: State, steps: seq<Step>): State
    requires Run(s, steps)
    decreases |steps|
  {
    if steps == [] then s else Final(Apply(s, steps[0]), steps[1..])
  }

  // ----- Conservation -----

  function FromNode(arrivals: seq<Arrival>, node: string): nat {
    if arrivals == [] then 0
    else FromNode(arrivals[..|arrivals| - 1], node) + One(node == arrivals[|arrivals| - 1].node)
  }

  function WithHops(arrivals: seq<Arrival>, hops: int): nat {
    if arrivals == [] then 0
    else WithHops(arrivals[..|arrivals| - 1], hops) + One(hops == arrivals[|arrivals| - 1].hops)
  }

  /** What was received from a node is in memory, on its way, in the table, or was lost with a worker. */
  predicate NodeConserved(s: State, node: string) {
    FromNode(s.arrivals, node) == Get(s.counts, node) + Get(s.batch, node) + Recorded(s.rows, node) + Get(s.lost, node)
  }

  predicate HopsConserved(s: State, hops: int) {
    WithHops(s.arrivals, hops) ==
      Get(s.hopCounts, hops) + Get(s.hopBatch, hops) + Recorded(s.hopRows, hops) + Get(s.hopsLost, hops)
  }

  predicate TotalsConserved(s: State) {
    && |s.arrivals| == Total(s.counts) + Total(s.batch) + RecordedTotal(s.rows) + Total(s.lost)
    && |s.arrivals| == Total(s.hopCounts) + Total(s.hopBatch) + RecordedTotal(s.hopRows) + Total(s.hopsLost)
  }

  lemma {:induction false} GetConcat<K>(a: Counts<K>, b: Counts<K>, k: K)
    ensures Get(a + b, k) == Get(a, k) + Get(b, k)
    ensures Total(a + b) == Total(a) + Total(b)
  {
    if b == [] {
      assert a + b == a;
    } else {
      GetConcat(a, b[..|b| - 1], k);
      assert (a + b)[..|a + b| - 1] == a + b[..|b| - 1];
    }
  }

  /** How many of the packets of a run a node sent, told from the packets themselves. */
  function Received(steps: seq<Step>, node: string): nat
    decreases |steps|
  {
    if steps == [] then 0 else One(steps[0].Count? && SentBy(steps[0].p, node)) + Received(steps[1..], node)
  }

  ghost predicate CountedAs(step: Step, hops: int) {
    step.Count? && exists node :: SentBy(step.p, node) && ShownAs(step.p, node, step.localId, hops)
  }

  /** How many of them belong in a bucket. */
  ghost function ReceivedWith(steps: seq<Step>, hops: int): nat
    decreases |steps|
  {
    if steps == [] then 0 else One(CountedAs(steps[0], hops)) + ReceivedWith(steps[1..], hops)
  }

  lemma StepCounts(s: State, step: Step, node: string, hops: int)
    requires Enabled(s, step)
    ensures var t := Apply(s, step);
            && FromNode(t.arrivals, node) == FromNode(s.arrivals, node) + One(step.Count? && SentBy(step.p, node))
            && WithHops(t.arrivals, hops) == WithHops(s.arrivals, hops) + One(CountedAs(step, hops))
  {
    if step.Count? {
      var a := ArrivalOf(step.p, step.localId);
      assert (s.arrivals + [a])[..|s.arrivals|] == s.arrivals;
      SenderMeans(step.p, a.node);
      SenderMeans(step.p, node);
      HopsMeans(step.p, a.node, step.localId, hops);
    }
  }

  /** Every packet of a run is counted under its sender and its bucket, and only death loses any. */
  lemma {:induction false} ArrivalsArePackets(s: State, steps: seq<Step>, node: string, hops: int)
    requires Run(s, steps)
    ensures var t := Final(s, steps);
            && FromNode(t.arrivals, node) == FromNode(s.arrivals, node) + Received(steps, node)
            && WithHops(t.arrivals, hops) == WithHops(s.arrivals, hops) + ReceivedWith(steps, hops)
            && ((forall i :: 0 <= i < |steps| ==> !steps[i].Killed?) ==> t.lost == s.lost && t.hopsLost == s.hopsLost)
    decreases |steps|
  {
    if steps != [] {
      StepCounts(s, steps[0], node, hops);
      ArrivalsArePackets(Apply(s, steps[0]), steps[1..], node, hops);
    }
  }

  /** A batch exists only between its drain and its insert, and hop keys are always legal. */
  ghost predicate Tidy(s: State) {
    && (s.flush != PacketsOut ==> s.batch == [])
    && (s.flush != HopsOut ==> s.hopBatch == [])
    && LegalKeys(s.hopCounts) && LegalKeys(s.hopBatch)
    && (forall row :: row in s.hopRows ==> HopKey(row.key))
  }

  ghost predicate LegalKeys(c: Counts<int>) {
    forall pair :: pair in c ==> HopKey(pair.0)
  }

  lemma StepTidy(s: State, step: Step)
    requires Tidy(s) && Enabled(s, step)
    ensures Tidy(Apply(s, step))
  {
    var t := Apply(s, step);
    match step {
      case Count(p, localId) =>
        forall pair | pair in t.hopCounts ensures HopKey(pair.0) {
          BumpKeys(s.hopCounts, ArrivalOf(p, localId).hops, pair);
        }
      case InsertHops(ts) =>
        forall row | row in Stamp(s.hopBatch, ts) ensures HopKey(row.key) {
          var i :| 0 <= i < |s.hopBatch| && Stamp(s.hopBatch, ts)[i] == row;
          assert s.hopBatch[i] in s.hopBatch;
        }
      case _ =>
    }
  }

  lemma StepConserves(s: State, step: Step, node: string, hops: int)
    requires Enabled(s, step) && Tidy(s)
    requires NodeConserved(s, node) && HopsConserved(s, hops) && TotalsConserved(s)
    ensures var t := Apply(s, step); NodeConserved(t, node) && HopsConserved(t, hops) && TotalsConserved(t)
  {
    match step {
      case Count(p, localId) => CountConserves(s, ArrivalOf(p, localId), node, hops);
      case InsertPackets(ts) => InsertPacketsConserves(s, ts, node, hops);
      case InsertHops(ts) => InsertHopsConserves(s, ts, node, hops);
      case Killed => KilledConserves(s, node, hops);
      case _ =>
    }
  }

  lemma CountConserves(s: State, a: Arrival, node: string, hops: int)
    requires NodeConserved(s, node) && HopsConserved(s, hops) && TotalsConserved(s)
    ensures var t := Counted(s, a); NodeConserved(t, node) && HopsConserved(t, hops) && TotalsConserved(t)
  {
    assert (s.arrivals + [a])[..|s.arrivals|] == s.arrivals;
    BumpAddsOne(s.counts, a.node, node);
    BumpAddsOne(s.hopCounts, a.hops, hops);
  }

  /** A drained batch moves to the table whole. */
  lemma InsertPacketsConserves(s: State, ts: real, node: string, hops: int)
    requires NodeConserved(s, node) && HopsConserved(s, hops) && TotalsConserved(s) && s.flush == PacketsOut
    ensures var t := Apply(s, InsertPackets(ts)); NodeConserved(t, node) && HopsConserved(t, hops) && TotalsConserved(t)
  {
    StampKeepsCounts(s.rows, s.batch, ts, node);
    assert Get<string>([], node) == Total<string>([]) == 0;
  }

  lemma InsertHopsConserves(s: State, ts: real, node: string, hops: int)
    requires NodeConserved(s, node) && HopsConserved(s, hops) && TotalsConserved(s) && s.flush == HopsOut
    ensures var t := Apply(s, InsertHops(ts)); NodeConserved(t, node) && HopsConserved(t, hops) && TotalsConserved(t)
  {
    StampKeepsCounts(s.hopRows, s.hopBatch, ts, hops);
    assert Get<int>([], hops) == Total<int>([]) == 0;
  }

  lemma KilledConserves(s: State, node: string, hops: int)
    requires NodeConserved(s, node) && HopsConserved(s, hops) && TotalsConserved(s)
    ensures var t := Apply(s, Killed); NodeConserved(t, node) && HopsConserved(t, hops) && TotalsConserved(t)
  {
    GetConcat(s.lost, s.counts, node);
    GetConcat(s.lost + s.counts, s.batch, node);
    GetConcat(s.hopsLost, s.hopCounts, hops);
    GetConcat(s.hopsLost + s.hopCounts, s.hopBatch, hops);
  }

  lemma {:induction false} RunConserves(s: State, steps: seq<Step>, node: string, hops: int)
    requires Run(s, steps) && Tidy(s)
    requires NodeConserved(s, node) && HopsConserved(s, hops) && TotalsConserved(s)
    ensures var t := Final(s, steps); Tidy(t) && NodeConserved(t, node) && HopsConserved(t, hops) && TotalsConserved(t)
    decreases |steps|
  {
    if steps != [] {
      StepConserves(s, steps[0], node, hops);
      StepTidy(s, steps[0]);
      RunConserves(Apply(s, steps[0]), steps[1..], node, hops);
    }
  }

  /**
   Conservation. In every interleaving of counting, flushing and kills, node by node and hop by hop,
   the packets received equal what is in memory, on its way, recorded or lost with a killed worker; the
   two series add up to the same population; and no hop is recorded under an illegal key.
   */
  lemma PacketsAreConserved(steps: seq<Step>, node: string, hops: int)
    requires Run(INIT, steps)
    ensures var s := Final(INIT, steps);
            && NodeConserved(s, node) && HopsConserved(s, hops) && TotalsConserved(s)
            && FromNode(s.arrivals, node) == Received(steps, node)
            && WithHops(s.arrivals, hops) == ReceivedWith(steps, hops)
            && ((forall i :: 0 <= i < |steps| ==> !steps[i].Killed?) ==> s.lost == [] && s.hopsLost == [])
            && (forall row :: row in s.hopRows ==> HopKey(row.key))
  {
    RunConserves(INIT, steps, node, hops);
    ArrivalsArePackets(INIT, steps, node, hops);
  }

  // ----- Per-bin equality of the two series -----

  /** Everything recorded in one bin, whatever the key. */
  function BinTotal<K>(rows: seq<Row<K>>, w: int, bin: int): nat
    requires w > 0
  {
    if rows == [] then 0
    else
      BinTotal(rows[..|rows| - 1], w, bin) +
        if PacketHistory.BinOf(rows[|rows| - 1].ts, w) == bin then rows[|rows| - 1].count else 0
  }

  lemma {:induction false} StampInOneBin<K>(rows: seq<Row<K>>, c: Counts<K>, ts: real, w: int, bin: int)
    requires w > 0
    ensures BinTotal(rows + Stamp(c, ts), w, bin) ==
            BinTotal(rows, w, bin) + if PacketHistory.BinOf(ts, w) == bin then Total(c) else 0
  {
    var all := rows + Stamp(c, ts);
    if c == [] {
      assert all == rows;
    } else {
      StampInOneBin(rows, c[..|c| - 1], ts, w, bin);
      assert all[..|all| - 1] == rows + Stamp(c[..|c| - 1], ts);
    }
  }

  /** The documented promise: every bin shows as many packets by node as by hop. */
  ghost predicate BinsAgree(s: State, w: int)
    requires w > 0
  {
    forall bin :: BinTotal(s.rows, w, bin) == BinTotal(s.hopRows, w, bin)
  }

  lemma AgreeOn(s: State, w: int, bin: int)
    requires w > 0
    ensures BinsAgree(s, w) ==> BinTotal(s.rows, w, bin) == BinTotal(s.hopRows, w, bin)
  {
  }

  lemma RunCons(s: State, step: Step, rest: seq<Step>)
    requires Enabled(s, step) && Run(Apply(s, step), rest)
    ensures Run(s, [step] + rest) && Final(s, [step] + rest) == Final(Apply(s, step), rest)
  {
    assert ([step] + rest)[1..] == rest;
  }

  lemma {:induction false} RunAppend(s: State, a: seq<Step>, b: seq<Step>)
    requires Run(s, a) && Run(Final(s, a), b)
    ensures Run(s, a + b) && Final(s, a + b) == Final(Final(s, a), b)
    decreases |a|
  {
    if a == [] {
      assert a + b == b;
    } else {
      RunAppend(Apply(s, a[0]), a[1..], b);
      RunCons(s, a[0], a[1..] + b);
      assert [a[0]] + (a[1..] + b) == a + b;
    }
  }

  /** A stretch in which packets are counted and nothing else happens. */
  predicate OnlyCounts(steps: seq<Step>) {
    forall i :: 0 <= i < |steps| ==> steps[i].Count? && NodeOf(steps[i].p).Some?
  }

  lemma {:induction false} CountsRun(s: State, steps: seq<Step>)
    requires OnlyCounts(steps)
    ensures Run(s, steps)
    ensures var t := Final(s, steps);
            && Total(t.counts) == Total(s.counts) + |steps|
            && Total(t.hopCounts) == Total(s.hopCounts) + |steps|
            && t == s.(arrivals := t.arrivals, counts := t.counts, hopCounts := t.hopCounts)
    decreases |steps|
  {
    if steps != [] {
      var a := ArrivalOf(steps[0].p, steps[0].localId);
      BumpAddsOne(s.counts, a.node, "");
      BumpAddsOne(s.hopCounts, a.hops, 0);
      CountsRun(Apply(s, steps[0]), steps[1..]);
    }
  }

  /** One whole flush: packets are counted before, between and after its two inserts, as they please. */
  function FlushSteps(a: seq<Step>, t1: real, b: seq<Step>, c: seq<Step>, t2: real): seq<Step> {
    [DrainPackets] + (a + ([InsertPackets(t1)] + (b + ([DrainHops] + (c + [InsertHops(t2)])))))
  }

  /** The second half of a flush, from the drain of the hops on. */
  lemma HopsTotals(s: State, c: seq<Step>, t2: real, w: int, bin: int)
    requires s.flush == PacketsIn && w > 0 && OnlyCounts(c)
    ensures var steps := [DrainHops] + (c + [InsertHops(t2)]);
            && Run(s, steps)
            && var t := Final(s, steps);
               && t.flush == Waiting && t.rows == s.rows
               && BinTotal(t.hopRows, w, bin) == BinTotal(s.hopRows, w, bin) +
                    if PacketHistory.BinOf(t2, w) == bin then Total(s.hopCounts) else 0
  {
    var d := Apply(s, DrainHops);
    CountsRun(d, c);
    var u := Final(d, c);
    StampInOneBin(u.hopRows, u.hopBatch, t2, w, bin);
    assert [InsertHops(t2)] + [] == [InsertHops(t2)];
    RunCons(u, InsertHops(t2), []);
    RunAppend(d, c, [InsertHops(t2)]);
    RunCons(s, DrainHops, c + [InsertHops(t2)]);
  }

  /** The first half, up to the insert of the packets. */
  lemma PacketsTotals(s: State, a: seq<Step>, t1: real, w: int, bin: int)
    requires s.flush == Waiting && w > 0 && OnlyCounts(a)
    ensures var steps := [DrainPackets] + (a + [InsertPackets(t1)]);
            && Run(s, steps)
            && var t := Final(s, steps);
               && t.flush == PacketsIn && t.hopRows == s.hopRows
               && Total(t.hopCounts) == Total(s.hopCounts) + |a|
               && BinTotal(t.rows, w, bin) == BinTotal(s.rows, w, bin) +
                    if PacketHistory.BinOf(t1, w) == bin then Total(s.counts) else 0
  {
    var d := Apply(s, DrainPackets);
    CountsRun(d, a);
    var u := Final(d, a);
    StampInOneBin(u.rows, u.batch, t1, w, bin);
    assert [InsertPackets(t1)] + [] == [InsertPackets(t1)];
    RunCons(u, InsertPackets(t1), []);
    RunAppend(d, a, [InsertPackets(t1)]);
    RunCons(s, DrainPackets, a + [InsertPackets(t1)]);
  }

  lemma FlushHalves(a: seq<Step>, t1: real, b: seq<Step>, c: seq<Step>, t2: real)
    ensures ([DrainPackets] + (a + [InsertPackets(t1)])) + (b + ([DrainHops] + (c + [InsertHops(t2)])))
            == FlushSteps(a, t1, b, c, t2)
  {
  }

  lemma FlushTotals(s: State, a: seq<Step>, t1: real, b: seq<Step>, c: seq<Step>, t2: real, w: int, bin: int)
    requires s.flush == Waiting && w > 0 && OnlyCounts(a) && OnlyCounts(b) && OnlyCounts(c)
    ensures Run(s, FlushSteps(a, t1, b, c, t2))
    ensures var t := Final(s, FlushSteps(a, t1, b, c, t2));
            && BinTotal(t.rows, w, bin) == BinTotal(s.rows, w, bin) +
                 (if PacketHistory.BinOf(t1, w) == bin then Total(s.counts) else 0)
            && BinTotal(t.hopRows, w, bin) == BinTotal(s.hopRows, w, bin) +
                 (if PacketHistory.BinOf(t2, w) == bin then Total(s.hopCounts) + |a| + |b| else 0)
  {
    var first, last := [DrainPackets] + (a + [InsertPackets(t1)]), [DrainHops] + (c + [InsertHops(t2)]);
    PacketsTotals(s, a, t1, w, bin);
    var u := Final(s, first);
    CountsRun(u, b);
    HopsTotals(Final(u, b), c, t2, w, bin);
    RunAppend(u, b, last);
    RunAppend(s, first, b + last);
    FlushHalves(a, t1, b, c, t2);
  }

  /**
   The per-bin promise is conditional: a flush keeps it exactly when no packet was counted between its
   two drains, and either it had nothing to write or both inserts fell in one bin.
   */
  lemma FlushKeepsBinsIff(s: State, a: seq<Step>, t1: real, b: seq<Step>, c: seq<Step>, t2: real, w: int)
    requires s.flush == Waiting && w > 0 && OnlyCounts(a) && OnlyCounts(b) && OnlyCounts(c)
    requires BinsAgree(s, w) && Total(s.counts) == Total(s.hopCounts)
    ensures Run(s, FlushSteps(a, t1, b, c, t2))
    ensures BinsAgree(Final(s, FlushSteps(a, t1, b, c, t2)), w) <==>
              && a == [] && b == []
              && (Total(s.counts) == 0 || PacketHistory.BinOf(t1, w) == PacketHistory.BinOf(t2, w))
  {
    var b1, b2 := PacketHistory.BinOf(t1, w), PacketHistory.BinOf(t2, w);
    FlushTotals(s, a, t1, b, c, t2, w, b1);
    FlushTotals(s, a, t1, b, c, t2, w, b2);
    var t := Final(s, FlushSteps(a, t1, b, c, t2));
    AgreeOn(s, w, b1);
    AgreeOn(s, w, b2);
    if a == [] && b == [] && (Total(s.counts) == 0 || b1 == b2) {
      forall bin ensures BinTotal(t.rows, w, bin) == BinTotal(t.hopRows, w, bin) {
        FlushTotals(s, a, t1, b, c, t2, w, bin);
        AgreeOn(s, w, bin);
      }
    }
    AgreeOn(t, w, b1);
    AgreeOn(t, w, b2);
  }

  // ----- Runs whose flushes are all undisturbed -----

  /** No packet between the two drains, both inserts in one bin, no kill once the packets are out of memory. */
  predicate Undisturbed(s: State, step: Step, w: int)
    requires w > 0
  {
    match step
    case Count(_, _) => s.flush == Waiting || s.flush == HopsOut
    case InsertHops(ts) => s.hopBatch == [] || PacketHistory.BinOf(ts, w) == PacketHistory.BinOf(s.stamp, w)
    case Killed => s.flush == Waiting
    case _ => true
  }

  predicate UndisturbedRun(s: State, steps: seq<Step>, w: int)
    requires w > 0
    decreases |steps|
  {
    steps == [] ||
    (Enabled(s, steps[0]) && Undisturbed(s, steps[0], w) && UndisturbedRun(Apply(s, steps[0]), steps[1..], w))
  }

  /** What the hop series still owes a bin in the middle of a flush. */
  function Owed(s: State, w: int, bin: int): nat
    requires w > 0
  {
    if PacketHistory.BinOf(s.stamp, w) != bin then 0
    else if s.flush == PacketsIn then Total(s.hopCounts)
    else if s.flush == HopsOut then Total(s.hopBatch)
    else 0
  }

  ghost predicate InStep(s: State, w: int, bin: int)
    requires w > 0
  {
    && BinTotal(s.rows, w, bin) == BinTotal(s.hopRows, w, bin) + Owed(s, w, bin)
    && (match s.flush
        case Waiting => Total(s.counts) == Total(s.hopCounts)
        case PacketsOut => Total(s.batch) == Total(s.hopCounts) && s.counts == []
        case PacketsIn => s.counts == []
        case HopsOut => Total(s.counts) == Total(s.hopCounts))
  }

  lemma StepInStep(s: State, step: Step, w: int, bin: int)
    requires w > 0 && Enabled(s, step) && Undisturbed(s, step, w) && InStep(s, w, bin)
    ensures InStep(Apply(s, step), w, bin)
  {
    match step {
      case Count(p, localId) =>
        BumpAddsOne(s.counts, ArrivalOf(p, localId).node, "");
        BumpAddsOne(s.hopCounts, ArrivalOf(p, localId).hops, 0);
      case InsertPackets(ts) => StampInOneBin(s.rows, s.batch, ts, w, bin);
      case InsertHops(ts) => StampInOneBin(s.hopRows, s.hopBatch, ts, w, bin);
      case _ =>
    }
  }

  lemma {:induction false} UndisturbedRunInStep(s: State, steps: seq<Step>, w: int, bin: int)
    requires w > 0 && UndisturbedRun(s, steps, w) && InStep(s, w, bin)
    ensures Run(s, steps) && InStep(Final(s, steps), w, bin)
    decreases |steps|
  {
    if steps != [] {
      StepInStep(s, steps[0], w, bin);
      UndisturbedRunInStep(Apply(s, steps[0]), steps[1..], w, bin);
    }
  }

  /** Between flushes of an undisturbed run, every bin shows as many packets by node as by hop. */
  lemma UndisturbedBinsAgree(steps: seq<Step>, w: int)
    requires w > 0 && UndisturbedRun(INIT, steps, w)
    ensures Run(INIT, steps)
    ensures Final(INIT, steps).flush == Waiting ==> BinsAgree(Final(INIT, steps), w)
  {
    UndisturbedRunInStep(INIT, steps, w, 0);
    var s := Final(INIT, steps);
    if s.flush == Waiting {
      forall bin ensures BinTotal(s.rows, w, bin) == BinTotal(s.hopRows, w, bin) {
        UndisturbedRunInStep(INIT, steps, w, bin);
        assert InStep(s, w, bin);
      }
    }
  }
}
