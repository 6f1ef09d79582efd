/**
 The automatic traceroute scheduler: its guards, its two target policies, and the object that
 the worker polls. Everything outside it (clock, table, node database, jitter) is an argument.
 */
module TracerouteScheduler {
  import opened Arithmetic
  import opened Options
  import opened LocalTime
  import opened TracerouteStore
  import NodeIds

  datatype Config = Config(
    tickS: real,
    minGapS: real,
    perNodeMinS: real,
    dailyBudget: int,
    quiet: Option<(int, int)>,
    maxChanutil: real,
    recentH: real,
    targets: seq<string>,
    priority: seq<string>,
    policy: string,
    hopLimit: int,
    utcOffset: int)

  /** One entry of the node database; an empty user id stands for a missing one. */
  datatype HeardNode = HeardNode(num: int, lastHeard: Option<real>, userId: string)

  datatype Command = Command(dest: string, hopLimit: int, channelIndex: int, timeoutS: real, source: string)

  const BIG_STALENESS: real := 1000000000000.0
  const PRIORITY_WEIGHT: real := 2.0
  const TIMEOUT_S: real := 30.0
  const MINUTES: int := 1440

  // ----- Quiet hours -----

  predicate InQuietHours(minute: int, window: Option<(int, int)>) {
    match window
    case None => false
    case Some((start, end)) =>
      if start <= end then start <= minute < end else minute >= start || minute < end
  }

  predicate MinuteOfClock(m: int) {
    0 <= m < MINUTES
  }

  /** Going round the clock from the opening minute, one is inside until the closing minute comes up. */
  lemma QuietHoursGoRoundTheClock(minute: int, start: int, end: int)
    requires MinuteOfClock(minute) && MinuteOfClock(start) && MinuteOfClock(end)
    ensures InQuietHours(minute, Some((start, end))) <==> (minute - start) % MINUTES < (end - start) % MINUTES
  {
    assert (minute - start) % MINUTES == if minute >= start then minute - start else minute - start + MINUTES;
    assert (end - start) % MINUTES == if end >= start then end - start else end - start + MINUTES;
  }

  // ----- Policy "static": round-robin -----

  /** First eligible index met from `start + offset` on, at most one turn round the list. */
  function Scan(targets: seq<string>, start: nat, offset: nat, eligible: string -> bool): (r: Option<nat>)
    requires offset <= |targets|
    ensures r.Some? ==> r.value < |targets| && eligible(targets[r.value])
    decreases |targets| - offset
  {
    if offset == |targets| then None
    else if eligible(targets[(start + offset) % |targets|]) then Some((start + offset) % |targets|)
    else Scan(targets, start, offset + 1, eligible)
  }

  function NextIndex(targets: seq<string>, start: nat, eligible: string -> bool): nat {
    if targets == [] then start
    else match Scan(targets, start, 0, eligible)
      case Some(i) => (i + 1) % |targets|
      case None => start % |targets|
  }

  method SelectStatic(targets: seq<string>, start: nat, eligible: string -> bool)
    returns (dest: Option<string>, next: nat)
    ensures dest.None? <==> Scan(targets, start, 0, eligible).None?
    ensures dest.Some? ==> dest.value == targets[Scan(targets, start, 0, eligible).value]
    ensures next == NextIndex(targets, start, eligible)
  {
    var n := |targets|;
    if n == 0 {
      return None, start;
    }
    var offset := 0;
    while offset < n
      invariant 0 <= offset <= n
      invariant Scan(targets, start, 0, eligible) == Scan(targets, start, offset, eligible)
    {
      var idx := (start + offset) % n;
      if eligible(targets[idx]) {
        return Some(targets[idx]), (idx + 1) % n;
      }
      offset := offset + 1;
    }
    return None, start % n;
  }

  /** How many steps of the rotation separate two indices. */
  function Distance(start: nat, i: nat, n: nat): nat
    requires start < n && i < n
  {
    if i >= start then i - start else i + n - start
  }

  lemma SlotAtDistance(start: nat, k: nat, n: nat)
    requires start < n && k < n
    ensures (start + k) % n < n
    ensures (start + k) % n == if start + k < n then start + k else start + k - n
  {
    if start + k >= n {
      ModSubtract(start + k, n);
    }
  }

  lemma ModSubtract(x: nat, n: nat)
    requires 0 < n <= x < 2 * n
    ensures x % n == x - n
  {
    assert x == n * 1 + (x - n);
  }

  lemma {:induction false} ScanFinds(targets: seq<string>, start: nat, offset: nat, eligible: string -> bool, i: nat)
    requires start < |targets| && i < |targets| && eligible(targets[i])
    requires offset <= Distance(start, i, |targets|)
    ensures var r := Scan(targets, start, offset, eligible);
            r.Some? && offset <= Distance(start, r.value, |targets|) <= Distance(start, i, |targets|)
    decreases |targets| - offset
  {
    SlotAtDistance(start, offset, |targets|);
    SlotAtDistance(start, Distance(start, i, |targets|), |targets|);
    if !eligible(targets[(start + offset) % |targets|]) {
      ScanFinds(targets, start, offset + 1, eligible, i);
    }
  }

  /** The scan returns the cyclically first eligible index, and none exactly when none is eligible. */
  lemma ScanIsCyclicallyFirst(targets: seq<string>, start: nat, eligible: string -> bool)
    requires start < |targets|
    ensures Scan(targets, start, 0, eligible).None? <==> forall i :: 0 <= i < |targets| ==> !eligible(targets[i])
    ensures Scan(targets, start, 0, eligible).Some? ==>
              forall i :: 0 <= i < |targets| && eligible(targets[i]) ==>
                Distance(start, Scan(targets, start, 0, eligible).value, |targets|) <= Distance(start, i, |targets|)
  {
    forall i: nat | i < |targets| && eligible(targets[i])
      ensures Scan(targets, start, 0, eligible).Some?
      ensures Distance(start, Scan(targets, start, 0, eligible).value, |targets|) <= Distance(start, i, |targets|)
    {
      ScanFinds(targets, start, 0, eligible, i);
    }
  }

  /** Only the place in the rotation counts, so the scan finds a target exactly when one is eligible, from any start. */
  lemma ScanFindsAny(targets: seq<string>, start: nat, eligible: string -> bool)
    ensures Scan(targets, start, 0, eligible).Some? <==> exists i :: 0 <= i < |targets| && eligible(targets[i])
  {
    if targets != [] {
      ScanTurnsRound(targets, start, 0, eligible);
      ScanIsCyclicallyFirst(targets, start % |targets|, eligible);
    }
  }

  lemma {:induction false} ScanTurnsRound(targets: seq<string>, start: nat, offset: nat, eligible: string -> bool)
    requires targets != [] && offset <= |targets|
    ensures Scan(targets, start, offset, eligible) == Scan(targets, start % |targets|, offset, eligible)
    decreases |targets| - offset
  {
    if offset < |targets| {
      ModOfSum(start, offset, |targets|);
      ScanTurnsRound(targets, start, offset + 1, eligible);
    }
  }

  lemma ModOfSum(start: nat, offset: nat, n: nat)
    requires n > 0
    ensures (start + offset) % n == (start % n + offset) % n
  {
    var q, r := (start % n + offset) / n, (start % n + offset) % n;
    assert start + offset == start / n * n + q * n + r;
    assert start / n * n + q * n == (start / n + q) * n;
    Remainder(start + offset, start / n + q, r, n);
  }

  /** The rotation moves past the target that was chosen, and stays where it is when there is none. */
  lemma RotationMovesPastTheChoice(targets: seq<string>, start: nat, eligible: string -> bool)
    requires start < |targets|
    ensures (forall i :: 0 <= i < |targets| ==> !eligible(targets[i])) ==> NextIndex(targets, start, eligible) == start
    ensures var r := Scan(targets, start, 0, eligible);
            r.Some? ==> NextIndex(targets, start, eligible) == if r.value == |targets| - 1 then 0 else r.value + 1
  {
    ScanFindsAny(targets, start, eligible);
    if Scan(targets, start, 0, eligible).Some? {
      Successor(Scan(targets, start, 0, eligible).value, |targets|);
    }
  }

  /** The indices chosen by consecutive calls, eligibility being free to change between them. */
  function Turns(targets: seq<string>, start: nat, calls: seq<string -> bool>): (r: seq<Option<nat>>)
    ensures |r| == |calls|
    decreases |calls|
  {
    if calls == [] then []
    else [Scan(targets, start, 0, calls[0])] + Turns(targets, NextIndex(targets, start, calls[0]), calls[1..])
  }

  lemma {:induction false} NobodyWaitsPastItsDistance(
    targets: seq<string>, start: nat, calls: seq<string -> bool>, i: nat)
    requires start < |targets| && i < |targets|
    requires |calls| > Distance(start, i, |targets|)
    requires forall j :: 0 <= j < |calls| ==> calls[j](targets[i])
    ensures Some(i) in Turns(targets, start, calls)
    decreases |calls|
  {
    var n := |targets|;
    assert calls[0](targets[i]);
    ScanFinds(targets, start, 0, calls[0], i);
    var c := Scan(targets, start, 0, calls[0]).value;
    if c == i {
      assert Turns(targets, start, calls)[0] == Some(i);
    } else {
      var next := NextIndex(targets, start, calls[0]);
      AfterAnotherChoice(start, c, i, n);
      assert next == (c + 1) % n;
      NobodyWaitsPastItsDistance(targets, next, calls[1..], i);
      assert Turns(targets, start, calls)[1..] == Turns(targets, next, calls[1..]);
    }
  }

  lemma Successor(c: nat, n: nat)
    requires c < n
    ensures (c + 1) % n == if c + 1 == n then 0 else c + 1
  {
  }

  lemma AfterAnotherChoice(start: nat, c: nat, i: nat, n: nat)
    requires start < n && c < n && i < n && c != i
    requires Distance(start, c, n) <= Distance(start, i, n)
    ensures (c + 1) % n < n
    ensures Distance((c + 1) % n, i, n) < Distance(start, i, n)
  {
    Successor(c, n);
  }

  /** Fairness: a target eligible at every call is chosen within one turn of the list. */
  lemma RoundRobinIsFair(targets: seq<string>, start: nat, calls: seq<string -> bool>, i: nat)
    requires start < |targets| && i < |targets|
    requires |calls| == |targets|
    requires forall j :: 0 <= j < |calls| ==> calls[j](targets[i])
    ensures Some(i) in Turns(targets, start, calls)
  {
    NobodyWaitsPastItsDistance(targets, start, calls, i);
  }

  // ----- Policy "staleness" -----

  function Score(node: string, lastSuccess: map<string, real>, priority: seq<string>, now: real): real {
    (if node in lastSuccess then MaxReal(0.0, now - lastSuccess[node]) else BIG_STALENESS)
    * (if node in priority then PRIORITY_WEIGHT else 1.0)
  }

  /** The first of the candidates with the highest score. */
  ghost predicate Stalest(
    candidates: seq<string>, k: nat, lastSuccess: map<string, real>, priority: seq<string>, now: real)
  {
    && k < |candidates|
    && (forall j :: 0 <= j < |candidates| ==>
          Score(candidates[j], lastSuccess, priority, now) <= Score(candidates[k], lastSuccess, priority, now))
    && (forall j :: 0 <= j < k ==>
          Score(candidates[j], lastSuccess, priority, now) < Score(candidates[k], lastSuccess, priority, now))
  }

  method SelectStaleness(candidates: seq<string>, lastSuccess: map<string, real>, priority: seq<string>, now: real)
    returns (best: Option<string>, ghost at: nat)
    ensures best.None? <==> candidates == []
    ensures best.Some? ==> Stalest(candidates, at, lastSuccess, priority, now) && best.value == candidates[at]
    ensures best.Some? ==> best.value in candidates
  {
    best, at := None, 0;
    var bestScore := -1.0;
    var i := 0;
    while i < |candidates|
      invariant 0 <= i <= |candidates|
      invariant best.None? <==> i == 0
      invariant i == 0 ==> bestScore == -1.0
      invariant best.Some? ==> Stalest(candidates[..i], at, lastSuccess, priority, now)
      invariant best.Some? ==> best.value == candidates[at]
      invariant best.Some? ==> bestScore == Score(best.value, lastSuccess, priority, now)
    {
      var score := Score(candidates[i], lastSuccess, priority, now);
      if score > bestScore {
        best, at, bestScore := Some(candidates[i]), i, score;
      }
      i := i + 1;
    }
    assert candidates[..i] == candidates;
  }

  lemma TracedScoresLower(node: string, lastSuccess: map<string, real>, priority: seq<string>, now: real)
    requires forall n :: n in lastSuccess ==> PRIORITY_WEIGHT * (now - lastSuccess[n]) < BIG_STALENESS
    ensures node in lastSuccess ==> Score(node, lastSuccess, priority, now) < BIG_STALENESS
  {
  }

  /** A node never traced is preferred to every traced one, while no age reaches half the sentinel. */
  lemma NeverTracedComesFirst(
    candidates: seq<string>, k: nat, untraced: nat, lastSuccess: map<string, real>, priority: seq<string>, now: real)
    requires Stalest(candidates, k, lastSuccess, priority, now)
    requires untraced < |candidates| && candidates[untraced] !in lastSuccess
    requires forall node :: node in lastSuccess ==> PRIORITY_WEIGHT * (now - lastSuccess[node]) < BIG_STALENESS
    ensures candidates[k] !in lastSuccess
  {
    assert Score(candidates[untraced], lastSuccess, priority, now) >= BIG_STALENESS;
    TracedScoresLower(candidates[k], lastSuccess, priority, now);
  }

  /** Among the nodes never traced, one that has priority is chosen if there is one. */
  lemma PriorityComesFirstAmongUntraced(
    candidates: seq<string>, k: nat, j: nat, lastSuccess: map<string, real>, priority: seq<string>, now: real)
    requires Stalest(candidates, k, lastSuccess, priority, now) && j < |candidates|
    requires candidates[j] !in lastSuccess && candidates[j] in priority
    requires forall node :: node in lastSuccess ==> PRIORITY_WEIGHT * (now - lastSuccess[node]) < BIG_STALENESS
    ensures candidates[k] !in lastSuccess && candidates[k] in priority
    ensures k <= j
  {
    NeverTracedComesFirst(candidates, k, j, lastSuccess, priority, now);
    assert Score(candidates[j], lastSuccess, priority, now) <= Score(candidates[k], lastSuccess, priority, now);
  }

  /** Priority doubles the age of a traced node, no more and no less; the earlier candidate wins a tie. */
  lemma PriorityDoublesTheAge(
    candidates: seq<string>, k: nat, j: nat, lastSuccess: map<string, real>, priority: seq<string>, now: real)
    requires Stalest(candidates, k, lastSuccess, priority, now) && j < |candidates|
    requires candidates[j] in lastSuccess && candidates[k] in lastSuccess
    requires lastSuccess[candidates[j]] <= now && lastSuccess[candidates[k]] <= now
    ensures candidates[j] in priority && candidates[k] !in priority ==>
              now - lastSuccess[candidates[k]] >= 2.0 * (now - lastSuccess[candidates[j]])
    ensures candidates[k] in priority && candidates[j] !in priority ==>
              2.0 * (now - lastSuccess[candidates[k]]) >= now - lastSuccess[candidates[j]]
    ensures j < k && candidates[j] in priority && candidates[k] !in priority ==>
              now - lastSuccess[candidates[k]] > 2.0 * (now - lastSuccess[candidates[j]])
    ensures j < k && candidates[k] in priority && candidates[j] !in priority ==>
              2.0 * (now - lastSuccess[candidates[k]]) > now - lastSuccess[candidates[j]]
  {
    assert Score(candidates[j], lastSuccess, priority, now) <= Score(candidates[k], lastSuccess, priority, now);
  }

  /** Never to have been traced counts as an age of ten to the twelve seconds, priority doubling either. */
  lemma NeverTracedIsAnAge(
    candidates: seq<string>, k: nat, j: nat, lastSuccess: map<string, real>, priority: seq<string>, now: real)
    requires Stalest(candidates, k, lastSuccess, priority, now) && j < |candidates|
    ensures var weight := (id: string) => if id in priority then 2.0 else 1.0;
            var traced, other := candidates[k], candidates[j];
            && (traced in lastSuccess && other !in lastSuccess ==>
                  weight(traced) * (now - lastSuccess[traced]) >= weight(other) * 1000000000000.0)
            && (traced !in lastSuccess && other in lastSuccess ==>
                  weight(traced) * 1000000000000.0 >= weight(other) * (now - lastSuccess[other]))
  {
    assert Score(candidates[j], lastSuccess, priority, now) <= Score(candidates[k], lastSuccess, priority, now);
  }

  /** Among traced nodes of equal priority, the one chosen has the oldest success. */
  lemma OldestSuccessComesFirst(
    candidates: seq<string>, k: nat, j: nat, lastSuccess: map<string, real>, priority: seq<string>, now: real)
    requires Stalest(candidates, k, lastSuccess, priority, now) && j < |candidates|
    requires candidates[j] in lastSuccess && candidates[k] in lastSuccess
    requires candidates[j] in priority <==> candidates[k] in priority
    requires lastSuccess[candidates[j]] < now
    ensures lastSuccess[candidates[k]] <= lastSuccess[candidates[j]]
    ensures j < k ==> lastSuccess[candidates[k]] < lastSuccess[candidates[j]]
  {
    assert Score(candidates[j], lastSuccess, priority, now) <= Score(candidates[k], lastSuccess, priority, now);
  }

  // ----- Guards -----

  predicate MinGapOver(cfg: Config, jitter: real, rows: seq<Row>, now: real) {
    var last := LastSent(rows);
    last.None? || !(now - last.value < cfg.minGapS * (1.0 + jitter))
  }

  predicate PerNodeOk(cfg: Config, rows: seq<Row>, dest: string, now: real) {
    var last := LastAttempt(rows, dest);
    last.None? || now - last.value >= cfg.perNodeMinS
  }

  predicate BudgetLeft(cfg: Config, rows: seq<Row>, now: real) {
    CountSince(rows, LocalMidnight(now, cfg.utcOffset), SCHEDULER_PREFIX) < cfg.dailyBudget
  }

  predicate Quiet(cfg: Config, now: real) {
    InQuietHours(MinuteOfDay(now, cfg.utcOffset), cfg.quiet)
  }

  /** The guards that do not depend on a target. */
  predicate Open(cfg: Config, jitter: real, rows: seq<Row>, now: real) {
    !Quiet(cfg, now) && MinGapOver(cfg, jitter, rows, now) && BudgetLeft(cfg, rows, now)
  }

  /** Every guard under which a traceroute to `dest` may be decided. */
  predicate Allowed(cfg: Config, jitter: real, rows: seq<Row>, dest: string, now: real) {
    Open(cfg, jitter, rows, now) && PerNodeOk(cfg, rows, dest, now)
  }

  /** Every row, whatever its source, was sent that long ago, the jitter added in proportion. */
  ghost predicate AllOlder(rows: seq<Row>, now: real, gap: real, jitter: real) {
    forall row :: row in rows ==> now - row.sent >= gap * (1.0 + jitter)
  }

  /** The minimum gap, jitter included, is over exactly when every row is that old. */
  lemma MinGapMeans(cfg: Config, jitter: real, rows: seq<Row>, now: real)
    ensures MinGapOver(cfg, jitter, rows, now) <==> AllOlder(rows, now, cfg.minGapS, jitter)
  {
  }

  /** A node may be traced again exactly when every row to it, whatever its status, is an interval old. */
  lemma PerNodeMeans(cfg: Config, rows: seq<Row>, dest: string, now: real)
    ensures PerNodeOk(cfg, rows, dest, now) <==>
            forall row :: row in rows && row.dest == dest ==> now - row.sent >= cfg.perNodeMinS
  {
  }

  /** The scheduler's rows since the local midnight, as the code computes it. */
  function SentToday(cfg: Config, rows: seq<Row>, now: real): set<nat> {
    set k: nat | k < |rows| && SCHEDULER_PREFIX <= rows[k].source
      && rows[k].sent >= DayStart(LocalDay(now, cfg.utcOffset), cfg.utcOffset) + Fraction(now)
  }

  /** There is budget left exactly while those rows are fewer than the budget. */
  lemma BudgetMeans(cfg: Config, rows: seq<Row>, now: real)
    ensures BudgetLeft(cfg, rows, now) <==> |SentToday(cfg, rows, now)| < cfg.dailyBudget
  {
    MidnightIsLateByTheFraction(now, cfg.utcOffset);
    CountIsExact(rows, LocalMidnight(now, cfg.utcOffset), SCHEDULER_PREFIX);
    assert Matching(rows, LocalMidnight(now, cfg.utcOffset), SCHEDULER_PREFIX) == SentToday(cfg, rows, now);
  }

  /** Quiet hours are told from the whole minutes since the true local midnight, going round the clock. */
  lemma QuietMeans(cfg: Config, now: real)
    requires cfg.quiet.Some? ==> MinuteOfClock(cfg.quiet.value.0) && MinuteOfClock(cfg.quiet.value.1)
    ensures var minute := (now - DayStart(LocalDay(now, cfg.utcOffset), cfg.utcOffset)).Floor / 60;
            && MinuteOfClock(minute)
            && (Quiet(cfg, now) <==>
                cfg.quiet.Some? &&
                (minute - cfg.quiet.value.0) % MINUTES < (cfg.quiet.value.1 - cfg.quiet.value.0) % MINUTES)
  {
    var day := LocalDay(now, cfg.utcOffset);
    DayBounds(now, cfg.utcOffset);
    WholeFloor(now, day * DAY - cfg.utcOffset);
    assert (now - DayStart(day, cfg.utcOffset)).Floor == SecondOfDay(now, cfg.utcOffset);
    if cfg.quiet.Some? {
      QuietHoursGoRoundTheClock(MinuteOfDay(now, cfg.utcOffset), cfg.quiet.value.0, cfg.quiet.value.1);
    }
  }

  lemma WholeFloor(x: real, n: int)
    ensures (x - n as real).Floor == x.Floor - n
  {
  }

  /**
   Over any table of canonical ids that holds a recent row of the target's node, the per-node guard
   closes exactly when the target is written canonically.
   */
  lemma PerNodeGuardNeedsCanonicalTargets(cfg: Config, rows: seq<Row>, target: string, now: real)
    requires NodeIds.Normalize(NodeIds.Text(target)).Accepted?
    requires forall row :: row in rows ==> NodeIds.Canonical(row.dest)
    requires exists row :: row in rows && row.dest == NodeIds.Normalize(NodeIds.Text(target)).node.id
                           && now - row.sent < cfg.perNodeMinS
    ensures PerNodeOk(cfg, rows, target, now) <==> !NodeIds.Canonical(target)
  {
    var row :| row in rows && row.dest == NodeIds.Normalize(NodeIds.Text(target)).node.id
               && now - row.sent < cfg.perNodeMinS;
    if NodeIds.Canonical(target) {
      assert row in ToDest(rows, target);
    } else {
      NothingTo(rows, target);
    }
  }

  function NodeGate(cfg: Config, rows: seq<Row>, now: real): string -> bool {
    dest => PerNodeOk(cfg, rows, dest, now)
  }

  // ----- Candidates of the staleness policy -----

  function IdOf(node: HeardNode): string {
    if node.userId != "" then node.userId else NodeIds.HexId(node.num)
  }

  predicate Candidate(cfg: Config, rows: seq<Row>, node: HeardNode, myNum: Option<int>, now: real) {
    && Some(node.num) != myNum
    && node.lastHeard.Some?
    && !(now - node.lastHeard.value > cfg.recentH * 3600.0)
    && PerNodeOk(cfg, rows, IdOf(node), now)
  }

  function Candidates(cfg: Config, rows: seq<Row>, nodes: seq<HeardNode>, myNum: Option<int>, now: real): seq<string> {
    if nodes == [] then []
    else
      var rest := Candidates(cfg, rows, nodes[..|nodes| - 1], myNum, now);
      var last := nodes[|nodes| - 1];
      if Candidate(cfg, rows, last, myNum, now) then rest + [IdOf(last)] else rest
  }

  /** A node that may be traced: not the gateway itself, heard recently, and left alone for long enough. */
  ghost predicate Eligible(cfg: Config, rows: seq<Row>, node: HeardNode, myNum: Option<int>, now: real, id: string) {
    && id == (if node.userId == "" then NodeIds.HexId(node.num) else node.userId)
    && myNum != Some(node.num)
    && (exists heard :: node.lastHeard == Some(heard) && now - heard <= cfg.recentH * 3600.0)
    && (forall row :: row in rows && row.dest == id ==> now - row.sent >= cfg.perNodeMinS)
  }

  lemma CandidateMeans(cfg: Config, rows: seq<Row>, node: HeardNode, myNum: Option<int>, now: real, id: string)
    ensures Candidate(cfg, rows, node, myNum, now) && IdOf(node) == id <==> Eligible(cfg, rows, node, myNum, now, id)
  {
    PerNodeMeans(cfg, rows, id, now);
    if Candidate(cfg, rows, node, myNum, now) {
      assert node.lastHeard == Some(node.lastHeard.value);
    }
  }

  /** The candidates are the ids of the eligible nodes. */
  lemma {:induction false} CandidatesAreEligible(
    cfg: Config, rows: seq<Row>, nodes: seq<HeardNode>, myNum: Option<int>, now: real, dest: string)
    ensures dest in Candidates(cfg, rows, nodes, myNum, now) <==>
            exists i :: 0 <= i < |nodes| && Eligible(cfg, rows, nodes[i], myNum, now, dest)
  {
    if nodes != [] {
      CandidatesAreEligible(cfg, rows, nodes[..|nodes| - 1], myNum, now, dest);
      CandidateMeans(cfg, rows, nodes[|nodes| - 1], myNum, now, dest);
    }
  }

  lemma OneMoreNode(cfg: Config, rows: seq<Row>, nodes: seq<HeardNode>, node: HeardNode, myNum: Option<int>, now: real)
    ensures Candidates(cfg, rows, nodes + [node], myNum, now) ==
            Candidates(cfg, rows, nodes, myNum, now) + Candidates(cfg, rows, [node], myNum, now)
  {
    assert (nodes + [node])[..|nodes|] == nodes;
    assert [node][..0] == [];
  }

  /** They come in the order of the node database, each node by itself. */
  lemma {:induction false} CandidatesKeepTheOrder(
    cfg: Config, rows: seq<Row>, a: seq<HeardNode>, b: seq<HeardNode>, myNum: Option<int>, now: real)
    ensures Candidates(cfg, rows, a + b, myNum, now) ==
            Candidates(cfg, rows, a, myNum, now) + Candidates(cfg, rows, b, myNum, now)
  {
    if b == [] {
      assert a + b == a;
    } else {
      var front, last := b[..|b| - 1], b[|b| - 1];
      assert (a + front) + [last] == a + b && front + [last] == b;
      OneMoreNode(cfg, rows, a + front, last, myNum, now);
      OneMoreNode(cfg, rows, front, last, myNum, now);
      CandidatesKeepTheOrder(cfg, rows, a, front, myNum, now);
    }
  }

  function SuccessMap(rows: seq<Row>, nodes: seq<string>): map<string, real> {
    map d | d in nodes && LastSuccess(rows, d).Some? :: LastSuccess(rows, d).value
  }

  /** A policy has a target to offer: a configured one or a heard one that has been left alone for long enough. */
  ghost predicate HasTarget(cfg: Config, rows: seq<Row>, nodes: seq<HeardNode>, myNum: Option<int>, now: real) {
    if cfg.policy == "static" then
      exists i :: 0 <= i < |cfg.targets| &&
        forall row :: row in rows && row.dest == cfg.targets[i] ==> now - row.sent >= cfg.perNodeMinS
    else
      cfg.policy == "staleness" &&
      exists i, id :: 0 <= i < |nodes| && Eligible(cfg, rows, nodes[i], myNum, now, id)
  }

  lemma StaticHasTarget(
    cfg: Config, index: nat, rows: seq<Row>, nodes: seq<HeardNode>, myNum: Option<int>, now: real)
    requires cfg.policy == "static"
    ensures Scan(cfg.targets, index, 0, NodeGate(cfg, rows, now)).Some? <==> HasTarget(cfg, rows, nodes, myNum, now)
  {
    ScanFindsAny(cfg.targets, index, NodeGate(cfg, rows, now));
    forall i | 0 <= i < |cfg.targets|
      ensures NodeGate(cfg, rows, now)(cfg.targets[i]) <==>
              forall row :: row in rows && row.dest == cfg.targets[i] ==> now - row.sent >= cfg.perNodeMinS
    {
      PerNodeMeans(cfg, rows, cfg.targets[i], now);
    }
  }

  lemma StalenessHasTarget(cfg: Config, rows: seq<Row>, nodes: seq<HeardNode>, myNum: Option<int>, now: real)
    requires cfg.policy == "staleness"
    ensures Candidates(cfg, rows, nodes, myNum, now) != [] <==> HasTarget(cfg, rows, nodes, myNum, now)
  {
    var candidates := Candidates(cfg, rows, nodes, myNum, now);
    if candidates != [] {
      assert candidates[0] in candidates;
      CandidatesAreEligible(cfg, rows, nodes, myNum, now, candidates[0]);
    }
    if i, id :| 0 <= i < |nodes| && Eligible(cfg, rows, nodes[i], myNum, now, id) {
      CandidatesAreEligible(cfg, rows, nodes, myNum, now, id);
    }
  }

  /** The target the policy offers: the next in rotation, or the first of the stalest candidates. */
  ghost predicate Offered(
    cfg: Config, index: nat, rows: seq<Row>, nodes: seq<HeardNode>, myNum: Option<int>, now: real, dest: string)
  {
    if cfg.policy == "static" then
      var r := Scan(cfg.targets, index, 0, NodeGate(cfg, rows, now));
      r.Some? && dest == cfg.targets[r.value]
    else
      var candidates := Candidates(cfg, rows, nodes, myNum, now);
      exists k: nat :: Stalest(candidates, k, SuccessMap(rows, candidates), cfg.priority, now) && candidates[k] == dest
  }

  /** The row of an answered traceroute to a node. */
  predicate Success(rows: seq<Row>, row: Row, id: string) {
    row in rows && row.dest == id && row.status == Ok
  }

  /**
   What staleness means on the table: a node that no row has answered for is preferred to any other, and
   of two answered ones of equal priority, the one whose latest answered traceroute is older.
   */
  lemma StalestOnRecord(
    cfg: Config, index: nat, rows: seq<Row>, nodes: seq<HeardNode>, myNum: Option<int>, now: real,
    dest: string, other: string)
    requires cfg.policy == "staleness" && Offered(cfg, index, rows, nodes, myNum, now, dest)
    requires other in Candidates(cfg, rows, nodes, myNum, now)
    requires forall row :: row in rows ==> 0.0 <= PRIORITY_WEIGHT * (now - row.sent) < BIG_STALENESS
    ensures (forall row :: !Success(rows, row, other)) ==> forall row :: !Success(rows, row, dest)
    ensures (dest in cfg.priority <==> other in cfg.priority) && (exists row :: Success(rows, row, other)) ==>
              forall row :: Success(rows, row, dest) ==>
                exists latest :: Success(rows, latest, other) && row.sent <= latest.sent
  {
    var candidates := Candidates(cfg, rows, nodes, myNum, now);
    var times := SuccessMap(rows, candidates);
    var k: nat :| Stalest(candidates, k, times, cfg.priority, now) && candidates[k] == dest;
    var j: nat :| j < |candidates| && candidates[j] == other;
    AgesFit(rows, candidates, now);
    SuccessesOnRecord(rows, candidates, dest);
    SuccessesOnRecord(rows, candidates, other);
    StalestInTime(candidates, k, j, times, cfg.priority, now);
  }

  lemma SuccessesOnRecord(rows: seq<Row>, nodes: seq<string>, id: string)
    requires id in nodes
    ensures id in SuccessMap(rows, nodes) <==> exists row :: Success(rows, row, id)
    ensures id in SuccessMap(rows, nodes) ==>
              exists row :: Success(rows, row, id) && row.sent == SuccessMap(rows, nodes)[id]
    ensures forall row :: Success(rows, row, id) ==> row.sent <= SuccessMap(rows, nodes)[id]
  {
    if LastSuccess(rows, id).Some? {
      var row :| row in rows && row.dest == id && row.status == Ok && row.sent == LastSuccess(rows, id).value;
      assert Success(rows, row, id);
    }
  }

  lemma StalestInTime(
    candidates: seq<string>, k: nat, j: nat, times: map<string, real>, priority: seq<string>, now: real)
    requires Stalest(candidates, k, times, priority, now) && j < |candidates|
    requires forall node :: node in times ==> 0.0 <= PRIORITY_WEIGHT * (now - times[node]) < BIG_STALENESS
    ensures candidates[k] in times ==> candidates[j] in times
    ensures candidates[k] in times && (candidates[k] in priority <==> candidates[j] in priority) ==>
              times[candidates[k]] <= times[candidates[j]]
  {
    if candidates[j] !in times {
      NeverTracedComesFirst(candidates, k, j, times, priority, now);
    } else {
      assert Score(candidates[j], times, priority, now) <= Score(candidates[k], times, priority, now);
    }
  }

  lemma AgesFit(rows: seq<Row>, nodes: seq<string>, now: real)
    requires forall row :: row in rows ==> 0.0 <= PRIORITY_WEIGHT * (now - row.sent) < BIG_STALENESS
    ensures forall node :: node in SuccessMap(rows, nodes) ==>
              0.0 <= PRIORITY_WEIGHT * (now - SuccessMap(rows, nodes)[node]) < BIG_STALENESS
  {
  }

  // ----- The object the worker polls -----

  class Scheduler {
    const cfg: Config
    var staticIndex: nat
    var jitter: real
    var lastTick: real

    constructor (cfg: Config, jitter: real)
      ensures this.cfg == cfg && this.jitter == jitter
      ensures staticIndex == 0 && lastTick == 0.0
    {
      this.cfg := cfg;
      this.jitter := jitter;
      staticIndex := 0;
      lastTick := 0.0;
    }

    method Due(now: real) returns (due: bool)
      modifies this`lastTick
      ensures due <==> now - old(lastTick) >= cfg.tickS
      ensures lastTick == if due then now else old(lastTick)
    {
      if now - lastTick < cfg.tickS {
        return false;
      }
      lastTick := now;
      return true;
    }

    method EligibleRecent(rows: seq<Row>, nodes: seq<HeardNode>, myNum: Option<int>, now: real)
      returns (out: seq<string>)
      ensures out == Candidates(cfg, rows, nodes, myNum, now)
    {
      var window := cfg.recentH * 3600.0;
      out := [];
      var i := 0;
      while i < |nodes|
        invariant 0 <= i <= |nodes|
        invariant out == Candidates(cfg, rows, nodes[..i], myNum, now)
      {
        var node := nodes[i];
        assert nodes[..i + 1][..i] == nodes[..i];
        if Some(node.num) != myNum && node.lastHeard.Some? && !(now - node.lastHeard.value > window) {
          var id := IdOf(node);
          if PerNodeOk(cfg, rows, id, now) {
            out := out + [id];
          }
        }
        i := i + 1;
      }
      assert nodes[..i] == nodes;
    }

    method Select(rows: seq<Row>, nodes: seq<HeardNode>, myNum: Option<int>, now: real) returns (dest: Option<string>)
      modifies this`staticIndex
      ensures dest.Some? <==> HasTarget(cfg, rows, nodes, myNum, now)
      ensures dest.Some? ==> Offered(cfg, old(staticIndex), rows, nodes, myNum, now, dest.value)
      ensures dest.Some? ==> PerNodeOk(cfg, rows, dest.value, now)
      ensures staticIndex == if cfg.policy == "static"
                             then NextIndex(cfg.targets, old(staticIndex), NodeGate(cfg, rows, now))
                             else old(staticIndex)
    {
      if cfg.policy == "static" {
        StaticHasTarget(cfg, staticIndex, rows, nodes, myNum, now);
        dest, staticIndex := SelectStatic(cfg.targets, staticIndex, NodeGate(cfg, rows, now));
      } else if cfg.policy == "staleness" {
        var candidates := EligibleRecent(rows, nodes, myNum, now);
        StalenessHasTarget(cfg, rows, nodes, myNum, now);
        if candidates == [] {
          return None;
        }
        ghost var at;
        dest, at := SelectStaleness(candidates, SuccessMap(rows, candidates), cfg.priority, now);
        CandidatesAreEligible(cfg, rows, nodes, myNum, now, dest.value);
        PerNodeMeans(cfg, rows, dest.value, now);
      } else {
        return None;
      }
    }

    /**
     A command comes out exactly when every guard is open, the channel is not loaded and the policy
     has a target; whatever comes out satisfies the per-node guard, and a fresh jitter is drawn.
     */
    method Decide(rows: seq<Row>, nodes: seq<HeardNode>, myNum: Option<int>, chanutil: Option<real>,
                  freshJitter: real, now: real)
      returns (command: Option<Command>)
      modifies this`staticIndex, this`jitter
      ensures command.Some? <==>
                && !Quiet(cfg, now)
                && AllOlder(rows, now, cfg.minGapS, old(jitter))
                && |SentToday(cfg, rows, now)| < cfg.dailyBudget
                && (chanutil.Some? ==> chanutil.value <= cfg.maxChanutil)
                && HasTarget(cfg, rows, nodes, myNum, now)
      ensures command.Some? ==> Allowed(cfg, old(jitter), rows, command.value.dest, now)
      ensures command.Some? ==> Offered(cfg, old(staticIndex), rows, nodes, myNum, now, command.value.dest)
      ensures command.Some? ==>
                command.value == Command(command.value.dest, cfg.hopLimit, 0, 30.0, "scheduler:" + cfg.policy)
      ensures jitter == if command.Some? then freshJitter else old(jitter)
      ensures staticIndex == old(staticIndex) ||
              staticIndex == NextIndex(cfg.targets, old(staticIndex), NodeGate(cfg, rows, now))
    {
      MinGapMeans(cfg, jitter, rows, now);
      BudgetMeans(cfg, rows, now);
      if Quiet(cfg, now) {
        return None;
      }
      if !MinGapOver(cfg, jitter, rows, now) {
        return None;
      }
      if !BudgetLeft(cfg, rows, now) {
        return None;
      }
      if chanutil.Some? && chanutil.value > cfg.maxChanutil {
        return None;
      }
      var dest := Select(rows, nodes, myNum, now);
      if dest.None? {
        return None;
      }
      jitter := freshJitter;
      return Some(Command(dest.value, cfg.hopLimit, 0, TIMEOUT_S, SCHEDULER_PREFIX + cfg.policy));
    }

    /** Two decisions of one scheduler are never closer than the tick. */
    method Poll(rows: seq<Row>, nodes: seq<HeardNode>, myNum: Option<int>, chanutil: Option<real>,
                freshJitter: real, now: real)
      returns (command: Option<Command>)
      modifies this
      ensures now - old(lastTick) < cfg.tickS ==>
                command.None? && lastTick == old(lastTick) && jitter == old(jitter) && staticIndex == old(staticIndex)
      ensures now - old(lastTick) >= cfg.tickS ==>
                lastTick == now && jitter == if command.Some? then freshJitter else old(jitter)
      ensures command.Some? <==>
                && now - old(lastTick) >= cfg.tickS
                && !Quiet(cfg, now)
                && AllOlder(rows, now, cfg.minGapS, old(jitter))
                && |SentToday(cfg, rows, now)| < cfg.dailyBudget
                && (chanutil.Some? ==> chanutil.value <= cfg.maxChanutil)
                && HasTarget(cfg, rows, nodes, myNum, now)
      ensures command.Some? ==>
                && Allowed(cfg, old(jitter), rows, command.value.dest, now)
                && Offered(cfg, old(staticIndex), rows, nodes, myNum, now, command.value.dest)
                && command.value == Command(command.value.dest, cfg.hopLimit, 0, 30.0, "scheduler:" + cfg.policy)
    {
      var due := Due(now);
      if !due {
        return None;
      }
      command := Decide(rows, nodes, myNum, chanutil, freshJitter, now);
    }
  }
}
