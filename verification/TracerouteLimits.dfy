/**
 Why the exemptions of TracerouteBudget cannot be dropped: runs of the code in which lost requests are
 followed at once by other sends to the same node, one more send per death and no fewer; in which an
 API request in flight goes unseen; and in which one send in the first fraction of a day, however
 small, lets a budget of any size be exceeded.
 */
module TracerouteLimits {
  import opened Arithmetic
  import opened Options
  import opened LocalTime
  import opened TracerouteStore
  import opened TracerouteScheduler
  import opened TracerouteRuns
  import opened TracerouteBudget
  import NodeIds

  // ----- Pieces of runs -----

  predicate Accepted(target: string) {
    NodeIds.Normalize(NodeIds.Text(target)).Accepted?
  }

  /** A live session with nothing in flight. */
  predicate Standing(s: State) {
    s.alive && s.poller.Idle? && s.claims == [] && s.armed == map[] && s.jitter == 0.0
  }

  lemma StartRuns(p: Params, at: real) returns (steps: seq<Step>)
    requires at >= 0.0
    ensures Run(p, Init(0.0), steps, true)
    ensures Final(p, Init(0.0), steps, true) == Init(at).(alive := true)
  {
    steps := RunTwo(p, Init(0.0), Respawn(0.0), Advance(at));
  }

  /** The request that a decision for a target stamps at the same instant. */
  function StampedAt(p: Params, target: string, at: real): Request
    requires Accepted(target)
  {
    var node := NodeIds.Normalize(NodeIds.Text(target)).node;
    Request(target, node.id, node.num, SCHEDULER_PREFIX + p.cfg.policy, TIMEOUT_S, at, at)
  }

  lemma StampedIsScheduled(p: Params, target: string, at: real)
    requires Accepted(target)
    ensures Scheduled(StampedAt(p, target, at))
  {
  }

  lemma SendRuns(p: Params, s: State, target: string) returns (steps: seq<Step>)
    requires s.alive && s.poller.Idle? && s.now - s.lastTick >= p.cfg.tickS && Fraction(s.now) <= p.fraction
    requires Allowed(p.cfg, s.jitter, RowsOf(s.table), target, s.now) && Accepted(target)
    ensures Run(p, s, steps, true)
    ensures var q := StampedAt(p, target, s.now);
            && Scheduled(q)
            && Final(p, s, steps, true) ==
                 s.(lastTick := s.now, jitter := 0.0, reqs := s.reqs + [q], poller := Sending(Entry(|s.reqs|, q)))
  {
    steps := RunTwo(p, s, TickSend(target, 0.0), Stamp);
  }

  lemma NothingOnRecord(cfg: Config, target: string, now: real)
    requires !Quiet(cfg, now) && cfg.dailyBudget >= 1
    ensures Allowed(cfg, 0.0, [], target, now)
  {
    assert ToDest([], target) == [];
  }

  // ----- Lost requests -----

  function UpTo(k: nat): (r: set<nat>)
    ensures |r| == k && forall i: nat :: i in r <==> i < k
  {
    if k == 0 then {} else UpTo(k - 1) + {k - 1}
  }

  /** Requests that were all sent to one target at one instant, and all lost. */
  ghost predicate AllLost(p: Params, s: State, target: string, at: real, m: nat)
    requires Accepted(target)
  {
    && Standing(s) && s.now == at && s.lastTick == 0.0 && s.emitted == [] && s.table == []
    && |s.reqs| == m && (forall i :: 0 <= i < m ==> s.reqs[i] == StampedAt(p, target, at))
    && s.dropped == UpTo(m) && s.cuts == m
  }

  /** An instant at which a decision may be taken as far as the clock alone is concerned. */
  predicate Decidable(p: Params, at: real) {
    && at >= MaxReal(0.0, p.cfg.tickS) && !Quiet(p.cfg, at) && Fraction(at) <= p.fraction && p.cfg.dailyBudget >= 1
  }

  /** Death and a new session, with nothing on record: every request is lost. */
  lemma DieRuns(p: Params, s: State) returns (steps: seq<Step>)
    requires s.alive && s.emitted == []
    ensures Run(p, s, steps, true)
    ensures Final(p, s, steps, true) ==
              s.(poller := Idle, pending := map[], claims := [], armed := map[], dropped := UpTo(|s.reqs|),
                 cuts := s.cuts + 1, lastTick := 0.0, jitter := 0.0, sessionFrom := |s.reqs|)
  {
    assert Apply(p, s, Die).dropped == UpTo(|s.reqs|);
    steps := RunTwo(p, s, Die, Respawn(0.0));
  }

  lemma LoseOne(p: Params, s: State, target: string, at: real, m: nat) returns (steps: seq<Step>)
    requires Accepted(target) && AllLost(p, s, target, at, m) && Decidable(p, at)
    ensures Run(p, s, steps, true) && AllLost(p, Final(p, s, steps, true), target, at, m + 1)
  {
    assert RowsOf([]) == [];
    NothingOnRecord(p.cfg, target, at);
    var send := SendRuns(p, s, target);
    var die := DieRuns(p, Final(p, s, send, true));
    RunAppend(p, s, send, die);
    steps := send + die;
  }

  lemma {:induction false} LoseMany(p: Params, target: string, at: real, m: nat) returns (steps: seq<Step>)
    requires Accepted(target) && Decidable(p, at)
    ensures Run(p, Init(0.0), steps, true) && AllLost(p, Final(p, Init(0.0), steps, true), target, at, m)
  {
    if m == 0 {
      steps := StartRuns(p, at);
    } else {
      var before := LoseMany(p, target, at, m - 1);
      var one := LoseOne(p, Final(p, Init(0.0), before, true), target, at, m - 1);
      RunAppend(p, Init(0.0), before, one);
      steps := before + one;
    }
  }

  lemma SendAgain(p: Params, s: State, target: string, at: real) returns (steps: seq<Step>)
    requires Accepted(target) && AllLost(p, s, target, at, 1) && Decidable(p, at)
    ensures Run(p, s, steps, true)
    ensures var t, q := Final(p, s, steps, true), StampedAt(p, target, at);
            t.reqs == [q, q] && Scheduled(q) && t.dropped == {0} && t.cuts == 1
  {
    assert RowsOf([]) == [];
    NothingOnRecord(p.cfg, target, at);
    steps := SendRuns(p, s, target);
    assert s.reqs == [StampedAt(p, target, at)];
    assert UpTo(1) == {0};
  }

  /**
   Whatever the gaps are set to, and however the target is written, a worker that dies with a request in
   flight is followed by a second send to the same node at the same instant: the table never heard of the first.
   */
  lemma LostRequestsEscapeTheGuards(p: Params, target: string, at: real) returns (steps: seq<Step>)
    requires Accepted(target) && Decidable(p, at)
    ensures Run(p, Init(0.0), steps, true)
    ensures var s := Final(p, Init(0.0), steps, true);
            && |s.reqs| == 2 && Scheduled(s.reqs[0]) && Scheduled(s.reqs[1])
            && s.reqs[0].dest == s.reqs[1].dest == NodeIds.Normalize(NodeIds.Text(target)).node.id
            && s.reqs[0].sent == s.reqs[1].sent == at
            && s.dropped == {0} && s.cuts == 1
  {
    var first := LoseMany(p, target, at, 1);
    var s := Final(p, Init(0.0), first, true);
    var second := SendAgain(p, s, target, at);
    RunAppend(p, Init(0.0), first, second);
    steps := first + second;
  }

  /** Nor do the guards see an API request that is still waiting: the scheduler may send at the very same instant. */
  lemma ApiInFlightIsNotSeen(p: Params, target: string, timeout: real, id: int, at: real) returns (steps: seq<Step>)
    requires Accepted(target) && Decidable(p, at)
    ensures Run(p, Init(0.0), steps, true)
    ensures var s := Final(p, Init(0.0), steps, true);
            && |s.reqs| == 2 && !Scheduled(s.reqs[0]) && Scheduled(s.reqs[1])
            && s.reqs[0].dest == s.reqs[1].dest && s.reqs[0].sent == s.reqs[1].sent == at
            && s.alive && s.dropped == {} && s.cuts == 0
  {
    var start := StartRuns(p, at);
    var s := Init(at).(alive := true);
    var ask := RunTwo(p, s, ApiStart(target, timeout), SendOk(id));
    var u := Final(p, s, ask, true);
    var arm := RunTwo(p, u, Register, Arm);
    var v := Final(p, u, arm, true);
    assert RowsOf([]) == [];
    NothingOnRecord(p.cfg, target, at);
    var send := SendRuns(p, v, target);
    RunAppend(p, u, arm, send);
    RunAppend(p, s, ask, arm + send);
    RunAppend(p, Init(0.0), start, ask + (arm + send));
    steps := start + (ask + (arm + send));
  }

  // ----- Sends of one day, all on record -----

  /** So many seconds and a fraction into a local day. */
  function At(p: Params, day: int, second: int, f: real): real {
    (day * DAY - p.cfg.utcOffset + second) as real + f
  }

  lemma WholePlusFraction(n: int, f: real)
    requires 0.0 <= f < 1.0
    ensures (n as real + f).Floor == n && Fraction(n as real + f) == f
  {
  }

  lemma AtMeans(p: Params, day: int, second: int, f: real)
    requires 0 <= second < DAY && 0.0 <= f < 1.0
    ensures LocalDay(At(p, day, second, f), p.cfg.utcOffset) == day
    ensures Fraction(At(p, day, second, f)) == f
    ensures MinuteOfDay(At(p, day, second, f), p.cfg.utcOffset) == second / 60
    ensures LocalMidnight(At(p, day, second, f), p.cfg.utcOffset) == DayStart(day, p.cfg.utcOffset) + f
    ensures At(p, day, second, f) == DayStart(day, p.cfg.utcOffset) + second as real + f
  {
    var at := At(p, day, second, f);
    assert DayStart(day + 1, p.cfg.utcOffset) == DayStart(day, p.cfg.utcOffset) + DAY as real;
    DayIsAnInterval(at, day, p.cfg.utcOffset);
    WholePlusFraction(day * DAY - p.cfg.utcOffset + second, f);
    Remainder(at.Floor + p.cfg.utcOffset, day, second, DAY);
    MidnightIsLateByTheFraction(at, p.cfg.utcOffset);
  }

  /** A second of the day whose minute is not among the quiet hours. */
  predicate Awake(p: Params, second: int) {
    0 <= second < DAY && !InQuietHours(second / 60, p.cfg.quiet)
  }

  lemma AtIsAwake(p: Params, day: int, second: nat, f: real)
    requires Awake(p, second) && 0.0 <= f < 1.0
    ensures !Quiet(p.cfg, At(p, day, second, f))
  {
    AtMeans(p, day, second, f);
  }

  /** Room in a day for the whole budget: so many seconds outside the quiet hours, a tick and a minimum gap apart. */
  ghost predicate Room(p: Params, n: nat, times: seq<nat>) {
    && n > 0 && n as real >= p.cfg.tickS && n as real >= p.cfg.minGapS
    && |times| == p.cfg.dailyBudget > 0
    && (forall j :: 0 <= j < |times| ==> Awake(p, times[j]))
    && (forall i, j :: 0 <= i < j < |times| ==> times[i] + n <= times[j])
  }

  lemma {:induction false} RanksAreSeconds(n: nat, times: seq<nat>, k: nat)
    requires n > 0 && k < |times| && forall i, j :: 0 <= i < j < |times| ==> times[i] + n <= times[j]
    ensures k <= times[k]
  {
    if k > 0 {
      RanksAreSeconds(n, times, k - 1);
    }
  }

  // The sends go to one node after another.

  function Node(j: nat): string {
    NodeIds.HexId(j + 1)
  }

  lemma NodeIsAccepted(j: nat)
    requires j + 1 < NodeIds.MAX_NODE_NUM
    ensures Accepted(Node(j)) && NodeIds.Normalize(NodeIds.Text(Node(j))).node.id == Node(j)
  {
    NodeIds.NormalizePrinted(j + 1);
  }

  lemma NodesDiffer(i: nat, j: nat)
    requires i < j < NodeIds.MAX_NODE_NUM
    ensures Node(i) != Node(j)
  {
    var a, b := i + 1, j + 1;
    assert a % (NodeIds.MAX_NODE_NUM + 1) == a && b % (NodeIds.MAX_NODE_NUM + 1) == b;
    NodeIds.HexIdSeparatesNumbers(a, b);
  }

  ghost predicate OnePerNode(table: seq<Claim>) {
    forall i: nat :: i < |table| ==> table[i].entry.request.dest == Node(i)
  }

  lemma CountsOnlyTheNew(rows: seq<Row>, since: real, earlier: nat)
    requires earlier <= |rows| && forall i :: 0 <= i < earlier ==> rows[i].sent < since
    ensures CountSince(rows, since, SCHEDULER_PREFIX) <= |rows| - earlier
  {
    CountIsExact(rows, since, SCHEDULER_PREFIX);
    var hits := Matching(rows, since, SCHEDULER_PREFIX);
    assert hits <= UpTo(|rows|) - UpTo(earlier);
    SubsetSize(hits, UpTo(|rows|) - UpTo(earlier));
    assert UpTo(earlier) <= UpTo(|rows|);
    assert |UpTo(|rows|) - UpTo(earlier)| == |UpTo(|rows|)| - |UpTo(earlier)|;
  }

  lemma NoRowsTo(rows: seq<Row>, dest: string)
    requires forall i :: 0 <= i < |rows| ==> rows[i].dest != dest
    ensures ToDest(rows, dest) == []
  {
    assert forall row :: row in ToDest(rows, dest) ==> row in rows;
  }

  lemma NewNodeIsUnknown(table: seq<Claim>)
    requires OnePerNode(table) && |table| < NodeIds.MAX_NODE_NUM
    ensures ToDest(RowsOf(table), Node(|table|)) == []
  {
    forall i: nat | i < |table| ensures RowsOf(table)[i].dest != Node(|table|) {
      NodesDiffer(i, |table|);
    }
    NoRowsTo(RowsOf(table), Node(|table|));
  }

  lemma OldRowsAllow(p: Params, table: seq<Claim>, at: real, n: nat)
    requires n as real >= p.cfg.minGapS && !Quiet(p.cfg, at)
    requires OnePerNode(table) && |table| < NodeIds.MAX_NODE_NUM
    requires forall row :: row in RowsOf(table) ==> row.sent <= at - n as real
    requires CountSince(RowsOf(table), LocalMidnight(at, p.cfg.utcOffset), SCHEDULER_PREFIX) < p.cfg.dailyBudget
    ensures Allowed(p.cfg, 0.0, RowsOf(table), Node(|table|), at)
  {
    NewNodeIsUnknown(table);
    assert p.cfg.minGapS * (1.0 + 0.0) == p.cfg.minGapS;
  }

  lemma AdvanceRuns(p: Params, s: State, to: real)
    requires Standing(s) && to >= s.now
    ensures Run(p, s, [Advance(to)], true) && Final(p, s, [Advance(to)], true) == s.(now := to)
  {
    RunOne(p, s, Advance(to));
  }

  lemma FailureRuns(p: Params, s: State) returns (steps: seq<Step>, c: Claim)
    requires s.poller.Sending? && s.claims == []
    ensures Run(p, s, steps, true) && c.entry == s.poller.entry
    ensures Final(p, s, steps, true) == s.(poller := Idle, emitted := s.emitted + [c], table := s.table + [c])
  {
    c := Claim(s.poller.entry, SendFailed, None, s.now);
    steps := RunTwo(p, s, SendFails, Emit(0));
  }

  /** What one send that fails, and is recorded at once, adds to a state. */
  function Recorded(s: State, q: Request, c: Claim, at: real): State {
    s.(now := at, lastTick := at, reqs := s.reqs + [q], emitted := s.emitted + [c], table := s.table + [c])
  }

  lemma RecordOne(p: Params, s: State, target: string, at: real) returns (steps: seq<Step>, c: Claim)
    requires Standing(s) && Accepted(target)
    requires at >= s.now && at - s.lastTick >= p.cfg.tickS && Fraction(at) <= p.fraction
    requires Allowed(p.cfg, 0.0, RowsOf(s.table), target, at)
    ensures Run(p, s, steps, true)
    ensures var q := StampedAt(p, target, at);
            Scheduled(q) && c.entry.request == q && Final(p, s, steps, true) == Recorded(s, q, c, at)
  {
    AdvanceRuns(p, s, at);
    var u := s.(now := at);
    var send := SendRuns(p, u, target);
    var v := Final(p, u, send, true);
    var fail;
    fail, c := FailureRuns(p, v);
    RunAppend(p, u, send, fail);
    RunAppend(p, s, [Advance(at)], send + fail);
    steps := [Advance(at)] + (send + fail);
  }

  /** What a chain of `k` recorded sends adds to a state. */
  ghost predicate Chain(p: Params, s: State, t: State, day: int, times: seq<nat>, f: real, k: nat) {
    && k <= |times| && Standing(t) && t.dropped == s.dropped && t.cuts == s.cuts
    && |t.reqs| == |s.reqs| + k && s.reqs <= t.reqs
    && |t.table| == |s.table| + k && s.table <= t.table && OnePerNode(t.table)
    && (forall j :: 0 <= j < k ==> Link(p, s, t, day, times, f, j))
    && (if k == 0 then t == s else t.now == t.lastTick == At(p, day, times[k - 1], f))
  }

  predicate Link(p: Params, s: State, t: State, day: int, times: seq<nat>, f: real, j: nat) {
    var i, row := |s.reqs| + j, |s.table| + j;
    && j < |times| && i < |t.reqs| && row < |t.table|
    && Scheduled(t.reqs[i]) && t.reqs[i].sent == At(p, day, times[j], f)
    && t.table[row].entry.request == t.reqs[i]
  }

  /** Every row before the k-th send of a chain is at least one step older. */
  lemma ChainIsOld(p: Params, s: State, t: State, day: int, n: nat, times: seq<nat>, f: real, k: nat, i: nat)
    requires Room(p, n, times) && Chain(p, s, t, day, times, f, k) && i < |t.table| && k < |times|
    requires forall c :: c in s.table ==> Past(p, c, day, n, times[0], f)
    ensures t.table[i].entry.request.sent <= At(p, day, times[k], f) - n as real
    ensures i < |s.table| ==> t.table[i].entry.request.sent < DayStart(day, p.cfg.utcOffset) + f
  {
    if i < |s.table| {
      assert s.table[i] in s.table && t.table[i] == s.table[i];
    } else {
      var j := i - |s.table|;
      assert Link(p, s, t, day, times, f, j);
    }
  }

  /** The rows of a chain leave room for one more send. */
  lemma ChainAllows(p: Params, s: State, t: State, day: int, n: nat, times: seq<nat>, f: real, k: nat)
    requires Room(p, n, times) && 0.0 <= f < 1.0 && k < |times|
    requires Chain(p, s, t, day, times, f, k) && |t.table| < NodeIds.MAX_NODE_NUM
    requires forall c :: c in s.table ==> Past(p, c, day, n, times[0], f)
    ensures Allowed(p.cfg, 0.0, RowsOf(t.table), Node(|t.table|), At(p, day, times[k], f))
  {
    var rows, at := RowsOf(t.table), At(p, day, times[k], f);
    assert LocalMidnight(at, p.cfg.utcOffset) == DayStart(day, p.cfg.utcOffset) + f by {
      AtMeans(p, day, times[k], f);
    }
    forall i: nat | i < |rows|
      ensures rows[i].sent <= at - n as real
      ensures i < |s.table| ==> rows[i].sent < LocalMidnight(at, p.cfg.utcOffset)
    {
      ChainIsOld(p, s, t, day, n, times, f, k, i);
    }
    CountsOnlyTheNew(rows, LocalMidnight(at, p.cfg.utcOffset), |s.table|);
    AtIsAwake(p, day, times[k], f);
    OldRowsAllow(p, t.table, at, n);
  }

  lemma ChainGrows(p: Params, s: State, t: State, c: Claim, day: int, times: seq<nat>, f: real, k: nat)
    requires k < |times| && Chain(p, s, t, day, times, f, k) && Scheduled(c.entry.request)
    requires c.entry.request.sent == At(p, day, times[k], f) && c.entry.request.dest == Node(|t.table|)
    ensures Chain(p, s, Recorded(t, c.entry.request, c, At(p, day, times[k], f)), day, times, f, k + 1)
  {
    var u := Recorded(t, c.entry.request, c, At(p, day, times[k], f));
    forall j | 0 <= j < k + 1 ensures Link(p, s, u, day, times, f, j) {
      if j < k {
        assert Link(p, s, t, day, times, f, j);
      }
    }
  }

  /** Where a chain can begin: the clock has got there, and the row there may be neither closes a guard nor counts. */
  ghost predicate Begins(p: Params, s: State, day: int, n: nat, first: nat, f: real) {
    && Standing(s) && s.now <= At(p, day, first, f) && s.lastTick + p.cfg.tickS <= At(p, day, first, f)
    && |s.table| <= 1 && OnePerNode(s.table)
    && forall c :: c in s.table ==> Past(p, c, day, n, first, f)
  }

  predicate Past(p: Params, c: Claim, day: int, n: nat, first: nat, f: real) {
    && c.entry.request.sent <= At(p, day, first - n, f)
    && c.entry.request.sent < DayStart(day, p.cfg.utcOffset) + f
  }

  lemma NextIsLater(p: Params, s: State, t: State, day: int, n: nat, times: seq<nat>, f: real, k: nat)
    requires Room(p, n, times) && k < |times|
    requires Begins(p, s, day, n, times[0], f) && Chain(p, s, t, day, times, f, k)
    ensures var at := At(p, day, times[k], f); at >= t.now && at - t.lastTick >= p.cfg.tickS
  {
  }

  lemma RecordNext(p: Params, s: State, t: State, day: int, n: nat, times: seq<nat>, f: real, k: nat)
    returns (steps: seq<Step>)
    requires Room(p, n, times) && k < |times| && 0.0 <= f < 1.0 && f <= p.fraction
    requires Begins(p, s, day, n, times[0], f) && Chain(p, s, t, day, times, f, k)
    ensures Run(p, t, steps, true)
    ensures Chain(p, s, Final(p, t, steps, true), day, times, f, k + 1)
  {
    RanksAreSeconds(n, times, k);
    NodeIsAccepted(|t.table|);
    ChainAllows(p, s, t, day, n, times, f, k);
    NextIsLater(p, s, t, day, n, times, f, k);
    AtMeans(p, day, times[k], f);
    var c;
    steps, c := RecordOne(p, t, Node(|t.table|), At(p, day, times[k], f));
    ChainGrows(p, s, t, c, day, times, f, k);
  }

  lemma ChainStarts(p: Params, s: State, day: int, n: nat, times: seq<nat>, f: real)
    requires |times| > 0 && Begins(p, s, day, n, times[0], f)
    ensures Chain(p, s, s, day, times, f, 0)
  {
  }

  lemma {:induction false} RecordMany(p: Params, s: State, day: int, n: nat, times: seq<nat>, f: real, k: nat)
    returns (steps: seq<Step>)
    requires Room(p, n, times) && k <= |times| && 0.0 <= f < 1.0 && f <= p.fraction
    requires Begins(p, s, day, n, times[0], f)
    ensures Run(p, s, steps, true)
    ensures Chain(p, s, Final(p, s, steps, true), day, times, f, k)
  {
    if k == 0 {
      ChainStarts(p, s, day, n, times, f);
      steps := [];
    } else {
      var before := RecordMany(p, s, day, n, times, f, k - 1);
      var one := RecordNext(p, s, Final(p, s, before, true), day, n, times, f, k - 1);
      RunAppend(p, s, before, one);
      steps := before + one;
    }
  }

  // ----- The slack of the budget is exact -----

  /** All requests of a state are scheduler sends of one day, inside its window. */
  ghost predicate AllOn(p: Params, s: State, day: int) {
    forall i :: 0 <= i < |s.reqs| ==> Scheduled(s.reqs[i]) && InWindow(p, s.reqs[i].sent, day)
  }

  lemma AllOnCounts(p: Params, s: State, day: int, m: nat)
    requires AllOn(p, s, day) && s.dropped == UpTo(m) && m <= |s.reqs|
    ensures |SentOn(p, s.reqs, day)| == |s.reqs| && |LostOn(p, s.reqs, s.dropped, day)| == m
  {
    assert SentOn(p, s.reqs, day) == UpTo(|s.reqs|);
    assert LostOn(p, s.reqs, s.dropped, day) == UpTo(m);
  }

  /**
   The bound of DailyBudgetHolds is attained: for every budget that fits in a day and every number of deaths
   there is a run with that many sends of one day beyond the budget, each lost with its session.
   */
  lemma EveryDeathCostsOne(p: Params, day: int, n: nat, times: seq<nat>, deaths: nat) returns (steps: seq<Step>)
    requires Room(p, n, times) && 0.0 <= p.fraction < 1.0
    requires DayStart(day, p.cfg.utcOffset) >= MaxReal(0.0, p.cfg.tickS)
    ensures Run(p, Init(0.0), steps, true)
    ensures var s := Final(p, Init(0.0), steps, true);
            && |SentOn(p, s.reqs, day)| == MaxBudget(p) + |LostOn(p, s.reqs, s.dropped, day)|
            && |LostOn(p, s.reqs, s.dropped, day)| == s.cuts == deaths
  {
    NodeIsAccepted(0);
    steps := LoseThenRecord(p, Node(0), day, n, times, deaths);
  }

  lemma LoseThenRecord(p: Params, target: string, day: int, n: nat, times: seq<nat>, deaths: nat)
    returns (steps: seq<Step>)
    requires Accepted(target) && Room(p, n, times) && 0.0 <= p.fraction < 1.0
    requires DayStart(day, p.cfg.utcOffset) >= MaxReal(0.0, p.cfg.tickS)
    ensures Run(p, Init(0.0), steps, true)
    ensures var s := Final(p, Init(0.0), steps, true);
            && |SentOn(p, s.reqs, day)| == MaxBudget(p) + deaths
            && |LostOn(p, s.reqs, s.dropped, day)| == s.cuts == deaths
  {
    AtMeans(p, day, times[0], p.fraction);
    AtIsAwake(p, day, times[0], p.fraction);
    var lose := LoseMany(p, target, At(p, day, times[0], p.fraction), deaths);
    var s := Final(p, Init(0.0), lose, true);
    var record := RecordMany(p, s, day, n, times, p.fraction, |times|);
    RunAppend(p, Init(0.0), lose, record);
    steps := lose + record;
    DeathsCount(p, s, Final(p, s, record, true), target, day, n, times, deaths);
  }

  lemma LostAreOnTheDay(p: Params, s: State, target: string, day: int, second: nat, deaths: nat, i: nat)
    requires Accepted(target) && 0.0 <= p.fraction < 1.0 && second < DAY
    requires AllLost(p, s, target, At(p, day, second, p.fraction), deaths) && i < deaths
    ensures Scheduled(s.reqs[i]) && InWindow(p, s.reqs[i].sent, day)
  {
    assert s.reqs[i] == StampedAt(p, target, At(p, day, second, p.fraction));
    StampedIsScheduled(p, target, At(p, day, second, p.fraction));
    InTheDay(p, day, second, p.fraction);
  }

  lemma ChainIsOnTheDay(p: Params, s: State, t: State, day: int, times: seq<nat>, j: nat)
    requires 0.0 <= p.fraction < 1.0 && j < |times| && times[j] < DAY
    requires Chain(p, s, t, day, times, p.fraction, |times|)
    ensures Scheduled(t.reqs[|s.reqs| + j]) && InWindow(p, t.reqs[|s.reqs| + j].sent, day)
  {
    assert Link(p, s, t, day, times, p.fraction, j);
    InTheDay(p, day, times[j], p.fraction);
  }

  lemma DeathsCount(
    p: Params, s: State, t: State, target: string, day: int, n: nat, times: seq<nat>, deaths: nat)
    requires Accepted(target) && Room(p, n, times) && 0.0 <= p.fraction < 1.0
    requires AllLost(p, s, target, At(p, day, times[0], p.fraction), deaths)
    requires Chain(p, s, t, day, times, p.fraction, |times|)
    ensures |SentOn(p, t.reqs, day)| == MaxBudget(p) + deaths && |LostOn(p, t.reqs, t.dropped, day)| == deaths == t.cuts
  {
    forall i | 0 <= i < |t.reqs| ensures Scheduled(t.reqs[i]) && InWindow(p, t.reqs[i].sent, day) {
      if i < deaths {
        LostAreOnTheDay(p, s, target, day, times[0], deaths, i);
        assert t.reqs[i] == s.reqs[i];
      } else {
        ChainIsOnTheDay(p, s, t, day, times, i - deaths);
      }
    }
    AllOnCounts(p, t, day, deaths);
  }

  lemma InTheDay(p: Params, day: int, second: nat, f: real)
    requires second < DAY && f == p.fraction && 0.0 <= f < 1.0
    ensures InWindow(p, At(p, day, second, f), day)
  {
    AtMeans(p, day, second, f);
    assert DayStart(day + 1, p.cfg.utcOffset) == DayStart(day, p.cfg.utcOffset) + DAY as real;
  }

  // ----- The fraction of a second -----

  /** A fraction of a second that decisions may carry. */
  function Grain(p: Params): real {
    MinReal(p.fraction, 0.5)
  }

  /** An instant in the first fraction of a day, before the midnight that any later decision computes. */
  function Early(p: Params, day: int): real {
    At(p, day, 0, Grain(p) / 2.0)
  }

  function SentOnDay(p: Params, reqs: seq<Request>, day: int): set<nat> {
    set i: nat | i < |reqs| && Scheduled(reqs[i]) && LocalDay(reqs[i].sent, p.cfg.utcOffset) == day
  }

  /** A session that has recorded one send, in the first fraction of a day. */
  lemma EarlyRecord(p: Params, day: int) returns (steps: seq<Step>)
    requires p.fraction > 0.0 && Awake(p, 0) && p.cfg.dailyBudget >= 1
    requires DayStart(day, p.cfg.utcOffset) >= MaxReal(0.0, p.cfg.tickS)
    ensures Run(p, Init(0.0), steps, true)
    ensures var u := Final(p, Init(0.0), steps, true);
            && Standing(u) && u.now == u.lastTick == Early(p, day) && u.dropped == {} && u.cuts == 0
            && |u.reqs| == 1 && Scheduled(u.reqs[0]) && u.reqs[0].sent == Early(p, day)
            && u.reqs[0].dest == Node(0) && |u.table| == 1 && u.table[0].entry.request == u.reqs[0]
  {
    NodeIsAccepted(0);
    var start := StartRuns(p, Early(p, day));
    var s := Init(Early(p, day)).(alive := true);
    AtMeans(p, day, 0, Grain(p) / 2.0);
    AtIsAwake(p, day, 0, Grain(p) / 2.0);
    assert RowsOf([]) == [];
    NothingOnRecord(p.cfg, Node(0), Early(p, day));
    var record, c := RecordOne(p, s, Node(0), Early(p, day));
    RunAppend(p, Init(0.0), start, record);
    steps := start + record;
  }

  lemma EarlyCounts(p: Params, u: State, t: State, day: int, n: nat, times: seq<nat>)
    requires p.fraction > 0.0 && Room(p, n, times)
    requires |u.reqs| == 1 && Scheduled(u.reqs[0]) && u.reqs[0].sent == Early(p, day)
    requires Chain(p, u, t, day, times, Grain(p), |times|)
    ensures |SentOnDay(p, t.reqs, day)| == |times| + 1
  {
    forall i: nat ensures i in SentOnDay(p, t.reqs, day) <==> i in UpTo(|times| + 1) {
      if i == 0 {
        assert t.reqs[0] == u.reqs[0];
        AtMeans(p, day, 0, Grain(p) / 2.0);
      } else if i < |times| + 1 {
        assert Link(p, u, t, day, times, Grain(p), i - 1);
        AtMeans(p, day, times[i - 1], Grain(p));
      }
    }
    assert SentOnDay(p, t.reqs, day) == UpTo(|times| + 1);
  }

  /** One send in the first fraction of a day does not count against the whole budget of sends that follow it. */
  lemma FractionsEscapeTheBudget(p: Params, day: int, n: nat, times: seq<nat>) returns (steps: seq<Step>)
    requires p.fraction > 0.0 && Room(p, n, times) && Awake(p, 0) && n <= times[0]
    requires DayStart(day, p.cfg.utcOffset) >= MaxReal(0.0, p.cfg.tickS)
    ensures Run(p, Init(0.0), steps, true)
    ensures var s := Final(p, Init(0.0), steps, true);
            && |SentOnDay(p, s.reqs, day)| == p.cfg.dailyBudget + 1 && s.dropped == {} && s.cuts == 0
  {
    var early := EarlyRecord(p, day);
    var u := Final(p, Init(0.0), early, true);
    assert Past(p, u.table[0], day, n, times[0], Grain(p));
    assert u.table == [u.table[0]];
    var late := RecordMany(p, u, day, n, times, Grain(p), |times|);
    RunAppend(p, Init(0.0), early, late);
    steps := early + late;
    EarlyCounts(p, u, Final(p, u, late, true), day, n, times);
  }

  /** Without quiet hours there is such room whenever as many gaps as the budget fit in a day. */
  lemma EvenRoom(p: Params, n: nat) returns (times: seq<nat>)
    requires p.cfg.quiet == None && p.cfg.dailyBudget > 0 && p.cfg.dailyBudget * n < DAY
    requires n > 0 && n as real >= p.cfg.tickS && n as real >= p.cfg.minGapS
    ensures Room(p, n, times) && Awake(p, 0) && n <= times[0]
  {
    times := Spread(n, p.cfg.dailyBudget);
  }

  lemma {:induction false} Spread(n: nat, k: nat) returns (times: seq<nat>)
    ensures |times| == k
    ensures forall j :: 0 <= j < k ==> n <= times[j] <= k * n
    ensures forall i, j :: 0 <= i < j < k ==> times[i] + n <= times[j]
  {
    if k == 0 {
      times := [];
    } else {
      var before := Spread(n, k - 1);
      assert k * n == (k - 1) * n + n;
      times := before + [k * n];
    }
  }
}
