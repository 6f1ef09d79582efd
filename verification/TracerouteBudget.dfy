/**
 What the scheduler's guards promise over whole runs. The guards read rows that appear only when a
 request ends; what makes them sound is that a scheduler request has always ended by the next tick,
 unless its session died with it. Sends that were lost that way are the exact slack of the budget.
 */
module TracerouteBudget {
  import opened Arithmetic
  import opened LocalTime
  import opened TracerouteStore
  import opened TracerouteScheduler
  import opened TracerouteRuns
  import opened TracerouteResults
  import opened TracerouteTiming
  import NodeIds

  // ----- Counting sends -----

  /** The part of a local day that the computed midnight covers, whenever a decision may be taken. */
  predicate InWindow(p: Params, sent: real, day: int) {
    DayStart(day, p.cfg.utcOffset) + p.fraction <= sent < DayStart(day + 1, p.cfg.utcOffset)
  }

  function SentOn(p: Params, reqs: seq<Request>, day: int): set<nat> {
    set i: nat | i < |reqs| && Scheduled(reqs[i]) && InWindow(p, reqs[i].sent, day)
  }

  /** The scheduler requests that went without a row. */
  function Lost(reqs: seq<Request>, dropped: set<nat>): set<nat> {
    set i | i in dropped && i < |reqs| && Scheduled(reqs[i])
  }

  function LostOn(p: Params, reqs: seq<Request>, dropped: set<nat>, day: int): set<nat> {
    SentOn(p, reqs, day) * dropped
  }

  /** Scheduler requests among the rows, sent at `since` or later. */
  function Counted(table: seq<Claim>, since: real): set<nat> {
    set k: nat | k < |table| && table[k].entry.request.sent >= since && Scheduled(table[k].entry.request)
      :: table[k].entry.req
  }

  lemma CountedGrowsByOne(table: seq<Claim>, last: Claim, since: real)
    ensures Counted(table + [last], since) <= Counted(table, since) + {last.entry.req}
    ensures !(last.entry.request.sent >= since && Scheduled(last.entry.request)) ==>
              Counted(table + [last], since) <= Counted(table, since)
  {
    forall i | i in Counted(table + [last], since) ensures i in Counted(table, since) || i == last.entry.req {
      var k: nat :| k < |table + [last]| && (table + [last])[k].entry.req == i
        && (table + [last])[k].entry.request.sent >= since && Scheduled((table + [last])[k].entry.request);
      if k < |table| {
        assert table[k].entry.req in Counted(table, since);
      }
    }
    if !(last.entry.request.sent >= since && Scheduled(last.entry.request)) {
      forall i | i in Counted(table + [last], since) ensures i in Counted(table, since) {
        var k: nat :| k < |table + [last]| && (table + [last])[k].entry.req == i
          && (table + [last])[k].entry.request.sent >= since && Scheduled((table + [last])[k].entry.request);
        assert k < |table|;
        assert table[k].entry.req in Counted(table, since);
      }
    }
  }

  lemma {:induction false} CountCoversRequests(table: seq<Claim>, since: real)
    ensures |Counted(table, since)| <= CountSince(RowsOf(table), since, SCHEDULER_PREFIX)
  {
    if table != [] {
      var front := table[..|table| - 1];
      var last := table[|table| - 1];
      CountCoversRequests(front, since);
      assert RowsOf(table)[..|table| - 1] == RowsOf(front);
      assert table == front + [last];
      CountedGrowsByOne(front, last, since);
      if last.entry.request.sent >= since && Scheduled(last.entry.request) {
        SubsetSize(Counted(table, since), Counted(front, since) + {last.entry.req});
        UnionSize(Counted(front, since), {last.entry.req});
      } else {
        SubsetSize(Counted(table, since), Counted(front, since));
      }
    }
  }

  // ----- The invariant -----

  ghost predicate Stamped(reqs: seq<Request>, now: real) {
    forall i :: 0 <= i < |reqs| ==>
      reqs[i].decidedAt <= reqs[i].sent <= now && (Scheduled(reqs[i]) ==> reqs[i].timeout == TIMEOUT_S)
  }

  /** Scheduler requests that the table may still be waiting for. */
  predicate Outstanding(s: State, i: nat) {
    Unresolved(s, i) && Scheduled(s.reqs[i])
  }

  ghost predicate Clocked(s: State) {
    && (forall i: nat :: Outstanding(s, i) ==> s.reqs[i].decidedAt <= s.lastTick)
    && (forall i: nat, j: nat :: Outstanding(s, i) && Outstanding(s, j) ==> i == j)
  }

  /** What the guards cannot miss at a decision: a request of the scheduler, or one that must have ended by then. */
  predicate Visible(p: Params, earlier: Request, decidedAt: real) {
    Scheduled(earlier) || decidedAt > EndsBy(p, earlier)
  }

  /** The per-node interval binds a target that is written as the id its rows bear. */
  predicate Apart(p: Params, earlier: Request, target: string, at: real) {
    && (p.keep >= p.cfg.minGapS ==> at - earlier.sent >= p.cfg.minGapS)
    && (p.keep >= p.cfg.perNodeMinS && earlier.dest == target ==> at - earlier.sent >= p.cfg.perNodeMinS)
  }

  ghost predicate ApartFromAll(p: Params, reqs: seq<Request>, dropped: set<nat>, target: string, at: real) {
    forall i: nat :: i < |reqs| && Visible(p, reqs[i], at) && i !in dropped ==> Apart(p, reqs[i], target, at)
  }

  /** What a decision established, while the clock has not been read for its send. */
  ghost predicate Decided(p: Params, s: State) {
    s.poller.Chosen? ==>
      && s.poller.decidedAt <= s.now
      && s.poller.decidedAt <= s.lastTick
      && (forall i: nat :: !Outstanding(s, i))
      && (forall i :: 0 <= i < |s.reqs| ==> s.reqs[i].sent <= s.poller.decidedAt)
      && ApartFromAll(p, s.reqs, s.dropped, s.poller.dest, s.poller.decidedAt)
      && RoomFor(p, s.reqs, s.dropped, s.poller.decidedAt)
  }

  ghost predicate RoomFor(p: Params, reqs: seq<Request>, dropped: set<nat>, at: real) {
    var day := LocalDay(at, p.cfg.utcOffset);
    && p.cfg.dailyBudget >= 1
    && (p.keep >= DAY as real ==> |SentOn(p, reqs, day)| < p.cfg.dailyBudget + |LostOn(p, reqs, dropped, day)|)
  }

  function MaxBudget(p: Params): nat {
    if p.cfg.dailyBudget >= 0 then p.cfg.dailyBudget else 0
  }

  ghost predicate Budgeted(p: Params, reqs: seq<Request>, dropped: set<nat>, day: int) {
    p.keep >= DAY as real ==>
      |SentOn(p, reqs, day)| <= MaxBudget(p) + |LostOn(p, reqs, dropped, day)|
  }

  ghost predicate Spaced(p: Params, reqs: seq<Request>, dropped: set<nat>) {
    forall i: nat, j: nat ::
      i < j < |reqs| && Visible(p, reqs[i], reqs[j].decidedAt) && Scheduled(reqs[j]) && i !in dropped ==>
        Apart(p, reqs[i], reqs[j].target, reqs[j].sent)
  }

  ghost predicate Guarded(p: Params, s: State) {
    && Stamped(s.reqs, s.now)
    && Clocked(s)
    && Kept(p, s.now, s.emitted, s.table)
    && Decided(p, s)
    && (forall day :: Budgeted(p, s.reqs, s.dropped, day))
    && Spaced(p, s.reqs, s.dropped)
    && |Lost(s.reqs, s.dropped)| <= s.cuts
    && 0.0 <= s.jitter < 1.0
  }

  /** The one relation between the settings that everything rests on: a tick is longer than a request can last. */
  predicate TicksOutlastRequests(p: Params) {
    DelaysOk(p) && p.sendWithin + TIMEOUT_S + p.timerLag + p.emitLag < p.cfg.tickS && p.fraction >= 0.0
  }

  // ----- A tick that decides to send -----

  lemma NothingOutstandingAtATick(p: Params, s: State, i: nat)
    requires TicksOutlastRequests(p) && Inv(s) && Punctual(p, s) && Stamped(s.reqs, s.now) && Clocked(s)
    requires s.now - s.lastTick >= p.cfg.tickS
    ensures !Outstanding(s, i)
  {
    if Unresolved(s, i) {
      UnresolvedIsRecent(p, s, i);
    }
  }

  /** At a tick, a scheduler request that was not lost is in the table or older than any prune spares. */
  lemma EarlierRequestIsOnRecord(p: Params, s: State, i: nat) returns (k: nat)
    requires TicksOutlastRequests(p) && Inv(s) && Punctual(p, s) && Stamped(s.reqs, s.now) && Clocked(s)
    requires Kept(p, s.now, s.emitted, s.table)
    requires s.now - s.lastTick >= p.cfg.tickS
    requires i < |s.reqs| && Visible(p, s.reqs[i], s.now) && i !in s.dropped
    ensures s.reqs[i].sent < s.now - p.keep ||
            (k < |s.table| && s.table[k].entry == Entry(i, s.reqs[i]))
  {
    k := 0;
    NothingOutstandingAtATick(p, s, i);
    if Unresolved(s, i) {
      UnresolvedIsRecent(p, s, i);
    }
    TimesMember(s.emitted, i);
    var e: nat :| e < |s.emitted| && s.emitted[e].entry.req == i;
    assert Evidence(s.reqs, s.ids, s.emitted[e]);
    if s.emitted[e] in s.table {
      k :| 0 <= k < |s.table| && s.table[k] == s.emitted[e];
    }
  }

  lemma JitterOnlyWidens(gap: real, jitter: real)
    requires 0.0 <= jitter
    ensures gap >= 0.0 ==> gap * (1.0 + jitter) >= gap
  {
    if gap >= 0.0 {
      assert gap * jitter >= 0.0;
      assert gap * (1.0 + jitter) == gap + gap * jitter;
    }
  }

  lemma MinGapMeans(cfg: Config, jitter: real, rows: seq<Row>, row: Row, now: real)
    requires MinGapOver(cfg, jitter, rows, now) && 0.0 <= jitter
    requires row in rows && row.sent <= now
    ensures now - row.sent >= cfg.minGapS
  {
    JitterOnlyWidens(cfg.minGapS, jitter);
    assert row.sent <= LastSent(rows).value;
  }

  lemma PerNodeMeans(cfg: Config, rows: seq<Row>, row: Row, now: real)
    requires PerNodeOk(cfg, rows, row.dest, now)
    requires row in rows
    ensures now - row.sent >= cfg.perNodeMinS
  {
    assert row in ToDest(rows, row.dest);
  }

  lemma GapOnRecord(p: Params, s: State, k: nat, dest: string)
    requires k < |s.table| && 0.0 <= s.jitter < 1.0
    requires Allowed(p.cfg, s.jitter, RowsOf(s.table), dest, s.now)
    requires s.table[k].entry.request.sent <= s.now
    ensures s.now - s.table[k].entry.request.sent >= p.cfg.minGapS
    ensures s.table[k].entry.request.dest == dest ==> s.now - s.table[k].entry.request.sent >= p.cfg.perNodeMinS
  {
    var rows := RowsOf(s.table);
    assert rows[k] == RowOf(s.table[k]);
    MinGapMeans(p.cfg, s.jitter, rows, rows[k], s.now);
    if s.table[k].entry.request.dest == dest {
      PerNodeMeans(p.cfg, rows, rows[k], s.now);
    }
  }

  lemma TickIsApart(p: Params, s: State, dest: string)
    requires TicksOutlastRequests(p) && Inv(s) && Punctual(p, s) && Guarded(p, s)
    requires s.now - s.lastTick >= p.cfg.tickS
    requires Allowed(p.cfg, s.jitter, RowsOf(s.table), dest, s.now)
    ensures ApartFromAll(p, s.reqs, s.dropped, dest, s.now)
  {
    forall i: nat | i < |s.reqs| && Visible(p, s.reqs[i], s.now) && i !in s.dropped
      ensures Apart(p, s.reqs[i], dest, s.now)
    {
      var k := EarlierRequestIsOnRecord(p, s, i);
      assert s.reqs[i].sent <= s.now;
      if s.reqs[i].sent >= s.now - p.keep {
        GapOnRecord(p, s, k, dest);
      }
    }
  }

  lemma DayIsShorterThanKeep(p: Params, now: real, sent: real)
    requires p.keep >= DAY as real && p.fraction >= 0.0
    requires InWindow(p, sent, LocalDay(now, p.cfg.utcOffset))
    requires Fraction(now) <= p.fraction
    ensures sent >= now - p.keep
    ensures sent >= LocalMidnight(now, p.cfg.utcOffset)
  {
    MidnightIsLateByTheFraction(now, p.cfg.utcOffset);
    DayBounds(now, p.cfg.utcOffset);
    var day := LocalDay(now, p.cfg.utcOffset);
    assert DayStart(day + 1, p.cfg.utcOffset) == DayStart(day, p.cfg.utcOffset) + DAY as real;
  }

  lemma TodayIsCounted(p: Params, s: State)
    requires TicksOutlastRequests(p) && Inv(s) && Punctual(p, s) && Guarded(p, s)
    requires s.now - s.lastTick >= p.cfg.tickS
    requires p.keep >= DAY as real && Fraction(s.now) <= p.fraction
    ensures var day := LocalDay(s.now, p.cfg.utcOffset);
            SentOn(p, s.reqs, day) <=
              Counted(s.table, LocalMidnight(s.now, p.cfg.utcOffset)) + LostOn(p, s.reqs, s.dropped, day)
  {
    var day := LocalDay(s.now, p.cfg.utcOffset);
    var since := LocalMidnight(s.now, p.cfg.utcOffset);
    forall i | i in SentOn(p, s.reqs, day) ensures i in Counted(s.table, since) + LostOn(p, s.reqs, s.dropped, day) {
      if i !in s.dropped {
        var k := EarlierRequestIsOnRecord(p, s, i);
        DayIsShorterThanKeep(p, s.now, s.reqs[i].sent);
        assert s.table[k].entry.req in Counted(s.table, since);
      }
    }
  }

  lemma TickHasRoom(p: Params, s: State, dest: string)
    requires TicksOutlastRequests(p) && Inv(s) && Punctual(p, s) && Guarded(p, s)
    requires s.now - s.lastTick >= p.cfg.tickS
    requires Allowed(p.cfg, s.jitter, RowsOf(s.table), dest, s.now)
    requires Fraction(s.now) <= p.fraction
    ensures RoomFor(p, s.reqs, s.dropped, s.now)
  {
    var day := LocalDay(s.now, p.cfg.utcOffset);
    var since := LocalMidnight(s.now, p.cfg.utcOffset);
    if p.keep >= DAY as real {
      TodayIsCounted(p, s);
      CountCoversRequests(s.table, since);
      var lost := LostOn(p, s.reqs, s.dropped, day);
      SubsetSize(SentOn(p, s.reqs, day), Counted(s.table, since) + lost);
      UnionSize(Counted(s.table, since), lost);
    }
  }

  lemma TickSendGuarded(p: Params, s: State, dest: string, jitter: real)
    requires TicksOutlastRequests(p) && Inv(s) && Punctual(p, s) && Guarded(p, s)
    requires Admitted(p, s, TickSend(dest, jitter), true)
    ensures Guarded(p, Apply(p, s, TickSend(dest, jitter)))
  {
    var t := Apply(p, s, TickSend(dest, jitter));
    TickIsApart(p, s, dest);
    TickHasRoom(p, s, dest);
    forall i: nat ensures !Outstanding(t, i) {
      NothingOutstandingAtATick(p, s, i);
      assert Outstanding(t, i) ==> Outstanding(s, i);
    }
  }

  // ----- The send itself -----

  lemma AppendSent(p: Params, reqs: seq<Request>, q: Request, day: int)
    ensures SentOn(p, reqs + [q], day) ==
            SentOn(p, reqs, day) + if Scheduled(q) && InWindow(p, q.sent, day) then {|reqs|} else {}
  {
    var after := SentOn(p, reqs + [q], day);
    var added: set<nat> := if Scheduled(q) && InWindow(p, q.sent, day) then {|reqs|} else {};
    forall i: nat ensures i in after <==> i in SentOn(p, reqs, day) + added {
      if i < |reqs| {
        assert (reqs + [q])[i] == reqs[i];
      }
    }
  }

  /** One more request is at most one more send of a day, and no fewer lost ones. */
  lemma AppendSizes(p: Params, reqs: seq<Request>, dropped: set<nat>, q: Request, day: int)
    ensures |SentOn(p, reqs + [q], day)| <=
            |SentOn(p, reqs, day)| + if Scheduled(q) && InWindow(p, q.sent, day) then 1 else 0
    ensures |LostOn(p, reqs, dropped, day)| <= |LostOn(p, reqs + [q], dropped, day)|
  {
    AppendSent(p, reqs, q, day);
    UnionSize(SentOn(p, reqs, day), {|reqs|});
    SubsetSize(LostOn(p, reqs, dropped, day), LostOn(p, reqs + [q], dropped, day));
  }

  /** Before the day of a send, nothing was sent in it: the window of another day is still empty. */
  lemma LaterDayIsEmpty(p: Params, reqs: seq<Request>, at: real, day: int)
    requires p.fraction >= 0.0
    requires forall i :: 0 <= i < |reqs| ==> reqs[i].sent <= at
    requires LocalDay(at, p.cfg.utcOffset) < day
    ensures SentOn(p, reqs, day) == {}
  {
    DayBounds(at, p.cfg.utcOffset);
    DaysAreOrdered(LocalDay(at, p.cfg.utcOffset), day, p.cfg.utcOffset);
  }

  lemma SendDayIsNotEarlier(p: Params, at: real, sent: real, day: int)
    requires p.fraction >= 0.0 && at <= sent && InWindow(p, sent, day)
    ensures LocalDay(at, p.cfg.utcOffset) <= day
  {
    DayBounds(at, p.cfg.utcOffset);
    if day < LocalDay(at, p.cfg.utcOffset) {
      DaysAreOrdered(day, LocalDay(at, p.cfg.utcOffset), p.cfg.utcOffset);
    }
  }

  lemma StampBudgeted(p: Params, reqs: seq<Request>, dropped: set<nat>, q: Request, day: int)
    requires p.fraction >= 0.0
    requires Budgeted(p, reqs, dropped, day)
    requires RoomFor(p, reqs, dropped, q.decidedAt) && q.decidedAt <= q.sent
    requires forall i :: 0 <= i < |reqs| ==> reqs[i].sent <= q.decidedAt
    ensures Budgeted(p, reqs + [q], dropped, day)
  {
    AppendSizes(p, reqs, dropped, q, day);
    if Scheduled(q) && InWindow(p, q.sent, day) {
      SendDayIsNotEarlier(p, q.decidedAt, q.sent, day);
      if LocalDay(q.decidedAt, p.cfg.utcOffset) < day {
        LaterDayIsEmpty(p, reqs, q.decidedAt, day);
      }
    }
  }

  lemma StampSpaced(p: Params, reqs: seq<Request>, dropped: set<nat>, q: Request)
    requires Spaced(p, reqs, dropped)
    requires ApartFromAll(p, reqs, dropped, q.target, q.decidedAt) && q.decidedAt <= q.sent
    ensures Spaced(p, reqs + [q], dropped)
  {
    var after := reqs + [q];
    forall i: nat, j: nat |
      i < j < |after| && Visible(p, after[i], after[j].decidedAt) && Scheduled(after[j]) && i !in dropped
      ensures Apart(p, after[i], after[j].target, after[j].sent)
    {
      if j == |reqs| {
        assert Apart(p, reqs[i], q.target, q.decidedAt);
      } else {
        assert Apart(p, reqs[i], reqs[j].target, reqs[j].sent);
      }
    }
  }

  lemma StampClocked(s: State, t: State, q: Request)
    requires Inv(s) && Clocked(s)
    requires forall i: nat :: !Outstanding(s, i)
    requires q.decidedAt <= s.lastTick
    requires t == s.(reqs := s.reqs + [q], poller := t.poller)
    ensures Clocked(t)
  {
    forall i: nat | Outstanding(t, i) ensures i == |s.reqs| {
      if i < |s.reqs| {
        assert Outstanding(s, i);
      }
    }
  }

  lemma AppendKeepsHistory(s: State, q: Request)
    requires Inv(s) && Stamped(s.reqs, s.now)
    requires q.decidedAt <= q.sent <= s.now && (Scheduled(q) ==> q.timeout == TIMEOUT_S)
    ensures Stamped(s.reqs + [q], s.now)
    ensures Lost(s.reqs + [q], s.dropped) == Lost(s.reqs, s.dropped)
  {
    assert |s.reqs| !in s.dropped by {
      assert Places(s, |s.reqs|) == 0;
    }
  }

  lemma StampGuarded(p: Params, s: State)
    requires TicksOutlastRequests(p) && Inv(s) && Guarded(p, s) && Enabled(p, s, Stamp)
    ensures Guarded(p, Apply(p, s, Stamp))
  {
    var t := Apply(p, s, Stamp);
    var q := t.reqs[|s.reqs|];
    assert q.target == s.poller.dest;
    AppendKeepsHistory(s, q);
    StampClocked(s, t, q);
    StampSpaced(p, s.reqs, s.dropped, q);
    forall day ensures Budgeted(p, t.reqs, t.dropped, day) {
      assert Budgeted(p, s.reqs, s.dropped, day);
      StampBudgeted(p, s.reqs, s.dropped, q, day);
    }
  }

  lemma ApiBudgeted(p: Params, reqs: seq<Request>, dropped: set<nat>, q: Request, day: int)
    requires Budgeted(p, reqs, dropped, day) && !Scheduled(q)
    ensures Budgeted(p, reqs + [q], dropped, day)
  {
    AppendSent(p, reqs, q, day);
  }

  lemma ApiSpaced(p: Params, reqs: seq<Request>, dropped: set<nat>, q: Request)
    requires Spaced(p, reqs, dropped) && !Scheduled(q)
    ensures Spaced(p, reqs + [q], dropped)
  {
    var after := reqs + [q];
    forall i: nat, j: nat |
      i < j < |after| && Visible(p, after[i], after[j].decidedAt) && Scheduled(after[j]) && i !in dropped
      ensures Apart(p, after[i], after[j].target, after[j].sent)
    {
      assert j < |reqs|;
      assert Apart(p, reqs[i], reqs[j].target, reqs[j].sent);
    }
  }

  lemma ApiStartGuarded(p: Params, s: State, dest: string, timeout: real)
    requires Inv(s) && Guarded(p, s) && Enabled(p, s, ApiStart(dest, timeout))
    ensures Guarded(p, Apply(p, s, ApiStart(dest, timeout)))
  {
    var t := Apply(p, s, ApiStart(dest, timeout));
    var q := t.reqs[|s.reqs|];
    AppendKeepsHistory(s, q);
    ApiSpaced(p, s.reqs, s.dropped, q);
    forall day ensures Budgeted(p, t.reqs, t.dropped, day) {
      assert Budgeted(p, s.reqs, s.dropped, day);
      ApiBudgeted(p, s.reqs, s.dropped, q, day);
    }
    forall i: nat | Outstanding(t, i) ensures Outstanding(s, i) {}
  }

  // ----- Requests that are lost -----

  lemma DroppingBudgeted(p: Params, reqs: seq<Request>, before: set<nat>, after: set<nat>, day: int)
    requires Budgeted(p, reqs, before, day) && before <= after
    ensures Budgeted(p, reqs, after, day)
  {
    SubsetSize(LostOn(p, reqs, before, day), LostOn(p, reqs, after, day));
  }

  lemma DroppingLosesAtMostOne(p: Params, s: State, after: set<nat>)
    requires Clocked(s)
    requires forall i: nat :: i in after && i !in s.dropped ==> Unresolved(s, i)
    ensures |Lost(s.reqs, after)| <= |Lost(s.reqs, s.dropped)| + 1
  {
    var more := Lost(s.reqs, after) - Lost(s.reqs, s.dropped);
    forall i | i in more ensures Outstanding(s, i) {}
    if more != {} {
      var one :| one in more;
      assert more == {one};
    }
    SubsetSize(Lost(s.reqs, after), Lost(s.reqs, s.dropped) + more);
    UnionSize(Lost(s.reqs, s.dropped), more);
  }

  lemma DroppingGuarded(p: Params, s: State, t: State)
    requires Inv(s) && Guarded(p, s)
    requires t.reqs == s.reqs && t.now == s.now && t.emitted == s.emitted && t.table == s.table
    requires t.lastTick == s.lastTick && t.jitter == s.jitter && t.cuts == s.cuts + 1
    requires t.poller == s.poller || t.poller.Idle?
    requires s.dropped <= t.dropped
    requires forall i: nat :: i in t.dropped && i !in s.dropped ==> Unresolved(s, i)
    ensures Guarded(p, t)
  {
    forall day ensures Budgeted(p, t.reqs, t.dropped, day) {
      assert Budgeted(p, s.reqs, s.dropped, day);
      DroppingBudgeted(p, s.reqs, s.dropped, t.dropped, day);
    }
    DroppingLosesAtMostOne(p, s, t.dropped);
    forall i: nat | Outstanding(t, i) ensures Outstanding(s, i) {}
    if t.poller.Chosen? {
      DroppingKeepsRoom(p, s.reqs, s.dropped, t.dropped, s.poller.decidedAt);
    }
  }

  lemma DroppingKeepsRoom(p: Params, reqs: seq<Request>, before: set<nat>, after: set<nat>, at: real)
    requires RoomFor(p, reqs, before, at) && before <= after
    ensures RoomFor(p, reqs, after, at)
  {
    var day := LocalDay(at, p.cfg.utcOffset);
    SubsetSize(LostOn(p, reqs, before, day), LostOn(p, reqs, after, day));
  }

  lemma DieGuarded(p: Params, s: State)
    requires Inv(s) && Guarded(p, s) && Enabled(p, s, Die)
    ensures Guarded(p, Apply(p, s, Die))
  {
    var t := Apply(p, s, Die);
    forall i: nat ensures i in s.dropped ==> i in t.dropped {
      assert Places(s, i) == One(i < |s.reqs|);
    }
    DroppingGuarded(p, s, t);
  }

  lemma CancelAllGuarded(p: Params, s: State)
    requires Inv(s) && Guarded(p, s) && Enabled(p, s, CancelAll)
    ensures Guarded(p, Apply(p, s, CancelAll))
  {
    var t := Apply(p, s, CancelAll);
    forall i: nat | i in t.dropped && i !in s.dropped ensures Unresolved(s, i) {
      assert Places(s, i) == One(i < |s.reqs|);
    }
    DroppingGuarded(p, s, t);
  }

  // ----- The other steps -----

  lemma EmitGuarded(p: Params, s: State, k: nat)
    requires Inv(s) && Guarded(p, s) && Enabled(p, s, Emit(k))
    ensures Guarded(p, Apply(p, s, Emit(k)))
  {
    var t := Apply(p, s, Emit(k));
    forall i: nat | Outstanding(t, i) ensures Outstanding(s, i) {
      TimesAppend(s.emitted, s.claims[k], i);
    }
  }

  lemma PruneGuarded(p: Params, s: State, olderThan: real)
    requires Inv(s) && Guarded(p, s) && olderThan >= p.keep
    ensures Guarded(p, Apply(p, s, Prune(olderThan)))
  {
    var t := Apply(p, s, Prune(olderThan));
    forall i: nat | Outstanding(t, i) ensures Outstanding(s, i) {}
  }

  lemma AdvanceGuarded(p: Params, s: State, to: real)
    requires Inv(s) && Guarded(p, s) && Admitted(p, s, Advance(to), true)
    ensures Guarded(p, Apply(p, s, Advance(to)))
  {
    var t := Apply(p, s, Advance(to));
    forall i: nat | Outstanding(t, i) ensures Outstanding(s, i) {}
  }

  lemma RespawnGuarded(p: Params, s: State, jitter: real)
    requires Inv(s) && Guarded(p, s) && Enabled(p, s, Respawn(jitter))
    ensures Guarded(p, Apply(p, s, Respawn(jitter)))
  {
    var t := Apply(p, s, Respawn(jitter));
    forall i: nat ensures !Outstanding(t, i) {
      assert Places(s, i) == One(i < |s.reqs|);
    }
  }

  /** Steps that touch only packet ids, the dictionary, timers and claims. */
  lemma HandlingGuarded(p: Params, s: State, t: State)
    requires Guarded(p, s)
    requires t.reqs == s.reqs && t.now == s.now && t.emitted == s.emitted && t.table == s.table
    requires t.dropped == s.dropped && t.cuts == s.cuts && t.jitter == s.jitter
    requires s.lastTick <= t.lastTick
    requires t.poller == s.poller || !t.poller.Chosen?
    ensures Guarded(p, t)
  {
    forall i: nat | Outstanding(t, i) ensures Outstanding(s, i) {}
  }

  lemma StepGuarded(p: Params, s: State, step: Step)
    requires TicksOutlastRequests(p) && Inv(s) && Punctual(p, s) && Guarded(p, s) && Admitted(p, s, step, true)
    ensures Guarded(p, Apply(p, s, step))
  {
    match step {
      case Advance(to) => AdvanceGuarded(p, s, to);
      case TickSkip => HandlingGuarded(p, s, Apply(p, s, step));
      case TickSend(dest, jitter) => TickSendGuarded(p, s, dest, jitter);
      case Stamp => StampGuarded(p, s);
      case ApiStart(dest, timeout) => ApiStartGuarded(p, s, dest, timeout);
      case Emit(k) => EmitGuarded(p, s, k);
      case CancelAll => CancelAllGuarded(p, s);
      case Die => DieGuarded(p, s);
      case Respawn(jitter) => RespawnGuarded(p, s, jitter);
      case Prune(olderThan) => PruneGuarded(p, s, olderThan);
      case _ => HandlingStepGuarded(p, s, step);
    }
  }

  lemma HandlingStepGuarded(p: Params, s: State, step: Step)
    requires Guarded(p, s) && Enabled(p, s, step)
    requires step.SendOk? || step.SendFails? || step.Register? || step.Arm? || step.Receive? || step.TimerFires?
    ensures Guarded(p, Apply(p, s, step))
  {
    HandlingGuarded(p, s, Apply(p, s, step));
  }

  lemma {:induction false} RunGuarded(p: Params, s: State, steps: seq<Step>)
    requires TicksOutlastRequests(p) && Inv(s) && Punctual(p, s) && Guarded(p, s) && Run(p, s, steps, true)
    ensures Inv(Final(p, s, steps, true)) && Guarded(p, Final(p, s, steps, true))
    decreases |steps|
  {
    if steps != [] {
      StepInv(p, s, steps[0]);
      StepPunctual(p, s, steps[0]);
      StepGuarded(p, s, steps[0]);
      RunGuarded(p, Apply(p, s, steps[0]), steps[1..]);
    }
  }

  lemma InitGuarded(p: Params, start: real)
    ensures Guarded(p, Init(start))
  {
    assert forall day :: SentOn(p, [], day) == {};
    assert Lost([], {}) == {};
  }

  // ----- Main results -----

  /**
   Daily budget. Whatever the interleaving of replies, timeouts, failed sends, API requests, deaths
   and respawns, the scheduler's sends in a local day exceed the budget at most by those it lost
   without a row, and no session loses more than one.
   */
  lemma DailyBudgetHolds(p: Params, start: real, steps: seq<Step>, day: int)
    requires TicksOutlastRequests(p) && p.keep >= DAY as real
    requires Run(p, Init(start), steps, true)
    ensures var s := Final(p, Init(start), steps, true);
            && |SentOn(p, s.reqs, day)| <= MaxBudget(p) + |LostOn(p, s.reqs, s.dropped, day)|
            && |LostOn(p, s.reqs, s.dropped, day)| <= |Lost(s.reqs, s.dropped)| <= s.cuts
  {
    InitInv(start);
    InitGuarded(p, start);
    RunGuarded(p, Init(start), steps);
    var s := Final(p, Init(start), steps, true);
    assert Budgeted(p, s.reqs, s.dropped, day);
    SubsetSize(LostOn(p, s.reqs, s.dropped, day), Lost(s.reqs, s.dropped));
  }

  /** On clocks read to the whole second, the window of a day is the day itself. */
  lemma WholeSecondsCoverTheDay(p: Params, sent: real, day: int)
    requires p.fraction == 0.0
    ensures InWindow(p, sent, day) <==> LocalDay(sent, p.cfg.utcOffset) == day
  {
    DayIsAnInterval(sent, day, p.cfg.utcOffset);
  }

  /**
   Spacing. A scheduler send comes at least the minimum gap after any earlier scheduler send, and after
   any earlier API send that must have ended when it was decided; and at least the per-node interval when
   both go to one node and the later was configured by its canonical id; unless the earlier was lost.
   */
  lemma SendsAreSpaced(p: Params, start: real, steps: seq<Step>, i: nat, j: nat)
    requires TicksOutlastRequests(p)
    requires Run(p, Init(start), steps, true)
    requires var s := Final(p, Init(start), steps, true);
             i < j < |s.reqs| && Visible(p, s.reqs[i], s.reqs[j].decidedAt) && Scheduled(s.reqs[j]) && i !in s.dropped
    ensures var s := Final(p, Init(start), steps, true);
            && (p.keep >= p.cfg.minGapS ==> s.reqs[j].sent - s.reqs[i].sent >= p.cfg.minGapS)
            && (p.keep >= p.cfg.perNodeMinS && s.reqs[i].dest == s.reqs[j].dest == s.reqs[j].target ==>
                  s.reqs[j].sent - s.reqs[i].sent >= p.cfg.perNodeMinS)
  {
    InitInv(start);
    InitGuarded(p, start);
    RunGuarded(p, Init(start), steps);
    var s := Final(p, Init(start), steps, true);
    assert Apart(p, s.reqs[i], s.reqs[j].target, s.reqs[j].sent);
  }

  /** What is lost was started in a session that is over. */
  ghost predicate LostBefore(s: State) {
    && s.sessionFrom <= |s.reqs|
    && forall i :: i in s.dropped ==> i < if s.alive then s.sessionFrom else |s.reqs|
  }

  lemma {:induction false} OnlyDeathsLose(p: Params, s: State, steps: seq<Step>, timed: bool)
    requires Run(p, s, steps, timed) && LostBefore(s)
    requires s.poller.Chosen? || s.poller.Sending? ==> s.alive
    requires forall k :: 0 <= k < |steps| ==> !steps[k].CancelAll?
    ensures LostBefore(Final(p, s, steps, timed))
    decreases |steps|
  {
    if steps != [] {
      OnlyDeathsLose(p, Apply(p, s, steps[0]), steps[1..], timed);
    }
  }

  /**
   Spacing within a session: as long as nothing cancels its requests, the sends of the session in
   progress are apart, without exception.
   */
  lemma SendsOfASessionAreSpaced(p: Params, start: real, steps: seq<Step>, i: nat, j: nat)
    requires TicksOutlastRequests(p)
    requires Run(p, Init(start), steps, true)
    requires forall k :: 0 <= k < |steps| ==> !steps[k].CancelAll?
    requires var s := Final(p, Init(start), steps, true);
             && s.alive && s.sessionFrom <= i < j < |s.reqs|
             && Visible(p, s.reqs[i], s.reqs[j].decidedAt) && Scheduled(s.reqs[j])
    ensures var s := Final(p, Init(start), steps, true);
            && (p.keep >= p.cfg.minGapS ==> s.reqs[j].sent - s.reqs[i].sent >= p.cfg.minGapS)
            && (p.keep >= p.cfg.perNodeMinS && s.reqs[i].dest == s.reqs[j].dest == s.reqs[j].target ==>
                  s.reqs[j].sent - s.reqs[i].sent >= p.cfg.perNodeMinS)
  {
    OnlyDeathsLose(p, Init(start), steps, true);
    SendsAreSpaced(p, start, steps, i, j);
  }

  // ----- Quiet hours -----

  ghost predicate OutsideQuiet(p: Params, s: State) {
    && (s.poller.Chosen? ==> !Quiet(p.cfg, s.poller.decidedAt))
    && forall i :: 0 <= i < |s.reqs| && Scheduled(s.reqs[i]) ==> !Quiet(p.cfg, s.reqs[i].decidedAt)
  }

  lemma {:induction false} RunOutsideQuiet(p: Params, s: State, steps: seq<Step>, timed: bool)
    requires Run(p, s, steps, timed) && OutsideQuiet(p, s)
    ensures OutsideQuiet(p, Final(p, s, steps, timed))
    decreases |steps|
  {
    if steps != [] {
      RunOutsideQuiet(p, Apply(p, s, steps[0]), steps[1..], timed);
    }
  }

  /** No scheduler request of any run was decided in the quiet hours, whatever the delays, prunes and targets. */
  lemma QuietHoursAreKept(p: Params, start: real, steps: seq<Step>, timed: bool, i: nat)
    requires Run(p, Init(start), steps, timed)
    requires i < |Final(p, Init(start), steps, timed).reqs| && Scheduled(Final(p, Init(start), steps, timed).reqs[i])
    ensures !Quiet(p.cfg, Final(p, Init(start), steps, timed).reqs[i].decidedAt)
  {
    RunOutsideQuiet(p, Init(start), steps, timed);
  }
}
