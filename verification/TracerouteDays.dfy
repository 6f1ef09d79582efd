/**
 The budget of a whole local day. The guard counts from a midnight that is late by the fraction of the
 second of the decision, so the promise needs a condition: whole seconds, or a quiet midnight. Without
 either, one more send per day can get by, and no more.
 */
module TracerouteDays {
  import opened Arithmetic
  import opened Options
  import opened LocalTime
  import opened TracerouteScheduler
  import opened TracerouteRuns
  import opened TracerouteResults
  import opened TracerouteTiming
  import opened TracerouteBudget
  import opened TracerouteLimits
  import NodeIds

  /** The documented promise, but for requests lost without a row: no run and no local day exceed the budget. */
  ghost predicate BudgetKept(p: Params) {
    forall start, steps, day {:trigger SentOnDay(p, Final(p, Init(start), steps, true).reqs, day)} ::
      Run(p, Init(start), steps, true) ==>
        var s := Final(p, Init(start), steps, true);
        |SentOnDay(p, s.reqs, day)| <= MaxBudget(p) + |SentOnDay(p, s.reqs, day) * s.dropped|
  }

  lemma WindowIsInTheDay(p: Params, sent: real, day: int)
    requires p.fraction >= 0.0
    ensures InWindow(p, sent, day) ==> LocalDay(sent, p.cfg.utcOffset) == day
    ensures LocalDay(sent, p.cfg.utcOffset) == day && !InWindow(p, sent, day) ==>
              DayStart(day, p.cfg.utcOffset) <= sent < DayStart(day, p.cfg.utcOffset) + p.fraction
  {
    DayIsAnInterval(sent, day, p.cfg.utcOffset);
  }

  /** When no send falls in the first fraction of its day, the window sees them all. */
  lemma NoEarlySends(p: Params, start: real, steps: seq<Step>, day: int)
    requires TicksOutlastRequests(p) && p.keep >= DAY as real && Run(p, Init(start), steps, true)
    requires var s := Final(p, Init(start), steps, true);
             forall i: nat :: i in SentOnDay(p, s.reqs, day) ==> InWindow(p, s.reqs[i].sent, day)
    ensures var s := Final(p, Init(start), steps, true);
            |SentOnDay(p, s.reqs, day)| <= MaxBudget(p) + |SentOnDay(p, s.reqs, day) * s.dropped|
  {
    var s := Final(p, Init(start), steps, true);
    DailyBudgetHolds(p, start, steps, day);
    forall i: nat | i < |s.reqs| ensures i in SentOnDay(p, s.reqs, day) <==> i in SentOn(p, s.reqs, day) {
      WindowIsInTheDay(p, s.reqs[i].sent, day);
    }
    assert SentOnDay(p, s.reqs, day) == SentOn(p, s.reqs, day);
  }

  // ----- Whole seconds -----

  lemma WholeSecondsKeepTheBudget(p: Params)
    requires TicksOutlastRequests(p) && p.keep >= DAY as real && p.fraction == 0.0
    ensures BudgetKept(p)
  {
    forall start, steps, day | Run(p, Init(start), steps, true)
      ensures var s := Final(p, Init(start), steps, true);
              |SentOnDay(p, s.reqs, day)| <= MaxBudget(p) + |SentOnDay(p, s.reqs, day) * s.dropped|
    {
      var s := Final(p, Init(start), steps, true);
      forall i: nat | i in SentOnDay(p, s.reqs, day) ensures InWindow(p, s.reqs[i].sent, day) {
        WholeSecondsCoverTheDay(p, s.reqs[i].sent, day);
      }
      NoEarlySends(p, start, steps, day);
    }
  }

  lemma FractionsBreakTheBudget(p: Params, day: int, n: nat, times: seq<nat>)
    requires p.fraction > 0.0 && Room(p, n, times) && Awake(p, 0) && n <= times[0]
    requires DayStart(day, p.cfg.utcOffset) >= MaxReal(0.0, p.cfg.tickS)
    ensures !BudgetKept(p)
  {
    var steps := FractionsEscapeTheBudget(p, day, n, times);
    var s := Final(p, Init(0.0), steps, true);
    assert SentOnDay(p, s.reqs, day) * s.dropped == {};
  }

  /**
   Whatever the budget, the intervals and the quiet hours, if they leave midnight open and room for the
   budget in the day after it: the budget of every local day is kept in every run exactly when decisions
   fall on whole seconds.
   */
  lemma WholeSecondsAreTheCondition(p: Params, n: nat, times: seq<nat>)
    requires TicksOutlastRequests(p) && p.keep >= DAY as real
    requires Room(p, n, times) && Awake(p, 0) && n <= times[0]
    ensures BudgetKept(p) <==> p.fraction == 0.0
  {
    if p.fraction == 0.0 {
      WholeSecondsKeepTheBudget(p);
    } else {
      var day := 1 + if p.cfg.utcOffset >= 0 then p.cfg.utcOffset else 0;
      assert DayStart(day, p.cfg.utcOffset) >= DAY as real;
      FractionsBreakTheBudget(p, day, n, times);
    }
  }

  /** In particular without quiet hours, if as many gaps as the budget fit in a day. */
  lemma WholeSecondsWithoutQuietHours(p: Params, n: nat)
    requires TicksOutlastRequests(p) && p.keep >= DAY as real && p.cfg.quiet == None
    requires n > 0 && n as real >= p.cfg.tickS && n as real >= p.cfg.minGapS
    requires p.cfg.dailyBudget > 0 && p.cfg.dailyBudget * n < DAY
    ensures BudgetKept(p) <==> p.fraction == 0.0
  {
    var times := EvenRoom(p, n);
    WholeSecondsAreTheCondition(p, n, times);
  }

  // ----- Any clock: one more -----

  /** The sends in the first fraction of a day. */
  function EarlyOn(p: Params, reqs: seq<Request>, day: int): set<nat> {
    SentOnDay(p, reqs, day) - SentOn(p, reqs, day)
  }

  /** Of two such sends the earlier was lost: the minimum gap does not fit in the fraction. */
  lemma TwoEarlySends(p: Params, start: real, steps: seq<Step>, day: int, i: nat, j: nat)
    requires TicksOutlastRequests(p) && p.keep >= p.cfg.minGapS >= p.fraction && Run(p, Init(start), steps, true)
    requires var s := Final(p, Init(start), steps, true);
             i < j && i in EarlyOn(p, s.reqs, day) && j in EarlyOn(p, s.reqs, day)
    ensures i in Final(p, Init(start), steps, true).dropped
  {
    var s := Final(p, Init(start), steps, true);
    WindowIsInTheDay(p, s.reqs[i].sent, day);
    WindowIsInTheDay(p, s.reqs[j].sent, day);
    assert s.reqs[j].sent - s.reqs[i].sent < p.cfg.minGapS;
    if i !in s.dropped {
      SendsAreSpaced(p, start, steps, i, j);
    }
  }

  lemma OneEarlySend(p: Params, start: real, steps: seq<Step>, day: int)
    requires TicksOutlastRequests(p) && p.keep >= p.cfg.minGapS >= p.fraction && Run(p, Init(start), steps, true)
    ensures var s := Final(p, Init(start), steps, true); |EarlyOn(p, s.reqs, day) - s.dropped| <= 1
  {
    var s := Final(p, Init(start), steps, true);
    var early := EarlyOn(p, s.reqs, day) - s.dropped;
    if early != {} {
      var one :| one in early;
      forall i | i in early ensures i == one {
        if i < one {
          TwoEarlySends(p, start, steps, day, i, one);
        } else if one < i {
          TwoEarlySends(p, start, steps, day, one, i);
        }
      }
      assert early == {one};
    }
  }

  lemma Sizes(all: set<nat>, counted: set<nat>, dropped: set<nat>)
    requires counted <= all
    ensures |all| <= |counted| - |counted * dropped| + |(all - counted) - dropped| + |all * dropped|
  {
    var kept, early := counted - dropped, (all - counted) - dropped;
    assert counted == kept + counted * dropped;
    assert |counted| == |kept| + |counted * dropped|;
    UnionSize(kept, early);
    UnionSize(kept + early, all * dropped);
    assert all == (kept + early) + all * dropped;
  }

  /** Where the minimum gap covers the fraction, a local day sees at most one send beyond the budget and the lost. */
  lemma AnyDayIsBounded(p: Params, start: real, steps: seq<Step>, day: int)
    requires TicksOutlastRequests(p) && p.keep >= DAY as real && p.keep >= p.cfg.minGapS >= p.fraction
    requires Run(p, Init(start), steps, true)
    ensures var s := Final(p, Init(start), steps, true);
            |SentOnDay(p, s.reqs, day)| <= MaxBudget(p) + 1 + |SentOnDay(p, s.reqs, day) * s.dropped|
  {
    var s := Final(p, Init(start), steps, true);
    DailyBudgetHolds(p, start, steps, day);
    OneEarlySend(p, start, steps, day);
    forall i: nat | i in SentOn(p, s.reqs, day) ensures i in SentOnDay(p, s.reqs, day) {
      WindowIsInTheDay(p, s.reqs[i].sent, day);
    }
    Sizes(SentOnDay(p, s.reqs, day), SentOn(p, s.reqs, day), s.dropped);
  }

  // ----- Quiet midnights -----

  ghost predicate Prompt(p: Params, reqs: seq<Request>) {
    forall i :: 0 <= i < |reqs| ==> reqs[i].sent <= reqs[i].decidedAt + p.sendWithin
  }

  lemma {:induction false} RunPrompt(p: Params, s: State, steps: seq<Step>)
    requires DelaysOk(p) && Sound(p, s) && Prompt(p, s.reqs) && Run(p, s, steps, true)
    ensures Prompt(p, Final(p, s, steps, true).reqs)
    decreases |steps|
  {
    if steps != [] {
      StepInv(p, s, steps[0]);
      StepPunctual(p, s, steps[0]);
      RunPrompt(p, Apply(p, s, steps[0]), steps[1..]);
    }
  }

  /** No decision can be taken around a midnight whose send would fall in the first fraction of the day. */
  ghost predicate QuietMidnights(p: Params) {
    forall day, at ::
      DayStart(day, p.cfg.utcOffset) - p.sendWithin <= at < DayStart(day, p.cfg.utcOffset) + p.fraction ==>
        Quiet(p.cfg, at)
  }

  /** Quiet midnights keep the budget of every local day, on any clock. */
  lemma QuietMidnightsKeepTheBudget(p: Params)
    requires TicksOutlastRequests(p) && p.keep >= DAY as real && QuietMidnights(p)
    ensures BudgetKept(p)
  {
    forall start, steps, day | Run(p, Init(start), steps, true)
      ensures var s := Final(p, Init(start), steps, true);
              |SentOnDay(p, s.reqs, day)| <= MaxBudget(p) + |SentOnDay(p, s.reqs, day) * s.dropped|
    {
      var s := Final(p, Init(start), steps, true);
      InitInv(start);
      RunPrompt(p, Init(start), steps);
      InitGuarded(p, start);
      RunGuarded(p, Init(start), steps);
      forall i: nat | i in SentOnDay(p, s.reqs, day) ensures InWindow(p, s.reqs[i].sent, day) {
        WindowIsInTheDay(p, s.reqs[i].sent, day);
        QuietHoursAreKept(p, start, steps, true, i);
      }
      NoEarlySends(p, start, steps, day);
    }
  }

  /** Quiet hours round midnight, with room for a send before it and for the fraction after it, are such a case. */
  lemma QuietNights(p: Params, opens: int, closes: int)
    requires MinuteOfClock(opens) && MinuteOfClock(closes) && closes < opens && p.cfg.quiet == Some((opens, closes))
    requires p.sendWithin <= ((MINUTES - opens) * 60) as real && p.fraction <= (closes * 60) as real
    ensures QuietMidnights(p)
  {
    forall day, at |
      DayStart(day, p.cfg.utcOffset) - p.sendWithin <= at < DayStart(day, p.cfg.utcOffset) + p.fraction
      ensures Quiet(p.cfg, at)
    {
      var x, midnight := at.Floor + p.cfg.utcOffset, day * DAY;
      assert midnight - (MINUTES - opens) * 60 <= x < midnight + closes * 60;
      if x < midnight {
        assert x == (day - 1) * DAY + (x - midnight + DAY);
        Remainder(x, day - 1, x - midnight + DAY, DAY);
      } else {
        Remainder(x, day, x - midnight, DAY);
      }
    }
  }

  /** The hours from 22:00 to 06:00 are one, as long as a send takes two hours at most. */
  lemma DefaultQuietHoursKeepTheBudget(p: Params)
    requires TicksOutlastRequests(p) && p.keep >= DAY as real
    requires p.cfg.quiet == Some((22 * 60, 6 * 60)) && p.sendWithin <= 7200.0 && p.fraction < 1.0
    ensures BudgetKept(p)
  {
    QuietNights(p, 22 * 60, 6 * 60);
    QuietMidnightsKeepTheBudget(p);
  }
}
