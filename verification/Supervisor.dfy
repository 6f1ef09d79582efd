/**
 The supervisor: one disposable worker at a time, watched by its heartbeat, killed when it freezes,
 respawned with a capped exponential backoff or after a duty-cycle pause, under a watchdog that must
 never go hungry. What whole runs keep is told from the log, the pings and the session history.
 */
module Supervisor {
  import opened Arithmetic
  import opened Options
  import opened Tiers
  import opened Environment

  datatype Config = Config(
    reconnectDelay: real,
    maxReconnectDelay: real,
    tick: real,
    connectGrace: real,
    aliveTimeout: real,
    batteryTiers: bool,
    hysteresis: real,
    dutyOn: real,
    dutyOff: real,
    monitorInterval: real,
    forceTelemetry: bool,
    bleReconcile: bool,
    bleSettle: real,
    hasStore: bool)

  /** The durations that are handed to `sleep`, which refuses negative ones. */
  predicate Sleepable(cfg: Config) {
    cfg.reconnectDelay >= 0.0 && cfg.maxReconnectDelay >= 0.0 && cfg.tick >= 0.0 && cfg.bleSettle >= 0.0
  }

  // ----- Pings -----

  predicate Regular(pings: seq<real>, gap: real) {
    forall i :: 0 < i < |pings| ==> pings[i] - pings[i - 1] <= gap
  }

  function SincePing(pings: seq<real>, now: real): real
    requires pings != []
  {
    now - pings[|pings| - 1]
  }

  /** The longest a run may go without a ping. */
  function MaxGap(cfg: Config, b: Bounds): real {
    Watching(cfg, b) + Stopping(b) + b.link + Resting(cfg, b) + Starting(cfg, b)
  }

  function Watching(cfg: Config, b: Bounds): real {
    cfg.tick + b.overrun
  }

  function Stopping(b: Bounds): real {
    b.kill + b.join + b.disconnect
  }

  function Resting(cfg: Config, b: Bounds): real {
    MaxReal(cfg.reconnectDelay, cfg.maxReconnectDelay) + b.overrun
  }

  function Starting(cfg: Config, b: Bounds): real {
    b.battery + b.status + b.disconnect + cfg.bleSettle + b.overrun + b.spawn
  }

  // ----- The log -----

  /** Where a run stands, told from its log alone; `n` counts the sessions that are over. */
  datatype Stage =
    | Idle(n: nat)
    | Cleared(n: nat)   // a stale link was dropped before the spawn
    | Born(n: nat)
    | Serving(n: nat)
    | Cut(n: nat)       // killed, link still held
    | Released(n: nat)  // killed, link dropped
    | Ended(n: nat)     // reconnection not recorded yet
    | Broken

  function Follow(s: Stage, e: Event, hasStore: bool): Stage {
    match (s, e)
    case (Idle(n), Disconnected) => Cleared(n)
    case (Idle(n), Spawned(w, _, _, others)) => if w == n && !others then Born(n) else Broken
    case (Cleared(n), Spawned(w, _, _, others)) => if w == n && !others then Born(n) else Broken
    case (Born(n), Exposed(w)) => if w == n then Serving(n) else Broken
    case (Serving(n), Killed(w, _)) => if w == n then Cut(n) else Broken
    case (Cut(n), Disconnected) => Released(n)
    case (Serving(n), Hidden) => if hasStore then Ended(n) else Idle(n + 1)
    case (Released(n), Hidden) => if hasStore then Ended(n) else Idle(n + 1)
    case (Ended(n), Linked(k)) => if k == n + 1 then Idle(n + 1) else Broken
    case _ => Broken
  }

  function StageOf(log: seq<Event>, hasStore: bool): Stage {
    if log == [] then Idle(0) else Follow(StageOf(log[..|log| - 1], hasStore), log[|log| - 1], hasStore)
  }

  lemma StageAppend(log: seq<Event>, e: Event, hasStore: bool)
    ensures StageOf(log + [e], hasStore) == Follow(StageOf(log, hasStore), e, hasStore)
  {
    assert (log + [e])[..|log|] == log;
  }

  /** A log that is well formed was well formed all along. */
  lemma {:induction false} StageOfPrefix(log: seq<Event>, k: nat, hasStore: bool)
    requires k <= |log| && StageOf(log, hasStore) != Broken
    ensures StageOf(log[..k], hasStore) != Broken
  {
    if k == |log| {
      assert log[..k] == log;
    } else {
      StageOfPrefix(log[..|log| - 1], k, hasStore);
      assert log[..|log| - 1][..k] == log[..k];
    }
  }

  lemma StageStep(log: seq<Event>, k: nat, hasStore: bool)
    requires k < |log| && StageOf(log, hasStore) != Broken
    ensures StageOf(log[..k + 1], hasStore) == Follow(StageOf(log[..k], hasStore), log[k], hasStore) != Broken
  {
    StageOfPrefix(log, k + 1, hasStore);
    assert log[..k + 1][..k] == log[..k];
  }

  /** What the stage before a step and the one after it say about its event. */
  lemma StepForces(log: seq<Event>, k: nat, hasStore: bool)
    requires k < |log| && StageOf(log, hasStore) != Broken
    ensures var s, t := StageOf(log[..k], hasStore), StageOf(log[..k + 1], hasStore);
            && (log[k].Spawned? ==> !log[k].others && t == Born(log[k].worker))
            && (s.Born? ==> log[k] == Exposed(s.n))
            && (log[k].Killed? ==> t.Cut?)
            && (s.Cut? ==> log[k] == Disconnected && t.Released?)
            && (s.Released? ==> log[k] == Hidden)
  {
    StageStep(log, k, hasStore);
  }

  /** Handover: no spawn beside a live worker; one disconnect after a kill, and then the API lets go. */
  lemma CleanHandover(log: seq<Event>, k: nat, hasStore: bool)
    requires k < |log| && StageOf(log, hasStore) != Broken
    ensures log[k].Spawned? ==> !log[k].others
    ensures log[k].Killed? && k + 1 < |log| ==> log[k + 1] == Disconnected
    ensures log[k].Killed? && k + 2 < |log| ==> log[k + 2] == Hidden
    ensures log[k].Spawned? && k + 1 < |log| ==> log[k + 1] == Exposed(log[k].worker)
  {
    StepForces(log, k, hasStore);
    if k + 1 < |log| {
      StepForces(log, k + 1, hasStore);
      if k + 2 < |log| {
        StepForces(log, k + 2, hasStore);
      }
    }
  }

  function LinksOf(log: seq<Event>): seq<nat> {
    if log == [] then []
    else
      var before := LinksOf(log[..|log| - 1]);
      if log[|log| - 1].Linked? then before + [log[|log| - 1].reconnects] else before
  }

  function SessionsOver(s: Stage): nat
    requires s != Broken
  {
    s.n
  }

  /** The reconnections recorded by a run with a store are exactly 1, 2, ..., n, one per session that is over. */
  lemma {:induction false} LinksCountSessions(log: seq<Event>)
    requires StageOf(log, true) != Broken
    ensures LinksOf(log) == seq(SessionsOver(StageOf(log, true)), i => i + 1)
  {
    if log != [] {
      StageStep(log, |log| - 1, true);
      assert log[..|log| - 1 + 1] == log;
      LinksCountSessions(log[..|log| - 1]);
    }
  }

  // ----- The session history -----

  /** What followed a session; `lasted` is the time that really went by. */
  datatype Pause = Stopped | Backoff(seconds: real, lasted: real) | DutyOff(lasted: real)

  datatype Session = Session(
    level: Option<real>, tier: Tier, monitorInterval: real, forced: bool, productive: bool, ended: Verdict,
    pause: Pause)

  function Doubled(d: real, k: nat): real {
    if k == 0 then d else 2.0 * Doubled(d, k - 1)
  }

  /** The closed form of the backoff: base delay first, then base doubled `k` times and capped. */
  function Delay(cfg: Config, k: nat): real {
    if k == 0 then cfg.reconnectDelay else MinReal(Doubled(cfg.reconnectDelay, k), cfg.maxReconnectDelay)
  }

  /** Backoff sleeps since the last one that followed a productive session, counting that one. */
  function Streak(history: seq<Session>): nat {
    if history == [] then 0
    else
      var last := history[|history| - 1];
      var before := Streak(history[..|history| - 1]);
      if !last.pause.Backoff? then before else if last.productive then 1 else before + 1
  }

  predicate BackoffFollows(cfg: Config, past: seq<Session>, s: Session) {
    s.pause.Backoff? ==>
      s.pause.seconds == Delay(cfg, if s.productive then 0 else Streak(past)) && s.pause.lasted >= s.pause.seconds
  }

  ghost predicate BackoffOk(cfg: Config, history: seq<Session>) {
    forall i :: 0 <= i < |history| ==> BackoffFollows(cfg, history[..i], history[i])
  }

  function LastProductive(history: seq<Session>): Option<Tier> {
    if history == [] then None
    else if history[|history| - 1].productive then Some(history[|history| - 1].tier)
    else LastProductive(history[..|history| - 1])
  }

  predicate AnnouncedFollows(cfg: Config, past: seq<Session>, s: Session) {
    s.forced == (cfg.forceTelemetry || (cfg.batteryTiers && Some(s.tier) != LastProductive(past)))
  }

  ghost predicate AnnouncedOk(cfg: Config, history: seq<Session>) {
    forall i :: 0 <= i < |history| ==> AnnouncedFollows(cfg, history[..i], history[i])
  }

  function LastTier(history: seq<Session>): Option<Tier> {
    if history == [] then None else Some(history[|history| - 1].tier)
  }

  function StaticTier(cfg: Config): Tier {
    Tier("STATIC", Some(cfg.monitorInterval), false)
  }

  predicate ReadsBattery(cfg: Config) {
    cfg.batteryTiers && cfg.hasStore
  }

  predicate TierFollows(cfg: Config, past: seq<Session>, s: Session) {
    && s.tier == (if cfg.batteryTiers then SelectTier(s.level, LastTier(past), cfg.hysteresis) else StaticTier(cfg))
    && s.monitorInterval == (if s.tier.monitorInterval.Some? then s.tier.monitorInterval.value else cfg.dutyOn)
    && (!ReadsBattery(cfg) ==> s.level == None)
    && (!cfg.batteryTiers ==> s.monitorInterval == cfg.monitorInterval && !s.tier.dutyCycle)
    && (s.pause.Backoff? ==> !s.tier.dutyCycle)
    && (s.pause.DutyOff? ==> s.tier.dutyCycle)
  }

  ghost predicate TiersOk(cfg: Config, history: seq<Session>) {
    forall i :: 0 <= i < |history| ==> TierFollows(cfg, history[..i], history[i])
  }

  /** A session is productive when its worker beat, but for a beat in the very instant in which the watch ended. */
  predicate Told(productive: bool, endedAt: real, w: Worker) {
    && (productive ==> w.beats > 0)
    && (w.beats > 0 && !productive ==> w.lastBeat == endedAt)
  }

  /** The on-window of the duty cycle, for the tiers that have one. */
  function Window(cfg: Config, tier: Tier): Option<real> {
    if tier.dutyCycle then Some(cfg.dutyOn) else None
  }

  /**
   A watch ends in time, within one look of what ends it: the end of the window, or the first heartbeat if
   that came later; the death of the worker; and without any heartbeat, the end of the connection grace.
   */
  predicate InTime(cfg: Config, b: Bounds, window: Option<real>, w: Worker, endedAt: real) {
    && (window.Some? && w.beats > 0 ==> endedAt <= MaxReal(w.born + window.value, w.firstBeat) + Watching(cfg, b))
    && (!w.alive ==> endedAt <= w.diedAt + Watching(cfg, b))
    && (w.beats == 0 ==> endedAt <= w.born + MaxReal(0.0, cfg.connectGrace) + Watching(cfg, b))
  }

  /** No watch ends without a reason: a window that is over, a worker that is gone, a grace that has run out, a stop. */
  predicate Because(cfg: Config, b: Bounds, window: Option<real>, w: Worker, v: Verdict) {
    match v
    case WindowOver(at) => w.beats > 0 && window.Some? && at - w.born > window.value
    case Exited(at) => !w.alive && w.diedAt <= at
    case Frozen(seen, lastProgress, at, silentSince) =>
      var grace := if seen > 0 then cfg.aliveTimeout else cfg.connectGrace;
      w.beats >= seen && at - silentSince > grace && at - lastProgress <= MaxReal(0.0, grace) + cfg.tick + b.overrun
    case StopAsked(_) => true
  }

  /** A pause overruns by one sleep at most. */
  predicate NotTooLong(cfg: Config, b: Bounds, pause: Pause) {
    match pause
    case Stopped => true
    case Backoff(seconds, lasted) => lasted <= seconds + b.overrun
    case DutyOff(lasted) => lasted <= MaxReal(0.0, cfg.dutyOff) + Watching(cfg, b)
  }

  /** What a session says of its worker, and of the time it took. */
  predicate Attested(cfg: Config, b: Bounds, s: Session, w: Worker) {
    && Told(s.productive, s.ended.at, w)
    && InTime(cfg, b, Window(cfg, s.tier), w, s.ended.at) && Because(cfg, b, Window(cfg, s.tier), w, s.ended)
    && NotTooLong(cfg, b, s.pause)
  }

  ghost predicate AllAttested(cfg: Config, b: Bounds, history: seq<Session>, workers: seq<Worker>) {
    && |history| <= |workers|
    && forall i :: 0 <= i < |history| ==> Attested(cfg, b, history[i], workers[i])
  }

  /** A session more: the workers before are as they were. */
  lemma OneMoreAttested(
    cfg: Config, b: Bounds, past: seq<Session>, s: Session, before: seq<Worker>, after: seq<Worker>)
    requires AllAttested(cfg, b, past, before) && |past| == |before| < |after| && after[..|past|] == before
    requires Attested(cfg, b, s, after[|past|])
    ensures AllAttested(cfg, b, past + [s], after)
  {
    assert forall i :: 0 <= i < |past| ==> after[i] == after[..|past|][i];
  }

  /** The pause after the last session. */
  lemma PauseAttested(cfg: Config, b: Bounds, past: seq<Session>, s: Session, pause: Pause, workers: seq<Worker>)
    requires AllAttested(cfg, b, past + [s], workers) && NotTooLong(cfg, b, pause)
    ensures AllAttested(cfg, b, past + [s.(pause := pause)], workers)
  {
    var before, after := past + [s], past + [s.(pause := pause)];
    forall i | 0 <= i < |after| ensures Attested(cfg, b, after[i], workers[i]) {
      assert Attested(cfg, b, before[i], workers[i]);
    }
  }

  /** The readings that the tiers of a history were chosen from. */
  function Levels(cfg: Config, history: seq<Session>): (r: seq<Option<real>>)
    ensures |r| == if ReadsBattery(cfg) then |history| else 0
    ensures forall i :: 0 <= i < |r| ==> r[i] == history[i].level
  {
    if ReadsBattery(cfg) then seq(|history|, i requires 0 <= i < |history| => history[i].level) else []
  }

  /** Neither the session nor a duty-cycle pause after it was cut short. */
  predicate Whole(cfg: Config, s: Session) {
    !s.ended.StopAsked? && (s.pause.DutyOff? ==> s.pause.lasted >= cfg.dutyOff)
  }

  ghost predicate AllWhole(cfg: Config, history: seq<Session>) {
    forall i :: 0 <= i < |history| ==> Whole(cfg, history[i])
  }

  /** Only a stop cuts a session or a pause short, and then no session follows. */
  ghost predicate AllButLastWhole(cfg: Config, history: seq<Session>) {
    forall i :: 0 <= i < |history| - 1 ==> Whole(cfg, history[i])
  }

  lemma WholeAppend(cfg: Config, past: seq<Session>, s: Session)
    requires AllWhole(cfg, past)
    ensures AllButLastWhole(cfg, past + [s])
    ensures Whole(cfg, s) ==> AllWhole(cfg, past + [s])
  {
  }

  /** What the log says each worker was started with. */
  function Launches(log: seq<Event>): seq<(real, bool)> {
    if log == [] then []
    else
      var before := Launches(log[..|log| - 1]);
      match log[|log| - 1]
      case Spawned(_, interval, forced, _) => before + [(interval, forced)]
      case _ => before
  }

  function Started(history: seq<Session>): (r: seq<(real, bool)>)
    ensures |r| == |history|
    ensures forall i :: 0 <= i < |r| ==> r[i] == (history[i].monitorInterval, history[i].forced)
  {
    seq(|history|, i requires 0 <= i < |history| => (history[i].monitorInterval, history[i].forced))
  }

  lemma LaunchesAppend(log: seq<Event>, e: Event)
    ensures Launches(log + [e]) ==
            Launches(log) + if e.Spawned? then [(e.monitorInterval, e.forced)] else []
  {
    assert (log + [e])[..|log|] == log;
  }

  /** A kill and its disconnect, seen from the log. */
  lemma KillOnTheLog(log: seq<Event>, e: Event, hasStore: bool)
    requires e.Killed?
    ensures StageOf(log, hasStore) == Serving(e.worker) ==>
              StageOf(log + [e] + [Disconnected], hasStore) == Released(e.worker)
    ensures Launches(log + [e] + [Disconnected]) == Launches(log)
  {
    StageAppend(log, e, hasStore);
    LaunchesAppend(log, e);
    StageAppend(log + [e], Disconnected, hasStore);
    LaunchesAppend(log + [e], Disconnected);
  }

  // ----- The tiers of a history -----

  function ReadingsOf(history: seq<Session>): (r: seq<Option<real>>)
    ensures |r| == |history| && forall i :: 0 <= i < |r| ==> r[i] == history[i].level
  {
    seq(|history|, i requires 0 <= i < |history| => history[i].level)
  }

  function IndicesOf(history: seq<Session>): (r: seq<nat>)
    ensures |r| == |history| && forall i :: 0 <= i < |r| ==> r[i] == IndexOf(Some(history[i].tier))
  {
    seq(|history|, i requires 0 <= i < |history| => IndexOf(Some(history[i].tier)))
  }

  lemma NextIndex(cfg: Config, past: seq<Session>, last: Session)
    requires cfg.batteryTiers && TierFollows(cfg, past, last)
    ensures IndexOf(Some(last.tier)) == SelectIndex(last.level, IndexOf(LastTier(past)), cfg.hysteresis)
  {
    TierKeepsItsIndex(SelectIndex(last.level, IndexOf(LastTier(past)), cfg.hysteresis));
  }

  lemma HistoryAppend(past: seq<Session>, last: Session)
    ensures ReadingsOf(past + [last]) == ReadingsOf(past) + [last.level]
    ensures IndicesOf(past + [last]) == IndicesOf(past) + [IndexOf(Some(last.tier))]
    ensures LastTier(past + [last]) == Some(last.tier)
  {
  }

  lemma TiersOfThePast(cfg: Config, past: seq<Session>, last: Session)
    requires TiersOk(cfg, past + [last])
    ensures TiersOk(cfg, past) && TierFollows(cfg, past, last)
  {
    var history := past + [last];
    forall i | 0 <= i < |past| ensures TierFollows(cfg, past[..i], past[i]) {
      assert past[..i] == history[..i] && past[i] == history[i];
    }
    assert history[..|past|] == past && history[|past|] == last;
  }

  /** The tiers of a history are those its readings lead to, from the highest on. */
  lemma {:induction false} HistoryIsATrace(cfg: Config, history: seq<Session>)
    requires cfg.batteryTiers && TiersOk(cfg, history)
    ensures IndicesOf(history) == Trace(ReadingsOf(history), 0, cfg.hysteresis)
    ensures IndexOf(LastTier(history)) == IndexAfter(ReadingsOf(history), 0, cfg.hysteresis)
  {
    if history != [] {
      var past, last := history[..|history| - 1], history[|history| - 1];
      assert history == past + [last];
      TiersOfThePast(cfg, past, last);
      HistoryIsATrace(cfg, past);
      NextIndex(cfg, past, last);
      HistoryAppend(past, last);
      TraceAppend(ReadingsOf(past), last.level, 0, cfg.hysteresis);
    }
  }

  lemma HistoryCounts(cfg: Config, history: seq<Session>)
    requires cfg.batteryTiers && TiersOk(cfg, history)
    ensures TurnsIn(IndicesOf(history), 0, Fresh) == Reversals(ReadingsOf(history), 0, Fresh, cfg.hysteresis)
    ensures ChangesIn(IndicesOf(history), 0) == Changes(ReadingsOf(history), 0, cfg.hysteresis)
  {
    HistoryIsATrace(cfg, history);
    TraceCounts(ReadingsOf(history), 0, Fresh, cfg.hysteresis);
  }

  /** The tiers of a run do not flap: each reversal costs the battery a swing of more than the hysteresis. */
  lemma ReversalsCostSwings(cfg: Config, history: seq<Session>)
    requires cfg.batteryTiers && cfg.hysteresis >= 0.0 && TiersOk(cfg, history)
    ensures TurnsIn(IndicesOf(history), 0, Fresh) as real * cfg.hysteresis <= TotalVariation(ReadingsOf(history))
  {
    var turns := TurnsIn(IndicesOf(history), 0, Fresh);
    assert Repeated(turns, cfg.hysteresis) <= TotalVariation(ReadingsOf(history)) by {
      HistoryCounts(cfg, history);
      ReversalsFromStart(ReadingsOf(history), 0, cfg.hysteresis);
    }
    RepeatedIsProduct(turns, cfg.hysteresis);
  }

  /** And while its readings stay within the hysteresis, a run changes tier three times at most, in one direction. */
  lemma SmallSwingsCauseNoReversal(cfg: Config, history: seq<Session>, lo: real, hi: real)
    requires cfg.batteryTiers && cfg.hysteresis >= 0.0 && TiersOk(cfg, history)
    requires lo <= hi <= lo + cfg.hysteresis && Within(ReadingsOf(history), lo, hi)
    ensures TurnsIn(IndicesOf(history), 0, Fresh) == 0 && ChangesIn(IndicesOf(history), 0) <= 3
  {
    HistoryCounts(cfg, history);
    NoFlapping(ReadingsOf(history), 0, lo, hi, cfg.hysteresis);
  }

  // ----- Histories grow one session at a time -----

  lemma Prefixes(past: seq<Session>, s: Session, i: nat)
    requires i <= |past|
    ensures (past + [s])[..i] == past[..i]
    ensures (past + [s])[i] == if i == |past| then s else past[i]
    ensures past[..|past|] == past
  {
  }

  lemma OneMoreBackoff(cfg: Config, past: seq<Session>, s: Session)
    requires BackoffOk(cfg, past) && BackoffFollows(cfg, past, s)
    ensures BackoffOk(cfg, past + [s])
  {
    forall i | 0 <= i <= |past| ensures BackoffFollows(cfg, (past + [s])[..i], (past + [s])[i]) {
      Prefixes(past, s, i);
    }
  }

  lemma OneMoreAnnounced(cfg: Config, past: seq<Session>, s: Session)
    requires AnnouncedOk(cfg, past) && AnnouncedFollows(cfg, past, s)
    ensures AnnouncedOk(cfg, past + [s])
  {
    forall i | 0 <= i <= |past| ensures AnnouncedFollows(cfg, (past + [s])[..i], (past + [s])[i]) {
      Prefixes(past, s, i);
    }
  }

  lemma OneMoreTier(cfg: Config, past: seq<Session>, s: Session)
    requires TiersOk(cfg, past) && TierFollows(cfg, past, s)
    ensures TiersOk(cfg, past + [s])
  {
    forall i | 0 <= i <= |past| ensures TierFollows(cfg, (past + [s])[..i], (past + [s])[i]) {
      Prefixes(past, s, i);
    }
  }

  // ----- The backoff recurrence -----

  lemma {:induction false} DoubledIsPositive(d: real, k: nat)
    requires d >= 0.0
    ensures Doubled(d, k) >= 0.0
  {
    if k > 0 {
      DoubledIsPositive(d, k - 1);
    }
  }

  /** Doubling and capping the current delay is one step along the closed form. */
  lemma NextDelay(cfg: Config, k: nat)
    requires Sleepable(cfg)
    ensures MinReal(Delay(cfg, k) * 2.0, cfg.maxReconnectDelay) == Delay(cfg, k + 1)
    ensures 0.0 <= Delay(cfg, k) <= MaxReal(cfg.reconnectDelay, cfg.maxReconnectDelay)
  {
    DoubledIsPositive(cfg.reconnectDelay, k);
    DoubledIsPositive(cfg.reconnectDelay, k + 1);
  }

  /** The functions of a history, one session later; the delay slept moves one step along the closed form. */
  lemma StreakAppend(cfg: Config, past: seq<Session>, s: Session)
    requires Sleepable(cfg)
    requires s.pause.Backoff? ==> s.pause.seconds == Delay(cfg, if s.productive then 0 else Streak(past))
    ensures LastTier(past + [s]) == Some(s.tier)
    ensures LastProductive(past + [s]) == if s.productive then Some(s.tier) else LastProductive(past)
    ensures !s.pause.Backoff? ==> Streak(past + [s]) == Streak(past)
    ensures s.pause.Backoff? ==>
              MinReal(s.pause.seconds * 2.0, cfg.maxReconnectDelay) == Delay(cfg, Streak(past + [s]))
  {
    assert (past + [s])[..|past|] == past;
    NextDelay(cfg, 0);
    NextDelay(cfg, Streak(past));
  }

  function Power2(k: nat): nat {
    if k == 0 then 1 else 2 * Power2(k - 1)
  }

  /** The doubled delay is the base delay times a power of two. */
  lemma {:induction false} DoubledIsAPowerOfTwo(d: real, k: nat)
    ensures Doubled(d, k) == d * Power2(k) as real
  {
    if k > 0 {
      DoubledIsAPowerOfTwo(d, k - 1);
      assert d * Power2(k) as real == d * (2.0 * Power2(k - 1) as real);
      Reassociate(d, Power2(k - 1) as real);
    }
  }

  /** A base delay under the cap gives the plain closed form at every rank. */
  lemma DelayClosedForm(cfg: Config, k: nat)
    requires 0.0 <= cfg.reconnectDelay <= cfg.maxReconnectDelay
    ensures Delay(cfg, k) == MinReal(cfg.reconnectDelay * Power2(k) as real, cfg.maxReconnectDelay)
  {
    var d := Doubled(cfg.reconnectDelay, k);
    DoubledIsAPowerOfTwo(cfg.reconnectDelay, k);
    assert Delay(cfg, k) == MinReal(d, cfg.maxReconnectDelay) by {
      if k == 0 {
        assert d == cfg.reconnectDelay;
      }
    }
  }

  // ----- Supervision of one worker -----

  datatype Glimpse = TimeIsUp | Gone(productive: bool) | Seen(beats: nat)

  /** How and when a watch ended; at its last look, a frozen worker had not beaten since `silentSince`. */
  datatype Verdict =
    | WindowOver(at: real)
    | Exited(at: real)
    | Frozen(seen: nat, lastProgress: real, at: real, silentSince: real)
    | StopAsked(at: real)

  function Grace(cfg: Config, beats: nat): real {
    if beats > 0 then cfg.aliveTimeout else cfg.connectGrace
  }

  /** The longest that a worker is left silent once its silence has been noticed. */
  function Patience(cfg: Config, b: Bounds, beats: nat): real {
    MaxReal(0.0, Grace(cfg, beats)) + Watching(cfg, b)
  }

  /** The kill of a frozen worker is on the log, and it is neither rash nor late. */
  predicate KilledFrozen(cfg: Config, b: Bounds, worker: nat, v: Verdict, before: seq<Event>, after: seq<Event>)
    requires v.Frozen?
  {
    && after == before + [Killed(worker, v.at)] + [Disconnected]
    && v.at - v.silentSince > Grace(cfg, v.seen)
    && v.at - v.lastProgress <= Patience(cfg, b, v.seen)
    && v.lastProgress - Watching(cfg, b) <= v.silentSince <= v.lastProgress
  }

  /** What a killed worker had done: nothing more than was seen, unless it beat in the instant of the kill. */
  predicate SeenOrLate(v: Verdict, w: Worker)
    requires v.Frozen?
  {
    && w.beats >= v.seen
    && (w.beats == v.seen ==> w.lastBeat == v.silentSince)
    && (w.beats > v.seen ==> w.lastBeat == v.at)
  }

  /** What the watch knows of its worker: how much it has beaten, and when that was last seen to grow. */
  predicate Tracks(cfg: Config, b: Bounds, w: Worker, lastBeats: nat, lastProgress: real, now: real) {
    && w.beats == lastBeats
    && lastProgress - Watching(cfg, b) <= w.lastBeat <= lastProgress <= now
    && now - lastProgress <= MaxReal(0.0, Grace(cfg, lastBeats))
  }

  /** One tick later: either the worker beat in between, or it has been silent since the progress last seen. */
  lemma Tracking(cfg: Config, b: Bounds, w: Worker, v: Worker, lastProgress: real, from: real, now: real)
    requires Tracks(cfg, b, w, w.beats, lastProgress, from)
    requires Evolves(w, v, from, now) && from <= now <= from + Watching(cfg, b)
    ensures v.beats > w.beats ==> Tracks(cfg, b, v, v.beats, now, now)
    ensures v.beats == w.beats ==> now - lastProgress <= Patience(cfg, b, v.beats)
    ensures v.beats == w.beats && now - lastProgress <= Grace(cfg, v.beats) ==>
              Tracks(cfg, b, v, v.beats, lastProgress, now)
    ensures now - v.lastBeat <= Patience(cfg, b, v.beats) + Watching(cfg, b)
  {
  }

  /** Nothing that would have ended the watch is known at the head of its loop. */
  predicate Watched(
    cfg: Config, window: Option<real>, w: Worker, start: real, lastBeats: nat, lastProgress: real, now: real)
  {
    && w.born == start && w.beats == lastBeats
    && (w.alive || w.diedAt == now)
    && (lastBeats == 0 ==> lastProgress == start && now - start <= MaxReal(0.0, cfg.connectGrace))
    && (window.Some? && lastBeats > 0 ==> now <= MaxReal(start + window.value, w.firstBeat))
  }

  /** So a watch that ends with its next look ends in time, whatever the worker did meanwhile and does afterwards. */
  lemma NextLookIsInTime(
    cfg: Config, b: Bounds, window: Option<real>, w: Worker, v: Worker, u: Worker, start: real, lastBeats: nat,
    lastProgress: real, from: real, at: real, now: real)
    requires Watched(cfg, window, w, start, lastBeats, lastProgress, from)
    requires from <= at <= from + Watching(cfg, b) && at <= now
    requires Evolves(w, v, from, at) && Evolves(v, u, at, now)
    ensures InTime(cfg, b, window, u, at)
  {
  }

  /** A look that sees the worker alive, inside its window, lets the watch go on. */
  lemma StillWatched(
    cfg: Config, window: Option<real>, w: Worker, v: Worker, start: real, lastBeats: nat, lastProgress: real,
    from: real, now: real)
    requires Watched(cfg, window, w, start, lastBeats, lastProgress, from) && Evolves(w, v, from, now)
    requires v.alive || v.diedAt == now
    requires window.Some? && v.beats > 0 ==> now - start <= window.value || v.firstBeat >= now
    ensures v.beats > lastBeats ==> Watched(cfg, window, v, start, v.beats, now, now)
    ensures v.beats == lastBeats && (lastBeats == 0 ==> now - lastProgress <= cfg.connectGrace) ==>
              Watched(cfg, window, v, start, v.beats, lastProgress, now)
  {
  }

  /** What happens to the worker afterwards does not change that. */
  lemma EndStands(
    cfg: Config, b: Bounds, window: Option<real>, w: Worker, v: Worker, end: Verdict, from: real, now: real)
    requires InTime(cfg, b, window, w, end.at) && Because(cfg, b, window, w, end)
    requires end.at <= from && Watching(cfg, b) >= 0.0 && Evolves(w, v, from, now)
    ensures InTime(cfg, b, window, v, end.at) && Because(cfg, b, window, v, end)
  {
  }

  // ----- How long a watch can last -----

  function LongestGrace(cfg: Config): real {
    MaxReal(0.0, MaxReal(cfg.aliveTimeout, cfg.connectGrace))
  }

  /** How many ticks a silent worker is watched for, at most. */
  function SilentTurns(cfg: Config): nat
    requires cfg.tick > 0.0
  {
    assert LongestGrace(cfg) / cfg.tick >= 0.0;
    (LongestGrace(cfg) / cfg.tick).Floor + 1
  }

  /** A watch of `turns` turns, the last `quiet` of them within a silence of `silence` seconds. */
  predicate Paced(cfg: Config, turns: nat, quiet: nat, beats: nat, silence: real) {
    cfg.tick > 0.0 ==>
      Repeated(quiet, cfg.tick) <= silence && turns <= quiet + beats * SilentTurns(cfg)
  }

  lemma QuietIsShort(cfg: Config, quiet: nat, silence: real)
    requires cfg.tick > 0.0 && Repeated(quiet, cfg.tick) <= silence <= LongestGrace(cfg)
    ensures quiet + 1 <= SilentTurns(cfg)
  {
    RepeatedIsProduct(quiet, cfg.tick);
    DivideLeq(quiet as real * cfg.tick, LongestGrace(cfg), cfg.tick);
    assert quiet as real * cfg.tick / cfg.tick == quiet as real;
  }

  /** A watch cannot have taken more turns than the heartbeats seen and the grace allow. */
  predicate Bounded(cfg: Config, turns: nat, beats: nat) {
    cfg.tick > 0.0 ==> turns <= (beats + 1) * SilentTurns(cfg)
  }

  lemma PacedIsBounded(cfg: Config, turns: nat, quiet: nat, beats: nat, silence: real, more: nat)
    requires Paced(cfg, turns, quiet, beats, silence) && silence <= LongestGrace(cfg) && more >= beats
    ensures Bounded(cfg, turns, more)
    ensures cfg.tick > 0.0 ==> turns + 1 <= beats * SilentTurns(cfg) + SilentTurns(cfg)
  {
    if cfg.tick > 0.0 {
      QuietIsShort(cfg, quiet, silence);
      Multiples(beats, more, SilentTurns(cfg));
    }
  }

  /** One more turn: it counts as silent, or a heartbeat makes up for all the silent ones before it. */
  lemma OneMoreTurn(cfg: Config, turns: nat, quiet: nat, beats: nat, silence: real, later: real, more: nat)
    requires cfg.tick >= 0.0 && Paced(cfg, turns, quiet, beats, silence)
    requires silence <= LongestGrace(cfg) && later >= silence + cfg.tick && more >= beats
    ensures Paced(cfg, turns + 1, quiet + 1, beats, later)
    ensures more > beats ==> Paced(cfg, turns + 1, 0, more, 0.0)
    ensures Bounded(cfg, turns + 1, more)
  {
    if cfg.tick > 0.0 {
      PacedIsBounded(cfg, turns, quiet, beats, silence, more);
      Multiples(beats, more, SilentTurns(cfg));
      if more > beats {
        Multiples(beats, more - 1, SilentTurns(cfg));
      }
    }
  }

  /** What holds however a watch ended, of the worker as it is then. */
  predicate Concluded(
    cfg: Config, b: Bounds, worker: nat, productive: bool, v: Verdict, w: Worker, now: real,
    before: seq<Event>, after: seq<Event>, turns: nat)
  {
    && Told(productive, v.at, w)
    && Bounded(cfg, turns, if v.Frozen? then v.seen else w.beats)
    && (v.WindowOver? ==> productive)
    && (v.Exited? || v.Frozen? ==> !w.alive)
    && (v.WindowOver? || v.StopAsked? ==> now - w.lastBeat <= Patience(cfg, b, w.beats) + Watching(cfg, b))
    && (if v.Frozen? then
          KilledFrozen(cfg, b, worker, v, before, after) && SeenOrLate(v, w) && (productive <==> v.seen > 0)
        else
          v.at == now && (productive <==> w.beats > 0) && after == before)
  }

  /** A stop ends a watch as its last look left it. */
  lemma StopConcludes(
    cfg: Config, b: Bounds, worker: nat, w: Worker, v: Worker, lastProgress: real, now: real,
    log: seq<Event>, turns: nat, quiet: nat)
    requires Sleepable(cfg) && Sane(b)
    requires Tracks(cfg, b, w, w.beats, lastProgress, now) && Evolves(w, v, now, now)
    requires Paced(cfg, turns, quiet, w.beats, now - lastProgress)
    ensures Concluded(cfg, b, worker, v.beats > 0, StopAsked(now), v, now, log, log, turns)
  {
    PacedIsBounded(cfg, turns, quiet, w.beats, now - lastProgress, v.beats);
  }

  class Supervisor {
    const cfg: Config
    const world: World
    var current: Option<nat>
    var tier: Option<Tier>
    var announcedTier: Option<Tier>
    ghost var history: seq<Session>

    constructor (cfg: Config, world: World)
      ensures this.cfg == cfg && this.world == world
      ensures current == None && tier == None && announcedTier == None && history == []
    {
      this.cfg := cfg;
      this.world := world;
      current, tier, announcedTier := None, None, None;
      history := [];
    }

    predicate Ready() {
      Sleepable(cfg) && Sane(world.bounds)
    }

    method SetCurrent(worker: Option<nat>)
      modifies this`current, world`log
      ensures current == worker
      ensures world.log == old(world.log) + [if worker.Some? then Exposed(worker.value) else Hidden]
    {
      current := worker;
      world.Expose(worker);
    }

    method PlanTier() returns (planned: Tier, ghost level: Option<real>)
      requires Ready()
      modifies this`tier, world`now, world`workers, world`readings
      ensures world.readings == old(world.readings) + if ReadsBattery(cfg) then [level] else []
      ensures !ReadsBattery(cfg) ==> level == None
      ensures planned == if cfg.batteryTiers then SelectTier(level, old(tier), cfg.hysteresis) else StaticTier(cfg)
      ensures tier == if cfg.batteryTiers then Some(planned) else old(tier)
      ensures old(world.now) <= world.now <= old(world.now) + world.bounds.battery
      ensures AllEvolve(old(world.workers), world.workers, old(world.now), world.now)
    {
      if !cfg.batteryTiers {
        return StaticTier(cfg), None;
      }
      var reading := None;
      if cfg.hasStore {
        reading := world.Battery();
      }
      level := reading;
      planned := SelectTier(reading, tier, cfg.hysteresis);
      tier := Some(planned);
    }

    /** A pause that keeps the watchdog fed, however long it is. */
    method Wait(duration: real)
      requires Ready() && world.pings != []
      requires Regular(world.pings, MaxGap(cfg, world.bounds))
      requires SincePing(world.pings, world.now) <= MaxGap(cfg, world.bounds)
      modifies world`now, world`workers, world`pings, world`willing
      ensures AllEvolve(old(world.workers), world.workers, old(world.now), world.now) && old(world.now) <= world.now
      ensures world.pings != [] && Regular(world.pings, MaxGap(cfg, world.bounds))
      ensures (world.pings == old(world.pings) && world.now == old(world.now)) ||
              SincePing(world.pings, world.now) <= Watching(cfg, world.bounds)
      ensures world.willing <= old(world.willing)
      ensures world.now >= old(world.now) + duration || world.willing == 0
      ensures world.now <= old(world.now) + MaxReal(0.0, duration) + Watching(cfg, world.bounds)
    {
      var end := world.now + duration;
      var go := world.ShouldContinue();
      while go && world.now < end
        invariant world.pings != [] && Regular(world.pings, MaxGap(cfg, world.bounds))
        invariant SincePing(world.pings, world.now) <= MaxGap(cfg, world.bounds)
        invariant (world.pings == old(world.pings) && world.now == old(world.now)) ||
                  SincePing(world.pings, world.now) <= Watching(cfg, world.bounds)
        invariant AllEvolve(old(world.workers), world.workers, old(world.now), world.now) && old(world.now) <= world.now
        invariant world.willing <= old(world.willing)
        invariant !go ==> world.willing == 0
        invariant world.now <= old(world.now) + MaxReal(0.0, duration) + Watching(cfg, world.bounds)
        decreases world.willing, go
      {
        world.Notify();
        world.Sleep(cfg.tick);
        go := world.ShouldContinue();
      }
    }

    /** SIGKILL, reap, then make the host drop the link the frozen worker still holds. */
    method Kill(worker: nat)
      requires Ready() && worker < |world.workers|
      modifies world`now, world`workers, world`log
      ensures old(world.now) <= world.now <= old(world.now) + Stopping(world.bounds)
      ensures AllEvolve(old(world.workers), world.workers, old(world.now), world.now)
      ensures !world.workers[worker].alive
      ensures BeatOnlyAt(old(world.workers)[worker], world.workers[worker], old(world.now))
      ensures world.log == old(world.log) + [Killed(worker, old(world.now))] + [Disconnected]
    {
      ghost var w0, t0 := world.workers, world.now;
      world.Kill(worker);
      ghost var w1, t1 := world.workers, world.now;
      world.Join(worker);
      EvolveOn(w0, w1, world.workers, t0, t1, world.now);
      ghost var w2, t2 := world.workers, world.now;
      world.Disconnect();
      EvolveOn(w0, w2, world.workers, t0, t2, world.now);
      assert Evolves(w1[worker], w2[worker], t1, t2) && Evolves(w2[worker], world.workers[worker], t2, world.now);
    }

    /** One turn of the watch: feed the watchdog, sleep a tick, then read the worker. */
    method Look(worker: nat, onWindow: Option<real>, start: real) returns (look: Glimpse)
      requires Ready() && worker < |world.workers|
      requires world.pings != [] && Regular(world.pings, MaxGap(cfg, world.bounds))
      requires SincePing(world.pings, world.now) <= MaxGap(cfg, world.bounds)
      modifies world`now, world`workers, world`pings
      ensures world.pings != [] && Regular(world.pings, MaxGap(cfg, world.bounds))
      ensures SincePing(world.pings, world.now) <= Watching(cfg, world.bounds)
      ensures old(world.now) + cfg.tick <= world.now <= old(world.now) + Watching(cfg, world.bounds)
      ensures AllEvolve(old(world.workers), world.workers, old(world.now), world.now)
      ensures look.TimeIsUp? ==>
                onWindow.Some? && world.workers[worker].beats > 0 && world.now - start > onWindow.value
      ensures onWindow.Some? && old(world.workers)[worker].beats > 0 && world.now - start > onWindow.value ==>
                look.TimeIsUp?
      ensures !old(world.workers)[worker].alive ==> !look.Seen?
      ensures look.Seen? ==> world.workers[worker].alive || world.workers[worker].diedAt == world.now
      ensures look.Seen? && onWindow.Some? && world.workers[worker].beats > 0 ==>
                world.now - start <= onWindow.value || world.workers[worker].firstBeat >= world.now
      ensures look.Gone? ==> !world.workers[worker].alive
      ensures look.Gone? ==> (look.productive <==> world.workers[worker].beats > 0)
      ensures look.Seen? ==> look.beats == world.workers[worker].beats
    {
      ghost var w0, t0 := world.workers, world.now;
      world.Notify();
      world.Sleep(cfg.tick);
      ghost var w1, t1 := world.workers, world.now;
      if onWindow.Some? {
        var connected := world.Beats(worker);
        EvolveOn(w0, w1, world.workers, t0, t1, t1);
        if connected > 0 && world.now - start > onWindow.value {
          return TimeIsUp;
        }
      }
      ghost var w2 := world.workers;
      assert Evolves(w0[worker], w2[worker], t0, t1);
      var alive := world.IsAlive(worker);
      EvolveOn(w0, w2, world.workers, t0, t1, t1);
      ghost var w3 := world.workers;
      assert Evolves(w2[worker], w3[worker], t1, t1);
      var beats := world.Beats(worker);
      EvolveOn(w0, w3, world.workers, t0, t1, t1);
      assert Evolves(w3[worker], world.workers[worker], t1, t1);
      return if alive then Seen(beats) else Gone(beats > 0);
    }

    /** The kill of a worker that has stood still past its grace. */
    method KillFrozen(worker: nat, beats: nat, ghost lastProgress: real) returns (ghost verdict: Verdict)
      requires Ready() && worker < |world.workers| && world.workers[worker].beats == beats
      requires Grace(cfg, beats) < world.now - lastProgress <= Patience(cfg, world.bounds, beats)
      requires lastProgress - Watching(cfg, world.bounds) <= world.workers[worker].lastBeat <= lastProgress
      modifies world`now, world`workers, world`log
      ensures old(world.now) <= world.now <= old(world.now) + Stopping(world.bounds)
      ensures AllEvolve(old(world.workers), world.workers, old(world.now), world.now)
      ensures !world.workers[worker].alive
      ensures verdict.Frozen? && verdict.seen == beats && verdict.at == old(world.now)
      ensures SeenOrLate(verdict, world.workers[worker])
      ensures KilledFrozen(cfg, world.bounds, worker, verdict, old(world.log), world.log)
    {
      ghost var w0, t0 := world.workers[worker], world.now;
      verdict := Frozen(beats, lastProgress, t0, w0.lastBeat);
      Kill(worker);
      assert Evolves(w0, world.workers[worker], t0, world.now);
    }

    /** One turn of the watch, from the ping to what is made of the look; at the end, whether it was productive. */
    method WatchOnce(worker: nat, onWindow: Option<real>, start: real, lastBeats: nat, lastProgress: real,
                     ghost turns: nat, ghost quiet: nat)
      returns (ended: Option<bool>, beats: nat, progress: real, ghost verdict: Verdict, ghost silent: nat)
      requires Ready() && world.pings != [] && worker < |world.workers|
      requires Regular(world.pings, MaxGap(cfg, world.bounds))
      requires SincePing(world.pings, world.now) <= MaxGap(cfg, world.bounds)
      requires Tracks(cfg, world.bounds, world.workers[worker], lastBeats, lastProgress, world.now)
      requires Paced(cfg, turns, quiet, lastBeats, world.now - lastProgress)
      requires Watched(cfg, onWindow, world.workers[worker], start, lastBeats, lastProgress, world.now)
      modifies world`now, world`workers, world`pings, world`log
      ensures AllEvolve(old(world.workers), world.workers, old(world.now), world.now) && old(world.now) <= world.now
      ensures world.pings != [] && Regular(world.pings, MaxGap(cfg, world.bounds))
      ensures SincePing(world.pings, world.now) <=
                Watching(cfg, world.bounds) + if ended.Some? && verdict.Frozen? then Stopping(world.bounds) else 0.0
      ensures ended.None? ==>
                && world.log == old(world.log)
                && Tracks(cfg, world.bounds, world.workers[worker], beats, progress, world.now)
                && Paced(cfg, turns + 1, silent, beats, world.now - progress)
                && Watched(cfg, onWindow, world.workers[worker], start, beats, progress, world.now)
      ensures ended.Some? ==>
                && InTime(cfg, world.bounds, onWindow, world.workers[worker], verdict.at) && verdict.at <= world.now
                && Because(cfg, world.bounds, onWindow, world.workers[worker], verdict)
      ensures ended.Some? ==>
                && Concluded(cfg, world.bounds, worker, ended.value, verdict, world.workers[worker], world.now,
                             old(world.log), world.log, turns + 1)
                && !verdict.StopAsked?
    {
      ghost var w0, t0 := world.workers, world.now;
      beats, progress, silent := lastBeats, lastProgress, quiet + 1;
      var look := Look(worker, onWindow, start);
      Tracking(cfg, world.bounds, w0[worker], world.workers[worker], lastProgress, t0, world.now);
      OneMoreTurn(cfg, turns, quiet, lastBeats, t0 - lastProgress, world.now - lastProgress,
                  world.workers[worker].beats);
      NextLookIsInTime(cfg, world.bounds, onWindow, w0[worker], world.workers[worker], world.workers[worker],
                       start, lastBeats, lastProgress, t0, world.now, world.now);
      match look {
        case TimeIsUp =>
          ended, verdict := Some(true), WindowOver(world.now);
        case Gone(connected) =>
          ended, verdict := Some(connected), Exited(world.now);
        case Seen(seen) =>
          ended, verdict := None, StopAsked(world.now);
          StillWatched(cfg, onWindow, w0[worker], world.workers[worker], start, lastBeats, lastProgress, t0, world.now);
          if seen > lastBeats {
            beats, progress, silent := seen, world.now, 0;
          } else {
            var grace := if seen > 0 then cfg.aliveTimeout else cfg.connectGrace;
            if world.now - lastProgress > grace {
              ghost var w1, t1 := world.workers, world.now;
              verdict := KillFrozen(worker, seen, lastProgress);
              NextLookIsInTime(cfg, world.bounds, onWindow, w0[worker], w1[worker], world.workers[worker],
                               start, lastBeats, lastProgress, t0, t1, world.now);
              EvolveOn(w0, w1, world.workers, t0, t1, world.now);
              ended := Some(seen > 0);
            }
          }
      }
    }

    /**
     Watches one worker until it exits, freezes, has had its window, or a stop is asked for.
     A worker is killed as frozen only if, when last looked at, it had stood still for longer than its
     grace; no live worker is left standing still for longer than its grace and one tick past the last
     progress seen; the watch takes no more turns than the heartbeats seen and the grace allow; and it
     ends in time, with the window once a heartbeat was seen, and with the worker.
     */
    method Supervise(worker: nat, onWindow: Option<real>)
      returns (productive: bool, ghost verdict: Verdict, ghost turns: nat)
      requires Ready() && world.pings != [] && worker < |world.workers|
      requires Regular(world.pings, MaxGap(cfg, world.bounds))
      requires SincePing(world.pings, world.now) <= MaxGap(cfg, world.bounds)
      requires world.workers[worker] == Newborn(world.now)
      modifies world`now, world`workers, world`pings, world`willing, world`log
      ensures AllEvolve(old(world.workers), world.workers, old(world.now), world.now) && old(world.now) <= world.now
      ensures Concluded(cfg, world.bounds, worker, productive, verdict, world.workers[worker], world.now,
                        old(world.log), world.log, turns)
      ensures InTime(cfg, world.bounds, onWindow, world.workers[worker], verdict.at) && verdict.at <= world.now
      ensures Because(cfg, world.bounds, onWindow, world.workers[worker], verdict)
      ensures verdict.StopAsked? ==> world.willing == 0
      ensures world.pings != [] && Regular(world.pings, MaxGap(cfg, world.bounds))
      ensures world.willing == 0 ||
              SincePing(world.pings, world.now) <=
                Watching(cfg, world.bounds) + (if verdict.Frozen? then Stopping(world.bounds) else 0.0)
      ensures world.willing <= old(world.willing)
    {
      var lastBeats := world.Beats(worker);
      var lastProgress := world.now;
      var start := world.now;
      ghost var w0, quiet := old(world.workers), 0;
      turns := 0;
      var go := world.ShouldContinue();
      while go
        invariant AllEvolve(w0, world.workers, start, world.now)
        invariant world.pings != [] && Regular(world.pings, MaxGap(cfg, world.bounds))
        invariant SincePing(world.pings, world.now) <= MaxGap(cfg, world.bounds)
        invariant world.log == old(world.log) && world.willing <= old(world.willing)
        invariant Tracks(cfg, world.bounds, world.workers[worker], lastBeats, lastProgress, world.now)
        invariant Paced(cfg, turns, quiet, lastBeats, world.now - lastProgress)
        invariant Watched(cfg, onWindow, world.workers[worker], start, lastBeats, lastProgress, world.now)
        invariant !go ==> world.willing == 0
        decreases world.willing, go
      {
        ghost var w1, t1 := world.workers, world.now;
        var ended;
        ended, lastBeats, lastProgress, verdict, quiet :=
          WatchOnce(worker, onWindow, start, lastBeats, lastProgress, turns, quiet);
        EvolveOn(w0, w1, world.workers, start, t1, world.now);
        turns := turns + 1;
        if ended.Some? {
          return ended.value, verdict, turns;
        }
        go := world.ShouldContinue();
      }
      ghost var w2, t2 := world.workers, world.now;
      var last := world.Beats(worker);
      EvolveOn(w0, w2, world.workers, start, t2, world.now);
      StopConcludes(cfg, world.bounds, worker, w2[worker], world.workers[worker], lastProgress, t2,
                    world.log, turns, quiet);
      NextLookIsInTime(cfg, world.bounds, onWindow, w2[worker], world.workers[worker], world.workers[worker],
                       start, lastBeats, lastProgress, t2, t2, t2);
      return last > 0, StopAsked(world.now), turns;
    }

    method StopWorker(worker: nat) returns (ghost killed: bool)
      requires Ready() && worker < |world.workers|
      modifies world`now, world`workers, world`log
      ensures AllEvolve(old(world.workers), world.workers, old(world.now), world.now) && old(world.now) <= world.now
      ensures !world.workers[worker].alive
      ensures BeatOnlyAt(old(world.workers)[worker], world.workers[worker], old(world.now))
      ensures killed ==> old(world.workers)[worker].alive
      ensures world.now <= old(world.now) + if killed then Stopping(world.bounds) else 0.0
      ensures !killed ==> world.log == old(world.log)
      ensures Launches(world.log) == Launches(old(world.log))
      ensures killed && StageOf(old(world.log), cfg.hasStore) == Serving(worker) ==>
                StageOf(world.log, cfg.hasStore) == Released(worker)
    {
      var alive := world.IsAlive(worker);
      if alive {
        ghost var w1, t1, l1 := world.workers, world.now, world.log;
        Kill(worker);
        EvolveOn(old(world.workers), w1, world.workers, t1, t1, world.now);
        assert Evolves(old(world.workers)[worker], w1[worker], t1, t1);
        assert Evolves(w1[worker], world.workers[worker], t1, world.now);
        KillOnTheLog(l1, world.log[|l1|], cfg.hasStore);
        return true;
      }
      return false;
    }

    /** Before a spawn: a link still held from the session before is dropped, and given time to settle. */
    method ReconcileBle()
      requires Ready()
      modifies world`now, world`workers, world`log, world`linkHeld
      ensures AllEvolve(old(world.workers), world.workers, old(world.now), world.now)
      ensures old(world.now) <= world.now
           <= old(world.now) + world.bounds.status + world.bounds.disconnect + cfg.bleSettle + world.bounds.overrun
      ensures world.log == old(world.log) + if cfg.bleReconcile && world.linkHeld then [Disconnected] else []
      ensures cfg.bleReconcile && world.linkHeld ==> world.now >= old(world.now) + cfg.bleSettle
    {
      assert old(world.log) == old(world.log) + [];
      if !cfg.bleReconcile {
        return;
      }
      ghost var w0, t0 := world.workers, world.now;
      var connected := world.BleConnected();
      if connected {
        ghost var w1, t1 := world.workers, world.now;
        world.Disconnect();
        EvolveOn(w0, w1, world.workers, t0, t1, world.now);
        ghost var w2, t2 := world.workers, world.now;
        world.Sleep(cfg.bleSettle);
        EvolveOn(w0, w2, world.workers, t0, t2, world.now);
      }
    }

    /** Plans the tier and clears the link; no worker is alive meanwhile. */
    method Prepare() returns (planned: Tier, ghost level: Option<real>)
      requires Ready() && NoneAlive(world.workers)
      requires StageOf(world.log, cfg.hasStore) == Idle(|world.workers|)
      modifies this`tier, world`now, world`workers, world`readings, world`log, world`linkHeld
      ensures world.readings == old(world.readings) + if ReadsBattery(cfg) then [level] else []
      ensures !ReadsBattery(cfg) ==> level == None
      ensures world.workers == old(world.workers)
      ensures StageOf(world.log, cfg.hasStore) in {Idle(|world.workers|), Cleared(|world.workers|)}
      ensures Launches(world.log) == Launches(old(world.log))
      ensures old(world.now) <= world.now <= old(world.now) + Starting(cfg, world.bounds) - world.bounds.spawn
      ensures planned == if cfg.batteryTiers then SelectTier(level, old(tier), cfg.hysteresis) else StaticTier(cfg)
      ensures tier == if cfg.batteryTiers then Some(planned) else old(tier)
    {
      ghost var w0, t0 := world.workers, world.now;
      planned, level := PlanTier();
      DeadStaySame(w0, world.workers, t0, world.now);
      assert world.log + [] == world.log;
      StageAppend(world.log, Disconnected, cfg.hasStore);
      LaunchesAppend(world.log, Disconnected);
      ghost var t1 := world.now;
      ReconcileBle();
      DeadStaySame(w0, world.workers, t1, world.now);
    }

    /** Spawns a worker and lets the API reach it. */
    method Launch(interval: real, forced: bool) returns (worker: nat)
      requires Ready() && NoneAlive(world.workers)
      requires StageOf(world.log, cfg.hasStore) in {Idle(|world.workers|), Cleared(|world.workers|)}
      modifies this`current, world`now, world`workers, world`log
      ensures worker == |old(world.workers)| && |world.workers| == worker + 1
      ensures world.workers[..worker] == old(world.workers)
      ensures world.workers[worker] == Newborn(world.now)
      ensures StageOf(world.log, cfg.hasStore) == Serving(worker) && current == Some(worker)
      ensures Launches(world.log) == Launches(old(world.log)) + [(interval, forced)]
      ensures old(world.now) <= world.now <= old(world.now) + world.bounds.spawn
    {
      ghost var l0, n, w0, t0 := world.log, |world.workers|, world.workers, world.now;
      StageAppend(l0, Spawned(n, interval, forced, false), cfg.hasStore);
      LaunchesAppend(l0, Spawned(n, interval, forced, false));
      worker := world.Spawn(interval, forced);
      DeadStaySame(w0, world.workers[..worker], t0, world.now);
      StageAppend(world.log, Exposed(worker), cfg.hasStore);
      LaunchesAppend(world.log, Exposed(worker));
      SetCurrent(Some(worker));
    }

    /** `_stop_worker`, then the API loses sight of the worker. */
    method Finish(worker: nat)
      requires Ready() && worker < |world.workers|
      requires StageOf(world.log, cfg.hasStore) == Serving(worker) ||
               (StageOf(world.log, cfg.hasStore) == Released(worker) && !world.workers[worker].alive)
      modifies this`current, world`now, world`workers, world`log
      ensures AllEvolve(old(world.workers), world.workers, old(world.now), world.now)
      ensures !world.workers[worker].alive && current == None
      ensures BeatOnlyAt(old(world.workers)[worker], world.workers[worker], old(world.now))
      ensures StageOf(world.log, cfg.hasStore) == if cfg.hasStore then Ended(worker) else Idle(worker + 1)
      ensures Launches(world.log) == Launches(old(world.log))
      ensures old(world.now) <= world.now
           <= old(world.now) + if old(world.workers)[worker].alive then Stopping(world.bounds) else 0.0
    {
      ghost var killed := StopWorker(worker);
      StageAppend(world.log, Hidden, cfg.hasStore);
      LaunchesAppend(world.log, Hidden);
      SetCurrent(None);
    }

    // ----- Whole runs -----

    /** What a run keeps about the sessions that are over. */
    ghost predicate Consistent(past: seq<Session>) {
      BackoffOk(cfg, past) && AnnouncedOk(cfg, past) && TiersOk(cfg, past)
    }

    /** The supervisor and its world between two sessions, the last ping being at most `gap` old. */
    ghost predicate Steady(history: seq<Session>, gap: real)
      reads `current, `tier, `announcedTier, world
    {
      && Ready()
      && |world.workers| == |history| && NoneAlive(world.workers)
      && AllAttested(cfg, world.bounds, history, world.workers)
      && StageOf(world.log, cfg.hasStore) == Idle(|history|)
      && Launches(world.log) == Started(history)
      && current == None
      && world.readings == Levels(cfg, history)
      && announcedTier == (if cfg.batteryTiers then LastProductive(history) else None)
      && (cfg.batteryTiers ==> tier == LastTier(history))
      && world.pings != [] && Regular(world.pings, MaxGap(cfg, world.bounds))
      && SincePing(world.pings, world.now) <= gap
    }

    /** What a run knows at the head of its loop. */
    ghost predicate Between(history: seq<Session>, delay: real, gap: real)
      reads `current, `tier, `announcedTier, world
    {
      Steady(history, gap) && Consistent(history) && delay == Delay(cfg, Streak(history))
    }

    /** A session consistent with those before it. */
    ghost predicate Follows(past: seq<Session>, s: Session) {
      BackoffFollows(cfg, past, s) && AnnouncedFollows(cfg, past, s) && TierFollows(cfg, past, s)
    }

    lemma RecordOneMore(past: seq<Session>, s: Session)
      requires Consistent(past) && Follows(past, s)
      ensures Consistent(past + [s])
      ensures Started(past + [s]) == Started(past) + [(s.monitorInterval, s.forced)]
      ensures Levels(cfg, past + [s]) == Levels(cfg, past) + if ReadsBattery(cfg) then [s.level] else []
    {
      OneMoreBackoff(cfg, past, s);
      OneMoreAnnounced(cfg, past, s);
      OneMoreTier(cfg, past, s);
      assert Started(past + [s]) == Started(past) + [(s.monitorInterval, s.forced)];
    }

    function BackoffAfter(productive: bool, delay: real): real {
      if productive then cfg.reconnectDelay else delay
    }

    /** The session and its pause together continue the history, and the next delay is the closed form's. */
    lemma Paused(past: seq<Session>, served: Session, delay: real, pause: Pause, next: real)
      requires Sleepable(cfg) && Consistent(past) && Follows(past, served) && delay == Delay(cfg, Streak(past))
      requires if served.tier.dutyCycle then pause.DutyOff?
               else pause.Backoff? && pause.seconds == BackoffAfter(served.productive, delay) <= pause.lasted
      requires next == if served.tier.dutyCycle then delay else MinReal(pause.seconds * 2.0, cfg.maxReconnectDelay)
      ensures var s := served.(pause := pause);
              && Consistent(past + [s])
              && Started(past + [s]) == Started(past) + [(s.monitorInterval, s.forced)]
              && Levels(cfg, past + [s]) == Levels(cfg, past) + (if ReadsBattery(cfg) then [s.level] else [])
              && LastTier(past + [s]) == Some(s.tier)
              && LastProductive(past + [s]) == (if s.productive then Some(s.tier) else LastProductive(past))
              && next == Delay(cfg, Streak(past + [s]))
    {
      var s := served.(pause := pause);
      RecordOneMore(past, s);
      StreakAppend(cfg, past, s);
    }

    /** `_supervise`, seen beside the earlier workers and from the log. */
    method Oversee(worker: nat, onWindow: Option<real>) returns (productive: bool, ghost verdict: Verdict)
      requires Ready() && world.pings != [] && |world.workers| == worker + 1
      requires NoneAlive(world.workers[..worker]) && world.workers[worker] == Newborn(world.now)
      requires StageOf(world.log, cfg.hasStore) == Serving(worker)
      requires Regular(world.pings, MaxGap(cfg, world.bounds))
      requires SincePing(world.pings, world.now) <= MaxGap(cfg, world.bounds)
      modifies world`now, world`workers, world`pings, world`willing, world`log
      ensures |world.workers| == worker + 1 && world.workers[..worker] == old(world.workers)[..worker]
      ensures Told(productive, verdict.at, world.workers[worker]) && verdict.at <= world.now
      ensures !verdict.Frozen? ==> verdict.at == world.now
      ensures verdict.Frozen? ==> !world.workers[worker].alive
      ensures InTime(cfg, world.bounds, onWindow, world.workers[worker], verdict.at)
      ensures Because(cfg, world.bounds, onWindow, world.workers[worker], verdict)
      ensures verdict.StopAsked? ==> world.willing == 0
      ensures StageOf(world.log, cfg.hasStore) == if verdict.Frozen? then Released(worker) else Serving(worker)
      ensures Launches(world.log) == Launches(old(world.log))
      ensures world.pings != [] && Regular(world.pings, MaxGap(cfg, world.bounds))
      ensures world.willing == 0 ||
              SincePing(world.pings, world.now) <=
                Watching(cfg, world.bounds) + (if verdict.Frozen? then Stopping(world.bounds) else 0.0)
      ensures world.willing <= old(world.willing)
    {
      ghost var w0, t0, l0 := world.workers, world.now, world.log;
      ghost var turns;
      productive, verdict, turns := Supervise(worker, onWindow);
      DeadStayDead(w0, world.workers, t0, world.now);
      if verdict.Frozen? {
        KillOnTheLog(l0, Killed(worker, verdict.at), cfg.hasStore);
      }
    }

    /** `_supervise`, then `_stop_worker`: whatever the verdict, the worker is gone and so is its link. */
    method Attend(worker: nat, onWindow: Option<real>) returns (productive: bool, ghost verdict: Verdict)
      requires Ready() && world.pings != [] && |world.workers| == worker + 1
      requires NoneAlive(world.workers[..worker]) && world.workers[worker] == Newborn(world.now)
      requires StageOf(world.log, cfg.hasStore) == Serving(worker)
      requires Regular(world.pings, MaxGap(cfg, world.bounds))
      requires SincePing(world.pings, world.now) <= MaxGap(cfg, world.bounds)
      modifies this`current, world`now, world`workers, world`pings, world`willing, world`log
      ensures |world.workers| == worker + 1 && NoneAlive(world.workers) && current == None
      ensures world.workers[..worker] == old(world.workers)[..worker]
      ensures Told(productive, verdict.at, world.workers[worker])
      ensures InTime(cfg, world.bounds, onWindow, world.workers[worker], verdict.at)
      ensures Because(cfg, world.bounds, onWindow, world.workers[worker], verdict)
      ensures verdict.StopAsked? ==> world.willing == 0
      ensures StageOf(world.log, cfg.hasStore) == if cfg.hasStore then Ended(worker) else Idle(worker + 1)
      ensures Launches(world.log) == Launches(old(world.log))
      ensures world.pings != [] && Regular(world.pings, MaxGap(cfg, world.bounds))
      ensures world.willing == 0 ||
              SincePing(world.pings, world.now) <= Watching(cfg, world.bounds) + Stopping(world.bounds)
      ensures world.willing <= old(world.willing)
    {
      productive, verdict := Oversee(worker, onWindow);
      ghost var w1, t1 := world.workers, world.now;
      Finish(worker);
      assert Evolves(w1[worker], world.workers[worker], t1, world.now);
      EndStands(cfg, world.bounds, onWindow, w1[worker], world.workers[worker], verdict, t1, world.now);
      DeadStayDead(w1, world.workers, t1, world.now);
    }

    /** The state once a session has begun. */
    ghost predicate Opened(planned: Tier, announce: bool, worker: nat, level: Option<real>, interval: real)
      reads this, world
    {
      var forced := cfg.forceTelemetry || announce;
      && Ready() && worker == |history| && |world.workers| == worker + 1
      && NoneAlive(world.workers[..worker]) && AllAttested(cfg, world.bounds, history, world.workers[..worker])
      && world.workers[worker] == Newborn(world.now)
      && StageOf(world.log, cfg.hasStore) == Serving(worker)
      && Launches(world.log) == Started(history) + [(interval, forced)]
      && world.readings == Levels(cfg, history) + (if ReadsBattery(cfg) then [level] else [])
      && TierFollows(cfg, history, Session(level, planned, interval, forced, false, StopAsked(0.0), Stopped))
      && (cfg.batteryTiers ==> tier == Some(planned))
      && announcedTier == (if cfg.batteryTiers then LastProductive(history) else None)
      && announce == (cfg.batteryTiers && Some(planned) != announcedTier)
      && world.pings != [] && Regular(world.pings, MaxGap(cfg, world.bounds))
      && SincePing(world.pings, world.now) <= MaxGap(cfg, world.bounds)
    }

    /** Opens a session: its tier, whether to announce it, and a worker that the API can reach. */
    method Open(ghost gap: real)
      returns (planned: Tier, announce: bool, worker: nat, ghost level: Option<real>, ghost interval: real)
      requires Steady(history, gap) && gap + Starting(cfg, world.bounds) <= MaxGap(cfg, world.bounds)
      modifies this`tier, this`current, world`now, world`workers, world`readings, world`log, world`linkHeld
      ensures Opened(planned, announce, worker, level, interval)
    {
      ghost var w0 := world.workers;
      planned, level := Prepare();
      announce := cfg.batteryTiers && Some(planned) != announcedTier;
      var seconds := if planned.monitorInterval.Some? then planned.monitorInterval.value else cfg.dutyOn;
      worker := Launch(seconds, cfg.forceTelemetry || announce);
      interval := seconds;
      assert world.workers[..worker] == w0;
      assert SincePing(world.pings, world.now) <= gap + Starting(cfg, world.bounds);
      assert Launches(world.log) == Started(history) + [(interval, cfg.forceTelemetry || announce)];
      assert AllAttested(cfg, world.bounds, history, world.workers[..worker]);
      assert TierFollows(cfg, history, Session(level, planned, interval, cfg.forceTelemetry || announce, false,
                                               StopAsked(0.0), Stopped));
    }

    /** The state once a session is over and its worker gone, the history not yet holding it. */
    ghost predicate Served(s: Session)
      reads this, world
    {
      && ServedUpTo(s, if cfg.hasStore then Ended(|history|) else Idle(|history| + 1))
      && (world.willing == 0 ||
          SincePing(world.pings, world.now) <= Watching(cfg, world.bounds) + Stopping(world.bounds))
    }

    /** The same, the log having got to some stage. */
    ghost predicate ServedUpTo(s: Session, stage: Stage)
      reads this, world
    {
      && Ready()
      && |world.workers| == |history| + 1 && NoneAlive(world.workers) && current == None
      && AllAttested(cfg, world.bounds, history + [s], world.workers)
      && StageOf(world.log, cfg.hasStore) == stage
      && Launches(world.log) == Started(history) + [(s.monitorInterval, s.forced)]
      && world.readings == Levels(cfg, history) + (if ReadsBattery(cfg) then [s.level] else [])
      && Follows(history, s) && s.pause == Stopped && (s.ended.StopAsked? ==> world.willing == 0)
      && (cfg.batteryTiers ==> tier == Some(s.tier))
      && announcedTier ==
           (if !cfg.batteryTiers then None else if s.productive then Some(s.tier) else LastProductive(history))
      && world.pings != [] && Regular(world.pings, MaxGap(cfg, world.bounds))
    }

    /** Holds the session until its worker is gone, and remembers the tier that was announced. */
    method Hold(planned: Tier, announce: bool, worker: nat, ghost level: Option<real>, ghost interval: real)
      returns (productive: bool, ghost s: Session)
      requires Opened(planned, announce, worker, level, interval)
      modifies this`current, this`announcedTier, world`now, world`workers, world`pings, world`willing, world`log
      ensures Served(s) && s.tier == planned && s.productive == productive
      ensures world.willing <= old(world.willing)
    {
      ghost var w0, verdict := world.workers[..worker], StopAsked(0.0);
      productive, verdict := Attend(worker, if planned.dutyCycle then Some(cfg.dutyOn) else None);
      if productive && announce {
        announcedTier := Some(planned);
      }
      s := Session(level, planned, interval, cfg.forceTelemetry || announce, productive, verdict, Stopped);
      OneMoreAttested(cfg, world.bounds, history, s, w0, world.workers);
    }

    /** One session, from its tier to its end; it is the candidate for the history that `s` describes. */
    method Serve(ghost gap: real) returns (planned: Tier, productive: bool, ghost s: Session)
      requires Steady(history, gap) && gap + Starting(cfg, world.bounds) <= MaxGap(cfg, world.bounds)
      modifies this`tier, this`current, this`announcedTier,
               world`now, world`workers, world`pings, world`willing, world`readings, world`log, world`linkHeld
      ensures Served(s) && s.tier == planned && s.productive == productive
      ensures world.willing <= old(world.willing)
    {
      var announce, worker;
      ghost var level, interval;
      planned, announce, worker, level, interval := Open(gap);
      productive, s := Hold(planned, announce, worker, level, interval);
    }

    /** The reconnection goes on the timeline, when there is a store to write it to. */
    method RecordLink(reconnects: nat)
      requires Ready() && NoneAlive(world.workers)
      requires reconnects > 0
      requires StageOf(world.log, cfg.hasStore) == if cfg.hasStore then Ended(reconnects - 1) else Idle(reconnects)
      modifies world`now, world`workers, world`log
      ensures world.workers == old(world.workers)
      ensures StageOf(world.log, cfg.hasStore) == Idle(reconnects)
      ensures Launches(world.log) == Launches(old(world.log))
      ensures old(world.now) <= world.now <= old(world.now) + world.bounds.link
    {
      if cfg.hasStore {
        StageAppend(world.log, Linked(reconnects), cfg.hasStore);
        LaunchesAppend(world.log, Linked(reconnects));
        ghost var w0, t0 := world.workers, world.now;
        world.RecordLink(reconnects);
        DeadStaySame(w0, world.workers, t0, world.now);
      }
    }

    /** The pause after a session: a duty-cycle wait, or the backoff; returns the delay to use next. */
    method Rest(dutyCycle: bool, productive: bool, delay: real) returns (next: real, ghost pause: Pause)
      requires Ready() && world.pings != [] && NoneAlive(world.workers)
      requires 0.0 <= delay <= MaxReal(cfg.reconnectDelay, cfg.maxReconnectDelay)
      requires Regular(world.pings, MaxGap(cfg, world.bounds))
      requires SincePing(world.pings, world.now) <=
                 Watching(cfg, world.bounds) + Stopping(world.bounds) + world.bounds.link
      modifies world`now, world`workers, world`pings, world`willing
      ensures world.workers == old(world.workers)
      ensures world.pings != [] && Regular(world.pings, MaxGap(cfg, world.bounds))
      ensures SincePing(world.pings, world.now) + Starting(cfg, world.bounds) <= MaxGap(cfg, world.bounds)
      ensures world.willing <= old(world.willing)
      ensures if dutyCycle then pause.DutyOff? && (pause.lasted >= cfg.dutyOff || world.willing == 0)
              else pause.Backoff? && pause.seconds == BackoffAfter(productive, delay) <= pause.lasted
      ensures !pause.Stopped? && pause.lasted == world.now - old(world.now)
      ensures NotTooLong(cfg, world.bounds, pause)
      ensures next == if dutyCycle then delay else MinReal(pause.seconds * 2.0, cfg.maxReconnectDelay)
    {
      ghost var w0, t0 := world.workers, world.now;
      if dutyCycle {
        Wait(cfg.dutyOff);
        DeadStaySame(w0, world.workers, t0, world.now);
        return delay, DutyOff(world.now - old(world.now));
      }
      var d := if productive then cfg.reconnectDelay else delay;
      world.Sleep(d);
      DeadStaySame(w0, world.workers, t0, world.now);
      return MinReal(d * 2.0, cfg.maxReconnectDelay), Backoff(d, world.now - old(world.now));
    }

    /** The pause after a session that is on the timeline; with it, the history goes on. */
    method Recover(planned: Tier, productive: bool, delay: real, ghost served: Session)
      returns (next: real, ghost s: Session)
      requires ServedUpTo(served, Idle(|history| + 1)) && served.tier == planned && served.productive == productive
      requires SincePing(world.pings, world.now) <=
                 Watching(cfg, world.bounds) + Stopping(world.bounds) + world.bounds.link
      requires Consistent(history) && delay == Delay(cfg, Streak(history))
      modifies world`now, world`workers, world`pings, world`willing
      ensures Between(history + [s], next, MaxGap(cfg, world.bounds) - Starting(cfg, world.bounds))
      ensures Whole(cfg, s) || world.willing == 0
      ensures world.willing <= old(world.willing)
    {
      NextDelay(cfg, Streak(history));
      ghost var pause;
      next, pause := Rest(planned.dutyCycle, productive, delay);
      s := served.(pause := pause);
      Paused(history, served, delay, pause, next);
      PauseAttested(cfg, world.bounds, history, served, pause, world.workers);
    }

    /** After a session that another one may follow: the timeline, then the pause. */
    method Continue(planned: Tier, productive: bool, delay: real, reconnects: nat, ghost served: Session)
      returns (next: real, ghost s: Session)
      requires Served(served) && served.tier == planned && served.productive == productive
      requires SincePing(world.pings, world.now) <= Watching(cfg, world.bounds) + Stopping(world.bounds)
      requires Consistent(history) && delay == Delay(cfg, Streak(history)) && reconnects == |history| + 1
      modifies world`now, world`workers, world`pings, world`willing, world`log
      ensures Between(history + [s], next, MaxGap(cfg, world.bounds) - Starting(cfg, world.bounds))
      ensures Whole(cfg, s) || world.willing == 0
      ensures world.willing <= old(world.willing)
    {
      RecordLink(reconnects);
      next, s := Recover(planned, productive, delay, served);
    }

    /** The state a run ends in, and what it leaves behind. */
    ghost predicate Over()
      reads this, world
    {
      && |world.workers| == |history| && NoneAlive(world.workers) && current == None
      && AllAttested(cfg, world.bounds, history, world.workers)
      && (StageOf(world.log, cfg.hasStore) == Idle(|history|) ||
          (|history| > 0 && StageOf(world.log, cfg.hasStore) == Ended(|history| - 1)))
      && Launches(world.log) == Started(history) && world.readings == Levels(cfg, history)
      && Consistent(history) && AllButLastWhole(cfg, history)
      && Regular(world.pings, MaxGap(cfg, world.bounds))
    }

    /** The session just served is the last one. */
    ghost method Conclude(s: Session)
      requires Served(s) && Consistent(history) && AllWhole(cfg, history)
      modifies this`history
      ensures Over()
    {
      RecordOneMore(history, s);
      WholeAppend(cfg, history, s);
      history := history + [s];
    }

    /** One turn of the loop; `more` says whether another one may follow. */
    method Turn(delay: real, reconnects: nat, ghost gap: real) returns (more: bool, next: real)
      requires gap == MaxGap(cfg, world.bounds) - Starting(cfg, world.bounds)
      requires Between(history, delay, gap) && reconnects == |history| && AllWhole(cfg, history)
      modifies this, world`now, world`workers, world`pings, world`willing, world`readings, world`log, world`linkHeld
      ensures more ==> Between(history, next, gap) && |history| == reconnects + 1
      ensures more ==> AllButLastWhole(cfg, history) && (world.willing > 0 ==> AllWhole(cfg, history))
      ensures !more ==> Over()
      ensures world.willing <= old(world.willing)
    {
      var planned, productive;
      ghost var s;
      planned, productive, s := Serve(gap);
      more := world.ShouldContinue();
      if !more {
        Conclude(s);
        return false, delay;
      }
      next, s := Continue(planned, productive, delay, reconnects + 1, s);
      WholeAppend(cfg, history, s);
      history := history + [s];
    }

    /**
     The supervision loop. However the workers, the battery and the OS calls behave: the watchdog is
     never left hungry for longer than MaxGap; the log is one well-formed session after another, so no
     worker is spawned beside a live one and every kill is followed by one disconnect; the backoffs
     follow the closed form and are slept in full; tiers follow from the readings; and telemetry is
     forced exactly when the tier was not announced yet.
     */
    method Run()
      requires Ready() && current == None && tier == None && announcedTier == None && history == []
      requires world.workers == [] && world.pings == [] && world.log == [] && world.readings == []
      modifies this, world`now, world`workers, world`pings, world`willing, world`readings, world`log, world`linkHeld
      ensures Over()
    {
      world.Notify();
      var delay := cfg.reconnectDelay;
      var reconnects := 0;
      ghost var gap := MaxGap(cfg, world.bounds) - Starting(cfg, world.bounds);
      var go := world.ShouldContinue();
      while go
        invariant Between(history, delay, gap) && reconnects == |history|
        invariant AllButLastWhole(cfg, history) && (go ==> AllWhole(cfg, history))
        decreases world.willing, go
      {
        var more, next := Turn(delay, reconnects, gap);
        if !more {
          return;
        }
        delay, reconnects := next, reconnects + 1;
        go := world.ShouldContinue();
      }
    }
  }
}
