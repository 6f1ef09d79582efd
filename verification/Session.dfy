/**
 One session of the worker: the poll loop that answers commands, lets the scheduler send, samples the
 node at its cadence and beats, and the flush that follows the loop when the session ends by itself.
 */
module Session {
  import opened Arithmetic
  import opened Options

  /** A drained command and what the link answered, nothing when the write raised. */
  datatype Handled = Handled(id: int, result: Option<string>)

  /** What one turn of the loop meets. */
  datatype Poll = Poll(
    go: bool,                // should_continue
    linkUp: bool,            // neither lost nor silently dead
    commands: seq<Handled>,
    auto: Option<string>,    // target chosen by the scheduler
    startRaises: bool,
    monitorRaises: bool)

  datatype Effect =
    | Replied(id: int, result: string)
    | TracerouteStarted(dest: string)
    | Monitored
    | Beat
    | Flushed

  // ----- Cadence -----

  /** Python's round: to the nearest integer, ties to the even one. */
  function Round(x: real): (n: int)
    ensures n as real - 0.5 <= x <= n as real + 0.5
    ensures (n as real - 0.5 == x || n as real + 0.5 == x) ==> n % 2 == 0
  {
    var f := x.Floor;
    if x - f as real < 0.5 then f
    else if x - f as real > 0.5 then f + 1
    else if f % 2 == 0 then f else f + 1
  }

  /** How many polls make one monitoring period; zero when monitoring is off. */
  function PollsPerMonitor(monitored: bool, monitorInterval: real, pollInterval: real): (n: nat)
    requires pollInterval > 0.0
    ensures n == 0 <==> !monitored || monitorInterval <= 0.0
  {
    if monitored && monitorInterval > 0.0 then
      var r := Round(monitorInterval / pollInterval);
      if r >= 1 then r else 1
    else 0
  }

  /** The period is the whole number of polls nearest to the interval asked for, one poll being the least. */
  lemma PeriodIsNearest(monitorInterval: real, pollInterval: real)
    requires pollInterval > 0.0 && monitorInterval > 0.0
    ensures var n := PollsPerMonitor(true, monitorInterval, pollInterval);
            && n as real * pollInterval - monitorInterval <= (if n == 1 then pollInterval else 0.5 * pollInterval)
            && monitorInterval - n as real * pollInterval <= 0.5 * pollInterval
  {
    var n := PollsPerMonitor(true, monitorInterval, pollInterval);
    var x := monitorInterval / pollInterval;
    assert x * pollInterval == monitorInterval;
    assert n == 1 || n as real - 0.5 <= x;
    assert x <= n as real + 0.5;
    Nearby(x, n as real, 0.5, pollInterval, monitorInterval);
  }

  /** A quotient close to a number is a product close to its multiple. */
  lemma Nearby(x: real, y: real, h: real, r: real, m: real)
    requires r > 0.0 && x * r == m
    ensures x <= y + h ==> m - y * r <= h * r
    ensures y - h <= x ==> y * r - m <= h * r
  {
    var up, down := y + h, y - h;
    Distribute(y, h, r);
    Distribute(down, h, r);
    assert up * r == y * r + h * r && down * r == y * r - h * r;
    if x <= up {
      ScaleLeq(x, up, r);
    }
    if down <= x {
      ScaleLeq(down, x, r);
    }
  }

  // ----- What a poll does -----

  /** Replies in order, up to the first command whose write raises. */
  function Replies(commands: seq<Handled>): seq<Effect> {
    if commands == [] || commands[0].result.None? then []
    else [Replied(commands[0].id, commands[0].result.value)] + Replies(commands[1..])
  }

  predicate AllAnswered(commands: seq<Handled>) {
    forall i :: 0 <= i < |commands| ==> commands[i].result.Some?
  }

  predicate Starts(p: Poll) {
    AllAnswered(p.commands) && (p.auto.Some? ==> !p.startRaises)
  }

  /** The poll of rank `k` samples the node when its rank is a multiple of the period. */
  predicate Samples(k: nat, period: nat) {
    period > 0 && k % period == 0
  }

  predicate Completes(p: Poll, k: nat, period: nat) {
    Starts(p) && (Samples(k, period) ==> !p.monitorRaises)
  }

  /** What follows the replies, as far as it gets. */
  function AfterReplies(p: Poll, k: nat, period: nat): (r: seq<Effect>)
    ensures forall i :: 0 <= i < |r| ==> !r[i].Replied?
  {
    (if p.auto.Some? && Starts(p) then [TracerouteStarted(p.auto.value)] else [])
    + (if Samples(k, period) && Completes(p, k, period) then [Monitored] else [])
    + (if Completes(p, k, period) then [Beat] else [])
  }

  function PollEffects(p: Poll, k: nat, period: nat): seq<Effect> {
    Replies(p.commands) + AfterReplies(p, k, period)
  }

  predicate Turns(p: Poll) {
    p.go && p.linkUp
  }

  /** The effects of the first polls, all of them completed. */
  function Effects(polls: seq<Poll>, period: nat): seq<Effect> {
    if polls == [] then []
    else Effects(polls[..|polls| - 1], period) + PollEffects(polls[|polls| - 1], |polls| - 1, period)
  }

  /** Answers the commands of one poll, one by one; stops at a write that raises. */
  method AnswerCommands(commands: seq<Handled>) returns (effects: seq<Effect>, ok: bool)
    ensures effects == Replies(commands)
    ensures ok <==> AllAnswered(commands)
  {
    effects, ok := [], true;
    var i := 0;
    while i < |commands|
      invariant 0 <= i <= |commands|
      invariant forall j :: 0 <= j < i ==> commands[j].result.Some?
      invariant Replies(commands) == effects + Replies(commands[i..])
    {
      if commands[i].result.None? {
        assert effects + Replies(commands[i..]) == effects;
        return effects, false;
      }
      var reply := Replied(commands[i].id, commands[i].result.value);
      assert commands[i..][1..] == commands[i + 1..];
      assert effects + Replies(commands[i..]) == (effects + [reply]) + Replies(commands[i + 1..]);
      effects := effects + [reply];
      i := i + 1;
    }
  }

  /** What the cadence counter and the first-sample flag stand for at the poll of rank `k`. */
  predicate Cadence(k: nat, period: nat, pollCount: nat, sampledOnce: bool) {
    period > 0 ==> (sampledOnce <==> k > 0) && (k > 0 ==> pollCount == (k - 1) % period + 1)
  }

  /** One turn of the loop, up to its heartbeat. */
  method TakePoll(p: Poll, period: nat, pollCount: nat, sampledOnce: bool, ghost k: nat)
    returns (effects: seq<Effect>, ok: bool, count: nat, sampled: bool)
    requires Cadence(k, period, pollCount, sampledOnce)
    ensures effects == PollEffects(p, k, period)
    ensures ok <==> Completes(p, k, period)
    ensures ok <==>
              && (forall i :: 0 <= i < |p.commands| ==> p.commands[i].result.Some?)
              && (p.auto.Some? ==> !p.startRaises)
              && (period > 0 && k % period == 0 ==> !p.monitorRaises)
    ensures ok ==> Cadence(k + 1, period, count, sampled)
  {
    count, sampled := pollCount, sampledOnce;
    effects, ok := AnswerCommands(p.commands);
    ghost var replies := effects;
    if !ok {
      assert effects == replies + AfterReplies(p, k, period);
      return;
    }
    if p.auto.Some? {
      if p.startRaises {
        ok := false;
        return;
      }
      effects := effects + [TracerouteStarted(p.auto.value)];
    }
    if period > 0 {
      NextSample(k, period);
      if !sampled || count >= period {
        count, sampled := 0, true;
        if p.monitorRaises {
          ok := false;
          return;
        }
        effects := effects + [Monitored];
      }
      count := count + 1;
    }
    effects := effects + [Beat];
    assert effects == replies + AfterReplies(p, k, period);
  }

  /**
   The session. The loop keeps its cadence with a counter that restarts and a first-sample flag; what
   it does is sample at ranks 0, p, 2p, ... A session that ends by itself flushes once, after the loop,
   when it was given a flush to call.
   */
  method RunSession(script: seq<Poll>, period: nat, flushes: bool)
    returns (effects: seq<Effect>, polls: nat, crashed: bool)
    ensures polls <= |script|
    ensures forall i :: 0 <= i < polls ==> Turns(script[i]) && Completes(script[i], i, period)
    ensures crashed ==>
              && polls < |script| && Turns(script[polls]) && !Completes(script[polls], polls, period)
              && effects == Effects(script[..polls], period) + PollEffects(script[polls], polls, period)
    ensures !crashed ==>
              && (polls == |script| || !Turns(script[polls]))
              && effects == Effects(script[..polls], period) + if flushes then [Flushed] else []
    ensures !crashed ==>
              && Targets(effects) == Autos(script[..polls]) && Answers(effects) == AllResults(script[..polls])
              && Count(effects, Beat) == polls && Count(effects, Flushed) == One(flushes)
  {
    effects, polls, crashed := [], 0, false;
    var pollCount, sampledOnce := 0, false;
    while polls < |script| && script[polls].go
      invariant 0 <= polls <= |script| && !crashed
      invariant forall i :: 0 <= i < polls ==> Turns(script[i]) && Completes(script[i], i, period)
      invariant effects == Effects(script[..polls], period)
      invariant Cadence(polls, period, pollCount, sampledOnce)
    {
      if !script[polls].linkUp {
        break;
      }
      assert script[..polls + 1][..polls] == script[..polls];
      var more, ok;
      more, ok, pollCount, sampledOnce := TakePoll(script[polls], period, pollCount, sampledOnce, polls);
      effects := effects + more;
      if !ok {
        crashed := true;
        return;
      }
      polls := polls + 1;
    }
    ghost var told := effects;
    if flushes {
      effects := effects + [Flushed];
    }
    assert effects == told + if flushes then [Flushed] else [];
    SessionTells(script[..polls], period, flushes);
  }

  /** A session that ends by itself: every choice started, every command answered, a heartbeat a poll, one flush. */
  lemma SessionTells(polls: seq<Poll>, period: nat, flushes: bool)
    requires forall i :: 0 <= i < |polls| ==> Completes(polls[i], i, period)
    ensures var effects := Effects(polls, period) + if flushes then [Flushed] else [];
            && Targets(effects) == Autos(polls) && Answers(effects) == AllResults(polls)
            && Count(effects, Beat) == |polls| && Count(effects, Flushed) == One(flushes)
  {
    var last := if flushes then [Flushed] else [];
    EveryChoiceIsStarted(polls, period);
    EveryCommandIsAnswered(polls, period);
    SessionAccounting(polls, period);
    TellConcat(Effects(polls, period), last);
    CountConcat(Effects(polls, period), last, Beat);
    CountConcat(Effects(polls, period), last, Flushed);
    TellOne(Flushed);
    CountOne(Flushed, Beat);
    CountOne(Flushed, Flushed);
  }

  /** The restarting counter reaches the period exactly at the multiples of it. */
  lemma NextSample(k: nat, period: nat)
    requires period > 0
    ensures k == 0 ==> Samples(k, period)
    ensures k > 0 ==> (Samples(k, period) <==> (k - 1) % period + 1 >= period)
    ensures k > 0 ==> k % period == if Samples(k, period) then 0 else (k - 1) % period + 1
  {
    if k > 0 {
      var q, r := (k - 1) / period, (k - 1) % period;
      assert k == q * period + (r + 1);
      if r + 1 == period {
        assert k == (q + 1) * period;
        Remainder(k, q + 1, 0, period);
      } else {
        Remainder(k, q, r + 1, period);
      }
    }
  }

  // ----- Accounting -----

  function Count(effects: seq<Effect>, e: Effect): nat {
    if effects == [] then 0 else Count(effects[..|effects| - 1], e) + if effects[|effects| - 1] == e then 1 else 0
  }

  lemma {:induction false} CountConcat(a: seq<Effect>, b: seq<Effect>, e: Effect)
    ensures Count(a + b, e) == Count(a, e) + Count(b, e)
  {
    if b == [] {
      assert a + b == a;
    } else {
      CountConcat(a, b[..|b| - 1], e);
      assert (a + b)[..|a + b| - 1] == a + b[..|b| - 1];
    }
  }

  lemma CountOne(x: Effect, e: Effect)
    ensures Count([x], e) == if x == e then 1 else 0
  {
    assert [x][..0] == [];
  }

  lemma {:induction false} RepliesOnlyReply(commands: seq<Handled>, e: Effect)
    requires !e.Replied?
    ensures Count(Replies(commands), e) == 0
  {
    if commands != [] && commands[0].result.Some? {
      RepliesOnlyReply(commands[1..], e);
      CountOne(Replied(commands[0].id, commands[0].result.value), e);
      CountConcat([Replied(commands[0].id, commands[0].result.value)], Replies(commands[1..]), e);
    }
  }

  lemma CountAfterReplies(p: Poll, k: nat, period: nat, e: Effect)
    requires e == Monitored || e == Beat || e == Flushed
    ensures Count(AfterReplies(p, k, period), e) ==
            One(e == Monitored && Samples(k, period) && Completes(p, k, period)) +
              One(e == Beat && Completes(p, k, period))
  {
    var t := if p.auto.Some? && Starts(p) then [TracerouteStarted(p.auto.value)] else [];
    var m := if Samples(k, period) && Completes(p, k, period) then [Monitored] else [];
    var b := if Completes(p, k, period) then [Beat] else [];
    CountConcat(t + m, b, e);
    CountConcat(t, m, e);
    CountOne(Beat, e);
    CountOne(Monitored, e);
    if p.auto.Some? {
      CountOne(TracerouteStarted(p.auto.value), e);
    }
  }

  /**
   What a poll does, whether or not it gets to its end: it samples when its rank asks for it and nothing has
   raised by then, it beats when nothing has raised at all, and it never flushes.
   */
  lemma PollCounts(p: Poll, k: nat, period: nat)
    ensures var quiet := (forall i :: 0 <= i < |p.commands| ==> p.commands[i].result.Some?)
                         && (p.auto.Some? ==> !p.startRaises);
            var due := period > 0 && k % period == 0;
            && Count(PollEffects(p, k, period), Monitored) == One(quiet && due && !p.monitorRaises)
            && Count(PollEffects(p, k, period), Beat) == One(quiet && (due ==> !p.monitorRaises))
            && Count(PollEffects(p, k, period), Flushed) == 0
  {
    forall e | e in {Monitored, Beat, Flushed}
      ensures Count(PollEffects(p, k, period), e) == Count(AfterReplies(p, k, period), e)
    {
      RepliesOnlyReply(p.commands, e);
      CountConcat(Replies(p.commands), AfterReplies(p, k, period), e);
    }
    CountAfterReplies(p, k, period, Monitored);
    CountAfterReplies(p, k, period, Beat);
    CountAfterReplies(p, k, period, Flushed);
  }

  // ----- The order within a poll -----

  function Rank(e: Effect): nat {
    match e
    case Replied(_, _) => 0
    case TracerouteStarted(_) => 1
    case Monitored => 2
    case Beat => 3
    case Flushed => 4
  }

  ghost predicate InOrder(effects: seq<Effect>) {
    forall i, j :: 0 <= i < j < |effects| ==> Rank(effects[i]) <= Rank(effects[j])
  }

  lemma {:induction false} RepliesAreReplies(commands: seq<Handled>, i: nat)
    requires i < |Replies(commands)|
    ensures Replies(commands)[i].Replied?
  {
    if i > 0 {
      RepliesAreReplies(commands[1..], i - 1);
    }
  }

  /** Replies come first, then the traceroute, then the sample, and the heartbeat last. */
  lemma PollIsInOrder(p: Poll, k: nat, period: nat)
    ensures InOrder(PollEffects(p, k, period))
  {
    forall i: nat | i < |Replies(p.commands)| ensures Replies(p.commands)[i].Replied? {
      RepliesAreReplies(p.commands, i);
    }
  }

  /** ceil(n / period). */
  function Periods(n: nat, period: nat): nat
    requires period > 0
  {
    (n + period - 1) / period
  }

  lemma OneMorePoll(n: nat, period: nat)
    requires period > 0
    ensures Periods(n + 1, period) == Periods(n, period) + if Samples(n, period) then 1 else 0
  {
    var q, r := n / period, n % period;
    assert n == q * period + r;
    Remainder(n + period, q + 1, r, period) by {
      assert n + period == (q + 1) * period + r;
    }
    if r == 0 {
      assert n + period - 1 == q * period + (period - 1);
      Remainder(n + period - 1, q, period - 1, period);
    } else {
      assert n + period - 1 == (q + 1) * period + (r - 1);
      Remainder(n + period - 1, q + 1, r - 1, period);
    }
  }

  /** After n completed polls: n heartbeats, no flush yet, and one sample per period begun. */
  lemma {:induction false} SessionAccounting(polls: seq<Poll>, period: nat)
    requires forall i :: 0 <= i < |polls| ==> Completes(polls[i], i, period)
    ensures Count(Effects(polls, period), Beat) == |polls|
    ensures Count(Effects(polls, period), Flushed) == 0
    ensures Count(Effects(polls, period), Monitored) == if period == 0 then 0 else Periods(|polls|, period)
  {
    if polls == [] {
      if period > 0 {
        Remainder(period - 1, 0, period - 1, period);
      }
    } else {
      var n := |polls| - 1;
      var front, last := Effects(polls[..n], period), PollEffects(polls[n], n, period);
      SessionAccounting(polls[..n], period);
      PollCounts(polls[n], n, period);
      CountConcat(front, last, Beat);
      CountConcat(front, last, Flushed);
      CountConcat(front, last, Monitored);
      if period > 0 {
        OneMorePoll(n, period);
      }
    }
  }

  // ----- Answers and traceroutes, in order -----

  /** The answers given, in order, each under its id. */
  function Answers(effects: seq<Effect>): seq<(int, Option<string>)> {
    if effects == [] then []
    else
      var front, last := Answers(effects[..|effects| - 1]), effects[|effects| - 1];
      if last.Replied? then front + [(last.id, Some(last.result))] else front
  }

  /** The targets handed to the coordinator, in order. */
  function Targets(effects: seq<Effect>): seq<string> {
    if effects == [] then []
    else
      var front, last := Targets(effects[..|effects| - 1]), effects[|effects| - 1];
      if last.TracerouteStarted? then front + [last.dest] else front
  }

  lemma {:induction false} TellConcat(a: seq<Effect>, b: seq<Effect>)
    ensures Answers(a + b) == Answers(a) + Answers(b) && Targets(a + b) == Targets(a) + Targets(b)
  {
    if b == [] {
      assert a + b == a;
    } else {
      TellConcat(a, b[..|b| - 1]);
      assert (a + b)[..|a + b| - 1] == a + b[..|b| - 1];
    }
  }

  lemma TellOne(e: Effect)
    ensures Answers([e]) == if e.Replied? then [(e.id, Some(e.result))] else []
    ensures Targets([e]) == if e.TracerouteStarted? then [e.dest] else []
  {
    assert [e][..0] == [];
  }

  /** The answers a batch of commands asks for. */
  function Results(commands: seq<Handled>): (r: seq<(int, Option<string>)>)
    ensures |r| == |commands|
    ensures forall i :: 0 <= i < |r| ==> r[i] == (commands[i].id, commands[i].result)
  {
    seq(|commands|, i requires 0 <= i < |commands| => (commands[i].id, commands[i].result))
  }

  lemma ResultsSplit(commands: seq<Handled>)
    requires commands != []
    ensures Results(commands) == [(commands[0].id, commands[0].result)] + Results(commands[1..])
  {
  }

  lemma {:induction false} RepliesAnswer(commands: seq<Handled>, m: nat)
    requires m <= |commands| && AllAnswered(commands[..m])
    requires m == |commands| || commands[m].result.None?
    ensures Answers(Replies(commands)) == Results(commands[..m]) && Targets(Replies(commands)) == []
  {
    if m > 0 {
      assert commands[..m][0] == commands[0];
      var first := Replied(commands[0].id, commands[0].result.value);
      assert commands[..m][1..] == commands[1..][..m - 1];
      RepliesAnswer(commands[1..], m - 1);
      TellOne(first);
      TellConcat([first], Replies(commands[1..]));
      ResultsSplit(commands[..m]);
    }
  }

  lemma AfterRepliesTell(p: Poll, k: nat, period: nat)
    ensures Answers(AfterReplies(p, k, period)) == []
    ensures Targets(AfterReplies(p, k, period)) == if p.auto.Some? && Starts(p) then [p.auto.value] else []
  {
    var t := if p.auto.Some? && Starts(p) then [TracerouteStarted(p.auto.value)] else [];
    var m := if Samples(k, period) && Completes(p, k, period) then [Monitored] else [];
    var b := if Completes(p, k, period) then [Beat] else [];
    TellConcat(t + m, b);
    TellConcat(t, m);
    TellOne(Beat);
    TellOne(Monitored);
    if p.auto.Some? {
      TellOne(TracerouteStarted(p.auto.value));
    }
  }

  /**
   What a poll says to others: it answers its commands up to the first whose write raises, each with its
   own result, and it starts the target of the scheduler exactly when it has one and nothing raised.
   */
  lemma PollTells(p: Poll, k: nat, period: nat, m: nat)
    requires m <= |p.commands| && forall i :: 0 <= i < m ==> p.commands[i].result.Some?
    requires m == |p.commands| || p.commands[m].result.None?
    ensures Answers(PollEffects(p, k, period)) == Results(p.commands[..m])
    ensures Targets(PollEffects(p, k, period)) ==
            if p.auto.Some? && m == |p.commands| && !p.startRaises then [p.auto.value] else []
  {
    RepliesAnswer(p.commands, m);
    AfterRepliesTell(p, k, period);
    TellConcat(Replies(p.commands), AfterReplies(p, k, period));
  }

  function AllResults(polls: seq<Poll>): seq<(int, Option<string>)> {
    if polls == [] then [] else AllResults(polls[..|polls| - 1]) + Results(polls[|polls| - 1].commands)
  }

  /** The targets that the scheduler chose, poll after poll. */
  function Autos(polls: seq<Poll>): seq<string> {
    if polls == [] then []
    else
      var auto := polls[|polls| - 1].auto;
      Autos(polls[..|polls| - 1]) + if auto.Some? then [auto.value] else []
  }

  /** Every drained command is answered once, with its own result and under its own id, in the order of the drain. */
  lemma {:induction false} EveryCommandIsAnswered(polls: seq<Poll>, period: nat)
    requires forall i :: 0 <= i < |polls| ==> Completes(polls[i], i, period)
    ensures Answers(Effects(polls, period)) == AllResults(polls)
  {
    if polls != [] {
      var n := |polls| - 1;
      EveryCommandIsAnswered(polls[..n], period);
      PollTells(polls[n], n, period, |polls[n].commands|);
      assert polls[n].commands[..|polls[n].commands|] == polls[n].commands;
      TellConcat(Effects(polls[..n], period), PollEffects(polls[n], n, period));
    }
  }

  /** Every target the scheduler chose is started once, in the order of the choices, and no other. */
  lemma {:induction false} EveryChoiceIsStarted(polls: seq<Poll>, period: nat)
    requires forall i :: 0 <= i < |polls| ==> Completes(polls[i], i, period)
    ensures Targets(Effects(polls, period)) == Autos(polls)
  {
    if polls != [] {
      var n := |polls| - 1;
      EveryChoiceIsStarted(polls[..n], period);
      PollTells(polls[n], n, period, |polls[n].commands|);
      TellConcat(Effects(polls[..n], period), PollEffects(polls[n], n, period));
    }
  }
}
