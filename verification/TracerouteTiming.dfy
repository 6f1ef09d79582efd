/**
 When requests end. The runs of TracerouteRuns assume bounds on three elementary delays only; that a
 request then ends in time, by its reply, its timer or its failed send, is proved here.
 */
module TracerouteTiming {
  import opened Arithmetic
  import opened Options
  import opened TracerouteStore
  import opened TracerouteRuns
  import opened TracerouteResults
  import Coordinator = TracerouteCoordinator
  import NodeIds

  predicate DelaysOk(p: Params) {
    p.sendWithin >= 0.0 && p.timerLag >= 0.0 && p.emitLag >= 0.0
  }

  /** By when a request must have its row, told from the moment it was decided. */
  function EndsBy(p: Params, q: Request): real {
    q.decidedAt + p.sendWithin + MaxReal(0.0, q.timeout) + p.timerLag + p.emitLag
  }

  // ----- The invariant -----

  predicate PollerOnTime(p: Params, now: real, poller: Poller) {
    !poller.Idle? ==> now <= DecidedAt(poller) + p.sendWithin
  }

  ghost predicate TimersOnTime(p: Params, now: real, reqs: seq<Request>, armed: map<nat, real>, fired: set<nat>) {
    forall i :: i in armed ==>
      && i < |reqs| && armed[i] <= Deadline(reqs[i], reqs[i].decidedAt + p.sendWithin)
      && (i !in fired ==> now <= armed[i] + p.timerLag)
  }

  /** The latest moment at which a request is taken out. */
  function TakenBy(p: Params, c: Claim, armed: map<nat, real>): real {
    if c.entry.req in armed then armed[c.entry.req] + p.timerLag else c.entry.request.decidedAt + p.sendWithin
  }

  predicate ClaimOnTime(p: Params, now: real, armed: map<nat, real>, c: Claim) {
    c.at <= now <= c.at + p.emitLag && c.at <= TakenBy(p, c, armed)
  }

  ghost predicate ClaimsOnTime(p: Params, now: real, armed: map<nat, real>, claims: seq<Claim>) {
    forall k :: 0 <= k < |claims| ==> ClaimOnTime(p, now, armed, claims[k])
  }

  ghost predicate Punctual(p: Params, s: State) {
    && PollerOnTime(p, s.now, s.poller)
    && TimersOnTime(p, s.now, s.reqs, s.armed, s.fired)
    && ClaimsOnTime(p, s.now, s.armed, s.claims)
  }

  // ----- Steps -----

  /** A waiting request is taken out in time, whichever thread takes it. */
  lemma WaitingOnTime(p: Params, s: State, id: int, c: Claim)
    requires DelaysOk(p) && Inv(s) && Punctual(p, s) && id in s.pending
    requires c.entry == s.pending[id] && c.at == s.now
    ensures ClaimOnTime(p, s.now, s.armed, c)
  {
    assert s.pending[id].req in Waiting(s.pending);
  }

  lemma ArmPunctual(p: Params, s: State)
    requires DelaysOk(p) && Inv(s) && Punctual(p, s) && Enabled(p, s, Arm)
    ensures Punctual(p, Apply(p, s, Arm))
  {
    var t := Apply(p, s, Arm);
    var e := s.poller.entry;
    assert Known(s.reqs, e);
    forall k | 0 <= k < |t.claims| ensures ClaimOnTime(p, t.now, t.armed, t.claims[k]) {
      assert ClaimOnTime(p, s.now, s.armed, s.claims[k]);
    }
  }

  lemma EmitPunctual(p: Params, s: State, k: nat)
    requires Punctual(p, s) && Enabled(p, s, Emit(k))
    ensures Punctual(p, Apply(p, s, Emit(k)))
  {
    var t := Apply(p, s, Emit(k));
    assert t.claims == Without(s.claims, k);
  }

  lemma BeginPunctual(p: Params, s: State, t: State, q: Request)
    requires Punctual(p, s) && t == s.(reqs := s.reqs + [q], poller := Sending(Entry(|s.reqs|, q)))
    requires s.now <= q.decidedAt + p.sendWithin
    ensures Punctual(p, t)
  {
  }

  /** Steps that neither start a request, nor take one out, nor arm a timer. */
  lemma PlainPunctual(p: Params, s: State, step: Step)
    requires DelaysOk(p) && Inv(s) && Punctual(p, s) && Enabled(p, s, step) && Timely(p, s, step)
    requires step.Advance? || step.TickSkip? || step.TickSend? || step.SendOk? || step.Register?
             || step.CancelAll? || step.Die? || step.Respawn? || step.Prune?
    ensures Punctual(p, Apply(p, s, step))
  {
  }

  lemma SendFailsPunctual(p: Params, s: State)
    requires DelaysOk(p) && Inv(s) && Punctual(p, s) && Enabled(p, s, SendFails)
    ensures Punctual(p, Apply(p, s, SendFails))
  {
    assert s.poller.entry.req !in s.armed;
  }

  lemma ReceivePunctual(p: Params, s: State, id: int, sender: int, readable: bool)
    requires DelaysOk(p) && Inv(s) && Punctual(p, s) && Enabled(p, s, Receive(id, sender, readable))
    ensures Punctual(p, Apply(p, s, Receive(id, sender, readable)))
  {
    if id in s.pending {
      WaitingOnTime(p, s, id, Claim(s.pending[id], Reply(id, sender, readable), Some(s.now), s.now));
    }
  }

  lemma TimerFiresPunctual(p: Params, s: State, req: nat)
    requires DelaysOk(p) && Inv(s) && Punctual(p, s) && Enabled(p, s, TimerFires(req))
    ensures Punctual(p, Apply(p, s, TimerFires(req)))
  {
    if s.ids[req] in s.pending {
      WaitingOnTime(p, s, s.ids[req], Claim(s.pending[s.ids[req]], Expired(s.ids[req]), None, s.now));
    }
  }

  lemma BeginStepPunctual(p: Params, s: State, step: Step)
    requires DelaysOk(p) && Punctual(p, s) && Enabled(p, s, step) && (step.Stamp? || step.ApiStart?)
    ensures Punctual(p, Apply(p, s, step))
  {
    var t := Apply(p, s, step);
    BeginPunctual(p, s, t, t.poller.entry.request);
  }

  lemma StepPunctual(p: Params, s: State, step: Step)
    requires DelaysOk(p) && Inv(s) && Punctual(p, s) && Enabled(p, s, step) && Timely(p, s, step)
    ensures Punctual(p, Apply(p, s, step))
  {
    match step {
      case Stamp => BeginStepPunctual(p, s, step);
      case ApiStart(_, _) => BeginStepPunctual(p, s, step);
      case SendFails => SendFailsPunctual(p, s);
      case Arm => ArmPunctual(p, s);
      case Receive(id, sender, readable) => ReceivePunctual(p, s, id, sender, readable);
      case TimerFires(req) => TimerFiresPunctual(p, s, req);
      case Emit(k) => EmitPunctual(p, s, k);
      case _ => PlainPunctual(p, s, step);
    }
  }

  lemma {:induction false} RunPunctual(p: Params, s: State, steps: seq<Step>)
    requires DelaysOk(p) && Inv(s) && Punctual(p, s) && Run(p, s, steps, true)
    ensures Inv(Final(p, s, steps, true)) && Punctual(p, Final(p, s, steps, true))
    decreases |steps|
  {
    if steps != [] {
      StepInv(p, s, steps[0]);
      StepPunctual(p, s, steps[0]);
      RunPunctual(p, Apply(p, s, steps[0]), steps[1..]);
    }
  }

  // ----- Main results -----

  /** A request without a row is recent: the poll loop has it, or a running timer covers it, or a thread took it. */
  lemma UnresolvedIsRecent(p: Params, s: State, i: nat)
    requires DelaysOk(p) && Inv(s) && Punctual(p, s) && Unresolved(s, i)
    ensures s.now <= EndsBy(p, s.reqs[i])
    ensures i in s.armed ==> s.now <= s.armed[i] + p.timerLag + p.emitLag
  {
    assert Places(s, i) == 1;
    if i in Waiting(s.pending) {
      var a :| a in s.pending && s.pending[a].req == i;
      assert Known(s.reqs, s.pending[a]);
    } else if Times(s.claims, i) > 0 {
      TimesMember(s.claims, i);
      var k :| 0 <= k < |s.claims| && s.claims[k].entry.req == i;
      assert Evidence(s.reqs, s.ids, s.claims[k]) && ClaimOnTime(p, s.now, s.armed, s.claims[k]);
    } else {
      assert Holds(s.poller, i);
      assert Known(s.reqs, s.poller.entry);
    }
  }

  /**
   Requests end in time. In every timed run, a request of the scheduler or of the API that no death and
   no cancellation took along has its result recorded once its timeout and the elementary delays are
   over, counted from its decision, and counted from the deadline of its timer.
   */
  lemma RequestsEndInTime(p: Params, start: real, steps: seq<Step>, i: nat)
    requires DelaysOk(p) && Run(p, Init(start), steps, true)
    requires var s := Final(p, Init(start), steps, true); i < |s.reqs| && i !in s.dropped
    ensures var s := Final(p, Init(start), steps, true);
            && (s.now > EndsBy(p, s.reqs[i]) ==> Times(s.emitted, i) == 1)
            && (i in s.armed && s.now > s.armed[i] + p.timerLag + p.emitLag ==> Times(s.emitted, i) == 1)
  {
    InitInv(start);
    RunPunctual(p, Init(start), steps);
    var s := Final(p, Init(start), steps, true);
    assert Places(s, i) == One(i < |s.reqs|);
    if Unresolved(s, i) {
      UnresolvedIsRecent(p, s, i);
    }
  }

  // ----- What prunes leave -----

  /** A recorded result is still in the table, or too old to matter. */
  ghost predicate Kept(p: Params, now: real, emitted: seq<Claim>, table: seq<Claim>) {
    forall k :: 0 <= k < |emitted| ==> emitted[k] in table || emitted[k].entry.request.sent < now - p.keep
  }

  lemma StepKept(p: Params, s: State, step: Step)
    requires Kept(p, s.now, s.emitted, s.table) && Enabled(p, s, step) && Retained(p, step)
    ensures var t := Apply(p, s, step); Kept(p, t.now, t.emitted, t.table)
  {
  }

  lemma {:induction false} RunKept(p: Params, s: State, steps: seq<Step>)
    requires Kept(p, s.now, s.emitted, s.table) && Run(p, s, steps, true)
    ensures var t := Final(p, s, steps, true); Kept(p, t.now, t.emitted, t.table)
    decreases |steps|
  {
    if steps != [] {
      StepKept(p, s, steps[0]);
      RunKept(p, Apply(p, s, steps[0]), steps[1..]);
    }
  }

  // ----- The assumptions never stop the clock -----

  /** What a stretch without deaths or cancellations leaves alone. */
  predicate Unharmed(s: State, t: State) {
    t.alive == s.alive && t.dropped == s.dropped && t.cuts == s.cuts
  }

  predicate AtRest(s: State) {
    s.poller.Idle? && s.claims == []
  }

  ghost predicate Sound(p: Params, s: State) {
    Inv(s) && Punctual(p, s)
  }

  lemma SettlePoller(p: Params, s: State) returns (steps: seq<Step>)
    requires Inv(s)
    ensures Run(p, s, steps, true)
    ensures var t := Final(p, s, steps, true); t.poller.Idle? && t.now == s.now && Unharmed(s, t)
  {
    match s.poller {
      case Idle => steps := [];
      case Chosen(_, _) => steps := RunTwo(p, s, Stamp, SendFails);
      case Sending(_) =>
        steps := [SendFails];
        RunOne(p, s, SendFails);
      case Sent(_, _) => steps := RunTwo(p, s, Register, Arm);
      case Arming(_, _) =>
        steps := [Arm];
        RunOne(p, s, Arm);
    }
  }

  lemma {:induction false} EmitAll(p: Params, s: State) returns (steps: seq<Step>)
    requires s.poller.Idle?
    ensures Run(p, s, steps, true)
    ensures var t := Final(p, s, steps, true);
            && AtRest(t) && Unharmed(s, t)
            && t.now == s.now && t.armed == s.armed && t.fired == s.fired
    decreases |s.claims|
  {
    if s.claims == [] {
      steps := [];
    } else {
      RunOne(p, s, Emit(0));
      var rest := EmitAll(p, Apply(p, s, Emit(0)));
      RunAppend(p, s, [Emit(0)], rest);
      steps := [Emit(0)] + rest;
    }
  }

  lemma {:induction false} FirstDeadline(armed: map<nat, real>, left: set<nat>) returns (first: nat)
    requires left != {} && left <= armed.Keys
    ensures first in left && forall i :: i in left ==> armed[first] <= armed[i]
  {
    first :| first in left;
    if left != {first} {
      var other := FirstDeadline(armed, left - {first});
      if armed[other] < armed[first] {
        first := other;
      }
    }
  }

  function Running(s: State): set<nat> {
    s.armed.Keys - s.fired
  }

  /** Time goes on to the first deadline, and its timer runs. */
  lemma FireFirst(p: Params, s: State, i: nat) returns (steps: seq<Step>)
    requires DelaysOk(p) && Sound(p, s) && AtRest(s) && s.alive && i in Running(s)
    requires forall j :: j in Running(s) ==> s.armed[i] <= s.armed[j]
    ensures Run(p, s, steps, true)
    ensures var t := Final(p, s, steps, true);
            && AtRest(t) && Unharmed(s, t) && t.now == MaxReal(s.now, s.armed[i]) && Running(t) == Running(s) - {i}
  {
    var to := MaxReal(s.now, s.armed[i]);
    forall j | j in s.armed && j !in s.fired ensures to <= s.armed[j] + p.timerLag {
      assert j in Running(s);
    }
    var fire := RunTwo(p, s, Advance(to), TimerFires(i));
    var emit := EmitAll(p, Final(p, s, fire, true));
    RunAppend(p, s, fire, emit);
    steps := fire + emit;
  }

  lemma {:induction false} LetTimePass(p: Params, s: State, to: real) returns (steps: seq<Step>)
    requires DelaysOk(p) && Sound(p, s) && AtRest(s) && to >= s.now
    ensures Run(p, s, steps, true)
    ensures var t := Final(p, s, steps, true); t.now == to && Unharmed(s, t)
    decreases |Running(s)|
  {
    if exists i :: i in Running(s) && s.armed[i] < to {
      var i := FirstDeadline(s.armed, Running(s));
      var fire := FireFirst(p, s, i);
      RunPunctual(p, s, fire);
      var rest := LetTimePass(p, Final(p, s, fire, true), to);
      RunAppend(p, s, fire, rest);
      steps := fire + rest;
    } else {
      forall j | j in s.armed && j !in s.fired ensures to <= s.armed[j] + p.timerLag {
        assert j in Running(s);
      }
      RunOne(p, s, Advance(to));
      steps := [Advance(to)];
    }
  }

  /**
   The assumptions on delays never stop the clock: every timed run can go on to any later moment with
   no death and no cancellation, because each thing waited for is something the code can do.
   */
  lemma TimeIsNeverStuck(p: Params, start: real, before: seq<Step>, to: real) returns (after: seq<Step>)
    requires DelaysOk(p) && Run(p, Init(start), before, true)
    requires to >= Final(p, Init(start), before, true).now
    ensures Run(p, Init(start), before + after, true)
    ensures var t := Final(p, Init(start), before + after, true);
            t.now == to && Unharmed(Final(p, Init(start), before, true), t)
  {
    InitInv(start);
    RunPunctual(p, Init(start), before);
    var s := Final(p, Init(start), before, true);
    var settle := SettlePoller(p, s);
    RunPunctual(p, s, settle);
    var u := Final(p, s, settle, true);
    var emit := EmitAll(p, u);
    RunPunctual(p, u, emit);
    var rest := LetTimePass(p, Final(p, u, emit, true), to);
    RunAppend(p, u, emit, rest);
    RunAppend(p, s, settle, emit + rest);
    after := settle + (emit + rest);
    RunAppend(p, Init(start), before, after);
  }
}
