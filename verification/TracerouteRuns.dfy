/**
 Whole runs of the traceroute subsystem: sessions that come and go, a poll loop that decides and
 sends, a receive thread, timers, the table and its pruning, in every interleaving. A step is one
 atomic action; `Enabled` says when the code can take it and `Apply` what it does.
 */
module TracerouteRuns {
  import opened Arithmetic
  import opened Options
  import opened LocalTime
  import opened TracerouteStore
  import opened TracerouteScheduler
  import Coordinator = TracerouteCoordinator
  import NodeIds

  /** One call of the coordinator's `start`: what was asked, in which words, and when it was decided and stamped. */
  datatype Request = Request(
    target: string, dest: string, destNum: int, source: string, timeout: real, decidedAt: real, sent: real)

  /** An entry of the pending dictionary; `req` is the position of the request in the history. */
  datatype Entry = Entry(req: nat, request: Request)

  /** Where the poll loop stands inside one scheduler or API traceroute. */
  datatype Poller =
    | Idle
    | Chosen(dest: string, decidedAt: real)  // target decided, clock not read yet
    | Sending(entry: Entry)                  // clock read, inside send_fn
    | Sent(entry: Entry, packetId: int)      // id known, not registered yet
    | Arming(entry: Entry, packetId: int)    // registered, timer not started yet

  datatype Via = Reply(requestId: int, sender: int, readable: bool) | Expired(requestId: int) | SendFailed

  /** A request taken out of the dictionary at some moment by one thread, which alone will emit its result. */
  datatype Claim = Claim(entry: Entry, via: Via, recv: Option<real>, at: real)

  datatype State = State(
    now: real,
    alive: bool,
    lastTick: real,
    jitter: real,
    poller: Poller,
    reqs: seq<Request>,        // every start() so far, in order
    sessionFrom: nat,          // the first request of the current session
    ids: map<nat, int>,        // packet id that the send of a request returned
    pending: map<int, Entry>,  // the dictionary under the lock
    armed: map<nat, real>,     // deadlines of the timers started in this session
    fired: set<nat>,           // requests whose timer callback has run
    claims: seq<Claim>,        // taken out, not emitted yet
    emitted: seq<Claim>,       // results published and recorded, in order
    table: seq<Claim>,         // the rows still in the table
    dropped: set<nat>,         // requests that a dead session or a cancellation took along
    cuts: nat)                 // deaths and cancellations so far

  datatype Step =
    | Advance(to: real)
    | TickSkip
    | TickSend(dest: string, jitter: real)
    | Stamp
    | ApiStart(dest: string, timeout: real)
    | SendOk(packetId: int)
    | SendFails
    | Register
    | Arm
    | Receive(requestId: int, sender: int, readable: bool)
    | TimerFires(req: nat)
    | Emit(k: nat)
    | CancelAll
    | Die
    | Respawn(jitter: real)
    | Prune(olderThan: real)

  /** What a run is assumed to respect beyond the code, for the theorems that need it. */
  datatype Params = Params(
    cfg: Config,
    sendWithin: real,  // from the decision to the armed timer, or to the failure of the send
    timerLag: real,    // from a timer's deadline to its callback
    emitLag: real,     // from the moment a request is taken out to its row
    keep: real,        // a prune never removes a row younger than this
    fraction: real)    // no decision is taken later than this into a second

  function Init(now: real): State {
    State(now, false, 0.0, 0.0, Idle, [], 0, map[], map[], map[], {}, [], [], [], {}, 0)
  }

  // ----- Rows -----

  function StatusOf(via: Via): Status {
    match via
    case Reply(_, _, readable) => Coordinator.ReplyStatus(readable)
    case Expired(_) => Timeout
    case SendFailed => Error
  }

  function RequestIdOf(via: Via): int {
    match via
    case Reply(id, _, _) => id
    case Expired(id) => id
    case SendFailed => 0
  }

  function RowOf(c: Claim): Row {
    var q := c.entry.request;
    Row(RequestIdOf(c.via), q.dest, StatusOf(c.via), q.sent, c.recv, q.source)
  }

  function RowsOf(table: seq<Claim>): (rows: seq<Row>)
    ensures |rows| == |table|
    ensures forall k :: 0 <= k < |rows| ==> rows[k] == RowOf(table[k])
  {
    seq(|table|, k requires 0 <= k < |table| => RowOf(table[k]))
  }

  /** The rows that survive a prune, told from their claims. */
  function Younger(table: seq<Claim>, cutoff: real): (r: seq<Claim>)
    ensures forall c :: c in r <==> c in table && c.entry.request.sent >= cutoff
  {
    if table == [] then []
    else
      var rest := Younger(table[..|table| - 1], cutoff);
      if table[|table| - 1].entry.request.sent >= cutoff then rest + [table[|table| - 1]] else rest
  }

  /** Pruning the claims is the table's own prune. */
  lemma {:induction false} YoungerIsPrune(table: seq<Claim>, cutoff: real)
    ensures RowsOf(Younger(table, cutoff)) == SentSince(RowsOf(table), cutoff)
  {
    if table != [] {
      var front := table[..|table| - 1];
      YoungerIsPrune(front, cutoff);
      assert RowsOf(table)[..|table| - 1] == RowsOf(front);
    }
  }

  // ----- Requests -----

  predicate Scheduled(q: Request) {
    SCHEDULER_PREFIX <= q.source
  }

  /** How many of the claims are for request `i`. */
  function Times(claims: seq<Claim>, i: nat): nat {
    if claims == [] then 0
    else Times(claims[..|claims| - 1], i) + if claims[|claims| - 1].entry.req == i then 1 else 0
  }

  predicate Answered(s: State, i: nat) {
    Times(s.emitted, i) > 0
  }

  /** Started, but neither answered nor lost yet. */
  predicate Unresolved(s: State, i: nat) {
    i < |s.reqs| && !Answered(s, i) && i !in s.dropped
  }

  function Waiting(pending: map<int, Entry>): set<nat> {
    set id | id in pending :: pending[id].req
  }

  // ----- Steps -----

  predicate Enabled(p: Params, s: State, step: Step) {
    match step
    case Advance(to) => to >= s.now
    case TickSkip => s.alive && s.poller.Idle? && s.now - s.lastTick >= p.cfg.tickS
    case TickSend(dest, jitter) =>
      && s.alive && s.poller.Idle? && s.now - s.lastTick >= p.cfg.tickS
      && Allowed(p.cfg, s.jitter, RowsOf(s.table), dest, s.now)
      && NodeIds.Normalize(NodeIds.Text(dest)).Accepted?
      && 0.0 <= jitter < 1.0
    case Stamp => s.poller.Chosen? && NodeIds.Normalize(NodeIds.Text(s.poller.dest)).Accepted?
    case ApiStart(dest, _) => s.alive && s.poller.Idle? && NodeIds.Normalize(NodeIds.Text(dest)).Accepted?
    case SendOk(_) => s.poller.Sending?
    case SendFails => s.poller.Sending?
    case Register => s.poller.Sent?
    case Arm => s.poller.Arming?
    case Receive(_, _, _) => s.alive
    case TimerFires(req) => s.alive && req in s.armed && req in s.ids && s.now >= s.armed[req]
    case Emit(k) => k < |s.claims|
    case CancelAll => s.alive
    case Die => s.alive
    case Respawn(jitter) => !s.alive && 0.0 <= jitter < 1.0
    case Prune(_) => true
  }

  function Begin(s: State, target: string, source: string, timeout: real, decidedAt: real): State
    requires NodeIds.Normalize(NodeIds.Text(target)).Accepted?
  {
    var node := NodeIds.Normalize(NodeIds.Text(target)).node;
    var q := Request(target, node.id, node.num, source, timeout, decidedAt, s.now);
    s.(reqs := s.reqs + [q], poller := Sending(Entry(|s.reqs|, q)))
  }

  /** A timer runs once its delay is over, and at once when the delay is negative. */
  function Deadline(q: Request, now: real): real {
    now + MaxReal(0.0, q.timeout)
  }

  /** What the code does. */
  function Act(p: Params, s: State, step: Step): State
    requires Enabled(p, s, step)
  {
    match step
    case Advance(to) => s.(now := to)
    case TickSkip => s.(lastTick := s.now)
    case TickSend(dest, jitter) => s.(lastTick := s.now, jitter := jitter, poller := Chosen(dest, s.now))
    case Stamp => Begin(s, s.poller.dest, SCHEDULER_PREFIX + p.cfg.policy, TIMEOUT_S, s.poller.decidedAt)
    case ApiStart(dest, timeout) => Begin(s, dest, "api", timeout, s.now)
    case SendOk(packetId) =>
      s.(ids := s.ids[s.poller.entry.req := packetId], poller := Sent(s.poller.entry, packetId))
    case SendFails =>
      s.(claims := s.claims + [Claim(s.poller.entry, SendFailed, None, s.now)], poller := Idle)
    case Register =>
      s.(pending := Coordinator.Registered(s.pending, s.poller.packetId, s.poller.entry),
         poller := Arming(s.poller.entry, s.poller.packetId))
    case Arm =>
      s.(armed := s.armed[s.poller.entry.req := Deadline(s.poller.entry.request, s.now)], poller := Idle)
    case Receive(requestId, sender, readable) =>
      var taken := Coordinator.TakeReply(s.pending, requestId, (e: Entry) => e.request.destNum == sender);
      if taken.0.None? then s
      else s.(pending := taken.1,
              claims := s.claims + [Claim(taken.0.value, Reply(requestId, sender, readable), Some(s.now), s.now)])
    case TimerFires(req) =>
      var taken := Coordinator.TakeExpired(s.pending, s.ids[req]);
      if taken.0.None? then s
      else s.(pending := taken.1, claims := s.claims + [Claim(taken.0.value, Expired(s.ids[req]), None, s.now)])
    case Emit(k) =>
      s.(claims := s.claims[..k] + s.claims[k + 1..],
         emitted := s.emitted + [s.claims[k]],
         table := s.table + [s.claims[k]])
    case CancelAll =>
      s.(dropped := s.dropped + Waiting(s.pending), pending := map[], cuts := s.cuts + 1)
    case Die =>
      s.(alive := false, poller := Idle, pending := map[], claims := [], armed := map[],
         dropped := (set i: nat | i < |s.reqs| && !Answered(s, i)), cuts := s.cuts + 1)
    case Respawn(jitter) => s.(alive := true, lastTick := 0.0, jitter := jitter, sessionFrom := |s.reqs|)
    case Prune(olderThan) => s.(table := Younger(s.table, s.now - olderThan))
  }

  /** The step done, and on record whatever the code made of it: that a timer's callback has run. */
  function Apply(p: Params, s: State, step: Step): State
    requires Enabled(p, s, step)
  {
    Act(p, s, step).(fired := if step.TimerFires? then s.fired + {step.req} else s.fired)
  }

  // ----- Assumptions on a step -----

  /** The radio never returns a packet id twice in one session. */
  predicate Fresh(s: State, step: Step) {
    step.SendOk? ==> forall i :: i in s.ids && i >= s.sessionFrom ==> s.ids[i] != step.packetId
  }

  /**
   The elementary delays are bounded, and only they: of the poll loop from a decision to its end, of a
   timer past its deadline, of a thread from taking a request out to recording it. A cancelled timer
   counts as one that runs and finds nothing.
   */
  ghost predicate Timely(p: Params, s: State, step: Step) {
    step.Advance? ==>
      && (!s.poller.Idle? ==> step.to <= DecidedAt(s.poller) + p.sendWithin)
      && (forall i :: i in s.armed && i !in s.fired ==> step.to <= s.armed[i] + p.timerLag)
      && (forall k :: 0 <= k < |s.claims| ==> step.to <= s.claims[k].at + p.emitLag)
  }

  function DecidedAt(poller: Poller): real
    requires !poller.Idle?
  {
    if poller.Chosen? then poller.decidedAt else poller.entry.request.decidedAt
  }

  predicate Retained(p: Params, step: Step) {
    step.Prune? ==> step.olderThan >= p.keep
  }

  predicate OnTheSecond(p: Params, s: State, step: Step) {
    step.TickSend? ==> Fraction(s.now) <= p.fraction
  }

  /** A step of a run; `timed` adds the assumptions on delays, retention and clocks. */
  ghost predicate Admitted(p: Params, s: State, step: Step, timed: bool) {
    && Enabled(p, s, step)
    && Fresh(s, step)
    && (timed ==> Timely(p, s, step) && Retained(p, step) && OnTheSecond(p, s, step))
  }

  ghost predicate Run(p: Params, s: State, steps: seq<Step>, timed: bool)
    decreases |steps|
  {
    steps == [] || (Admitted(p, s, steps[0], timed) && Run(p, Apply(p, s, steps[0]), steps[1..], timed))
  }

  ghost function Final(p: Params, s: State, steps: seq<Step>, timed: bool): State
    requires Run(p, s, steps, timed)
    decreases |steps|
  {
    if steps == [] then s else Final(p, Apply(p, s, steps[0]), steps[1..], timed)
  }

  // ----- The objects behind the steps -----

  /**
   One poll of the scheduler object is one tick of a run, or none. A command whose target `start` will
   refuse, out of the poll loop, is a tick without a send, after which the session can only die.
   */
  method PollStep(scheduler: Scheduler, nodes: seq<HeardNode>, myNum: Option<int>, chanutil: Option<real>,
                  freshJitter: real, rows: seq<Row>, now: real, ghost p: Params, ghost s: State)
    returns (command: Option<Command>)
    requires s.alive && s.poller.Idle? && 0.0 <= freshJitter < 1.0
    requires rows == RowsOf(s.table) && now == s.now
    requires scheduler.cfg == p.cfg && scheduler.lastTick == s.lastTick && scheduler.jitter == s.jitter
    modifies scheduler
    ensures now - s.lastTick < p.cfg.tickS ==>
              command.None? && scheduler.lastTick == s.lastTick && scheduler.jitter == s.jitter
    ensures now - s.lastTick >= p.cfg.tickS && command.None? ==>
              && Enabled(p, s, TickSkip)
              && var t := Apply(p, s, TickSkip); scheduler.lastTick == t.lastTick && scheduler.jitter == t.jitter
    ensures command.Some? && NodeIds.Normalize(NodeIds.Text(command.value.dest)).Accepted? ==>
              var step := TickSend(command.value.dest, freshJitter);
              && Enabled(p, s, step)
              && var t := Apply(p, s, step); scheduler.lastTick == t.lastTick && scheduler.jitter == t.jitter
    ensures command.Some? && NodeIds.Normalize(NodeIds.Text(command.value.dest)).Rejected? ==>
              && Enabled(p, s, TickSkip)
              && var t := Apply(p, s, TickSkip); scheduler.lastTick == t.lastTick && Enabled(p, t, Die)
    ensures command.Some? ==>
              && command.value.source == SCHEDULER_PREFIX + p.cfg.policy && command.value.timeoutS == TIMEOUT_S
  {
    command := scheduler.Poll(rows, nodes, myNum, chanutil, freshJitter, now);
  }

  predicate SameEntry(a: Coordinator.Pending, q: Request) {
    a.destNum == q.destNum && a.destId == q.dest && a.sent == q.sent && a.source == q.source
  }

  /** The coordinator's dictionary is the one of a run. */
  ghost predicate SamePending(pending: map<int, Coordinator.Pending>, entries: map<int, Entry>) {
    && pending.Keys == entries.Keys
    && forall id :: id in pending ==> SameEntry(pending[id], entries[id].request)
  }

  /** The state in which a run stands once a send has returned its id, registered it and armed its timer. */
  function SentAndArmed(p: Params, s: State, packetId: int, armedAt: real): State
    requires s.poller.Sending?
  {
    var sent := Apply(p, s, SendOk(packetId));
    var registered := Apply(p, sent, Register);
    Apply(p, registered.(now := armedAt), Arm)
  }

  lemma FailedSend(p: Params, s: State)
    requires s.poller.Sending?
    ensures var t, e := Apply(p, s, SendFails), s.poller.entry;
            && t.pending == s.pending && s.claims <= t.claims
            && RowsOf(t.claims[|s.claims|..]) ==
                 [Row(0, e.request.dest, Error, e.request.sent, None, e.request.source)]
  {
    var t := Apply(p, s, SendFails);
    assert t.claims[|s.claims|..] == [Claim(s.poller.entry, SendFailed, None, s.now)];
  }

  lemma ArmedSend(p: Params, s: State, packetId: int, armedAt: real)
    requires s.poller.Sending?
    ensures var t, e := SentAndArmed(p, s, packetId, armedAt), s.poller.entry;
            && t.pending == Coordinator.Registered(s.pending, packetId, e)
            && e.req in t.armed && t.armed[e.req] == Deadline(e.request, armedAt)
  {
  }

  /**
   One call of `start` is a stretch of a run that has just stamped its request: a send that fails and the
   row of its claim, or a send that returns, registers and arms.
   */
  method StartStep(coordinator: Coordinator.Coordinator, target: string, hopLimit: int, timeoutS: real, source: string,
                   now: real, outcome: Coordinator.SendOutcome, armedAt: real,
                   ghost p: Params, ghost s: State, ghost decidedAt: real)
    returns (r: Coordinator.Started)
    requires SamePending(coordinator.pending, s.pending) && now == s.now
    modifies coordinator, coordinator.table
    ensures NodeIds.Normalize(NodeIds.Text(target)).Rejected? ==>
              && r.BadTarget? && SamePending(coordinator.pending, s.pending)
              && coordinator.table.rows == old(coordinator.table.rows)
    ensures NodeIds.Normalize(NodeIds.Text(target)).Accepted? && outcome.SendRaised? ==>
              var t := Apply(p, Begin(s, target, source, timeoutS, decidedAt), SendFails);
              && SamePending(coordinator.pending, t.pending)
              && s.claims <= t.claims
              && coordinator.table.rows == old(coordinator.table.rows) + RowsOf(t.claims[|s.claims|..])
    ensures NodeIds.Normalize(NodeIds.Text(target)).Accepted? && outcome.Sent? ==>
              var id := outcome.packetId;
              var t := SentAndArmed(p, Begin(s, target, source, timeoutS, decidedAt), id, armedAt);
              && SamePending(coordinator.pending, t.pending)
              && id in coordinator.timers && coordinator.timers[id] == t.armed[|s.reqs|]
              && coordinator.table.rows == old(coordinator.table.rows)
  {
    r := coordinator.Start(NodeIds.Text(target), hopLimit, timeoutS, source, now, outcome, armedAt);
    if NodeIds.Normalize(NodeIds.Text(target)).Accepted? {
      ghost var u := Begin(s, target, source, timeoutS, decidedAt);
      match outcome {
        case SendRaised => FailedSend(p, u);
        case Sent(id) => ArmedSend(p, u, id, armedAt);
      }
    }
  }

  /** A packet handled by the coordinator is a reply of a run, and its row that of the claim. */
  method ReceiveStep(coordinator: Coordinator.Coordinator, id: int, sender: int, readable: bool, now: real,
                     ghost p: Params, ghost s: State)
    requires s.alive && now == s.now && SamePending(coordinator.pending, s.pending)
    modifies coordinator, coordinator.table
    ensures var t := Apply(p, s, Receive(id, sender, readable));
            && SamePending(coordinator.pending, t.pending)
            && s.claims <= t.claims
            && coordinator.table.rows == old(coordinator.table.rows) + RowsOf(t.claims[|s.claims|..])
  {
    coordinator.OnPacket(Coordinator.Packet(true, Some(id), sender, readable), now);
    ghost var t := Apply(p, s, Receive(id, sender, readable));
    assert RowsOf([]) == [];
  }

  /** A timer's callback is a timer of a run that fires. */
  method TimeoutStep(coordinator: Coordinator.Coordinator, id: int, ghost req: nat, ghost p: Params, ghost s: State)
    requires Enabled(p, s, TimerFires(req)) && s.ids[req] == id && SamePending(coordinator.pending, s.pending)
    modifies coordinator, coordinator.table
    ensures var t := Apply(p, s, TimerFires(req));
            && SamePending(coordinator.pending, t.pending)
            && s.claims <= t.claims
            && coordinator.table.rows == old(coordinator.table.rows) + RowsOf(t.claims[|s.claims|..])
  {
    coordinator.OnTimeout(id);
    assert RowsOf([]) == [];
  }

  // ----- Putting runs together -----

  lemma RunCons(p: Params, s: State, step: Step, rest: seq<Step>)
    requires Admitted(p, s, step, true) && Run(p, Apply(p, s, step), rest, true)
    ensures Run(p, s, [step] + rest, true)
    ensures Final(p, s, [step] + rest, true) == Final(p, Apply(p, s, step), rest, true)
  {
    assert ([step] + rest)[1..] == rest;
  }

  lemma RunOne(p: Params, s: State, step: Step)
    requires Admitted(p, s, step, true)
    ensures Run(p, s, [step], true) && Final(p, s, [step], true) == Apply(p, s, step)
  {
    assert [step] + [] == [step];
    RunCons(p, s, step, []);
  }

  lemma RunTwo(p: Params, s: State, first: Step, second: Step) returns (steps: seq<Step>)
    requires Admitted(p, s, first, true)
    requires Admitted(p, Apply(p, s, first), second, true)
    ensures Run(p, s, steps, true)
    ensures Final(p, s, steps, true) == Apply(p, Apply(p, s, first), second)
  {
    RunOne(p, Apply(p, s, first), second);
    RunCons(p, s, first, [second]);
    steps := [first] + [second];
  }

  /** Runs follow one another. */
  lemma {:induction false} RunAppend(p: Params, s: State, a: seq<Step>, b: seq<Step>)
    requires Run(p, s, a, true) && Run(p, Final(p, s, a, true), b, true)
    ensures Run(p, s, a + b, true)
    ensures Final(p, s, a + b, true) == Final(p, Final(p, s, a, true), b, true)
    decreases |a|
  {
    if a == [] {
      assert a + b == b;
    } else {
      var t, rest := Apply(p, s, a[0]), a[1..];
      assert Final(p, s, a, true) == Final(p, t, rest, true);
      RunAppend(p, t, rest, b);
      RunCons(p, s, a[0], rest + b);
      assert [a[0]] + (rest + b) == a + b;
    }
  }
}
