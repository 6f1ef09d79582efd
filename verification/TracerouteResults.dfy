/**
 Exactly-once results. Every request ever started is in exactly one place: in the poll loop's
 hands, in the dictionary, in the hands of the thread that took it out, among the results, or
 lost. The dictionary's lock is what keeps it so, given that packet ids are not reused.
 */
module TracerouteResults {
  import opened Arithmetic
  import opened Options
  import opened TracerouteStore
  import opened TracerouteRuns
  import Coordinator = TracerouteCoordinator
  import Scheduler = TracerouteScheduler
  import NodeIds

  // ----- The invariant -----

  predicate Holds(poller: Poller, i: nat) {
    (poller.Sending? || poller.Sent?) && poller.entry.req == i
  }

  /** In how many places a request is. */
  function Places(s: State, i: nat): nat {
    One(Holds(s.poller, i)) + One(i in Waiting(s.pending))
    + Times(s.claims, i) + Times(s.emitted, i) + One(i in s.dropped)
  }

  ghost predicate Placed(s: State) {
    forall i: nat :: Places(s, i) == One(i < |s.reqs|)
  }

  predicate Known(reqs: seq<Request>, e: Entry) {
    e.req < |reqs| && reqs[e.req] == e.request
  }

  /** The packet id under which a request was sent. */
  predicate SentAs(ids: map<nat, int>, req: nat, id: int) {
    req in ids && ids[req] == id
  }

  ghost predicate Keyed(reqs: seq<Request>, from: nat, ids: map<nat, int>, pending: map<int, Entry>) {
    forall a :: a in pending ==>
      Known(reqs, pending[a]) && pending[a].req >= from && SentAs(ids, pending[a].req, a)
  }

  ghost predicate IdsOk(reqs: seq<Request>, from: nat, ids: map<nat, int>) {
    && from <= |reqs|
    && (forall i :: i in ids ==> i < |reqs|)
    && (forall i, j :: i in ids && j in ids && i >= from && j >= from && ids[i] == ids[j] ==> i == j)
  }

  predicate PollerOk(reqs: seq<Request>, from: nat, ids: map<nat, int>, poller: Poller) {
    match poller
    case Idle => true
    case Chosen(target, _) => NodeIds.Normalize(NodeIds.Text(target)).Accepted?
    case Sending(e) => Known(reqs, e) && e.req >= from && e.req !in ids
    case Sent(e, id) => Known(reqs, e) && e.req >= from && SentAs(ids, e.req, id)
    case Arming(e, id) => Known(reqs, e) && e.req >= from && SentAs(ids, e.req, id)
  }

  ghost predicate FiredOk(ids: map<nat, int>, pending: map<int, Entry>, poller: Poller, fired: set<nat>) {
    forall i :: i in fired ==> i in ids && i !in Waiting(pending) && !Holds(poller, i)
  }

  ghost predicate ArmedOk(ids: map<nat, int>, from: nat, poller: Poller, armed: map<nat, real>) {
    forall i :: i in armed ==> i in ids && i >= from && !Holds(poller, i)
  }

  /** Whatever waits in the dictionary has its timer running, or is about to. */
  ghost predicate TimersCover(pending: map<int, Entry>, poller: Poller, armed: map<nat, real>) {
    forall a :: a in pending ==> pending[a].req in armed || (poller.Arming? && poller.entry == pending[a])
  }

  /** What took a request out really was its own reply, its own timer or its own failed send. */
  predicate Evidence(reqs: seq<Request>, ids: map<nat, int>, c: Claim) {
    && Known(reqs, c.entry)
    && match c.via
       case Reply(id, sender, _) => SentAs(ids, c.entry.req, id) && sender == c.entry.request.destNum
       case Expired(id) => SentAs(ids, c.entry.req, id)
       case SendFailed => c.entry.req !in ids
  }

  ghost predicate Evident(reqs: seq<Request>, ids: map<nat, int>, claims: seq<Claim>) {
    forall k :: 0 <= k < |claims| ==> Evidence(reqs, ids, claims[k])
  }

  ghost predicate Current(from: nat, claims: seq<Claim>) {
    forall k :: 0 <= k < |claims| ==> claims[k].entry.req >= from
  }

  /** The table holds results only, and none of them twice. */
  ghost predicate TableOk(table: seq<Claim>, emitted: seq<Claim>) {
    && (forall c :: c in table ==> c in emitted)
    && (forall i: nat :: Times(table, i) <= Times(emitted, i))
  }

  predicate RestingOk(s: State) {
    !s.alive ==> s.poller == Idle && s.pending == map[] && s.claims == [] && s.armed == map[]
  }

  ghost predicate Inv(s: State) {
    && Placed(s)
    && Keyed(s.reqs, s.sessionFrom, s.ids, s.pending)
    && IdsOk(s.reqs, s.sessionFrom, s.ids)
    && PollerOk(s.reqs, s.sessionFrom, s.ids, s.poller)
    && FiredOk(s.ids, s.pending, s.poller, s.fired)
    && ArmedOk(s.ids, s.sessionFrom, s.poller, s.armed)
    && TimersCover(s.pending, s.poller, s.armed)
    && Evident(s.reqs, s.ids, s.claims)
    && Evident(s.reqs, s.ids, s.emitted)
    && Current(s.sessionFrom, s.claims)
    && TableOk(s.table, s.emitted)
    && RestingOk(s)
  }

  // ----- Counting claims -----

  lemma TimesAppend(claims: seq<Claim>, c: Claim, i: nat)
    ensures Times(claims + [c], i) == Times(claims, i) + One(c.entry.req == i)
  {
    assert (claims + [c])[..|claims|] == claims;
  }

  function Without<T>(xs: seq<T>, k: nat): (r: seq<T>)
    requires k < |xs|
    ensures |r| == |xs| - 1
    ensures forall j :: 0 <= j < |r| ==> r[j] == if j < k then xs[j] else xs[j + 1]
  {
    xs[..k] + xs[k + 1..]
  }

  lemma {:induction false} TimesRemove(claims: seq<Claim>, k: nat, i: nat)
    requires k < |claims|
    ensures Times(claims, i) == Times(Without(claims, k), i) + One(claims[k].entry.req == i)
  {
    var last := |claims| - 1;
    if k == last {
      assert Without(claims, k) == claims[..last];
    } else {
      TimesRemove(claims[..last], k, i);
      assert Without(claims, k)[..last - 1] == Without(claims[..last], k);
    }
  }

  lemma {:induction false} TimesMember(claims: seq<Claim>, i: nat)
    ensures Times(claims, i) > 0 <==> exists k :: 0 <= k < |claims| && claims[k].entry.req == i
  {
    if claims != [] {
      TimesMember(claims[..|claims| - 1], i);
    }
  }

  lemma {:induction false} TimesOfYounger(table: seq<Claim>, cutoff: real, i: nat)
    ensures Times(Younger(table, cutoff), i) <= Times(table, i)
  {
    if table != [] {
      TimesOfYounger(table[..|table| - 1], cutoff, i);
      if table[|table| - 1].entry.request.sent >= cutoff {
        TimesAppend(Younger(table[..|table| - 1], cutoff), table[|table| - 1], i);
      }
    }
  }

  // ----- The dictionary -----

  lemma WaitingAfterRegister(pending: map<int, Entry>, id: int, e: Entry, i: nat)
    requires id !in pending
    ensures i in Waiting(Coordinator.Registered(pending, id, e)) <==> i in Waiting(pending) || i == e.req
  {
    var after := Coordinator.Registered(pending, id, e);
    if i in Waiting(pending) {
      var a :| a in pending && pending[a].req == i;
      assert a in after && after[a].req == i;
    }
    if i == e.req {
      assert id in after && after[id].req == i;
    }
  }

  lemma WaitingAfterTake(reqs: seq<Request>, from: nat, ids: map<nat, int>, pending: map<int, Entry>, id: int, i: nat)
    requires Keyed(reqs, from, ids, pending)
    requires id in pending
    ensures i in Waiting(pending - {id}) <==> i in Waiting(pending) && i != pending[id].req
    ensures pending[id].req in Waiting(pending)
  {
    var after := pending - {id};
    if i in Waiting(pending) && i != pending[id].req {
      var a :| a in pending && pending[a].req == i;
      assert a in after && after[a].req == i;
    }
    if i in Waiting(after) {
      var a :| a in after && after[a].req == i;
      assert a in pending && a != id;
      assert SentAs(ids, pending[a].req, a) && SentAs(ids, pending[id].req, id);
    }
  }

  // ----- Steps -----

  lemma InitInv(now: real)
    ensures Inv(Init(now))
  {
    forall i: nat ensures Places(Init(now), i) == 0 {}
  }

  /** Requests never move once appended, so whatever is known stays known. */
  lemma AppendKeepsEvidence(reqs: seq<Request>, q: Request, ids: map<nat, int>, claims: seq<Claim>)
    requires Evident(reqs, ids, claims)
    ensures Evident(reqs + [q], ids, claims)
  {
    forall k | 0 <= k < |claims| ensures Evidence(reqs + [q], ids, claims[k]) {
      assert Evidence(reqs, ids, claims[k]);
    }
  }

  lemma BeginPlaced(s: State, t: State, e: Entry)
    requires Placed(s) && (s.poller.Idle? || s.poller.Chosen?)
    requires e.req == |s.reqs|
    requires t == s.(reqs := s.reqs + [e.request], poller := Sending(e))
    ensures Placed(t)
  {
    forall i: nat ensures Places(t, i) == One(i < |t.reqs|) {
      assert Places(s, i) == One(i < |s.reqs|);
    }
  }

  lemma BeginKeyed(reqs: seq<Request>, q: Request, from: nat, ids: map<nat, int>, pending: map<int, Entry>)
    requires Keyed(reqs, from, ids, pending) && IdsOk(reqs, from, ids)
    ensures Keyed(reqs + [q], from, ids, pending) && IdsOk(reqs + [q], from, ids)
  {
    forall a | a in pending
      ensures Known(reqs + [q], pending[a]) && pending[a].req >= from && SentAs(ids, pending[a].req, a)
    {
      assert Known(reqs, pending[a]);
    }
  }

  lemma BeginInv(s: State, dest: string, source: string, timeout: real, decidedAt: real)
    requires Inv(s) && s.alive && (s.poller.Idle? || s.poller.Chosen?)
    requires NodeIds.Normalize(NodeIds.Text(dest)).Accepted?
    ensures Inv(Begin(s, dest, source, timeout, decidedAt))
  {
    var t := Begin(s, dest, source, timeout, decidedAt);
    var e := t.poller.entry;
    BeginPlaced(s, t, e);
    BeginKeyed(s.reqs, e.request, s.sessionFrom, s.ids, s.pending);
    AppendKeepsEvidence(s.reqs, e.request, s.ids, s.claims);
    AppendKeepsEvidence(s.reqs, e.request, s.ids, s.emitted);
    assert e.req !in s.ids;
  }

  lemma NewIdKeepsEvidence(reqs: seq<Request>, ids: map<nat, int>, req: nat, id: int, claims: seq<Claim>)
    requires Evident(reqs, ids, claims) && req !in ids && Times(claims, req) == 0
    ensures Evident(reqs, ids[req := id], claims)
  {
    TimesMember(claims, req);
    forall k | 0 <= k < |claims| ensures Evidence(reqs, ids[req := id], claims[k]) {
      assert Evidence(reqs, ids, claims[k]);
    }
  }

  lemma NewIdKeepsKeys(reqs: seq<Request>, from: nat, ids: map<nat, int>, req: nat, id: int, pending: map<int, Entry>)
    requires Keyed(reqs, from, ids, pending) && IdsOk(reqs, from, ids)
    requires req !in ids && req < |reqs|
    requires forall i :: i in ids && i >= from ==> ids[i] != id
    ensures Keyed(reqs, from, ids[req := id], pending) && IdsOk(reqs, from, ids[req := id])
  {
    var after := ids[req := id];
    forall a | a in pending
      ensures Known(reqs, pending[a]) && pending[a].req >= from && SentAs(after, pending[a].req, a)
    {
      assert SentAs(ids, pending[a].req, a);
    }
  }

  lemma SendOkInv(p: Params, s: State, packetId: int)
    requires Inv(s) && Enabled(p, s, SendOk(packetId)) && Fresh(s, SendOk(packetId))
    ensures Inv(Apply(p, s, SendOk(packetId)))
  {
    var t := Apply(p, s, SendOk(packetId));
    var req := s.poller.entry.req;
    forall i: nat ensures Places(t, i) == One(i < |t.reqs|) {
      assert Places(s, i) == One(i < |s.reqs|);
    }
    assert Places(s, req) == One(req < |s.reqs|);
    NewIdKeepsKeys(s.reqs, s.sessionFrom, s.ids, req, packetId, s.pending);
    NewIdKeepsEvidence(s.reqs, s.ids, req, packetId, s.claims);
    NewIdKeepsEvidence(s.reqs, s.ids, req, packetId, s.emitted);
  }

  lemma SendFailsInv(p: Params, s: State)
    requires Inv(s) && Enabled(p, s, SendFails)
    ensures Inv(Apply(p, s, SendFails))
  {
    var t := Apply(p, s, SendFails);
    forall i: nat ensures Places(t, i) == One(i < |t.reqs|) {
      assert Places(s, i) == One(i < |s.reqs|);
      TimesAppend(s.claims, Claim(s.poller.entry, SendFailed, None, s.now), i);
    }
  }

  lemma OwnerOfKey(reqs: seq<Request>, from: nat, ids: map<nat, int>, pending: map<int, Entry>, id: int, req: nat)
    requires Keyed(reqs, from, ids, pending) && IdsOk(reqs, from, ids)
    requires SentAs(ids, req, id) && req >= from
    ensures id in pending ==> pending[id].req == req && req in Waiting(pending)
  {
    assert id in pending ==> SentAs(ids, pending[id].req, id);
  }

  lemma RegisterIsNew(s: State)
    requires Inv(s) && s.poller.Sent?
    ensures s.poller.packetId !in s.pending
  {
    var e, id := s.poller.entry, s.poller.packetId;
    assert Places(s, e.req) == One(e.req < |s.reqs|);
    OwnerOfKey(s.reqs, s.sessionFrom, s.ids, s.pending, id, e.req);
  }

  lemma RegisterInv(p: Params, s: State)
    requires Inv(s) && Enabled(p, s, Register)
    ensures Inv(Apply(p, s, Register))
  {
    var t := Apply(p, s, Register);
    var e, id := s.poller.entry, s.poller.packetId;
    RegisterIsNew(s);
    forall i: nat ensures Places(t, i) == One(i < |t.reqs|) {
      assert Places(s, i) == One(i < |s.reqs|);
      WaitingAfterRegister(s.pending, id, e, i);
    }
    forall i | i in s.fired ensures i !in Waiting(t.pending) {
      WaitingAfterRegister(s.pending, id, e, i);
    }
  }

  lemma TakenPlaced(s: State, id: int, c: Claim, t: State)
    requires Placed(s) && Keyed(s.reqs, s.sessionFrom, s.ids, s.pending) && id in s.pending && c.entry == s.pending[id]
    requires t == s.(pending := s.pending - {id}, claims := s.claims + [c])
    ensures Placed(t)
  {
    forall i: nat ensures Places(t, i) == One(i < |t.reqs|) {
      assert Places(s, i) == One(i < |s.reqs|);
      WaitingAfterTake(s.reqs, s.sessionFrom, s.ids, s.pending, id, i);
      TimesAppend(s.claims, c, i);
    }
  }

  /** Taking the entry of a packet id out moves its request from the dictionary to one claim. */
  lemma TakenInv(s: State, id: int, via: Via, recv: Option<real>, t: State)
    requires Inv(s) && s.alive && id in s.pending
    requires t == s.(pending := s.pending - {id}, claims := s.claims + [Claim(s.pending[id], via, recv, s.now)])
    requires Evidence(s.reqs, s.ids, Claim(s.pending[id], via, recv, s.now))
    ensures Inv(t)
    ensures s.pending[id].req !in Waiting(t.pending)
  {
    TakenPlaced(s, id, Claim(s.pending[id], via, recv, s.now), t);
    forall i ensures i in Waiting(t.pending) <==> i in Waiting(s.pending) && i != s.pending[id].req {
      WaitingAfterTake(s.reqs, s.sessionFrom, s.ids, s.pending, id, i);
    }
  }

  lemma ReceiveInv(p: Params, s: State, id: int, sender: int, readable: bool)
    requires Inv(s) && Enabled(p, s, Receive(id, sender, readable))
    ensures Inv(Apply(p, s, Receive(id, sender, readable)))
  {
    if id in s.pending && s.pending[id].request.destNum == sender {
      TakenInv(s, id, Reply(id, sender, readable), Some(s.now), Apply(p, s, Receive(id, sender, readable)));
    }
  }

  lemma FiredInv(s: State, req: nat)
    requires Inv(s) && req in s.ids && !Holds(s.poller, req) && req !in Waiting(s.pending)
    ensures Inv(s.(fired := s.fired + {req}))
  {
    var t := s.(fired := s.fired + {req});
    forall i: nat ensures Places(t, i) == One(i < |t.reqs|) {
      assert Places(s, i) == One(i < |s.reqs|);
    }
  }

  lemma TimerFiresInv(p: Params, s: State, req: nat)
    requires Inv(s) && Enabled(p, s, TimerFires(req))
    ensures Inv(Apply(p, s, TimerFires(req)))
  {
    var id := s.ids[req];
    if id in s.pending {
      var u := s.(pending := s.pending - {id}, claims := s.claims + [Claim(s.pending[id], Expired(id), None, s.now)]);
      assert SentAs(s.ids, s.pending[id].req, id);
      TakenInv(s, id, Expired(id), None, u);
      FiredInv(u, req);
      assert Apply(p, s, TimerFires(req)) == u.(fired := u.fired + {req});
    } else {
      forall a | a in s.pending ensures s.pending[a].req != req {
        assert SentAs(s.ids, s.pending[a].req, a);
      }
      FiredInv(s, req);
    }
  }

  lemma EmitPlaced(s: State, k: nat, t: State)
    requires Placed(s) && k < |s.claims|
    requires t == s.(claims := Without(s.claims, k), emitted := s.emitted + [s.claims[k]], table := t.table)
    ensures Placed(t)
  {
    forall i: nat ensures Places(t, i) == One(i < |t.reqs|) {
      assert Places(s, i) == One(i < |s.reqs|);
      TimesRemove(s.claims, k, i);
      TimesAppend(s.emitted, s.claims[k], i);
    }
  }

  lemma EmitTable(table: seq<Claim>, emitted: seq<Claim>, c: Claim)
    requires TableOk(table, emitted)
    ensures TableOk(table + [c], emitted + [c])
  {
    forall i: nat ensures Times(table + [c], i) <= Times(emitted + [c], i) {
      TimesAppend(table, c, i);
      TimesAppend(emitted, c, i);
    }
  }

  lemma EmitInv(p: Params, s: State, k: nat)
    requires Inv(s) && Enabled(p, s, Emit(k))
    ensures Inv(Apply(p, s, Emit(k)))
  {
    var t := Apply(p, s, Emit(k));
    assert t.claims == Without(s.claims, k);
    assert Evidence(s.reqs, s.ids, s.claims[k]);
    EmitPlaced(s, k, t);
    EmitTable(s.table, s.emitted, s.claims[k]);
  }

  lemma CancelAllInv(p: Params, s: State)
    requires Inv(s) && Enabled(p, s, CancelAll)
    ensures Inv(Apply(p, s, CancelAll))
  {
    var t := Apply(p, s, CancelAll);
    forall i: nat ensures Places(t, i) == One(i < |t.reqs|) {
      assert Places(s, i) == One(i < |s.reqs|);
    }
  }

  lemma DieInv(p: Params, s: State)
    requires Inv(s) && Enabled(p, s, Die)
    ensures Inv(Apply(p, s, Die))
  {
    var t := Apply(p, s, Die);
    forall i: nat ensures Places(t, i) == One(i < |t.reqs|) {
      assert Places(s, i) == One(i < |s.reqs|);
      assert i in t.dropped <==> i < |s.reqs| && !Answered(s, i);
    }
  }

  lemma PruneTable(table: seq<Claim>, emitted: seq<Claim>, cutoff: real)
    requires TableOk(table, emitted)
    ensures TableOk(Younger(table, cutoff), emitted)
  {
    forall i: nat ensures Times(Younger(table, cutoff), i) <= Times(emitted, i) {
      TimesOfYounger(table, cutoff, i);
    }
  }

  lemma PruneInv(p: Params, s: State, olderThan: real)
    requires Inv(s)
    ensures Inv(Apply(p, s, Prune(olderThan)))
  {
    var t := Apply(p, s, Prune(olderThan));
    forall i: nat ensures Places(t, i) == One(i < |t.reqs|) {
      assert Places(s, i) == One(i < |s.reqs|);
    }
    PruneTable(s.table, s.emitted, s.now - olderThan);
  }

  lemma QuietInv(p: Params, s: State, step: Step)
    requires Inv(s) && Enabled(p, s, step)
    requires step.Advance? || step.TickSkip? || step.TickSend?
    ensures Inv(Apply(p, s, step))
  {
    var t := Apply(p, s, step);
    forall i: nat ensures Places(t, i) == One(i < |t.reqs|) {
      assert Places(s, i) == One(i < |s.reqs|);
    }
  }

  lemma ArmInv(p: Params, s: State)
    requires Inv(s) && Enabled(p, s, Arm)
    ensures Inv(Apply(p, s, Arm))
  {
    var t := Apply(p, s, Arm);
    forall i: nat ensures Places(t, i) == One(i < |t.reqs|) {
      assert Places(s, i) == One(i < |s.reqs|);
    }
  }

  lemma RespawnInv(p: Params, s: State, jitter: real)
    requires Inv(s) && Enabled(p, s, Respawn(jitter))
    ensures Inv(Apply(p, s, Respawn(jitter)))
  {
    var t := Apply(p, s, Respawn(jitter));
    forall i: nat ensures Places(t, i) == One(i < |t.reqs|) {
      assert Places(s, i) == One(i < |s.reqs|);
    }
  }

  lemma StepInv(p: Params, s: State, step: Step)
    requires Inv(s) && Enabled(p, s, step) && Fresh(s, step)
    ensures Inv(Apply(p, s, step))
  {
    match step {
      case Stamp =>
        BeginInv(s, s.poller.dest, SCHEDULER_PREFIX + p.cfg.policy, Scheduler.TIMEOUT_S, s.poller.decidedAt);
      case ApiStart(dest, timeout) => BeginInv(s, dest, "api", timeout, s.now);
      case SendOk(id) => SendOkInv(p, s, id);
      case SendFails => SendFailsInv(p, s);
      case Register => RegisterInv(p, s);
      case Arm => ArmInv(p, s);
      case Receive(id, sender, readable) => ReceiveInv(p, s, id, sender, readable);
      case TimerFires(req) => TimerFiresInv(p, s, req);
      case Emit(k) => EmitInv(p, s, k);
      case CancelAll => CancelAllInv(p, s);
      case Die => DieInv(p, s);
      case Respawn(jitter) => RespawnInv(p, s, jitter);
      case Prune(olderThan) => PruneInv(p, s, olderThan);
      case _ => QuietInv(p, s, step);
    }
  }

  lemma {:induction false} RunInv(p: Params, s: State, steps: seq<Step>, timed: bool)
    requires Inv(s) && Run(p, s, steps, timed)
    ensures Inv(Final(p, s, steps, timed))
    decreases |steps|
  {
    if steps != [] {
      StepInv(p, s, steps[0]);
      RunInv(p, Apply(p, s, steps[0]), steps[1..], timed);
    }
  }

  // ----- Main results -----

  /** In every interleaving, no request is ever given two results. */
  lemma AtMostOneResult(p: Params, start: real, steps: seq<Step>, i: nat)
    requires Run(p, Init(start), steps, false)
    ensures Times(Final(p, Init(start), steps, false).emitted, i) <= 1
  {
    InitInv(start);
    RunInv(p, Init(start), steps, false);
    var s := Final(p, Init(start), steps, false);
    assert Places(s, i) == One(i < |s.reqs|);
  }

  /** Once its timer has run, a request that nobody dropped has a result, or is about to be given its only one. */
  lemma ExactlyOneResult(p: Params, start: real, steps: seq<Step>, i: nat)
    requires Run(p, Init(start), steps, false)
    ensures var s := Final(p, Init(start), steps, false);
            i in s.fired && i !in s.dropped ==> Times(s.claims, i) + Times(s.emitted, i) == 1
    ensures var s := Final(p, Init(start), steps, false);
            i in s.fired && i !in s.dropped && s.claims == [] ==> Times(s.emitted, i) == 1
  {
    InitInv(start);
    RunInv(p, Init(start), steps, false);
    var s := Final(p, Init(start), steps, false);
    assert Places(s, i) == One(i < |s.reqs|);
  }

  /**
   Whatever was received before, early or late, the timer of a live request can run from its deadline
   on, and ends it: right after the callback the request is no longer waiting and has exactly one
   result, in hand or emitted.
   */
  lemma TimerEndsTheRequest(p: Params, start: real, steps: seq<Step>, i: nat)
    requires Run(p, Init(start), steps, false)
    requires var s := Final(p, Init(start), steps, false);
             s.alive && i in s.armed && s.now >= s.armed[i] && i !in s.dropped
    ensures var s := Final(p, Init(start), steps, false);
            && Enabled(p, s, TimerFires(i))
            && var t := Apply(p, s, TimerFires(i));
               i !in Waiting(t.pending) && Times(t.claims, i) + Times(t.emitted, i) == 1
  {
    InitInv(start);
    RunInv(p, Init(start), steps, false);
    var s := Final(p, Init(start), steps, false);
    TimerFiresInv(p, s, i);
    var t := Apply(p, s, TimerFires(i));
    assert i in t.fired;
    assert Places(t, i) == One(i < |t.reqs|);
  }

  /**
   A reply under the id of a waiting request, from the node it was sent to, ends that request at once: it
   no longer waits, and its one result is the row of that reply, `ok` when the reply is readable.
   */
  lemma MatchingReplyEndsTheRequest(
    p: Params, start: real, steps: seq<Step>, id: int, sender: int, readable: bool)
    requires Run(p, Init(start), steps, false)
    requires var s := Final(p, Init(start), steps, false);
             s.alive && id in s.pending && s.pending[id].request.destNum == sender
    ensures var s := Final(p, Init(start), steps, false);
            && Enabled(p, s, Receive(id, sender, readable))
            && var t, i, q := Apply(p, s, Receive(id, sender, readable)), s.pending[id].req, s.pending[id].request;
               && i < |s.reqs| && s.reqs[i] == q
               && i !in Waiting(t.pending) && Times(t.claims, i) == 1 && Times(t.emitted, i) == 0
               && |t.claims| == |s.claims| + 1 && t.claims[|s.claims|].entry.req == i
               && RowOf(t.claims[|s.claims|]) ==
                    Row(id, q.dest, if readable then Ok else Error, q.sent, Some(s.now), q.source)
  {
    InitInv(start);
    RunInv(p, Init(start), steps, false);
    var s := Final(p, Init(start), steps, false);
    var t, i := Apply(p, s, Receive(id, sender, readable)), s.pending[id].req;
    ReceiveInv(p, s, id, sender, readable);
    TimesAppend(s.claims, t.claims[|s.claims|], i);
    assert t.claims == s.claims + [t.claims[|s.claims|]];
    assert Places(t, i) == One(i < |t.reqs|);
  }

  /** A result says `ok` only for a readable reply under the id of that very send, from the traced node. */
  lemma OkNeedsTheMatchingReply(p: Params, start: real, steps: seq<Step>, k: nat)
    requires Run(p, Init(start), steps, false)
    requires k < |Final(p, Init(start), steps, false).emitted|
    requires StatusOf(Final(p, Init(start), steps, false).emitted[k].via) == Ok
    ensures var s := Final(p, Init(start), steps, false);
            var c := s.emitted[k];
            && c.entry.req < |s.reqs|
            && c.via.Reply? && c.via.readable
            && c.entry.req in s.ids && c.via.requestId == s.ids[c.entry.req]
            && c.via.sender == s.reqs[c.entry.req].destNum
  {
    InitInv(start);
    RunInv(p, Init(start), steps, false);
    var s := Final(p, Init(start), steps, false);
    assert Evidence(s.reqs, s.ids, s.emitted[k]);
  }

  // ----- What a reused packet id does -----

  ghost predicate NoSharedEntry(pending: map<int, Entry>) {
    forall a, b :: a in pending && b in pending && pending[a].req == pending[b].req ==> a == b
  }

  /** Registering keeps every request accounted for exactly when the packet id is not already waiting. */
  lemma RegisterNeedsAFreeId(p: Params, s: State)
    requires Placed(s) && NoSharedEntry(s.pending) && s.poller.Sent?
    ensures Placed(Apply(p, s, Register)) <==> s.poller.packetId !in s.pending
  {
    var e, id := s.poller.entry, s.poller.packetId;
    var t := Apply(p, s, Register);
    if id !in s.pending {
      forall i: nat ensures Places(t, i) == One(i < |t.reqs|) {
        assert Places(s, i) == One(i < |s.reqs|);
        WaitingAfterRegister(s.pending, id, e, i);
      }
    } else {
      var j := s.pending[id].req;
      assert j in Waiting(s.pending);
      assert Places(s, j) == One(j < |s.reqs|);
      assert j != e.req;
      forall a | a in t.pending ensures t.pending[a].req != j {
        assert a == id || (a in s.pending && t.pending[a] == s.pending[a]);
      }
      assert Places(t, j) == 0;
    }
  }
}
