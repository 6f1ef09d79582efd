/**
 A blocking traceroute, end to end: the API waits in one process for the row that the coordinator's
 reply handler or timer writes in another. What it may read is what a timed run leaves in the table.
 */
module TracerouteBlocking {
  import opened Arithmetic
  import opened Options
  import opened TracerouteStore
  import opened TracerouteRuns
  import opened TracerouteResults
  import opened TracerouteTiming
  import NodeIds
  import Wait = TracerouteWait

  // ----- The states along a run -----

  lemma {:induction false} RunPrefix(p: Params, s: State, steps: seq<Step>, k: nat)
    requires Run(p, s, steps, true) && k <= |steps|
    ensures Run(p, s, steps[..k], true)
    ensures Run(p, Final(p, s, steps[..k], true), steps[k..], true)
    ensures Final(p, Final(p, s, steps[..k], true), steps[k..], true) == Final(p, s, steps, true)
    decreases k
  {
    if k == 0 {
      assert steps[..0] == [] && steps[0..] == steps;
    } else {
      RunPrefix(p, Apply(p, s, steps[0]), steps[1..], k - 1);
      RunCons(p, s, steps[0], steps[1..][..k - 1]);
      assert [steps[0]] + steps[1..][..k - 1] == steps[..k];
      assert steps[1..][k - 1..] == steps[k..];
    }
  }

  /** What one step leaves of a request whose timer is running at the end: all of it, unless it armed it only now. */
  predicate Traced(s: State, t: State, i: nat) {
    && s.now <= t.now
    && (i in t.dropped || i !in s.dropped)
    && (i in t.armed ==> s.now <= t.armed[i] || (i in s.armed && s.armed[i] == t.armed[i]))
    && (i in s.ids ==> i in t.ids && t.ids[i] == s.ids[i])
    && s.reqs <= t.reqs
  }

  lemma StepTraced(p: Params, s: State, step: Step, i: nat)
    requires Inv(s) && Enabled(p, s, step)
    ensures Traced(s, Apply(p, s, step), i)
  {
    if step.Die? {
      assert Places(s, i) == One(i < |s.reqs|);
    }
  }

  lemma {:induction false} RunTraced(p: Params, s: State, steps: seq<Step>, i: nat)
    requires Inv(s) && Run(p, s, steps, true)
    ensures Traced(s, Final(p, s, steps, true), i)
    decreases |steps|
  {
    if steps != [] {
      StepInv(p, s, steps[0]);
      StepTraced(p, s, steps[0], i);
      RunTraced(p, Apply(p, s, steps[0]), steps[1..], i);
    }
  }

  // ----- The row of a request -----

  /** The request is live and its timer has been armed. */
  predicate Armed(s: State, i: nat) {
    s.alive && i < |s.reqs| && i in s.armed && i in s.ids && i !in s.dropped
  }

  /** From then on the result of an armed request is on record. */
  function ReadableFrom(p: Params, s: State, i: nat): real
    requires i in s.armed
  {
    s.armed[i] + p.timerLag + p.emitLag
  }

  /** A recorded result is found by its packet id, whoever wrote it, until a prune takes it. */
  lemma RowIsReadable(p: Params, s: State, i: nat) returns (c: Claim)
    requires DelaysOk(p) && Sound(p, s) && Kept(p, s.now, s.emitted, s.table) && Armed(s, i)
    requires ReadableFrom(p, s, i) < s.now <= s.reqs[i].sent + p.keep
    ensures c in s.table && c.entry == Entry(i, s.reqs[i]) && RequestIdOf(c.via) == s.ids[i]
    ensures ByRequestId(RowsOf(s.table), s.ids[i]).Some?
  {
    if Unresolved(s, i) {
      UnresolvedIsRecent(p, s, i);
    }
    assert Times(s.emitted, i) > 0;
    TimesMember(s.emitted, i);
    var k: nat :| k < |s.emitted| && s.emitted[k].entry.req == i;
    c := s.emitted[k];
    assert Evidence(s.reqs, s.ids, c);
    var j: nat :| j < |s.table| && s.table[j] == c;
    assert RowsOf(s.table)[j] == RowOf(c);
    assert RowsOf(s.table)[j] in RowsOf(s.table);
  }

  // ----- What a look may find instead -----

  /** Another request left a row under the same packet id. */
  ghost predicate Shadowed(s: State, i: nat)
    requires i in s.ids
  {
    exists c :: c in s.table && c.entry.req != i && RequestIdOf(c.via) == s.ids[i]
  }

  lemma FoundIsARow(table: seq<Claim>, id: int) returns (c: Claim)
    requires ByRequestId(RowsOf(table), id).Some?
    ensures c in table && RowOf(c) == ByRequestId(RowsOf(table), id).value && RequestIdOf(c.via) == id
  {
    var rows := RowsOf(table);
    var k: nat :| k < |rows| && rows[k] == ByRequestId(rows, id).value;
    c := table[k];
  }

  /** Within one session ids differ, so only an earlier one can have left such a row, or a failed send under id 0. */
  lemma ShadowsAreOlder(s: State, i: nat, c: Claim)
    requires Inv(s) && i in s.ids && i >= s.sessionFrom
    requires c in s.table && c.entry.req != i && RequestIdOf(c.via) == s.ids[i]
    ensures c.entry.req < s.sessionFrom || (s.ids[i] == 0 && c.via.SendFailed?)
  {
    var k: nat :| k < |s.emitted| && s.emitted[k] == c;
    assert Evidence(s.reqs, s.ids, s.emitted[k]);
  }

  /**
   Until the result of a request is recorded, a look under its id finds something exactly when another
   request left a row there, and then that row is the answer; without one, whatever is ever found is
   the request's own row.
   */
  lemma WhatALookFinds(s: State, i: nat)
    requires Inv(s) && i in s.ids
    ensures var found := ByRequestId(RowsOf(s.table), s.ids[i]);
            && (!Answered(s, i) ==> (found.Some? <==> Shadowed(s, i)))
            && (found.Some? && !Shadowed(s, i) ==>
                  found.value.dest == s.reqs[i].dest && found.value.sent == s.reqs[i].sent)
  {
    var id := s.ids[i];
    if ByRequestId(RowsOf(s.table), id).Some? {
      var c := FoundIsARow(s.table, id);
      var k: nat :| k < |s.emitted| && s.emitted[k] == c;
      assert Evidence(s.reqs, s.ids, s.emitted[k]);
      TimesMember(s.emitted, i);
    }
    forall c | c in s.table && RequestIdOf(c.via) == id ensures ByRequestId(RowsOf(s.table), id).Some? {
      var k: nat :| k < |s.table| && s.table[k] == c;
      assert RowsOf(s.table)[k] == RowOf(c) && RowsOf(s.table)[k] in RowsOf(s.table);
    }
  }

  /** A claim not emitted yet cannot shadow a request of its own session: their ids differ, and 0 is not a packet's. */
  lemma ClaimsDoNotShadow(s: State, i: nat, k: nat)
    requires Inv(s) && i in s.ids && i >= s.sessionFrom && s.ids[i] != 0 && k < |s.claims|
    ensures RequestIdOf(s.claims[k].via) == s.ids[i] ==> s.claims[k].entry.req == i
  {
    assert Evidence(s.reqs, s.ids, s.claims[k]);
  }

  lemma StepNoShadow(p: Params, s: State, step: Step, i: nat)
    requires Inv(s) && Enabled(p, s, step) && i in s.ids && i >= s.sessionFrom && s.ids[i] != 0 && !Shadowed(s, i)
    ensures i in Apply(p, s, step).ids && Apply(p, s, step).ids[i] == s.ids[i] && !Shadowed(Apply(p, s, step), i)
  {
    if step.Emit? {
      ClaimsDoNotShadow(s, i, step.k);
    }
  }

  lemma SessionsGoOn(p: Params, s: State, step: Step)
    requires Inv(s) && Enabled(p, s, step)
    ensures Apply(p, s, step).sessionFrom >= s.sessionFrom
  {
  }

  lemma {:induction false} SessionsOnlyGoOn(p: Params, s: State, steps: seq<Step>)
    requires Inv(s) && Run(p, s, steps, true)
    ensures Final(p, s, steps, true).sessionFrom >= s.sessionFrom
    decreases |steps|
  {
    if steps != [] {
      StepInv(p, s, steps[0]);
      SessionsGoOn(p, s, steps[0]);
      SessionsOnlyGoOn(p, Apply(p, s, steps[0]), steps[1..]);
    }
  }

  /** A request that nothing shadows stays so for as long as its session lives. */
  lemma {:induction false} RunNoShadow(p: Params, s: State, steps: seq<Step>, i: nat)
    requires Inv(s) && Run(p, s, steps, true)
    requires i in s.ids && s.ids[i] != 0 && !Shadowed(s, i)
    requires i >= Final(p, s, steps, true).sessionFrom
    ensures i in Final(p, s, steps, true).ids && Final(p, s, steps, true).ids[i] == s.ids[i]
    ensures !Shadowed(Final(p, s, steps, true), i)
    decreases |steps|
  {
    if steps != [] {
      SessionsOnlyGoOn(p, s, steps);
      StepInv(p, s, steps[0]);
      StepNoShadow(p, s, steps[0], i);
      RunNoShadow(p, Apply(p, s, steps[0]), steps[1..], i);
    }
  }

  /**
   Once a request is on record, a look under its id finds a row of its own send time, which is its own row
   unless another request under that id was sent at the very same instant.
   */
  lemma OwnRowPrevails(s: State, i: nat, c: Claim)
    requires Inv(s) && InOrder(s) && i in s.ids && i >= s.sessionFrom && s.ids[i] != 0
    requires c in s.table && c.entry.req == i && RequestIdOf(c.via) == s.ids[i]
    ensures var found := ByRequestId(RowsOf(s.table), s.ids[i]);
            && found.Some? && found.value.sent == s.reqs[i].sent
            && (found.value.dest == s.reqs[i].dest ||
                exists j :: 0 <= j < s.sessionFrom && s.reqs[j].sent == s.reqs[i].sent)
  {
    var id := s.ids[i];
    var k: nat :| k < |s.table| && s.table[k] == c;
    assert RowsOf(s.table)[k] == RowOf(c) && RowsOf(s.table)[k] in RowsOf(s.table);
    var e: nat :| e < |s.emitted| && s.emitted[e] == c;
    assert Evidence(s.reqs, s.ids, s.emitted[e]);
    var d := FoundIsARow(s.table, id);
    var g: nat :| g < |s.emitted| && s.emitted[g] == d;
    assert Evidence(s.reqs, s.ids, s.emitted[g]);
    if d.entry.req != i {
      ShadowsAreOlder(s, i, d);
      assert s.reqs[d.entry.req].sent <= s.reqs[i].sent;
    }
  }

  /** Requests are stamped in order. */
  ghost predicate InOrder(s: State) {
    && (forall i :: 0 <= i < |s.reqs| ==> s.reqs[i].sent <= s.now)
    && (forall i, j :: 0 <= i <= j < |s.reqs| ==> s.reqs[i].sent <= s.reqs[j].sent)
  }

  lemma StepInOrder(p: Params, s: State, step: Step)
    requires Enabled(p, s, step) && InOrder(s)
    ensures InOrder(Apply(p, s, step))
  {
  }

  lemma {:induction false} RunInOrder(p: Params, s: State, steps: seq<Step>, timed: bool)
    requires Run(p, s, steps, timed) && InOrder(s)
    ensures InOrder(Final(p, s, steps, timed))
    decreases |steps|
  {
    if steps != [] {
      StepInOrder(p, s, steps[0]);
      RunInOrder(p, Apply(p, s, steps[0]), steps[1..], timed);
    }
  }

  // ----- A run with a shadow -----

  predicate Accepted(target: string) {
    NodeIds.Normalize(NodeIds.Text(target)).Accepted?
  }

  /** An API request sent under a packet id and registered. */
  function Asked(s: State, target: string, timeout: real, id: int): State
    requires Accepted(target)
  {
    var e := Begin(s, target, "api", timeout, s.now).poller.entry;
    s.(reqs := s.reqs + [e.request], ids := s.ids[e.req := id], pending := s.pending[id := e], poller := Arming(e, id))
  }

  lemma AskRuns(p: Params, s: State, target: string, timeout: real, id: int) returns (steps: seq<Step>)
    requires Accepted(target) && s.alive && s.poller.Idle?
    requires forall i :: i in s.ids && i >= s.sessionFrom ==> s.ids[i] != id
    ensures Run(p, s, steps, true) && Final(p, s, steps, true) == Asked(s, target, timeout, id)
  {
    var send := RunTwo(p, s, ApiStart(target, timeout), SendOk(id));
    var u := Final(p, s, send, true);
    RunOne(p, u, Register);
    RunAppend(p, s, send, [Register]);
    steps := send + [Register];
  }

  lemma ReplyRuns(p: Params, s: State, id: int) returns (steps: seq<Step>, c: Claim)
    requires s.alive && id in s.pending && s.claims == []
    ensures Run(p, s, steps, true) && c.entry == s.pending[id] && RequestIdOf(c.via) == id
    ensures Final(p, s, steps, true) ==
              s.(pending := s.pending - {id}, emitted := s.emitted + [c], table := s.table + [c])
  {
    var sender := s.pending[id].request.destNum;
    c := Claim(s.pending[id], Reply(id, sender, true), Some(s.now), s.now);
    steps := RunTwo(p, s, Receive(id, sender, true), Emit(0));
  }

  /** A session that starts after another one has left a row under an id. */
  predicate Haunted(s: State, id: int) {
    && s.alive && s.poller.Idle? && s.pending == map[] && s.claims == [] && s.dropped == {}
    && |s.reqs| == s.sessionFrom == 1 && s.ids == map[0 := id]
    && |s.table| == 1 && s.table[0].entry.req == 0 && RequestIdOf(s.table[0].via) == id && s.emitted == s.table
  }

  lemma DeadAndBack(p: Params, s: State, id: int) returns (steps: seq<Step>)
    requires s.alive && |s.reqs| == 1 && s.ids == map[0 := id]
    requires |s.table| == 1 && s.table[0].entry.req == 0 && RequestIdOf(s.table[0].via) == id && s.emitted == s.table
    ensures Run(p, s, steps, true) && Haunted(Final(p, s, steps, true), id)
  {
    assert s.emitted == [s.table[0]] && [s.table[0]][..0] == [];
    assert Times(s.emitted, 0) == 1;
    steps := RunTwo(p, s, Die, Respawn(0.0));
  }

  /** An API request is answered, and its session dies. */
  lemma AnsweredThenDead(p: Params, target: string, timeout: real, id: int) returns (steps: seq<Step>)
    requires Accepted(target)
    ensures Run(p, Init(0.0), steps, true) && Haunted(Final(p, Init(0.0), steps, true), id)
  {
    var s := Apply(p, Init(0.0), Respawn(0.0));
    RunOne(p, Init(0.0), Respawn(0.0));
    var ask := AskRuns(p, s, target, timeout, id);
    var u := Final(p, s, ask, true);
    var reply, c := ReplyRuns(p, u, id);
    var v := Final(p, u, reply, true);
    var die := DeadAndBack(p, v, id);
    RunAppend(p, u, reply, die);
    RunAppend(p, s, ask, reply + die);
    RunAppend(p, Init(0.0), [Respawn(0.0)], ask + (reply + die));
    steps := [Respawn(0.0)] + (ask + (reply + die));
  }

  lemma OldRowShadows(s: State, i: nat, id: int)
    requires i in s.ids && s.ids[i] == id && i != 0
    requires |s.table| == 1 && s.table[0].entry.req == 0 && RequestIdOf(s.table[0].via) == id && s.emitted == s.table
    ensures !Answered(s, i) && Shadowed(s, i) && ByRequestId(RowsOf(s.table), id).Some?
  {
    assert s.emitted == [] + [s.table[0]];
    TimesAppend([], s.table[0], i);
    assert s.table[0] in s.table;
    assert RowsOf(s.table)[0] in RowsOf(s.table);
  }

  lemma AskedAgain(p: Params, s: State, target: string, timeout: real, id: int) returns (steps: seq<Step>)
    requires Accepted(target) && Haunted(s, id)
    ensures Run(p, s, steps, true)
    ensures var t := Final(p, s, steps, true);
            && Armed(t, 1) && t.ids[1] == id && !Answered(t, 1) && Shadowed(t, 1)
            && ByRequestId(RowsOf(t.table), id).Some?
  {
    var ask := AskRuns(p, s, target, timeout, id);
    var u := Final(p, s, ask, true);
    RunOne(p, u, Arm);
    RunAppend(p, s, ask, [Arm]);
    steps := ask + [Arm];
    OldRowShadows(Apply(p, u, Arm), 1, id);
  }

  /** A later session's request under the same id is armed and unanswered, and yet a look finds a row: the old one. */
  lemma ShadowsHappen(p: Params, target: string, timeout: real, id: int) returns (steps: seq<Step>)
    requires Accepted(target)
    ensures Run(p, Init(0.0), steps, true)
    ensures var s := Final(p, Init(0.0), steps, true);
            && Armed(s, 1) && s.ids[1] == id && !Answered(s, 1) && Shadowed(s, 1)
            && ByRequestId(RowsOf(s.table), id).Some?
  {
    var before := AnsweredThenDead(p, target, timeout, id);
    var again := AskedAgain(p, Final(p, Init(0.0), before, true), target, timeout, id);
    RunAppend(p, Init(0.0), before, again);
    steps := before + again;
  }

  // ----- The wait -----

  ghost function StateAt(p: Params, start: real, steps: seq<Step>, k: nat): State
    requires Run(p, Init(start), steps, true) && k <= |steps|
    requires Run(p, Init(start), steps[..k], true)
  {
    Final(p, Init(start), steps[..k], true)
  }

  /** `t` falls in the stretch of time that ends with the k-th state. */
  ghost predicate Reached(p: Params, start: real, steps: seq<Step>, t: real, k: nat)
    requires Run(p, Init(start), steps, true)
  {
    && k <= |steps|
    && Run(p, Init(start), steps[..k], true)
    && t <= StateAt(p, start, steps, k).now
    && (k > 0 && Run(p, Init(start), steps[..k - 1], true) ==> StateAt(p, start, steps, k - 1).now <= t)
  }

  /** From the state `first` of the run on, the tables the API looks at are those of the run. */
  ghost predicate Observed(
    p: Params, start: real, steps: seq<Step>, first: nat, tables: real -> seq<Row>, from: real, until: real)
    requires Run(p, Init(start), steps, true)
  {
    forall t :: from <= t <= until ==>
      exists k :: first <= k && Reached(p, start, steps, t, k) && tables(t) == RowsOf(StateAt(p, start, steps, k).table)
  }

  /** What is armed at the end of a run, and was due before a state of it, was armed in that state. */
  lemma ArmedThen(p: Params, start: real, steps: seq<Step>, k: nat, i: nat)
    requires DelaysOk(p) && Run(p, Init(start), steps, true) && k <= |steps|
    requires Run(p, Init(start), steps[..k], true)
    requires var s := Final(p, Init(start), steps, true); Armed(s, i) && s.armed[i] < StateAt(p, start, steps, k).now
    ensures var s, u := Final(p, Init(start), steps, true), StateAt(p, start, steps, k);
            && Sound(p, u) && Kept(p, u.now, u.emitted, u.table)
            && Armed(u, i) && u.armed[i] == s.armed[i] && u.ids[i] == s.ids[i] && u.reqs[i] == s.reqs[i]
            && u.now <= s.now
  {
    InitInv(start);
    RunPrefix(p, Init(start), steps, k);
    RunPunctual(p, Init(start), steps[..k]);
    RunKept(p, Init(start), steps[..k]);
    RunTraced(p, StateAt(p, start, steps, k), steps[k..], i);
  }

  /** A look that starts once the lags are over finds a row. */
  lemma LateLooksFind(p: Params, start: real, steps: seq<Step>, k: nat, i: nat, t: real)
    requires DelaysOk(p) && Run(p, Init(start), steps, true)
    requires Reached(p, start, steps, t, k)
    requires var s := Final(p, Init(start), steps, true);
             Armed(s, i) && ReadableFrom(p, s, i) < t && s.now <= s.reqs[i].sent + p.keep
    ensures ByRequestId(RowsOf(StateAt(p, start, steps, k).table), Final(p, Init(start), steps, true).ids[i]).Some?
  {
    ArmedThen(p, start, steps, k, i);
    var c := RowIsReadable(p, StateAt(p, start, steps, k), i);
  }

  /** What was sent under an id in a state of a run is so in every later one. */
  lemma SentThen(p: Params, start: real, steps: seq<Step>, first: nat, k: nat, i: nat)
    requires Run(p, Init(start), steps, true) && first <= k <= |steps|
    requires Run(p, Init(start), steps[..first], true) && Run(p, Init(start), steps[..k], true)
    requires i in StateAt(p, start, steps, first).ids
    ensures var u := StateAt(p, start, steps, k);
            Inv(u) && i in u.ids && u.ids[i] == StateAt(p, start, steps, first).ids[i]
  {
    InitInv(start);
    RunInv(p, Init(start), steps[..first], true);
    RunInv(p, Init(start), steps[..k], true);
    RunPrefix(p, Init(start), steps[..k], first);
    assert steps[..k][..first] == steps[..first];
    RunTraced(p, StateAt(p, start, steps, first), steps[..k][first..], i);
  }

  /** The answer of a look: the request's own row, or the one another request left under its id. */
  ghost predicate Answers(s: State, i: nat, row: Row) {
    i in s.ids && row.requestId == s.ids[i] && i < |s.reqs| &&
    (Shadowed(s, i) || Own(s, i, row))
  }

  predicate Own(s: State, i: nat, row: Row) {
    i < |s.reqs| && row.dest == s.reqs[i].dest && row.sent == s.reqs[i].sent
  }

  /** No other request has a row under the id, which is a packet's. */
  ghost predicate Clear(s: State, i: nat) {
    i in s.ids && s.ids[i] != 0 && !Shadowed(s, i)
  }

  /** What nothing shadows in a state of a run, nothing shadows later while the session lives. */
  lemma ClearThen(p: Params, start: real, steps: seq<Step>, first: nat, k: nat, i: nat)
    requires Run(p, Init(start), steps, true) && first <= k <= |steps|
    requires Run(p, Init(start), steps[..first], true) && Run(p, Init(start), steps[..k], true)
    requires Clear(StateAt(p, start, steps, first), i) && i in Final(p, Init(start), steps, true).armed
    ensures var u := StateAt(p, start, steps, k);
            i in u.ids && !Shadowed(u, i) && i < |u.reqs| && u.reqs <= Final(p, Init(start), steps, true).reqs
  {
    var s, u, t := StateAt(p, start, steps, first), StateAt(p, start, steps, k), Final(p, Init(start), steps, true);
    InitInv(start);
    RunInv(p, Init(start), steps[..first], true);
    RunInv(p, Init(start), steps[..k], true);
    RunInv(p, Init(start), steps, true);
    RunPrefix(p, Init(start), steps, k);
    SessionsOnlyGoOn(p, u, steps[k..]);
    RunTraced(p, u, steps[k..], i);
    RunPrefix(p, Init(start), steps[..k], first);
    assert steps[..k][..first] == steps[..first];
    RunNoShadow(p, s, steps[..k][first..], i);
  }

  lemma LookAnswers(p: Params, start: real, steps: seq<Step>, first: nat, k: nat, i: nat, t: real, row: Option<Row>)
    requires DelaysOk(p) && Run(p, Init(start), steps, true)
    requires first <= k <= |steps| && Run(p, Init(start), steps[..first], true) && Reached(p, start, steps, t, k)
    requires i in StateAt(p, start, steps, first).ids
    requires var s := Final(p, Init(start), steps, true);
             && Armed(s, i) && s.now <= s.reqs[i].sent + p.keep
             && row == ByRequestId(RowsOf(StateAt(p, start, steps, k).table), s.ids[i])
    ensures ReadableFrom(p, Final(p, Init(start), steps, true), i) < t ==> row.Some?
    ensures row.Some? ==> Answers(StateAt(p, start, steps, k), i, row.value)
    ensures row.Some? && Clear(StateAt(p, start, steps, first), i) ==>
              Own(Final(p, Init(start), steps, true), i, row.value)
  {
    SentThen(p, start, steps, first, k, i);
    assert steps[..|steps|] == steps;
    SentThen(p, start, steps, k, |steps|, i);
    WhatALookFinds(StateAt(p, start, steps, k), i);
    if Clear(StateAt(p, start, steps, first), i) {
      ClearThen(p, start, steps, first, k, i);
    }
    if ReadableFrom(p, Final(p, Init(start), steps, true), i) < t {
      LateLooksFind(p, start, steps, k, i, t);
    }
  }

  /** What a wait needs of the run beside it: the request armed before it begins, alive and kept until it ends. */
  ghost predicate Covers(
    reader: Wait.TracerouteReader, requestId: int, timeoutS: real, begun: real, until: real,
    p: Params, start: real, steps: seq<Step>, first: nat, i: nat)
  {
    && DelaysOk(p) && Run(p, Init(start), steps, true)
    && first <= |steps| && Run(p, Init(start), steps[..first], true) && i in StateAt(p, start, steps, first).ids
    && var s := Final(p, Init(start), steps, true);
    && Armed(s, i) && s.ids[i] == requestId && s.armed[i] <= begun + timeoutS
    && until <= s.now <= s.reqs[i].sent + p.keep
    && Observed(p, start, steps, first, reader.view.tables, begun, s.now)
  }

  /** The state of the run that a look at a moment sees. */
  lemma SeenAt(
    p: Params, start: real, steps: seq<Step>, first: nat, tables: real -> seq<Row>, from: real, until: real, t: real)
    returns (k: nat)
    requires Run(p, Init(start), steps, true) && Observed(p, start, steps, first, tables, from, until)
    requires from <= t <= until
    ensures first <= k && Reached(p, start, steps, t, k) && tables(t) == RowsOf(StateAt(p, start, steps, k).table)
  {
    var rows := tables(t);
    k :| first <= k && Reached(p, start, steps, t, k) && rows == RowsOf(StateAt(p, start, steps, k).table);
  }

  /** From the moment the row can be read on, every look finds one. */
  lemma PresentFromThen(
    reader: Wait.TracerouteReader, requestId: int, timeoutS: real, begun: real, until: real,
    p: Params, start: real, steps: seq<Step>, first: nat, i: nat, from: real, to: real)
    requires Covers(reader, requestId, timeoutS, begun, until, p, start, steps, first, i)
    requires begun <= from && ReadableFrom(p, Final(p, Init(start), steps, true), i) < from && to <= until
    ensures reader.Present(requestId, from, to)
  {
    var end := Final(p, Init(start), steps, true).now;
    forall t | from <= t <= to ensures ByRequestId(reader.view.tables(t), requestId).Some? {
      var k := SeenAt(p, start, steps, first, reader.view.tables, begun, end, t);
      LateLooksFind(p, start, steps, k, i, t);
    }
  }

  /** So the look that ends a wait starts within one look and one poll of that moment. */
  lemma LastLookIsPrompt(
    reader: Wait.TracerouteReader, requestId: int, timeoutS: real, begun: real, until: real, lag: real, overrun: real,
    p: Params, start: real, steps: seq<Step>, first: nat, i: nat, lastLook: real)
    requires Covers(reader, requestId, timeoutS, begun, until, p, start, steps, first, i) && lastLook <= until
    requires forall t :: begun <= t && reader.Present(requestId, t, lastLook) ==>
               lastLook <= t + lag + reader.pollInterval + overrun
    ensures lastLook <= MaxReal(begun, ReadableFrom(p, Final(p, Init(start), steps, true), i)) +
                          lag + reader.pollInterval + overrun
  {
    var ready := MaxReal(begun, ReadableFrom(p, Final(p, Init(start), steps, true), i));
    var within := lag + reader.pollInterval + overrun;
    if lastLook > ready + within {
      var t := ready + (lastLook - ready - within) / 2.0;
      PresentFromThen(reader, requestId, timeoutS, begun, until, p, start, steps, first, i, t, lastLook);
    }
  }

  /**
   A blocking traceroute is answered. The request was armed in a timed run before the wait began, its
   session lives on and nothing cancels or prunes it; then the wait returns a row under the request's
   id, provided the lags of the timer, of the emission and of one look together stay under the margin.
   It is the request's own row if no other request had left one under its id when it was armed, and it
   comes no later than two looks and a poll after the moment it can be read.
   */
  method BlockingTraceroute(
    reader: Wait.TracerouteReader, requestId: int, timeoutS: real, lag: real, overrun: real,
    ghost p: Params, ghost start: real, ghost steps: seq<Step>, ghost first: nat, ghost i: nat)
    returns (row: Option<Row>, ghost k: nat)
    requires reader.pollInterval > 0.0 && lag >= 0.0 && overrun >= 0.0
    requires p.timerLag + p.emitLag + lag < reader.margin
    requires Covers(reader, requestId, timeoutS, reader.view.now,
                    reader.WaitEnds(reader.view.now, timeoutS, lag, overrun), p, start, steps, first, i)
    modifies reader.view`now
    ensures row.Some? && row.value.requestId == requestId
    ensures first <= k <= |steps| && Run(p, Init(start), steps[..k], true)
    ensures Answers(StateAt(p, start, steps, k), i, row.value)
    ensures Clear(StateAt(p, start, steps, first), i) ==> Own(Final(p, Init(start), steps, true), i, row.value)
    ensures reader.view.now <= MaxReal(old(reader.view.now), ReadableFrom(p, Final(p, Init(start), steps, true), i)) +
                                 lag + reader.pollInterval + overrun + lag
  {
    ghost var lastLook;
    ghost var begun := reader.view.now;
    row, lastLook := reader.Wait(requestId, timeoutS, lag, overrun);
    LastLookIsPrompt(reader, requestId, timeoutS, begun, reader.WaitEnds(begun, timeoutS, lag, overrun), lag, overrun,
                     p, start, steps, first, i, lastLook);
    k := SeenAt(p, start, steps, first, reader.view.tables, begun, Final(p, Init(start), steps, true).now, lastLook);
    LookAnswers(p, start, steps, first, k, i, lastLook, row);
  }
}
