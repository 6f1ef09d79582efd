/**
 The command channel between the supervisor and its worker: two FIFO queues. The supervisor sends one
 command at a time and takes the next result that shows up, without comparing ids; the worker drains
 the commands in batches and answers them in order.
 */
module CommandChannel {
  datatype Command = Command(id: nat, body: string)

  datatype Answer = Answer(id: nat, body: string)

  datatype Outcome = Got(answer: Answer) | TimedOut

  function AnswerTo(execute: string -> string, c: Command): Answer {
    Answer(c.id, execute(c.body))
  }

  function AnswersTo(execute: string -> string, cs: seq<Command>): (r: seq<Answer>)
    ensures |r| == |cs|
    ensures forall i :: 0 <= i < |r| ==> r[i] == AnswerTo(execute, cs[i])
  {
    seq(|cs|, i requires 0 <= i < |cs| => AnswerTo(execute, cs[i]))
  }

  lemma OneMoreAnswer(execute: string -> string, cs: seq<Command>, n: nat)
    requires n < |cs|
    ensures AnswersTo(execute, cs[..n + 1]) == AnswersTo(execute, cs[..n]) + [AnswerTo(execute, cs[n])]
  {
  }

  /** One submit, seen from the number of commands owed: `early` answered before its purge, `late` after its send. */
  datatype Exchange = Exchange(early: nat, late: nat)

  predicate Possible(owed: nat, x: Exchange) {
    x.early <= owed && x.late <= owed - x.early + 1
  }

  function OwedAfter(owed: nat, x: Exchange): nat
    requires Possible(owed, x)
  {
    owed - x.early + 1 - x.late
  }

  /** Both queues and what the worker has drained but not answered. */
  class Channel {
    const execute: string -> string  // what executing a command returns, which nothing here looks into
    var commands: seq<Command>
    var drained: seq<Command>
    var results: seq<Answer>

    constructor (execute: string -> string)
      ensures this.execute == execute && commands == [] && drained == [] && results == []
    {
      this.execute := execute;
      commands, drained, results := [], [], [];
    }

    /** Commands that have no result yet, oldest first. */
    function Unanswered(): seq<Command>
      reads this
    {
      drained + commands
    }

    /** The worker empties the command queue into its batch. */
    method Drain()
      modifies this
      ensures commands == [] && drained == old(drained) + old(commands) && results == old(results)
      ensures Unanswered() == old(Unanswered())
    {
      var i := 0;
      ghost var all := commands;
      while commands != []
        invariant drained + commands == old(drained) + all
        invariant results == old(results)
        decreases |commands|
      {
        drained, commands := drained + [commands[0]], commands[1..];
      }
    }

    method ReplyToFirst()
      requires drained != []
      modifies this
      ensures commands == old(commands) && drained == old(drained)[1..]
      ensures results == old(results) + [Answer(old(drained)[0].id, execute(old(drained)[0].body))]
    {
      results := results + [AnswerTo(execute, drained[0])];
      drained := drained[1..];
    }

    /** The worker does as much as it likes: any number of drains and replies, in any order. */
    method WorkerRuns() returns (ghost done: nat)
      modifies this
      ensures done <= |old(Unanswered())|
      ensures Unanswered() == old(Unanswered())[done..]
      ensures results == old(results) + AnswersTo(execute, old(Unanswered())[..done])
    {
      done := 0;
      var steps: nat := *;
      ghost var start := Unanswered();
      assert AnswersTo(execute, start[..0]) == [];
      while steps > 0
        invariant done <= |start|
        invariant Unanswered() == start[done..]
        invariant results == old(results) + AnswersTo(execute, start[..done])
      {
        var replies: bool := *;
        if replies && drained != [] {
          assert drained[0] == start[done];
          OneMoreAnswer(execute, start, done);
          ReplyToFirst();
          done := done + 1;
        } else {
          Drain();
        }
        steps := steps - 1;
      }
    }

    /** Takes a result if there is one; a result still in transit counts as not put yet. */
    method TryGet() returns (r: Outcome)
      modifies this`results
      ensures old(results) == [] ==> r == TimedOut && results == []
      ensures old(results) != [] ==> r == Got(old(results)[0]) && results == old(results)[1..]
    {
      if results == [] {
        return TimedOut;
      }
      r := Got(results[0]);
      results := results[1..];
    }
  }

  class WorkerHandle {
    const channel: Channel
    var seqno: nat

    constructor (channel: Channel)
      ensures this.channel == channel && seqno == 0
    {
      this.channel := channel;
      seqno := 0;
    }

    /** Ids are handed out in order, so what is unanswered is a stretch of consecutive ids up to the last one. */
    predicate Numbered()
      reads this, channel
    {
      var u := channel.Unanswered();
      |u| <= seqno && forall i :: 0 <= i < |u| ==> u[i].id == seqno - |u| + 1 + i
    }

    /** Throws away whatever results have piled up; the worker may go on adding some meanwhile. */
    method Purge() returns (ghost done: nat)
      requires Numbered()
      modifies channel
      ensures done <= |old(channel.Unanswered())|
      ensures channel.Unanswered() == old(channel.Unanswered())[done..] && channel.results == []
      ensures Numbered()
    {
      ghost var start := channel.Unanswered();
      done := 0;
      var more := true;
      while more
        invariant done <= |start| && channel.Unanswered() == start[done..]
        invariant !more ==> channel.results == []
        decreases more, |channel.Unanswered()| + |channel.results|
      {
        ghost var d := channel.WorkerRuns();
        done := done + d;
        var r := channel.TryGet();
        more := r.Got?;
      }
    }

    /**
     One command, one wait. Whatever comes back answers the oldest command that had no result when the
     queue was purged, under that command's id; it is the answer to the command just sent exactly when
     nothing was left unanswered then.
     */
    method Submit(body: string) returns (r: Outcome, ghost x: Exchange, ghost waiting: seq<Command>)
      requires Numbered()
      modifies this, channel
      ensures Numbered() && seqno == old(seqno) + 1
      ensures Possible(|old(channel.Unanswered())|, x) && waiting == old(channel.Unanswered())[x.early..]
      ensures channel.Unanswered() == (waiting + [Command(seqno, body)])[x.late..]
      ensures r.Got? <==> x.late > 0
      ensures r.Got? ==>
                var first := (waiting + [Command(seqno, body)])[0];
                r.answer == Answer(first.id, channel.execute(first.body))
      ensures r.Got? ==> (r.answer.id == seqno <==> waiting == [])
    {
      ghost var early := Purge();
      waiting := channel.Unanswered();
      var command := Send(body);
      ghost var all := channel.Unanswered();
      ghost var late := channel.WorkerRuns();
      assert channel.results == AnswersTo(channel.execute, all[..late]);
      r := channel.TryGet();
      x := Exchange(early, late);
    }

    method Send(body: string) returns (command: Command)
      requires Numbered() && channel.results == []
      modifies this, channel
      ensures Numbered() && seqno == old(seqno) + 1 && command == Command(seqno, body)
      ensures channel.Unanswered() == old(channel.Unanswered()) + [command] && channel.results == []
    {
      seqno := seqno + 1;
      command := Command(seqno, body);
      channel.commands := channel.commands + [command];
      assert channel.Unanswered() == old(channel.Unanswered()) + [command];
    }

    /** The n-th command of a sequence. */
    method SubmitNext(bodies: seq<string>, n: nat, rs: seq<Outcome>, ghost first: nat, ghost xs: seq<Exchange>)
      returns (r: Outcome, ghost x: Exchange)
      requires Numbered() && n < |bodies| && seqno == first + n
      requires Account(channel.execute, first, bodies[..n], xs, rs)
      requires Unpaid(first, bodies[..n], channel.Unanswered()) && |channel.Unanswered()| == Owed(0, xs, n)
      modifies this, channel
      ensures Numbered() && seqno == first + n + 1
      ensures Account(channel.execute, first, bodies[..n + 1], xs + [x], rs + [r])
      ensures Unpaid(first, bodies[..n + 1], channel.Unanswered())
      ensures |channel.Unanswered()| == Owed(0, xs + [x], n + 1)
    {
      ghost var owed, waiting := channel.Unanswered(), [];
      r, x, waiting := Submit(bodies[n]);
      OneMoreSubmit(channel.execute, first, bodies, n, xs, x, rs, r, owed,
                    waiting + [Command(first + n + 1, bodies[n])], channel.Unanswered());
    }

    /** One command after another, on one worker. */
    method SubmitAll(bodies: seq<string>) returns (rs: seq<Outcome>, ghost xs: seq<Exchange>)
      requires Numbered() && channel.Unanswered() == []
      modifies this, channel
      ensures Account(channel.execute, old(seqno), bodies, xs, rs)
    {
      ghost var first := seqno;
      rs, xs := [], [];
      var n := 0;
      assert Sent(first, bodies[..0]) == [];
      while n < |bodies|
        invariant 0 <= n <= |bodies| && seqno == first + n && Numbered()
        invariant Account(channel.execute, first, bodies[..n], xs, rs)
        invariant Unpaid(first, bodies[..n], channel.Unanswered()) && |channel.Unanswered()| == Owed(0, xs, n)
      {
        var r;
        ghost var x;
        r, x := SubmitNext(bodies, n, rs, first, xs);
        rs, xs, n := rs + [r], xs + [x], n + 1;
      }
      assert bodies[..n] == bodies;
    }
  }

  // ----- Whole sequences of submits -----

  predicate Sequence(owed: nat, xs: seq<Exchange>)
    decreases |xs|
  {
    xs == [] || (Possible(owed, xs[0]) && Sequence(OwedAfter(owed, xs[0]), xs[1..]))
  }

  /** The commands owed when a submit begins. */
  function Owed(owed: nat, xs: seq<Exchange>, k: nat): nat
    requires Sequence(owed, xs) && k <= |xs|
    decreases k
  {
    if k == 0 then owed else Owed(OwedAfter(owed, xs[0]), xs[1..], k - 1)
  }

  /** Commands are still owed once the queue is purged, so whatever comes back answers an older command. */
  predicate OwesAtPurge(owed: nat, xs: seq<Exchange>, k: nat)
    requires Sequence(owed, xs) && k < |xs|
  {
    Owed(owed, xs, k) != xs[k].early
  }

  lemma {:induction false} OwedStep(owed: nat, xs: seq<Exchange>, k: nat)
    requires Sequence(owed, xs) && k < |xs|
    ensures Possible(Owed(owed, xs, k), xs[k])
    ensures Owed(owed, xs, k + 1) == OwedAfter(Owed(owed, xs, k), xs[k])
    decreases k
  {
    if k > 0 {
      OwedStep(OwedAfter(owed, xs[0]), xs[1..], k - 1);
    }
  }

  lemma {:induction false} SequenceAppend(owed: nat, xs: seq<Exchange>, x: Exchange)
    requires Sequence(owed, xs) && Possible(Owed(owed, xs, |xs|), x)
    ensures Sequence(owed, xs + [x])
    ensures Owed(owed, xs + [x], |xs| + 1) == OwedAfter(Owed(owed, xs, |xs|), x)
    decreases |xs|
  {
    var all := xs + [x];
    if xs == [] {
      assert all[1..] == [];
    } else {
      SequenceAppend(OwedAfter(owed, xs[0]), xs[1..], x);
      assert all[1..] == xs[1..] + [x];
    }
  }

  lemma {:induction false} OwedBefore(owed: nat, xs: seq<Exchange>, x: Exchange, k: nat)
    requires Sequence(owed, xs) && Sequence(owed, xs + [x]) && k <= |xs|
    ensures Owed(owed, xs + [x], k) == Owed(owed, xs, k)
    decreases k
  {
    if k > 0 {
      assert (xs + [x])[1..] == xs[1..] + [x];
      OwedBefore(OwedAfter(owed, xs[0]), xs[1..], x, k - 1);
    }
  }

  /** The commands of a sequence of submits, under the ids they were given. */
  function Sent(first: nat, bodies: seq<string>): (r: seq<Command>)
    ensures |r| == |bodies|
    ensures forall k :: 0 <= k < |r| ==> r[k] == Command(first + k + 1, bodies[k])
  {
    seq(|bodies|, k requires 0 <= k < |bodies| => Command(first + k + 1, bodies[k]))
  }

  /** What is unanswered is the last few commands sent. */
  ghost predicate Unpaid(first: nat, bodies: seq<string>, unanswered: seq<Command>) {
    |unanswered| <= |bodies| && unanswered == Sent(first, bodies)[|bodies| - |unanswered|..]
  }

  /** How many commands before its own the result of a submit may answer. */
  function Behind(xs: seq<Exchange>, k: nat): int
    requires Sequence(0, xs) && k < |xs|
  {
    Owed(0, xs, k) - xs[k].early
  }

  /** Each submit returns the answer to the command that many places before its own, or times out. */
  ghost predicate Account(
    execute: string -> string, first: nat, bodies: seq<string>, xs: seq<Exchange>, rs: seq<Outcome>)
  {
    && |xs| == |rs| == |bodies| && Sequence(0, xs)
    && forall k {:trigger Returned(execute, first, bodies, xs, k, rs[k])} :: 0 <= k < |rs| ==>
         Returned(execute, first, bodies, xs, k, rs[k])
  }

  ghost predicate Returned(
    execute: string -> string, first: nat, bodies: seq<string>, xs: seq<Exchange>, k: nat, r: Outcome)
    requires Sequence(0, xs) && k < |xs| == |bodies|
  {
    && (r.Got? <==> xs[k].late > 0)
    && 0 <= Behind(xs, k) <= k
    && (r.Got? ==> r.answer == AnswerTo(execute, Sent(first, bodies)[k - Behind(xs, k)]))
  }

  lemma SentAppend(first: nat, bodies: seq<string>, body: string)
    ensures Sent(first, bodies + [body]) == Sent(first, bodies) + [Command(first + |bodies| + 1, body)]
  {
  }

  lemma SuffixOfSuffix<T>(all: seq<T>, n: nat, m: nat)
    requires n + m <= |all|
    ensures all[n..][m..] == all[n + m..]
  {
  }

  /** What is owed once the queue is purged and the next command sent is the last few commands again. */
  lemma OwedWithOwn(first: nat, bodies: seq<string>, body: string, owed: seq<Command>, early: nat)
    requires Unpaid(first, bodies, owed) && early <= |owed|
    ensures Unpaid(first, bodies + [body], owed[early..] + [Command(first + |bodies| + 1, body)])
  {
    var sent := Sent(first, bodies);
    var n := |bodies| - |owed|;
    SuffixOfSuffix(sent, n, early);
    SentAppend(first, bodies, body);
    assert (sent + [Command(first + |bodies| + 1, body)])[n + early..] ==
           sent[n + early..] + [Command(first + |bodies| + 1, body)];
  }

  lemma UnpaidSuffix(first: nat, bodies: seq<string>, owed: seq<Command>, late: nat)
    requires Unpaid(first, bodies, owed) && late <= |owed|
    ensures Unpaid(first, bodies, owed[late..])
  {
    SuffixOfSuffix(Sent(first, bodies), |bodies| - |owed|, late);
  }

  lemma EarlierStays(
    execute: string -> string, first: nat, bodies: seq<string>, body: string, xs: seq<Exchange>, x: Exchange,
    k: nat, r: Outcome)
    requires Sequence(0, xs) && |xs| == |bodies| && k < |xs| && Possible(Owed(0, xs, |xs|), x)
    requires Returned(execute, first, bodies, xs, k, r)
    ensures Sequence(0, xs + [x]) && Returned(execute, first, bodies + [body], xs + [x], k, r)
  {
    SequenceAppend(0, xs, x);
    OwedBefore(0, xs, x, k);
    SentAppend(first, bodies, body);
    assert Behind(xs + [x], k) == Behind(xs, k);
  }

  /** The result of the newest submit, `all` being owed once it is sent. */
  lemma NewestReturns(
    execute: string -> string, first: nat, bodies: seq<string>, xs: seq<Exchange>, all: seq<Command>, r: Outcome)
    requires Sequence(0, xs) && |xs| == |bodies| > 0
    requires Unpaid(first, bodies, all) && |all| == Behind(xs, |xs| - 1) + 1
    requires r.Got? <==> xs[|xs| - 1].late > 0
    requires all != [] && (r.Got? ==> r.answer == AnswerTo(execute, all[0]))
    ensures Returned(execute, first, bodies, xs, |xs| - 1, r)
  {
  }

  lemma AccountGrows(
    execute: string -> string, first: nat, bodies: seq<string>, body: string, xs: seq<Exchange>, x: Exchange,
    rs: seq<Outcome>, r: Outcome)
    requires Account(execute, first, bodies, xs, rs) && Possible(Owed(0, xs, |xs|), x)
    requires Sequence(0, xs + [x]) && Returned(execute, first, bodies + [body], xs + [x], |xs|, r)
    ensures Account(execute, first, bodies + [body], xs + [x], rs + [r])
  {
    var all := rs + [r];
    forall k | 0 <= k < |all| ensures Returned(execute, first, bodies + [body], xs + [x], k, all[k]) {
      if k < |rs| {
        EarlierStays(execute, first, bodies, body, xs, x, k, rs[k]);
      }
    }
  }

  lemma NewestIsReturned(
    execute: string -> string, first: nat, bodies: seq<string>, body: string, xs: seq<Exchange>, x: Exchange,
    r: Outcome, owed: seq<Command>, all: seq<Command>)
    requires Sequence(0, xs) && |xs| == |bodies|
    requires Unpaid(first, bodies, owed) && |owed| == Owed(0, xs, |xs|) && Possible(|owed|, x)
    requires all == owed[x.early..] + [Command(first + |bodies| + 1, body)]
    requires r.Got? <==> x.late > 0
    requires r.Got? ==> r.answer == AnswerTo(execute, all[0])
    ensures Sequence(0, xs + [x]) && Returned(execute, first, bodies + [body], xs + [x], |xs|, r)
  {
    SequenceAppend(0, xs, x);
    OwedBefore(0, xs, x, |xs|);
    assert Behind(xs + [x], |xs|) == |owed| - x.early;
    OwedWithOwn(first, bodies, body, owed, x.early);
    NewestReturns(execute, first, bodies + [body], xs + [x], all, r);
  }

  lemma LeftUnpaid(
    first: nat, bodies: seq<string>, body: string, xs: seq<Exchange>, x: Exchange,
    owed: seq<Command>, all: seq<Command>, after: seq<Command>)
    requires Sequence(0, xs) && |owed| == Owed(0, xs, |xs|) && Possible(|owed|, x)
    requires Unpaid(first, bodies, owed)
    requires all == owed[x.early..] + [Command(first + |bodies| + 1, body)] && after == all[x.late..]
    ensures Unpaid(first, bodies + [body], after)
    ensures Sequence(0, xs + [x]) && |after| == Owed(0, xs + [x], |xs| + 1)
  {
    SequenceAppend(0, xs, x);
    OwedWithOwn(first, bodies, body, owed, x.early);
    UnpaidSuffix(first, bodies + [body], all, x.late);
  }

  lemma OneMoreSubmit(
    execute: string -> string, first: nat, bodies: seq<string>, n: nat, xs: seq<Exchange>, x: Exchange,
    rs: seq<Outcome>, r: Outcome, owed: seq<Command>, all: seq<Command>, after: seq<Command>)
    requires n < |bodies| && Account(execute, first, bodies[..n], xs, rs)
    requires Unpaid(first, bodies[..n], owed) && |owed| == Owed(0, xs, n) && Possible(|owed|, x)
    requires all == owed[x.early..] + [Command(first + n + 1, bodies[n])] && after == all[x.late..]
    requires r.Got? <==> x.late > 0
    requires r.Got? ==> r.answer == AnswerTo(execute, all[0])
    ensures Account(execute, first, bodies[..n + 1], xs + [x], rs + [r])
    ensures Unpaid(first, bodies[..n + 1], after) && |after| == Owed(0, xs + [x], n + 1)
  {
    assert bodies[..n] + [bodies[n]] == bodies[..n + 1];
    NewestIsReturned(execute, first, bodies[..n], bodies[n], xs, x, r, owed, all);
    AccountGrows(execute, first, bodies[..n], bodies[n], xs, x, rs, r);
    LeftUnpaid(first, bodies[..n], bodies[n], xs, x, owed, all, after);
  }

  /** A result is the answer to the command just sent exactly when nothing older is owed once the queue is purged. */
  lemma MatchIffNothingOwed(
    execute: string -> string, first: nat, bodies: seq<string>, xs: seq<Exchange>, rs: seq<Outcome>, k: nat)
    requires Account(execute, first, bodies, xs, rs) && k < |rs| && rs[k].Got?
    ensures rs[k].answer.id == first + k + 1 <==> !OwesAtPurge(0, xs, k)
    ensures !OwesAtPurge(0, xs, k) ==> rs[k].answer == Answer(first + k + 1, execute(bodies[k]))
  {
    assert Returned(execute, first, bodies, xs, k, rs[k]);
  }

  /** Until a first timeout nothing is ever owed at a purge. */
  lemma {:induction false} NothingOwedBeforeATimeout(xs: seq<Exchange>, k: nat)
    requires Sequence(0, xs) && k < |xs|
    requires forall j :: 0 <= j < k ==> xs[j].late > 0
    ensures Owed(0, xs, k) == 0 && !OwesAtPurge(0, xs, k)
    decreases k
  {
    OwedStep(0, xs, k);
    if k > 0 {
      NothingOwedBeforeATimeout(xs, k - 1);
      OwedStep(0, xs, k - 1);
    }
  }

  /** A mismatched answer always has a timeout before it. */
  lemma NoMismatchBeforeATimeout(
    execute: string -> string, first: nat, bodies: seq<string>, xs: seq<Exchange>, rs: seq<Outcome>, k: nat)
    requires Account(execute, first, bodies, xs, rs) && k < |rs|
    requires forall j :: 0 <= j <= k ==> rs[j].Got?
    ensures rs[k].answer == Answer(first + k + 1, execute(bodies[k]))
  {
    forall j | 0 <= j < k ensures xs[j].late > 0 {
      assert Returned(execute, first, bodies, xs, j, rs[j]);
    }
    NothingOwedBeforeATimeout(xs, k);
    MatchIffNothingOwed(execute, first, bodies, xs, rs, k);
  }

  lemma {:induction false} OneBehind(xs: seq<Exchange>, k: nat)
    requires Sequence(0, xs) && 0 < k < |xs|
    requires xs[0].late == 0 && (forall j :: 0 < j <= k ==> xs[j].early == 0 && xs[j].late == 1)
    ensures Owed(0, xs, k) == 1
    decreases k
  {
    OwedStep(0, xs, 0);
    if k > 1 {
      OneBehind(xs, k - 1);
      OwedStep(0, xs, k - 1);
    }
  }

  /** After one timeout, a worker that stays one answer behind makes every submit answer the one before. */
  lemma MismatchPersists(
    execute: string -> string, first: nat, bodies: seq<string>, xs: seq<Exchange>, rs: seq<Outcome>, k: nat)
    requires Account(execute, first, bodies, xs, rs) && 0 < k < |rs|
    requires rs[0].TimedOut? && (forall j :: 0 < j <= k ==> xs[j].early == 0 && xs[j].late == 1)
    ensures rs[k] == Got(Answer(first + k, execute(bodies[k - 1])))
  {
    assert Returned(execute, first, bodies, xs, 0, rs[0]);
    assert Returned(execute, first, bodies, xs, k, rs[k]);
    OneBehind(xs, k);
  }
}
