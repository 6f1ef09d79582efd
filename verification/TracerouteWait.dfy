/**
 Blocking traceroute: the API polls the table for a row of its request, for as long as the request's own
 timeout and a margin. The rows are written by another process, at moments of its own.
 */
module TracerouteWait {
  import opened Arithmetic
  import opened Options
  import opened TracerouteStore

  /** The clock the API reads, and what a look at the table finds, by the moment the look starts. */
  class View {
    const tables: real -> seq<Row>
    var now: real

    constructor (now: real, tables: real -> seq<Row>)
      ensures this.now == now && this.tables == tables
    {
      this.now := now;
      this.tables := tables;
    }

    /** Looking a request up takes time, up to `lag`; the answer is that of the moment it started. */
    method ReadRow(requestId: int, lag: real) returns (row: Option<Row>)
      requires lag >= 0.0
      modifies this`now
      ensures row == ByRequestId(tables(old(now)), requestId)
      ensures old(now) <= now <= old(now) + lag
    {
      row := ByRequestId(tables(now), requestId);
      var spent: real := *;
      if 0.0 <= spent <= lag {
        now := now + spent;
      }
    }

    method Sleep(duration: real, overrun: real)
      requires duration >= 0.0 && overrun >= 0.0
      modifies this`now
      ensures old(now) + duration <= now <= old(now) + duration + overrun
    {
      var spent: real := *;
      now := now + if duration <= spent <= duration + overrun then spent else duration;
    }
  }

  class TracerouteReader {
    const view: View
    const pollInterval: real
    const margin: real

    constructor (view: View, pollInterval: real, margin: real)
      ensures this.view == view && this.pollInterval == pollInterval && this.margin == margin
    {
      this.view := view;
      this.pollInterval := pollInterval;
      this.margin := margin;
    }

    /** From one moment to another, a look under the id finds a row. */
    ghost predicate Present(requestId: int, from: real, until: real) {
      forall t :: from <= t <= until ==> ByRequestId(view.tables(t), requestId).Some?
    }

    /**
     Terminates, with what its last look found; every status a row can have is a terminal one. It gives
     up only if that look ended at the deadline or later, so a request whose row is there from one look
     before the deadline on is always answered. It returns no later than one poll and one look past the
     later of the deadline and its own start; and once a row is there to stay, the look that returns it
     starts within one look and one poll.
     */
    method Wait(requestId: int, timeoutS: real, lag: real, overrun: real)
      returns (row: Option<Row>, ghost lastLook: real)
      requires pollInterval > 0.0 && lag >= 0.0 && overrun >= 0.0
      modifies view`now
      ensures row == ByRequestId(view.tables(lastLook), requestId)
      ensures old(view.now) <= lastLook <= view.now <= lastLook + lag
      ensures row.None? ==> view.now >= old(view.now) + timeoutS + margin
      ensures view.now <= WaitEnds(old(view.now), timeoutS, lag, overrun)
      ensures forall t :: old(view.now) <= t && Present(requestId, t, lastLook) ==>
                lastLook <= t + lag + pollInterval + overrun
    {
      var deadline := view.now + timeoutS + margin;
      ghost var start := view.now;
      ghost var missed: Option<real> := None;
      while true
        invariant start <= view.now
        invariant view.now <= MaxReal(start, deadline) + pollInterval + overrun
        invariant missed.None? ==> view.now == start
        invariant missed.Some? ==> ByRequestId(view.tables(missed.value), requestId).None?
        invariant missed.Some? ==> missed.value <= view.now <= missed.value + lag + pollInterval + overrun
        decreases Polls(deadline - view.now, pollInterval)
      {
        lastLook := view.now;
        row := view.ReadRow(requestId, lag);
        if row.Some? {
          return;
        }
        if view.now >= deadline {
          return;
        }
        missed := Some(lastLook);
        view.Sleep(pollInterval, overrun);
        PollsDrop(deadline - lastLook, deadline - view.now, pollInterval);
      }
    }

    /** The latest moment at which a wait can return. */
    function WaitEnds(start: real, timeoutS: real, lag: real, overrun: real): real {
      MaxReal(start, start + timeoutS + margin) + pollInterval + overrun + lag
    }
  }

  /** How many polls are left before a delay has run out, rounded up past it. */
  ghost function Polls(left: real, interval: real): nat
    requires interval > 0.0
  {
    if left <= 0.0 then 0 else (left / interval).Floor + 1
  }

  lemma PollsDrop(before: real, after: real, interval: real)
    requires interval > 0.0 && before > 0.0 && after <= before - interval
    ensures Polls(after, interval) < Polls(before, interval)
  {
    if after > 0.0 {
      OneFewer(before, interval);
      DivideLeq(after, before - interval, interval);
      var x, y := after / interval, before / interval;
      assert x <= y - 1.0;
      assert (y - 1.0).Floor == y.Floor - 1;
    } else {
      DivideLeq(0.0, before, interval);
    }
  }
}
