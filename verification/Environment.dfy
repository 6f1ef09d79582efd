/**
 What surrounds the supervisor: a clock, a stop flag, disposable workers, the service manager's
 watchdog and a handful of OS calls. Each is nondeterministic within a stated bound, and each call
 leaves a trace in the log. Time passes only in sleeps and OS calls; a worker may beat or exit at
 any moment, also between two reads taken at the same instant.
 */
module Environment {
  import opened Options

  /** A worker process; the moments of heartbeats and death are those of its birth until there is one. */
  datatype Worker = Worker(alive: bool, beats: nat, born: real, firstBeat: real, lastBeat: real, diedAt: real)

  function Newborn(now: real): Worker {
    Worker(true, 0, now, now, now, now)
  }

  datatype Event =
    | Spawned(worker: nat, monitorInterval: real, forced: bool, others: bool)  // others: an earlier worker was alive
    | Exposed(worker: nat)
    | Hidden
    | Killed(worker: nat, at: real)
    | Disconnected
    | Linked(reconnects: nat)

  /** Upper bounds on what each call may take. */
  datatype Bounds = Bounds(
    overrun: real, spawn: real, kill: real, join: real, disconnect: real, status: real, battery: real, link: real)

  predicate Sane(b: Bounds) {
    && b.overrun >= 0.0 && b.spawn >= 0.0 && b.kill >= 0.0 && b.join >= 0.0
    && b.disconnect >= 0.0 && b.status >= 0.0 && b.battery >= 0.0 && b.link >= 0.0
  }

  /** What a worker may become between two instants. */
  predicate Evolves(w: Worker, v: Worker, from: real, to: real) {
    && (v.alive ==> w.alive)
    && (!w.alive ==> v == w)
    && v.beats >= w.beats && v.born == w.born
    && (w.beats > 0 ==> v.firstBeat == w.firstBeat)
    && (v.beats > w.beats == 0 ==> from <= v.firstBeat <= v.lastBeat)
    && (w.alive && !v.alive ==> from <= v.diedAt <= to)
    && (v.beats == w.beats ==> v.lastBeat == w.lastBeat)
    && (v.beats > w.beats ==> from <= v.lastBeat <= to)
  }

  predicate AllEvolve(ws: seq<Worker>, vs: seq<Worker>, from: real, to: real) {
    |vs| == |ws| && forall i :: 0 <= i < |ws| ==> Evolves(ws[i], vs[i], from, to)
  }

  /** Whatever heartbeat was added was added at one instant. */
  predicate BeatOnlyAt(w: Worker, v: Worker, at: real) {
    v.beats > w.beats ==> v.lastBeat == at
  }

  lemma EvolveOn(ws: seq<Worker>, vs: seq<Worker>, us: seq<Worker>, a: real, b: real, c: real)
    requires AllEvolve(ws, vs, a, b) && AllEvolve(vs, us, b, c) && a <= b <= c
    ensures AllEvolve(ws, us, a, c)
  {
    forall i | 0 <= i < |ws| ensures Evolves(ws[i], us[i], a, c) {
      assert Evolves(ws[i], vs[i], a, b) && Evolves(vs[i], us[i], b, c);
    }
  }

  predicate NoneAlive(ws: seq<Worker>) {
    forall i :: 0 <= i < |ws| ==> !ws[i].alive
  }

  /** Nothing happens to workers that are all dead. */
  lemma DeadStaySame(ws: seq<Worker>, vs: seq<Worker>, a: real, b: real)
    requires AllEvolve(ws, vs, a, b) && NoneAlive(ws)
    ensures vs == ws
  {
    forall i | 0 <= i < |ws| ensures vs[i] == ws[i] {
      assert Evolves(ws[i], vs[i], a, b);
    }
  }

  /** Nor to the dead ones before the last, so once the last is gone too, none is alive. */
  lemma DeadStayDead(ws: seq<Worker>, vs: seq<Worker>, a: real, b: real)
    requires AllEvolve(ws, vs, a, b)
    requires |ws| > 0 && NoneAlive(ws[..|ws| - 1])
    ensures vs[..|vs| - 1] == ws[..|ws| - 1]
    ensures !vs[|vs| - 1].alive ==> NoneAlive(vs)
  {
    forall i | 0 <= i < |vs| - 1 ensures vs[i] == ws[i] && !vs[i].alive {
      assert !ws[..|ws| - 1][i].alive;
      assert Evolves(ws[i], vs[i], a, b);
    }
  }

  class World {
    const bounds: Bounds
    var now: real
    var willing: nat           // how many more times should_continue answers yes
    var workers: seq<Worker>
    var pings: seq<real>       // moments of READY=1 and WATCHDOG=1
    var log: seq<Event>
    var readings: seq<Option<real>>  // what the store answered for the battery
    var linkHeld: bool               // what the host answered last about the link

    constructor (bounds: Bounds, now: real, willing: nat)
      ensures this.bounds == bounds && this.now == now && this.willing == willing
      ensures workers == [] && pings == [] && log == [] && readings == []
    {
      this.bounds := bounds;
      this.now := now;
      this.willing := willing;
      workers, pings, log, readings := [], [], [], [];
      linkHeld := false;
    }

    /** The stop flag is monotone: once it says no, it keeps saying no. */
    method ShouldContinue() returns (yes: bool)
      modifies this`willing
      ensures yes <==> old(willing) > 0
      ensures willing == if yes then old(willing) - 1 else 0
    {
      yes := willing > 0;
      if yes {
        willing := willing - 1;
      }
    }

    method Notify()
      modifies this`pings
      ensures pings == old(pings) + [now]
    {
      pings := pings + [now];
    }

    /** Up to `atMost` seconds go by, at least `atLeast`. */
    method Pass(atLeast: real, atMost: real)
      requires 0.0 <= atLeast <= atMost
      modifies this`now, this`workers
      ensures old(now) + atLeast <= now <= old(now) + atMost
      ensures AllEvolve(old(workers), workers, old(now), now)
    {
      var elapsed: real := *;
      if elapsed < atLeast || elapsed > atMost {
        elapsed := atLeast;
      }
      var next: seq<Worker> := *;
      if AllEvolve(workers, next, now, now + elapsed) {
        workers := next;
      }
      now := now + elapsed;
    }

    method Sleep(duration: real)
      requires Sane(bounds) && duration >= 0.0
      modifies this`now, this`workers
      ensures old(now) + duration <= now <= old(now) + duration + bounds.overrun
      ensures AllEvolve(old(workers), workers, old(now), now)
    {
      Pass(duration, duration + bounds.overrun);
    }

    method Beats(w: nat) returns (beats: nat)
      requires w < |workers|
      modifies this`workers
      ensures AllEvolve(old(workers), workers, now, now)
      ensures beats == workers[w].beats
    {
      var next: seq<Worker> := *;
      if AllEvolve(workers, next, now, now) {
        workers := next;
      }
      beats := workers[w].beats;
    }

    method IsAlive(w: nat) returns (alive: bool)
      requires w < |workers|
      modifies this`workers
      ensures AllEvolve(old(workers), workers, now, now)
      ensures alive == workers[w].alive
    {
      var next: seq<Worker> := *;
      if AllEvolve(workers, next, now, now) {
        workers := next;
      }
      alive := workers[w].alive;
    }

    method Spawn(monitorInterval: real, forced: bool) returns (w: nat)
      requires Sane(bounds)
      modifies this`now, this`workers, this`log
      ensures old(now) <= now <= old(now) + bounds.spawn
      ensures w == |old(workers)| && |workers| == w + 1
      ensures AllEvolve(old(workers), workers[..w], old(now), now)
      ensures workers[w] == Newborn(now)
      ensures log == old(log) + [Spawned(w, monitorInterval, forced, !NoneAlive(old(workers)))]
    {
      log := log + [Spawned(|workers|, monitorInterval, forced, !NoneAlive(workers))];
      Pass(0.0, bounds.spawn);
      w := |workers|;
      workers := workers + [Newborn(now)];
    }

    /** SIGKILL: from then on the process neither beats nor lives; it may still beat in the instant before. */
    method Kill(w: nat)
      requires Sane(bounds) && w < |workers|
      modifies this`now, this`workers, this`log
      ensures old(now) <= now <= old(now) + bounds.kill
      ensures AllEvolve(old(workers), workers, old(now), now)
      ensures !workers[w].alive && BeatOnlyAt(old(workers)[w], workers[w], old(now))
      ensures log == old(log) + [Killed(w, old(now))]
    {
      var next: seq<Worker> := *;
      if AllEvolve(workers, next, now, now) {
        workers := next;
      }
      log := log + [Killed(w, now)];
      if workers[w].alive {
        workers := workers[w := workers[w].(alive := false, diedAt := now)];
      }
      ghost var w1, t1 := workers, now;
      Pass(0.0, bounds.kill);
      EvolveOn(old(workers), w1, workers, t1, t1, now);
    }

    method Join(w: nat)
      requires Sane(bounds) && w < |workers| && !workers[w].alive
      modifies this`now, this`workers
      ensures old(now) <= now <= old(now) + bounds.join
      ensures AllEvolve(old(workers), workers, old(now), now)
    {
      Pass(0.0, bounds.join);
    }

    method Disconnect()
      requires Sane(bounds)
      modifies this`now, this`workers, this`log
      ensures old(now) <= now <= old(now) + bounds.disconnect
      ensures AllEvolve(old(workers), workers, old(now), now)
      ensures log == old(log) + [Disconnected]
    {
      log := log + [Disconnected];
      Pass(0.0, bounds.disconnect);
    }

    method BleConnected() returns (connected: bool)
      requires Sane(bounds)
      modifies this`now, this`workers, this`linkHeld
      ensures old(now) <= now <= old(now) + bounds.status
      ensures AllEvolve(old(workers), workers, old(now), now)
      ensures connected == linkHeld
    {
      Pass(0.0, bounds.status);
      linkHeld := *;
      connected := linkHeld;
    }

    method Battery() returns (level: Option<real>)
      requires Sane(bounds)
      modifies this`now, this`workers, this`readings
      ensures old(now) <= now <= old(now) + bounds.battery
      ensures AllEvolve(old(workers), workers, old(now), now)
      ensures readings == old(readings) + [level]
    {
      Pass(0.0, bounds.battery);
      level := *;
      readings := readings + [level];
    }

    method RecordLink(reconnects: nat)
      requires Sane(bounds)
      modifies this`now, this`workers, this`log
      ensures old(now) <= now <= old(now) + bounds.link
      ensures AllEvolve(old(workers), workers, old(now), now)
      ensures log == old(log) + [Linked(reconnects)]
    {
      log := log + [Linked(reconnects)];
      Pass(0.0, bounds.link);
    }

    /** The worker that the control API reaches changes hands under a lock. */
    method Expose(current: Option<nat>)
      modifies this`log
      ensures log == old(log) + [if current.Some? then Exposed(current.value) else Hidden]
    {
      log := log + [if current.Some? then Exposed(current.value) else Hidden];
    }
  }
}
