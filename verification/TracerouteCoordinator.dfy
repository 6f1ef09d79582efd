/**
 The traceroute coordinator: a dictionary of requests waiting for their reply, shared by the poll
 loop, the receive thread and the timers. Only the blocks taken under its lock are atomic, so each
 of them is a function on the dictionary here; the object's methods are proved against them and
 the interleavings of TracerouteRuns are built from them.
 */
module TracerouteCoordinator {
  import opened Arithmetic
  import opened Options
  import opened TracerouteStore
  import NodeIds

  datatype Pending = Pending(destNum: int, destId: string, sent: real, hopLimit: int, source: string)

  /** A decoded packet, as far as the coordinator looks at it. */
  datatype Packet = Packet(isTraceroute: bool, requestId: Option<int>, sender: int, readable: bool)

  /** What the injected `send_fn` did: return the packet's id, or raise. */
  datatype SendOutcome = Sent(packetId: int) | SendRaised

  datatype Started =
    | Accepted(requestId: int, dest: string)
    | Failed(dest: string)
    | BadTarget(error: NodeIds.TargetError)

  // ----- The blocks under the lock -----

  function Registered<T>(pending: map<int, T>, packetId: int, entry: T): map<int, T> {
    pending[packetId := entry]
  }

  /** A reply takes the entry of its request id out, provided it comes from the traced node. */
  function TakeReply<T>(pending: map<int, T>, requestId: int, fromTracedNode: T -> bool): (Option<T>, map<int, T>) {
    if requestId in pending && fromTracedNode(pending[requestId])
    then (Some(pending[requestId]), pending - {requestId})
    else (None, pending)
  }

  function TakeExpired<T>(pending: map<int, T>, requestId: int): (Option<T>, map<int, T>) {
    if requestId in pending then (Some(pending[requestId]), pending - {requestId}) else (None, pending)
  }

  // ----- Results -----

  function ReplyStatus(readable: bool): Status {
    if readable then Ok else Error
  }

  function RowOf(p: Pending, requestId: int, status: Status, recv: Option<real>): Row {
    Row(requestId, p.destId, status, p.sent, recv, p.source)
  }

  /** A reply to a request that waits: a traceroute packet under its id, from the node it was sent to. */
  predicate Matches(packet: Packet, waiting: map<int, Pending>) {
    && packet.isTraceroute && packet.requestId.Some? && packet.requestId.value in waiting
    && waiting[packet.requestId.value].destNum == packet.sender
  }

  class Coordinator {
    const table: Table
    var pending: map<int, Pending>
    var timers: map<int, real>  // deadlines of the timers started and neither run nor cancelled, by packet id

    constructor (table: Table)
      ensures this.table == table && pending == map[] && timers == map[]
    {
      this.table := table;
      pending, timers := map[], map[];
    }

    /**
     Emission. A bad target leaves no trace; a failed send leaves one `error` row under request id 0
     and no pending entry; a successful send leaves one entry, one running timer and no row.
     */
    method Start(target: NodeIds.Target, hopLimit: int, timeoutS: real, source: string, now: real,
                 outcome: SendOutcome, armedAt: real)
      returns (r: Started)
      modifies this`pending, this`timers, table
      ensures var parsed := NodeIds.Normalize(target);
              match parsed
              case Rejected(error) =>
                && r == BadTarget(error)
                && pending == old(pending) && timers == old(timers) && table.rows == old(table.rows)
              case Accepted(node) =>
                match outcome
                case SendRaised =>
                  && r == Failed(node.id)
                  && pending == old(pending) && timers == old(timers)
                  && table.rows == old(table.rows) + [Row(0, node.id, Error, now, None, source)]
                case Sent(id) =>
                  && r == Accepted(id, node.id)
                  && pending == old(pending)[id := Pending(node.num, node.id, now, hopLimit, source)]
                  && timers == old(timers)[id := armedAt + MaxReal(0.0, timeoutS)]
                  && table.rows == old(table.rows)
    {
      var parsed := NodeIds.Normalize(target);
      if parsed.Rejected? {
        return BadTarget(parsed.error);
      }
      var entry := Pending(parsed.node.num, parsed.node.id, now, hopLimit, source);
      match outcome {
        case SendRaised =>
          table.Record(RowOf(entry, 0, Error, None));
          r := Failed(parsed.node.id);
        case Sent(id) =>
          pending := pending[id := entry];
          timers := timers[id := armedAt + MaxReal(0.0, timeoutS)];
          r := Accepted(id, parsed.node.id);
      }
    }

    /** A packet ends at most one request, the one whose id and traced node it names, and stops its timer. */
    method OnPacket(packet: Packet, now: real)
      modifies this`pending, this`timers, table
      ensures Matches(packet, old(pending)) ==>
                var id := packet.requestId.value;
                var entry := old(pending)[id];
                && pending == old(pending) - {id} && timers == old(timers) - {id}
                && table.rows == old(table.rows) + [Row(id, entry.destId, if packet.readable then Ok else Error,
                                                        entry.sent, Some(now), entry.source)]
      ensures !Matches(packet, old(pending)) ==>
                pending == old(pending) && timers == old(timers) && table.rows == old(table.rows)
    {
      if !packet.isTraceroute || packet.requestId.None? {
        return;
      }
      var id := packet.requestId.value;
      if id !in pending || packet.sender != pending[id].destNum {
        return;
      }
      var entry := pending[id];
      pending := pending - {id};
      timers := timers - {id};
      table.Record(RowOf(entry, id, ReplyStatus(packet.readable), Some(now)));
    }

    /** The callback of a timer, which has run by then; a request that was taken out before is left alone. */
    method OnTimeout(requestId: int)
      modifies this`pending, this`timers, table
      ensures pending == old(pending) - {requestId} && timers == old(timers) - {requestId}
      ensures table.rows == old(table.rows) +
                if requestId !in old(pending) then []
                else
                  var entry := old(pending)[requestId];
                  [Row(requestId, entry.destId, Timeout, entry.sent, None, entry.source)]
    {
      timers := timers - {requestId};
      if requestId !in pending {
        return;
      }
      var entry := pending[requestId];
      pending := pending - {requestId};
      table.Record(RowOf(entry, requestId, Timeout, None));
    }

    method CancelAll()
      modifies this`pending, this`timers
      ensures pending == map[] && timers == old(timers) - old(pending).Keys
    {
      timers := timers - pending.Keys;
      pending := map[];
    }
  }
}
