/** The `WSChat` object: the registry it mutates in place and the handlers
    that loop over snapshots of it, proved step for step against the
    functions of module Relay. */
module Chat {
  import opened Registry
  import opened Protocol
  import Relay

  /** The channels the relay writes to. A send on a channel in `resets` raises
      `ConnectionResetError` and writes nothing; any other send is appended to
      `sent`. The handlers may only append to `sent`, so the flags stay fixed
      during one dispatched event. */
  class Transport {
    var closed: set<Chan>
    var resets: set<Chan>
    var sent: seq<Delivery>

    constructor (closed: set<Chan>, resets: set<Chan>)
      ensures this.closed == closed && this.resets == resets && sent == []
    {
      this.closed := closed;
      this.resets := resets;
      sent := [];
    }

    /** `ws.send_json(ev)` / `ws.send_str("pong")`. */
    method Send(ch: Chan, ev: OutEvent) returns (ok: bool)
      modifies this`sent
      ensures ok <==> ch !in resets
      ensures sent == if ok then old(sent) + [Delivery(ch, ev)] else old(sent)
    {
      ok := ch !in resets;
      if ok {
        sent := sent + [Delivery(ch, ev)];
      }
    }
  }

  class WSChat {
    var conns: Conns
    const transport: Transport
    /** `false` runs the loops as written; `true` passes over snapshot
        entries whose identity is no longer registered (see Findings). */
    const skipStale: bool

    ghost predicate Valid()
      reads this
    {
      DistinctKeys(conns)
    }

    ghost function State(): Relay.St
      reads this, transport
    {
      Relay.St(conns, transport.sent)
    }

    ghost function Env(): Relay.Env
      reads transport
    {
      Relay.Env(transport.closed, transport.resets)
    }

    constructor (transport: Transport, skipStale: bool)
      ensures Valid() && conns == [] && this.transport == transport && this.skipStale == skipStale
    {
      conns := [];
      this.transport := transport;
      this.skipStale := skipStale;
    }

    /** `_broadcast(m, ignore)`. */
    method Broadcast(m: OutEvent, ignore: set<Id>) returns (out: Outcome)
      requires Valid()
      modifies this, transport`sent
      decreases |conns|, 2
      ensures Valid()
      ensures Relay.Res(State(), out) == Relay.Broadcast(Env(), skipStale, old(State()), m, ignore)
    {
      out := CheckWs();
      if out.Raised? {
        return;
      }
      ghost var swept := State();
      var snapshot := conns;
      var i := 0;
      while i < |snapshot|
        invariant 0 <= i <= |snapshot| && out == Ok
        invariant Valid() && |conns| <= |old(conns)|
        invariant Relay.SendAll(Env(), skipStale, swept, snapshot, m, ignore)
               == Relay.SendAll(Env(), skipStale, State(), snapshot[i..], m, ignore)
      {
        var e := snapshot[i];
        assert snapshot[i..][1..] == snapshot[i + 1..];
        if e.id !in ignore && !(skipStale && e.id !in Keys(conns)) {
          var ok := transport.Send(e.ch, m);
          if !ok {
            out := LeaveHandler(e.id);
            if out.Raised? {
              return;
            }
          }
        }
        i := i + 1;
      }
    }

    /** `_check_ws()`. */
    method CheckWs() returns (out: Outcome)
      requires Valid()
      modifies this, transport`sent
      decreases |conns|, 1
      ensures Valid()
      ensures Relay.Res(State(), out) == Relay.Sweep(Env(), skipStale, old(State()))
    {
      out := Ok;
      ghost var start := State();
      var snapshot := conns;
      var i := 0;
      while i < |snapshot|
        invariant 0 <= i <= |snapshot| && out == Ok
        invariant Valid() && |conns| <= |old(conns)|
        invariant Relay.SweepFrom(Env(), skipStale, start, snapshot)
               == Relay.SweepFrom(Env(), skipStale, State(), snapshot[i..])
      {
        var e := snapshot[i];
        assert snapshot[i..][1..] == snapshot[i + 1..];
        if e.ch in transport.closed && !(skipStale && e.id !in Keys(conns)) {
          out := LeaveHandler(e.id);
          if out.Raised? {
            return;
          }
        }
        i := i + 1;
      }
    }

    /** `_leave_handler(id)`. */
    method LeaveHandler(id: Id) returns (out: Outcome)
      requires Valid()
      modifies this, transport`sent
      decreases |conns|, 0
      ensures Valid()
      ensures Relay.Res(State(), out) == Relay.Leave(Env(), skipStale, old(State()), id)
    {
      if id !in Keys(conns) {
        return Raised(KeyError(id));
      }
      conns := Pop(conns, id);
      out := Broadcast(UserLeave(id), {});
    }

    /** `_enter_handler`. */
    method EnterHandler(id: Id, ws: Chan) returns (out: Outcome)
      requires Valid()
      modifies this, transport`sent
      ensures Valid()
      ensures Relay.Res(State(), out) == Relay.Enter(Env(), skipStale, old(State()), id, ws)
    {
      conns := Assign(conns, id, ws);
      out := Broadcast(UserEnter(id), {id});
    }

    /** `_message_handler`. */
    method MessageHandler(id: Id, text: string, to: Option<Id>) returns (out: Outcome)
      requires Valid()
      modifies this, transport`sent
      ensures Valid()
      ensures Relay.Res(State(), out) == Relay.Message(Env(), skipStale, old(State()), id, text, to)
    {
      match to
      case None =>
        out := Broadcast(Msg(id, text), {id});
      case Some(target) =>
        match Lookup(conns, target)
        case None =>
          out := Raised(KeyError(target));
        case Some(ch) =>
          var ok := transport.Send(ch, Dm(id, text));
          out := if ok then Ok else Raised(ConnectionReset(ch));
    }

    /** The body of the receive loop of `_websocket_chat` for one frame on `ws`. */
    method Receive(ws: Chan, ev: InEvent) returns (out: Outcome)
      requires Valid()
      modifies this, transport`sent
      ensures Valid()
      ensures Relay.Res(State(), out) == Relay.Dispatch(Env(), skipStale, old(State()), ws, ev)
    {
      match ev
      case Ping =>
        var ok := transport.Send(ws, Pong);
        if !ok {
          return Raised(ConnectionReset(ws));
        }
        out := CheckWs();
      case Init(id) =>
        out := EnterHandler(id, ws);
      case Text(id, text, to) =>
        out := MessageHandler(id, text, to);
      case Other =>
        out := Ok;
    }
  }
}
