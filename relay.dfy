/** The relay engine of `WSChat` as functions of a state: the registry and the
    log of everything written to any channel. Each function returns the state
    reached and whether an exception escaped; when one escapes, the state is the
    one in force at the point of the raise, as in Python.

    `_broadcast`, `_check_ws` and `_leave_handler` call each other:
    a broadcast sweeps first, a sweep and a failed send run leave handling, and
    leave handling pops one key and broadcasts. Each leave shrinks the registry,
    which is what the `decreases` clauses say.

    `skipStale` selects the loops: `false` is the code as written, which visits
    every entry of its snapshot even after a nested leave has removed it;
    `true` is the corrected variant that passes over identities no longer
    registered (see Findings). */
module Relay {
  import opened Registry
  import opened Protocol

  /** The flags of the channels, held fixed during one dispatched event:
      `closed` is `ws.closed`, `resets` holds the channels whose `send_json`
      raises `ConnectionResetError`. */
  datatype Env = Env(closed: set<Chan>, resets: set<Chan>)

  /** `conns` is `self.conns`; `sent` is every frame written so far, in order. */
  datatype St = St(conns: Conns, sent: seq<Delivery>)

  datatype Res = Res(st: St, out: Outcome)

  /** How a state may evolve under leave handling: entries only disappear, the
      dict invariant is kept, and the log only grows. */
  ghost predicate Shrinks(s: St, t: St)
  {
    && |t.conns| <= |s.conns|
    && (forall e :: e in t.conns ==> e in s.conns)
    && (DistinctKeys(s.conns) ==> DistinctKeys(t.conns))
    && s.sent <= t.sent
  }

  /** `_leave_handler(id)`: pop `id` (KeyError when it is absent), then
      broadcast USER_LEAVE to everyone left. */
  function Leave(env: Env, skipStale: bool, s: St, id: Id): (r: Res)
    decreases |s.conns|, 0, 0
    ensures Shrinks(s, r.st)
    ensures r.out.Raised? ==> r.out.error.KeyError?
    ensures id !in Keys(s.conns) ==> r == Res(s, Raised(KeyError(id)))
  {
    if id !in Keys(s.conns) then Res(s, Raised(KeyError(id)))
    else Broadcast(env, skipStale, St(Pop(s.conns, id), s.sent), UserLeave(id), {})
  }

  /** `_broadcast(m, ignore)`: sweep, snapshot, then send `m` to every
      snapshot entry whose identity is not ignored. */
  function Broadcast(env: Env, skipStale: bool, s: St, m: OutEvent, ignore: set<Id>): (r: Res)
    decreases |s.conns|, 2, 0
    ensures Shrinks(s, r.st)
    ensures r.out.Raised? ==> r.out.error.KeyError?
  {
    var swept := Sweep(env, skipStale, s);
    if swept.out.Raised? then swept
    else SendAll(env, skipStale, swept.st, swept.st.conns, m, ignore)
  }

  /** `_check_ws()`: leave handling for every snapshot entry whose channel is closed. */
  function Sweep(env: Env, skipStale: bool, s: St): (r: Res)
    decreases |s.conns|, 1, |s.conns| + 1
    ensures Shrinks(s, r.st)
    ensures r.out.Raised? ==> r.out.error.KeyError?
  {
    SweepFrom(env, skipStale, s, s.conns)
  }

  /** The rest of the `_check_ws` loop, from snapshot suffix `snap` on. */
  function SweepFrom(env: Env, skipStale: bool, s: St, snap: Conns): (r: Res)
    decreases |s.conns|, 1, |snap|
    ensures Shrinks(s, r.st)
    ensures r.out.Raised? ==> r.out.error.KeyError?
  {
    if snap == [] then Res(s, Ok)
    else if snap[0].ch !in env.closed || (skipStale && snap[0].id !in Keys(s.conns)) then
      SweepFrom(env, skipStale, s, snap[1..])
    else
      var left := Leave(env, skipStale, s, snap[0].id);
      if left.out.Raised? then left
      else SweepFrom(env, skipStale, left.st, snap[1..])
  }

  /** The rest of the `_broadcast` send loop, from snapshot suffix `snap` on:
      a send that resets runs leave handling and the loop goes on. */
  function SendAll(env: Env, skipStale: bool, s: St, snap: Conns, m: OutEvent, ignore: set<Id>): (r: Res)
    decreases |s.conns|, 1, |snap|
    ensures Shrinks(s, r.st)
    ensures r.out.Raised? ==> r.out.error.KeyError?
  {
    if snap == [] then Res(s, Ok)
    else if snap[0].id in ignore || (skipStale && snap[0].id !in Keys(s.conns)) then
      SendAll(env, skipStale, s, snap[1..], m, ignore)
    else if snap[0].ch in env.resets then
      var left := Leave(env, skipStale, s, snap[0].id);
      if left.out.Raised? then left
      else SendAll(env, skipStale, left.st, snap[1..], m, ignore)
    else
      SendAll(env, skipStale, St(s.conns, s.sent + [Delivery(snap[0].ch, m)]), snap[1..], m, ignore)
  }

  /** `_enter_handler`: register `ws` under `id`, then announce the newcomer
      to everyone but `id`. */
  function Enter(env: Env, skipStale: bool, s: St, id: Id, ws: Chan): (r: Res)
    ensures Shrinks(St(Assign(s.conns, id, ws), s.sent), r.st)
  {
    Broadcast(env, skipStale, St(Assign(s.conns, id, ws), s.sent), UserEnter(id), {id})
  }

  /** `_message_handler`: broadcast MSG to everyone but the sender, or send one
      DM to the channel registered under `to`. The sender's identity is taken
      from the frame and is not looked up. */
  function Message(env: Env, skipStale: bool, s: St, id: Id, text: string, to: Option<Id>): (r: Res)
    ensures Shrinks(s, r.st)
  {
    match to
    case None => Broadcast(env, skipStale, s, Msg(id, text), {id})
    case Some(target) =>
      match Lookup(s.conns, target)
      case None => Res(s, Raised(KeyError(target)))
      case Some(ch) =>
        if ch in env.resets then Res(s, Raised(ConnectionReset(ch)))
        else Res(St(s.conns, s.sent + [Delivery(ch, Dm(id, text))]), Ok)
  }

  /** One iteration of the receive loop of `_websocket_chat` on channel `ws`. */
  function Dispatch(env: Env, skipStale: bool, s: St, ws: Chan, ev: InEvent): (r: Res)
    ensures !ev.Init? ==> Shrinks(s, r.st)
    ensures ev.Other? ==> r == Res(s, Ok)
  {
    match ev
    case Ping =>
      if ws in env.resets then Res(s, Raised(ConnectionReset(ws)))
      else Sweep(env, skipStale, St(s.conns, s.sent + [Delivery(ws, Pong)]))
    case Init(id) => Enter(env, skipStale, s, id, ws)
    case Text(id, text, to) => Message(env, skipStale, s, id, text, to)
    case Other => Res(s, Ok)
  }
}
