/** The wire vocabulary of the relay, already decoded: what a client sends,
    what the relay pushes to a channel, and the exceptions a handler can raise. */
module Protocol {
  import opened Registry

  /** An inbound frame: the literal text "ping", a JSON object with `mtype`
      INIT or TEXT, or anything else the receive loop ignores. */
  datatype InEvent =
    | Ping
    | Init(id: Id)
    | Text(id: Id, text: string, to: Option<Id>)
    | Other

  /** An outbound frame; `Pong` is the literal text "pong". */
  datatype OutEvent =
    | UserEnter(id: Id)
    | UserLeave(id: Id)
    | Msg(id: Id, text: string)
    | Dm(id: Id, text: string)
    | Pong

  /** One successful send: `ev` was written to channel `ch`. */
  datatype Delivery = Delivery(ch: Chan, ev: OutEvent)

  /** The exceptions that escape a handler: `dict.pop` or `dict[...]` on a
      missing key, and a connection reset on a send nobody catches. */
  datatype Error = KeyError(key: Id) | ConnectionReset(ch: Chan)

  datatype Outcome = Ok | Raised(error: Error)

  /** The frames channel `c` received, in order. */
  function Outbox(log: seq<Delivery>, c: Chan): (r: seq<OutEvent>)
    ensures |r| <= |log|
    ensures forall ev :: ev in r <==> Delivery(c, ev) in log
  {
    if log == [] then []
    else
      assert forall d :: d in log <==> d == log[0] || d in log[1..] by {
        assert log == [log[0]] + log[1..];
      }
      (if log[0].ch == c then [log[0].ev] else []) + Outbox(log[1..], c)
  }

  /** The channels that received frame `m`, in order, once per send. */
  function Received(log: seq<Delivery>, m: OutEvent): (r: seq<Chan>)
    ensures |r| <= |log|
    ensures forall c :: c in r <==> Delivery(c, m) in log
  {
    if log == [] then []
    else
      assert forall d :: d in log <==> d == log[0] || d in log[1..] by {
        assert log == [log[0]] + log[1..];
      }
      (if log[0].ev == m then [log[0].ch] else []) + Received(log[1..], m)
  }

  lemma {:induction false} OutboxAppend(a: seq<Delivery>, b: seq<Delivery>, c: Chan)
    ensures Outbox(a + b, c) == Outbox(a, c) + Outbox(b, c)
  {
    if a != [] {
      assert (a + b)[1..] == a[1..] + b;
      OutboxAppend(a[1..], b, c);
    } else {
      assert a + b == b;
    }
  }

  lemma {:induction false} ReceivedAppend(a: seq<Delivery>, b: seq<Delivery>, m: OutEvent)
    ensures Received(a + b, m) == Received(a, m) + Received(b, m)
  {
    if a != [] {
      assert (a + b)[1..] == a[1..] + b;
      ReceivedAppend(a[1..], b, m);
    } else {
      assert a + b == b;
    }
  }

  /** A log in which `m` never occurs gives `m` to nobody. */
  lemma {:induction false} ReceivedNone(log: seq<Delivery>, m: OutEvent)
    requires forall d :: d in log ==> d.ev != m
    ensures Received(log, m) == []
  {
    if log != [] {
      ReceivedNone(log[1..], m);
    }
  }
}
