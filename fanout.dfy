/** Who receives a broadcast frame. A broadcast of `m` gives `m` to the live
    (open, non-resetting) registered channels whose identity is not ignored,
    once each and in registry order; when an exception escapes, it has
    reached a prefix of them. A connection reset on one send does not stop the
    fan-out to the rest. */
module Fanout {
  import opened Registry
  import opened Protocol
  import opened Relay
  import opened RelayInvariants

  /** The channels of `c` a broadcast ignoring `ignore` reaches, in order: a
      channel is reached exactly when some entry not ignored holds it and
      its send succeeds. */
  function Recipients(env: Env, c: Conns, ignore: set<Id>): (r: seq<Chan>)
    ensures forall x :: x in r <==> exists e :: e in c && e.id !in ignore && e.ch !in env.resets && e.ch == x
  {
    if c == [] then []
    else
      assert c == [c[0]] + c[1..];
      (if c[0].id !in ignore && c[0].ch !in env.resets then [c[0].ch] else [])
        + Recipients(env, c[1..], ignore)
  }

  /** Without closed channels, the reachable entries are the live ones. */
  lemma {:induction false} RecipientsOfOpen(env: Env, c: Conns, ignore: set<Id>)
    requires NoClosed(env, c)
    ensures Recipients(env, c, ignore) == Recipients(env, Live(env, c), ignore)
  {
    if c != [] {
      assert c[0] in c;
      RecipientsOfOpen(env, c[1..], ignore);
      var l := Live(env, c);
      if c[0].ch !in env.resets {
        assert l == [c[0]] + Live(env, c[1..]);
        assert l != [] && l[0] == c[0] && l[1..] == Live(env, c[1..]);
        assert Recipients(env, l, ignore)
            == (if c[0].id !in ignore then [c[0].ch] else []) + Recipients(env, Live(env, c[1..]), ignore);
      } else {
        assert l == Live(env, c[1..]);
      }
    }
  }

  lemma PrefixCons<T>(x: T, a: seq<T>, b: seq<T>)
    requires a <= b
    ensures [x] + a <= [x] + b
  {
    assert ([x] + b)[..|[x] + a|] == [x] + b[..|a|];
  }

  /** Entries that are live stay registered when the live part is unchanged. */
  lemma StillRegistered(env: Env, c: Conns, c': Conns, snap: Conns)
    requires Live(env, c') == Live(env, c)
    requires forall e :: e in snap && Healthy(env, e.ch) ==> e in c
    ensures forall e :: e in snap && Healthy(env, e.ch) ==> e in c'
  {
    forall e | e in snap && Healthy(env, e.ch)
      ensures e in c'
    {
      assert e in Live(env, c);
    }
  }

  /** The facts the send loop keeps about its snapshot suffix. */
  ghost predicate SendLoopInv(env: Env, s: St, snap: Conns, m: OutEvent)
  {
    && DistinctKeys(s.conns) && Agree(snap, s.conns) && NoClosed(env, snap)
    && (forall e :: e in snap && Healthy(env, e.ch) ==> e in s.conns)
    && !LeaveNotice(m, Keys(s.conns))
  }

  /** What the send loop promises from snapshot suffix `snap` on. */
  ghost predicate Delivered(env: Env, s: St, r: Res, snap: Conns, m: OutEvent, ignore: set<Id>)
    requires s.sent <= r.st.sent
  {
    var got := Received(Appended(s, r.st), m);
    got <= Recipients(env, snap, ignore) && (r.out.Ok? ==> got == Recipients(env, snap, ignore))
  }

  /** The send loop of a broadcast delivers `m` to a prefix of the reachable
      snapshot entries, and to all of them when it completes. */
  lemma {:induction false} SendAllDelivers(env: Env, skip: bool, s: St, snap: Conns, m: OutEvent, ignore: set<Id>)
    requires SendLoopInv(env, s, snap, m)
    decreases |snap|, 1
    ensures Delivered(env, s, SendAll(env, skip, s, snap, m, ignore), snap, m, ignore)
  {
    var r := SendAll(env, skip, s, snap, m, ignore);
    if snap == [] {
      assert Appended(s, r.st) == [];
    } else {
      var e := snap[0];
      assert e in snap;
      if e.id in ignore || (skip && e.id !in Keys(s.conns)) {
        assert Recipients(env, snap, ignore) == Recipients(env, snap[1..], ignore);
        SendAllDelivers(env, skip, s, snap[1..], m, ignore);
      } else if e.ch in env.resets {
        DeliversPastReset(env, skip, s, snap, m, ignore);
      } else {
        DeliversPastSend(env, skip, s, snap, m, ignore);
      }
    }
  }

  /** A send that resets delivers nothing, and the loop goes on. */
  lemma {:induction false} DeliversPastReset(env: Env, skip: bool, s: St, snap: Conns, m: OutEvent, ignore: set<Id>)
    requires SendLoopInv(env, s, snap, m)
    requires snap != [] && snap[0].id !in ignore && !(skip && snap[0].id !in Keys(s.conns))
    requires snap[0].ch in env.resets
    decreases |snap|, 0
    ensures Delivered(env, s, SendAll(env, skip, s, snap, m, ignore), snap, m, ignore)
  {
    var e := snap[0];
    var r := SendAll(env, skip, s, snap, m, ignore);
    assert Recipients(env, snap, ignore) == Recipients(env, snap[1..], ignore);
    var left := Leave(env, skip, s, e.id);
    LeaveEvents(env, skip, s, e.id);
    ReceivedNone(Appended(s, left.st), m);
    if left.out.Ok? {
      assert e in snap;
      assert forall f :: f in snap[1..] && Healthy(env, f.ch) ==> f in left.st.conns by {
        LeaveKeepsLive(env, skip, s, e.id);
        PopUnhealthyKeepsLive(env, s.conns, e.id);
        StillRegistered(env, s.conns, left.st.conns, snap[1..]);
      }
      assert Keys(left.st.conns) <= Keys(s.conns);
      SendAllDelivers(env, skip, left.st, snap[1..], m, ignore);
      assert r == SendAll(env, skip, left.st, snap[1..], m, ignore);
      AppendedSplit(s, left.st, r.st);
      ReceivedAppend(Appended(s, left.st), Appended(left.st, r.st), m);
    } else {
      assert r == left;
    }
  }

  /** A send that succeeds delivers `m` to that channel, and the loop goes on. */
  lemma {:induction false} DeliversPastSend(env: Env, skip: bool, s: St, snap: Conns, m: OutEvent, ignore: set<Id>)
    requires SendLoopInv(env, s, snap, m)
    requires snap != [] && snap[0].id !in ignore && !(skip && snap[0].id !in Keys(s.conns))
    requires snap[0].ch !in env.resets
    decreases |snap|, 0
    ensures Delivered(env, s, SendAll(env, skip, s, snap, m, ignore), snap, m, ignore)
  {
    var e := snap[0];
    var r := SendAll(env, skip, s, snap, m, ignore);
    var rest := Recipients(env, snap[1..], ignore);
    assert Recipients(env, snap, ignore) == [e.ch] + rest;
    var next := St(s.conns, s.sent + [Delivery(e.ch, m)]);
    SendAllDelivers(env, skip, next, snap[1..], m, ignore);
    assert r == SendAll(env, skip, next, snap[1..], m, ignore);
    assert Appended(s, r.st) == [Delivery(e.ch, m)] + Appended(next, r.st);
    ReceivedAppend([Delivery(e.ch, m)], Appended(next, r.st), m);
    PrefixCons(e.ch, Received(Appended(next, r.st), m), rest);
  }

  /** `_broadcast(m, ignore)` gives `m` exactly to the live registered
      channels outside `ignore`, once each and in registry order, when it
      completes, and to a prefix of them when an exception escapes.
      (`m` must not be a USER_LEAVE for a registered identity: nested leave
      handling broadcasts those.) */
  lemma BroadcastDelivers(env: Env, skip: bool, s: St, m: OutEvent, ignore: set<Id>)
    requires DistinctKeys(s.conns)
    requires !LeaveNotice(m, Keys(s.conns))
    ensures var r := Broadcast(env, skip, s, m, ignore);
      var got := Received(Appended(s, r.st), m);
      && got <= Recipients(env, Live(env, s.conns), ignore)
      && (r.out.Ok? ==> got == Recipients(env, Live(env, s.conns), ignore))
  {
    var r := Broadcast(env, skip, s, m, ignore);
    var swept := Sweep(env, skip, s);
    SweepFromEvents(env, skip, s, s.conns);
    ReceivedNone(Appended(s, swept.st), m);
    if swept.out.Ok? {
      var c := swept.st.conns;
      assert Live(env, c) == Live(env, s.conns) by {
        AgreeSelf(s.conns);
        SweepFromKeepsLive(env, skip, s, s.conns);
      }
      assert NoClosed(env, c) by {
        SweepFromClears(env, skip, s, s.conns);
      }
      assert SendLoopInv(env, swept.st, c, m) by {
        AgreeSelf(c);
        assert Keys(c) <= Keys(s.conns);
      }
      SendAllDelivers(env, skip, swept.st, c, m, ignore);
      RecipientsOfOpen(env, c, ignore);
      assert r == SendAll(env, skip, swept.st, c, m, ignore);
      AppendedSplit(s, swept.st, r.st);
      ReceivedAppend(Appended(s, swept.st), Appended(swept.st, r.st), m);
    }
  }

  /** After `_broadcast(m, ignore)` every live entry is still registered, in
      order; when it completes, no closed channel is registered, and a
      channel whose send resets only under an ignored identity. */
  lemma BroadcastLeavesLive(env: Env, skip: bool, s: St, m: OutEvent, ignore: set<Id>)
    requires DistinctKeys(s.conns)
    ensures var r := Broadcast(env, skip, s, m, ignore);
      && Live(env, r.st.conns) == Live(env, s.conns)
      && (r.out.Ok? ==> NoClosed(env, r.st.conns))
      && (r.out.Ok? ==> forall e :: e in r.st.conns && e.ch in env.resets ==> e.id in ignore)
  {
    BroadcastKeepsLive(env, skip, s, m, ignore);
    BroadcastClears(env, skip, s, m, ignore);
    BroadcastDropsResets(env, skip, s, m, ignore);
  }
}
