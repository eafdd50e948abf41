/** Who hears that an identity left. Every identity that leave handling
    removes is announced exactly once, by one USER_LEAVE frame to each live
    registered channel in registry order, and no identity that stays
    registered is announced. The statement follows the mutual recursion of
    module Relay, like the families of module RelayInvariants. */
module Notices {
  import opened Registry
  import opened Protocol
  import opened Relay
  import opened RelayInvariants
  import opened Fanout

  /** Between `s` and `t`, each removed identity other than the one `m`
      announces got its USER_LEAVE exactly to the live channels of `s`; no
      other identity got one. */
  ghost predicate Notified(env: Env, s: St, t: St, m: OutEvent)
    requires s.sent <= t.sent
  {
    forall k :: UserLeave(k) != m ==>
      Received(Appended(s, t), UserLeave(k))
        == if k in Keys(s.conns) && k !in Keys(t.conns) then Recipients(env, Live(env, s.conns), {}) else []
  }

  lemma NotifiedCompose(env: Env, s: St, u: St, t: St, m: OutEvent)
    requires s.sent <= u.sent && u.sent <= t.sent
    requires Notified(env, s, u, m) && Notified(env, u, t, m)
    requires Live(env, u.conns) == Live(env, s.conns)
    requires Keys(t.conns) <= Keys(u.conns) <= Keys(s.conns)
    ensures s.sent <= t.sent && Notified(env, s, t, m)
  {
    AppendedSplit(s, u, t);
    forall k | UserLeave(k) != m
      ensures Received(Appended(s, t), UserLeave(k))
        == if k in Keys(s.conns) && k !in Keys(t.conns) then Recipients(env, Live(env, s.conns), {}) else []
    {
      ReceivedAppend(Appended(s, u), Appended(u, t), UserLeave(k));
    }
  }

  /** One frame that is not a leave notice announces nobody. */
  lemma NotifiedBySend(env: Env, s: St, ch: Chan, m: OutEvent)
    ensures Notified(env, s, St(s.conns, s.sent + [Delivery(ch, m)]), m)
  {
    var t := St(s.conns, s.sent + [Delivery(ch, m)]);
    assert Appended(s, t) == [Delivery(ch, m)];
  }

  /** The announcement of `id` after popping it, followed by what the
      broadcast in between removed, notifies as one step. */
  lemma NotifiedAfterPop(env: Env, s: St, p: St, t: St, id: Id, m: OutEvent)
    requires p == St(Pop(s.conns, id), s.sent) && p.sent <= t.sent
    requires DistinctKeys(s.conns) && id in Keys(s.conns)
    requires Notified(env, p, t, UserLeave(id))
    requires Live(env, p.conns) == Live(env, s.conns)
    requires Keys(t.conns) <= Keys(p.conns)
    requires Received(Appended(p, t), UserLeave(id)) == Recipients(env, Live(env, p.conns), {})
    ensures Notified(env, s, t, m)
  {
    assert Appended(s, t) == Appended(p, t);
    assert Keys(p.conns) == Keys(s.conns) - {id};
    forall k | UserLeave(k) != m
      ensures Received(Appended(s, t), UserLeave(k))
        == if k in Keys(s.conns) && k !in Keys(t.conns) then Recipients(env, Live(env, s.conns), {}) else []
    {
      if k != id {
        assert UserLeave(k) != UserLeave(id);
      }
    }
  }

  lemma {:induction false} LeaveNotified(env: Env, skip: bool, s: St, id: Id, m: OutEvent)
    requires DistinctKeys(s.conns)
    requires forall e :: e in s.conns && e.id == id ==> !Healthy(env, e.ch)
    decreases |s.conns|, 0, 0
    ensures var r := Leave(env, skip, s, id);
      r.out.Ok? ==> Notified(env, s, r.st, m)
  {
    if id in Keys(s.conns) {
      var p := St(Pop(s.conns, id), s.sent);
      var b := Broadcast(env, skip, p, UserLeave(id), {});
      BroadcastNotified(env, skip, p, UserLeave(id), {});
      if b.out.Ok? {
        PopUnhealthyKeepsLive(env, s.conns, id);
        BroadcastDelivers(env, skip, p, UserLeave(id), {});
        KeysShrink(p, b.st);
        NotifiedAfterPop(env, s, p, b.st, id, m);
      }
      assert Leave(env, skip, s, id) == b;
    }
  }

  lemma {:induction false} BroadcastNotified(env: Env, skip: bool, s: St, m: OutEvent, ignore: set<Id>)
    requires DistinctKeys(s.conns)
    decreases |s.conns|, 2, 0
    ensures var r := Broadcast(env, skip, s, m, ignore);
      r.out.Ok? ==> Notified(env, s, r.st, m)
  {
    var swept := Sweep(env, skip, s);
    AgreeSelf(s.conns);
    SweepFromNotified(env, skip, s, s.conns, m);
    if swept.out.Ok? {
      var r := Broadcast(env, skip, s, m, ignore);
      AgreeSelf(swept.st.conns);
      SendAllNotified(env, skip, swept.st, swept.st.conns, m, ignore);
      if r.out.Ok? {
        SweepFromKeepsLive(env, skip, s, s.conns);
        KeysShrink(s, swept.st);
        KeysShrink(swept.st, r.st);
        NotifiedCompose(env, s, swept.st, r.st, m);
      }
    }
  }

  lemma {:induction false} SweepFromNotified(env: Env, skip: bool, s: St, snap: Conns, m: OutEvent)
    requires DistinctKeys(s.conns) && Agree(snap, s.conns)
    decreases |s.conns|, 1, |snap|
    ensures var r := SweepFrom(env, skip, s, snap);
      r.out.Ok? ==> Notified(env, s, r.st, m)
  {
    if snap == [] {
      assert Appended(s, s) == [];
    } else {
      assert snap[0] in snap;
      assert forall e :: e in snap[1..] ==> e in snap;
      if snap[0].ch !in env.closed || (skip && snap[0].id !in Keys(s.conns)) {
        SweepFromNotified(env, skip, s, snap[1..], m);
      } else {
        var left := Leave(env, skip, s, snap[0].id);
        LeaveNotified(env, skip, s, snap[0].id, m);
        if left.out.Ok? {
          var r := SweepFrom(env, skip, left.st, snap[1..]);
          SweepFromNotified(env, skip, left.st, snap[1..], m);
          if r.out.Ok? {
            LeaveKeepsLive(env, skip, s, snap[0].id);
            PopUnhealthyKeepsLive(env, s.conns, snap[0].id);
            KeysShrink(s, left.st);
            KeysShrink(left.st, r.st);
            NotifiedCompose(env, s, left.st, r.st, m);
          }
        }
      }
    }
  }

  lemma {:induction false} SendAllNotified(env: Env, skip: bool, s: St, snap: Conns, m: OutEvent, ignore: set<Id>)
    requires DistinctKeys(s.conns) && Agree(snap, s.conns)
    decreases |s.conns|, 1, |snap|
    ensures var r := SendAll(env, skip, s, snap, m, ignore);
      r.out.Ok? ==> Notified(env, s, r.st, m)
  {
    if snap == [] {
      assert Appended(s, s) == [];
    } else {
      assert snap[0] in snap;
      assert forall e :: e in snap[1..] ==> e in snap;
      if snap[0].id in ignore || (skip && snap[0].id !in Keys(s.conns)) {
        SendAllNotified(env, skip, s, snap[1..], m, ignore);
      } else if snap[0].ch in env.resets {
        var left := Leave(env, skip, s, snap[0].id);
        LeaveNotified(env, skip, s, snap[0].id, m);
        if left.out.Ok? {
          var r := SendAll(env, skip, left.st, snap[1..], m, ignore);
          SendAllNotified(env, skip, left.st, snap[1..], m, ignore);
          if r.out.Ok? {
            LeaveKeepsLive(env, skip, s, snap[0].id);
            PopUnhealthyKeepsLive(env, s.conns, snap[0].id);
            KeysShrink(s, left.st);
            KeysShrink(left.st, r.st);
            NotifiedCompose(env, s, left.st, r.st, m);
          }
        }
      } else {
        var next := St(s.conns, s.sent + [Delivery(snap[0].ch, m)]);
        var r := SendAll(env, skip, next, snap[1..], m, ignore);
        SendAllNotified(env, skip, next, snap[1..], m, ignore);
        NotifiedBySend(env, s, snap[0].ch, m);
        if r.out.Ok? {
          KeysShrink(next, r.st);
          NotifiedCompose(env, s, next, r.st, m);
        }
      }
    }
  }
}
