/** What the broadcast / sweep / leave recursion preserves and establishes.
    Each family of lemmas follows the mutual recursion of module Relay and
    carries the same termination measure. */
module RelayInvariants {
  import opened Registry
  import opened Protocol
  import opened Relay

  /** A channel that is open and whose sends succeed. */
  predicate Healthy(env: Env, ch: Chan)
  {
    ch !in env.closed && ch !in env.resets
  }

  /** The entries with a healthy channel, in registry order. */
  function Live(env: Env, c: Conns): (r: Conns)
    ensures forall e :: e in r <==> e in c && Healthy(env, e.ch)
  {
    if c == [] then []
    else
      assert forall e :: e in c <==> e == c[0] || e in c[1..] by {
        assert c == [c[0]] + c[1..];
      }
      (if Healthy(env, c[0].ch) then [c[0]] else []) + Live(env, c[1..])
  }

  /** Every identity of `snap` still registered in `c` is bound to the same channel. */
  ghost predicate Agree(snap: Conns, c: Conns)
  {
    forall e, f :: e in snap && f in c && e.id == f.id ==> e.ch == f.ch
  }

  ghost predicate NoClosed(env: Env, c: Conns)
  {
    forall e :: e in c ==> e.ch !in env.closed
  }

  /** The frames appended to the log between `s` and `t`. */
  ghost function Appended(s: St, t: St): seq<Delivery>
    requires s.sent <= t.sent
  {
    t.sent[|s.sent|..]
  }

  lemma AppendedSplit(s: St, u: St, t: St)
    requires s.sent <= u.sent && u.sent <= t.sent
    ensures s.sent <= t.sent
    ensures Appended(s, t) == Appended(s, u) + Appended(u, t)
  {
  }

  /** A USER_LEAVE for one of `keys`. */
  predicate LeaveNotice(ev: OutEvent, keys: set<Id>)
  {
    ev.UserLeave? && ev.id in keys
  }

  /** Identities only disappear while the registry shrinks. */
  lemma KeysShrink(s: St, t: St)
    requires Shrinks(s, t)
    ensures Keys(t.conns) <= Keys(s.conns)
  {
    forall k | k in Keys(t.conns)
      ensures k in Keys(s.conns)
    {
      var e :| e in t.conns && e.id == k;
      assert e in s.conns;
    }
  }

  lemma AgreeSelf(c: Conns)
    requires DistinctKeys(c)
    ensures Agree(c, c)
  {
    forall e, f | e in c && f in c && e.id == f.id
      ensures e.ch == f.ch
    {
      UniqueEntry(c, e, f);
    }
  }

  /** Popping an identity whose entries are all unhealthy keeps the live entries. */
  lemma {:induction false} PopUnhealthyKeepsLive(env: Env, c: Conns, id: Id)
    requires forall e :: e in c && e.id == id ==> !Healthy(env, e.ch)
    ensures Live(env, Pop(c, id)) == Live(env, c)
  {
    if c != [] {
      assert c[0] in c;
      if c[0].id != id {
        PopUnhealthyKeepsLive(env, c[1..], id);
        assert Pop(c, id) == [c[0]] + Pop(c[1..], id);
        assert Pop(c, id)[1..] == Pop(c[1..], id);
      }
    }
  }

  // ---------------------------------------------------------------------
  // Healthy connections are never dropped, and their order is kept.
  // ---------------------------------------------------------------------

  lemma {:induction false} LeaveKeepsLive(env: Env, skip: bool, s: St, id: Id)
    requires DistinctKeys(s.conns)
    decreases |s.conns|, 0, 0
    ensures Live(env, Leave(env, skip, s, id).st.conns) == Live(env, Pop(s.conns, id))
  {
    if id in Keys(s.conns) {
      BroadcastKeepsLive(env, skip, St(Pop(s.conns, id), s.sent), UserLeave(id), {});
    }
  }

  lemma {:induction false} BroadcastKeepsLive(env: Env, skip: bool, s: St, m: OutEvent, ignore: set<Id>)
    requires DistinctKeys(s.conns)
    decreases |s.conns|, 2, 0
    ensures Live(env, Broadcast(env, skip, s, m, ignore).st.conns) == Live(env, s.conns)
  {
    AgreeSelf(s.conns);
    SweepFromKeepsLive(env, skip, s, s.conns);
    var swept := Sweep(env, skip, s);
    if swept.out.Ok? {
      AgreeSelf(swept.st.conns);
      SendAllKeepsLive(env, skip, swept.st, swept.st.conns, m, ignore);
    }
  }

  lemma {:induction false} SweepFromKeepsLive(env: Env, skip: bool, s: St, snap: Conns)
    requires DistinctKeys(s.conns) && Agree(snap, s.conns)
    decreases |s.conns|, 1, |snap|
    ensures Live(env, SweepFrom(env, skip, s, snap).st.conns) == Live(env, s.conns)
  {
    if snap != [] {
      assert snap[0] in snap;
      if snap[0].ch !in env.closed || (skip && snap[0].id !in Keys(s.conns)) {
        SweepFromKeepsLive(env, skip, s, snap[1..]);
      } else {
        var left := Leave(env, skip, s, snap[0].id);
        LeaveKeepsLive(env, skip, s, snap[0].id);
        PopUnhealthyKeepsLive(env, s.conns, snap[0].id);
        if left.out.Ok? {
          SweepFromKeepsLive(env, skip, left.st, snap[1..]);
        }
      }
    }
  }

  lemma {:induction false} SendAllKeepsLive(env: Env, skip: bool, s: St, snap: Conns, m: OutEvent, ignore: set<Id>)
    requires DistinctKeys(s.conns) && Agree(snap, s.conns)
    decreases |s.conns|, 1, |snap|
    ensures Live(env, SendAll(env, skip, s, snap, m, ignore).st.conns) == Live(env, s.conns)
  {
    if snap != [] {
      assert snap[0] in snap;
      if snap[0].id in ignore || (skip && snap[0].id !in Keys(s.conns)) {
        SendAllKeepsLive(env, skip, s, snap[1..], m, ignore);
      } else if snap[0].ch in env.resets {
        var left := Leave(env, skip, s, snap[0].id);
        LeaveKeepsLive(env, skip, s, snap[0].id);
        PopUnhealthyKeepsLive(env, s.conns, snap[0].id);
        if left.out.Ok? {
          SendAllKeepsLive(env, skip, left.st, snap[1..], m, ignore);
        }
      } else {
        SendAllKeepsLive(env, skip, St(s.conns, s.sent + [Delivery(snap[0].ch, m)]), snap[1..], m, ignore);
      }
    }
  }

  // ---------------------------------------------------------------------
  // Every frame written is the broadcast's own or a USER_LEAVE for an
  // identity registered when the call began.
  // ---------------------------------------------------------------------

  lemma {:induction false} LeaveEvents(env: Env, skip: bool, s: St, id: Id)
    decreases |s.conns|, 0, 0
    ensures var r := Leave(env, skip, s, id);
      forall d :: d in Appended(s, r.st) ==> LeaveNotice(d.ev, Keys(s.conns))
  {
    if id in Keys(s.conns) {
      BroadcastEvents(env, skip, St(Pop(s.conns, id), s.sent), UserLeave(id), {});
    }
  }

  lemma {:induction false} BroadcastEvents(env: Env, skip: bool, s: St, m: OutEvent, ignore: set<Id>)
    decreases |s.conns|, 2, 0
    ensures var r := Broadcast(env, skip, s, m, ignore);
      forall d :: d in Appended(s, r.st) ==> d.ev == m || LeaveNotice(d.ev, Keys(s.conns))
  {
    var swept := Sweep(env, skip, s);
    SweepFromEvents(env, skip, s, s.conns);
    if swept.out.Ok? {
      var r := SendAll(env, skip, swept.st, swept.st.conns, m, ignore);
      SendAllEvents(env, skip, swept.st, swept.st.conns, m, ignore);
      AppendedSplit(s, swept.st, r.st);
    }
  }

  lemma {:induction false} SweepFromEvents(env: Env, skip: bool, s: St, snap: Conns)
    decreases |s.conns|, 1, |snap|
    ensures var r := SweepFrom(env, skip, s, snap);
      forall d :: d in Appended(s, r.st) ==> LeaveNotice(d.ev, Keys(s.conns))
  {
    if snap != [] {
      if snap[0].ch !in env.closed || (skip && snap[0].id !in Keys(s.conns)) {
        SweepFromEvents(env, skip, s, snap[1..]);
      } else {
        var left := Leave(env, skip, s, snap[0].id);
        LeaveEvents(env, skip, s, snap[0].id);
        if left.out.Ok? {
          var r := SweepFrom(env, skip, left.st, snap[1..]);
          SweepFromEvents(env, skip, left.st, snap[1..]);
          AppendedSplit(s, left.st, r.st);
        }
      }
    }
  }

  lemma {:induction false} SendAllEvents(env: Env, skip: bool, s: St, snap: Conns, m: OutEvent, ignore: set<Id>)
    decreases |s.conns|, 1, |snap|
    ensures var r := SendAll(env, skip, s, snap, m, ignore);
      forall d :: d in Appended(s, r.st) ==> d.ev == m || LeaveNotice(d.ev, Keys(s.conns))
  {
    if snap != [] {
      if snap[0].id in ignore || (skip && snap[0].id !in Keys(s.conns)) {
        SendAllEvents(env, skip, s, snap[1..], m, ignore);
      } else if snap[0].ch in env.resets {
        var left := Leave(env, skip, s, snap[0].id);
        LeaveEvents(env, skip, s, snap[0].id);
        if left.out.Ok? {
          var r := SendAll(env, skip, left.st, snap[1..], m, ignore);
          SendAllEvents(env, skip, left.st, snap[1..], m, ignore);
          AppendedSplit(s, left.st, r.st);
        }
      } else {
        var next := St(s.conns, s.sent + [Delivery(snap[0].ch, m)]);
        var r := SendAll(env, skip, next, snap[1..], m, ignore);
        SendAllEvents(env, skip, next, snap[1..], m, ignore);
        AppendedSplit(s, next, r.st);
        assert Appended(s, next) == [Delivery(snap[0].ch, m)];
      }
    }
  }

  // ---------------------------------------------------------------------
  // A sweep that completes leaves no closed channel registered.
  // ---------------------------------------------------------------------

  lemma {:induction false} LeaveClears(env: Env, skip: bool, s: St, id: Id)
    decreases |s.conns|, 0, 0
    ensures var r := Leave(env, skip, s, id);
      r.out.Ok? ==> NoClosed(env, r.st.conns)
  {
    if id in Keys(s.conns) {
      BroadcastClears(env, skip, St(Pop(s.conns, id), s.sent), UserLeave(id), {});
    }
  }

  lemma {:induction false} BroadcastClears(env: Env, skip: bool, s: St, m: OutEvent, ignore: set<Id>)
    decreases |s.conns|, 2, 0
    ensures var r := Broadcast(env, skip, s, m, ignore);
      r.out.Ok? ==> NoClosed(env, r.st.conns)
  {
    SweepFromClears(env, skip, s, s.conns);
  }

  lemma {:induction false} SweepFromClears(env: Env, skip: bool, s: St, snap: Conns)
    requires forall e :: e in s.conns && e.ch in env.closed ==> e in snap
    decreases |s.conns|, 1, |snap|
    ensures var r := SweepFrom(env, skip, s, snap);
      r.out.Ok? ==> NoClosed(env, r.st.conns)
  {
    if snap != [] {
      assert snap == [snap[0]] + snap[1..];
      if snap[0].ch !in env.closed || (skip && snap[0].id !in Keys(s.conns)) {
        SweepFromClears(env, skip, s, snap[1..]);
      } else {
        var left := Leave(env, skip, s, snap[0].id);
        LeaveClears(env, skip, s, snap[0].id);
        if left.out.Ok? {
          SweepFromClears(env, skip, left.st, snap[1..]);
        }
      }
    }
  }

  // ---------------------------------------------------------------------
  // A broadcast that completes leaves no resetting channel registered
  // except under an ignored identity.
  // ---------------------------------------------------------------------

  lemma {:induction false} LeaveDropsResets(env: Env, skip: bool, s: St, id: Id)
    decreases |s.conns|, 0, 0
    ensures var r := Leave(env, skip, s, id);
      r.out.Ok? ==> forall e :: e in r.st.conns ==> e.ch !in env.resets
  {
    if id in Keys(s.conns) {
      BroadcastDropsResets(env, skip, St(Pop(s.conns, id), s.sent), UserLeave(id), {});
    }
  }

  lemma {:induction false} BroadcastDropsResets(env: Env, skip: bool, s: St, m: OutEvent, ignore: set<Id>)
    decreases |s.conns|, 2, 0
    ensures var r := Broadcast(env, skip, s, m, ignore);
      r.out.Ok? ==> forall e :: e in r.st.conns && e.ch in env.resets ==> e.id in ignore
  {
    var swept := Sweep(env, skip, s);
    if swept.out.Ok? {
      SendAllDropsResets(env, skip, swept.st, swept.st.conns, m, ignore);
    }
  }

  lemma {:induction false} SendAllDropsResets(env: Env, skip: bool, s: St, snap: Conns, m: OutEvent, ignore: set<Id>)
    requires forall e :: e in s.conns && e.ch in env.resets && e.id !in ignore ==> e in snap
    decreases |s.conns|, 1, |snap|
    ensures var r := SendAll(env, skip, s, snap, m, ignore);
      r.out.Ok? ==> forall e :: e in r.st.conns && e.ch in env.resets ==> e.id in ignore
  {
    if snap != [] {
      assert snap == [snap[0]] + snap[1..];
      if snap[0].id in ignore || (skip && snap[0].id !in Keys(s.conns)) {
        SendAllDropsResets(env, skip, s, snap[1..], m, ignore);
      } else if snap[0].ch in env.resets {
        var left := Leave(env, skip, s, snap[0].id);
        LeaveDropsResets(env, skip, s, snap[0].id);
        if left.out.Ok? {
          SendAllDropsResets(env, skip, left.st, snap[1..], m, ignore);
        }
      } else {
        SendAllDropsResets(env, skip, St(s.conns, s.sent + [Delivery(snap[0].ch, m)]), snap[1..], m, ignore);
      }
    }
  }

  // ---------------------------------------------------------------------
  // With stale snapshot entries skipped, nothing raises.
  // ---------------------------------------------------------------------

  lemma {:induction false} GuardedLeaveOk(env: Env, s: St, id: Id)
    requires id in Keys(s.conns)
    decreases |s.conns|, 0, 0
    ensures Leave(env, true, s, id).out.Ok?
  {
    GuardedBroadcastOk(env, St(Pop(s.conns, id), s.sent), UserLeave(id), {});
  }

  lemma {:induction false} GuardedBroadcastOk(env: Env, s: St, m: OutEvent, ignore: set<Id>)
    decreases |s.conns|, 2, 0
    ensures Broadcast(env, true, s, m, ignore).out.Ok?
  {
    GuardedSweepFromOk(env, s, s.conns);
    var swept := Sweep(env, true, s);
    GuardedSendAllOk(env, swept.st, swept.st.conns, m, ignore);
  }

  lemma {:induction false} GuardedSweepFromOk(env: Env, s: St, snap: Conns)
    decreases |s.conns|, 1, |snap|
    ensures SweepFrom(env, true, s, snap).out.Ok?
  {
    if snap != [] {
      if snap[0].ch !in env.closed || snap[0].id !in Keys(s.conns) {
        GuardedSweepFromOk(env, s, snap[1..]);
      } else {
        var left := Leave(env, true, s, snap[0].id);
        GuardedLeaveOk(env, s, snap[0].id);
        GuardedSweepFromOk(env, left.st, snap[1..]);
      }
    }
  }

  lemma {:induction false} GuardedSendAllOk(env: Env, s: St, snap: Conns, m: OutEvent, ignore: set<Id>)
    decreases |s.conns|, 1, |snap|
    ensures SendAll(env, true, s, snap, m, ignore).out.Ok?
  {
    if snap != [] {
      if snap[0].id in ignore || snap[0].id !in Keys(s.conns) {
        GuardedSendAllOk(env, s, snap[1..], m, ignore);
      } else if snap[0].ch in env.resets {
        var left := Leave(env, true, s, snap[0].id);
        GuardedLeaveOk(env, s, snap[0].id);
        GuardedSendAllOk(env, left.st, snap[1..], m, ignore);
      } else {
        GuardedSendAllOk(env, St(s.conns, s.sent + [Delivery(snap[0].ch, m)]), snap[1..], m, ignore);
      }
    }
  }
}
