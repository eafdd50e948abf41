/** Two defects of the loops as written (`skipStale == false`), each shown
    for all inputs and on a concrete registry, and the corrected loops
    (`skipStale == true`) with the behaviour the handlers evidently intend.

    Both loops iterate over a snapshot of the registry taken before the loop,
    while the leave handling they run pops from the live registry and, through
    its own nested broadcast, already handles every other closed or resetting
    channel. When the outer loop then reaches such a channel, its identity is
    gone and `self.conns.pop(id)` raises KeyError. */
module Findings {
  import opened Registry
  import opened Protocol
  import opened Relay
  import opened RelayInvariants
  import opened Fanout

  /** A registry agreeing with `snap` and holding no closed channel cannot
      still register a closed snapshot entry's identity. */
  lemma GoneWhenCleared(env: Env, snap: Conns, c: Conns, s0: Conns, k: nat)
    requires k < |snap| && snap[k].ch in env.closed
    requires Agree(snap, s0) && (forall e :: e in c ==> e in s0) && NoClosed(env, c)
    ensures snap[k].id !in Keys(c)
  {
    assert snap[k] in snap;
    forall f | f in c
      ensures f.id != snap[k].id
    {
      assert f in s0;
    }
  }

  /** The same for a registry holding no resetting channel. */
  lemma GoneWhenDropped(env: Env, snap: Conns, c: Conns, s0: Conns, k: nat)
    requires k < |snap| && snap[k].ch in env.resets
    requires Agree(snap, s0) && (forall e :: e in c ==> e in s0)
    requires forall e :: e in c ==> e.ch !in env.resets
    ensures snap[k].id !in Keys(c)
  {
    assert snap[k] in snap;
    forall f | f in c
      ensures f.id != snap[k].id
    {
      assert f in s0;
    }
  }

  // ---------------------------------------------------------------------
  // Finding 1: `_check_ws` with two closed channels.
  // ---------------------------------------------------------------------

  /** Once a closed snapshot entry's identity is no longer registered, the
      sweep as written raises KeyError. */
  lemma {:induction false} StaleClosedRaises(env: Env, s: St, snap: Conns, k: nat)
    requires k < |snap| && snap[k].ch in env.closed && snap[k].id !in Keys(s.conns)
    decreases |snap|
    ensures SweepFrom(env, false, s, snap).out.Raised?
  {
    if snap[0].ch !in env.closed {
      StaleClosedRaises(env, s, snap[1..], k - 1);
    } else if k > 0 {
      var left := Leave(env, false, s, snap[0].id);
      if left.out.Ok? {
        KeysShrink(s, left.st);
        StaleClosedRaises(env, left.st, snap[1..], k - 1);
      }
    }
  }

  lemma {:induction false} TwoClosedRaise(env: Env, s: St, snap: Conns, i: nat, j: nat)
    requires DistinctKeys(s.conns) && Agree(snap, s.conns)
    requires i < j < |snap| && snap[i].ch in env.closed && snap[j].ch in env.closed
    ensures SweepFrom(env, false, s, snap).out.Raised?
  {
    if snap[0].ch !in env.closed {
      assert forall e :: e in snap[1..] ==> e in snap;
      TwoClosedRaise(env, s, snap[1..], i - 1, j - 1);
    } else {
      var left := Leave(env, false, s, snap[0].id);
      if left.out.Ok? {
        LeaveClears(env, false, s, snap[0].id);
        GoneWhenCleared(env, snap, left.st.conns, s.conns, j);
        assert snap[1..][j - 1] == snap[j];
        StaleClosedRaises(env, left.st, snap[1..], j - 1);
      }
    }
  }

  /** As written, `_check_ws()` raises KeyError whenever two registered
      channels are closed, and so does a broadcast started in that state:
      its sweep raises before the send loop, so its own frame reaches
      nobody, and the KeyError escapes the receive loop of the connection
      whose INIT, TEXT or ping started it. The raising sweep has already
      removed entries (in the smallest instance below, all of them), so a
      later call can complete again. */
  lemma SweepTwoClosedRaises(env: Env, s: St, i: nat, j: nat)
    requires DistinctKeys(s.conns)
    requires i < j < |s.conns| && s.conns[i].ch in env.closed && s.conns[j].ch in env.closed
    ensures Sweep(env, false, s).out.Raised? && Sweep(env, false, s).out.error.KeyError?
    ensures forall m, ignore :: Broadcast(env, false, s, m, ignore).out.Raised?
    ensures forall m, ignore :: !LeaveNotice(m, Keys(s.conns)) ==>
              Received(Appended(s, Broadcast(env, false, s, m, ignore).st), m) == []
  {
    AgreeSelf(s.conns);
    TwoClosedRaise(env, s, s.conns, i, j);
    var swept := Sweep(env, false, s);
    SweepFromEvents(env, false, s, s.conns);
    forall m, ignore | !LeaveNotice(m, Keys(s.conns))
      ensures Received(Appended(s, Broadcast(env, false, s, m, ignore).st), m) == []
    {
      ReceivedNone(Appended(s, swept.st), m);
    }
  }

  /** The smallest instance: "a" on channel 1 and "b" on channel 2, both
      closed. Leaving "a" already sweeps "b" out; the outer loop then pops
      "b" again. Both entries are gone by then, so the next sweep completes. */
  lemma SweepTwoClosedExample()
    ensures var s := St([Entry("a", 1), Entry("b", 2)], []);
      Sweep(Env({1, 2}, {}), false, s) == Res(St([], []), Raised(KeyError("b")))
    ensures Sweep(Env({1, 2}, {}), false, St([], [])) == Res(St([], []), Ok)
  {
  }

  /** Corrected `_check_ws()`: it always completes, leaves no closed channel
      registered, keeps every live entry, and writes only USER_LEAVE notices. */
  lemma GuardedSweepClears(env: Env, s: St)
    requires DistinctKeys(s.conns)
    ensures var r := Sweep(env, true, s);
      && r.out == Ok
      && NoClosed(env, r.st.conns)
      && Live(env, r.st.conns) == Live(env, s.conns)
      && (forall d :: d in Appended(s, r.st) ==> LeaveNotice(d.ev, Keys(s.conns)))
  {
    GuardedSweepFromOk(env, s, s.conns);
    AgreeSelf(s.conns);
    SweepFromClears(env, true, s, s.conns);
    SweepFromKeepsLive(env, true, s, s.conns);
    SweepFromEvents(env, true, s, s.conns);
  }

  // ---------------------------------------------------------------------
  // Finding 2: `_broadcast` reaching two resetting channels.
  // ---------------------------------------------------------------------

  /** Without closed channels, the sweep changes nothing. */
  lemma {:induction false} SweepFromOpen(env: Env, skip: bool, s: St, snap: Conns)
    requires NoClosed(env, snap)
    ensures SweepFrom(env, skip, s, snap) == Res(s, Ok)
  {
    if snap != [] {
      assert snap[0] in snap;
      assert forall e :: e in snap[1..] ==> e in snap;
      SweepFromOpen(env, skip, s, snap[1..]);
    }
  }

  /** Once a resetting, non-ignored snapshot entry's identity is no longer
      registered, the send loop as written raises KeyError. */
  lemma {:induction false} StaleResetRaises(env: Env, s: St, snap: Conns, m: OutEvent, ignore: set<Id>, k: nat)
    requires k < |snap| && snap[k].ch in env.resets && snap[k].id !in ignore
    requires snap[k].id !in Keys(s.conns)
    decreases |snap|
    ensures SendAll(env, false, s, snap, m, ignore).out.Raised?
  {
    if snap[0].id in ignore {
      StaleResetRaises(env, s, snap[1..], m, ignore, k - 1);
    } else if snap[0].ch in env.resets {
      if k > 0 {
        var left := Leave(env, false, s, snap[0].id);
        if left.out.Ok? {
          KeysShrink(s, left.st);
          StaleResetRaises(env, left.st, snap[1..], m, ignore, k - 1);
        }
      }
    } else {
      StaleResetRaises(env, St(s.conns, s.sent + [Delivery(snap[0].ch, m)]), snap[1..], m, ignore, k - 1);
    }
  }

  lemma {:induction false} TwoResetsRaise(env: Env, s: St, snap: Conns, m: OutEvent, ignore: set<Id>, i: nat, j: nat)
    requires Agree(snap, s.conns)
    requires i < j < |snap|
    requires snap[i].ch in env.resets && snap[i].id !in ignore
    requires snap[j].ch in env.resets && snap[j].id !in ignore
    decreases |snap|
    ensures SendAll(env, false, s, snap, m, ignore).out.Raised?
  {
    assert forall e :: e in snap[1..] ==> e in snap;
    if snap[0].id in ignore {
      TwoResetsRaise(env, s, snap[1..], m, ignore, i - 1, j - 1);
    } else if snap[0].ch in env.resets {
      var left := Leave(env, false, s, snap[0].id);
      if left.out.Ok? {
        LeaveDropsResets(env, false, s, snap[0].id);
        GoneWhenDropped(env, snap, left.st.conns, s.conns, j);
        assert snap[1..][j - 1] == snap[j];
        StaleResetRaises(env, left.st, snap[1..], m, ignore, j - 1);
      }
    } else {
      TwoResetsRaise(env, St(s.conns, s.sent + [Delivery(snap[0].ch, m)]), snap[1..], m, ignore, i - 1, j - 1);
    }
  }

  /** As written, `_broadcast(m, ignore)` raises KeyError whenever two
      registered channels outside `ignore` reset, even with nothing closed. */
  lemma BroadcastTwoResetsRaises(env: Env, s: St, m: OutEvent, ignore: set<Id>, i: nat, j: nat)
    requires DistinctKeys(s.conns) && NoClosed(env, s.conns)
    requires i < j < |s.conns|
    requires s.conns[i].ch in env.resets && s.conns[i].id !in ignore
    requires s.conns[j].ch in env.resets && s.conns[j].id !in ignore
    ensures Broadcast(env, false, s, m, ignore).out.Raised?
    ensures Broadcast(env, false, s, m, ignore).out.error.KeyError?
  {
    SweepFromOpen(env, false, s, s.conns);
    AgreeSelf(s.conns);
    TwoResetsRaise(env, s, s.conns, m, ignore, i, j);
  }

  /** A send loop that meets no resetting channel outside `ignore` completes
      and removes nobody. */
  lemma {:induction false} SendAllNoResets(env: Env, skip: bool, s: St, snap: Conns, m: OutEvent, ignore: set<Id>)
    requires forall e :: e in snap && e.id !in ignore ==> e.ch !in env.resets
    decreases |snap|
    ensures SendAll(env, skip, s, snap, m, ignore).out == Ok
    ensures SendAll(env, skip, s, snap, m, ignore).st.conns == s.conns
  {
    if snap != [] {
      assert snap[0] in snap;
      assert forall e :: e in snap[1..] ==> e in snap;
      if snap[0].id in ignore || (skip && snap[0].id !in Keys(s.conns)) {
        SendAllNoResets(env, skip, s, snap[1..], m, ignore);
      } else {
        SendAllNoResets(env, skip, St(s.conns, s.sent + [Delivery(snap[0].ch, m)]), snap[1..], m, ignore);
      }
    }
  }

  /** The send loop as written survives its one resetting channel: the
      nested leave of that identity meets no other reset, and neither does
      the rest of the loop. */
  lemma {:induction false} SendAllOneReset(env: Env, s: St, snap: Conns, m: OutEvent, ignore: set<Id>)
    requires DistinctKeys(s.conns) && NoClosed(env, s.conns)
    requires forall e, f :: e in s.conns && f in s.conns && e.ch in env.resets && f.ch in env.resets ==> e == f
    requires forall i, j :: 0 <= i < j < |snap| && snap[i].ch in env.resets && snap[i].id !in ignore
               ==> snap[j].ch !in env.resets || snap[j].id in ignore
    requires forall e :: e in snap && e.ch in env.resets && e.id !in ignore ==> e in s.conns
    decreases |snap|
    ensures SendAll(env, false, s, snap, m, ignore).out == Ok
  {
    if snap != [] {
      var e := snap[0];
      assert e in snap;
      assert forall x :: x in snap[1..] ==> x in snap;
      if e.id in ignore {
        SendAllOneReset(env, s, snap[1..], m, ignore);
      } else if e.ch in env.resets {
        var p := St(Pop(s.conns, e.id), s.sent);
        assert e.id in Keys(s.conns);
        assert NoClosed(env, p.conns);
        forall f | f in p.conns
          ensures f.ch !in env.resets
        {
          assert f.id in Keys(p.conns);
          assert f != e;
        }
        SweepFromOpen(env, false, p, p.conns);
        SendAllNoResets(env, false, p, p.conns, UserLeave(e.id), {});
        assert Sweep(env, false, p) == Res(p, Ok);
        assert Broadcast(env, false, p, UserLeave(e.id), {}) == SendAll(env, false, p, p.conns, UserLeave(e.id), {});
        var left := Leave(env, false, s, e.id);
        assert left == SendAll(env, false, p, p.conns, UserLeave(e.id), {});
        forall x | x in snap[1..] && x.id !in ignore
          ensures x.ch !in env.resets
        {
          var j :| 0 <= j < |snap[1..]| && snap[1..][j] == x;
          assert snap[j + 1] == x;
        }
        SendAllNoResets(env, false, left.st, snap[1..], m, ignore);
      } else {
        SendAllOneReset(env, St(s.conns, s.sent + [Delivery(e.ch, m)]), snap[1..], m, ignore);
      }
    }
  }

  /** As written, `_broadcast(m, ignore)` with no closed channel and at most
      one resetting channel completes: afterwards that channel stays
      registered only under an ignored identity, every live entry is still
      registered, and `m` reached exactly the recipients, once each and in
      registry order. Two resetting channels are what it takes to make it
      raise. */
  lemma BroadcastOneResetOk(env: Env, s: St, m: OutEvent, ignore: set<Id>)
    requires DistinctKeys(s.conns) && NoClosed(env, s.conns)
    requires forall e, f :: e in s.conns && f in s.conns && e.ch in env.resets && f.ch in env.resets ==> e == f
    ensures var r := Broadcast(env, false, s, m, ignore);
      && r.out == Ok
      && (forall e :: e in r.st.conns && e.ch in env.resets ==> e.id in ignore)
      && Live(env, r.st.conns) == Live(env, s.conns)
      && (!LeaveNotice(m, Keys(s.conns)) ==>
            Received(Appended(s, r.st), m) == Recipients(env, Live(env, s.conns), ignore))
  {
    SweepFromOpen(env, false, s, s.conns);
    forall i, j | 0 <= i < j < |s.conns| && s.conns[i].ch in env.resets && s.conns[i].id !in ignore
      ensures s.conns[j].ch !in env.resets || s.conns[j].id in ignore
    {
      DistinctAt(s.conns, i, j);
    }
    SendAllOneReset(env, s, s.conns, m, ignore);
    BroadcastLeavesLive(env, false, s, m, ignore);
    if !LeaveNotice(m, Keys(s.conns)) {
      BroadcastDelivers(env, false, s, m, ignore);
    }
  }

  /** The smallest instance: "a" on channel 1 and "b" on channel 2, both
      resetting, and a message from "c". */
  lemma BroadcastTwoResetsExample()
    ensures var s := St([Entry("a", 1), Entry("b", 2)], []);
      Broadcast(Env({}, {1, 2}), false, s, Msg("c", "hi"), {"c"})
        == Res(St([], []), Raised(KeyError("b")))
  {
    var env := Env({}, {1, 2});
    var s := St([Entry("a", 1), Entry("b", 2)], []);
    assert Pop(s.conns, "a") == [Entry("b", 2)];
    assert Pop([Entry("b", 2)], "b") == [];
    assert Leave(env, false, St([Entry("b", 2)], []), "b") == Res(St([], []), Ok);
    assert Broadcast(env, false, St([Entry("b", 2)], []), UserLeave("a"), {}) == Res(St([], []), Ok);
    assert Leave(env, false, s, "a") == Res(St([], []), Ok);
  }

  /** Corrected `_broadcast(m, ignore)`: it always completes, gives `m`
      exactly to the live registered channels outside `ignore` in registry
      order, and leaves no closed channel, and no resetting one outside
      `ignore`, registered. */
  lemma GuardedBroadcastDelivers(env: Env, s: St, m: OutEvent, ignore: set<Id>)
    requires DistinctKeys(s.conns)
    requires !LeaveNotice(m, Keys(s.conns))
    ensures var r := Broadcast(env, true, s, m, ignore);
      && r.out == Ok
      && Received(Appended(s, r.st), m) == Recipients(env, Live(env, s.conns), ignore)
      && Live(env, r.st.conns) == Live(env, s.conns)
      && NoClosed(env, r.st.conns)
      && (forall e :: e in r.st.conns && e.ch in env.resets ==> e.id in ignore)
  {
    GuardedBroadcastOk(env, s, m, ignore);
    BroadcastDelivers(env, true, s, m, ignore);
    BroadcastLeavesLive(env, true, s, m, ignore);
  }
}
