/** Concrete runs of the relay: a whole session driven through the `WSChat`
    object, and single steps of leave propagation on the functions of
    module Relay. */
module Scenarios {
  import opened Registry
  import opened Protocol
  import opened Relay
  import opened RelayInvariants
  import Findings
  import Chat

  const Quiet := Env({}, {})
  const A1 := Entry("A", 1)
  const B2 := Entry("B", 2)

  lemma EnterFirst()
    ensures Dispatch(Quiet, false, St([], []), 1, Init("A")) == Res(St([A1], []), Ok)
  {
  }

  lemma EnterSecond()
    ensures Dispatch(Quiet, false, St([A1], []), 2, Init("B"))
         == Res(St([A1, B2], [Delivery(1, UserEnter("B"))]), Ok)
  {
    assert "A" != "B";
    assert Assign([A1], "B", 2) == [A1, B2];
    var s := St([A1, B2], []);
    var s1 := St([A1, B2], [Delivery(1, UserEnter("B"))]);
    Findings.SweepFromOpen(Quiet, false, s, s.conns);
    assert [B2][1..] == [] && [A1, B2][1..] == [B2];
    assert SendAll(Quiet, false, s1, [B2], UserEnter("B"), {"B"}) == Res(s1, Ok);
    assert St(s.conns, s.sent + [Delivery(1, UserEnter("B"))]) == s1;
    assert SendAll(Quiet, false, s, [A1, B2], UserEnter("B"), {"B"}) == Res(s1, Ok);
    assert Broadcast(Quiet, false, s, UserEnter("B"), {"B"}) == Res(s1, Ok);
  }

  lemma SayHi(log: seq<Delivery>)
    ensures Dispatch(Quiet, false, St([A1, B2], log), 1, Text("A", "hi", None))
         == Res(St([A1, B2], log + [Delivery(2, Msg("A", "hi"))]), Ok)
  {
    assert "A" != "B";
    var s := St([A1, B2], log);
    var s1 := St([A1, B2], log + [Delivery(2, Msg("A", "hi"))]);
    Findings.SweepFromOpen(Quiet, false, s, s.conns);
    assert [B2][1..] == [] && [A1, B2][1..] == [B2];
    assert SendAll(Quiet, false, s1, [], Msg("A", "hi"), {"A"}) == Res(s1, Ok);
    assert SendAll(Quiet, false, s, [B2], Msg("A", "hi"), {"A"}) == Res(s1, Ok);
    assert SendAll(Quiet, false, s, [A1, B2], Msg("A", "hi"), {"A"}) == Res(s1, Ok);
    assert Broadcast(Quiet, false, s, Msg("A", "hi"), {"A"}) == Res(s1, Ok);
    assert Message(Quiet, false, s, "A", "hi", None) == Res(s1, Ok);
  }

  lemma SessionOutboxes(log: seq<Delivery>)
    requires log == [Delivery(1, UserEnter("B")), Delivery(2, Msg("A", "hi")), Delivery(2, Dm("A", "hey"))]
    ensures Outbox(log, 1) == [UserEnter("B")]
    ensures Outbox(log, 2) == [Msg("A", "hi"), Dm("A", "hey")]
  {
    var t2 := [Delivery(2, Dm("A", "hey"))];
    var t1 := [Delivery(2, Msg("A", "hi"))] + t2;
    assert t2[1..] == [] && t1[1..] == t2 && log[1..] == t1;
    assert Outbox(t2, 1) == [] && Outbox(t2, 2) == [Dm("A", "hey")];
    assert Outbox(t1, 1) == [] && Outbox(t1, 2) == [Msg("A", "hi"), Dm("A", "hey")];
  }

  lemma SayHey(log: seq<Delivery>)
    ensures Dispatch(Quiet, false, St([A1, B2], log), 1, Text("A", "hey", Some("B")))
         == Res(St([A1, B2], log + [Delivery(2, Dm("A", "hey"))]), Ok)
  {
  }

  /** "A" joins on channel 1 and "B" on channel 2; "A" says "hi" to everyone
      and "hey" to "B". Channel 1 sees only B's arrival; channel 2 sees the
      broadcast and then the direct message, and every handler completes. */
  method TwoUserSession() returns (outs: seq<Outcome>, log: seq<Delivery>)
    ensures outs == [Ok, Ok, Ok, Ok]
    ensures Outbox(log, 1) == [UserEnter("B")]
    ensures Outbox(log, 2) == [Msg("A", "hi"), Dm("A", "hey")]
  {
    var t := new Chat.Transport({}, {});
    var chat := new Chat.WSChat(t, false);
    EnterFirst();
    var o1 := chat.Receive(1, Init("A"));
    assert o1 == Ok && chat.conns == [A1] && t.sent == [];
    EnterSecond();
    var o2 := chat.Receive(2, Init("B"));
    assert o2 == Ok && chat.conns == [A1, B2] && t.sent == [Delivery(1, UserEnter("B"))];
    SayHi(t.sent);
    var o3 := chat.Receive(1, Text("A", "hi", None));
    assert o3 == Ok && chat.conns == [A1, B2];
    SayHey(t.sent);
    var o4 := chat.Receive(1, Text("A", "hey", Some("B")));
    outs := [o1, o2, o3, o4];
    log := t.sent;
    SessionOutboxes(log);
  }

  /** Leave propagation: with B's channel closed, the sweep removes B and
      sends one USER_LEAVE{B} to each of A and C, and nothing to B. */
  lemma ClosedLeaves()
    ensures var s := St([Entry("A", 1), Entry("B", 2), Entry("C", 3)], []);
      Sweep(Env({2}, {}), false, s)
        == Res(St([Entry("A", 1), Entry("C", 3)],
                  [Delivery(1, UserLeave("B")), Delivery(3, UserLeave("B"))]), Ok)
  {
  }

  /** A failed send triggers leave: a message from A while C's channel resets
      reaches B, removes C, tells A and B that C left, and completes. */
  lemma ResetLeaves()
    ensures var s := St([Entry("A", 1), Entry("B", 2), Entry("C", 3)], []);
      Broadcast(Env({}, {3}), false, s, Msg("A", "x"), {"A"})
        == Res(St([Entry("A", 1), Entry("B", 2)],
                  [Delivery(2, Msg("A", "x")), Delivery(1, UserLeave("C")), Delivery(2, UserLeave("C"))]), Ok)
  {
    var env := Env({}, {3});
    var s := St([Entry("A", 1), Entry("B", 2), Entry("C", 3)], []);
    var rest := [Entry("A", 1), Entry("B", 2)];
    var m := Msg("A", "x");
    var mid := St(s.conns, [Delivery(2, m)]);
    var log := [Delivery(2, m), Delivery(1, UserLeave("C")), Delivery(2, UserLeave("C"))];
    assert "A" != "B" && "A" != "C" && "B" != "C";
    Findings.SweepFromOpen(env, false, s, s.conns);
    assert Pop(s.conns, "C") == rest;
    assert Entry("C", 3) in mid.conns;
    assert "C" in Keys(mid.conns);
    var popped := St(rest, mid.sent);
    Findings.SweepFromOpen(env, false, popped, rest);
    var l1 := St(rest, mid.sent + [Delivery(1, UserLeave("C"))]);
    var l2 := St(rest, log);
    assert [Entry("B", 2)][1..] == [] && rest[1..] == [Entry("B", 2)];
    assert SendAll(env, false, l2, [], UserLeave("C"), {}) == Res(l2, Ok);
    assert SendAll(env, false, l1, [Entry("B", 2)], UserLeave("C"), {}) == Res(l2, Ok);
    assert SendAll(env, false, popped, rest, UserLeave("C"), {}) == Res(l2, Ok);
    assert Broadcast(env, false, popped, UserLeave("C"), {}) == Res(l2, Ok);
    assert Leave(env, false, mid, "C") == Res(l2, Ok);
    assert [Entry("C", 3)][1..] == [];
    assert SendAll(env, false, l2, [], m, {"A"}) == Res(l2, Ok);
    assert SendAll(env, false, mid, [Entry("C", 3)], m, {"A"}) == Res(l2, Ok);
    assert s.conns[1..] == [Entry("B", 2), Entry("C", 3)];
    assert s.conns[1..][1..] == [Entry("C", 3)];
    assert St(s.conns, s.sent + [Delivery(2, m)]) == mid;
    assert SendAll(env, false, s, s.conns[1..], m, {"A"}) == Res(l2, Ok);
    assert SendAll(env, false, s, s.conns, m, {"A"}) == Res(l2, Ok);
  }
}
