/** What each handler of `WSChat` promises, stated on the model of the code
    as written: who receives what, what the registry looks like afterwards,
    and when an exception escapes. */
module Handlers {
  import opened Registry
  import opened Protocol
  import opened Relay
  import opened RelayInvariants
  import opened Fanout
  import opened Notices

  lemma PrefixMember<T>(x: T, a: seq<T>, b: seq<T>)
    requires a <= b
    ensures x in a ==> x in b
  {
    if x in a {
      var i :| 0 <= i < |a| && a[i] == x;
      assert b[i] == x;
    }
  }

  /** The reachable live channels of `[e] + c`, one entry at a time. */
  lemma RecipientsLiveCons(env: Env, e: Entry, c: Conns, ignore: set<Id>)
    ensures Recipients(env, Live(env, [e] + c), ignore)
         == (if Healthy(env, e.ch) && e.id !in ignore then [e.ch] else [])
            + Recipients(env, Live(env, c), ignore)
  {
    assert ([e] + c)[1..] == c;
    var l := Live(env, [e] + c);
    if Healthy(env, e.ch) {
      assert l == [e] + Live(env, c);
      assert l != [] && l[0] == e && l[1..] == Live(env, c);
    } else {
      assert l == Live(env, c);
    }
  }

  /** Registering an ignored identity does not change who a broadcast reaches. */
  lemma {:induction false} RecipientsAfterAssign(env: Env, c: Conns, id: Id, ws: Chan, ignore: set<Id>)
    requires id in ignore
    ensures Recipients(env, Live(env, Assign(c, id, ws)), ignore)
         == Recipients(env, Live(env, c), ignore)
  {
    if c == [] {
      RecipientsLiveCons(env, Entry(id, ws), [], ignore);
    } else {
      assert c == [c[0]] + c[1..];
      RecipientsLiveCons(env, c[0], c[1..], ignore);
      if c[0].id == id {
        RecipientsLiveCons(env, Entry(id, ws), c[1..], ignore);
      } else {
        RecipientsAfterAssign(env, c[1..], id, ws, ignore);
        RecipientsLiveCons(env, c[0], Assign(c[1..], id, ws), ignore);
      }
    }
  }

  /** A channel registered only under ignored identities never receives the
      broadcast frame. */
  lemma BroadcastNoEcho(env: Env, skip: bool, s: St, m: OutEvent, ignore: set<Id>, ch: Chan)
    requires DistinctKeys(s.conns)
    requires !LeaveNotice(m, Keys(s.conns))
    requires forall e :: e in s.conns && e.ch == ch ==> e.id in ignore
    ensures var r := Broadcast(env, skip, s, m, ignore);
      ch !in Received(Appended(s, r.st), m)
  {
    var r := Broadcast(env, skip, s, m, ignore);
    var got := Received(Appended(s, r.st), m);
    var reach := Recipients(env, Live(env, s.conns), ignore);
    BroadcastDelivers(env, skip, s, m, ignore);
    assert ch !in reach;
    PrefixMember(ch, got, reach);
  }

  /** `_enter_handler(id, ws)`: afterwards `id` is bound to `ws` unless the
      sweep or a failed send took it out again (only possible when `ws` is
      closed or resets); a previous channel under `id` is dropped; every
      other entry is the one registered before, and every live one of them
      is still registered. */
  lemma EnterRegisters(env: Env, skip: bool, s: St, id: Id, ws: Chan)
    requires DistinctKeys(s.conns)
    ensures var r := Enter(env, skip, s, id, ws);
      && DistinctKeys(r.st.conns)
      && (forall e :: e in r.st.conns ==> e == Entry(id, ws) || (e in s.conns && e.id != id))
      && (forall e :: e in s.conns && e.id != id && Healthy(env, e.ch) ==> e in r.st.conns)
      && (Healthy(env, ws) ==> Lookup(r.st.conns, id) == Some(ws))
  {
    var a := Assign(s.conns, id, ws);
    var r := Enter(env, skip, s, id, ws);
    BroadcastKeepsLive(env, skip, St(a, s.sent), UserEnter(id), {id});
    forall e | e in r.st.conns
      ensures e == Entry(id, ws) || (e in s.conns && e.id != id)
    {
      if e.id == id {
        UniqueEntry(a, e, Entry(id, ws));
      }
    }
    forall e | e in s.conns && e.id != id && Healthy(env, e.ch)
      ensures e in r.st.conns
    {
      assert e in Live(env, a);
    }
    if Healthy(env, ws) {
      assert Entry(id, ws) in Live(env, a);
      LookupEntry(r.st.conns, Entry(id, ws));
    }
  }

  /** `_enter_handler(id, ws)` announces USER_ENTER{id} exactly to the live
      channels registered before under other identities, in registry order
      (to a prefix of them if an exception escapes); the newcomer's channel
      gets no echo unless another identity shares it. */
  lemma EnterAnnounces(env: Env, skip: bool, s: St, id: Id, ws: Chan)
    requires DistinctKeys(s.conns)
    ensures var r := Enter(env, skip, s, id, ws);
      var got := Received(Appended(s, r.st), UserEnter(id));
      && got <= Recipients(env, Live(env, s.conns), {id})
      && (r.out.Ok? ==> got == Recipients(env, Live(env, s.conns), {id}))
      && ((forall e :: e in s.conns && e.id != id ==> e.ch != ws) ==> ws !in got)
  {
    var a := Assign(s.conns, id, ws);
    BroadcastDelivers(env, skip, St(a, s.sent), UserEnter(id), {id});
    RecipientsAfterAssign(env, s.conns, id, ws, {id});
    if forall e :: e in s.conns && e.id != id ==> e.ch != ws {
      BroadcastNoEcho(env, skip, St(a, s.sent), UserEnter(id), {id}, ws);
    }
  }

  /** `_message_handler` with `to` None: MSG{id, text} reaches exactly the
      live channels registered under other identities, in registry order (a
      prefix of them if an exception escapes); the sender's own channel gets
      no echo unless another identity shares it. */
  lemma TextBroadcast(env: Env, skip: bool, s: St, id: Id, text: string)
    requires DistinctKeys(s.conns)
    ensures var r := Message(env, skip, s, id, text, None);
      var got := Received(Appended(s, r.st), Msg(id, text));
      && got <= Recipients(env, Live(env, s.conns), {id})
      && (r.out.Ok? ==> got == Recipients(env, Live(env, s.conns), {id}))
      && (forall e :: e in s.conns && e.id == id
            ==> (forall f :: f in s.conns && f.id != id ==> f.ch != e.ch) ==> e.ch !in got)
  {
    BroadcastDelivers(env, skip, s, Msg(id, text), {id});
    forall e | e in s.conns && e.id == id && (forall f :: f in s.conns && f.id != id ==> f.ch != e.ch)
      ensures e.ch !in Received(Appended(s, Message(env, skip, s, id, text, None).st), Msg(id, text))
    {
      BroadcastNoEcho(env, skip, s, Msg(id, text), {id}, e.ch);
    }
  }

  /** `_message_handler` with `to` present: a KeyError with nothing changed
      when `to` is not registered; otherwise exactly one DM{id, text}, on the
      channel registered under `to` and no other, unless that send resets,
      in which case the exception escapes and nothing changes. */
  lemma DirectMessage(env: Env, skip: bool, s: St, id: Id, text: string, to: Id)
    ensures var r := Message(env, skip, s, id, text, Some(to));
      && (to !in Keys(s.conns) ==> r == Res(s, Raised(KeyError(to))))
      && (to in Keys(s.conns) ==>
            var ch := Lookup(s.conns, to).value;
            && r.st.conns == s.conns
            && (ch in env.resets ==> r == Res(s, Raised(ConnectionReset(ch))))
            && (ch !in env.resets ==>
                  && r.out == Ok
                  && forall c :: Outbox(r.st.sent, c)
                                 == Outbox(s.sent, c) + (if c == ch then [Dm(id, text)] else [])))
  {
    var r := Message(env, skip, s, id, text, Some(to));
    if to in Keys(s.conns) {
      var ch := Lookup(s.conns, to).value;
      if ch !in env.resets {
        forall c {
          OutboxAppend(s.sent, [Delivery(ch, Dm(id, text))], c);
        }
      }
    }
  }

  /** `_leave_handler(id)` for a registered `id`: afterwards `id` is gone, every
      live entry but `id`'s is still registered in order, and USER_LEAVE{id}
      reached exactly the live channels left, in registry order (a prefix of
      them if an exception escapes). */
  lemma LeaveNotifies(env: Env, skip: bool, s: St, id: Id)
    requires DistinctKeys(s.conns) && id in Keys(s.conns)
    ensures var r := Leave(env, skip, s, id);
      var rest := Pop(s.conns, id);
      var got := Received(Appended(s, r.st), UserLeave(id));
      && id !in Keys(r.st.conns)
      && Live(env, r.st.conns) == Live(env, rest)
      && got <= Recipients(env, Live(env, rest), {})
      && (r.out.Ok? ==> got == Recipients(env, Live(env, rest), {}))
  {
    var rest := Pop(s.conns, id);
    var r := Leave(env, skip, s, id);
    assert Keys(r.st.conns) <= Keys(rest);
    LeaveKeepsLive(env, skip, s, id);
    BroadcastDelivers(env, skip, St(rest, s.sent), UserLeave(id), {});
  }

  /** `_check_ws()`: when it completes, no registered channel is closed, and
      every identity it removed was announced by exactly one USER_LEAVE to
      each live channel, in registry order, while no identity still
      registered was announced. It never drops a live entry, and all it
      writes are USER_LEAVE frames for identities registered when it began. */
  lemma SweepClears(env: Env, skip: bool, s: St)
    requires DistinctKeys(s.conns)
    ensures var r := Sweep(env, skip, s);
      && (r.out.Ok? ==> NoClosed(env, r.st.conns))
      && (r.out.Ok? ==>
            forall k :: Received(Appended(s, r.st), UserLeave(k))
              == if k in Keys(s.conns) - Keys(r.st.conns) then Recipients(env, Live(env, s.conns), {}) else [])
      && Live(env, r.st.conns) == Live(env, s.conns)
      && (forall d :: d in Appended(s, r.st) ==> LeaveNotice(d.ev, Keys(s.conns)))
  {
    AgreeSelf(s.conns);
    SweepFromClears(env, skip, s, s.conns);
    SweepFromKeepsLive(env, skip, s, s.conns);
    SweepFromEvents(env, skip, s, s.conns);
    SweepFromNotified(env, skip, s, s.conns, Pong);
  }

  /** A "ping" frame writes "pong" to the pinging channel first and then runs
      the sweep, whose only frames are USER_LEAVE notices; if that send
      resets, the exception escapes and nothing changes. */
  lemma PingPongs(env: Env, skip: bool, s: St, ws: Chan)
    requires DistinctKeys(s.conns)
    ensures var r := Dispatch(env, skip, s, ws, Ping);
      && (ws in env.resets ==> r == Res(s, Raised(ConnectionReset(ws))))
      && (ws !in env.resets ==>
            && |r.st.sent| > |s.sent|
            && r.st.sent[|s.sent|] == Delivery(ws, Pong)
            && (forall d :: d in r.st.sent[|s.sent| + 1..] ==> LeaveNotice(d.ev, Keys(s.conns)))
            && Live(env, r.st.conns) == Live(env, s.conns)
            && (r.out.Ok? ==> NoClosed(env, r.st.conns)))
  {
    if ws !in env.resets {
      var p := St(s.conns, s.sent + [Delivery(ws, Pong)]);
      var r := Sweep(env, skip, p);
      SweepClears(env, skip, p);
      assert r.st.sent[|s.sent| + 1..] == Appended(p, r.st);
    }
  }
}
