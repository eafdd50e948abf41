/** The connection registry `WSChat.conns`: a Python dict from identity to channel.
    A Python dict remembers insertion order, and the handlers iterate over
    `list(self.conns.items())`, so the order decides who is visited first.
    The dict is therefore modelled as a sequence of entries with distinct keys:
    assignment to a present key replaces its entry in place, assignment to a new
    key appends, and `pop` removes the entry. */
module Registry {

  datatype Option<T> = None | Some(value: T)

  /** An identity is a client-chosen string. */
  type Id = string

  /** A channel is a handle on one WebSocket connection. */
  type Chan = nat

  datatype Entry = Entry(id: Id, ch: Chan)

  type Conns = seq<Entry>

  function Keys(c: Conns): set<Id>
  {
    set e | e in c :: e.id
  }

  /** No identity occurs twice: the dict invariant. */
  ghost predicate DistinctKeys(c: Conns)
  {
    c == [] || (c[0].id !in Keys(c[1..]) && DistinctKeys(c[1..]))
  }

  lemma KeysCons(c: Conns)
    requires c != []
    ensures Keys(c) == {c[0].id} + Keys(c[1..])
  {
    assert forall e :: e in c <==> e == c[0] || e in c[1..] by {
      assert c == [c[0]] + c[1..];
    }
  }

  /** `self.conns[id]`: the channel registered under `id`, if any. */
  function Lookup(c: Conns, id: Id): (r: Option<Chan>)
    ensures r.Some? <==> id in Keys(c)
    ensures r.Some? ==> Entry(id, r.value) in c
  {
    if c == [] then None
    else
      KeysCons(c);
      if c[0].id == id then Some(c[0].ch) else Lookup(c[1..], id)
  }

  /** In a dict with distinct keys an identity names at most one entry. */
  lemma {:induction false} UniqueEntry(c: Conns, e: Entry, f: Entry)
    requires DistinctKeys(c)
    requires e in c && f in c && e.id == f.id
    ensures e == f
  {
    assert c == [c[0]] + c[1..];
    if e != c[0] && f != c[0] {
      UniqueEntry(c[1..], e, f);
    }
  }

  lemma LookupEntry(c: Conns, e: Entry)
    requires DistinctKeys(c) && e in c
    ensures Lookup(c, e.id) == Some(e.ch)
  {
    UniqueEntry(c, e, Entry(e.id, Lookup(c, e.id).value));
  }

  /** `self.conns.pop(id)` for a present key; an absent key leaves the dict
      unchanged here, and the caller reports the `KeyError`. */
  function Pop(c: Conns, id: Id): (r: Conns)
    ensures forall e :: e in r ==> e in c
    ensures id in Keys(c) ==> |r| == |c| - 1
    ensures id !in Keys(c) ==> r == c
    ensures Keys(c) - {id} <= Keys(r)
    ensures DistinctKeys(c) ==> DistinctKeys(r) && Keys(r) == Keys(c) - {id}
  {
    if c == [] then []
    else
      KeysCons(c);
      if c[0].id == id then c[1..]
      else
        var rest := Pop(c[1..], id);
        var r := [c[0]] + rest;
        KeysCons(r);
        assert r[1..] == rest;
        r
  }

  /** `self.conns[id] = ch`: overwrite in place or append. */
  function Assign(c: Conns, id: Id, ch: Chan): (r: Conns)
    ensures Lookup(r, id) == Some(ch)
    ensures forall k :: k != id ==> Lookup(r, k) == Lookup(c, k)
    ensures Keys(r) == Keys(c) + {id}
    ensures forall e :: e in r ==> e in c || e == Entry(id, ch)
    ensures forall e :: e in c && e.id != id ==> e in r
    ensures Entry(id, ch) in r
    ensures DistinctKeys(c) ==> DistinctKeys(r)
    ensures |r| == if id in Keys(c) then |c| else |c| + 1
  {
    if c == [] then [Entry(id, ch)]
    else
      KeysCons(c);
      if c[0].id == id then
        var r := [Entry(id, ch)] + c[1..];
        KeysCons(r);
        r
      else
        var rest := Assign(c[1..], id, ch);
        var r := [c[0]] + rest;
        KeysCons(r);
        assert r[1..] == rest;
        r
  }

  /** With distinct keys, the head's key occurs nowhere behind it. */
  lemma HeadKeyOnce(c: Conns)
    requires c != []
    ensures DistinctKeys(c) ==> forall i :: 0 < i < |c| ==> c[i].id != c[0].id
  {
    forall i | 0 < i < |c| && DistinctKeys(c)
      ensures c[i].id != c[0].id
    {
      assert c[1..][i - 1] == c[i];
      assert c[i] in c[1..];
    }
  }

  /** With distinct keys, two positions hold two different identities. */
  lemma {:induction false} DistinctAt(c: Conns, i: nat, j: nat)
    requires DistinctKeys(c) && i < j < |c|
    ensures c[i].id != c[j].id
  {
    HeadKeyOnce(c);
    if i > 0 {
      assert c[1..][i - 1] == c[i] && c[1..][j - 1] == c[j];
      DistinctAt(c[1..], i - 1, j - 1);
    }
  }

  /** `pop` takes out the entry of `id` where it stands; the others keep
      their order. */
  lemma {:induction false} PopAt(c: Conns, id: Id, i: nat)
    requires DistinctKeys(c) && i < |c| && c[i].id == id
    ensures Pop(c, id) == c[..i] + c[i + 1..]
  {
    if i > 0 {
      HeadKeyOnce(c);
      assert c[1..][i - 1] == c[i];
      PopAt(c[1..], id, i - 1);
      assert Pop(c, id) == [c[0]] + Pop(c[1..], id);
      assert c[..i] == [c[0]] + c[1..][..i - 1];
      assert c[i + 1..] == c[1..][i..];
    }
  }

  /** Assigning to a present key overwrites its entry where it stands. */
  lemma {:induction false} AssignAt(c: Conns, id: Id, ch: Chan, i: nat)
    requires DistinctKeys(c) && i < |c| && c[i].id == id
    ensures Assign(c, id, ch) == c[i := Entry(id, ch)]
  {
    var e := Entry(id, ch);
    if i == 0 {
      assert Assign(c, id, ch) == [e] + c[1..];
      assert c[0 := e] == [e] + c[1..];
    } else {
      assert c[0].id != id by {
        HeadKeyOnce(c);
      }
      assert Assign(c[1..], id, ch) == c[1..][i - 1 := e] by {
        assert c[1..][i - 1] == c[i];
        AssignAt(c[1..], id, ch, i - 1);
      }
      assert Assign(c, id, ch) == [c[0]] + Assign(c[1..], id, ch);
      UpdateBehind(c, i, e);
    }
  }

  lemma UpdateBehind(c: Conns, i: nat, e: Entry)
    requires 0 < i < |c|
    ensures c[i := e] == [c[0]] + c[1..][i - 1 := e]
  {
    var u := [c[0]] + c[1..][i - 1 := e];
    assert |u| == |c[i := e]|;
    forall k | 0 <= k < |u|
      ensures u[k] == c[i := e][k]
    {
      if k > 0 {
        assert u[k] == c[1..][i - 1 := e][k - 1];
      }
    }
  }

  /** Assigning to a new key appends its entry at the end. */
  lemma {:induction false} AssignNew(c: Conns, id: Id, ch: Chan)
    requires id !in Keys(c)
    ensures Assign(c, id, ch) == c + [Entry(id, ch)]
  {
    var e := Entry(id, ch);
    if c != [] {
      assert c[0].id != id && id !in Keys(c[1..]) by {
        KeysCons(c);
      }
      assert Assign(c[1..], id, ch) == c[1..] + [e] by {
        AssignNew(c[1..], id, ch);
      }
      assert Assign(c, id, ch) == [c[0]] + Assign(c[1..], id, ch);
      AppendBehind(c, e);
    }
  }

  lemma AppendBehind(c: Conns, e: Entry)
    requires c != []
    ensures c + [e] == [c[0]] + (c[1..] + [e])
  {
  }

  /** Registering an identity twice leaves one entry, bound to the latest
      channel, in the place of the first registration. */
  lemma {:induction false} AssignTwice(c: Conns, id: Id, ch1: Chan, ch2: Chan)
    ensures Assign(Assign(c, id, ch1), id, ch2) == Assign(c, id, ch2)
  {
    if c != [] && c[0].id != id {
      AssignTwice(c[1..], id, ch1, ch2);
      var a := Assign(c, id, ch1);
      assert a == [c[0]] + Assign(c[1..], id, ch1);
      assert a[1..] == Assign(c[1..], id, ch1);
    }
  }
}
