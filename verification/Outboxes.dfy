/** Messages waiting for a peer to be reachable (src/btfchatlog.cpp, `Outbox`). */
module Outboxes {
  import opened Options
  import opened Indexed
  import opened Replay

  const MAX_OUTBOX_PER_PEER: nat := 200
  const MAX_OUTBOX_TOTAL: nat := 1000

  datatype Message = Message(sent: int, text: string, frameJson: string)

  datatype Queue = Queue(queued: Lists<string, Message>, ids: set<string>)

  const EmptyQueue := Queue(map[], {})

  ghost predicate QueueOk(q: Queue) {
    && IndexOk(q.queued, q.ids)
    && Total(q.queued) <= MAX_OUTBOX_TOTAL
    && forall k :: k in q.queued ==> 0 < |q.queued[k]| <= MAX_OUTBOX_PER_PEER
  }

  ghost function Added(q: Queue, peer: string, p: Item<Message>): Option<Queue> {
    if peer == "" || p.value.frameJson == "" || |p.id| != 32 || p.id in q.ids then None
    else if Total(q.queued) >= MAX_OUTBOX_TOTAL || |ListOf(q.queued, peer)| >= MAX_OUTBOX_PER_PEER then None
    else Some(Queue(q.queued[peer := ListOf(q.queued, peer) + [p]], q.ids + {p.id}))
  }

  /** The messages of a list that a test keeps, in order. */
  function Kept(s: seq<Item<Message>>, keep: Item<Message> -> bool): (r: seq<Item<Message>>) {
    if s == [] then []
    else
      var k := |s| - 1;
      Kept(s[..k], keep) + if keep(s[k]) then [s[k]] else []
  }

  /** Every list filtered; one left empty is gone. */
  ghost function Filtered(m: Lists<string, Message>, keep: Item<Message> -> bool): Lists<string, Message> {
    map k | k in m && Kept(m[k], keep) != [] :: Kept(m[k], keep)
  }

  function Live(now: int): Item<Message> -> bool { (p: Item<Message>) => now - p.value.sent < FRAME_MAX_AGE }

  function Other(id: string): Item<Message> -> bool { (p: Item<Message>) => p.id != id }

  // ---- filtering keeps the index --------------------------------------------------------------

  lemma {:induction false} KeptIds(s: seq<Item<Message>>, keep: Item<Message> -> bool)
    requires NoDup(s)
    ensures NoDup(Kept(s, keep)) && IdsOf(Kept(s, keep)) <= IdsOf(s) && |Kept(s, keep)| <= |s|
    ensures forall i :: 0 <= i < |s| ==> (keep(s[i]) <==> s[i].id in IdsOf(Kept(s, keep)))
    decreases |s|
  {
    if s != [] {
      var k := |s| - 1;
      var t := s[..k];
      assert t + [s[k]] == s;
      KeptIds(t, keep);
      PushIds(t, s[k]);
      PushIds(Kept(t, keep), s[k]);
      assert s[k].id !in IdsOf(t);
      assert Kept(s, keep) == Kept(t, keep) || Kept(s, keep) == Kept(t, keep) + [s[k]];
      forall i | 0 <= i < |s| ensures keep(s[i]) <==> s[i].id in IdsOf(Kept(s, keep)) {
        if i < k {
          assert t[i] == s[i];
        }
      }
      if keep(s[k]) {
        var u := Kept(t, keep);
        assert forall i :: 0 <= i < |u| ==> u[i].id in IdsOf(u) && u[i].id in IdsOf(t);
      }
    }
  }

  /** One peer's list filtered. */
  function FilterAt(m: Lists<string, Message>, k: string, keep: Item<Message> -> bool): Lists<string, Message>
    requires k in m
  {
    var s := Kept(m[k], keep);
    if s == [] then m - {k} else m[k := s]
  }

  lemma FilterAtOk(m: Lists<string, Message>, ids: set<string>, k: string, keep: Item<Message> -> bool)
    requires IndexOk(m, ids) && k in m
    ensures IndexOk(FilterAt(m, k, keep), ids - (IdsOf(m[k]) - IdsOf(Kept(m[k], keep))))
    ensures Total(FilterAt(m, k, keep)) == Total(m) - |m[k]| + |Kept(m[k], keep)|
    ensures |Kept(m[k], keep)| <= |m[k]|
  {
    var s := Kept(m[k], keep);
    assert NoDup(m[k]);
    KeptIds(m[k], keep);
    InIndex(m, ids, k);
    hide IndexOk;
    ReplaceOk(m, ids, k, s);
    TotalPut(m, k, s);
    assert ids - IdsOf(m[k]) + IdsOf(s) == ids - (IdsOf(m[k]) - IdsOf(s));
  }

  lemma AddedOk(q: Queue, peer: string, p: Item<Message>)
    requires QueueOk(q) && Added(q, peer, p).Some?
    ensures QueueOk(Added(q, peer, p).value)
  {
    hide IndexOk;
    PushOk(q.queued, q.ids, peer, p);
    TotalPut(q.queued, peer, ListOf(q.queued, peer) + [p]);
  }

  /** What the outbox drops, no receiver takes at any later second; what it keeps, none
      refuses for its age.  At the very second a message comes of age it is dropped although
      a receiver would still take it. */
  lemma DroppedInTime(p: Item<Message>, now: int)
    requires |p.id| == 32
    ensures !Live(now)(p) <==> forall later :: later > now ==> !InTime(p.id, p.value.sent, later)
    ensures Live(now)(p) && p.value.sent <= now + FRAME_FUTURE_SKEW ==> InTime(p.id, p.value.sent, now)
    ensures !Live(now)(p) && InTime(p.id, p.value.sent, now) <==> p.value.sent == now - FRAME_MAX_AGE
  {
    if Live(now)(p) {
      var later := if p.value.sent > now then p.value.sent else now + 1;
      assert later > now && InTime(p.id, p.value.sent, later);
    }
  }

  // ---- walking the queues --------------------------------------------------------------------

  /** The queues while some peers' lists, `todo`, are still to be filtered. */
  ghost function Partly(m: Lists<string, Message>, todo: set<string>, keep: Item<Message> -> bool): Lists<string, Message> {
    map k | k in m && (k in todo || Kept(m[k], keep) != []) :: if k in todo then m[k] else Kept(m[k], keep)
  }

  lemma PartlyStep(m: Lists<string, Message>, todo: set<string>, k: string, keep: Item<Message> -> bool)
    requires k in m && k in todo
    ensures Partly(m, todo - {k}, keep) == FilterAt(Partly(m, todo, keep), k, keep)
  {
    assert Partly(m, todo, keep)[k] == m[k];
  }

  lemma PartlyEnds(m: Lists<string, Message>, keep: Item<Message> -> bool)
    ensures Partly(m, m.Keys, keep) == m && Partly(m, {}, keep) == Filtered(m, keep)
  {
  }

  /** One more peer's list filtered. */
  lemma FilterStep(m0: Lists<string, Message>, todo: set<string>, q: Queue, k: string, keep: Item<Message> -> bool)
    requires QueueOk(q) && k in todo && k in m0 && q.queued == Partly(m0, todo, keep)
    ensures k in q.queued && q.queued[k] == m0[k] && NoDup(m0[k])
    ensures
      var s := Kept(m0[k], keep);
      && Partly(m0, todo - {k}, keep) == (if s == [] then q.queued - {k} else q.queued[k := s])
      && QueueOk(Queue(Partly(m0, todo - {k}, keep), q.ids - (IdsOf(m0[k]) - IdsOf(s))))
      && Total(Partly(m0, todo - {k}, keep)) == Total(q.queued) - |m0[k]| + |s|
  {
    assert q.queued[k] == m0[k];
    KeptIds(m0[k], keep);
    hide IndexOk;
    FilterAtOk(q.queued, q.ids, k, keep);
    PartlyStep(m0, todo, k, keep);
  }

  lemma {:induction false} KeptAll(s: seq<Item<Message>>, id: string)
    requires id !in IdsOf(s)
    ensures Kept(s, Other(id)) == s
    decreases |s|
  {
    if s != [] {
      var k := |s| - 1;
      assert s == s[..k] + [s[k]];
      PushIds(s[..k], s[k]);
      KeptAll(s[..k], id);
    }
  }

  /** Taking out the one message with an id is keeping all the others. */
  lemma {:induction false} KeptCut(s: seq<Item<Message>>, i: nat)
    requires i < |s| && NoDup(s)
    ensures Kept(s, Other(s[i].id)) == s[..i] + s[i + 1..]
    decreases |s|
  {
    var k := |s| - 1;
    assert s == s[..k] + [s[k]];
    if i == k {
      KeptAll(s[..k], s[k].id);
    } else {
      KeptCut(s[..k], i);
      assert s[..i] + s[i + 1..] == (s[..k][..i] + s[..k][i + 1..]) + [s[k]];
    }
  }

  method WithoutId(s: seq<Item<Message>>, id: string) returns (r: seq<Item<Message>>)
    requires NoDup(s)
    ensures r == Kept(s, Other(id))
  {
    for i := 0 to |s|
      invariant id !in IdsOf(s[..i])
    {
      if s[i].id == id {
        KeptCut(s, i);
        return s[..i] + s[i + 1..];
      }
      assert s[..i + 1] == s[..i] + [s[i]];
      PushIds(s[..i], s[i]);
    }
    assert s[..|s|] == s;
    KeptAll(s, id);
    return s;
  }

  lemma KeptPrefix(s: seq<Item<Message>>, i: nat, keep: Item<Message> -> bool)
    requires i < |s| && NoDup(s)
    ensures
      var a, b := Kept(s[..i], keep), Kept(s[..i + 1], keep);
      && b == a + (if keep(s[i]) then [s[i]] else [])
      && IdsOf(s[..i + 1]) - IdsOf(b) == IdsOf(s[..i]) - IdsOf(a) + (if keep(s[i]) then {} else {s[i].id})
  {
    var t := s[..i];
    assert s[..i + 1] == t + [s[i]] && s[..i + 1][..i] == t;
    assert NoDup(t);
    KeptIds(t, keep);
    PushIds(t, s[i]);
    PushIds(Kept(t, keep), s[i]);
    assert forall j :: 0 <= j < |t| ==> t[j].id != s[i].id;
    assert s[i].id !in IdsOf(t);
    var a, x := Kept(t, keep), s[i].id;
    if keep(s[i]) {
      assert IdsOf(t) + {x} - (IdsOf(a) + {x}) == IdsOf(t) - IdsOf(a);
    } else {
      assert a + [] == a;
      assert IdsOf(t) + {x} - IdsOf(a) == IdsOf(t) - IdsOf(a) + {x};
    }
  }

  /** One peer's list, with the ids of what is dropped taken out of the index. */
  method SplitExpired(s: seq<Item<Message>>, ids: set<string>, now: int)
    returns (keep: seq<Item<Message>>, left: set<string>, dropped: nat)
    requires NoDup(s)
    ensures keep == Kept(s, Live(now)) && left == ids - (IdsOf(s) - IdsOf(keep)) && dropped == |s| - |keep|
  {
    keep, left, dropped := [], ids, 0;
    assert Kept(s[..0], Live(now)) == [];
    for i := 0 to |s|
      invariant keep == Kept(s[..i], Live(now)) && dropped == i - |keep|
      invariant left == ids - (IdsOf(s[..i]) - IdsOf(keep))
    {
      KeptPrefix(s, i, Live(now));
      if now - s[i].value.sent >= FRAME_MAX_AGE {
        left := left - {s[i].id};
        dropped := dropped + 1;
      } else {
        keep := keep + [s[i]];
      }
    }
    assert s[..|s|] == s;
  }

  class Outbox {
    var queued: Lists<string, Message>
    var ids: set<string>

    ghost function Value(): Queue
      reads this
    {
      Queue(queued, ids)
    }

    constructor ()
      ensures Value() == EmptyQueue && QueueOk(Value())
    {
      queued, ids := map[], {};
    }

    method Size() returns (n: nat)
      ensures n == Total(queued)
    {
      n := 0;
      var todo := queued;
      while todo != map[]
        invariant n + Total(todo) == Total(queued)
        decreases |todo|
      {
        var k :| k in todo;
        TotalAt(todo, k);
        n := n + |todo[k]|;
        todo := todo - {k};
      }
    }

    method Add(peer: string, p: Item<Message>) returns (ok: bool)
      requires QueueOk(Value())
      modifies this
      ensures QueueOk(Value())
      ensures ok == Added(old(Value()), peer, p).Some?
      ensures Value() == if ok then Added(old(Value()), peer, p).value else old(Value())
    {
      if peer == "" || p.value.frameJson == "" || |p.id| != 32 || p.id in ids {
        return false;
      }
      var n := Size();
      if n >= MAX_OUTBOX_TOTAL || |ListOf(queued, peer)| >= MAX_OUTBOX_PER_PEER {
        return false;
      }
      AddedOk(Value(), peer, p);
      queued := queued[peer := ListOf(queued, peer) + [p]];
      ids := ids + {p.id};
      return true;
    }

    /** Everything too old to be accepted by its receiver goes, nothing else, and the rest
        keeps its order. */
    method Expire(now: int) returns (dropped: nat)
      requires QueueOk(Value())
      modifies this
      ensures QueueOk(Value())
      ensures queued == Filtered(old(queued), Live(now))
      ensures dropped == Total(old(queued)) - Total(queued)
    {
      hide QueueOk, Partly, Live, Kept;
      dropped := 0;
      var todo := queued.Keys;
      PartlyEnds(queued, Live(now));
      while todo != {}
        invariant todo <= old(queued).Keys
        invariant queued == Partly(old(queued), todo, Live(now))
        invariant QueueOk(Value()) && dropped == Total(old(queued)) - Total(queued)
        decreases |todo|
      {
        var k :| k in todo;
        FilterStep(old(queued), todo, Value(), k, Live(now));
        var keep, left, n := SplitExpired(queued[k], ids, now);
        queued := if keep == [] then queued - {k} else queued[k := keep];
        ids := left;
        dropped := dropped + n;
        todo := todo - {k};
      }
    }

    method Remove(id: string)
      requires QueueOk(Value())
      modifies this
      ensures QueueOk(Value())
      ensures queued == Filtered(old(queued), Other(id)) && ids == old(ids) - {id}
    {
      hide IndexOk, Partly, Other, Kept;
      var todo := queued.Keys;
      ghost var g := ids;
      PartlyEnds(queued, Other(id));
      while todo != {}
        invariant todo <= old(queued).Keys && ids == old(ids)
        invariant queued == Partly(old(queued), todo, Other(id))
        invariant QueueOk(Queue(queued, g)) && ids - {id} <= g <= ids
        invariant forall k :: k in queued && k !in todo ==> id !in IdsOf(queued[k])
        decreases |todo|
      {
        var k :| k in todo;
        FilterStep(old(queued), todo, Queue(queued, g), k, Other(id));
        var keep := WithoutId(queued[k], id);
        OnlyId(queued[k], id);
        g := g - (IdsOf(queued[k]) - IdsOf(keep));
        queued := if keep == [] then queued - {k} else queued[k := keep];
        todo := todo - {k};
      }
      NotHeld(queued, g, id);
      assert g == ids - {id};
      ids := ids - {id};
    }

    method ForgetPeer(peer: string)
      requires QueueOk(Value())
      modifies this
      ensures QueueOk(Value())
      ensures queued == old(queued) - {peer} && ids == old(ids) - IdsOf(ListOf(old(queued), peer))
    {
      hide IndexOk;
      if peer !in queued {
        return;
      }
      var v := queued[peer];
      for i := 0 to |v|
        invariant queued == old(queued) && ids == old(ids) - IdsOf(v[..i])
      {
        assert v[..i + 1] == v[..i] + [v[i]];
        PushIds(v[..i], v[i]);
        ids := ids - {v[i].id};
      }
      assert v[..|v|] == v;
      ReplaceOk(queued, old(ids), peer, []);
      TotalPut(queued, peer, []);
      queued := queued - {peer};
    }
  }

  lemma OnlyId(s: seq<Item<Message>>, id: string)
    requires NoDup(s)
    ensures id !in IdsOf(Kept(s, Other(id))) && IdsOf(s) - IdsOf(Kept(s, Other(id))) <= {id}
  {
    KeptIds(s, Other(id));
    forall x | x in IdsOf(s) ensures x in IdsOf(Kept(s, Other(id))) <==> x != id {
      var i :| 0 <= i < |s| && s[i].id == x;
      assert Other(id)(s[i]) <==> x != id;
    }
  }

  lemma NotHeld(m: Lists<string, Message>, ids: set<string>, id: string)
    requires IndexOk(m, ids) && forall k :: k in m ==> id !in IdsOf(m[k])
    ensures id !in ids
  {
    assert id in ids ==> Somewhere(IdMap(m), id);
  }
}
