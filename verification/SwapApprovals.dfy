/** What one approval buys (src/btfchatswap.cpp): over every run a swap asks the wallet to
    lock our coin at most as often as the person approved, whether the wallet answered or
    not, and once more for each ticked copy that an exception threw away after it had
    asked. */
module SwapApprovals {
  import opened Options
  import opened Swaps
  import opened SwapSteps
  import opened SwapRuns

  /** What is counted in a trace: lock calls, those the wallet answered, approvals. */
  datatype Kind = Tried | Answered | Granted

  predicate Is(kind: Kind, e: Entry, id: string) {
    match kind
    case Tried => e.Did? && e.who.deal.id == id && TriesLock(e.call)
    case Answered => e.Did? && e.who.deal.id == id && LocksOurs(e.call)
    case Granted => e == Approval(id)
  }

  function Count(kind: Kind, tr: seq<Entry>, id: string): nat {
    if tr == [] then 0 else Count(kind, tr[..|tr| - 1], id) + if Is(kind, tr[|tr| - 1], id) then 1 else 0
  }

  /** Ticked copies of a swap thrown away after they had asked for a lock. */
  function Thrown(st: State, id: string): nat { st.torn[Torn(id, true)] + st.torn[Torn(id, false)] }

  predicate Live(s: ChatSwap) { s.userOk && PreLock(s.stage) }

  predicate Copied(st: State, id: string) { st.flight.Some? && st.flight.value.id == id }

  predicate InTick(st: State, id: string) { Copied(st, id) && st.flight.value.after.Some? }

  predicate Asked(r: Outcome) { exists i :: 0 <= i < |r.calls| && TriesLock(r.calls[i]) }

  predicate Locked(r: Outcome) { exists i :: 0 <= i < |r.calls| && LocksOurs(r.calls[i]) }

  /** Approvals that can still be acted on: with a ticked copy out, the copy's own while
      its tick did not use it, and one that was given meanwhile. */
  function Unused(st: State, id: string): nat
    requires id in st.swaps
  {
    var stored := st.swaps[id];
    if InTick(st, id) then
      var f := st.flight.value;
      (if Live(f.before) && !Asked(f.after.value) then 1 else 0) + (if stored.userOk && !f.before.userOk then 1 else 0)
    else if Live(stored) then 1 else 0
  }

  /** Nothing of ours is locked yet, as far as the copy knows while there is one. */
  predicate Spare(st: State, id: string)
    requires id in st.swaps
  {
    if !Copied(st, id) then PreLock(st.swaps[id].stage)
    else
      var f := st.flight.value;
      PreLock(f.before.stage) && (f.after.Some? ==> !Locked(f.after.value))
  }

  ghost predicate Paid(st: State, id: string)
    requires id in st.swaps
  {
    && Count(Tried, st.trace, id) + Unused(st, id) <= Count(Granted, st.trace, id) + Thrown(st, id)
    && Count(Answered, st.trace, id) <= st.torn[Torn(id, true)] + if Spare(st, id) then 0 else 1
  }

  ghost predicate Bought(st: State) {
    forall id {:trigger Paid(st, id)} :: id in st.swaps ==> Paid(st, id)
  }

  lemma {:induction false} Counts(kind: Kind, tr: seq<Entry>, more: seq<Entry>, id: string)
    ensures Count(kind, tr + more, id) == Count(kind, tr, id) + Count(kind, more, id)
    decreases |more|
  {
    hide Is;
    if more == [] {
      assert tr + more == tr;
    } else {
      var k := |more| - 1;
      assert (tr + more)[..|tr + more| - 1] == tr + more[..k];
      Counts(kind, tr, more[..k], id);
    }
  }

  lemma {:induction false} NoneOf(kind: Kind, tr: seq<Entry>, id: string)
    requires forall i :: 0 <= i < |tr| ==> !Is(kind, tr[i], id)
    ensures Count(kind, tr, id) == 0
    decreases |tr|
  {
    hide Is;
    if tr != [] {
      NoneOf(kind, tr[..|tr| - 1], id);
    }
  }

  lemma {:induction false} OneOf(kind: Kind, tr: seq<Entry>, id: string)
    requires forall i, j :: 0 <= i < j < |tr| ==> !Is(kind, tr[i], id) || !Is(kind, tr[j], id)
    ensures Count(kind, tr, id) <= 1
    decreases |tr|
  {
    hide Is;
    if tr != [] {
      var k := |tr| - 1;
      if Is(kind, tr[k], id) {
        NoneOf(kind, tr[..k], id);
      } else {
        OneOf(kind, tr[..k], id);
      }
    }
  }

  /** A tick asks for a lock at most once, only on a swap that is approved and has nothing
      locked; an approval it leaves on was not used, and a swap it leaves before the lock
      got no answer. */
  lemma TickTries(c: Config, s: ChatSwap, w: World)
    requires Sound(s)
    ensures
      var r := TickResult(c, s, w);
      var e := Entries(s, r.calls);
      && Count(Granted, e, s.deal.id) == 0
      && Count(Tried, e, s.deal.id) == (if Asked(r) then 1 else 0)
      && Count(Answered, e, s.deal.id) == (if Locked(r) then 1 else 0)
      && (Locked(r) ==> Asked(r))
      && (Asked(r) ==> Live(s))
      && (Live(r.swap) ==> Live(s) && !Asked(r))
      && (PreLock(r.swap.stage) ==> PreLock(s.stage) && !Locked(r))
  {
    hide TickResult, Fine;
    TickKeeps(c, s, w);
    var r := TickResult(c, s, w);
    var e := Entries(s, r.calls);
    assert forall i :: 0 <= i < |e| ==> e[i] == Did(s, r.calls[i]);
    NoneOf(Granted, e, s.deal.id);
    Exactly(Tried, e, s.deal.id);
    Exactly(Answered, e, s.deal.id);
    if Asked(r) {
      var i: nat :| i < |r.calls| && TriesLock(r.calls[i]);
      assert Fine(c, s, r.calls, i);
      AsksApproved(c, s, r.calls, i);
    }
    assert Asked(r) <==> exists i :: 0 <= i < |e| && Is(Tried, e[i], s.deal.id) by {
      assert forall i :: 0 <= i < |e| ==> (Is(Tried, e[i], s.deal.id) <==> TriesLock(r.calls[i]));
    }
    assert Locked(r) <==> exists i :: 0 <= i < |e| && Is(Answered, e[i], s.deal.id) by {
      assert forall i :: 0 <= i < |e| ==> (Is(Answered, e[i], s.deal.id) <==> LocksOurs(r.calls[i]));
    }
  }

  lemma Exactly(kind: Kind, tr: seq<Entry>, id: string)
    requires forall i, j :: 0 <= i < j < |tr| ==> !Is(kind, tr[i], id) || !Is(kind, tr[j], id)
    ensures Count(kind, tr, id) == if exists i :: 0 <= i < |tr| && Is(kind, tr[i], id) then 1 else 0
  {
    hide Is;
    OneOf(kind, tr, id);
    if i :| 0 <= i < |tr| && Is(kind, tr[i], id) {
      assert tr == tr[..i] + [tr[i]] + tr[i + 1..];
      Counts(kind, tr[..i] + [tr[i]], tr[i + 1..], id);
      Counts(kind, tr[..i], [tr[i]], id);
      assert [tr[i]][..0] == [];
    } else {
      NoneOf(kind, tr, id);
    }
  }

  lemma AsksApproved(c: Config, s: ChatSwap, calls: seq<Call>, i: nat)
    requires i < |calls| && Fine(c, s, calls, i) && TriesLock(calls[i])
    ensures Live(s)
  {
  }

  /** The calls of a tick count for its own swap only. */
  lemma OthersCount(s: ChatSwap, calls: seq<Call>, id: string)
    requires id != s.deal.id
    ensures forall kind :: Count(kind, Entries(s, calls), id) == 0
  {
    forall kind ensures Count(kind, Entries(s, calls), id) == 0 {
      NoneOf(kind, Entries(s, calls), id);
    }
  }

  lemma WorkBought(c: Config, st: State, w: World)
    requires Inv(c, st) && Bought(st)
    ensures Bought(Next(c, st, Work(w)))
  {
    hide Paid, TickResult, Inv;
    if st.flight.Some? && st.flight.value.after.None? {
      forall id | id in st.swaps ensures Paid(Next(c, st, Work(w)), id) {
        assert Paid(st, id);
        WorkPaid(c, st, w, id);
      }
    }
  }

  lemma WorkPaid(c: Config, st: State, w: World, id: string)
    requires Inv(c, st) && st.flight.Some? && st.flight.value.after.None?
    requires id in st.swaps && Paid(st, id)
    ensures Paid(Next(c, st, Work(w)), id)
  {
    hide TickResult, AllJustified, Linked, Count, Asked, Locked, Sound;
    var f := st.flight.value;
    var e := Entries(f.before, TickResult(c, f.before, w).calls);
    Counts(Tried, st.trace, e, id);
    Counts(Answered, st.trace, e, id);
    Counts(Granted, st.trace, e, id);
    if id == f.id {
      TickTries(c, f.before, w);
    } else {
      OthersCount(f.before, TickResult(c, f.before, w).calls, id);
    }
  }

  lemma MergeBought(c: Config, st: State)
    requires Inv(c, st) && Bought(st)
    ensures Bought(Next(c, st, Merge))
  {
    hide TickResult, AllJustified, Linked, Count, Merged, Sound, Asked, Locked;
    if st.flight.Some? && st.flight.value.after.Some? {
      var f, n := st.flight.value, Next(c, st, Merge);
      var w :| f.after.value == TickResult(c, f.before, w);
      MergeExact(c, f.before, w, st.swaps[f.id]);
      TickTries(c, f.before, w);
      forall id | id in n.swaps ensures Paid(n, id) {
        assert Paid(st, id);
      }
    }
  }

  /** A stored swap changed by the person or the peer, with the approvals that go with it. */
  lemma StoreBought(st: State, id: string, t: ChatSwap, more: seq<Entry>)
    requires Bought(st) && Known(st) && (more == [] || more == [Approval(id)])
    requires st.flight.Some? ==> st.flight.value.id in st.swaps
    requires t.userOk ==> more != [] || (id in st.swaps && st.swaps[id].userOk)
    requires id in st.swaps && Live(t) && more == [] ==> Live(st.swaps[id])
    requires id in st.swaps && PreLock(t.stage) ==> PreLock(st.swaps[id].stage)
    ensures Bought(st.(swaps := st.swaps[id := t], trace := st.trace + more))
  {
    hide Count, Asked, Locked;
    var n := st.(swaps := st.swaps[id := t], trace := st.trace + more);
    forall k | k in n.swaps ensures Paid(n, k) {
      Counts(Tried, st.trace, more, k);
      Counts(Answered, st.trace, more, k);
      Counts(Granted, st.trace, more, k);
      MoreCounts(id, more, k);
      if k in st.swaps {
        assert Paid(st, k);
      } else {
        NoneOf(Tried, st.trace, k);
        NoneOf(Answered, st.trace, k);
      }
    }
  }

  lemma MoreCounts(id: string, more: seq<Entry>, k: string)
    requires more == [] || more == [Approval(id)]
    ensures Count(Tried, more, k) == 0 && Count(Answered, more, k) == 0
    ensures Count(Granted, more, k) == if more != [] && k == id then 1 else 0
  {
    if more != [] {
      assert more[..0] == [];
    }
  }

  lemma SteppedLive(s: ChatSwap, st: Step, now: int, shapeOk: bool)
    ensures var t := Stepped(s, st, now, shapeOk);
            t.userOk == s.userOk && (Live(t) ==> Live(s)) && (PreLock(t.stage) ==> PreLock(s.stage))
  {
  }

  lemma ReceiveBought(c: Config, st: State, e: Event)
    requires Inv(c, st) && Bought(st) && e.Receive? && st.flight.None?
    ensures Bought(Next(c, st, e))
  {
    hide Count, Stepped, StoredOk, AllJustified, Bought;
    assert st.trace + [] == st.trace;
    if e.step.Take? {
      if e.id !in st.swaps && e.mine.Some? && e.mine.value == e.step.terms {
        var o := e.mine.value;
        var deal := Deal(e.id, e.peer, e.step.offerId, true, o.give, o.giveAmount, o.want, o.wantAmount, e.now);
        StoreBought(st, e.id, Fresh(deal, e.step.to, TakeReceived), []);
      }
    } else if e.id in st.swaps && st.swaps[e.id].deal.peer == e.peer {
      SteppedLive(st.swaps[e.id], e.step, e.now, e.shapeOk);
      StoreBought(st, e.id, Stepped(st.swaps[e.id], e.step, e.now, e.shapeOk), []);
    }
  }

  lemma PersonBought(c: Config, st: State, e: Event)
    requires Inv(c, st) && Bought(st) && (e.Approve? || e.Cancel? || e.Redirect? || e.TakeOffer?)
    ensures Bought(Next(c, st, e))
  {
    hide Count, StoredOk, AllJustified, Bought, Interleaved, Linked;
    assert st.trace + [] == st.trace;
    match e
    case Approve(id) =>
      if id in st.swaps && CanApprove(st.swaps[id]) {
        StoreBought(st, id, st.swaps[id].(userOk := true), [Approval(id)]);
      }
    case Cancel(id) =>
      if id in st.swaps && CancelResult(st.swaps[id]).Some? {
        StoreBought(st, id, CancelResult(st.swaps[id]).value, []);
      }
    case Redirect(id, address) =>
      if id in st.swaps && CanRedirect(st.swaps[id], address) {
        StoreBought(st, id, st.swaps[id].(destination := address), []);
      }
    case TakeOffer(id, peer, offerId, o, now) =>
      if id !in st.swaps {
        StoreBought(st, id, Taken(id, peer, offerId, o, now), []);
      }
  }

  /** A copy taken, or one thrown away. */
  lemma CopyBought(c: Config, st: State, e: Event)
    requires Inv(c, st) && Bought(st) && (e.Begin? || e.Abort?)
    ensures Bought(Next(c, st, e))
  {
    hide Count, AllJustified, Linked, Sound;
    var n := Next(c, st, e);
    forall id | id in n.swaps ensures Paid(n, id) {
      assert Paid(st, id);
    }
  }

  lemma NextBought(c: Config, st: State, e: Event)
    requires Inv(c, st) && Bought(st)
    ensures Bought(Next(c, st, e))
  {
    hide Inv, Bought;
    match e
    case Work(w) => WorkBought(c, st, w);
    case Merge => MergeBought(c, st);
    case Begin(_) => CopyBought(c, st, e);
    case Abort => CopyBought(c, st, e);
    case Receive(_, _, _, _, _, _) =>
      if st.flight.None? {
        ReceiveBought(c, st, e);
      }
    case _ => PersonBought(c, st, e);
  }

  lemma {:induction false} RunBought(c: Config, events: seq<Event>)
    ensures Inv(c, Run(c, Empties, events)) && Bought(Run(c, Empties, events))
    decreases |events|
  {
    if events == [] {
      RunKeeps(c, Empties, events);
    } else {
      hide Inv, Next, Bought;
      RunBought(c, events[..|events| - 1]);
      NextKeeps(c, Run(c, Empties, events[..|events| - 1]), events[|events| - 1]);
      NextBought(c, Run(c, Empties, events[..|events| - 1]), events[|events| - 1]);
    }
  }

  /** In every run a swap asks the wallet to lock at most as often as it was approved, and
      once more for each copy an exception threw away after it had asked. */
  lemma TriesWithinApprovals(c: Config, st: State, id: string)
    requires Reachable(c, st)
    ensures Count(Tried, st.trace, id) <= Count(Granted, st.trace, id) + Thrown(st, id)
  {
    hide StoredOk, FlightOk, AllJustified, Count;
    var events :| st == Run(c, Empties, events);
    RunBought(c, events);
    if id in st.swaps {
      assert Paid(st, id);
    } else {
      NoneOf(Tried, st.trace, id);
    }
  }

  /** In every run the wallet answers at most one lock of a swap, and one more for each
      such answer that an exception threw away. */
  lemma LocksAtMostOnce(c: Config, st: State, id: string)
    requires Reachable(c, st)
    ensures Count(Answered, st.trace, id) <= 1 + st.torn[Torn(id, true)]
  {
    hide StoredOk, FlightOk, AllJustified, Count;
    var events :| st == Run(c, Empties, events);
    RunBought(c, events);
    if id in st.swaps {
      assert Paid(st, id);
    } else {
      NoneOf(Answered, st.trace, id);
    }
  }
}
