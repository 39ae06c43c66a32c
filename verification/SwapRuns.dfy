/** Whole runs of the swap engine (src/btfchatswap.cpp).  A round copies a swap, ticks the
    copy outside the lock and merges it back; approvals, cancels and new destinations may
    land at any point in between, and an exception drops the copy.  Steps of the peer are
    read by the same worker before it copies anything.  `trace` is everything the engine
    asked of the wallet, in order, with the person's approvals among it. */
module SwapRuns {
  import opened Options
  import opened Swaps
  import opened SwapSteps

  // ---- the operations on one stored swap ------------------------------------------------

  predicate CanApprove(s: ChatSwap) { s.stage.TakeReceived? || s.stage.ReadyToLock? }

  /** `Cancel`: called off while nothing of ours is locked, withdrawn while a contract of
      ours waits for its payment, refused otherwise. */
  function CancelResult(s: ChatSwap): (r: Option<ChatSwap>)
    ensures r.Some? ==> r.value == s.(stage := r.value.stage) && Empty(r.value.mine.txid)
    ensures IsFinal(s.stage) ==> r.None?
  {
    if IsFinal(s.stage) then None
    else if s.stage.WaitPayment? && Empty(s.mine.txid) then Some(s.(stage := Refunding))
    else if !Empty(s.mine.code) || !Empty(s.mine.txid) || s.userOk then None
    else Some(s.(stage := Cancelled))
  }

  predicate CanRedirect(s: ChatSwap, address: string) {
    0 < |address| <= 90 && Empty(s.mine.code) && Empty(s.redeemTxid)
  }

  /** A ticked copy written back over what is stored by then. */
  function Merged(before: ChatSwap, after: ChatSwap, stored: ChatSwap): ChatSwap {
    var a := after.(destination := stored.destination);
    var b := if stored.userOk && !before.userOk && after.stage == before.stage then a.(userOk := true) else a;
    var d := if stored.stage.Cancelled? && !before.stage.Cancelled? && Empty(after.mine.txid)
             then b.(stage := Cancelled) else b;
    if before.stage.WaitPayment? && stored.stage.Refunding? && (after.stage.WaitPayment? || after.stage.Locked?)
    then d.(stage := Refunding) else d
  }

  const NoContract := Contract("", "", -1)

  function Fresh(deal: Deal, theirRecv: string, stage: Stage): ChatSwap {
    ChatSwap(deal, theirRecv, NoContract, "", NoContract, "", "", "", "", "", "",
             stage, false, false, false, 0, 0, 0, 0)
  }

  /** A step from the peer about a swap we already have.  `shapeOk` is whether the address
      in the step has the shape of one on our coin's chain. */
  function Stepped(s: ChatSwap, st: Step, now: int, shapeOk: bool): ChatSwap {
    match st
    case Lock1(chain, contract, txid, vout, to) =>
      if !s.deal.maker && s.stage.TakeSent? && chain == s.deal.want && shapeOk
      then s.(theirs := Contract(contract, txid, vout), theirRecv := to, theirSince := now, stage := CheckingTheirs)
      else s
    case Lock2(chain, contract, txid, vout) =>
      if s.deal.maker && s.stage.Locked? && chain == s.deal.want
      then s.(theirs := Contract(contract, txid, vout), theirSince := now, stage := Redeeming)
      else s
    case CancelStep =>
      if Empty(s.mine.txid) && !s.userOk && !IsFinal(s.stage) then s.(stage := Cancelled) else s
    case _ => s
  }

  /** `OnStep`.  `offer` is the offer of ours that a take names, when there is one. */
  function Received(swaps: map<string, ChatSwap>, peer: string, id: string, st: Step, now: int,
                    offer: Option<Offer>, shapeOk: bool): map<string, ChatSwap> {
    if st.Take? then
      if id in swaps || offer.None? || offer.value != st.terms then swaps
      else
        var o := offer.value;
        swaps[id := Fresh(Deal(id, peer, st.offerId, true, o.give, o.giveAmount, o.want, o.wantAmount, now),
                          st.to, TakeReceived)]
    else if id !in swaps || swaps[id].deal.peer != peer then swaps
    else swaps[id := Stepped(swaps[id], st, now, shapeOk)]
  }

  function Taken(id: string, peer: string, offerId: string, o: Offer, now: int): ChatSwap {
    Fresh(Deal(id, peer, offerId, false, o.want, o.wantAmount, o.give, o.giveAmount, now), "", Inviting)
  }

  // ---- the machine ------------------------------------------------------------------------

  datatype Entry = Did(who: ChatSwap, call: Call) | Approval(id: string)

  /** The copy a round works on; `after` is what its tick made of it. */
  datatype Flight = Flight(id: string, before: ChatSwap, after: Option<Outcome>)

  /** A ticked copy that an exception threw away although it had asked the wallet to lock,
      and whether the wallet had answered. */
  datatype Torn = Torn(id: string, answered: bool)

  function Lost(f: Flight): multiset<Torn> {
    if f.after.None? || forall i :: 0 <= i < |f.after.value.calls| ==> !TriesLock(f.after.value.calls[i])
    then multiset{}
    else multiset{Torn(f.id, exists i :: 0 <= i < |f.after.value.calls| && LocksOurs(f.after.value.calls[i]))}
  }

  datatype State = State(swaps: map<string, ChatSwap>, flight: Option<Flight>, trace: seq<Entry>, torn: multiset<Torn>)

  datatype Event =
    | Begin(id: string)
    | Work(world: World)
    | Merge
    | Abort
    | Receive(peer: string, id: string, step: Step, now: int, mine: Option<Offer>, shapeOk: bool)
    | TakeOffer(id: string, peer: string, offerId: string, offer: Offer, now: int)
    | Approve(id: string)
    | Cancel(id: string)
    | Redirect(id: string, address: string)

  function Entries(s: ChatSwap, calls: seq<Call>): seq<Entry> {
    seq(|calls|, i requires 0 <= i < |calls| => Did(s, calls[i]))
  }

  /** One event; one that does not apply changes nothing. */
  function Next(c: Config, st: State, e: Event): State {
    match e
    case Begin(id) =>
      if st.flight.None? && id in st.swaps then st.(flight := Some(Flight(id, st.swaps[id], None))) else st
    case Work(w) =>
      if st.flight.Some? && st.flight.value.after.None? then
        var f := st.flight.value;
        var r := TickResult(c, f.before, w);
        st.(flight := Some(f.(after := Some(r))), trace := st.trace + Entries(f.before, r.calls))
      else st
    case Merge =>
      if st.flight.Some? && st.flight.value.after.Some? then
        var f := st.flight.value;
        st.(flight := None,
        swaps := if f.id in st.swaps
          then st.swaps[f.id := Merged(f.before, f.after.value.swap, st.swaps[f.id])] else st.swaps)
      else st
    case Abort =>
      if st.flight.None? then st
      else st.(flight := None, torn := st.torn + Lost(st.flight.value))
    case Receive(peer, id, step, now, offer, shapeOk) =>
      if st.flight.None? then st.(swaps := Received(st.swaps, peer, id, step, now, offer, shapeOk)) else st
    case TakeOffer(id, peer, offerId, offer, now) =>
      if id in st.swaps then st else st.(swaps := st.swaps[id := Taken(id, peer, offerId, offer, now)])
    case Approve(id) =>
      if id in st.swaps && CanApprove(st.swaps[id])
      then st.(swaps := st.swaps[id := st.swaps[id].(userOk := true)], trace := st.trace + [Approval(id)])
      else st
    case Cancel(id) =>
      if id in st.swaps && CancelResult(st.swaps[id]).Some?
      then st.(swaps := st.swaps[id := CancelResult(st.swaps[id]).value])
      else st
    case Redirect(id, address) =>
      if id in st.swaps && CanRedirect(st.swaps[id], address)
      then st.(swaps := st.swaps[id := st.swaps[id].(destination := address)])
      else st
  }

  const Empties := State(map[], None, [], multiset{})

  function Run(c: Config, st: State, events: seq<Event>): State {
    if events == [] then st else Next(c, Run(c, st, events[..|events| - 1]), events[|events| - 1])
  }

  /** A run written out state by state. */
  lemma {:induction false} RunThrough(c: Config, events: seq<Event>, states: seq<State>)
    requires |states| == |events| + 1
    requires forall i :: 0 <= i < |events| ==> states[i + 1] == Next(c, states[i], events[i])
    ensures Run(c, states[0], events) == states[|events|]
    decreases |events|
  {
    hide Next;
    if events != [] {
      RunThrough(c, events[..|events| - 1], states[..|events|]);
    }
  }

  // ---- what the trace shows ------------------------------------------------------------------

  predicate IsRedeem(e: Entry, id: string) { e.Did? && e.who.deal.id == id && e.call.Redeem? }

  ghost predicate Redeemed(tr: seq<Entry>, id: string) {
    exists j :: 0 <= j < |tr| && IsRedeem(tr[j], id)
  }

  ghost predicate Approved(tr: seq<Entry>, id: string) {
    exists j :: 0 <= j < |tr| && tr[j] == Approval(id)
  }

  predicate Makes(e: Entry, s: ChatSwap) {
    e.Did? && e.who.deal == s.deal && MadeIn(s, e.call)
  }

  /** The secret and the hash are those the wallet answered to our own lock. */
  ghost predicate SecretMade(tr: seq<Entry>, s: ChatSwap) {
    exists j :: 0 <= j < |tr| && Makes(tr[j], s)
  }

  /** Why the `i`-th entry was allowed, told by the entries before it. */
  ghost predicate Justified(c: Config, tr: seq<Entry>, i: nat)
    requires i < |tr|
  {
    tr[i].Did? ==>
      var s := tr[i].who;
      match tr[i].call
      case Redeem(contract, ref, secret, _, fee) =>
        && contract == s.theirs.code && ref == TheirRef(s) && secret == s.secret
        && (fee.Some? ==> Redeemed(tr[..i], s.deal.id))
        && (s.deal.maker ==> SecretMade(tr[..i], s))
        && (fee.None? && s.deal.maker ==>
              && i > 0 && tr[i - 1].Did? && tr[i - 1].who == s && Audited(c, s, tr[i - 1].call, c.makerMinLeft)
              && (Empty(s.secretHash) || tr[i - 1].call.audit.value.secretHash == s.secretHash))
      case Participate(to, amount, hash, _) =>
        && !s.deal.maker && to == s.theirRecv && amount == s.deal.giveAmount && Approved(tr[..i], s.deal.id)
        && i > 0 && tr[i - 1].Did? && tr[i - 1].who == s && Audited(c, s, tr[i - 1].call, c.takerMinLeft)
        && tr[i - 1].call.audit.value.secretHash == hash
      case Initiate(to, amount, _) =>
        s.deal.maker && to == s.theirRecv && amount == s.deal.giveAmount && Approved(tr[..i], s.deal.id)
      case Refund(contract, ref, _) =>
        && contract == s.mine.code
        && i > 0 && tr[i - 1].Did? && tr[i - 1].who == s && tr[i - 1].call.AuditMine?
        && tr[i - 1].call.contract == contract && tr[i - 1].call.ref == ref && tr[i - 1].call.left <= 0
      case _ => true
  }

  ghost predicate AllJustified(c: Config, tr: seq<Entry>) {
    forall i: nat {:trigger Justified(c, tr, i)} :: i < |tr| ==> Justified(c, tr, i)
  }

  /** What a stored or copied swap claims about the trace. */
  ghost predicate Linked(tr: seq<Entry>, s: ChatSwap) {
    && (s.redeemSince > 0 ==> Redeemed(tr, s.deal.id))
    && (s.userOk ==> Approved(tr, s.deal.id))
    && (s.deal.maker && !PreLock(s.stage) && !s.stage.Cancelled? ==> SecretMade(tr, s))
  }

  /** What the person can do to a swap while a copy of it is being ticked. */
  ghost predicate Interleaved(before: ChatSwap, stored: ChatSwap) {
    && stored == before.(stage := stored.stage, userOk := stored.userOk, destination := stored.destination)
    && (before.userOk ==> stored.userOk)
    && (|| stored.stage == before.stage
        || (stored.stage.Cancelled? && !stored.userOk && !before.userOk && !IsFinal(before.stage))
        || (stored.stage.Refunding? && before.stage.WaitPayment?))
    && (stored.userOk && !before.userOk ==> stored.stage == before.stage && CanApprove(before))
  }

  // ---- merging --------------------------------------------------------------------------------

  /** A cancel or a withdrawal pressed while the copy was being ticked stands, an approval
      stands exactly if the stage it was for is still the stage, and a new destination
      stands. */
  lemma MergeExact(c: Config, before: ChatSwap, w: World, stored: ChatSwap)
    requires Sound(before) && Interleaved(before, stored)
    ensures
      var after := TickResult(c, before, w).swap;
      var m := Merged(before, after, stored);
      && m.stage == (if stored.stage.Cancelled? then Cancelled
                     else if before.stage.WaitPayment? && stored.stage.Refunding? then Refunding
                     else after.stage)
      && (stored.userOk && !before.userOk ==> (m.userOk <==> after.stage == before.stage))
      && (before.userOk || !stored.userOk ==> m.userOk == after.userOk)
      && m == after.(stage := m.stage, userOk := m.userOk, destination := stored.destination)
      && Sound(m)
      && Rank(stored.stage) <= Rank(m.stage)
      && (IsFinal(stored.stage) ==> m.stage == stored.stage)
  {
    hide TickResult;
    TickKeeps(c, before, w);
  }

  // ---- the invariant of every run ----------------------------------------------------------

  ghost predicate StoredOk(st: State) {
    forall id {:trigger st.swaps[id]} :: id in st.swaps ==>
      st.swaps[id].deal.id == id && Sound(st.swaps[id]) && Linked(st.trace, st.swaps[id])
  }

  ghost predicate Ticked(c: Config, before: ChatSwap, after: Outcome) {
    exists w :: after == TickResult(c, before, w)
  }

  ghost predicate FlightOk(c: Config, st: State) {
    st.flight.Some? ==>
      var f := st.flight.value;
      && f.id in st.swaps && f.before.deal.id == f.id
      && Sound(f.before) && Linked(st.trace, f.before) && Interleaved(f.before, st.swaps[f.id])
      && (f.after.Some? ==> Ticked(c, f.before, f.after.value) && Linked(st.trace, f.after.value.swap))
  }

  ghost predicate Known(st: State) {
    forall i :: 0 <= i < |st.trace| && st.trace[i].Did? ==> st.trace[i].who.deal.id in st.swaps
  }

  ghost predicate Inv(c: Config, st: State) {
    StoredOk(st) && FlightOk(c, st) && Known(st) && AllJustified(c, st.trace)
  }

  lemma LinkedLonger(tr: seq<Entry>, more: seq<Entry>, s: ChatSwap)
    requires Linked(tr, s)
    ensures Linked(tr + more, s)
  {
    var u := tr + more;
    assert forall j :: 0 <= j < |tr| ==> u[j] == tr[j];
    if Redeemed(tr, s.deal.id) {
      var j :| 0 <= j < |tr| && IsRedeem(tr[j], s.deal.id);
      assert IsRedeem(u[j], s.deal.id);
    }
    if Approved(tr, s.deal.id) {
      var j :| 0 <= j < |tr| && tr[j] == Approval(s.deal.id);
      assert u[j] == Approval(s.deal.id);
    }
    if SecretMade(tr, s) {
      var j :| 0 <= j < |tr| && Makes(tr[j], s);
      assert Makes(u[j], s);
    }
  }

  lemma JustifiedLonger(c: Config, tr: seq<Entry>, more: seq<Entry>, i: nat)
    requires i < |tr| && Justified(c, tr, i)
    ensures Justified(c, tr + more, i)
  {
    hide Audited, Redeemed, Approved, SecretMade;
    var u := tr + more;
    assert u[..i] == tr[..i] && u[i] == tr[i];
    assert i > 0 ==> u[i - 1] == tr[i - 1];
  }

  /** The calls of one tick, seen in the trace they are added to. */
  lemma EntryJustified(c: Config, tr: seq<Entry>, s: ChatSwap, calls: seq<Call>, k: nat)
    requires Sound(s) && Linked(tr, s) && k < |calls| && Fine(c, s, calls, k)
    ensures Justified(c, tr + Entries(s, calls), |tr| + k)
  {
    hide PaysUs, Audited, Redeemed, Approved, SecretMade;
    var e := Entries(s, calls);
    var u, i := tr + e, |tr| + k;
    assert u[i] == Did(s, calls[k]);
    assert k > 0 ==> u[i - 1] == Did(s, calls[k - 1]);
    assert u[..i] == tr + e[..k];
    LinkedLonger(tr, e[..k], s);
  }

  lemma WorkJustified(c: Config, tr: seq<Entry>, s: ChatSwap, calls: seq<Call>)
    requires Sound(s) && Linked(tr, s) && AllFine(c, s, calls) && AllJustified(c, tr)
    ensures AllJustified(c, tr + Entries(s, calls))
  {
    hide Justified, Fine;
    var e := Entries(s, calls);
    forall i: nat | i < |tr + e| ensures Justified(c, tr + e, i) {
      if i < |tr| {
        assert Justified(c, tr, i);
        JustifiedLonger(c, tr, e, i);
      } else {
        assert Fine(c, s, calls, i - |tr|);
        EntryJustified(c, tr, s, calls, i - |tr|);
      }
    }
  }

  lemma WorkLinked(c: Config, tr: seq<Entry>, s: ChatSwap, w: World)
    requires Sound(s) && Linked(tr, s)
    ensures var r := TickResult(c, s, w); Linked(tr + Entries(s, r.calls), r.swap)
  {
    hide TickResult, Fine;
    TickKeeps(c, s, w);
    var r := TickResult(c, s, w);
    var e := Entries(s, r.calls);
    var u := tr + e;
    LinkedLonger(tr, e, s);
    assert forall k :: 0 <= k < |r.calls| ==> u[|tr| + k] == Did(s, r.calls[k]);
    if r.swap.redeemSince > 0 && s.redeemSince <= 0 {
      var k :| 0 <= k < |r.calls| && r.calls[k].Redeem?;
      assert IsRedeem(u[|tr| + k], r.swap.deal.id);
    }
    if s.deal.maker && !PreLock(r.swap.stage) && !r.swap.stage.Cancelled? {
      if PreLock(s.stage) {
        var k :| 0 <= k < |r.calls| && MadeIn(r.swap, r.calls[k]);
        assert Makes(u[|tr| + k], r.swap);
      } else {
        var j :| 0 <= j < |u| && Makes(u[j], s);
        assert Makes(u[j], r.swap);
      }
    }
  }

  predicate UserPart(more: seq<Entry>) { forall i :: 0 <= i < |more| ==> more[i].Approval? }

  /** A swap put in the store, by the person or by the peer. */
  lemma StoreKeeps(c: Config, st: State, id: string, t: ChatSwap, more: seq<Entry>)
    requires Inv(c, st) && UserPart(more)
    requires t.deal.id == id && Sound(t) && Linked(st.trace + more, t)
    requires id in st.swaps && PreLock(t.stage) ==> PreLock(st.swaps[id].stage)
    requires st.flight.Some? && st.flight.value.id == id ==> Interleaved(st.flight.value.before, t)
    ensures Inv(c, st.(swaps := st.swaps[id := t], trace := st.trace + more))
  {
    hide Justified, Linked, Sound, Interleaved;
    var n := st.(swaps := st.swaps[id := t], trace := st.trace + more);
    forall k | k in n.swaps
      ensures n.swaps[k].deal.id == k && Sound(n.swaps[k]) && Linked(n.trace, n.swaps[k])
    {
      if k != id {
        LinkedLonger(st.trace, more, st.swaps[k]);
      }
    }
    if st.flight.Some? {
      LinkedLonger(st.trace, more, st.flight.value.before);
      if st.flight.value.after.Some? {
        LinkedLonger(st.trace, more, st.flight.value.after.value.swap);
      }
    }
    assert forall i :: |st.trace| <= i < |n.trace| ==> n.trace[i] == more[i - |st.trace|];
    StoreJustified(c, st.trace, more);
  }

  lemma StoreJustified(c: Config, tr: seq<Entry>, more: seq<Entry>)
    requires AllJustified(c, tr) && UserPart(more)
    ensures AllJustified(c, tr + more)
  {
    forall i: nat | i < |tr + more| ensures Justified(c, tr + more, i) {
      if i < |tr| {
        assert Justified(c, tr, i);
        JustifiedLonger(c, tr, more, i);
      } else {
        assert (tr + more)[i] == more[i - |tr|];
      }
    }
  }

  lemma ApproveKeeps(c: Config, st: State, id: string)
    requires Inv(c, st) && id in st.swaps && CanApprove(st.swaps[id])
    ensures Inv(c, Next(c, st, Approve(id)))
  {
    hide Justified, AllJustified;
    var s := st.swaps[id];
    var more := [Approval(id)];
    assert Linked(st.trace + more, s.(userOk := true)) by {
      LinkedLonger(st.trace, more, s);
      assert (st.trace + more)[|st.trace|] == Approval(id);
      if SecretMade(st.trace + more, s) {
        var j :| 0 <= j < |st.trace + more| && Makes((st.trace + more)[j], s);
        assert Makes((st.trace + more)[j], s.(userOk := true));
      }
    }
    StoreKeeps(c, st, id, s.(userOk := true), more);
  }

  /** Changing nothing the secret depends on keeps what the trace shows of it. */
  lemma SameSecret(tr: seq<Entry>, s: ChatSwap, t: ChatSwap)
    requires Linked(tr, s)
    requires t.deal == s.deal && t.secret == s.secret && t.secretHash == s.secretHash
    requires t.redeemSince > 0 ==> s.redeemSince > 0
    requires t.userOk ==> s.userOk
    requires !PreLock(t.stage) && !t.stage.Cancelled? ==> !PreLock(s.stage) && !s.stage.Cancelled?
    ensures Linked(tr, t)
  {
    if SecretMade(tr, s) {
      var j :| 0 <= j < |tr| && Makes(tr[j], s);
      assert Makes(tr[j], t);
    }
  }

  lemma ChangeKeeps(c: Config, st: State, id: string, t: ChatSwap)
    requires Inv(c, st) && id in st.swaps && Sound(t) && Linked(st.trace, t) && t.deal.id == id
    requires PreLock(t.stage) ==> PreLock(st.swaps[id].stage)
    requires st.flight.Some? && st.flight.value.id == id ==> Interleaved(st.flight.value.before, t)
    ensures Inv(c, st.(swaps := st.swaps[id := t]))
  {
    hide Inv, Linked, Sound, Interleaved;
    assert st.trace + [] == st.trace;
    StoreKeeps(c, st, id, t, []);
  }

  lemma CancelKeeps(c: Config, st: State, id: string)
    requires Inv(c, st)
    ensures Inv(c, Next(c, st, Cancel(id)))
  {
    hide Justified, AllJustified, Linked;
    if id in st.swaps && CancelResult(st.swaps[id]).Some? {
      SameSecret(st.trace, st.swaps[id], CancelResult(st.swaps[id]).value);
      ChangeKeeps(c, st, id, CancelResult(st.swaps[id]).value);
    }
  }

  lemma RedirectKeeps(c: Config, st: State, id: string, address: string)
    requires Inv(c, st)
    ensures Inv(c, Next(c, st, Redirect(id, address)))
  {
    hide Justified, AllJustified, Linked;
    if id in st.swaps && CanRedirect(st.swaps[id], address) {
      SameSecret(st.trace, st.swaps[id], st.swaps[id].(destination := address));
      ChangeKeeps(c, st, id, st.swaps[id].(destination := address));
    }
  }

  lemma SteppedKeeps(tr: seq<Entry>, s: ChatSwap, st: Step, now: int, shapeOk: bool)
    requires Sound(s) && Linked(tr, s)
    ensures
      var t := Stepped(s, st, now, shapeOk);
      && Sound(t) && Linked(tr, t) && t.deal == s.deal
      && Rank(s.stage) <= Rank(t.stage) && (IsFinal(s.stage) ==> t == s)
  {
    hide Linked;
    SameSecret(tr, s, Stepped(s, st, now, shapeOk));
  }

  lemma FreshOk(tr: seq<Entry>, deal: Deal, theirRecv: string, stage: Stage)
    requires if deal.maker then stage.TakeReceived? else stage.Inviting?
    ensures Sound(Fresh(deal, theirRecv, stage)) && Linked(tr, Fresh(deal, theirRecv, stage))
    ensures Fresh(deal, theirRecv, stage).deal == deal
  {
  }

  lemma ReceiveKeeps(c: Config, st: State, e: Event)
    requires Inv(c, st) && e.Receive? && st.flight.None?
    ensures Inv(c, Next(c, st, e))
  {
    hide Justified, AllJustified, Linked, Sound, Stepped, Fresh;
    if e.step.Take? {
      if e.id !in st.swaps && e.mine.Some? && e.mine.value == e.step.terms {
        var o := e.mine.value;
        var deal := Deal(e.id, e.peer, e.step.offerId, true, o.give, o.giveAmount, o.want, o.wantAmount, e.now);
        NewKeeps(c, st, deal, e.step.to, TakeReceived);
      }
    } else if e.id in st.swaps && st.swaps[e.id].deal.peer == e.peer {
      SteppedKeeps(st.trace, st.swaps[e.id], e.step, e.now, e.shapeOk);
      ChangeKeeps(c, st, e.id, Stepped(st.swaps[e.id], e.step, e.now, e.shapeOk));
    }
  }

  lemma NewKeeps(c: Config, st: State, deal: Deal, to: string, stage: Stage)
    requires Inv(c, st) && deal.id !in st.swaps
    requires if deal.maker then stage.TakeReceived? else stage.Inviting?
    ensures Inv(c, st.(swaps := st.swaps[deal.id := Fresh(deal, to, stage)]))
  {
    hide Justified, AllJustified, Linked, Sound;
    assert st.trace + [] == st.trace;
    FreshOk(st.trace, deal, to, stage);
    StoreKeeps(c, st, deal.id, Fresh(deal, to, stage), []);
  }

  lemma WorkKeeps(c: Config, st: State, w: World)
    requires Inv(c, st)
    ensures Inv(c, Next(c, st, Work(w)))
  {
    if st.flight.Some? && st.flight.value.after.None? {
      TickedKeeps(c, st, w);
    }
  }

  lemma TickedKeeps(c: Config, st: State, w: World)
    requires Inv(c, st) && st.flight.Some? && st.flight.value.after.None?
    ensures Inv(c, Next(c, st, Work(w)))
  {
    hide Justified, AllJustified, Linked, TickResult, Sound, Interleaved;
    var s := st.flight.value.before;
    TickKeeps(c, s, w);
    var r := TickResult(c, s, w);
    var n := Next(c, st, Work(w));
    WorkJustified(c, st.trace, s, r.calls);
    WorkLinked(c, st.trace, s, w);
    LinkedLonger(st.trace, Entries(s, r.calls), s);
    forall k | k in st.swaps ensures Linked(n.trace, n.swaps[k]) {
      LinkedLonger(st.trace, Entries(s, r.calls), st.swaps[k]);
    }
  }

  lemma MergeLinked(c: Config, tr: seq<Entry>, before: ChatSwap, w: World, stored: ChatSwap)
    requires Sound(before) && Interleaved(before, stored) && Linked(tr, stored)
    requires Linked(tr, TickResult(c, before, w).swap)
    ensures Linked(tr, Merged(before, TickResult(c, before, w).swap, stored))
  {
    hide TickResult, Sound;
    MergeExact(c, before, w, stored);
    TickKeeps(c, before, w);
    var after := TickResult(c, before, w).swap;
    var m := Merged(before, after, stored);
    if m.userOk {
      assert Approved(tr, m.deal.id);
    }
    SameSecret(tr, after, m.(userOk := after.userOk));
    if SecretMade(tr, m.(userOk := after.userOk)) {
      var j :| 0 <= j < |tr| && Makes(tr[j], m.(userOk := after.userOk));
      assert Makes(tr[j], m);
    }
  }

  lemma MergeKeeps(c: Config, st: State)
    requires Inv(c, st)
    ensures Inv(c, Next(c, st, Merge))
  {
    hide TickResult, Sound, Linked, Merged, Interleaved, AllJustified;
    if st.flight.Some? && st.flight.value.after.Some? {
      var f := st.flight.value;
      var w :| f.after.value == TickResult(c, f.before, w);
      MergeExact(c, f.before, w, st.swaps[f.id]);
      MergeLinked(c, st.trace, f.before, w, st.swaps[f.id]);
      TickKeeps(c, f.before, w);
    }
  }

  /** A copy taken, or one thrown away. */
  lemma CopyKeeps(c: Config, st: State, e: Event)
    requires Inv(c, st) && (e.Begin? || e.Abort?)
    ensures Inv(c, Next(c, st, e))
  {
    hide Linked, Sound, AllJustified;
  }

  lemma NextKeeps(c: Config, st: State, e: Event)
    requires Inv(c, st)
    ensures Inv(c, Next(c, st, e))
  {
    hide Inv;
    match e
    case Begin(_) | Abort => CopyKeeps(c, st, e);
    case Work(w) => WorkKeeps(c, st, w);
    case Merge => MergeKeeps(c, st);
    case Receive(_, _, _, _, _, _) =>
      if st.flight.None? {
        ReceiveKeeps(c, st, e);
      }
    case TakeOffer(id, peer, offerId, o, now) =>
      if id !in st.swaps {
        NewKeeps(c, st, Deal(id, peer, offerId, false, o.want, o.wantAmount, o.give, o.giveAmount, now), "", Inviting);
      }
    case Approve(id) =>
      if id in st.swaps && CanApprove(st.swaps[id]) {
        ApproveKeeps(c, st, id);
      }
    case Cancel(id) => CancelKeeps(c, st, id);
    case Redirect(id, address) => RedirectKeeps(c, st, id, address);
  }

  lemma {:induction false} RunKeeps(c: Config, st: State, events: seq<Event>)
    requires Inv(c, st)
    ensures Inv(c, Run(c, st, events))
    decreases |events|
  {
    hide Inv, Next;
    if events != [] {
      RunKeeps(c, st, events[..|events| - 1]);
      NextKeeps(c, Run(c, st, events[..|events| - 1]), events[|events| - 1]);
    }
  }

  // ---- the main results ------------------------------------------------------------------------

  ghost predicate Reachable(c: Config, st: State) {
    exists events :: st == Run(c, Empties, events)
  }

  lemma ReachableInv(c: Config, st: State)
    requires Reachable(c, st)
    ensures Inv(c, st)
  {
    var events :| st == Run(c, Empties, events);
    RunKeeps(c, Empties, events);
  }

  /** No event moves a swap back, and none moves it out of a final stage. */
  lemma NeverBack(c: Config, st: State, e: Event, id: string)
    requires Inv(c, st) && id in st.swaps
    ensures
      var n := Next(c, st, e);
      && id in n.swaps && n.swaps[id].deal == st.swaps[id].deal
      && Rank(st.swaps[id].stage) <= Rank(n.swaps[id].stage)
      && (IsFinal(st.swaps[id].stage) ==> n.swaps[id].stage == st.swaps[id].stage)
  {
    hide TickResult, Linked, AllJustified, Merged, Stepped, Sound, KeepsCalls;
    match e
    case Merge =>
      if st.flight.Some? && st.flight.value.after.Some? && st.flight.value.id == id {
        var f := st.flight.value;
        var w :| f.after.value == TickResult(c, f.before, w);
        MergeExact(c, f.before, w, st.swaps[id]);
        TickKeeps(c, f.before, w);
      }
    case Receive(_, sid, step, now, _, shapeOk) =>
      SteppedKeeps(st.trace, st.swaps[id], step, now, shapeOk);
    case _ =>
  }

  lemma {:induction false} NeverBackRun(c: Config, st: State, events: seq<Event>, id: string)
    requires Inv(c, st) && id in st.swaps
    ensures
      var n := Run(c, st, events);
      && id in n.swaps && n.swaps[id].deal == st.swaps[id].deal
      && Rank(st.swaps[id].stage) <= Rank(n.swaps[id].stage)
      && (IsFinal(st.swaps[id].stage) ==> n.swaps[id].stage == st.swaps[id].stage)
    decreases |events|
  {
    hide Inv, Next;
    if events != [] {
      NeverBackRun(c, st, events[..|events| - 1], id);
      RunKeeps(c, st, events[..|events| - 1]);
      NeverBack(c, Run(c, st, events[..|events| - 1]), events[|events| - 1], id);
    }
  }

  /** A cancel that was not refused is never lost, wherever in a round it lands and
      whatever follows: the swap ends there, or, with a contract of ours out, it never
      waits for a payment and never counts as locked again. */
  lemma CancelStands(c: Config, st: State, id: string, events: seq<Event>)
    requires Reachable(c, st) && id in st.swaps && CancelResult(st.swaps[id]).Some?
    ensures
      var end := Run(c, Next(c, st, Cancel(id)), events);
      && id in end.swaps
      && (if st.swaps[id].stage.WaitPayment?
          then Rank(end.swaps[id].stage) == 3
          else end.swaps[id].stage.Cancelled? && Empty(end.swaps[id].mine.txid))
  {
    hide AllJustified, Linked;
    ReachableInv(c, st);
    var n := Next(c, st, Cancel(id));
    NextKeeps(c, st, Cancel(id));
    NeverBackRun(c, n, events, id);
    RunKeeps(c, n, events);
  }

  /** No cancelled swap has a funding of ours, in any reachable state. */
  lemma CancelledUnfunded(c: Config, st: State, id: string)
    requires Reachable(c, st) && id in st.swaps && st.swaps[id].stage.Cancelled?
    ensures Empty(st.swaps[id].mine.txid)
  {
    hide AllJustified, Linked, FlightOk;
    ReachableInv(c, st);
  }

  /** The first call that carries a maker's secret comes right after an audit that showed
      the counter-contract, the very one redeemed, paying us: our address, the exact
      amount, unspent, confirmed and with the time left.  The secret is the one our own
      wallet made for our lock. */
  lemma SecretShownOnlyAudited(c: Config, st: State, i: nat)
    requires Reachable(c, st) && i < |st.trace| && st.trace[i].Did?
    requires st.trace[i].call.Redeem? && st.trace[i].who.deal.maker
    requires forall j :: 0 <= j < i ==> !IsRedeem(st.trace[j], st.trace[i].who.deal.id)
    ensures
      var s, call := st.trace[i].who, st.trace[i].call;
      && call.secret == s.secret && call.contract == s.theirs.code && call.ref == TheirRef(s)
      && SecretMade(st.trace[..i], s)
      && i > 0 && st.trace[i - 1].Did? && st.trace[i - 1].who == s
      && Audited(c, s, st.trace[i - 1].call, c.makerMinLeft)
      && (Empty(s.secretHash) || st.trace[i - 1].call.audit.value.secretHash == s.secretHash)
  {
    hide StoredOk, FlightOk, Audited, SecretMade;
    ReachableInv(c, st);
    assert Justified(c, st.trace, i);
    assert forall j :: 0 <= j < i ==> st.trace[..i][j] == st.trace[j];
  }

  /** Every lock answer named its hash. */
  ghost predicate HashesNamed(tr: seq<Entry>) {
    forall j :: 0 <= j < |tr| && tr[j].Did? && tr[j].call.Initiate? && Locks(tr[j].call.answer) ==>
      !Empty(Or(tr[j].call.answer.value.secretHash, ""))
  }

  /** With a wallet that names the hash of every lock it makes, the audited hash is that
      hash: the secret is shown only against a contract it opens for us. */
  lemma SecretShownUnderOurHash(c: Config, st: State, i: nat)
    requires Reachable(c, st) && i < |st.trace| && st.trace[i].Did? && HashesNamed(st.trace)
    requires st.trace[i].call.Redeem? && st.trace[i].who.deal.maker
    requires forall j :: 0 <= j < i ==> !IsRedeem(st.trace[j], st.trace[i].who.deal.id)
    ensures i > 0 && st.trace[i - 1].Did? && st.trace[i - 1].call.AuditTheirs? && st.trace[i - 1].call.audit.Some?
    ensures exists j :: 0 <= j < i && Makes(st.trace[j], st.trace[i].who)
                        && st.trace[j].call.answer.value.secretHash == Some(st.trace[i - 1].call.audit.value.secretHash)
  {
    hide Reachable;
    SecretShownOnlyAudited(c, st, i);
    var s := st.trace[i].who;
    var j :| 0 <= j < i && Makes(st.trace[..i][j], s);
    assert st.trace[..i][j] == st.trace[j];
    assert Makes(st.trace[j], s);
  }

  /** A taker locks only right after its own audit of the maker's contract, under the hash
      that audit showed, for the agreed amount, with the person's approval given before. */
  lemma TakerLocksOnlyAudited(c: Config, st: State, i: nat)
    requires Reachable(c, st) && i < |st.trace| && st.trace[i].Did? && st.trace[i].call.Participate?
    ensures
      var s, call := st.trace[i].who, st.trace[i].call;
      && !s.deal.maker && call.amount == s.deal.giveAmount && call.to == s.theirRecv
      && Approved(st.trace[..i], s.deal.id)
      && i > 0 && st.trace[i - 1].Did? && st.trace[i - 1].who == s
      && Audited(c, s, st.trace[i - 1].call, c.takerMinLeft)
      && st.trace[i - 1].call.audit.value.secretHash == call.hash
  {
    hide StoredOk, FlightOk, Audited, Approved;
    ReachableInv(c, st);
    assert Justified(c, st.trace, i);
  }

  /** A redeem is sent again with more fee only after a first one, and a refund goes out
      only right after an audit of our own contract that showed its lock run out. */
  lemma LaterCallsRest(c: Config, st: State, i: nat)
    requires Reachable(c, st) && i < |st.trace| && st.trace[i].Did?
    ensures st.trace[i].call.Redeem? && st.trace[i].call.fee.Some? ==>
              exists j :: 0 <= j < i && IsRedeem(st.trace[j], st.trace[i].who.deal.id)
    ensures st.trace[i].call.Refund? ==>
              && i > 0 && st.trace[i - 1].Did? && st.trace[i - 1].who == st.trace[i].who
              && st.trace[i - 1].call.AuditMine? && st.trace[i - 1].call.contract == st.trace[i].call.contract
              && st.trace[i - 1].call.ref == st.trace[i].call.ref
              && st.trace[i - 1].call.left <= 0
  {
    hide StoredOk, FlightOk, Audited, Approved, SecretMade;
    ReachableInv(c, st);
    assert Justified(c, st.trace, i);
    if Redeemed(st.trace[..i], st.trace[i].who.deal.id) {
      var j :| 0 <= j < i && IsRedeem(st.trace[..i][j], st.trace[i].who.deal.id);
      assert IsRedeem(st.trace[j], st.trace[i].who.deal.id);
    }
  }

  /** A wallet that answers nothing, at time zero. */
  const Silent := World(0, 0, 0, 0, false, false, false, false, Some("mine"), false, None, None, None, None, None,
                        None, None, None, None, None, None, None)

  /** Our offer of a coin of BTF against one of BTC, taken. */
  const OfferTaken := Receive("p", "s", Take("o", Offer(BTF, 1, BTC, 1), "to"), 0, Some(Offer(BTF, 1, BTC, 1)), true)

  function TakenOnce(): ChatSwap { Fresh(Deal("s", "p", "o", true, BTF, 1, BTC, 1, 0), "to", TakeReceived) }

  lemma OfferTakenMeans(c: Config)
    ensures Next(c, Empties, OfferTaken) == State(map["s" := TakenOnce()], None, [], multiset{})
  {
  }

  /** The audit is held against our hash exactly when the lock's answer had named one.
      With an empty hash there is, for every hash whatever, a world in which the maker
      shows the secret to a contract under that hash. */
  lemma HashHeldExactly(c: Config, s: ChatSwap)
    requires Sound(s) && s.stage.Redeeming? && s.deal.maker && s.redeemSince <= 0
    ensures !Empty(s.secretHash) ==> forall w :: Shows(c, s, w) ==> w.theirs.Some? && w.theirs.value.secretHash == s.secretHash
    ensures Empty(s.secretHash) <==>
            forall hash: string :: |hash| == 64 ==> exists w :: Shows(c, s, w) && w.theirs.Some? && w.theirs.value.secretHash == hash
  {
    if Empty(s.secretHash) {
      forall hash: string | |hash| == 64
        ensures exists w :: Shows(c, s, w) && w.theirs.Some? && w.theirs.value.secretHash == hash
      {
        var w := ShownUnderAny(c, s, hash);
      }
    } else {
      forall w | Shows(c, s, w) ensures w.theirs.Some? && w.theirs.value.secretHash == s.secretHash {
        UnderOurs(c, s, w);
      }
      var a: string, b: string := seq(64, _ => 'a'), seq(64, _ => 'b');
      assert a[0] != b[0];
      var other := if s.secretHash == a then b else a;
      assert |other| == 64 && !exists w :: Shows(c, s, w) && w.theirs.Some? && w.theirs.value.secretHash == other;
    }
  }

  /** The tick makes the call that carries the secret. */
  ghost predicate Shows(c: Config, s: ChatSwap, w: World) {
    exists i :: 0 <= i < |TickResult(c, s, w).calls| && TickResult(c, s, w).calls[i].Redeem?
  }

  lemma ShownUnderAny(c: Config, s: ChatSwap, hash: string) returns (w: World)
    requires s.stage.Redeeming? && s.deal.maker && s.redeemSince <= 0 && Empty(s.secretHash) && |hash| == 64
    ensures Shows(c, s, w) && w.theirs.Some? && w.theirs.value.secretHash == hash
    ensures TickResult(c, s, w).calls == [AuditCall(s, w), Redeem(s.theirs.code, TheirRef(s), s.secret, PayTo(s.deal.want, s), None)]
  {
    var left := if c.makerMinLeft > 0 then c.makerMinLeft else 0;
    var a := Audit(true, s.myRecv, hash, MinConfirmations(c, s.deal.want), true, s.deal.wantAmount,
                   Some(left), Some(left), "", 0, 0);
    assert PaysUs(c, s, c.makerMinLeft, a);
    w := Silent.(theirs := Some(a));
    var calls := TickResult(c, s, w).calls;
    assert calls == [AuditCall(s, w), Redeem(s.theirs.code, TheirRef(s), s.secret, PayTo(s.deal.want, s), None)];
    assert calls[1].Redeem?;
  }

  lemma UnderOurs(c: Config, s: ChatSwap, w: World)
    requires s.stage.Redeeming? && s.deal.maker && s.redeemSince <= 0 && !Empty(s.secretHash) && Shows(c, s, w)
    ensures w.theirs.Some? && w.theirs.value.secretHash == s.secretHash
  {
    hide PaysUs, RedeemResult;
  }

  /** A wallet that locks and names the secret, not its hash. */
  const Unnamed := Silent.(lock := Some(LockAnswer(Some("c"), Some("t"), false, "", None, Some("x"), None)))

  /** Our offer is taken, approved and locked by such a wallet, and the peer locks too. */
  const UnnamedLock := [
    OfferTaken, Approve("s"), Begin("s"), Work(Unnamed), Merge,
    Receive("p", "s", Lock2(BTC, "c2", "t2", 0), 0, None, true)]

  function LockedUnnamed(): ChatSwap {
    TakenOnce().(userOk := true, myRecv := "mine", mine := Contract("c", "t", -1), secret := "x", stage := Locked)
  }

  function RedeemsUnnamed(): ChatSwap {
    LockedUnnamed().(theirs := Contract("c2", "t2", 0), stage := Redeeming)
  }

  lemma UnnamedSteps(c: Config)
    ensures
      var ok := TakenOnce().(userOk := true);
      var r := TickResult(c, ok, Unnamed);
      && r == Outcome(LockedUnnamed(), [Initiate("to", 1, Unnamed.lock)])
      && Merged(ok, r.swap, ok) == LockedUnnamed()
      && Stepped(LockedUnnamed(), Lock2(BTC, "c2", "t2", 0), 0, true) == RedeemsUnnamed()
  {
  }

  /** The run before, state by state. */
  lemma UnnamedRun(c: Config) returns (st: State)
    ensures st == Run(c, Empties, UnnamedLock)
    ensures st.swaps == map["s" := RedeemsUnnamed()] && st.flight.None?
    ensures |st.trace| == 2 && st.trace[0].Approval? && st.trace[1].Did? && st.trace[1].call.Initiate?
  {
    hide TickResult, Merged, Stepped;
    var e, ok := UnnamedLock, TakenOnce().(userOk := true);
    OfferTakenMeans(c);
    UnnamedSteps(c);
    var r := TickResult(c, ok, Unnamed);
    assert Entries(ok, r.calls) == [Did(ok, r.calls[0])];
    var s1 := State(map["s" := TakenOnce()], None, [], multiset{});
    var s2 := State(map["s" := ok], None, [Approval("s")], multiset{});
    var s3 := s2.(flight := Some(Flight("s", ok, None)));
    var s4 := s3.(flight := Some(Flight("s", ok, Some(r))), trace := [Approval("s"), Did(ok, r.calls[0])]);
    var s5 := s4.(flight := None, swaps := map["s" := LockedUnnamed()]);
    st := s5.(swaps := map["s" := RedeemsUnnamed()]);
    assert Next(c, s4, Merge) == s5;
    assert Next(c, s5, e[5]) == st;
    RunThrough(c, e, [Empties, s1, s2, s3, s4, s5, st]);
  }

  /** From an empty engine there is, for every hash whatever, a run in which the maker
      shows the wallet's secret for the first time to a contract under that hash. */
  lemma SecretShownUnderAnyHash(c: Config, hash: string) returns (w: World)
    requires |hash| == 64
    ensures
      var tr := Run(c, Empties, UnnamedLock + [Begin("s"), Work(w)]).trace;
      var n := |tr| - 1;
      && n >= 1 && IsRedeem(tr[n], "s") && tr[n].who.deal.maker && tr[n].call.secret == "x"
      && (forall j :: 0 <= j < n ==> !IsRedeem(tr[j], "s"))
      && tr[n - 1].Did? && tr[n - 1].call.AuditTheirs? && tr[n - 1].call.audit.Some?
      && tr[n - 1].call.audit.value.secretHash == hash
  {
    hide Run, Next, TickResult, Shows, Entries, Audited, PaysUs;
    var st := UnnamedRun(c);
    var s := RedeemsUnnamed();
    w := ShownUnderAny(c, s, hash);
    RunOn(c, UnnamedLock, [Begin("s"), Work(w)]);
    OneTick(c, st, "s", w);
    LastTwo(st.trace, s, TickResult(c, s, w).calls);
  }

  lemma OneTick(c: Config, st: State, id: string, w: World)
    requires st.flight.None? && id in st.swaps
    ensures Run(c, st, [Begin(id), Work(w)]).trace == st.trace + Entries(st.swaps[id], TickResult(c, st.swaps[id], w).calls)
  {
    hide TickResult;
    var e, s1 := [Begin(id), Work(w)], st.(flight := Some(Flight(id, st.swaps[id], None)));
    RunThrough(c, e, [st, s1, Next(c, s1, e[1])]);
  }

  lemma LastTwo(tr: seq<Entry>, s: ChatSwap, calls: seq<Call>)
    requires |calls| == 2
    ensures tr + Entries(s, calls) == tr + [Did(s, calls[0]), Did(s, calls[1])]
  {
    assert Entries(s, calls) == [Did(s, calls[0]), Did(s, calls[1])];
  }

  lemma {:induction false} RunOn(c: Config, events: seq<Event>, more: seq<Event>)
    ensures Run(c, Empties, events + more) == Run(c, Run(c, Empties, events), more)
    decreases |more|
  {
    hide Next;
    if more == [] {
      assert events + more == events;
    } else {
      var k := |more| - 1;
      assert (events + more)[..|events| + k] == events + more[..k];
      RunOn(c, events, more[..k]);
    }
  }
}
