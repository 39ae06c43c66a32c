/** When an approval pressed while a round works on a copy survives (src/btfchatswap.cpp,
    `Round` and `Approve`). */
module SwapPresses {
  import opened Options
  import opened Swaps
  import opened SwapSteps
  import opened SwapRuns
  import opened SwapApprovals

  /** The tick took the approval it worked on back: nowhere to pay, no address of ours, or
      a lock the wallet did not answer. */
  predicate TakenBack(c: Config, s: ChatSwap, w: World) {
    || Unpayable(s, w)
    || (s.stage.TakeReceived? && ((Empty(s.myRecv) && w.address.None?) || !Locks(w.lock)))
    || (s.stage.ReadyToLock? && CheckTheirs(c, s, c.takerMinLeft, "", w.theirs).Good? && !Locks(w.lock))
  }

  /** An approved swap comes out of a tick without its approval exactly if the tick took it
      back, and then its stage is what it was. */
  lemma TakenBackExactly(c: Config, s: ChatSwap, w: World)
    requires CanApprove(s) && s.userOk
    ensures
      var t := TickResult(c, s, w).swap;
      && (!t.userOk <==> TakenBack(c, s, w))
      && (TakenBack(c, s, w) ==> t.stage == s.stage)
  {
  }

  /** The approval on a stored swap outlives the merge: of a copy taken without one exactly
      if the tick left the stage alone, of a copy that had one exactly if the tick did not
      take that one back, whether it was pressed again meanwhile or not. */
  lemma ApprovalStands(c: Config, st: State, w: World)
    requires Reachable(c, st) && st.flight.Some?
    requires st.flight.value.after == Some(TickResult(c, st.flight.value.before, w))
    ensures
      var f, n := st.flight.value, Next(c, st, Merge);
      && f.id in st.swaps && f.id in n.swaps
      && (st.swaps[f.id].userOk && CanApprove(st.swaps[f.id]) ==>
            && (n.swaps[f.id].userOk <==>
                  if f.before.userOk then !TakenBack(c, f.before, w)
                  else f.after.value.swap.stage == f.before.stage)
            && (!n.swaps[f.id].userOk && f.before.userOk ==> n.swaps[f.id].stage == st.swaps[f.id].stage))
  {
    hide StoredOk, AllJustified, Linked, TickResult, TakenBack;
    ReachableInv(c, st);
    var f := st.flight.value;
    MergeExact(c, f.before, w, st.swaps[f.id]);
    if st.swaps[f.id].userOk && CanApprove(st.swaps[f.id]) && f.before.userOk {
      TakenBackExactly(c, f.before, w);
    }
  }

  /** One swap's part of a round with the approval pressed in the middle of it, before or
      after the tick. */
  function Pressed(id: string, w: World, late: bool): seq<Event> {
    if late then [Begin(id), Work(w), Approve(id), Merge] else [Begin(id), Approve(id), Work(w), Merge]
  }

  lemma PressedRun(c: Config, st: State, id: string, w: World, late: bool)
    requires st.flight.None? && id in st.swaps && CanApprove(st.swaps[id])
    ensures
      var s, end := st.swaps[id], Run(c, st, Pressed(id, w, late));
      end.swaps == st.swaps[id := Merged(s, TickResult(c, s, w).swap, s.(userOk := true))]
  {
    hide TickResult, Merged, Received, CancelResult;
    var e, s := Pressed(id, w, late), st.swaps[id];
    var f := Flight(id, s, None);
    var s1 := st.(flight := Some(f));
    var s2 := if late then WorkedOn(st, f, TickResult(c, s, w)) else ApprovedBy(s1, id);
    var s3 := if late then ApprovedBy(s2, id) else WorkedOn(s2, f, TickResult(c, s, w));
    assert Next(c, s1, e[1]) == s2;
    assert Next(c, s2, e[2]) == s3;
    RunThrough(c, e, [st, s1, s2, s3, Next(c, s3, e[3])]);
  }

  function WorkedOn(st: State, f: Flight, r: Outcome): State {
    st.(flight := Some(f.(after := Some(r))), trace := st.trace + Entries(f.before, r.calls))
  }

  function ApprovedBy(st: State, id: string): State
    requires id in st.swaps
  {
    st.(swaps := st.swaps[id := st.swaps[id].(userOk := true)], trace := st.trace + [Approval(id)])
  }

  /** In every reachable state: that an approval pressed mid-round survives exactly if the
      stage is unchanged holds, whatever the wallet and the chains answer and whenever it
      is pressed, if and only if the swap was not approved when the round began. */
  lemma ApprovalRule(c: Config, st: State, id: string)
    requires Reachable(c, st) && st.flight.None? && id in st.swaps && CanApprove(st.swaps[id])
    ensures
      (forall w, late {:trigger Pressed(id, w, late)} ::
         var end := Run(c, st, Pressed(id, w, late));
         id in end.swaps && (end.swaps[id].userOk <==> end.swaps[id].stage == st.swaps[id].stage))
      <==> !st.swaps[id].userOk
  {
    hide TickResult, Merged, Run, StoredOk, FlightOk, AllJustified, Linked, Reachable;
    var s := st.swaps[id];
    if s.userOk {
      var w := Silent.(light := true);
      PressedRun(c, st, id, w, false);
      TakenBackExactly(c, s, w);
      LostAnyway(s, TickResult(c, s, w).swap);
      assert !(var end := Run(c, st, Pressed(id, w, false));
               id in end.swaps && (end.swaps[id].userOk <==> end.swaps[id].stage == st.swaps[id].stage));
    } else {
      forall w, late
        ensures var end := Run(c, st, Pressed(id, w, late));
                id in end.swaps && (end.swaps[id].userOk <==> end.swaps[id].stage == s.stage)
      {
        PressedRun(c, st, id, w, late);
        SoundStored(c, st, id);
        MergeExact(c, s, w, s.(userOk := true));
      }
    }
  }

  lemma LostAnyway(s: ChatSwap, t: ChatSwap)
    requires s.userOk && CanApprove(s) && !t.userOk && t.stage == s.stage
    ensures !Merged(s, t, s).userOk && Merged(s, t, s).stage == s.stage
  {
  }

  lemma SoundStored(c: Config, st: State, id: string)
    requires Reachable(c, st) && id in st.swaps
    ensures Sound(st.swaps[id])
  {
    hide Reachable, AllJustified, Linked, FlightOk;
    ReachableInv(c, st);
  }

  // ---- runs from an empty engine ---------------------------------------------------------

  /** Approved, and approved again while the round acts on the first; the wallet gives no
      answer to the lock. */
  const ApprovedTwice := [OfferTaken, Approve("s"), Begin("s"), Approve("s"), Work(Silent), Merge]

  /** The second approval is lost although the stage never changed. */
  lemma SecondApprovalLost(c: Config)
    ensures
      var before, end := Run(c, Empties, ApprovedTwice[..5]), Run(c, Empties, ApprovedTwice);
      && "s" in before.swaps && "s" in end.swaps
      && before.swaps["s"].userOk && CanApprove(before.swaps["s"])
      && end.swaps["s"].stage == before.swaps["s"].stage && !end.swaps["s"].userOk
  {
    hide TickResult, Merged, Received, CancelResult;
    var e, ok := ApprovedTwice, TakenOnce().(userOk := true);
    OfferTakenMeans(c);
    var s1 := State(map["s" := TakenOnce()], None, [], multiset{});
    var s2 := State(map["s" := ok], None, [Approval("s")], multiset{});
    var s3 := s2.(flight := Some(Flight("s", ok, None)));
    var s4 := s3.(trace := [Approval("s"), Approval("s")]);
    var s5 := WorkedOn(s4, s3.flight.value, TickResult(c, ok, Silent));
    assert Next(c, s4, e[4]) == s5;
    var states := [Empties, s1, s2, s3, s4, s5, Next(c, s5, e[5])];
    RunThrough(c, e, states);
    RunThrough(c, e[..5], states[..6]);
    TakenBackExactly(c, ok, Silent);
    LostAnyway(ok, TickResult(c, ok, Silent).swap);
  }

  /** The wallet locks, and names the secret and its hash. */
  const Locking := Silent.(lock := Some(LockAnswer(Some("c"), Some("t"), false, "", None, Some("x"), Some("h"))))

  /** An exception throws the answered copy away, and the next round locks again. */
  const TornLock := [OfferTaken, Approve("s"), Begin("s"), Work(Locking), Abort, Begin("s"), Work(Locking)]

  /** Both bounds are reached: one approval, one copy thrown away, two answered locks. */
  lemma LocksTwice(c: Config)
    ensures
      var end := Run(c, Empties, TornLock);
      && Count(Answered, end.trace, "s") == 2 && Count(Tried, end.trace, "s") == 2
      && Count(Granted, end.trace, "s") == 1
      && end.torn == multiset{Torn("s", true)}
  {
    hide TickResult, Received, CancelResult;
    var e, ok := TornLock, TakenOnce().(userOk := true);
    OfferTakenMeans(c);
    LockingTick(c);
    var r := TickResult(c, ok, Locking);
    var did := Did(ok, r.calls[0]);
    assert Entries(ok, r.calls) == [did];
    var s1 := State(map["s" := TakenOnce()], None, [], multiset{});
    var s2 := State(map["s" := ok], None, [Approval("s")], multiset{});
    var s3 := s2.(flight := Some(Flight("s", ok, None)));
    var s4 := s3.(flight := Some(Flight("s", ok, Some(r))), trace := [Approval("s"), did]);
    var s5 := s4.(flight := None, torn := multiset{Torn("s", true)});
    var s6 := s5.(flight := Some(Flight("s", ok, None)));
    var s7 := s6.(flight := Some(Flight("s", ok, Some(r))), trace := [Approval("s"), did, did]);
    assert Next(c, s4, Abort) == s5;
    RunThrough(c, e, [Empties, s1, s2, s3, s4, s5, s6, s7]);
    ThreeCounts(did);
  }

  lemma LockingTick(c: Config)
    ensures
      var ok := TakenOnce().(userOk := true);
      var r := TickResult(c, ok, Locking);
      r.calls == [Initiate("to", 1, Locking.lock)] && ok.deal.id == "s"
  {
  }

  lemma ThreeCounts(did: Entry)
    requires Is(Answered, did, "s")
    ensures
      var tr := [Approval("s"), did, did];
      Count(Answered, tr, "s") == 2 && Count(Tried, tr, "s") == 2 && Count(Granted, tr, "s") == 1
  {
    var tr := [Approval("s"), did, did];
    assert tr[..2] == [Approval("s"), did] && tr[..2][..1] == [Approval("s")] && tr[..1][..0] == [];
    forall kind ensures
      Count(kind, tr, "s") == (if Is(kind, tr[0], "s") then 1 else 0) + (if Is(kind, tr[1], "s") then 2 else 0)
    {
      assert Count(kind, tr[..1], "s") == if Is(kind, tr[0], "s") then 1 else 0;
      assert Count(kind, tr[..2], "s") == Count(kind, tr[..1], "s") + if Is(kind, tr[1], "s") then 1 else 0;
    }
  }
}
