/** What every `Tick` keeps, whatever the wallet, the chains and the clock answer
    (src/btfchatswap.cpp, `SwapEngine::Tick`, `TryRefund`). */
module SwapSteps {
  import opened Options
  import opened Swaps

  /** Nothing of ours is on a chain yet. */
  predicate PreLock(stage: Stage) {
    stage.Inviting? || stage.TakeSent? || stage.TakeReceived? || stage.CheckingTheirs? || stage.ReadyToLock?
  }

  /** How far a swap has come; it never goes back. */
  function Rank(stage: Stage): nat {
    if PreLock(stage) then 0 else if stage.WaitPayment? then 1 else if stage.Locked? then 2 else 3
  }

  ghost predicate Sound(s: ChatSwap) {
    && (PreLock(s.stage) ==> Empty(s.mine.code) && Empty(s.mine.txid))
    && (PreLock(s.stage) ==> (s.stage.TakeReceived? <==> s.deal.maker))
    && (PreLock(s.stage) && s.deal.maker ==> Empty(s.secret) && Empty(s.secretHash))
    && (s.stage.Cancelled? ==> Empty(s.mine.txid))
    && (!PreLock(s.stage) && !s.stage.Cancelled? ==> s.userOk)
    && (s.redeemSince > 0 ==> s.stage.Redeeming?)
  }

  /** No tick touches what was agreed, what the peer gave, or where we want to be paid. */
  predicate SameDeal(s: ChatSwap, t: ChatSwap) {
    && t.deal == s.deal && t.theirRecv == s.theirRecv && t.theirs == s.theirs
    && t.destination == s.destination
  }

  /** The audit just before a call, of the contract the call is about. */
  predicate Audited(c: Config, s: ChatSwap, call: Call, minLeft: int) {
    && call.AuditTheirs? && call.contract == s.theirs.code && call.ref == TheirRef(s)
    && call.audit.Some? && PaysUs(c, s, minLeft, call.audit.value)
  }

  /** Why the `i`-th call of a tick was allowed. */
  predicate Fine(c: Config, s: ChatSwap, calls: seq<Call>, i: nat)
    requires i < |calls|
  {
    match calls[i]
    case Redeem(contract, ref, secret, _, fee) =>
      && s.stage.Redeeming? && contract == s.theirs.code && ref == TheirRef(s) && secret == s.secret
      && (fee.Some? ==> s.redeemSince > 0)
      && (fee.None? && s.deal.maker ==>
            && i > 0 && Audited(c, s, calls[i - 1], c.makerMinLeft)
            && (Empty(s.secretHash) || calls[i - 1].audit.value.secretHash == s.secretHash))
    case Participate(to, amount, hash, _) =>
      && s.stage.ReadyToLock? && s.userOk && to == s.theirRecv && amount == s.deal.giveAmount
      && i > 0 && Audited(c, s, calls[i - 1], c.takerMinLeft)
      && calls[i - 1].audit.value.secretHash == hash
    case Initiate(to, amount, _) =>
      s.stage.TakeReceived? && s.userOk && to == s.theirRecv && amount == s.deal.giveAmount
    case Refund(contract, ref, _) =>
      && (s.stage.Locked? || s.stage.Refunding?) && contract == s.mine.code
      && i > 0 && calls[i - 1].AuditMine? && calls[i - 1].contract == contract && calls[i - 1].ref == ref
      && calls[i - 1].left <= 0
    case _ => true
  }

  /** A call that asks the wallet to lock our coin, whatever it answers. */
  predicate TriesLock(call: Call) { call.Initiate? || call.Participate? }

  predicate LocksOurs(call: Call) { TriesLock(call) && Locks(call.answer) }

  ghost predicate AllFine(c: Config, s: ChatSwap, calls: seq<Call>) {
    forall i: nat :: i < |calls| ==> Fine(c, s, calls, i)
  }

  /** The maker's secret and hash come from the wallet's answer to the lock, and from
      nowhere else. */
  ghost predicate SecretFrom(s: ChatSwap, r: Outcome) {
    if PreLock(s.stage) && !PreLock(r.swap.stage) && !r.swap.stage.Cancelled?
    then exists i :: 0 <= i < |r.calls| && MadeIn(r.swap, r.calls[i])
    else r.swap.secret == s.secret && r.swap.secretHash == s.secretHash
  }

  predicate MadeIn(s: ChatSwap, call: Call) {
    && call.Initiate? && Locks(call.answer)
    && s.secret == Or(call.answer.value.secret, "") && s.secretHash == Or(call.answer.value.secretHash, "")
  }

  /** What a tick leaves true of the record. */
  ghost predicate KeepsRecord(s: ChatSwap, t: ChatSwap) {
    && SameDeal(s, t)
    && Sound(t)
    && Rank(s.stage) <= Rank(t.stage)
    && (t.userOk ==> s.userOk)
    && (!s.userOk ==> t.stage == s.stage || PreLock(t.stage) || t.stage.Cancelled?)
    && (!PreLock(s.stage) ==> t.mine.code == s.mine.code)
  }

  /** What its calls have to do with the record. */
  ghost predicate KeepsCalls(c: Config, s: ChatSwap, r: Outcome) {
    && (r.swap.redeemSince > 0 ==> s.redeemSince > 0 || exists i :: 0 <= i < |r.calls| && r.calls[i].Redeem?)
    && (s.deal.maker ==> SecretFrom(s, r))
    && (PreLock(r.swap.stage) || r.swap.stage.Cancelled? ==> forall i :: 0 <= i < |r.calls| ==> !LocksOurs(r.calls[i]))
    && (forall i, j :: 0 <= i < j < |r.calls| ==> !TriesLock(r.calls[i]) || !TriesLock(r.calls[j]))
    && (PreLock(r.swap.stage) && r.swap.userOk ==> forall i :: 0 <= i < |r.calls| ==> !TriesLock(r.calls[i]))
    && AllFine(c, s, r.calls)
  }

  lemma InvitingKeeps(c: Config, s: ChatSwap, w: World)
    requires Sound(s) && s.stage.Inviting?
    ensures KeepsRecord(s, InvitingResult(c, s, w).swap) && KeepsCalls(c, s, InvitingResult(c, s, w))
  {
    hide Locks, TakeOf;
  }

  lemma TakeReceivedKeeps(c: Config, s: ChatSwap, w: World)
    requires Sound(s) && s.stage.TakeReceived?
    ensures KeepsRecord(s, TakeReceivedResult(c, s, w).swap) && KeepsCalls(c, s, TakeReceivedResult(c, s, w))
  {
    var r := TakeReceivedResult(c, s, w);
    if s.userOk && Locks(w.lock) && |r.calls| > 0 {
      assert MadeIn(r.swap, r.calls[0]);
    }
  }

  lemma CheckingKeeps(c: Config, s: ChatSwap, w: World)
    requires Sound(s) && (s.stage.CheckingTheirs? || s.stage.ReadyToLock?)
    ensures KeepsRecord(s, CheckingResult(c, s, w).swap)
  {
    hide PaysUs, AuditCall, CheckTheirs;
  }

  lemma CheckingCalls(c: Config, s: ChatSwap, w: World)
    requires Sound(s) && (s.stage.CheckingTheirs? || s.stage.ReadyToLock?)
    ensures KeepsCalls(c, s, CheckingResult(c, s, w))
  {
    hide PaysUs, CheckTheirs, RefOf;
  }

  lemma WaitPaymentKeeps(c: Config, s: ChatSwap, w: World)
    requires Sound(s) && s.stage.WaitPayment?
    ensures KeepsRecord(s, WaitPaymentResult(c, s, w).swap) && KeepsCalls(c, s, WaitPaymentResult(c, s, w))
  {
    hide Funded, MinConfirmations;
  }

  /** A refund changes nothing but the refund's own fields and the stage. */
  ghost predicate RefundOnly(s: ChatSwap, t: ChatSwap) {
    && t == s.(refundTxid := t.refundTxid, refundSince := t.refundSince, stage := t.stage)
    && (t.stage == s.stage || t.stage.Refunding? || t.stage.Refunded? || t.stage.Done?)
  }

  lemma RefundKeeps(s: ChatSwap, w: World)
    ensures RefundOnly(s, RefundResult(s, w).swap)
  {
    hide Left, RefOf;
  }

  lemma RefundCalls(c: Config, s: ChatSwap, w: World)
    requires s.stage.Locked? || s.stage.Refunding?
    ensures AllFine(c, s, RefundResult(s, w).calls)
    ensures forall i :: 0 <= i < |RefundResult(s, w).calls| ==> !TriesLock(RefundResult(s, w).calls[i])
  {
    hide Left, RefOf;
  }

  /** The swap whose refund is tried, with the funding a late payment turned out to have. */
  ghost predicate FundingOnly(s: ChatSwap, t: ChatSwap) {
    && t == s.(mine := t.mine, refundTxid := t.refundTxid, refundSince := t.refundSince)
    && t.mine.code == s.mine.code
  }

  lemma TryRefundIs(c: Config, s: ChatSwap, w: World) returns (t: ChatSwap)
    ensures FundingOnly(s, t)
    ensures
      var r := TryRefundResult(c, s, w);
      || r == RefundResult(t, w)
      || (r.calls == [] && RefundOnly(t, r.swap))
      || (r.calls == [] && r.swap == t.(stage := Cancelled) && Empty(t.mine.txid))
  {
    hide Left, RefOf, RefundResult, AwaitsRefund, Funded;
    t := Settled(s, w);
    if AwaitsRefund(c, s, w) {
      t := s;
    } else if (!t.deal.maker && !Empty(t.refundTxid)) || t.deal.give.BTF? || !Empty(t.mine.txid) || w.unpaid.None? {
    } else if Funded(w.unpaid.value) {
      t := t.(mine := Contract(t.mine.code, w.unpaid.value.funding, w.unpaid.value.vout));
    }
  }

  lemma TryRefundKeeps(c: Config, s: ChatSwap, w: World)
    requires Sound(s) && (s.stage.Locked? || s.stage.Refunding?)
    ensures KeepsRecord(s, TryRefundResult(c, s, w).swap)
  {
    hide TryRefundResult, RefundResult;
    var t := TryRefundIs(c, s, w);
    RefundKeeps(t, w);
  }

  lemma TryRefundCalls(c: Config, s: ChatSwap, w: World)
    requires Sound(s) && (s.stage.Locked? || s.stage.Refunding?)
    ensures KeepsCalls(c, s, TryRefundResult(c, s, w))
    ensures TryRefundResult(c, s, w).swap.redeemSince == s.redeemSince
  {
    hide TryRefundResult, RefundResult;
    var t := TryRefundIs(c, s, w);
    RefundKeeps(t, w);
    RefundCalls(c, t, w);
    var calls := TryRefundResult(c, s, w).calls;
    forall i: nat | i < |calls| ensures Fine(c, s, calls, i) {
      assert Fine(c, t, calls, i);
    }
  }

  lemma RedeemKeeps(s: ChatSwap, w: World)
    requires Sound(s) && s.stage.Redeeming? && s.redeemSince <= 0
    ensures KeepsRecord(s, RedeemResult(s, w).swap)
  {
    hide RefOf;
  }

  lemma RedeemCalls(c: Config, s: ChatSwap, w: World)
    requires Sound(s) && s.stage.Redeeming?
    ensures
      var r := RedeemResult(s, w);
      && 1 <= |r.calls| <= 2
      && r.calls[0] == Redeem(s.theirs.code, TheirRef(s), s.secret, PayTo(s.deal.want, s), None)
      && (forall i :: 1 <= i < |r.calls| ==> r.calls[i].Send?)
      && r.swap.secret == s.secret && r.swap.secretHash == s.secretHash
  {
    hide RefOf;
  }

  lemma BumpKeeps(c: Config, s: ChatSwap, w: World)
    requires Sound(s) && s.stage.Redeeming? && s.redeemSince > 0
    ensures KeepsRecord(s, BumpResult(c, s, w).swap) && KeepsCalls(c, s, BumpResult(c, s, w))
  {
    hide RefOf;
  }

  lemma RedeemingKeeps(c: Config, s: ChatSwap, w: World)
    requires Sound(s) && s.stage.Redeeming?
    ensures KeepsRecord(s, RedeemingResult(c, s, w).swap)
  {
    hide Left, RefOf, CheckTheirs, AuditCall, RedeemResult, BumpResult;
    if s.redeemSince > 0 {
      BumpKeeps(c, s, w);
    } else {
      RedeemKeeps(s, w);
    }
  }

  lemma RedeemingCalls(c: Config, s: ChatSwap, w: World)
    requires Sound(s) && s.stage.Redeeming?
    ensures KeepsCalls(c, s, RedeemingResult(c, s, w))
  {
    hide Left, RefOf, CheckTheirs, PaysUs, RedeemResult, BumpResult;
    if s.redeemSince > 0 {
      BumpKeeps(c, s, w);
    } else {
      RedeemKeeps(s, w);
      RedeemCalls(c, s, w);
      var r := RedeemingResult(c, s, w);
      if CheckTheirs(c, s, c.makerMinLeft, s.secretHash, w.theirs).Good? || !s.deal.maker {
        assert exists i :: 0 <= i < |r.calls| && r.calls[i].Redeem? by {
          assert r.calls[if s.deal.maker then 1 else 0].Redeem?;
        }
      }
    }
  }

  lemma LockedKeeps(c: Config, s: ChatSwap, w: World)
    requires Sound(s) && s.stage.Locked?
    ensures KeepsRecord(s, LockedResult(c, s, w).swap)
  {
    hide TryRefundResult, LockOf;
    TryRefundKeeps(c, if s.sentLock then s else s.(sentLock := w.delivers), w);
  }

  lemma LockedCalls(c: Config, s: ChatSwap, w: World)
    requires Sound(s) && s.stage.Locked?
    ensures KeepsCalls(c, s, LockedResult(c, s, w))
  {
    hide TryRefundResult, LockOf;
    var t := if s.sentLock then s else s.(sentLock := w.delivers);
    TryRefundCalls(c, t, w);
    var calls, tail := LockedResult(c, s, w).calls, TryRefundResult(c, t, w).calls;
    forall i: nat | i < |calls| ensures Fine(c, s, calls, i) {
      if i > 0 || s.sentLock {
        assert Fine(c, t, tail, if s.sentLock then i else i - 1);
      }
    }
  }

  lemma RefundingKeeps(c: Config, s: ChatSwap, w: World)
    requires Sound(s) && s.stage.Refunding?
    ensures KeepsRecord(s, RefundingResult(c, s, w).swap) && KeepsCalls(c, s, RefundingResult(c, s, w))
  {
    hide TryRefundResult;
    TryRefundKeeps(c, s, w);
    TryRefundCalls(c, s, w);
  }

  lemma RestKeeps(c: Config, s: ChatSwap, ok: bool)
    requires Sound(s) && (ok ==> s.userOk) && (!ok && s.userOk ==> PreLock(s.stage))
    ensures KeepsRecord(s, s.(userOk := ok)) && KeepsCalls(c, s, Outcome(s.(userOk := ok), []))
  {
  }

  lemma CancelKeeps(c: Config, s: ChatSwap)
    requires Sound(s) && PreLock(s.stage)
    ensures KeepsRecord(s, s.(stage := Cancelled)) && KeepsCalls(c, s, Outcome(s.(stage := Cancelled), [Send(CancelStep)]))
  {
  }

  /** Every tick keeps the record sound, never moves it back, and makes only calls that
      the record and the audits of the same tick allow. */
  lemma TickKeeps(c: Config, s: ChatSwap, w: World)
    requires Sound(s)
    ensures KeepsRecord(s, TickResult(c, s, w).swap) && KeepsCalls(c, s, TickResult(c, s, w))
    ensures IsFinal(s.stage) ==> TickResult(c, s, w) == Outcome(s, [])
    ensures s.stage.WaitPayment? ==> TickResult(c, s, w).swap.stage in {WaitPayment, Locked, Refunding}
  {
    hide InvitingResult, TakeReceivedResult, CheckingResult, LockedResult, RedeemingResult, RefundingResult;
    hide KeepsRecord, KeepsCalls, Sound;
    RestKeeps(c, s, s.userOk && !Unpayable(s, w));
    if !Unpayable(s, w) {
      match s.stage
      case Inviting => InvitingKeeps(c, s, w);
      case TakeSent => CancelKeeps(c, s);
      case TakeReceived => TakeReceivedKeeps(c, s, w);
      case CheckingTheirs | ReadyToLock =>
        CheckingKeeps(c, s, w);
        CheckingCalls(c, s, w);
      case WaitPayment => WaitPaymentKeeps(c, s, w);
      case Locked =>
        LockedKeeps(c, s, w);
        LockedCalls(c, s, w);
      case Redeeming =>
        RedeemingKeeps(c, s, w);
        RedeemingCalls(c, s, w);
      case Refunding => RefundingKeeps(c, s, w);
      case _ =>
    }
  }
}
