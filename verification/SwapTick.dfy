/** `Tick` and `TryRefund` as the engine runs them: a private copy of the swap, changed
    field by field, with an early return wherever the code has one. */
module SwapTick {
  import opened Options
  import opened Swaps

  method NewAddress(s: ChatSwap, w: World) returns (t: ChatSwap, ok: bool)
    ensures ok == (!Empty(s.myRecv) || w.address.Some?)
    ensures t == if Empty(s.myRecv) && ok then s.(myRecv := w.address.value) else s
  {
    t, ok := s, true;
    if Empty(t.myRecv) {
      match w.address
      case None => ok := false;
      case Some(a) => t := t.(myRecv := a);
    }
  }

  /** `TakeLockResult`, and the stage its two callers then go to. */
  method TakeLockResult(s: ChatSwap, answer: Option<LockAnswer>) returns (t: ChatSwap, ok: bool)
    ensures ok == Locks(answer)
    ensures t == if ok then Kept(s, answer.value) else s
  {
    t, ok := s, false;
    if answer.None? || answer.value.contract.None? || answer.value.txid.None? {
      return;
    }
    var l := answer.value;
    t := t.(paymentAddress := Awaited(l));
    t := t.(mine := Contract(l.contract.value, l.txid.value, VoutOf(t.deal.give, l)));
    t := t.(secret := Or(l.secret, t.secret));
    t := t.(secretHash := Or(l.secretHash, t.secretHash));
    t := t.(stage := if Empty(t.paymentAddress) then Locked else WaitPayment);
    t := t.(sentLock := false);
    ok := true;
  }

  method SendRefund(s0: ChatSwap, w: World) returns (s: ChatSwap, calls: seq<Call>)
    ensures Outcome(s, calls) == RefundResult(s0, w)
  {
    s, calls := s0, [];
    if w.myLeft.None? {
      return;
    }
    var left := Left(s.deal.give, w.myLeft.value);
    calls := calls + [AuditMine(s.mine.code, MyRef(s), left)];
    if left > 0 {
      return;
    }
    calls := calls + [Refund(s.mine.code, MyRef(s), PayTo(s.deal.give, s))];
    if w.refund.Some? {
      s := s.(refundTxid := w.refund.value.txid);
      if s.deal.give.DGB? && w.refund.value.awaiting {
        s := s.(refundSince := w.sentNow);
        s := s.(stage := Refunding);
        return;
      }
      if !s.deal.maker && !Empty(s.theirs.code) {
        s := s.(stage := Refunding);
        return;
      }
      s := s.(stage := Refunded);
      return;
    }
    if w.gone.Some? && w.gone.value.spent {
      s := s.(stage := if w.gone.value.refunded then Refunded else Done);
    }
  }

  method SettleRefund(c: Config, s0: ChatSwap, w: World) returns (s: ChatSwap, waits: bool)
    ensures waits == AwaitsRefund(c, s0, w)
    ensures s == if waits then s0 else Settled(s0, w)
  {
    s, waits := s0, false;
    if s.refundSince != 0 {
      if w.confirmed.Some? && w.confirmed.value.spent {
        s := s.(refundSince := 0);
      } else if w.refundNow - s.refundSince >= c.bumpAfter {
        s := s.(refundSince := 0);
        s := s.(refundTxid := "");
      } else {
        waits := true;
      }
    }
  }

  method TryRefund(c: Config, s0: ChatSwap, w: World) returns (s: ChatSwap, calls: seq<Call>)
    ensures Outcome(s, calls) == TryRefundResult(c, s0, w)
  {
    hide RefundResult, Left, RefOf;
    s, calls := s0, [];
    var waits;
    s, waits := SettleRefund(c, s, w);
    if waits {
      return;
    }
    if !s.deal.maker && !Empty(s.refundTxid) {
      if w.theirLeft.None? {
        return;
      }
      var left := if !w.theirLeft.value.unspent then 0 else Left(s.deal.want, w.theirLeft.value);
      if left <= 0 {
        s := s.(stage := Refunded);
      }
      return;
    }
    if !s.deal.give.BTF? && Empty(s.mine.txid) {
      if w.unpaid.None? {
        return;
      }
      var a := w.unpaid.value;
      if a.unspent || NotZeros(a.funding) {
        s := s.(mine := s.mine.(txid := a.funding));
        s := s.(mine := s.mine.(vout := a.vout));
      } else if w.lateNow > a.lockTime + 86400 {
        s := s.(stage := Cancelled);
        return;
      } else {
        return;
      }
    }
    s, calls := SendRefund(s, w);
  }

  method TickInviting(c: Config, s0: ChatSwap, w: World) returns (s: ChatSwap, calls: seq<Call>)
    ensures Outcome(s, calls) == InvitingResult(c, s0, w)
  {
    s, calls := s0, [];
    if w.accepted {
      var ok;
      s, ok := NewAddress(s, w);
      if !ok {
        return;
      }
      calls := calls + [Send(TakeOf(s))];
      if !w.delivers {
        return;
      }
      s := s.(stage := TakeSent);
      s := s.(theirSince := w.now);
    } else if !s.invited {
      if w.invites {
        s := s.(invited := true);
      }
    } else if w.now - s.deal.created > c.answerWithin {
      s := s.(stage := Cancelled);
    }
  }

  method TickTakeReceived(c: Config, s0: ChatSwap, w: World) returns (s: ChatSwap, calls: seq<Call>)
    ensures Outcome(s, calls) == TakeReceivedResult(c, s0, w)
  {
    s, calls := s0, [];
    if !s.userOk {
      if w.now - s.deal.created > c.answerWithin {
        calls := calls + [Send(CancelStep)];
        s := s.(stage := Cancelled);
      }
      return;
    }
    var ok;
    s, ok := NewAddress(s, w);
    if !ok {
      s := s.(userOk := false);
      return;
    }
    calls := calls + [Initiate(s.theirRecv, s.deal.giveAmount, w.lock)];
    s, ok := TakeLockResult(s, w.lock);
    if !ok {
      s := s.(userOk := false);
    }
  }

  method TickChecking(c: Config, s0: ChatSwap, w: World) returns (s: ChatSwap, calls: seq<Call>)
    ensures Outcome(s, calls) == CheckingResult(c, s0, w)
  {
    s, calls := s0, [AuditCall(s0, w)];
    var v := CheckTheirs(c, s, c.takerMinLeft, "", w.theirs);
    if v.Bad? {
      calls := calls + [Send(CancelStep)];
      s := s.(stage := Cancelled);
      return;
    }
    if v.Wait? {
      if w.now - s.theirSince > c.giveUpWaiting {
        calls := calls + [Send(CancelStep)];
        s := s.(stage := Cancelled);
      }
      return;
    }
    s := s.(secretHash := v.hash);
    if s.stage.CheckingTheirs? {
      s := s.(stage := ReadyToLock);
      return;
    }
    if !s.userOk {
      return;
    }
    calls := calls + [Participate(s.theirRecv, s.deal.giveAmount, s.secretHash, w.lock)];
    var ok;
    s, ok := TakeLockResult(s, w.lock);
    if !ok {
      s := s.(userOk := false);
    }
  }

  method TickWaitPayment(c: Config, s0: ChatSwap, w: World) returns (s: ChatSwap, calls: seq<Call>)
    ensures Outcome(s, calls) == WaitPaymentResult(c, s0, w)
  {
    s, calls := s0, [];
    if w.payment.None? {
      return;
    }
    var a := w.payment.value;
    var funded := a.unspent || NotZeros(a.funding);
    if !funded && Or(a.seconds, 1) <= 0 {
      calls := calls + [Send(CancelStep)];
      s := s.(stage := Refunding);
      return;
    }
    if funded && !a.unspent {
      s := s.(mine := s.mine.(txid := a.funding));
      s := s.(mine := s.mine.(vout := a.vout));
      s := s.(stage := Refunding);
      return;
    }
    if !a.unspent || a.confirmations < MinConfirmations(c, s.deal.give) {
      return;
    }
    s := s.(mine := s.mine.(txid := a.funding));
    s := s.(mine := s.mine.(vout := a.vout));
    if a.amount != s.deal.giveAmount || Or(a.seconds, 0) <= 0 {
      s := s.(stage := Refunding);
      return;
    }
    s := s.(stage := Locked);
    s := s.(sentLock := false);
  }

  method TickLocked(c: Config, s0: ChatSwap, w: World) returns (s: ChatSwap, calls: seq<Call>)
    ensures Outcome(s, calls) == LockedResult(c, s0, w)
  {
    hide TryRefundResult, LockOf;
    s, calls := s0, [];
    if !s.sentLock {
      calls := calls + [Send(LockOf(s))];
      if w.delivers {
        s := s.(sentLock := true);
      }
    }
    if !s.deal.maker && w.taken.Some? {
      if w.taken.value.spent && !Empty(w.taken.value.secret) {
        s := s.(secret := w.taken.value.secret);
        s := s.(stage := Redeeming);
        return;
      }
      if w.taken.value.spent && w.taken.value.refunded {
        s := s.(stage := Refunded);
        return;
      }
    }
    var more;
    s, more := TryRefund(c, s, w);
    calls := calls + more;
  }

  method BumpRedeem(c: Config, s0: ChatSwap, w: World) returns (s: ChatSwap, calls: seq<Call>)
    ensures Outcome(s, calls) == BumpResult(c, s0, w)
  {
    s, calls := s0, [];
    if w.spent.Some? && w.spent.value.spent {
      s := s.(redeemSince := 0);
      s := s.(stage := if w.spent.value.refunded then Failed else Done);
      return;
    }
    if w.now - s.redeemSince < c.bumpAfter {
      return;
    }
    var rate := BumpedRate(s.feeRate);
    calls := calls + [Redeem(s.theirs.code, TheirRef(s), s.secret, s.destination, Some(rate))];
    if w.redeem.Some? {
      s := s.(redeemTxid := w.redeem.value.txid);
      s := s.(redeemSince := w.now);
      s := s.(feeRate := rate);
    }
  }

  method TickRedeeming(c: Config, s0: ChatSwap, w: World) returns (s: ChatSwap, calls: seq<Call>)
    ensures Outcome(s, calls) == RedeemingResult(c, s0, w)
  {
    hide BumpResult, CheckTheirs, RefOf;
    s, calls := s0, [];
    if s.redeemSince > 0 {
      s, calls := BumpRedeem(c, s, w);
      return;
    }
    if s.deal.maker {
      calls := calls + [AuditCall(s, w)];
      var v := CheckTheirs(c, s, c.makerMinLeft, s.secretHash, w.theirs);
      if v.Wait? {
        if (w.myLeft.Some? && Left(s.deal.give, w.myLeft.value) == 0) || w.now - s.theirSince > c.giveUpWaiting {
          s := s.(stage := Refunding);
        }
        return;
      }
      if v.Bad? {
        calls := calls + [Send(CancelStep)];
        s := s.(stage := Refunding);
        return;
      }
    }
    calls := calls + [Redeem(s.theirs.code, TheirRef(s), s.secret, PayTo(s.deal.want, s), None)];
    if w.redeem.Some? {
      s := s.(redeemTxid := w.redeem.value.txid);
      if !s.deal.want.BTF? && w.redeem.value.awaiting {
        s := s.(redeemSince := w.now);
        s := s.(feeRate := w.redeem.value.feeRate);
      } else {
        s := s.(stage := Done);
      }
      if s.deal.maker {
        calls := calls + [Send(RedeemedStep(s.redeemTxid))];
      }
      return;
    }
    if w.spent.Some? && w.spent.value.spent {
      s := s.(stage := if w.spent.value.refunded then Failed else Done);
    }
  }

  method TickRefunding(c: Config, s0: ChatSwap, w: World) returns (s: ChatSwap, calls: seq<Call>)
    ensures Outcome(s, calls) == RefundingResult(c, s0, w)
  {
    hide TryRefundResult;
    s, calls := s0, [];
    if !s.deal.maker && w.taken.Some? && w.taken.value.spent && !Empty(w.taken.value.secret) {
      s := s.(secret := w.taken.value.secret);
      s := s.(stage := Redeeming);
      return;
    }
    s, calls := TryRefund(c, s, w);
  }

  method Tick(c: Config, s0: ChatSwap, w: World) returns (s: ChatSwap, calls: seq<Call>)
    ensures Outcome(s, calls) == TickResult(c, s0, w)
  {
    s, calls := s0, [];
    if (s.stage.TakeReceived? || s.stage.ReadyToLock?) && s.userOk && w.light {
      if Empty(s.destination) || !w.destinationOk {
        s := s.(userOk := false);
        return;
      }
    }
    match s.stage
    case Inviting => s, calls := TickInviting(c, s, w);
    case TakeSent =>
      if w.now - s.theirSince > c.answerWithin {
        calls := calls + [Send(CancelStep)];
        s := s.(stage := Cancelled);
      }
    case TakeReceived => s, calls := TickTakeReceived(c, s, w);
    case CheckingTheirs | ReadyToLock => s, calls := TickChecking(c, s, w);
    case WaitPayment => s, calls := TickWaitPayment(c, s, w);
    case Locked => s, calls := TickLocked(c, s, w);
    case Redeeming => s, calls := TickRedeeming(c, s, w);
    case Refunding => s, calls := TickRefunding(c, s, w);
    case Done | Refunded | Cancelled | Failed =>
  }
}
