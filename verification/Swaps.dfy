/** One atomic swap as the chat's engine drives it (src/btfchatswap.cpp): the record
    `ChatSwap` and the step `Tick` makes on a copy of it.  The wallet, both chains, the
    peer and the clock are a `World`, one answer for each place the code asks, so that
    every behaviour of theirs is some `World`.  `Tick` and `TryRefund` change the record
    field by field; `TickResult` is what they compute, with the calls they made. */
module Swaps {
  import opened Options

  datatype Stage =
    | Inviting | TakeSent | TakeReceived | CheckingTheirs | ReadyToLock | Locked
    | Redeeming | Done | Refunding | Refunded | Cancelled | Failed | WaitPayment

  datatype Coin = BTF | BTC | LTC | DOGE | DGB | RVN | BCH | XEC

  /** What was agreed on. */
  datatype Deal = Deal(
    id: string, peer: string, offerId: string, maker: bool,
    give: Coin, giveAmount: int, want: Coin, wantAmount: int, created: int)

  /** A contract and where it was funded. */
  datatype Contract = Contract(code: string, txid: string, vout: int)

  datatype ChatSwap = ChatSwap(
    deal: Deal, theirRecv: string, theirs: Contract, myRecv: string, mine: Contract,
    secret: string, secretHash: string, destination: string, paymentAddress: string,
    redeemTxid: string, refundTxid: string,
    stage: Stage, userOk: bool, invited: bool, sentLock: bool,
    theirSince: int, refundSince: int, redeemSince: int, feeRate: int)

  datatype Config = Config(
    takerMinLeft: int, makerMinLeft: int, giveUpWaiting: int, answerWithin: int,
    bumpAfter: int, minConfirmations: int, testnet: bool)

  datatype Offer = Offer(give: Coin, giveAmount: int, want: Coin, wantAmount: int)

  /** What the two engines tell each other. */
  datatype Step =
    | Take(offerId: string, terms: Offer, to: string)
    | Lock1(chain: Coin, contract: string, txid: string, vout: int, to: string)
    | Lock2(chain: Coin, contract: string, txid: string, vout: int)
    | CancelStep
    | RedeemedStep(txid: string)

  // ---- what the wallet answers ------------------------------------------------------

  datatype Audit = Audit(
    recipientIsMine: bool, recipient: string, secretHash: string, confirmations: int,
    unspent: bool, amount: int, seconds: Option<int>, blocks: Option<int>,
    funding: string, vout: int, lockTime: int)

  datatype LockAnswer = LockAnswer(
    contract: Option<string>, txid: Option<string>, awaitingPayment: bool, address: string,
    vout: Option<int>, secret: Option<string>, secretHash: Option<string>)

  datatype Found = Found(spent: bool, secret: string, refunded: bool)
  datatype Sent = Sent(txid: string, awaiting: bool, feeRate: int)

  /** `None` is a call that failed or answered nothing usable. */
  datatype World = World(
    now: int, refundNow: int, lateNow: int, sentNow: int,
    light: bool, destinationOk: bool,
    accepted: bool, invites: bool, address: Option<string>, delivers: bool,
    lock: Option<LockAnswer>, theirs: Option<Audit>, payment: Option<Audit>,
    unpaid: Option<Audit>, myLeft: Option<Audit>, theirLeft: Option<Audit>,
    confirmed: Option<Found>, taken: Option<Found>, spent: Option<Found>, gone: Option<Found>,
    redeem: Option<Sent>, refund: Option<Sent>)

  /** A funding: a transaction, and on the chains that need it the output. */
  datatype Ref = Whole(txid: string) | Output(txid: string, vout: int)

  function RefOf(coin: Coin, txid: string, vout: int): Ref {
    if !coin.BTF? then Output(txid, vout) else Whole(txid)
  }

  /** The calls that show the secret, move a coin, or that such a call rests on. */
  datatype Call =
    | AuditTheirs(contract: string, ref: Ref, audit: Option<Audit>)
    | AuditMine(contract: string, ref: Ref, left: int)
    | Initiate(to: string, amount: int, answer: Option<LockAnswer>)
    | Participate(to: string, amount: int, hash: string, answer: Option<LockAnswer>)
    | Redeem(contract: string, ref: Ref, secret: string, destination: string, fee: Option<int>)
    | Refund(contract: string, ref: Ref, destination: string)
    | Send(step: Step)

  datatype Outcome = Outcome(swap: ChatSwap, calls: seq<Call>)

  predicate IsFinal(stage: Stage) {
    stage.Done? || stage.Refunded? || stage.Cancelled? || stage.Failed?
  }

  predicate Empty(t: string) { |t| == 0 }

  const BTF_BLOCK_SECS := 120

  function Or<T>(o: Option<T>, d: T): T { if o.Some? then o.value else d }

  /** Seconds until a contract opens for refund. */
  function Left(coin: Coin, a: Audit): int {
    if !coin.BTF? then Or(a.seconds, 0) else Or(a.blocks, 0) * BTF_BLOCK_SECS
  }

  function MinConfirmations(c: Config, coin: Coin): int {
    if c.minConfirmations > 0 then c.minConfirmations
    else if c.testnet then 1
    else match coin
      case LTC => 8
      case DOGE => 20
      case DGB => 160
      case RVN => 60
      case BCH => 4
      case XEC => 6
      case _ => 2
  }

  // ---- the audit of their contract ---------------------------------------------------

  /** What has to be true of their contract before a coin moves because of it. */
  predicate PaysUs(c: Config, s: ChatSwap, minLeft: int, a: Audit) {
    && a.recipientIsMine && a.recipient == s.myRecv
    && |a.secretHash| == 64
    && a.unspent
    && a.amount == s.deal.wantAmount
    && a.confirmations >= MinConfirmations(c, s.deal.want)
    && Left(s.deal.want, a) >= minLeft
  }

  datatype Verdict = Good(hash: string) | Wait | Bad

  /** Good exactly for a contract that pays us, under the expected hash when there is
      one.  Waiting is answered exactly where more time can still make it good: not found,
      not on the chain yet, or only short of its confirmations. */
  function CheckTheirs(c: Config, s: ChatSwap, minLeft: int, under: string, answer: Option<Audit>): (v: Verdict)
    ensures v.Good? <==>
            && answer.Some? && PaysUs(c, s, minLeft, answer.value)
            && (Empty(under) || answer.value.secretHash == under)
    ensures v.Good? ==> v.hash == answer.value.secretHash
    ensures v.Wait? <==>
            || answer.None?
            || (&& answer.value.recipientIsMine && answer.value.recipient == s.myRecv
                && |answer.value.secretHash| == 64 && (Empty(under) || answer.value.secretHash == under)
                && (if answer.value.unspent
                    then answer.value.amount == s.deal.wantAmount
                         && answer.value.confirmations < MinConfirmations(c, s.deal.want)
                    else answer.value.confirmations <= 0))
  {
    if answer.None? then Wait
    else
      var a := answer.value;
      if !a.recipientIsMine || a.recipient != s.myRecv then Bad
      else if |a.secretHash| != 64 || (!Empty(under) && a.secretHash != under) then Bad
      else if !a.unspent then (if a.confirmations > 0 then Bad else Wait)
      else if a.amount != s.deal.wantAmount then Bad
      else if a.confirmations < MinConfirmations(c, s.deal.want) then Wait
      else if Left(s.deal.want, a) < minLeft then Bad
      else Good(a.secretHash)
  }

  // ---- what one tick computes, stage by stage ------------------------------------------

  predicate Locks(answer: Option<LockAnswer>) {
    answer.Some? && answer.value.contract.Some? && answer.value.txid.Some?
  }

  function Awaited(l: LockAnswer): string { if l.awaitingPayment then l.address else "" }

  function VoutOf(coin: Coin, l: LockAnswer): int { if !coin.BTF? then Or(l.vout, -1) else -1 }

  /** The wallet's answer to a lock, kept in the swap. */
  function Kept(s: ChatSwap, l: LockAnswer): ChatSwap
    requires Locks(Some(l))
  {
    s.(paymentAddress := Awaited(l),
    mine := Contract(l.contract.value, l.txid.value, VoutOf(s.deal.give, l)),
    secret := Or(l.secret, s.secret), secretHash := Or(l.secretHash, s.secretHash),
    stage := if Empty(Awaited(l)) then Locked else WaitPayment, sentLock := false)
  }

  function TakeOf(s: ChatSwap): Step {
    Take(s.deal.offerId, Offer(s.deal.want, s.deal.wantAmount, s.deal.give, s.deal.giveAmount), s.myRecv)
  }

  function LockOf(s: ChatSwap): Step {
    if s.deal.maker then Lock1(s.deal.give, s.mine.code, s.mine.txid, s.mine.vout, s.myRecv)
    else Lock2(s.deal.give, s.mine.code, s.mine.txid, s.mine.vout)
  }

  function InvitingResult(c: Config, s: ChatSwap, w: World): Outcome {
    if !w.accepted then
      Outcome(if !s.invited then s.(invited := w.invites)
              else if w.now - s.deal.created > c.answerWithin then s.(stage := Cancelled)
              else s, [])
    else if Empty(s.myRecv) && w.address.None? then Outcome(s, [])
    else
      var t := if Empty(s.myRecv) then s.(myRecv := w.address.value) else s;
      Outcome(if w.delivers then t.(stage := TakeSent, theirSince := w.now) else t, [Send(TakeOf(t))])
  }

  function TakeReceivedResult(c: Config, s: ChatSwap, w: World): Outcome {
    if !s.userOk then
      if w.now - s.deal.created > c.answerWithin
      then Outcome(s.(stage := Cancelled), [Send(CancelStep)]) else Outcome(s, [])
    else if Empty(s.myRecv) && w.address.None? then Outcome(s.(userOk := false), [])
    else
      var t := if Empty(s.myRecv) then s.(myRecv := w.address.value) else s;
      Outcome(if Locks(w.lock) then Kept(t, w.lock.value) else t.(userOk := false),
              [Initiate(t.theirRecv, t.deal.giveAmount, w.lock)])
  }

  function AuditCall(s: ChatSwap, w: World): Call {
    AuditTheirs(s.theirs.code, RefOf(s.deal.want, s.theirs.txid, s.theirs.vout), w.theirs)
  }

  function CheckingResult(c: Config, s: ChatSwap, w: World): Outcome {
    var audit := AuditCall(s, w);
    match CheckTheirs(c, s, c.takerMinLeft, "", w.theirs)
    case Bad => Outcome(s.(stage := Cancelled), [audit, Send(CancelStep)])
    case Wait =>
      if w.now - s.theirSince > c.giveUpWaiting
      then Outcome(s.(stage := Cancelled), [audit, Send(CancelStep)]) else Outcome(s, [audit])
    case Good(hash) =>
      var t := s.(secretHash := hash);
      if s.stage.CheckingTheirs? then Outcome(t.(stage := ReadyToLock), [audit])
      else if !s.userOk then Outcome(t, [audit])
      else
        Outcome(if Locks(w.lock) then Kept(t, w.lock.value) else t.(userOk := false),
                [audit, Participate(t.theirRecv, t.deal.giveAmount, hash, w.lock)])
  }

  predicate NotZeros(txid: string) { exists i :: 0 <= i < |txid| && txid[i] != '0' }

  predicate Funded(a: Audit) { a.unspent || NotZeros(a.funding) }

  function WaitPaymentResult(c: Config, s: ChatSwap, w: World): Outcome {
    if w.payment.None? then Outcome(s, [])
    else
      var a := w.payment.value;
      if !Funded(a) then
        if Or(a.seconds, 1) <= 0 then Outcome(s.(stage := Refunding), [Send(CancelStep)]) else Outcome(s, [])
      else
        var t := s.(mine := Contract(s.mine.code, a.funding, a.vout));
        if !a.unspent then Outcome(t.(stage := Refunding), [])
        else if a.confirmations < MinConfirmations(c, s.deal.give) then Outcome(s, [])
        else if a.amount != s.deal.giveAmount || Or(a.seconds, 0) <= 0 then Outcome(t.(stage := Refunding), [])
        else Outcome(t.(stage := Locked, sentLock := false), [])
  }

  function MyRef(s: ChatSwap): Ref { RefOf(s.deal.give, s.mine.txid, s.mine.vout) }
  function TheirRef(s: ChatSwap): Ref { RefOf(s.deal.want, s.theirs.txid, s.theirs.vout) }
  function PayTo(coin: Coin, s: ChatSwap): string { if !coin.BTF? then s.destination else "" }

  /** The refund itself, once our contract's funding is known. */
  function RefundResult(s: ChatSwap, w: World): Outcome {
    if w.myLeft.None? then Outcome(s, [])
    else
      var left := Left(s.deal.give, w.myLeft.value);
      var mine := AuditMine(s.mine.code, MyRef(s), left);
      if left > 0 then Outcome(s, [mine])
      else
        var calls := [mine, Refund(s.mine.code, MyRef(s), PayTo(s.deal.give, s))];
        if w.refund.Some? then
          var t := s.(refundTxid := w.refund.value.txid);
          if s.deal.give.DGB? && w.refund.value.awaiting
          then Outcome(t.(refundSince := w.sentNow, stage := Refunding), calls)
          else Outcome(t.(stage := if !s.deal.maker && !Empty(s.theirs.code) then Refunding else Refunded), calls)
        else if w.gone.Some? && w.gone.value.spent
        then Outcome(s.(stage := if w.gone.value.refunded then Refunded else Done), calls)
        else Outcome(s, calls)
  }

  predicate AwaitsRefund(c: Config, s: ChatSwap, w: World) {
    && s.refundSince != 0
    && !(w.confirmed.Some? && w.confirmed.value.spent)
    && w.refundNow - s.refundSince < c.bumpAfter
  }

  /** A refund that was waited for is in a block now, or is given up and sent again. */
  function Settled(s: ChatSwap, w: World): ChatSwap {
    if s.refundSince == 0 then s
    else if w.confirmed.Some? && w.confirmed.value.spent then s.(refundSince := 0)
    else s.(refundSince := 0, refundTxid := "")
  }

  function TryRefundResult(c: Config, s: ChatSwap, w: World): Outcome {
    if AwaitsRefund(c, s, w) then Outcome(s, [])
    else
      var t := Settled(s, w);
      if !t.deal.maker && !Empty(t.refundTxid) then
        var over := w.theirLeft.Some? && (!w.theirLeft.value.unspent || Left(t.deal.want, w.theirLeft.value) <= 0);
        Outcome(if over then t.(stage := Refunded) else t, [])
      else if t.deal.give.BTF? || !Empty(t.mine.txid) then RefundResult(t, w)
      else if w.unpaid.None? then Outcome(t, [])
      else if Funded(w.unpaid.value)
      then RefundResult(t.(mine := Contract(t.mine.code, w.unpaid.value.funding, w.unpaid.value.vout)), w)
      else Outcome(if w.lateNow > w.unpaid.value.lockTime + 86400 then t.(stage := Cancelled) else t, [])
  }

  predicate ShowsSecret(f: Option<Found>) { f.Some? && f.value.spent && !Empty(f.value.secret) }

  function LockedResult(c: Config, s: ChatSwap, w: World): Outcome {
    var t := if s.sentLock then s else s.(sentLock := w.delivers);
    var told := if s.sentLock then [] else [Send(LockOf(s))];
    if !s.deal.maker && ShowsSecret(w.taken)
    then Outcome(t.(secret := w.taken.value.secret, stage := Redeeming), told)
    else if !s.deal.maker && w.taken.Some? && w.taken.value.spent && w.taken.value.refunded
    then Outcome(t.(stage := Refunded), told)
    else var r := TryRefundResult(c, t, w); Outcome(r.swap, told + r.calls)
  }

  function Ended(s: ChatSwap, f: Found): ChatSwap {
    s.(redeemSince := 0, stage := if f.refunded then Failed else Done)
  }

  function BumpedRate(rate: int): (r: int)
    ensures 2000 <= r <= 1000000
    ensures rate <= 1000000 ==> r >= rate
  {
    var twice := (if rate > 1000 then rate else 1000) * 2;
    if twice < 1000000 then twice else 1000000
  }

  /** A redeem already sent: finished when a block has it, sent again when it sits. */
  function BumpResult(c: Config, s: ChatSwap, w: World): Outcome {
    if w.spent.Some? && w.spent.value.spent then Outcome(Ended(s, w.spent.value), [])
    else if w.now - s.redeemSince < c.bumpAfter then Outcome(s, [])
    else
      var rate := BumpedRate(s.feeRate);
      Outcome(if w.redeem.Some?
              then s.(redeemTxid := w.redeem.value.txid, redeemSince := w.now, feeRate := rate) else s,
              [Redeem(s.theirs.code, TheirRef(s), s.secret, s.destination, Some(rate))])
  }

  /** The redeem that first shows the secret. */
  function RedeemResult(s: ChatSwap, w: World): Outcome {
    var call := Redeem(s.theirs.code, TheirRef(s), s.secret, PayTo(s.deal.want, s), None);
    if w.redeem.Some? then
      var t := s.(redeemTxid := w.redeem.value.txid);
      Outcome(if !s.deal.want.BTF? && w.redeem.value.awaiting
              then t.(redeemSince := w.now, feeRate := w.redeem.value.feeRate)
              else t.(stage := Done),
              if s.deal.maker then [call, Send(RedeemedStep(t.redeemTxid))] else [call])
    else if w.spent.Some? && w.spent.value.spent
    then Outcome(s.(stage := if w.spent.value.refunded then Failed else Done), [call])
    else Outcome(s, [call])
  }

  function RedeemingResult(c: Config, s: ChatSwap, w: World): Outcome {
    if s.redeemSince > 0 then BumpResult(c, s, w)
    else if !s.deal.maker then RedeemResult(s, w)
    else
      var audit := AuditCall(s, w);
      match CheckTheirs(c, s, c.makerMinLeft, s.secretHash, w.theirs)
      case Wait =>
        var over := (w.myLeft.Some? && Left(s.deal.give, w.myLeft.value) == 0) || w.now - s.theirSince > c.giveUpWaiting;
        Outcome(if over then s.(stage := Refunding) else s, [audit])
      case Bad => Outcome(s.(stage := Refunding), [audit, Send(CancelStep)])
      case Good(_) => var r := RedeemResult(s, w); Outcome(r.swap, [audit] + r.calls)
  }

  function RefundingResult(c: Config, s: ChatSwap, w: World): Outcome {
    if !s.deal.maker && ShowsSecret(w.taken)
    then Outcome(s.(secret := w.taken.value.secret, stage := Redeeming), [])
    else TryRefundResult(c, s, w)
  }

  /** An approval that cannot be acted on yet: a light wallet with nowhere to pay. */
  predicate Unpayable(s: ChatSwap, w: World) {
    && (s.stage.TakeReceived? || s.stage.ReadyToLock?) && s.userOk
    && w.light && (Empty(s.destination) || !w.destinationOk)
  }

  function TickResult(c: Config, s: ChatSwap, w: World): Outcome {
    if Unpayable(s, w) then Outcome(s.(userOk := false), [])
    else match s.stage
      case Inviting => InvitingResult(c, s, w)
      case TakeSent =>
        if w.now - s.theirSince > c.answerWithin
        then Outcome(s.(stage := Cancelled), [Send(CancelStep)]) else Outcome(s, [])
      case TakeReceived => TakeReceivedResult(c, s, w)
      case CheckingTheirs | ReadyToLock => CheckingResult(c, s, w)
      case WaitPayment => WaitPaymentResult(c, s, w)
      case Locked => LockedResult(c, s, w)
      case Redeeming => RedeemingResult(c, s, w)
      case Refunding => RefundingResult(c, s, w)
      case Done | Refunded | Cancelled | Failed => Outcome(s, [])
  }
}
