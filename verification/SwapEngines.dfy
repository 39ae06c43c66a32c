/** The engine's tables and the calls that change them (src/btfchatswap.cpp).  What a
    round does to one swap is split where the lock is given up: `CopyOut`, a tick on the
    copy, `MergeBack`. */
module SwapEngines {
  import opened Options
  import opened Swaps
  import opened SwapSteps
  import opened SwapRuns
  import opened Texts
  import SwapTick

  /** A swap message in a conversation's log; `step` is missing when it does not parse. */
  datatype LogStep = LogStep(id: string, peer: string, swap: string, step: Option<Step>,
                             offer: Option<Offer>, shapeOk: bool)

  /** The steps of a log handled in order, each log line once. */
  function ReadAll(swaps: map<string, ChatSwap>, seen: set<string>, log: seq<LogStep>, now: int)
    : (map<string, ChatSwap>, set<string>)
  {
    if log == [] then (swaps, seen)
    else
      var k := |log| - 1;
      var before := ReadAll(swaps, seen, log[..k], now);
      if log[k].id in before.1 then before
      else (if log[k].step.None? then before.0
            else Received(before.0, log[k].peer, log[k].swap, log[k].step.value, now, log[k].offer, log[k].shapeOk),
            before.1 + {log[k].id})
  }

  lemma {:induction false} ReadSeen(swaps: map<string, ChatSwap>, seen: set<string>, log: seq<LogStep>, now: int)
    ensures ReadAll(swaps, seen, log, now).1 == seen + set e | e in log :: e.id
    decreases |log|
  {
    if log != [] {
      var k := |log| - 1;
      ReadSeen(swaps, seen, log[..k], now);
      assert log == log[..k] + [log[k]];
    }
  }

  /** A log read before changes nothing when it is read again, at any later time: no step
      of the peer is ever applied twice. */
  lemma {:induction false} ReadTwice(swaps: map<string, ChatSwap>, seen: set<string>, log: seq<LogStep>, now: int)
    requires forall e :: e in log ==> e.id in seen
    ensures ReadAll(swaps, seen, log, now) == (swaps, seen)
    decreases |log|
  {
    if log != [] {
      ReadTwice(swaps, seen, log[..|log| - 1], now);
    }
  }

  lemma MergedAlone(before: ChatSwap, after: ChatSwap)
    requires after.destination == before.destination
    ensures Merged(before, after, before) == after
  {
  }

  /** The swaps still in progress. */
  function InProgress(swaps: map<string, ChatSwap>): set<string> {
    set id | id in swaps && !IsFinal(swaps[id].stage)
  }

  /** Each of `ids` ticked once on what is stored, the others left alone. */
  function Tended(c: Config, swaps: map<string, ChatSwap>, worlds: string -> World, ids: seq<string>): map<string, ChatSwap> {
    map id | id in swaps :: if id in ids then TickResult(c, swaps[id], worlds(id)).swap else swaps[id]
  }

  class SwapEngine {
    const config: Config
    var swaps: map<string, ChatSwap>
    var stepsSeen: set<string>

    ghost predicate Valid()
      reads this
    {
      forall id :: id in swaps ==> swaps[id].deal.id == id && Sound(swaps[id])
    }

    constructor (c: Config)
      ensures Valid() && config == c && swaps == map[] && stepsSeen == {}
    {
      config := c;
      swaps := map[];
      stepsSeen := {};
    }

    method Approve(id: string) returns (ok: bool)
      requires Valid()
      modifies this`swaps
      ensures Valid()
      ensures ok == (id in old(swaps) && CanApprove(old(swaps)[id]))
      ensures swaps == if ok then old(swaps)[id := old(swaps)[id].(userOk := true)] else old(swaps)
    {
      if id !in swaps || (!swaps[id].stage.TakeReceived? && !swaps[id].stage.ReadyToLock?) {
        return false;
      }
      swaps := swaps[id := swaps[id].(userOk := true)];
      return true;
    }

    method SetBitcoinDestination(id: string, address: string) returns (ok: bool)
      requires Valid()
      modifies this`swaps
      ensures Valid()
      ensures ok == (id in old(swaps) && CanRedirect(old(swaps)[id], address))
      ensures swaps == if ok then old(swaps)[id := old(swaps)[id].(destination := address)] else old(swaps)
    {
      if |address| == 0 || |address| > 90 {
        return false;
      }
      if id !in swaps || !Empty(swaps[id].mine.code) || !Empty(swaps[id].redeemTxid) {
        return false;
      }
      swaps := swaps[id := swaps[id].(destination := address)];
      return true;
    }

    /** `told` is whether the peer hears of it. */
    method Cancel(id: string) returns (ok: bool, told: bool)
      requires Valid()
      modifies this`swaps
      ensures Valid()
      ensures ok == (id in old(swaps) && CancelResult(old(swaps)[id]).Some?)
      ensures swaps == if ok then old(swaps)[id := CancelResult(old(swaps)[id]).value] else old(swaps)
      ensures told <==> ok && (swaps[id].invited || swaps[id].deal.maker || !Empty(swaps[id].myRecv))
    {
      ok, told := false, false;
      if id !in swaps || IsFinal(swaps[id].stage) {
        return;
      }
      var s := swaps[id];
      if s.stage.WaitPayment? && Empty(s.mine.txid) {
        s := s.(stage := Refunding);
      } else if !Empty(s.mine.code) || !Empty(s.mine.txid) || s.userOk {
        return;
      } else {
        s := s.(stage := Cancelled);
      }
      swaps := swaps[id := s];
      ok := true;
      told := s.invited || s.deal.maker || !Empty(s.myRecv);
    }

    /** `id` is drawn from 128 random bits; should it be in use, the old swap is gone. */
    method Take(id: string, peer: string, me: string, offerId: string, o: Offer, now: int) returns (ok: bool)
      requires Valid()
      modifies this`swaps
      ensures Valid()
      ensures ok == (peer != me)
      ensures swaps == if ok then old(swaps)[id := Taken(id, peer, offerId, o, now)] else old(swaps)
    {
      if peer == me {
        return false;
      }
      var deal := Deal(id, peer, offerId, false, o.want, o.wantAmount, o.give, o.giveAmount, now);
      FreshOk([], deal, "", Inviting);
      swaps := swaps[id := Fresh(deal, "", Inviting)];
      return true;
    }

    method OnStep(peer: string, id: string, st: Step, now: int, offer: Option<Offer>, shapeOk: bool)
      requires Valid()
      modifies this`swaps
      ensures Valid()
      ensures swaps == Received(old(swaps), peer, id, st, now, offer, shapeOk)
    {
      hide Sound, Stepped, Fresh;
      if st.Take? {
        if id in swaps || offer.None? {
          return;
        }
        var o := offer.value;
        if o.give != st.terms.give || o.want != st.terms.want ||
           o.giveAmount != st.terms.giveAmount || o.wantAmount != st.terms.wantAmount {
          return;
        }
        var deal := Deal(id, peer, st.offerId, true, o.give, o.giveAmount, o.want, o.wantAmount, now);
        FreshOk([], deal, st.to, TakeReceived);
        swaps := swaps[id := Fresh(deal, st.to, TakeReceived)];
        return;
      }
      if id !in swaps || swaps[id].deal.peer != peer {
        return;
      }
      var s := Moved(swaps[id], st, now, shapeOk);
      swaps := swaps[id := s];
    }

    method ReadSteps(log: seq<LogStep>, now: int)
      requires Valid()
      modifies this
      ensures Valid()
      ensures (swaps, stepsSeen) == ReadAll(old(swaps), old(stepsSeen), log, now)
    {
      for k := 0 to |log|
        invariant Valid()
        invariant (swaps, stepsSeen) == ReadAll(old(swaps), old(stepsSeen), log[..k], now)
      {
        assert log[..k + 1][..k] == log[..k];
        var e := log[k];
        if e.id !in stepsSeen {
          stepsSeen := stepsSeen + {e.id};
          if e.step.Some? {
            OnStep(e.peer, e.swap, e.step.value, now, e.offer, e.shapeOk);
          }
        }
      }
      assert log[..|log|] == log;
    }

    method CopyOut(id: string) returns (s: Option<ChatSwap>)
      ensures s == if id in swaps then Some(swaps[id]) else None
    {
      if id in swaps {
        return Some(swaps[id]);
      }
      return None;
    }

    method MergeBack(id: string, before: ChatSwap, after: ChatSwap)
      modifies this`swaps
      ensures swaps == if id in old(swaps) then old(swaps)[id := Merged(before, after, old(swaps)[id])] else old(swaps)
    {
      if id !in swaps {
        return;
      }
      var stored := swaps[id];
      var approved := stored.userOk && !before.userOk && after.stage == before.stage;
      var cancelled := stored.stage.Cancelled? && !before.stage.Cancelled?;
      var withdrawn := before.stage.WaitPayment? && stored.stage.Refunding?
                       && (after.stage.WaitPayment? || after.stage.Locked?);
      var s := after.(destination := stored.destination);
      if approved {
        s := s.(userOk := true);
      }
      if cancelled && Empty(s.mine.txid) {
        s := s.(stage := Cancelled);
      }
      if withdrawn {
        s := s.(stage := Refunding);
      }
      swaps := swaps[id := s];
    }

    /** One swap's part of a round, with nothing landing in between. */
    method Tend(id: string, w: World)
      requires Valid() && id in swaps
      modifies this`swaps
      ensures Valid()
      ensures swaps == old(swaps)[id := TickResult(config, old(swaps)[id], w).swap]
    {
      hide TickResult, Merged, Sound, KeepsCalls;
      var copy := CopyOut(id);
      var s, _ := SwapTick.Tick(config, copy.value, w);
      TickKeeps(config, copy.value, w);
      MergedAlone(copy.value, s);
      MergeBack(id, copy.value, s);
    }

    /** A whole round with nothing landing in between: the peer's new steps, then the
        swaps still in progress in the order of their ids, each ticked once, until a
        shutdown stops it after `limit` of them. */
    method Round(log: seq<LogStep>, now: int, worlds: string -> World, limit: nat) returns (ghost ids: seq<string>)
      requires Valid()
      modifies this
      ensures Valid()
      ensures
        var read := ReadAll(old(swaps), old(stepsSeen), log, now);
        && stepsSeen == read.1 && Lists(ids, InProgress(read.0))
        && swaps == Tended(config, read.0, worlds, if limit < |ids| then ids[..limit] else ids)
    {
      ReadSteps(log, now);
      var sorted := SortedKeys(InProgress(swaps));
      ids := sorted;
      var n := if limit < |sorted| then limit else |sorted|;
      TendAll(sorted[..n], worlds, sorted);
      assert n == |sorted| ==> sorted[..n] == sorted;
    }

    method TendAll(ids: seq<string>, worlds: string -> World, ghost all: seq<string>)
      requires Valid() && Lists(all, InProgress(swaps)) && ids <= all
      modifies this`swaps
      ensures Valid() && swaps == Tended(config, old(swaps), worlds, ids)
    {
      hide TickResult, Sound, Lists;
      for k := 0 to |ids|
        invariant Valid() && swaps.Keys == old(swaps).Keys
        invariant forall id :: id in swaps ==>
          swaps[id] == if id in ids[..k] then TickResult(config, old(swaps)[id], worlds(id)).swap else old(swaps)[id]
      {
        var id := ids[k];
        OnceListed(all, InProgress(old(swaps)), ids, k);
        assert ids[..k + 1] == ids[..k] + [id];
        Tend(id, worlds(id));
      }
      assert ids[..|ids|] == ids;
    }
  }

  lemma OnceListed(all: seq<string>, keys: set<string>, ids: seq<string>, k: nat)
    requires Lists(all, keys) && ids <= all && k < |ids|
    ensures ids[k] in keys && ids[k] !in ids[..k]
  {
    hide Before;
    assert all[k] == ids[k] && all[k] in all;
    forall j | 0 <= j < k ensures ids[j] != ids[k] {
      assert all[j] == ids[j] && Before(all[j], all[k]);
      BeforeTotal(all[j], all[k]);
    }
  }

  method Moved(s0: ChatSwap, st: Step, now: int, shapeOk: bool) returns (s: ChatSwap)
    ensures s == Stepped(s0, st, now, shapeOk)
    ensures s.deal == s0.deal && (Sound(s0) ==> Sound(s))
  {
    s := s0;
    if st.Lock1? && !s.deal.maker && s.stage.TakeSent? && st.chain == s.deal.want && shapeOk {
      s := s.(theirs := Contract(st.contract, st.txid, st.vout));
      s := s.(theirRecv := st.to);
      s := s.(theirSince := now);
      s := s.(stage := CheckingTheirs);
    } else if st.Lock2? && s.deal.maker && s.stage.Locked? && st.chain == s.deal.want {
      s := s.(theirs := Contract(st.contract, st.txid, st.vout));
      s := s.(theirSince := now);
      s := s.(stage := Redeeming);
    } else if st.CancelStep? {
      if Empty(s.mine.txid) && !s.userOk && !IsFinal(s.stage) {
        s := s.(stage := Cancelled);
      }
    }
  }
}
