/** The table of frame ids already delivered (src/btfchatmsg.cpp, `ReplayGuard`). */
module Replay {
  import opened Maps

  const FRAME_FUTURE_SKEW := 300
  const FRAME_MAX_AGE := 24 * 60 * 60
  const MAX_SEEN_FRAMES: nat := 4096

  type Table = map<string, int>

  function Pruned(seen: Table, now: int): Table {
    map id | id in seen && now - seen[id] <= FRAME_MAX_AGE :: seen[id]
  }

  predicate InTime(id: string, sent: int, now: int) {
    |id| == 32 && sent <= now + FRAME_FUTURE_SKEW && now - sent <= FRAME_MAX_AGE
  }

  predicate Admits(seen: Table, id: string, sent: int, now: int) {
    InTime(id, sent, now) && id !in Pruned(seen, now) && |Pruned(seen, now)| < MAX_SEEN_FRAMES
  }

  /** The table after a frame was offered; one that is out of time leaves it alone. */
  function Offered(seen: Table, id: string, sent: int, now: int): Table {
    if !InTime(id, sent, now) then seen
    else if Admits(seen, id, sent, now) then Pruned(seen, now)[id := sent]
    else Pruned(seen, now)
  }

  /** The table stays within its cap. */
  lemma OfferedBounded(seen: Table, id: string, sent: int, now: int)
    requires |seen| <= MAX_SEEN_FRAMES
    ensures |Offered(seen, id, sent, now)| <= MAX_SEEN_FRAMES
  {
    Smaller(seen, Pruned(seen, now));
  }

  /** An id is forgotten only when its own frame is too old to be admitted again. */
  ghost predicate Remembers(seen: Table, id: string, sent: int, clock: int) {
    (id in seen && seen[id] == sent) || clock - sent > FRAME_MAX_AGE
  }

  lemma OfferedRemembers(seen: Table, id: string, sent: int, clock: int, other: string, when: int, now: int)
    requires Remembers(seen, id, sent, clock) && clock <= now
    ensures Remembers(Offered(seen, other, when, now), id, sent, now)
    ensures Admits(seen, other, when, now) ==> (id, sent) != (other, when) && Remembers(Offered(seen, other, when, now), other, when, now)
  {
    assert id in seen && seen[id] == sent && now - sent <= FRAME_MAX_AGE ==> id in Pruned(seen, now);
  }

  class ReplayGuard {
    var seen: Table

    constructor ()
      ensures seen == map[]
    {
      seen := map[];
    }

    method Prune(now: int)
      modifies this
      ensures seen == Pruned(old(seen), now)
    {
      var todo := seen.Keys;
      while todo != {}
        invariant todo <= old(seen).Keys
        invariant seen == map id | id in old(seen) && (id in todo || now - old(seen)[id] <= FRAME_MAX_AGE) :: old(seen)[id]
        decreases |todo|
      {
        var id :| id in todo;
        if now - seen[id] > FRAME_MAX_AGE {
          seen := seen - {id};
        }
        todo := todo - {id};
      }
    }

    method Accept(id: string, sent: int, now: int) returns (ok: bool)
      modifies this
      ensures ok == Admits(old(seen), id, sent, now)
      ensures seen == Offered(old(seen), id, sent, now)
    {
      if |id| != 32 || sent > now + FRAME_FUTURE_SKEW || now - sent > FRAME_MAX_AGE {
        return false;
      }
      Prune(now);
      if id in seen || |seen| >= MAX_SEEN_FRAMES {
        return false;
      }
      seen := seen[id := sent];
      return true;
    }
  }
}
