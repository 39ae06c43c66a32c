/** The message logs (src/btfchatlog.cpp, `History`).  `mapDirect` and `mapGroup` are one
    map whose keys say which of the two they are in. */
module Histories {
  import opened Options
  import opened Rosters
  import opened Indexed

  const MAX_CONVERSATION_MESSAGES: nat := 5000
  const MAX_CONVERSATIONS: nat := 1024

  datatype Frame = Frame(kind: MsgKind, from: string, id: string, sent: int, group: string, text: string,
                         payTo: string, amount: int, txid: string)

  datatype Line = Line(from: string, sent: int, text: string, outgoing: bool, kind: MsgKind,
                       payTo: string, amount: int, txid: string)

  datatype Conversation = Direct(peer: string) | Room(group: string)

  datatype Log = Log(logs: Lists<Conversation, Line>, seen: set<string>)

  const EmptyLog := Log(map[], {})

  ghost predicate LogOk(h: Log) {
    && IndexOk(h.logs, h.seen)
    && |h.logs| <= MAX_CONVERSATIONS
    && forall k :: k in h.logs ==> 0 < |h.logs[k]| <= MAX_CONVERSATION_MESSAGES
  }

  /** A line filed at the end of its conversation; a full one loses its oldest line. */
  function Pushed(h: Log, k: Conversation, e: Item<Line>): Option<Log> {
    if k !in h.logs && |h.logs| >= MAX_CONVERSATIONS then None
    else
      var v := ListOf(h.logs, k) + [e];
      if |v| > MAX_CONVERSATION_MESSAGES
      then Some(Log(h.logs[k := v[1..]], h.seen - {v[0].id} + {e.id}))
      else Some(Log(h.logs[k := v], h.seen + {e.id}))
  }

  function LineOf(f: Frame, outgoing: bool): Item<Line> {
    Item(f.id, Line(f.from, f.sent, f.text, outgoing, f.kind, f.payTo, f.amount, f.txid))
  }

  /** Where a frame is filed, if it is a message at all. */
  function FiledUnder(f: Frame, peer: string, outgoing: bool): Option<Conversation> {
    match f.kind
    case GroupText | SwapOffer => if f.group == "" then None else Some(Room(f.group))
    case Text | PayAddress | Payment | Swap =>
      if peer == "" || (!outgoing && peer != f.from) || (outgoing && peer == f.from) then None
      else Some(Direct(peer))
    case Invites | InviteAccept | GroupInvites => None
  }

  predicate Recordable(f: Frame) {
    && |f.id| == 32 && f.from != ""
    && (if f.kind.PayAddress? || f.kind.Payment? then f.payTo != "" else f.text != "")
  }

  function Appended(h: Log, f: Frame, peer: string, outgoing: bool): Option<Log> {
    if !Recordable(f) || f.id in h.seen || FiledUnder(f, peer, outgoing).None? then None
    else Pushed(h, FiledUnder(f, peer, outgoing).value, LineOf(f, outgoing))
  }

  function Forgotten(h: Log, k: Conversation): Log {
    if k !in h.logs then h else Log(h.logs - {k}, h.seen - IdsOf(h.logs[k]))
  }

  // ---- the index agrees with the logs, through eviction and forgetting -------------------------

  lemma PushedOk(h: Log, k: Conversation, e: Item<Line>)
    requires LogOk(h) && e.id !in h.seen && Pushed(h, k, e).Some?
    ensures LogOk(Pushed(h, k, e).value)
  {
    hide IndexOk;
    var v := ListOf(h.logs, k) + [e];
    var m := h.logs[k := v];
    PushOk(h.logs, h.seen, k, e);
    InIndex(h.logs, h.seen, k);
    if |v| > MAX_CONVERSATION_MESSAGES {
      CutOk(m, h.seen + {e.id}, k, 0);
      assert v[..0] + v[1..] == v[1..];
      assert m[k := v[1..]] == h.logs[k := v[1..]];
      assert v[0] == h.logs[k][0] && v[0].id in IdsOf(h.logs[k]);
      assert h.seen + {e.id} - {v[0].id} == h.seen - {v[0].id} + {e.id};
    }
  }

  lemma AppendedOk(h: Log, f: Frame, peer: string, outgoing: bool)
    requires LogOk(h) && Appended(h, f, peer, outgoing).Some?
    ensures LogOk(Appended(h, f, peer, outgoing).value)
  {
    hide LogOk, Pushed;
    PushedOk(h, FiledUnder(f, peer, outgoing).value, LineOf(f, outgoing));
  }

  lemma ForgottenOk(h: Log, k: Conversation)
    requires LogOk(h)
    ensures LogOk(Forgotten(h, k))
  {
    hide IndexOk;
    if k in h.logs {
      assert IdsOf<Line>([]) == {};
      ReplaceOk(h.logs, h.seen, k, []);
    }
  }

  /** What the index is for: an id is refused a second line exactly while its line is there. */
  lemma SeenIsLogged(h: Log, x: string)
    requires LogOk(h)
    ensures x in h.seen <==> exists k, i :: k in h.logs && 0 <= i < |h.logs[k]| && h.logs[k][i].id == x
  {
    var p := IdMap(h.logs);
    if x in h.seen {
      assert Somewhere(p, x);
      var k :| k in p && x in p[k];
      assert x in IdsOf(h.logs[k]);
    }
    if k, i :| k in h.logs && 0 <= i < |h.logs[k]| && h.logs[k][i].id == x {
      assert x in IdsOf(h.logs[k]) && x in p[k];
    }
  }

  class History {
    var logs: Lists<Conversation, Line>
    var seen: set<string>

    function Value(): Log
      reads this
    {
      Log(logs, seen)
    }

    constructor ()
      ensures Value() == EmptyLog
    {
      logs, seen := map[], {};
    }

    method PushInto(k: Conversation, e: Item<Line>) returns (ok: bool)
      modifies this
      ensures ok == Pushed(old(Value()), k, e).Some?
      ensures ok ==> Log(logs, seen + {e.id}) == Pushed(old(Value()), k, e).value
      ensures !ok ==> Value() == old(Value())
    {
      if k !in logs && |logs| >= MAX_CONVERSATIONS {
        return false;
      }
      logs := logs[k := ListOf(logs, k) + [e]];
      if |logs[k]| > MAX_CONVERSATION_MESSAGES {
        seen := seen - {logs[k][0].id};
        logs := logs[k := logs[k][1..]];
      }
      return true;
    }

    method Append(f: Frame, peer: string, outgoing: bool) returns (ok: bool)
      modifies this
      ensures ok == Appended(old(Value()), f, peer, outgoing).Some?
      ensures Value() == if ok then Appended(old(Value()), f, peer, outgoing).value else old(Value())
    {
      if |f.id| != 32 || f.from == "" {
        return false;
      }
      var pay := f.kind.PayAddress? || f.kind.Payment?;
      if (if pay then f.payTo == "" else f.text == "") || f.id in seen {
        return false;
      }
      var e := LineOf(f, outgoing);
      ok := false;
      if f.kind.GroupText? || f.kind.SwapOffer? {
        if f.group == "" {
          return false;
        }
        ok := PushInto(Room(f.group), e);
      } else if f.kind.Text? || f.kind.PayAddress? || f.kind.Payment? || f.kind.Swap? {
        if peer == "" || (!outgoing && peer != f.from) || (outgoing && peer == f.from) {
          return false;
        }
        ok := PushInto(Direct(peer), e);
      } else {
        return false;
      }
      if ok {
        seen := seen + {f.id};
      }
    }

    /** `ForgetPeer` and `ForgetGroup`. */
    method Forget(k: Conversation)
      modifies this
      ensures Value() == Forgotten(old(Value()), k)
    {
      if k !in logs {
        return;
      }
      var v := logs[k];
      for i := 0 to |v|
        invariant logs == old(logs) && seen == old(seen) - IdsOf(v[..i])
      {
        assert v[..i + 1] == v[..i] + [v[i]];
        PushIds(v[..i], v[i]);
        seen := seen - {v[i].id};
      }
      assert v[..|v|] == v;
      logs := logs - {k};
    }

    method Wipe()
      modifies this
      ensures Value() == EmptyLog
    {
      logs, seen := map[], {};
    }
  }
}
