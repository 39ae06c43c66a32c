/** The one order in which an arriving frame is judged (src/btfchatlink.cpp,
    `Inbox::Deliver`): the signature, who hands it over, consent, replay, the effect.  A
    frame is what its signature opened to, or nothing. */
module Inboxes {
  import opened Options
  import opened Rosters
  import opened Histories
  import opened Replay
  import RosterClass

  /** The three tables the inbox drives. */
  datatype Desk = Desk(book: Book, seen: Table, log: Log)

  datatype Outcome = Outcome(desk: Desk, ok: bool, reply: string)

  /** What reaches the inbox: the opened frame, whether the proof in a group invite holds,
      and the peer of the link, if there is one. */
  datatype Arrival = Arrival(frame: Option<Frame>, proven: bool, peer: string, now: int)

  predicate OneToOne(kind: MsgKind) { !kind.GroupText? && !kind.GroupInvites? }

  /** Signature, hand-over, consent and proof: everything before the replay table. */
  predicate Welcome(b: Book, me: string, a: Arrival) {
    && me != "" && a.frame.Some?
    && var f := a.frame.value;
       && (a.peer != "" && OneToOne(f.kind) ==> f.from == a.peer)
       && (if f.kind.GroupText? then MayDeliverGroup(b, f.group, f.from) else MayDeliver(b, f.from, f.kind))
       && (f.kind.GroupInvites? ==> a.proven)
  }

  /** The roster's part of the effect: at most one move. */
  function MoveOf(b: Book, f: Frame): Option<Move> {
    match f.kind
    case Invites => if StateOf(b, f.from).Accepted? then None else Some(Incoming(f.from, f.text, f.sent))
    case InviteAccept => Some(TheyAccept(f.from))
    case GroupInvites => Some(InviteToGroup(f.group, f.text, f.from, f.from, f.sent))
    case Text | PayAddress | Payment | Swap =>
      if StateOf(b, f.from).InviteOut? then Some(TheyAccept(f.from)) else None
    case SwapOffer | GroupText => None
  }

  predicate Logs(kind: MsgKind) { kind.Text? || kind.PayAddress? || kind.Payment? || kind.Swap? || kind.GroupText? }

  function Filed(log: Log, f: Frame): Option<Log> {
    Appended(log, f, if f.kind.GroupText? then "" else f.from, false)
  }

  /** The effect of a frame that was let through. */
  function Effected(d: Desk, me: string, f: Frame): Outcome {
    var m := MoveOf(d.book, f);
    var moved := if m.Some? then Result(d.book, me, m.value) else Some(d.book);
    if f.kind.SwapOffer? || moved.None? then Outcome(d, false, "")
    else if !Logs(f.kind) then
      var st := StateOf(d.book, f.from);
      Outcome(d.(book := moved.value), true,
              if f.kind.Invites? && (st.Accepted? || st.InviteOut?) then f.from else "")
    else
      var log := Filed(d.log, f);
      Outcome(d.(book := moved.value, log := if log.Some? then log.value else d.log), log.Some?, "")
  }

  function Delivered(d: Desk, me: string, a: Arrival): Outcome {
    if !Welcome(d.book, me, a) then Outcome(d, false, "")
    else
      var f := a.frame.value;
      var n := d.(seen := Offered(d.seen, f.id, f.sent, a.now));
      if Admits(d.seen, f.id, f.sent, a.now) then Effected(n, me, f) else Outcome(n, false, "")
  }

  /** A post read off a community, which goes past the inbox to the same tables
      (`DeliverCommunityPosts`, src/btfchatnode.cpp): not from somebody blocked, once, and
      into the community's log.  Our own posts come back this way too. */
  function Posted(d: Desk, me: string, f: Frame, community: string, now: int): Outcome {
    if !(f.kind.GroupText? || f.kind.SwapOffer?) || f.group != community || StateOf(d.book, f.from).Blocked?
    then Outcome(d, false, "")
    else
      var n := d.(seen := Offered(d.seen, f.id, f.sent, now));
      var log := Appended(d.log, f, "", f.from == me);
      if Admits(d.seen, f.id, f.sent, now) && log.Some? then Outcome(n.(log := log.value), true, "")
      else Outcome(n, false, "")
  }

  class Inbox {
    const me: string
    const roster: RosterClass.Roster
    const replay: ReplayGuard
    const history: History
    var acceptReply: string

    constructor (me: string, roster: RosterClass.Roster, replay: ReplayGuard, history: History)
      ensures this.me == me && this.roster == roster && this.replay == replay && this.history == history
      ensures acceptReply == ""
    {
      this.me, this.roster, this.replay, this.history := me, roster, replay, history;
      acceptReply := "";
    }

    function Value(): Desk
      reads roster, replay, history
    {
      Desk(roster.Value(), replay.seen, history.Value())
    }

    method Judge(a: Arrival) returns (ok: bool)
      ensures ok == Welcome(roster.Value(), me, a) && (ok ==> a.frame.Some?)
    {
      hide MayDeliver, MayDeliverGroup;
      if me == "" || a.frame.None? {
        return false;
      }
      var f := a.frame.value;
      if a.peer != "" && !f.kind.GroupText? && !f.kind.GroupInvites? && f.from != a.peer {
        return false;
      }
      if f.kind.GroupText? {
        if !MayDeliverGroup(roster.Value(), f.group, f.from) {
          return false;
        }
      } else if !MayDeliver(roster.Value(), f.from, f.kind) {
        return false;
      }
      return !f.kind.GroupInvites? || a.proven;
    }

    method Effect(f: Frame) returns (ok: bool)
      requires acceptReply == ""
      modifies this, roster, history
      ensures Outcome(Value(), ok, acceptReply) == Effected(old(Value()), me, f)
    {
      hide Appended, IncomingInvite, NoteGroupInvite, InviteAccepted;
      ok := false;
      var before := roster.State(f.from);
      match f.kind
      case Invites =>
        if before.Accepted? {
          acceptReply := f.from;
          return true;
        }
        ok := roster.NoteIncomingInvite(f.from, f.text, f.sent);
        if ok && before.InviteOut? {
          acceptReply := f.from;
        }
      case InviteAccept => ok := roster.NoteInviteAccepted(f.from);
      case GroupInvites => ok := roster.NoteInvite(f.group, f.text, f.from, f.from, f.sent);
      case Text | PayAddress | Payment | Swap =>
        if before.InviteOut? {
          ok := roster.NoteInviteAccepted(f.from);
          if !ok {
            return;
          }
        }
        ok := history.Append(f, f.from, false);
      case GroupText => ok := history.Append(f, "", false);
      case SwapOffer =>
    }

    method Deliver(a: Arrival) returns (ok: bool)
      modifies this, roster, replay, history
      ensures Outcome(Value(), ok, acceptReply) == Delivered(old(Value()), me, a)
    {
      hide Admits, Offered, Effected, Welcome;
      acceptReply := "";
      ok := Judge(a);
      if !ok {
        return;
      }
      var f := a.frame.value;
      ok := replay.Accept(f.id, f.sent, a.now);
      if !ok {
        return;
      }
      ok := Effect(f);
    }

    method DeliverPost(f: Frame, community: string, now: int) returns (ok: bool)
      modifies replay, history
      ensures Outcome(Value(), ok, "") == Posted(old(Value()), me, f, community, now)
    {
      hide Admits, Offered, Appended;
      if (!f.kind.GroupText? && !f.kind.SwapOffer?) || f.group != community {
        return false;
      }
      var st := roster.State(f.from);
      if st.Blocked? {
        return false;
      }
      ok := replay.Accept(f.id, f.sent, now);
      if ok {
        ok := history.Append(f, "", f.from == me);
      }
    }
  }
}
