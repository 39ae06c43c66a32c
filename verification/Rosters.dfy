/** Who may speak to us (src/btfchat.cpp, `Roster`): the peers' states, the pending
    invites, the groups we are in and the invites to groups.  The transitions are the
    functions here, `None` where the code refuses; the class in `RosterClass` carries them
    out in place. */
module Rosters {
  import opened Options
  import opened Maps

  const MAX_INVITE_NOTE := 140
  const MAX_GROUP_NAME := 64
  const MAX_PENDING_INVITES := 128

  datatype PeerState = Unknown | InviteIn | InviteOut | Accepted | Blocked
  datatype MsgKind = Invites | InviteAccept | Text | GroupInvites | GroupText | PayAddress | Payment | SwapOffer | Swap

  datatype Invite = Invite(address: string, note: string, received: int)
  datatype Group = Group(id: string, name: string, admin: string, members: seq<string>)
  datatype GroupInvite = GroupInvite(group: Group, from: string, received: int)

  datatype Book = Book(peers: map<string, PeerState>, pending: map<string, Invite>,
                       groups: map<string, Group>, groupInvites: map<string, GroupInvite>)

  const EmptyBook := Book(map[], map[], map[], map[])

  function StateOf(b: Book, a: string): PeerState {
    if a in b.peers then b.peers[a] else Unknown
  }

  function TotalPending(b: Book): nat { |b.pending| + |b.groupInvites| }

  // ---- the gates --------------------------------------------------------------------------

  predicate MayDeliver(b: Book, a: string, kind: MsgKind) {
    && a != ""
    && var st := StateOf(b, a);
       && !st.Blocked?
       && match kind
          case Invites => st.Unknown? || st.InviteOut? || st.Accepted?
          case InviteAccept => st.InviteOut?
          case Text | PayAddress | Payment | Swap => st.Accepted? || st.InviteOut?
          case SwapOffer | GroupText => false
          case GroupInvites => true
  }

  predicate MayDeliverGroup(b: Book, id: string, from: string) {
    !StateOf(b, from).Blocked? && id in b.groups && from in b.groups[id].members
  }

  // ---- the transitions ----------------------------------------------------------------------

  function Put(b: Book, a: string, st: PeerState): Book { b.(peers := b.peers[a := st]) }

  function IncomingInvite(b: Book, a: string, note: string, now: int): Option<Book> {
    var st := StateOf(b, a);
    if a == "" || |note| > MAX_INVITE_NOTE || st.Blocked? || st.Accepted? || st.InviteIn? then None
    else if st.InviteOut? then Some(Put(b, a, Accepted))
    else if TotalPending(b) >= MAX_PENDING_INVITES then None
    else Some(Put(b, a, InviteIn).(pending := b.pending[a := Invite(a, note, now)]))
  }

  function OutgoingInvite(b: Book, a: string): Option<Book> {
    var st := StateOf(b, a);
    if a == "" || st.Blocked? || st.Accepted? || st.InviteOut? then None
    else if st.InviteIn? then Some(Put(b, a, Accepted).(pending := b.pending - {a}))
    else Some(Put(b, a, InviteOut))
  }

  function AcceptInvite(b: Book, a: string): Option<Book> {
    if StateOf(b, a).InviteIn? then Some(Put(b, a, Accepted).(pending := b.pending - {a})) else None
  }

  function InviteAccepted(b: Book, a: string): Option<Book> {
    if StateOf(b, a).InviteOut? then Some(Put(b, a, Accepted)) else None
  }

  function DeclineInvite(b: Book, a: string): Option<Book> {
    if StateOf(b, a).InviteIn? then Some(b.(peers := b.peers - {a}, pending := b.pending - {a})) else None
  }

  function Without(members: seq<string>, a: string): (r: seq<string>)
    ensures forall m :: m in r <==> m in members && m != a
  {
    if members == [] then []
    else
      var k := |members| - 1;
      Without(members[..k], a) + if members[k] == a then [] else [members[k]]
  }

  function Block(b: Book, a: string): Option<Book> {
    if a == "" then None
    else Some(Book(
      b.peers[a := Blocked],
      b.pending - {a},
      map id | id in b.groups :: b.groups[id].(members := Without(b.groups[id].members, a)),
      map id | id in b.groupInvites && b.groupInvites[id].from != a :: b.groupInvites[id]))
  }

  function CreateGroup(b: Book, me: string, id: string, name: string): Option<Book> {
    if id == "" || me == "" || name == "" || |name| > MAX_GROUP_NAME || id in b.groups || id in b.groupInvites
    then None
    else Some(b.(groups := b.groups[id := Group(id, name, me, [me])]))
  }

  function NoteGroupInvite(b: Book, id: string, name: string, admin: string, from: string, now: int): Option<Book> {
    if id == "" || name == "" || admin == "" || from == "" || |name| > MAX_GROUP_NAME then None
    else if StateOf(b, from).Blocked? || from != admin || id in b.groups || id in b.groupInvites then None
    else if TotalPending(b) >= MAX_PENDING_INVITES then None
    else Some(b.(groupInvites := b.groupInvites[id := GroupInvite(Group(id, name, admin, [admin]), from, now)]))
  }

  function AcceptGroupInvite(b: Book, me: string, id: string): Option<Book> {
    if id !in b.groupInvites || me == "" then None
    else
      var g := b.groupInvites[id].group;
      var joined := if me in g.members then g else g.(members := g.members + [me]);
      Some(b.(groups := b.groups[id := joined], groupInvites := b.groupInvites - {id}))
  }

  function AddGroupMember(b: Book, me: string, id: string, a: string): Option<Book> {
    if id !in b.groups then None
    else
      var g := b.groups[id];
      if g.admin != me || me !in g.members || a == "" || StateOf(b, a).Blocked? || a in g.members then None
      else Some(b.(groups := b.groups[id := g.(members := g.members + [a])]))
  }

  function RemoveGroupMember(b: Book, me: string, id: string, a: string): Option<Book> {
    if id !in b.groups then None
    else
      var g := b.groups[id];
      if g.admin != me || a == g.admin || a !in g.members then None
      else Some(b.(groups := b.groups[id := g.(members := Without(g.members, a))]))
  }

  function LeaveGroup(b: Book, me: string, id: string): Option<Book> {
    if id !in b.groups || me !in b.groups[id].members then None else Some(b.(groups := b.groups - {id}))
  }

  // ---- runs --------------------------------------------------------------------------------------

  datatype Move =
    | Incoming(a: string, note: string, now: int)
    | Outgoing(a: string)
    | Accept(a: string)
    | TheyAccept(a: string)
    | Decline(a: string)
    | BlockThem(a: string)
    | Create(id: string, name: string)
    | InviteToGroup(id: string, name: string, admin: string, from: string, now: int)
    | Join(id: string)
    | Add(id: string, a: string)
    | Remove(id: string, a: string)
    | Leave(id: string)

  function Result(b: Book, me: string, m: Move): Option<Book> {
    match m
    case Incoming(a, note, now) => IncomingInvite(b, a, note, now)
    case Outgoing(a) => OutgoingInvite(b, a)
    case Accept(a) => AcceptInvite(b, a)
    case TheyAccept(a) => InviteAccepted(b, a)
    case Decline(a) => DeclineInvite(b, a)
    case BlockThem(a) => Block(b, a)
    case Create(id, name) => CreateGroup(b, me, id, name)
    case InviteToGroup(id, name, admin, from, now) => NoteGroupInvite(b, id, name, admin, from, now)
    case Join(id) => AcceptGroupInvite(b, me, id)
    case Add(id, a) => AddGroupMember(b, me, id, a)
    case Remove(id, a) => RemoveGroupMember(b, me, id, a)
    case Leave(id) => LeaveGroup(b, me, id)
  }

  /** A roster and the moves that changed it, oldest first. */
  datatype Run = Run(book: Book, moves: seq<Move>)

  const Start := Run(EmptyBook, [])

  function Next(r: Run, me: string, m: Move): Run {
    var n := Result(r.book, me, m);
    if n.Some? then Run(n.value, r.moves + [m]) else r
  }

  function After(me: string, moves: seq<Move>): Run {
    if moves == [] then Start else Next(After(me, moves[..|moves| - 1]), me, moves[|moves| - 1])
  }

  /** Did the person here, did the address, say yes since an invite was last declined? */
  predicate Ours(moves: seq<Move>, a: string) {
    if moves == [] then false
    else
      var m := moves[|moves| - 1];
      if m == Outgoing(a) || m == Accept(a) then true
      else if m == Decline(a) then false
      else Ours(moves[..|moves| - 1], a)
  }

  predicate Theirs(moves: seq<Move>, a: string) {
    if moves == [] then false
    else
      var m := moves[|moves| - 1];
      if (m.Incoming? && m.a == a) || m == TheyAccept(a) then true
      else if m == Decline(a) then false
      else Theirs(moves[..|moves| - 1], a)
  }

  ghost predicate PendingOk(b: Book) {
    forall a :: a in b.pending <==> StateOf(b, a).InviteIn?
  }

  ghost predicate GroupsOk(b: Book, me: string) {
    && (forall id :: id in b.groupInvites ==> id !in b.groups)
    && (forall id :: id in b.groupInvites ==>
          && b.groupInvites[id].group.members == [b.groupInvites[id].from]
          && !StateOf(b, b.groupInvites[id].from).Blocked?)
    && (forall id :: id in b.groups ==> Clean(b, me, b.groups[id].members))
  }

  ghost predicate Clean(b: Book, me: string, members: seq<string>) {
    forall a :: a in members && StateOf(b, a).Blocked? ==> a == me
  }

  ghost predicate ConsentOk(r: Run) {
    forall a {:trigger StateOf(r.book, a)} ::
      && (StateOf(r.book, a).InviteIn? ==> Theirs(r.moves, a))
      && (StateOf(r.book, a).InviteOut? ==> Ours(r.moves, a))
      && (StateOf(r.book, a).Accepted? ==> Ours(r.moves, a) && Theirs(r.moves, a))
  }

  ghost predicate BookOk(b: Book, me: string) {
    PendingOk(b) && GroupsOk(b, me) && TotalPending(b) <= MAX_PENDING_INVITES
  }

  ghost predicate Inv(r: Run, me: string) { BookOk(r.book, me) && ConsentOk(r) }

  lemma GroupsSame(b: Book, n: Book, me: string)
    requires GroupsOk(b, me) && n.groups == b.groups && n.groupInvites == b.groupInvites
    requires forall a :: StateOf(n, a).Blocked? ==> StateOf(b, a).Blocked?
    ensures GroupsOk(n, me)
  {
    hide StateOf;
    forall id | id in n.groups ensures Clean(n, me, n.groups[id].members) {
      assert Clean(b, me, b.groups[id].members);
    }
  }

  lemma GroupsBlock(b: Book, me: string, a: string)
    requires GroupsOk(b, me) && a != ""
    ensures GroupsOk(Block(b, a).value, me)
  {
    var n := Block(b, a).value;
    forall id | id in n.groups ensures Clean(n, me, n.groups[id].members) {
      assert Clean(b, me, b.groups[id].members);
    }
  }

  /** One group's members changed, or a group gone, or an invite answered. */
  lemma GroupsChange(b: Book, n: Book, me: string, id: string)
    requires GroupsOk(b, me) && n.peers == b.peers
    requires forall k :: k != id ==>
               && (k in n.groups <==> k in b.groups) && (k in n.groupInvites <==> k in b.groupInvites)
               && (k in n.groups ==> n.groups[k] == b.groups[k])
               && (k in n.groupInvites ==> n.groupInvites[k] == b.groupInvites[k])
    requires id in n.groups ==> id !in n.groupInvites && Clean(b, me, n.groups[id].members)
    requires id in n.groupInvites ==>
               && n.groupInvites[id].group.members == [n.groupInvites[id].from]
               && !StateOf(b, n.groupInvites[id].from).Blocked?
    ensures GroupsOk(n, me)
  {
    forall k | k in n.groups ensures Clean(n, me, n.groups[k].members) {
      if k != id {
        assert Clean(b, me, b.groups[k].members);
      } else {
        assert Clean(b, me, n.groups[k].members);
      }
    }
  }

  lemma ConsentKept(r: Run, me: string, m: Move)
    requires ConsentOk(r) && Result(r.book, me, m).Some?
    ensures ConsentOk(Next(r, me, m))
  {
    var n := Next(r, me, m);
    assert n.moves[..|r.moves|] == r.moves;
    forall a
      ensures StateOf(n.book, a).InviteIn? ==> Theirs(n.moves, a)
      ensures StateOf(n.book, a).InviteOut? ==> Ours(n.moves, a)
      ensures StateOf(n.book, a).Accepted? ==> Ours(n.moves, a) && Theirs(n.moves, a)
    {
      StateMoves(r.book, me, m, a);
    }
  }

  /** How one address's state can change. */
  lemma StateMoves(b: Book, me: string, m: Move, a: string)
    requires Result(b, me, m).Some?
    ensures
      var s, t := StateOf(b, a), StateOf(Result(b, me, m).value, a);
      || (s == t && m != Decline(a))
      || (m == Decline(a) && s.InviteIn? && t.Unknown?)
      || (m.Incoming? && m.a == a && ((s.Unknown? && t.InviteIn?) || (s.InviteOut? && t.Accepted?)))
      || (m == Outgoing(a) && ((s.Unknown? && t.InviteOut?) || (s.InviteIn? && t.Accepted?)))
      || (m == Accept(a) && s.InviteIn? && t.Accepted?)
      || (m == TheyAccept(a) && s.InviteOut? && t.Accepted?)
      || (m == BlockThem(a) && t.Blocked?)
  {
    hide Without, TotalPending;
  }

  /** One address's state changed to anything but blocked, and its pending invite with it. */
  lemma PersonKept(b: Book, n: Book, me: string, a: string)
    requires BookOk(b, me) && n.groups == b.groups && n.groupInvites == b.groupInvites
    requires forall k :: k != a ==> StateOf(n, k) == StateOf(b, k) && (k in n.pending <==> k in b.pending)
    requires !StateOf(n, a).Blocked? && (a in n.pending <==> StateOf(n, a).InviteIn?)
    requires n.pending.Keys <= b.pending.Keys || TotalPending(n) <= MAX_PENDING_INVITES
    ensures BookOk(n, me)
  {
    hide StateOf;
    GroupsSame(b, n, me);
    if n.pending.Keys <= b.pending.Keys {
      Smaller(b.pending, n.pending);
    }
  }

  lemma IncomingKept(b: Book, me: string, a: string, note: string, now: int)
    requires BookOk(b, me) && IncomingInvite(b, a, note, now).Some?
    ensures BookOk(IncomingInvite(b, a, note, now).value, me)
  {
    hide GroupsOk;
    PersonKept(b, IncomingInvite(b, a, note, now).value, me, a);
  }

  lemma OutgoingKept(b: Book, me: string, a: string)
    requires BookOk(b, me) && OutgoingInvite(b, a).Some?
    ensures BookOk(OutgoingInvite(b, a).value, me)
  {
    hide GroupsOk, TotalPending;
    var n := OutgoingInvite(b, a).value;
    assert n.pending.Keys <= b.pending.Keys;
    PersonKept(b, n, me, a);
  }

  lemma AnswerKept(b: Book, me: string, a: string)
    requires BookOk(b, me)
    ensures AcceptInvite(b, a).Some? ==> BookOk(AcceptInvite(b, a).value, me)
    ensures DeclineInvite(b, a).Some? ==> BookOk(DeclineInvite(b, a).value, me)
    ensures InviteAccepted(b, a).Some? ==> BookOk(InviteAccepted(b, a).value, me)
  {
    hide GroupsOk;
    if AcceptInvite(b, a).Some? {
      PersonKept(b, AcceptInvite(b, a).value, me, a);
    }
    if DeclineInvite(b, a).Some? {
      PersonKept(b, DeclineInvite(b, a).value, me, a);
    }
    if InviteAccepted(b, a).Some? {
      PersonKept(b, InviteAccepted(b, a).value, me, a);
    }
  }

  lemma PendingBlock(b: Book, a: string)
    requires PendingOk(b) && a != ""
    ensures PendingOk(Block(b, a).value)
  {
    hide Without;
    var n := Block(b, a).value;
    assert n.peers == b.peers[a := Blocked] && n.pending == b.pending - {a};
    forall k ensures k in n.pending <==> StateOf(n, k).InviteIn? {
      assert k in b.pending <==> StateOf(b, k).InviteIn?;
    }
  }

  lemma CapBlock(b: Book, a: string)
    requires a != ""
    ensures TotalPending(Block(b, a).value) <= TotalPending(b)
  {
    hide Without;
    var n := Block(b, a).value;
    assert n.pending.Keys <= b.pending.Keys && n.groupInvites.Keys <= b.groupInvites.Keys;
    Smaller(b.pending, n.pending);
    Smaller(b.groupInvites, n.groupInvites);
  }

  lemma BlockKept(b: Book, me: string, a: string)
    requires BookOk(b, me) && a != ""
    ensures BookOk(Block(b, a).value, me)
  {
    hide PendingOk, GroupsOk, TotalPending, Block;
    GroupsBlock(b, me, a);
    PendingBlock(b, a);
    CapBlock(b, a);
  }

  /** One group, or one invite to a group, changed. */
  lemma GroupKept(b: Book, n: Book, me: string, id: string)
    requires BookOk(b, me) && n.peers == b.peers && n.pending == b.pending
    requires forall k :: k != id ==>
               && (k in n.groups <==> k in b.groups) && (k in n.groupInvites <==> k in b.groupInvites)
               && (k in n.groups ==> n.groups[k] == b.groups[k])
               && (k in n.groupInvites ==> n.groupInvites[k] == b.groupInvites[k])
    requires id in n.groups ==> id !in n.groupInvites && Clean(b, me, n.groups[id].members)
    requires id in n.groupInvites ==>
               && n.groupInvites[id].group.members == [n.groupInvites[id].from]
               && !StateOf(b, n.groupInvites[id].from).Blocked?
    requires n.groupInvites.Keys <= b.groupInvites.Keys || TotalPending(n) <= MAX_PENDING_INVITES
    ensures BookOk(n, me)
  {
    GroupsChange(b, n, me, id);
    if n.groupInvites.Keys <= b.groupInvites.Keys {
      Smaller(b.groupInvites, n.groupInvites);
    }
  }

  lemma CreateKept(b: Book, me: string, id: string, name: string)
    requires BookOk(b, me) && CreateGroup(b, me, id, name).Some?
    ensures BookOk(CreateGroup(b, me, id, name).value, me)
  {
    GroupKept(b, CreateGroup(b, me, id, name).value, me, id);
  }

  lemma GroupInviteKept(b: Book, me: string, id: string, name: string, admin: string, from: string, now: int)
    requires BookOk(b, me) && NoteGroupInvite(b, id, name, admin, from, now).Some?
    ensures BookOk(NoteGroupInvite(b, id, name, admin, from, now).value, me)
  {
    GroupKept(b, NoteGroupInvite(b, id, name, admin, from, now).value, me, id);
  }

  lemma JoinKept(b: Book, me: string, id: string)
    requires BookOk(b, me) && AcceptGroupInvite(b, me, id).Some?
    ensures BookOk(AcceptGroupInvite(b, me, id).value, me)
  {
    GroupKept(b, AcceptGroupInvite(b, me, id).value, me, id);
  }

  lemma MembersKept(b: Book, me: string, id: string, a: string)
    requires BookOk(b, me)
    ensures AddGroupMember(b, me, id, a).Some? ==> BookOk(AddGroupMember(b, me, id, a).value, me)
    ensures RemoveGroupMember(b, me, id, a).Some? ==> BookOk(RemoveGroupMember(b, me, id, a).value, me)
  {
    if id in b.groups {
      assert Clean(b, me, b.groups[id].members);
    }
    if AddGroupMember(b, me, id, a).Some? {
      GroupKept(b, AddGroupMember(b, me, id, a).value, me, id);
    }
    if RemoveGroupMember(b, me, id, a).Some? {
      GroupKept(b, RemoveGroupMember(b, me, id, a).value, me, id);
    }
  }

  lemma LeaveKept(b: Book, me: string, id: string)
    requires BookOk(b, me) && LeaveGroup(b, me, id).Some?
    ensures BookOk(LeaveGroup(b, me, id).value, me)
  {
    GroupKept(b, LeaveGroup(b, me, id).value, me, id);
  }

  lemma BookKept(b: Book, me: string, m: Move)
    requires BookOk(b, me) && Result(b, me, m).Some?
    ensures BookOk(Result(b, me, m).value, me)
  {
    hide BookOk, IncomingInvite, OutgoingInvite, AcceptInvite, DeclineInvite, InviteAccepted, CreateGroup;
    hide NoteGroupInvite, AcceptGroupInvite, AddGroupMember, RemoveGroupMember, LeaveGroup;
    match m
    case Incoming(a, note, now) => IncomingKept(b, me, a, note, now);
    case Outgoing(a) => OutgoingKept(b, me, a);
    case Accept(a) => AnswerKept(b, me, a);
    case TheyAccept(a) => AnswerKept(b, me, a);
    case Decline(a) => AnswerKept(b, me, a);
    case BlockThem(a) => BlockKept(b, me, a);
    case Create(id, name) => CreateKept(b, me, id, name);
    case InviteToGroup(id, name, admin, from, now) => GroupInviteKept(b, me, id, name, admin, from, now);
    case Join(id) => JoinKept(b, me, id);
    case Add(id, a) => MembersKept(b, me, id, a);
    case Remove(id, a) => MembersKept(b, me, id, a);
    case Leave(id) => LeaveKept(b, me, id);
  }

  lemma NextKeeps(r: Run, me: string, m: Move)
    requires Inv(r, me)
    ensures Inv(Next(r, me, m), me)
  {
    hide Result, BookOk;
    if Result(r.book, me, m).Some? {
      BookKept(r.book, me, m);
      ConsentKept(r, me, m);
    }
  }

  lemma {:induction false} RunKeeps(me: string, moves: seq<Move>)
    ensures Inv(After(me, moves), me)
    decreases |moves|
  {
    if moves != [] {
      hide Inv, Next;
      RunKeeps(me, moves[..|moves| - 1]);
      NextKeeps(After(me, moves[..|moves| - 1]), me, moves[|moves| - 1]);
    }
  }

  // ---- the main results ----------------------------------------------------------------------------

  /** In every run from an empty roster, whatever was refused on the way: the pending
      invites are exactly the addresses that asked and wait, nobody is accepted without a
      yes from both sides since the last declined invite, no invite to a group comes from
      somebody blocked, nobody blocked but ourselves is in a group, no group is both
      joined and pending, and the pending list is bounded. */
  lemma RosterRuns(me: string, moves: seq<Move>)
    ensures
      var r := After(me, moves);
      && (forall a :: a in r.book.pending <==> StateOf(r.book, a).InviteIn?)
      && (forall a :: StateOf(r.book, a).Accepted? ==> Ours(r.moves, a) && Theirs(r.moves, a))
      && (forall id :: id in r.book.groupInvites ==>
            id !in r.book.groups && !StateOf(r.book, r.book.groupInvites[id].from).Blocked?)
      && (forall id :: id in r.book.groups ==> Clean(r.book, me, r.book.groups[id].members))
      && TotalPending(r.book) <= MAX_PENDING_INVITES
  {
    hide After, TotalPending;
    RunKeeps(me, moves);
  }

  /** Once blocked, always blocked, and no frame of theirs of any kind gets in. */
  lemma {:induction false} BlockedForGood(me: string, moves: seq<Move>, more: seq<Move>, a: string)
    requires StateOf(After(me, moves).book, a).Blocked?
    ensures
      var b := After(me, moves + more).book;
      && StateOf(b, a).Blocked?
      && (forall kind :: !MayDeliver(b, a, kind)) && (forall id :: !MayDeliverGroup(b, id, a))
    decreases |more|
  {
    if more == [] {
      assert moves + more == moves;
    } else {
      hide Result;
      var k := |more| - 1;
      BlockedForGood(me, moves, more[..k], a);
      var all := moves + more;
      assert all[..|all| - 1] == moves + more[..k] && all[|all| - 1] == more[k];
      var r := After(me, moves + more[..k]);
      if Result(r.book, me, more[k]).Some? {
        StateMoves(r.book, me, more[k], a);
      }
    }
  }
}
