/** The roster as the chat keeps it: four maps that the transitions change in place
    (src/btfchat.cpp). */
module RosterClass {
  import opened Options
  import opened Rosters

  class Roster {
    var peers: map<string, PeerState>
    var pending: map<string, Invite>
    var groups: map<string, Group>
    var groupInvites: map<string, GroupInvite>

    function Value(): Book
      reads this
    {
      Book(peers, pending, groups, groupInvites)
    }

    constructor ()
      ensures Value() == EmptyBook
    {
      peers, pending, groups, groupInvites := map[], map[], map[], map[];
    }

    method State(a: string) returns (st: PeerState)
      ensures st == StateOf(Value(), a)
    {
      if a in peers {
        return peers[a];
      }
      return Unknown;
    }

    method NoteIncomingInvite(a: string, note: string, now: int) returns (ok: bool)
      modifies this
      ensures ok == IncomingInvite(old(Value()), a, note, now).Some?
      ensures Value() == if ok then IncomingInvite(old(Value()), a, note, now).value else old(Value())
    {
      if a == "" || |note| > MAX_INVITE_NOTE {
        return false;
      }
      var st := State(a);
      if st.Blocked? || st.Accepted? || st.InviteIn? {
        return false;
      }
      if st.InviteOut? {
        peers := peers[a := Accepted];
        return true;
      }
      if |pending| + |groupInvites| >= MAX_PENDING_INVITES {
        return false;
      }
      pending := pending[a := Invite(a, note, now)];
      peers := peers[a := InviteIn];
      return true;
    }

    method NoteOutgoingInvite(a: string) returns (ok: bool)
      modifies this
      ensures ok == OutgoingInvite(old(Value()), a).Some?
      ensures Value() == if ok then OutgoingInvite(old(Value()), a).value else old(Value())
    {
      if a == "" {
        return false;
      }
      var st := State(a);
      if st.Blocked? || st.Accepted? || st.InviteOut? {
        return false;
      }
      if st.InviteIn? {
        pending := pending - {a};
        peers := peers[a := Accepted];
        return true;
      }
      peers := peers[a := InviteOut];
      return true;
    }

    method Accept(a: string) returns (ok: bool)
      modifies this
      ensures ok == AcceptInvite(old(Value()), a).Some?
      ensures Value() == if ok then AcceptInvite(old(Value()), a).value else old(Value())
    {
      var st := State(a);
      if !st.InviteIn? {
        return false;
      }
      pending := pending - {a};
      peers := peers[a := Accepted];
      return true;
    }

    method NoteInviteAccepted(a: string) returns (ok: bool)
      modifies this
      ensures ok == InviteAccepted(old(Value()), a).Some?
      ensures Value() == if ok then InviteAccepted(old(Value()), a).value else old(Value())
    {
      var st := State(a);
      if !st.InviteOut? {
        return false;
      }
      peers := peers[a := Accepted];
      return true;
    }

    method Decline(a: string) returns (ok: bool)
      modifies this
      ensures ok == DeclineInvite(old(Value()), a).Some?
      ensures Value() == if ok then DeclineInvite(old(Value()), a).value else old(Value())
    {
      var st := State(a);
      if !st.InviteIn? {
        return false;
      }
      pending := pending - {a};
      peers := peers - {a};
      return true;
    }

    /** The code takes the address out of every group, also of those somebody else runs. */
    method BlockPeer(a: string) returns (ok: bool)
      modifies this
      ensures ok == Block(old(Value()), a).Some?
      ensures Value() == if ok then Block(old(Value()), a).value else old(Value())
    {
      if a == "" {
        return false;
      }
      pending := pending - {a};
      peers := peers[a := Blocked];
      groupInvites := DropInvites(groupInvites, a);
      groups := DropMember(groups, a);
      return true;
    }

    method Create(me: string, id: string, name: string) returns (ok: bool)
      modifies this
      ensures ok == CreateGroup(old(Value()), me, id, name).Some?
      ensures Value() == if ok then CreateGroup(old(Value()), me, id, name).value else old(Value())
    {
      if id == "" || me == "" || name == "" || |name| > MAX_GROUP_NAME || id in groups || id in groupInvites {
        return false;
      }
      groups := groups[id := Group(id, name, me, [me])];
      return true;
    }

    method NoteInvite(id: string, name: string, admin: string, from: string, now: int) returns (ok: bool)
      modifies this
      ensures ok == NoteGroupInvite(old(Value()), id, name, admin, from, now).Some?
      ensures Value() == if ok then NoteGroupInvite(old(Value()), id, name, admin, from, now).value else old(Value())
    {
      if id == "" || name == "" || admin == "" || from == "" || |name| > MAX_GROUP_NAME {
        return false;
      }
      var st := State(from);
      if st.Blocked? || from != admin || id in groups || id in groupInvites {
        return false;
      }
      if |pending| + |groupInvites| >= MAX_PENDING_INVITES {
        return false;
      }
      groupInvites := groupInvites[id := GroupInvite(Group(id, name, admin, [admin]), from, now)];
      return true;
    }

    method AcceptGroup(me: string, id: string) returns (ok: bool)
      modifies this
      ensures ok == AcceptGroupInvite(old(Value()), me, id).Some?
      ensures Value() == if ok then AcceptGroupInvite(old(Value()), me, id).value else old(Value())
    {
      if id !in groupInvites || me == "" {
        return false;
      }
      var g := groupInvites[id].group;
      if me !in g.members {
        g := g.(members := g.members + [me]);
      }
      groups := groups[id := g];
      groupInvites := groupInvites - {id};
      return true;
    }

    method AddMember(me: string, id: string, a: string) returns (ok: bool)
      modifies this
      ensures ok == AddGroupMember(old(Value()), me, id, a).Some?
      ensures Value() == if ok then AddGroupMember(old(Value()), me, id, a).value else old(Value())
    {
      if id !in groups || groups[id].admin != me || me !in groups[id].members || a == "" {
        return false;
      }
      var st := State(a);
      if st.Blocked? || a in groups[id].members {
        return false;
      }
      groups := groups[id := groups[id].(members := groups[id].members + [a])];
      return true;
    }

    method RemoveMember(me: string, id: string, a: string) returns (ok: bool)
      modifies this
      ensures ok == RemoveGroupMember(old(Value()), me, id, a).Some?
      ensures Value() == if ok then RemoveGroupMember(old(Value()), me, id, a).value else old(Value())
    {
      if id !in groups || groups[id].admin != me || a == groups[id].admin || a !in groups[id].members {
        return false;
      }
      var left := Erase(groups[id].members, a);
      groups := groups[id := groups[id].(members := left)];
      return true;
    }

    method Leave(me: string, id: string) returns (ok: bool)
      modifies this
      ensures ok == LeaveGroup(old(Value()), me, id).Some?
      ensures Value() == if ok then LeaveGroup(old(Value()), me, id).value else old(Value())
    {
      if id !in groups || me !in groups[id].members {
        return false;
      }
      groups := groups - {id};
      return true;
    }
  }

  method Erase(members: seq<string>, a: string) returns (r: seq<string>)
    ensures r == Without(members, a)
  {
    r := [];
    for k := 0 to |members|
      invariant r == Without(members[..k], a)
    {
      assert members[..k + 1][..k] == members[..k];
      if members[k] != a {
        r := r + [members[k]];
      }
    }
    assert members[..|members|] == members;
  }

  method DropInvites(invites: map<string, GroupInvite>, a: string) returns (r: map<string, GroupInvite>)
    ensures r == map id | id in invites && invites[id].from != a :: invites[id]
  {
    r := invites;
    var todo := invites.Keys;
    while todo != {}
      invariant todo <= invites.Keys
      invariant r == map id | id in invites && (id in todo || invites[id].from != a) :: invites[id]
    {
      var id :| id in todo;
      if invites[id].from == a {
        r := r - {id};
      }
      todo := todo - {id};
    }
  }

  method DropMember(groups: map<string, Group>, a: string) returns (r: map<string, Group>)
    ensures r == map id | id in groups :: groups[id].(members := Without(groups[id].members, a))
  {
    r := groups;
    var todo := groups.Keys;
    while todo != {}
      invariant todo <= groups.Keys && r.Keys == groups.Keys
      invariant forall id :: id in groups ==>
        r[id] == if id in todo then groups[id] else groups[id].(members := Without(groups[id].members, a))
    {
      var id :| id in todo;
      var left := Erase(groups[id].members, a);
      r := r[id := groups[id].(members := left)];
      todo := todo - {id};
    }
  }
}
