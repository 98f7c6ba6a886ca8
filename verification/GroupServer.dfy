/** The group handlers as they run: role checks in order, then row by row updates in place. */
module GroupServer {
  import opened Wrappers
  import opened FieldCodecs
  import opened Groups

  predicate Distinct<T(==)>(s: seq<T>)
  {
    forall i, j :: 0 <= i < j < |s| ==> s[i] != s[j]
  }

  ghost function Elements<T>(s: seq<T>): set<T> { set x | x in s }

  /** Fresh receipt rows of message m. */
  ghost function NewRows(m: int, names: set<Name>): map<(int, Name), Receipt>
  {
    map u | u in names :: (m, u) := Receipt(None, None)
  }

  lemma NewRowsGrow(rows: map<(int, Name), Receipt>, m: int, names: set<Name>, u: Name)
    requires (m, u) !in rows
    ensures (m, u) in rows + NewRows(m, names) <==> u in names
    ensures u in names ==> NewRows(m, names + {u}) == NewRows(m, names)
    ensures rows + NewRows(m, names + {u}) == (rows + NewRows(m, names))[(m, u) := Receipt(None, None)]
  {
    assert u in names ==> names + {u} == names;
  }

  /** The members except one, in order. */
  method Others(members: seq<Name>, actor: Name) returns (others: seq<Name>)
    requires Distinct(members)
    ensures Distinct(others) && Elements(others) == Elements(members) - {actor}
  {
    others := [];
    for i := 0 to |members|
      invariant Distinct(others)
      invariant Elements(others) == Elements(members[..i]) - {actor}
    {
      assert Elements(members[..i + 1]) == Elements(members[..i]) + {members[i]};
      if members[i] != actor {
        assert members[i] !in Elements(others);
        assert Elements(others + [members[i]]) == Elements(others) + {members[i]};
        others := others + [members[i]];
      }
    }
    assert members[..|members|] == members;
  }

  function Invite(members: map<(int, Name), Role>, g: int, invited: seq<Name>): map<(int, Name), Role>
  {
    members + map m | m in invited :: (g, m) := Member
  }

  lemma InviteSnoc(members: map<(int, Name), Role>, g: int, invited: seq<Name>, u: Name)
    ensures Invite(members, g, invited + [u]) == Invite(members, g, invited)[(g, u) := Member]
  {
    var now := map m | m in invited :: (g, m) := Member;
    var then_ := map m | m in invited + [u] :: (g, m) := Member;
    assert then_.Keys == now.Keys + {(g, u)};
    assert then_ == now[(g, u) := Member];
  }

  class Handlers {
    var t: Tables

    constructor ()
      ensures t == EMPTY
    {
      t := EMPTY;
    }

    /** GroupRepository::getMembers, in some order. */
    method GetMembers(g: int) returns (names: seq<Name>)
      ensures Distinct(names) && Elements(names) == t.MembersOf(g)
    {
      names := [];
      var todo := t.MembersOf(g);
      while todo != {}
        invariant Distinct(names) && Elements(names) !! todo
        invariant Elements(names) + todo == t.MembersOf(g)
      {
        var u :| u in todo;
        assert Elements(names + [u]) == Elements(names) + {u};
        names, todo := names + [u], todo - {u};
      }
    }

    method Register(r: Request)
      requires r.command.RegisterUser?
      modifies this
      ensures t == Step(old(t), r)
    {
      if r.command.name != "" && r.command.name !in t.users {
        t := t.(users := t.users + {r.command.name});
      }
    }

    /** addMember(g, m, "member") for every invited name; an existing row is overwritten. */
    method AddInvited(g: int, invited: seq<Name>)
      modifies this
      ensures t == old(t).(members := old(t).members + map m | m in invited :: (g, m) := Member)
    {
      var members := t.members;
      for i := 0 to |invited|
        invariant t == old(t) && members == Invite(t.members, g, invited[..i])
      {
        InviteSnoc(t.members, g, invited[..i], invited[i]);
        assert invited[..i + 1] == invited[..i] + [invited[i]];
        members := members[(g, invited[i]) := Member];
      }
      assert invited[..|invited|] == invited;
      t := t.(members := members);
    }

    /** saveKey for every pair, until one names an unknown user. */
    method SaveKeyPairs(g: int, pairs: seq<Pair>)
      modifies this
      ensures t == old(t).(keys := SaveKeys(old(t).keys, old(t).users, g, pairs))
    {
      var i := 0;
      while i < |pairs| && pairs[i].0 in t.users
        invariant i <= |pairs| && t == old(t).(keys := t.keys)
        invariant SaveKeys(t.keys, t.users, g, pairs[i..])
               == SaveKeys(old(t).keys, old(t).users, g, pairs)
      {
        assert pairs[i..][1..] == pairs[i + 1..];
        t := t.(keys := t.keys[(g, pairs[i].0) := pairs[i].1]);
        i := i + 1;
      }
    }

    method CreateGroup(r: Request)
      requires r.command.CreateGroupOf?
      modifies this
      ensures t == Step(old(t), r)
    {
      var invited := r.command.invited;
      for i := 0 to |invited|
        invariant t == old(t) && forall j :: 0 <= j < i ==> invited[j] in t.users
      {
        if invited[i] !in t.users {
          return;
        }
      }
      if r.actor !in t.users {
        return;
      }
      assert Creates(old(t), r);
      var g := t.nextGroup;
      t := t.(groups := t.groups[g := GroupRow(r.command.title, r.actor)], nextGroup := g + 1);
      t := t.(members := t.members[(g, r.actor) := Creator]);
      AddInvited(g, invited);
      SaveKeyPairs(g, r.command.pairs);
    }

    /** insertReceiptRows: ON CONFLICT DO NOTHING. */
    method InsertReceiptRows(m: int, names: seq<Name>)
      requires forall u :: (m, u) !in t.receipts
      modifies this
      ensures t == old(t).(receipts := old(t).receipts + NewRows(m, Elements(names)))
    {
      var receipts := t.receipts;
      for i := 0 to |names|
        invariant t == old(t) && receipts == t.receipts + NewRows(m, Elements(names[..i]))
      {
        assert Elements(names[..i + 1]) == Elements(names[..i]) + {names[i]};
        NewRowsGrow(t.receipts, m, Elements(names[..i]), names[i]);
        if (m, names[i]) !in receipts {
          receipts := receipts[(m, names[i]) := Receipt(None, None)];
        }
      }
      assert names[..|names|] == names;
      t := t.(receipts := receipts);
    }

    /** Returns the recipient snapshot that the send-ACK carries, in the order of its key field. */
    method GroupMessage(r: Request) returns (snapshot: Option<seq<Name>>)
      requires r.command.SendTo? && Consistent(t)
      modifies this
      ensures t == Step(old(t), r)
      ensures snapshot.Some? <==> Sends(old(t), r)
      ensures snapshot.Some? ==> Distinct(snapshot.value)
      ensures snapshot.Some? ==>
                Elements(snapshot.value) == old(t).MembersOf(r.command.g) - {r.actor}
    {
      var g := r.command.g;
      if !t.Has(g, r.actor) || r.command.from !in t.users || r.stamp.None? {
        return None;
      }
      var m, row := t.nextMessage, MessageRow(g, r.command.from, r.command.body, r.stamp.value);
      t := t.(messages := t.messages[m := row], nextMessage := m + 1);
      var members := GetMembers(g);
      var recipients := Others(members, r.actor);
      InsertReceiptRows(m, recipients);
      snapshot := Some(recipients);
      assert EffectOf(old(t), r) == NewMessage(g, r.actor, row);
    }

    method GroupLeave(r: Request) returns (ok: bool)
      requires r.command.Leave?
      modifies this
      ensures t == Step(old(t), r)
      ensures ok <==> Removes(old(t), r, r.command.g, LeaveTarget(r))
    {
      var g, target := r.command.g, LeaveTarget(r);
      if !t.Has(g, r.actor) || t.Is(g, target, Creator) {
        return false;
      }
      if r.command.kicked.Some? {
        if t.Is(g, target, Admin) && !t.Is(g, r.actor, Creator) {
          return false;
        }
        if !t.Leads(g, r.actor) {
          return false;
        }
      }
      t := RemoveMember(t, g, target);
      return true;
    }

    /** The grant_admin and revoke_admin branches of GROUP_INFO. */
    method GroupInfo(r: Request)
      requires r.command.GrantAdmin? || r.command.RevokeAdmin?
      modifies this
      ensures t == Step(old(t), r)
    {
      var g, target := r.command.g, r.command.target;
      if !t.Is(g, r.actor, Creator) {
        return;
      }
      if r.command.GrantAdmin? {
        t := UpdateRole(t, g, target, Admin);
      } else if t.Is(g, target, Admin) {
        t := UpdateRole(t, g, target, Member);
      }
    }

    /** Returns everyone who is told that the group is gone. */
    method DeleteGroup(r: Request) returns (notified: seq<Name>)
      requires r.command.DeleteGroupCommand?
      modifies this
      ensures t == Step(old(t), r)
      ensures Deletes(old(t), r, r.command.g) ==>
                Distinct(notified) && Elements(notified) == old(t).MembersOf(r.command.g)
      ensures !Deletes(old(t), r, r.command.g) ==> notified == []
    {
      if !t.Is(r.command.g, r.actor, Creator) {
        return [];
      }
      notified := GetMembers(r.command.g);
      t := Groups.DeleteGroup(t, r.command.g);
    }

    method KeyExchange(r: Request) returns (newMember: bool)
      requires r.command.DistributeKeys?
      modifies this
      ensures t == Step(old(t), r)
      ensures newMember ==> |r.command.pairs| == 1 && t.Is(r.command.g, r.command.pairs[0].0, Member)
      ensures newMember <==> t.members != old(t).members
    {
      var g, pairs := r.command.g, r.command.pairs;
      newMember := false;
      if !t.Leads(g, r.actor) || pairs == [] {
        return;
      }
      if |pairs| == 1 {
        if pairs[0].0 !in t.users {
          return;
        }
        newMember := !t.Has(g, pairs[0].0);
        if newMember {
          t := t.(members := t.members[(g, pairs[0].0) := Member]);
          assert (g, pairs[0].0) in t.members;
        }
        t := t.(keys := t.keys[(g, pairs[0].0) := pairs[0].1]);
      } else {
        t := ExchangeKeys(t, g, pairs);
      }
    }

    /** READ_RECEIPT and delivered ACK for a group; `ok` is false for an exception. */
    method MarkReceipt(r: Request) returns (ok: bool)
      requires r.command.MarkRead? || r.command.AckDelivered?
      modifies this
      ensures t == Step(old(t), r)
      ensures ok <==> Reads(old(t), r) || AcksDelivered(old(t), r)
    {
      if r.command.MarkRead? && r.command.from != r.actor {
        return false;
      }
      if !t.Has(r.command.g, r.actor) {
        return false;
      }
      t := MarkReceipts(t, r.command.g, r.command.ts, r.actor, r.command.MarkRead?, r.now);
      return true;
    }

    method Handle(r: Request)
      requires Consistent(t)
      modifies this
      ensures t == Step(old(t), r) && Consistent(t)
    {
      StepKeepsConsistent(t, r);
      match r.command
      case NoCommand =>
      case RegisterUser(_) => Register(r);
      case CreateGroupOf(_, _, _) => CreateGroup(r);
      case SendTo(_, _, _) => var _ := GroupMessage(r);
      case Leave(_, _) => var _ := GroupLeave(r);
      case GrantAdmin(_, _) => GroupInfo(r);
      case RevokeAdmin(_, _) => GroupInfo(r);
      case DeleteGroupCommand(_) => var _ := DeleteGroup(r);
      case DistributeKeys(_, _) => var _ := KeyExchange(r);
      case AckDelivered(_, _) => var _ := MarkReceipt(r);
      case MarkRead(_, _, _) => var _ := MarkReceipt(r);
    }

    /** A whole run of the server, packet by packet. */
    method Serve(rs: seq<Request>) returns (ghost ts: seq<Tables>)
      requires t == EMPTY
      modifies this
      ensures History(ts, rs) && t == ts[|rs|] && Consistent(t)
    {
      ts := [t];
      for i := 0 to |rs|
        invariant |ts| == i + 1 && ts[0] == EMPTY && t == ts[i] && Consistent(t)
        invariant forall j :: 0 <= j < i ==> ts[j + 1] == Step(ts[j], rs[j])
      {
        Handle(rs[i]);
        ts := ts + [t];
      }
    }
  }
}
