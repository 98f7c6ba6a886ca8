/**
 * What the group packets may do, told on the tables and the packet's own fields: who may found,
 * join, leave, promote, send, mark, hand out keys and delete.
 */
module GroupCauses {
  import opened Wrappers
  import opened FieldCodecs
  import opened Groups

  /** A CREATE_GROUP of a known user inviting known users; the group gets the next number. */
  predicate Founded(t: Tables, r: Request, g: int)
  {
    && r.command.CreateGroupOf? && t.nextGroup == g && r.actor in t.users
    && forall m :: m in r.command.invited ==> m in t.users
  }

  /** A DELETE_GROUP by the group's creator. */
  predicate Destroyed(t: Tables, r: Request, g: int)
  {
    r.command == DeleteGroupCommand(g) && (g, r.actor) in t.members && t.members[(g, r.actor)] == Creator
  }

  /** A GROUP_KEY_EXCHANGE by the group's creator or an admin. */
  predicate Exchanged(t: Tables, r: Request, g: int)
  {
    && r.command.DistributeKeys? && r.command.g == g && (g, r.actor) in t.members
    && t.members[(g, r.actor)] in {Creator, Admin}
  }

  /** A founder or an invited user of a new group, or the one known user of a key exchange. */
  predicate Joined(t: Tables, r: Request, g: int, u: Name)
  {
    || (Founded(t, r, g) && (u == r.actor || u in r.command.invited))
    || (Exchanged(t, r, g) && |r.command.pairs| == 1 && r.command.pairs[0].0 == u && u in t.users)
  }

  /**
   * u leaves, or is kicked by the creator or an admin; the creator stays, and only the creator
   * kicks an admin.
   */
  predicate Left(t: Tables, r: Request, g: int, u: Name)
  {
    && r.command.Leave? && r.command.g == g && (g, r.actor) in t.members
    && ((g, u) in t.members ==> t.members[(g, u)] != Creator)
    && match r.command.kicked
       case None => u == r.actor
       case Some(target) =>
         && u == target && t.members[(g, r.actor)] in {Creator, Admin}
         && ((g, u) in t.members && t.members[(g, u)] == Admin ==> t.members[(g, r.actor)] == Creator)
  }

  /** A grant by the creator to somebody who is a member. */
  predicate Promoted(t: Tables, r: Request, g: int, u: Name)
  {
    && r.command == GrantAdmin(g, u) && (g, u) in t.members
    && (g, r.actor) in t.members && t.members[(g, r.actor)] == Creator
  }

  /** A revocation by the creator. */
  predicate Demoted(t: Tables, r: Request, g: int, u: Name)
  {
    r.command == RevokeAdmin(g, u) && (g, r.actor) in t.members && t.members[(g, r.actor)] == Creator
  }

  /** A GROUP_MESSAGE from a member, in the name of a known user, that becomes message m. */
  predicate Posted(t: Tables, r: Request, m: int, row: MessageRow)
  {
    && r.command.SendTo? && t.nextMessage == m && (r.command.g, r.actor) in t.members
    && r.command.from in t.users && r.stamp == Some(row.stamp)
    && row.group == r.command.g && row.sender == r.command.from && row.body == r.command.body
  }

  /** A READ_RECEIPT of a member, in their own name, for this message. */
  predicate Read(t: Tables, r: Request, m: int, u: Name)
  {
    && m in t.messages && r.command == MarkRead(t.messages[m].group, u, t.messages[m].stamp)
    && r.actor == u && (t.messages[m].group, u) in t.members
  }

  /** A delivered ACK of a member for this message. */
  predicate Acknowledged(t: Tables, r: Request, m: int, u: Name)
  {
    && m in t.messages && r.command == AckDelivered(t.messages[m].group, t.messages[m].stamp)
    && r.actor == u && (t.messages[m].group, u) in t.members
  }

  // ---------------------------------------------------------------------------
  // The effects these causes have
  // ---------------------------------------------------------------------------

  lemma FoundedEffect(t: Tables, r: Request, g: int)
    ensures Founded(t, r, g) <==> t.nextGroup == g && EffectOf(t, r).NewGroup?
    ensures Founded(t, r, g) ==>
              EffectOf(t, r) == NewGroup(r.command.title, r.actor, r.command.invited, r.command.pairs)
  {
  }

  lemma DestroyedEffect(t: Tables, r: Request, g: int)
    ensures Destroyed(t, r, g) <==> EffectOf(t, r) == Drop(g)
  {
  }

  lemma ExchangedEffect(t: Tables, r: Request, g: int)
    ensures Exchanged(t, r, g) && r.command.pairs != [] <==> EffectOf(t, r).Exchange? && EffectOf(t, r).g == g
    ensures EffectOf(t, r).Exchange? ==> EffectOf(t, r).pairs == r.command.pairs
  {
  }

  lemma LeftEffect(t: Tables, r: Request, g: int, u: Name)
    ensures Left(t, r, g, u) <==> EffectOf(t, r) == Remove(g, u)
  {
  }

  lemma RoleEffect(t: Tables, r: Request, g: int, u: Name)
    ensures Promoted(t, r, g, u) <==> EffectOf(t, r) == SetRole(g, u, Admin) && (g, u) in t.members
    ensures t.Is(g, u, Admin) ==> (Demoted(t, r, g, u) <==> EffectOf(t, r) == SetRole(g, u, Member))
  {
  }

  lemma PostedEffect(t: Tables, r: Request, m: int, row: MessageRow)
    ensures Posted(t, r, m, row) <==> t.nextMessage == m && EffectOf(t, r) == NewMessage(row.group, r.actor, row)
  {
  }

  lemma MarkEffect(t: Tables, r: Request, m: int, u: Name)
    requires m in t.messages
    ensures Read(t, r, m, u) <==>
            EffectOf(t, r) == Mark(t.messages[m].group, t.messages[m].stamp, u, true, r.now)
    ensures Acknowledged(t, r, m, u) <==>
            EffectOf(t, r) == Mark(t.messages[m].group, t.messages[m].stamp, u, false, r.now)
  {
  }
}
