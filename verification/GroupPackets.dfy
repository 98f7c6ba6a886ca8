/** Which packet carries which command: the fields each handler demands, no more and no less. */
module GroupPackets {
  import opened Wrappers
  import opened Text
  import opened Wire
  import opened FieldCodecs
  import opened Groups

  /** REGISTER: a name of 1 to 64 characters and a password of at least 8. */
  lemma RegisterIff(p: Packet, u: Name)
    ensures Decode(p) == RegisterUser(u) <==> p.kind == REGISTER && p.from == u && 1 <= |u| <= 64 && |p.body| >= 8
  {
  }

  /** CREATE_GROUP: a title, and 1 to 31 members besides the creator. */
  lemma CreateIff(p: Packet, title: string, invited: seq<Name>, pairs: seq<Pair>)
    ensures Decode(p) == CreateGroupOf(title, invited, pairs) <==>
            && p.kind == CREATE_GROUP && p.errorMsg == title && title != "" && p.body != "" && p.key != ""
            && Fields(p.body, ',') == invited && 1 <= |invited| <= 31 && KeyPairs(p.key, ';') == pairs
  {
  }

  /** Every other packet is read with the number in its `to` field. */
  lemma NumberedIff(p: Packet)
    requires p.kind != REGISTER && p.kind != CREATE_GROUP
    ensures Decode(p) == DecodeNumbered(p, Stoi(p.to))
  {
  }

  /** GROUP_MESSAGE: group, claimed sender and body. */
  lemma MessageIff(p: Packet, n: Option<int>, g: int, from: Name, body: string)
    ensures DecodeNumbered(p, n) == SendTo(g, from, body) <==>
            && p.kind == GROUP_MESSAGE && n == Some(g)
            && p.from == from && from != "" && p.body == body && body != ""
  {
  }

  /** GROUP_LEAVE: an empty body is a leave, any other names whom to kick. */
  lemma LeaveIff(p: Packet, n: Option<int>, g: int, kicked: Option<Name>)
    ensures DecodeNumbered(p, n) == Leave(g, kicked) <==>
            && p.kind == GROUP_LEAVE && n == Some(g)
            && (if p.body == "" then kicked == None else kicked == Some(p.body))
  {
  }

  /** GROUP_INFO with grant_admin or revoke_admin and a target in the key field. */
  lemma GrantIff(p: Packet, n: Option<int>, g: int, u: Name)
    ensures DecodeNumbered(p, n) == GrantAdmin(g, u) <==>
            p.kind == GROUP_INFO && n == Some(g) && p.body == "grant_admin" && p.key == u && u != ""
  {
  }

  lemma RevokeIff(p: Packet, n: Option<int>, g: int, u: Name)
    ensures DecodeNumbered(p, n) == RevokeAdmin(g, u) <==>
            p.kind == GROUP_INFO && n == Some(g) && p.body == "revoke_admin" && p.key == u && u != ""
  {
    assert "grant_admin"[0] != "revoke_admin"[0];
  }

  lemma DeleteIff(p: Packet, n: Option<int>, g: int)
    ensures DecodeNumbered(p, n) == DeleteGroupCommand(g) <==> p.kind == DELETE_GROUP && n == Some(g)
  {
  }

  lemma ExchangeIff(p: Packet, n: Option<int>, g: int, pairs: seq<Pair>)
    ensures DecodeNumbered(p, n) == DistributeKeys(g, pairs) <==>
            p.kind == GROUP_KEY_EXCHANGE && n == Some(g) && p.key != "" && KeyPairs(p.key, '|') == pairs
  {
  }

  /** READ_RECEIPT for a group: an all-digit id, a reader and a timestamp. */
  lemma ReadIff(p: Packet, n: Option<int>, g: int, from: Name, ts: string)
    ensures DecodeNumbered(p, n) == MarkRead(g, from, ts) <==>
            && p.kind == READ_RECEIPT && IsNumeric(p.to) && n == Some(g)
            && p.from == from && from != "" && p.body == ts && ts != ""
  {
  }

  lemma DeliveredIff(p: Packet, n: Option<int>, g: int, ts: string)
    ensures DecodeNumbered(p, n) == AckDelivered(g, ts) <==>
            && p.kind == ACK && p.errorMsg == "delivered" && IsNumeric(p.to) && n == Some(g)
            && p.body == ts && ts != ""
  {
  }

  /**
   * End to end: the server founds exactly the group the client asked for, members and wrapped keys
   * included, however the packet travelled.
   */
  lemma CreationArrives(p: Packet, members: seq<string>, keys: seq<Pair>, garbage: int)
    requires p.kind == CREATE_GROUP && p.errorMsg != "" && Clean(p.(body := "", key := ""))
    requires p.body == Join(members, ',') && p.key == Join(Entries(keys), ';')
    requires 1 <= |members| <= 31 && |keys| > 0 && forall m :: m in members ==> Packable(m)
    requires forall k :: k in keys ==> PackablePair(k, ';') && Free(k.0, '|') && Free(k.1, '|')
    ensures Deserialize(Serialize(p), garbage).Ok?
    ensures Decode(Deserialize(Serialize(p), garbage).value) == CreateGroupOf(p.errorMsg, members, keys)
  {
    CreateGroupSurvivesWire(p, members, keys, garbage);
    EntriesAreFields(keys, ';');
    assert forall m :: m in members ==> m != "" && Free(m, ',');
    PiecesOfJoin(members, ',');
    PiecesOfJoin(Entries(keys), ';');
    CreateIff(p, p.errorMsg, members, keys);
  }
}
