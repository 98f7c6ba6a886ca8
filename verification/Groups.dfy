/**
 * The server's group tables and the effect of each group packet on them. A handler runs as one
 * step; where a thrown exception leaves earlier statements committed, so does the step.
 */
module Groups {
  import opened Wrappers
  import opened Text
  import opened Wire
  import opened FieldCodecs

  type Name = string

  datatype Role = Creator | Admin | Member

  datatype GroupRow = GroupRow(name: string, creator: Name)

  /** `sender` is the packet's own claim; `stamp` is the stored instant as to_char renders it. */
  datatype MessageRow = MessageRow(group: int, sender: Name, body: string, stamp: string)

  /** delivered_at and seen_at. */
  datatype Receipt = Receipt(delivered: Option<int>, seen: Option<int>)

  datatype Tables = Tables(
    users: set<Name>,
    groups: map<int, GroupRow>, nextGroup: int,
    members: map<(int, Name), Role>,
    keys: map<(int, Name), string>,
    messages: map<int, MessageRow>, nextMessage: int,
    receipts: map<(int, Name), Receipt>)
  {
    predicate Has(g: int, u: Name) { (g, u) in members }

    predicate Is(g: int, u: Name, r: Role) { Has(g, u) && members[(g, u)] == r }

    predicate Leads(g: int, u: Name) { Is(g, u, Creator) || Is(g, u, Admin) }

    function MembersOf(g: int): set<Name> { set k | k in members && k.0 == g :: k.1 }

    /** Message m belongs to group g. */
    predicate InGroup(m: int, g: int) { m in messages && messages[m].group == g }
  }

  const EMPTY := Tables({}, map[], 1, map[], map[], map[], 1, map[])

  // ---------------------------------------------------------------------------
  // Commands: packets after validate() and std::stoi
  // ---------------------------------------------------------------------------

  datatype Command =
    | NoCommand
    | RegisterUser(name: Name)
    | CreateGroupOf(title: string, invited: seq<Name>, pairs: seq<Pair>)
    | SendTo(g: int, from: Name, body: string)
    | Leave(g: int, kicked: Option<Name>)
    | GrantAdmin(g: int, target: Name)
    | RevokeAdmin(g: int, target: Name)
    | DeleteGroupCommand(g: int)
    | DistributeKeys(g: int, pairs: seq<Pair>)
    | AckDelivered(g: int, ts: string)
    | MarkRead(g: int, from: Name, ts: string)

  predicate IsNumeric(s: string) { s != "" && AllDigits(s) }

  /** The command of a packet whose `to` holds the number g. */
  function DecodeFor(p: Packet, g: int): (c: Command)
    ensures c.MarkRead? ==> p.kind == READ_RECEIPT && c == MarkRead(g, p.from, p.body)
    ensures c.AckDelivered? ==> p.kind == ACK && p.errorMsg == "delivered" && c == AckDelivered(g, p.body)
    ensures c.SendTo? ==> p.kind == GROUP_MESSAGE && c.g == g
    ensures !c.RegisterUser? && !c.CreateGroupOf?
  {
    match p.kind
    case GROUP_MESSAGE =>
      if p.from != "" && p.body != "" then SendTo(g, p.from, p.body) else NoCommand
    case GROUP_LEAVE => Leave(g, if p.body == "" then None else Some(p.body))
    case GROUP_INFO =>
      if p.key == "" then NoCommand
      else if p.body == "grant_admin" then GrantAdmin(g, p.key)
      else if p.body == "revoke_admin" then RevokeAdmin(g, p.key)
      else NoCommand
    case DELETE_GROUP => DeleteGroupCommand(g)
    case GROUP_KEY_EXCHANGE =>
      if p.key == "" then NoCommand else DistributeKeys(g, KeyPairs(p.key, '|'))
    case ACK =>
      if p.errorMsg == "delivered" && IsNumeric(p.to) && p.body != ""
      then AckDelivered(g, p.body) else NoCommand
    case READ_RECEIPT =>
      if p.from != "" && p.body != "" && IsNumeric(p.to)
      then MarkRead(g, p.from, p.body) else NoCommand
    case _ => NoCommand
  }

  /** n is the number in `to`, if there is one. */
  function DecodeNumbered(p: Packet, n: Option<int>): (c: Command)
    ensures c.MarkRead? ==> p.kind == READ_RECEIPT && n == Some(c.g) && c.from == p.from && c.ts == p.body
    ensures c.AckDelivered? ==> p.kind == ACK && p.errorMsg == "delivered" && n == Some(c.g) && c.ts == p.body
    ensures c.SendTo? ==> p.kind == GROUP_MESSAGE && n == Some(c.g)
  {
    match n
    case None => NoCommand
    case Some(g) => DecodeFor(p, g)
  }

  /** The command a packet carries, if validate() accepts it and `to` holds a number. */
  function Decode(p: Packet): (c: Command)
    ensures c.MarkRead? ==> p.kind == READ_RECEIPT && Stoi(p.to) == Some(c.g) && c.from == p.from && c.ts == p.body
    ensures c.AckDelivered? ==> p.kind == ACK && p.errorMsg == "delivered" && Stoi(p.to) == Some(c.g) && c.ts == p.body
    ensures c.SendTo? ==> p.kind == GROUP_MESSAGE && Stoi(p.to) == Some(c.g)
  {
    match p.kind
    case REGISTER =>
      if 0 < |p.from| <= 64 && |p.body| >= 8 then RegisterUser(p.from) else NoCommand
    case CREATE_GROUP =>
      var invited := Fields(p.body, ',');
      if p.errorMsg != "" && p.body != "" && p.key != "" && 2 <= |invited| + 1 <= 32
      then CreateGroupOf(p.errorMsg, invited, KeyPairs(p.key, ';'))
      else NoCommand
    case _ => DecodeNumbered(p, Stoi(p.to))
  }

  /**
   * A command on the connection of user `actor`. `now` is the database clock and `stamp` the
   * result of casting packet.timestamp to an instant (None when the cast fails).
   */
  datatype Request = Request(actor: Name, command: Command, now: int, stamp: Option<string>)

  // ---------------------------------------------------------------------------
  // Guards: exactly the conditions under which a handler reaches its first write
  // ---------------------------------------------------------------------------

  predicate Registers(t: Tables, r: Request)
  {
    r.command.RegisterUser? && r.command.name != "" && r.command.name !in t.users
  }

  predicate Creates(t: Tables, r: Request)
  {
    && r.command.CreateGroupOf?
    && r.actor in t.users
    && forall m :: m in r.command.invited ==> m in t.users
  }

  /** Membership is checked for the session's user, the foreign key for the packet's sender. */
  predicate Sends(t: Tables, r: Request)
  {
    && r.command.SendTo?
    && t.Has(r.command.g, r.actor)
    && r.command.from in t.users && r.stamp.Some?
  }

  function LeaveTarget(r: Request): Name
    requires r.command.Leave?
  {
    if r.command.kicked.None? then r.actor else r.command.kicked.value
  }

  predicate Removes(t: Tables, r: Request, g: int, u: Name)
  {
    && r.command.Leave? && r.command.g == g && u == LeaveTarget(r)
    && t.Has(g, r.actor) && !t.Is(g, u, Creator)
    && (r.command.kicked.Some? ==>
          t.Leads(g, r.actor) && (t.Is(g, u, Admin) ==> t.Is(g, r.actor, Creator)))
  }

  /** The target of a grant is not checked at all. */
  predicate Grants(t: Tables, r: Request, g: int, u: Name)
  {
    r.command == GrantAdmin(g, u) && t.Is(g, r.actor, Creator)
  }

  /** The target of a revocation must be an admin. */
  predicate Revokes(t: Tables, r: Request, g: int, u: Name)
  {
    r.command == RevokeAdmin(g, u) && t.Is(g, r.actor, Creator) && t.Is(g, u, Admin)
  }

  predicate Deletes(t: Tables, r: Request, g: int)
  {
    r.command == DeleteGroupCommand(g) && t.Is(g, r.actor, Creator)
  }

  predicate Distributes(t: Tables, r: Request)
  {
    r.command.DistributeKeys? && t.Leads(r.command.g, r.actor) && r.command.pairs != []
  }

  /** A delivered receipt: the member is the session's user, whatever the packet says. */
  predicate AcksDelivered(t: Tables, r: Request)
  {
    r.command.AckDelivered? && t.Has(r.command.g, r.actor)
  }

  predicate Reads(t: Tables, r: Request)
  {
    r.command.MarkRead? && r.command.from == r.actor && t.Has(r.command.g, r.actor)
  }

  // ---------------------------------------------------------------------------
  // Effects
  // ---------------------------------------------------------------------------

  /** What one packet does to the tables. */
  datatype Effect =
    | Nothing
    | AddUser(user: Name)
    | NewGroup(name: string, creator: Name, invited: seq<Name>, pairs: seq<Pair>)
    | NewMessage(g: int, actor: Name, row: MessageRow)
    | Remove(g: int, user: Name)
    | SetRole(g: int, user: Name, role: Role)
    | Drop(g: int)
    | Exchange(g: int, actor: Name, pairs: seq<Pair>)
    | Mark(g: int, stamp: string, user: Name, seen: bool, now: int)

  function EffectOf(t: Tables, r: Request): Effect
  {
    var c := r.command;
    if Registers(t, r) then AddUser(c.name)
    else if Creates(t, r) then NewGroup(c.title, r.actor, c.invited, c.pairs)
    else if Sends(t, r) then
      NewMessage(c.g, r.actor, MessageRow(c.g, c.from, c.body, r.stamp.value))
    else if c.Leave? && Removes(t, r, c.g, LeaveTarget(r)) then Remove(c.g, LeaveTarget(r))
    else if c.GrantAdmin? && Grants(t, r, c.g, c.target) then SetRole(c.g, c.target, Admin)
    else if c.RevokeAdmin? && Revokes(t, r, c.g, c.target) then SetRole(c.g, c.target, Member)
    else if c.DeleteGroupCommand? && Deletes(t, r, c.g) then Drop(c.g)
    else if Distributes(t, r) then Exchange(c.g, r.actor, c.pairs)
    else if AcksDelivered(t, r) then Mark(c.g, c.ts, r.actor, false, r.now)
    else if Reads(t, r) then Mark(c.g, c.ts, r.actor, true, r.now)
    else Nothing
  }

  /** What the guards have established about an effect by the time it is applied. */
  predicate Sound(t: Tables, e: Effect)
  {
    match e
    case Nothing => true
    case AddUser(u) => u != ""
    case NewGroup(_, creator, invited, _) =>
      creator in t.users && forall m :: m in invited ==> m in t.users
    case NewMessage(g, actor, row) => t.Has(g, actor) && row.group == g
    case Remove(g, u) => !t.Is(g, u, Creator)
    case SetRole(g, u, role) => role == Admin || (role == Member && t.Is(g, u, Admin))
    case Drop(g) => true
    case Exchange(g, actor, pairs) => t.Leads(g, actor) && pairs != []
    case Mark(g, _, u, _, _) => t.Has(g, u)
  }

  lemma EffectIsSound(t: Tables, r: Request)
    ensures Sound(t, EffectOf(t, r))
  {
  }

  /** saveKey in a loop; an unknown user breaks the foreign key and ends it. */
  function SaveKeys(keys: map<(int, Name), string>, users: set<Name>, g: int, ps: seq<Pair>):
    map<(int, Name), string>
    decreases |ps|
  {
    if ps == [] || ps[0].0 !in users then keys
    else SaveKeys(keys[(g, ps[0].0) := ps[0].1], users, g, ps[1..])
  }

  /** addMember overwrites the role of a row that exists, the creator's own included. */
  function CreateGroup(t: Tables, name: string, creator: Name, invited: seq<Name>, pairs: seq<Pair>): Tables
  {
    var g := t.nextGroup;
    t.(groups := t.groups[g := GroupRow(name, creator)], nextGroup := g + 1,
       members := t.members[(g, creator) := Creator] + map m | m in invited :: (g, m) := Member,
       keys := SaveKeys(t.keys, t.users, g, pairs))
  }

  /** A receipt row for every member at send time except the session's user. */
  function SendMessage(t: Tables, g: int, actor: Name, row: MessageRow): Tables
  {
    var m := t.nextMessage;
    t.(messages := t.messages[m := row], nextMessage := m + 1,
       receipts := t.receipts +
                   map u | u in t.MembersOf(g) - {actor} :: (m, u) := Receipt(None, None))
  }

  function RemoveMember(t: Tables, g: int, u: Name): Tables
  {
    t.(members := t.members - {(g, u)}, keys := t.keys - {(g, u)},
       receipts := map k | k in t.receipts && !(k.1 == u && t.InGroup(k.0, g)) :: t.receipts[k])
  }

  /** UPDATE ... SET role: touches nothing when there is no such row. */
  function UpdateRole(t: Tables, g: int, u: Name, role: Role): Tables
  {
    if t.Has(g, u) then t.(members := t.members[(g, u) := role]) else t
  }

  /** DELETE FROM groups with its cascades. */
  function DeleteGroup(t: Tables, g: int): Tables
  {
    t.(groups := t.groups - {g},
       members := map k | k in t.members && k.0 != g :: t.members[k],
       keys := map k | k in t.keys && k.0 != g :: t.keys[k],
       messages := map m | m in t.messages && t.messages[m].group != g :: t.messages[m],
       receipts := map k | k in t.receipts && !t.InGroup(k.0, g) :: t.receipts[k])
  }

  predicate DistinctNames(ps: seq<Pair>)
  {
    forall i, j :: 0 <= i < j < |ps| ==> ps[i].0 != ps[j].0
  }

  /** One pair adds a member who is not yet one; several replace all keys in a transaction. */
  function ExchangeKeys(t: Tables, g: int, ps: seq<Pair>): Tables
  {
    if |ps| == 1 && ps[0].0 in t.users then
      var u := ps[0].0;
      t.(members := if t.Has(g, u) then t.members else t.members[(g, u) := Member],
         keys := t.keys[(g, u) := ps[0].1])
    else if |ps| > 1 && DistinctNames(ps) && forall p :: p in ps ==> p.0 in t.users then
      t.(keys := SaveKeys(map k | k in t.keys && k.0 != g :: t.keys[k], t.users, g, ps))
    else t
  }

  function Coalesce(a: Option<int>, now: int): Option<int> { if a.Some? then a else Some(now) }

  function Stamped(x: Receipt, seen: bool, now: int): Receipt
  {
    Receipt(Coalesce(x.delivered, now), if seen then Coalesce(x.seen, now) else x.seen)
  }

  /** The rows one mark updates: every message of the group that renders to this stamp. */
  predicate Marked(t: Tables, k: (int, Name), g: int, stamp: string, u: Name)
  {
    k.1 == u && t.InGroup(k.0, g) && t.messages[k.0].stamp == stamp
  }

  function MarkReceipts(t: Tables, g: int, stamp: string, u: Name, seen: bool, now: int): Tables
  {
    t.(receipts := map k | k in t.receipts ::
         if Marked(t, k, g, stamp, u) then Stamped(t.receipts[k], seen, now) else t.receipts[k])
  }

  function Apply(t: Tables, e: Effect): Tables
  {
    match e
    case Nothing => t
    case AddUser(u) => t.(users := t.users + {u})
    case NewGroup(name, creator, invited, pairs) => CreateGroup(t, name, creator, invited, pairs)
    case NewMessage(g, actor, row) => SendMessage(t, g, actor, row)
    case Remove(g, u) => RemoveMember(t, g, u)
    case SetRole(g, u, role) => UpdateRole(t, g, u, role)
    case Drop(g) => DeleteGroup(t, g)
    case Exchange(g, _, pairs) => ExchangeKeys(t, g, pairs)
    case Mark(g, stamp, u, seen, now) => MarkReceipts(t, g, stamp, u, seen, now)
  }

  // ---------------------------------------------------------------------------
  // One packet, and whole runs
  // ---------------------------------------------------------------------------

  function Step(t: Tables, r: Request): Tables { Apply(t, EffectOf(t, r)) }

  ghost predicate Follows(ts: seq<Tables>, rs: seq<Request>, i: int)
    requires 0 <= i < |rs| < |ts|
  {
    ts[i + 1] == Step(ts[i], rs[i])
  }

  /** A run of a server that started empty: request i takes ts[i] to ts[i + 1]. */
  ghost predicate History(ts: seq<Tables>, rs: seq<Request>)
  {
    && |ts| == |rs| + 1 && ts[0] == EMPTY
    && forall i {:trigger Follows(ts, rs, i)} :: 0 <= i < |rs| ==> Follows(ts, rs, i)
  }

  // ---------------------------------------------------------------------------
  // Referential integrity, roles and receipts: what every step keeps
  // ---------------------------------------------------------------------------

  ghost predicate Linked(t: Tables)
  {
    && "" !in t.users
    && (forall g :: g in t.groups ==> g < t.nextGroup)
    && (forall k :: k in t.members ==> k.0 in t.groups && k.1 in t.users)
    && (forall m :: m in t.messages ==> m < t.nextMessage && t.messages[m].group in t.groups)
  }

  /** A creator row can only be the recorded creator's. */
  ghost predicate CreatorsRecorded(t: Tables)
  {
    forall k :: k in t.members && t.members[k] == Creator && k.0 in t.groups
                ==> t.groups[k.0].creator == k.1
  }

  /** Every receipt row is for a message that exists and a current member of its group. */
  ghost predicate ReceiptsOfMembers(t: Tables)
  {
    forall k :: k in t.receipts ==> k.0 in t.messages && (t.messages[k.0].group, k.1) in t.members
  }

  ghost predicate SeenImpliesDelivered(t: Tables)
  {
    forall k :: k in t.receipts ==> t.receipts[k].seen.Some? ==> t.receipts[k].delivered.Some?
  }

  ghost predicate Consistent(t: Tables)
  {
    Linked(t) && CreatorsRecorded(t) && ReceiptsOfMembers(t) && SeenImpliesDelivered(t)
  }

  lemma ApplyKeepsLinked(t: Tables, e: Effect)
    requires Linked(t) && Sound(t, e)
    ensures Linked(Apply(t, e))
  {
  }

  lemma ApplyKeepsCreators(t: Tables, e: Effect)
    requires Linked(t) && CreatorsRecorded(t) && Sound(t, e)
    ensures CreatorsRecorded(Apply(t, e))
  {
  }

  lemma ApplyKeepsReceipts(t: Tables, e: Effect)
    requires Linked(t) && ReceiptsOfMembers(t) && Sound(t, e)
    ensures ReceiptsOfMembers(Apply(t, e))
  {
  }

  lemma ApplyKeepsStamps(t: Tables, e: Effect)
    requires Linked(t) && SeenImpliesDelivered(t) && Sound(t, e)
    ensures SeenImpliesDelivered(Apply(t, e))
  {
  }

  lemma StepKeepsConsistent(t: Tables, r: Request)
    requires Consistent(t)
    ensures Consistent(Step(t, r))
  {
    EffectIsSound(t, r);
    ApplyKeepsLinked(t, EffectOf(t, r));
    ApplyKeepsCreators(t, EffectOf(t, r));
    ApplyKeepsReceipts(t, EffectOf(t, r));
    ApplyKeepsStamps(t, EffectOf(t, r));
  }

  /** In every reachable state of the server. */
  lemma {:induction false} HistoryIsConsistent(ts: seq<Tables>, rs: seq<Request>, i: nat)
    requires History(ts, rs) && i <= |rs|
    ensures Consistent(ts[i])
  {
    if i > 0 {
      HistoryIsConsistent(ts, rs, i - 1);
      assert Follows(ts, rs, i - 1);
      StepKeepsConsistent(ts[i - 1], rs[i - 1]);
    }
  }
}
