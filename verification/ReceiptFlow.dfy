/**
 * Receipts end to end: clients, server, packets in flight, the offline receipt queue and its
 * replay at login. A packet handed to a socket may arrive any number of times, in any order, or
 * never; clients may send the server any packet whatever.
 */
module ReceiptFlow {
  import opened Wrappers
  import opened Text
  import opened Wire
  import opened FieldCodecs
  import opened Groups
  import Timestamps
  import opened Runs
  import R = RecipientStore

  /**
   * History: a session of `member` sent a READ_RECEIPT (`read`) or a delivered ACK whose `to`
   * reads as `group` and whose body is this timestamp.
   */
  datatype Said = Said(member: Name, group: Option<int>, ts: string, read: bool)

  /** offline_read_receipts, unique on (from_user, to_user, message_ts) whatever the kind. */
  datatype Queued = Queued(group: Option<int>, read: bool, flushed: bool)

  type QueueKey = (Name, Name, string)

  /** One account's local store on one device, and the conversation on screen. */
  datatype Client = Client(user: Name, store: R.Store, active: string)

  datatype World = World(
    tables: Tables,
    queue: map<QueueKey, Queued>,
    online: set<Name>,
    flight: set<(Name, Packet)>,
    clients: map<int, Client>,
    said: set<Said>)

  const START := World(EMPTY, map[], {}, {}, map[], {})

  datatype Event =
    | Connect(user: Name)
    | Disconnect(user: Name)
    | Handle(actor: Name, packet: Packet, now: int, stamp: Option<string>, order: seq<Name>)
    | FlushReceipts(user: Name)
    | OtherPacket(user: Name, packet: Packet)
    | Install(id: int, user: Name)
    | Open(id: int, peer: string)
    | Keep(id: int, g: string, sender: Name, ts: string)
    | Arrive(id: int, packet: Packet)

  // ---------------------------------------------------------------------------
  // Server side
  // ---------------------------------------------------------------------------

  predicate IsReceipt(p: Packet)
  {
    p.kind == READ_RECEIPT || (p.kind == ACK && p.errorMsg == "delivered")
  }

  function WhatItSays(actor: Name, p: Packet): Said
  {
    Said(actor, Stoi(p.to), Timestamps.Canonical(p.body), p.kind == READ_RECEIPT)
  }

  /** A READ_RECEIPT for a direct message: `to` is not a group id. */
  predicate DirectReceipt(actor: Name, p: Packet)
  {
    && p.kind == READ_RECEIPT && p.from == actor
    && p.from != "" && p.to != "" && p.body != "" && !IsNumeric(p.to)
  }

  function DeliveredNotice(actor: Name, p: Packet): Packet
  {
    Blank(ACK).(from := actor, to := p.to, body := p.body, errorMsg := "delivered")
  }

  function SendAck(p: Packet, recipients: seq<Name>): Packet
  {
    Blank(ACK).(to := p.from, timestamp := p.timestamp, errorMsg := p.to, key := Join(recipients, ';'))
  }

  /** SELECT DISTINCT sender of the messages that a mark concerns. */
  function Senders(t: Tables, g: int, stamp: string): set<Name>
  {
    set m | m in t.messages && t.messages[m].group == g && t.messages[m].stamp == stamp
          :: t.messages[m].sender
  }

  /** Sends to each target that is online and queues for the others; a conflict keeps the old row. */
  function FanOut(w: World, from: Name, targets: set<Name>, p: Packet, ts: string, row: Queued): World
  {
    w.(flight := w.flight + (set u | u in targets && u in w.online :: (u, p)),
       queue := (map u | u in targets && u !in w.online :: (from, u, ts) := row) + w.queue)
  }

  function HandleGroup(w: World, r: Request, p: Packet, order: seq<Name>): World
  {
    var t := w.tables;
    if Reads(t, r) then
      FanOut(w, r.actor, t.MembersOf(r.command.g) - {r.actor}, p, p.body,
             Queued(Some(r.command.g), true, false))
    else if AcksDelivered(t, r) then
      FanOut(w, r.actor, Senders(t, r.command.g, r.command.ts) - {r.actor}, DeliveredNotice(r.actor, p),
             p.body, Queued(Some(r.command.g), false, false))
    else if Sends(t, r) then
      w.(flight := w.flight + {(r.actor, SendAck(p, order))})
    else if r.command.DeleteGroupCommand? && Deletes(t, r, r.command.g) then
      w.(queue := map k | k in w.queue && w.queue[k].group != Some(r.command.g) :: w.queue[k])
    else w
  }

  /** To the sender or their queue (unless no such user exists), and to the reader's other sessions. */
  function HandleDirect(w: World, actor: Name, p: Packet): World
  {
    var w1 := w.(flight := w.flight + {(actor, p)});
    if p.to in w.online || p.to in w.tables.users
    then FanOut(w1, actor, {p.to}, p, p.body, Queued(None, true, false)) else w1
  }

  function HandleStep(w: World, r: Request, p: Packet, order: seq<Name>): World
  {
    var heard := if IsReceipt(p) then w.(said := w.said + {WhatItSays(r.actor, p)}) else w;
    var out := if DirectReceipt(r.actor, p) then HandleDirect(heard, r.actor, p)
               else HandleGroup(heard, r, p, order);
    out.(tables := Step(w.tables, r))
  }

  /** One queued receipt as LoginHandler replays it. */
  function Replayed(k: QueueKey, q: Queued): Packet
  {
    var to := if q.group.Some? && q.group.value > 0 then ToString(q.group.value) else k.1;
    var p := Blank(if q.read then READ_RECEIPT else ACK).(from := k.0, to := to, body := k.2);
    if q.read then p else p.(errorMsg := "delivered")
  }

  function Flush(w: World, u: Name): World
  {
    w.(flight := w.flight + (set k | k in w.queue && k.1 == u && !w.queue[k].flushed
                               :: (u, Replayed(k, w.queue[k]))),
       queue := map k | k in w.queue ::
                  if k.1 == u then w.queue[k].(flushed := true) else w.queue[k])
  }

  /**
   * What the server sends is readable: its notices and replays survive the wire as they are, its
   * send-ACK exactly when the group id it echoes holds no newline.
   */
  lemma SentIsClean(actor: Name, p: Packet, order: seq<Name>, k: QueueKey, q: Queued)
    requires Clean(p) && Free(actor, '|') && forall u :: u in order ==> Free(u, '|')
    requires Free(k.0, '|') && Free(k.1, '|') && Free(k.2, '|')
    ensures Clean(DeliveredNotice(actor, p)) && Clean(Replayed(k, q))
    ensures Clean(SendAck(p, order)) <==> Free(p.to, '\n')
  {
    JoinIsFree(order, ';', '|');
    if q.group.Some? && q.group.value > 0 { assert AllDigits(ToString(q.group.value)); }
    assert Free("delivered", '\n');
  }

  // ---------------------------------------------------------------------------
  // Client side
  // ---------------------------------------------------------------------------

  /** The client's ^\d+$: `$` also matches before a final newline. */
  predicate ClientNumeric(s: string)
  {
    IsNumeric(s) || (|s| > 1 && s[|s| - 1] == '\n' && IsNumeric(s[..|s| - 1]))
  }

  function Names(ps: seq<Pair>): seq<string>
  {
    if ps == [] then [] else [ps[0].0] + Names(ps[1..])
  }

  /**
   * What an incoming packet does to the receipt tables. The interface adds two writes of its own:
   * a direct receipt marks the conversation named like its reader, the ACK of a direct message the
   * conversation on screen, and either is taken for a group if its name is all digits.
   */
  function LocalEffect(active: string, p: Packet): Option<R.Event>
  {
    if p.kind == READ_RECEIPT then
      if ClientNumeric(p.to) then Some(R.MarkSeen(p.to, Timestamps.Canonical(p.body), p.from))
      else if IsNumeric(p.from) then Some(R.SetStatus(p.from, Timestamps.Canonical(p.body), R.Seen))
      else None
    else if p.kind == ACK then
      if p.errorMsg == "delivered" then
        Some(R.MarkDelivered(p.to, Timestamps.Canonical(p.body), p.from))
      else if p.errorMsg != "" && p.timestamp != "" then
        Some(R.Snapshot(p.errorMsg, Timestamps.Canonical(p.timestamp), Fields(p.key, ';')))
      else if p.body == "" && p.timestamp != "" && IsNumeric(active) then
        Some(R.SetStatus(active, Timestamps.Canonical(p.timestamp), R.Delivered))
      else None
    else if p.kind == GROUP_INFO then Some(R.Prune(p.body, Names(MemberRoles(p.key))))
    else if p.kind == GROUP_LEAVE && p.body != "rotate" then Some(R.RemoveGroup(p.body))
    else None
  }

  // ---------------------------------------------------------------------------
  // Runs
  // ---------------------------------------------------------------------------

  predicate Enabled(w: World, e: Event)
  {
    match e
    case Handle(actor, p, now, stamp, order) =>
      var r := Request(actor, Decode(p), now, stamp);
      Sends(w.tables, r) ==>
        (set u | u in order) == w.tables.MembersOf(r.command.g) - {actor}
    case OtherPacket(_, p) => !IsReceipt(p) && (p.kind == ACK ==> p.errorMsg == "")
    case Open(id, _) => id in w.clients
    case Keep(id, _, _, _) => id in w.clients
    case Arrive(id, p) => id in w.clients && (w.clients[id].user, p) in w.flight
    case _ => true
  }

  function Local(w: World, id: int, e: R.Event): World
  {
    if id !in w.clients then w
    else w.(clients := w.clients[id := w.clients[id].(store := R.Step(w.clients[id].store, e))])
  }

  function Received(w: World, id: int, p: Packet): World
  {
    if id !in w.clients then w else Applied(w, id, LocalEffect(w.clients[id].active, p))
  }

  function Applied(w: World, id: int, l: Option<R.Event>): World
  {
    match l
    case None => w
    case Some(x) => Local(w, id, x)
  }

  function Next(w: World, e: Event): World
  {
    match e
    case Connect(u) => w.(online := w.online + {u})
    case Disconnect(u) => w.(online := w.online - {u})
    case Handle(actor, p, now, stamp, order) =>
      HandleStep(w, Request(actor, Decode(p), now, stamp), p, order)
    case FlushReceipts(u) => Flush(w, u)
    case OtherPacket(u, p) => w.(flight := w.flight + {(u, p)})
    case Install(id, u) =>
      if id in w.clients then w
      else w.(clients := w.clients[id := Client(u, R.Store(map[], map[]), "")])
    case Open(id, peer) =>
      if id in w.clients then w.(clients := w.clients[id := w.clients[id].(active := peer)]) else w
    case Keep(id, g, sender, ts) => Local(w, id, R.StoreMessage(g, sender, ts))
    case Arrive(id, p) => Received(w, id, p)
  }

  lemma ArriveIs(w: World, id: int, p: Packet, e: Event)
    requires id in w.clients && e == Arrive(id, p)
    ensures Next(w, e) == Applied(w, id, LocalEffect(w.clients[id].active, p))
  {
    assert Next(w, e) == Received(w, e.id, e.packet);
  }

  ghost predicate Follows(ws: seq<World>, es: seq<Event>, i: int)
    requires 0 <= i < |es| < |ws|
  {
    Enabled(ws[i], es[i]) && ws[i + 1] == Next(ws[i], es[i])
  }

  ghost predicate History(ws: seq<World>, es: seq<Event>)
  {
    && |ws| == |es| + 1 && ws[0] == START
    && forall i {:trigger Follows(ws, es, i)} :: 0 <= i < |es| ==> Follows(ws, es, i)
  }

  // ---------------------------------------------------------------------------
  // Receipts never over-report
  // ---------------------------------------------------------------------------

  /** A mark for this member, group and timestamp is backed by a packet that member sent. */
  ghost predicate Backed(said: set<Said>, member: Name, group: Option<int>, ts: string, read: bool)
  {
    Said(member, group, ts, true) in said || (!read && Said(member, group, ts, false) in said)
  }

  ghost predicate PacketBacked(said: set<Said>, p: Packet)
  {
    IsReceipt(p) ==>
      Backed(said, p.from, Stoi(p.to), Timestamps.Canonical(p.body), p.kind == READ_RECEIPT)
  }

  ghost predicate QueuedBacked(said: set<Said>, k: QueueKey, q: Queued)
  {
    && Backed(said, k.0, if q.group.Some? then q.group else Stoi(k.1), Timestamps.Canonical(k.2), q.read)
    && (q.group.Some? ==> 0 < q.group.value && IsInt32(q.group.value))
  }

  ghost predicate RowBacked(said: set<Said>, k: R.RowKey, row: R.Row)
  {
    && (row.seen ==> Backed(said, k.2, Stoi(k.0), k.1, true))
    && (row.delivered ==> Backed(said, k.2, Stoi(k.0), k.1, false))
  }

  ghost predicate FlightBacked(w: World)
  {
    forall f :: f in w.flight ==> PacketBacked(w.said, f.1)
  }

  ghost predicate QueueBacked(w: World)
  {
    forall k :: k in w.queue ==> QueuedBacked(w.said, k, w.queue[k])
  }

  ghost predicate StoreBacked(said: set<Said>, s: R.Store)
  {
    forall k :: k in s.rows ==> RowBacked(said, k, s.rows[k])
  }

  ghost predicate ClientsBacked(w: World)
  {
    forall id :: id in w.clients ==> StoreBacked(w.said, w.clients[id].store)
  }

  ghost predicate GroupsPositive(t: Tables)
  {
    t.nextGroup > 0 && (forall g :: g in t.groups ==> g > 0)
  }

  ghost predicate NothingInvented(w: World)
  {
    && Consistent(w.tables) && GroupsPositive(w.tables)
    && FlightBacked(w) && QueueBacked(w) && ClientsBacked(w)
  }

  /** What the decoder guarantees about the packets that mark or delete. */
  lemma DecodeFacts(p: Packet)
    ensures Decode(p).MarkRead? ==>
      p.kind == READ_RECEIPT && Decode(p).from == p.from && Decode(p).ts == p.body
      && Stoi(p.to) == Some(Decode(p).g)
    ensures Decode(p).AckDelivered? ==>
      p.kind == ACK && p.errorMsg == "delivered" && Decode(p).ts == p.body
      && Stoi(p.to) == Some(Decode(p).g)
    ensures Decode(p).SendTo? ==> p.kind == GROUP_MESSAGE && Stoi(p.to) == Some(Decode(p).g)
  {
  }

  lemma DeliveredIsNoNumber()
    ensures Stoi("delivered").None?
  {
    assert SkipSpace("delivered") == "delivered" && DigitRun("delivered") == 0;
  }

  lemma SendAckIsNoReceipt(p: Packet, order: seq<Name>)
    requires Stoi(p.to).Some?
    ensures !IsReceipt(SendAck(p, order))
  {
    DeliveredIsNoNumber();
  }

  /** Hearing more packets never unbacks anything. */
  lemma MoreSaid(w: World, said: set<Said>)
    requires FlightBacked(w) && QueueBacked(w) && ClientsBacked(w) && w.said <= said
    ensures var v := w.(said := said); FlightBacked(v) && QueueBacked(v) && ClientsBacked(v)
  {
  }

  lemma FanOutBacked(w: World, from: Name, targets: set<Name>, p: Packet, ts: string, row: Queued)
    requires FlightBacked(w) && QueueBacked(w) && ClientsBacked(w)
    requires PacketBacked(w.said, p)
    requires forall u :: u in targets && u !in w.online ==> QueuedBacked(w.said, (from, u, ts), row)
    ensures var v := FanOut(w, from, targets, p, ts, row);
            FlightBacked(v) && QueueBacked(v) && ClientsBacked(v)
  {
  }

  lemma HandleGroupBacked(w: World, r: Request, p: Packet, order: seq<Name>)
    requires FlightBacked(w) && QueueBacked(w) && ClientsBacked(w)
    requires Consistent(w.tables) && GroupsPositive(w.tables)
    requires IsReceipt(p) ==> WhatItSays(r.actor, p) in w.said
    requires r.command.MarkRead? ==>
      p.kind == READ_RECEIPT && r.command.from == p.from && r.command.ts == p.body
      && Stoi(p.to) == Some(r.command.g) && IsInt32(r.command.g)
    requires r.command.AckDelivered? ==>
      p.kind == ACK && p.errorMsg == "delivered" && r.command.ts == p.body
      && Stoi(p.to) == Some(r.command.g) && IsInt32(r.command.g)
    requires r.command.SendTo? ==> !IsReceipt(SendAck(p, order))
    ensures var v := HandleGroup(w, r, p, order);
            FlightBacked(v) && QueueBacked(v) && ClientsBacked(v) && v.tables == w.tables
  {
    var t := w.tables;
    if Reads(t, r) {
      assert (r.command.g, r.actor) in t.members;
      FanOutBacked(w, r.actor, t.MembersOf(r.command.g) - {r.actor}, p, p.body,
                   Queued(Some(r.command.g), true, false));
    } else if AcksDelivered(t, r) {
      assert (r.command.g, r.actor) in t.members;
      FanOutBacked(w, r.actor, Senders(t, r.command.g, r.command.ts) - {r.actor},
                   DeliveredNotice(r.actor, p), p.body, Queued(Some(r.command.g), false, false));
    }
  }

  lemma HandleDirectBacked(w: World, actor: Name, p: Packet)
    requires FlightBacked(w) && QueueBacked(w) && ClientsBacked(w)
    requires DirectReceipt(actor, p) && WhatItSays(actor, p) in w.said
    ensures var v := HandleDirect(w, actor, p);
            FlightBacked(v) && QueueBacked(v) && ClientsBacked(v) && v.tables == w.tables
  {
    var w1 := w.(flight := w.flight + {(actor, p)});
    var row := Queued(None, true, false);
    assert PacketBacked(w.said, p);
    assert QueuedBacked(w.said, (actor, p.to, p.body), row);
    FanOutBacked(w1, actor, {p.to}, p, p.body, row);
  }

  lemma TablesStay(t: Tables, r: Request)
    requires Consistent(t) && GroupsPositive(t)
    ensures Consistent(Step(t, r)) && GroupsPositive(Step(t, r))
  {
    StepKeepsConsistent(t, r);
    GroupsStayPositive(t, EffectOf(t, r));
  }

  lemma GroupsStayPositive(t: Tables, e: Groups.Effect)
    requires GroupsPositive(t)
    ensures GroupsPositive(Apply(t, e))
  {
  }

  lemma HandleBacked(w: World, r: Request, p: Packet, order: seq<Name>)
    requires NothingInvented(w) && r.command == Decode(p)
    ensures NothingInvented(HandleStep(w, r, p, order))
  {
    var said := if IsReceipt(p) then w.said + {WhatItSays(r.actor, p)} else w.said;
    var heard := w.(said := said);
    MoreSaid(w, said);
    TablesStay(w.tables, r);
    DecodeFacts(p);
    if DirectReceipt(r.actor, p) {
      HandleDirectBacked(heard, r.actor, p);
    } else {
      if r.command.SendTo? {
        SendAckIsNoReceipt(p, order);
      }
      HandleGroupBacked(heard, r, p, order);
    }
  }

  lemma ReplayedBacked(said: set<Said>, k: QueueKey, q: Queued)
    requires QueuedBacked(said, k, q)
    ensures PacketBacked(said, Replayed(k, q))
  {
    if q.group.Some? {
      StoiOfToString(q.group.value);
    }
  }

  lemma FlushBacked(w: World, u: Name)
    requires FlightBacked(w) && QueueBacked(w) && ClientsBacked(w)
    ensures var v := Flush(w, u); FlightBacked(v) && QueueBacked(v) && ClientsBacked(v)
  {
    var v := Flush(w, u);
    forall f | f in v.flight ensures PacketBacked(w.said, f.1) {
      if f !in w.flight {
        var k :| k in w.queue && f == (u, Replayed(k, w.queue[k]));
        ReplayedBacked(w.said, k, w.queue[k]);
      }
    }
    forall k | k in v.queue ensures QueuedBacked(w.said, k, v.queue[k]) {
      assert QueuedBacked(w.said, k, w.queue[k]);
    }
  }

  /** A local step is backed if any mark it makes is. */
  lemma LocalBacked(said: set<Said>, s: R.Store, e: R.Event)
    requires StoreBacked(said, s)
    requires e.MarkSeen? ==> Backed(said, e.member, Stoi(e.g), e.ts, true)
    requires e.MarkDelivered? ==> Backed(said, e.member, Stoi(e.g), e.ts, false)
    ensures StoreBacked(said, R.Step(s, e))
  {
    var t := R.Step(s, e);
    forall k | k in t.rows ensures RowBacked(said, k, t.rows[k]) {
      R.RowsAfter(s, e, k);
    }
  }

  lemma EffectFacts(active: string, p: Packet, l: R.Event)
    requires LocalEffect(active, p) == Some(l)
    ensures l.SetStatus? && l.status == R.Seen ==> p.kind == READ_RECEIPT && IsNumeric(p.from)
    ensures l.MarkSeen? ==> p.kind == READ_RECEIPT && l.g == p.to && l.member == p.from
                            && l.ts == Timestamps.Canonical(p.body)
    ensures l.MarkDelivered? ==> p.kind == ACK && p.errorMsg == "delivered" && l.g == p.to
                                 && l.member == p.from && l.ts == Timestamps.Canonical(p.body)
  {
  }

  lemma ArriveBacked(said: set<Said>, s: R.Store, active: string, p: Packet, l: R.Event)
    requires StoreBacked(said, s) && PacketBacked(said, p) && LocalEffect(active, p) == Some(l)
    ensures StoreBacked(said, R.Step(s, l))
  {
    EffectFacts(active, p, l);
    LocalBacked(said, s, l);
  }

  /** A change of one client's store that stays backed. */
  lemma LocalInventsNothing(w: World, id: int, l: R.Event)
    requires NothingInvented(w)
    requires id in w.clients ==> StoreBacked(w.said, R.Step(w.clients[id].store, l))
    ensures NothingInvented(Local(w, id, l))
  {
  }

  lemma ArriveInventsNothing(w: World, id: int, p: Packet)
    requires NothingInvented(w) && id in w.clients && (w.clients[id].user, p) in w.flight
    ensures NothingInvented(Received(w, id, p))
  {
    match LocalEffect(w.clients[id].active, p)
    case None =>
    case Some(l) =>
      assert PacketBacked(w.said, (w.clients[id].user, p).1);
      ArriveBacked(w.said, w.clients[id].store, w.clients[id].active, p, l);
      LocalInventsNothing(w, id, l);
  }

  lemma KeepInventsNothing(w: World, id: int, g: string, sender: string, ts: string)
    requires NothingInvented(w) && id in w.clients
    ensures NothingInvented(Local(w, id, R.StoreMessage(g, sender, ts)))
  {
    LocalBacked(w.said, w.clients[id].store, R.StoreMessage(g, sender, ts));
    LocalInventsNothing(w, id, R.StoreMessage(g, sender, ts));
  }

  lemma InstallInventsNothing(w: World, id: int, u: Name)
    requires NothingInvented(w)
    ensures NothingInvented(Next(w, Install(id, u)))
  {
    assert StoreBacked(w.said, R.Store(map[], map[]));
  }

  lemma OtherInventsNothing(w: World, e: Event)
    requires NothingInvented(w) && Enabled(w, e) && !e.Handle? && !e.Arrive?
    ensures NothingInvented(Next(w, e))
  {
    match e
    case FlushReceipts(u) => FlushBacked(w, u);
    case Keep(id, g, sender, ts) => KeepInventsNothing(w, id, g, sender, ts);
    case Install(id, u) => InstallInventsNothing(w, id, u);
    case OtherPacket(u, p) => assert PacketBacked(w.said, p);
    case _ =>
  }

  lemma NextInventsNothing(w: World, e: Event)
    requires NothingInvented(w) && Enabled(w, e)
    ensures NothingInvented(Next(w, e))
  {
    match e
    case Handle(actor, p, now, stamp, order) =>
      HandleBacked(w, Request(actor, Decode(p), now, stamp), p, order);
    case Arrive(id, p) => ArriveInventsNothing(w, id, p);
    case _ => OtherInventsNothing(w, e);
  }

  lemma StepInventsNothing(ws: seq<World>, es: seq<Event>, i: nat)
    requires History(ws, es) && i < |es| && NothingInvented(ws[i])
    ensures NothingInvented(ws[i + 1])
  {
    assert NothingInvented(Next(ws[i], es[i])) && ws[i + 1] == Next(ws[i], es[i]) by {
      assert Follows(ws, es, i);
      NextInventsNothing(ws[i], es[i]);
    }
  }

  lemma NothingIsInvented(ws: seq<World>, es: seq<Event>, n: nat)
    requires History(ws, es) && n <= |es|
    ensures NothingInvented(ws[n])
  {
    var good := seq(n + 1, i requires 0 <= i <= n => NothingInvented(ws[i]));
    assert good[0];
    forall i | 0 <= i < n && good[i] ensures good[i + 1] { StepInventsNothing(ws, es, i); }
    Always(good, n);
  }

  /** Among the first n events, a session of `member` sent such a receipt. */
  ghost predicate Sent(es: seq<Event>, n: int, member: Name, group: Option<int>, ts: string, read: bool)
    requires n <= |es|
  {
    exists i :: 0 <= i < n && es[i].Handle? && es[i].actor == member && IsReceipt(es[i].packet)
             && Stoi(es[i].packet.to) == group && Timestamps.Canonical(es[i].packet.body) == ts
             && (read ==> es[i].packet.kind == READ_RECEIPT)
  }

  lemma HandleGroupFrame(w: World, r: Request, p: Packet, order: seq<Name>)
    ensures HandleGroup(w, r, p, order).clients == w.clients
    ensures HandleGroup(w, r, p, order).said == w.said
  {
  }

  /** Handling a packet touches no client, and hears exactly that packet. */
  lemma HandleFrame(w: World, r: Request, p: Packet, order: seq<Name>)
    ensures HandleStep(w, r, p, order).clients == w.clients
    ensures HandleStep(w, r, p, order).said
         == if IsReceipt(p) then w.said + {WhatItSays(r.actor, p)} else w.said
  {
    HandleGroupFrame(if IsReceipt(p) then w.(said := w.said + {WhatItSays(r.actor, p)}) else w, r, p, order);
  }

  lemma SaidStep(w: World, e: Event, x: Said)
    requires Enabled(w, e) && x in Next(w, e).said && x !in w.said
    ensures e.Handle? && IsReceipt(e.packet) && x == WhatItSays(e.actor, e.packet)
  {
    if e.Handle? {
      HandleFrame(w, Request(e.actor, Decode(e.packet), e.now, e.stamp), e.packet, e.order);
    }
  }

  lemma {:induction false} SaidWasSent(ws: seq<World>, es: seq<Event>, n: nat, x: Said)
    requires History(ws, es) && n <= |es| && x in ws[n].said
    ensures Sent(es, n, x.member, x.group, x.ts, x.read)
  {
    if x in ws[n - 1].said {
      SaidWasSent(ws, es, n - 1, x);
    } else {
      assert Follows(ws, es, n - 1);
      SaidStep(ws[n - 1], es[n - 1], x);
    }
  }

  lemma BackedWasSent(ws: seq<World>, es: seq<Event>, n: nat, member: Name, group: Option<int>,
                      ts: string, read: bool)
    requires History(ws, es) && n <= |es| && Backed(ws[n].said, member, group, ts, read)
    ensures Sent(es, n, member, group, ts, read)
  {
    if Said(member, group, ts, true) in ws[n].said {
      SaidWasSent(ws, es, n, Said(member, group, ts, true));
    } else {
      SaidWasSent(ws, es, n, Said(member, group, ts, false));
    }
  }

  /**
   * In every run, on every device: a local row says seen only if that member sent a READ_RECEIPT
   * for that group and timestamp, and delivered only if they sent one or a delivered ACK.
   */
  lemma ReceiptsNeverOverReport(ws: seq<World>, es: seq<Event>, n: nat, id: int, k: R.RowKey)
    requires History(ws, es) && n <= |es|
    requires id in ws[n].clients && k in ws[n].clients[id].store.rows
    ensures ws[n].clients[id].store.rows[k].seen ==> Sent(es, n, k.2, Stoi(k.0), k.1, true)
    ensures ws[n].clients[id].store.rows[k].delivered ==> Sent(es, n, k.2, Stoi(k.0), k.1, false)
  {
    NothingIsInvented(ws, es, n);
    var row := ws[n].clients[id].store.rows[k];
    assert RowBacked(ws[n].said, k, row);
    if row.seen {
      BackedWasSent(ws, es, n, k.2, Stoi(k.0), k.1, true);
    }
    if row.delivered {
      BackedWasSent(ws, es, n, k.2, Stoi(k.0), k.1, false);
    }
  }

  // ---------------------------------------------------------------------------
  // A status that says seen
  // ---------------------------------------------------------------------------

  /** What one event does to one client's store. */
  function LocalEvent(w: World, e: Event, id: int): Option<R.Event>
    requires id in w.clients
  {
    match e
    case Keep(i, g, sender, ts) => if i == id then Some(R.StoreMessage(g, sender, ts)) else None
    case Arrive(i, p) => if i == id then LocalEffect(w.clients[id].active, p) else None
    case _ => None
  }

  function After(w: World, l: Option<R.Event>, id: int): R.Store
    requires id in w.clients
  {
    match l
    case None => w.clients[id].store
    case Some(x) => R.Step(w.clients[id].store, x)
  }

  lemma StoreAfter(w: World, e: Event, id: int)
    requires Enabled(w, e) && id in Next(w, e).clients
    ensures id !in w.clients ==> Next(w, e).clients[id].store == R.Store(map[], map[])
    ensures id in w.clients ==> Next(w, e).clients[id].store == After(w, LocalEvent(w, e, id), id)
  {
    match e
    case Handle(actor, p, now, stamp, order) =>
      HandleFrame(w, Request(actor, Decode(p), now, stamp), p, order);
    case _ =>
  }

  /** Once installed, a client stays. */
  lemma ClientsStay(w: World, e: Event, id: int)
    requires id in w.clients
    ensures id in Next(w, e).clients
  {
    match e
    case Handle(actor, p, now, stamp, order) =>
      HandleFrame(w, Request(actor, Decode(p), now, stamp), p, order);
    case _ =>
  }

  /** Event i makes "seen" say too much on this client: a late snapshot, or a write of its interface. */
  ghost predicate OverstatesAt(ws: seq<World>, es: seq<Event>, i: int, id: int)
    requires 0 <= i < |es| < |ws|
  {
    id in ws[i].clients && LocalEvent(ws[i], es[i], id).Some?
    && R.Overstates(ws[i].clients[id].store, LocalEvent(ws[i], es[i], id).value)
  }

  /** The client's "seen" means seen by everybody still in the snapshot. */
  ghost predicate Truthful(w: World, id: int)
  {
    id in w.clients ==> R.SeenMeansAll(w.clients[id].store)
  }

  lemma TruthfulStep(ws: seq<World>, es: seq<Event>, i: nat, id: int)
    requires History(ws, es) && i < |es| && Truthful(ws[i], id)
    ensures Truthful(ws[i + 1], id) <==> !OverstatesAt(ws, es, i, id)
  {
    assert Follows(ws, es, i);
    if id in ws[i].clients {
      ClientsStay(ws[i], es[i], id);
      StoreAfter(ws[i], es[i], id);
      if LocalEvent(ws[i], es[i], id).Some? {
        R.StepSeenMeansAllIff(ws[i].clients[id].store, LocalEvent(ws[i], es[i], id).value);
      }
    } else if id in ws[i + 1].clients {
      StoreAfter(ws[i], es[i], id);
    }
  }

  lemma TruthValues(ws: seq<World>, es: seq<Event>, n: nat, id: int) returns (good: seq<bool>)
    requires n <= |es| < |ws|
    ensures |good| == n + 1 && forall i {:trigger good[i]} {:trigger ws[i]} :: 0 <= i <= n ==> good[i] == Truthful(ws[i], id)
  {
    good := seq(n + 1, i requires 0 <= i <= n => Truthful(ws[i], id));
  }

  lemma BadSteps(ws: seq<World>, es: seq<Event>, n: nat, id: int) returns (bad: seq<bool>)
    requires n <= |es| < |ws|
    ensures |bad| == n && forall i {:trigger bad[i]} {:trigger OverstatesAt(ws, es, i, id)} :: 0 <= i < n ==> bad[i] == OverstatesAt(ws, es, i, id)
  {
    bad := seq(n, i requires 0 <= i < n => OverstatesAt(ws, es, i, id));
  }

  /** Over a whole run a client's "seen" is truthful exactly when no event overstates it. */
  lemma TruthfulIff(ws: seq<World>, es: seq<Event>, n: nat, id: int)
    requires History(ws, es) && n <= |es|
    ensures (forall i :: 0 <= i <= n ==> Truthful(ws[i], id))
       <==> forall i :: 0 <= i < n ==> !OverstatesAt(ws, es, i, id)
  {
    var good := TruthValues(ws, es, n, id);
    var bad := BadSteps(ws, es, n, id);
    assert good[0] == Truthful(ws[0], id);
    forall i | 0 <= i < n && good[i] ensures good[i + 1] == !bad[i] {
      assert good[i] == Truthful(ws[i], id) && good[i + 1] == Truthful(ws[i + 1], id);
      assert bad[i] == OverstatesAt(ws, es, i, id);
      TruthfulStep(ws, es, i, id);
    }
    AlwaysIff(good, bad, n);
  }

  /** Nobody whose name is all digits sends anything. */
  ghost predicate PlainNames(es: seq<Event>, n: int)
    requires n <= |es|
  {
    forall i :: 0 <= i < n && es[i].Handle? ==> !IsNumeric(es[i].actor)
  }

  /** Event i gives this client a snapshot with a new member for a message whose status is seen. */
  ghost predicate LateAt(ws: seq<World>, es: seq<Event>, i: int, id: int)
    requires 0 <= i < |es| < |ws|
  {
    id in ws[i].clients && LocalEvent(ws[i], es[i], id).Some?
    && R.LateSnapshot(ws[i].clients[id].store, LocalEvent(ws[i], es[i], id).value)
  }

  /** With plain names the interface never writes seen on its own. */
  lemma PlainNamesWriteNothing(ws: seq<World>, es: seq<Event>, i: nat, id: int)
    requires History(ws, es) && i < |es| && PlainNames(es, i)
    ensures OverstatesAt(ws, es, i, id) ==> LateAt(ws, es, i, id)
  {
    if es[i].Arrive? && es[i].id == id && id in ws[i].clients
       && LocalEvent(ws[i], es[i], id).Some? && LocalEvent(ws[i], es[i], id).value.SetStatus?
       && LocalEvent(ws[i], es[i], id).value.status == R.Seen
    {
      var p := es[i].packet;
      EffectFacts(ws[i].clients[id].active, p, LocalEvent(ws[i], es[i], id).value);
      assert Follows(ws, es, i);
      NothingIsInvented(ws, es, i);
      assert PacketBacked(ws[i].said, (ws[i].clients[id].user, p).1);
      BackedWasSent(ws, es, i, p.from, Stoi(p.to), Timestamps.Canonical(p.body), true);
      assert false;
    }
  }

  /**
   * A status that says seen is right when names are plain: unless a snapshot came late, every
   * member still in the message's snapshot sent a READ_RECEIPT for it.
   */
  lemma SeenStatusIsTrue(ws: seq<World>, es: seq<Event>, n: nat, id: int, m: R.MessageKey, member: Name)
    requires History(ws, es) && n <= |es| && id in ws[n].clients && PlainNames(es, n)
    requires forall i :: 0 <= i < n ==> !LateAt(ws, es, i, id)
    requires var s := ws[n].clients[id].store;
             m in s.status && s.status[m] == R.Seen && (m.0, m.2, member) in s.rows
    ensures Sent(es, n, member, Stoi(m.0), m.2, true)
  {
    forall i | 0 <= i < n ensures !OverstatesAt(ws, es, i, id) {
      PlainNamesWriteNothing(ws, es, i, id);
    }
    TruthfulIff(ws, es, n, id);
    assert Truthful(ws[n], id);
    ReceiptsNeverOverReport(ws, es, n, id, (m.0, m.2, member));
  }
}
