/**
 * Receipts get through: who is sent a receipt, who finds it queued, and what its arrival does to the
 * sender's table.
 */
module ReceiptReach {
  import opened Wrappers
  import opened Text
  import opened Wire
  import opened FieldCodecs
  import opened Groups
  import opened GroupPackets
  import opened ReceiptFlow
  import Timestamps
  import opened RecipientTrace
  import R = RecipientStore

  // ---------------------------------------------------------------------------
  // Who is told
  // ---------------------------------------------------------------------------

  /** A group READ_RECEIPT that the server accepts. */
  predicate AcceptedRead(t: Tables, reader: Name, p: Packet, g: int)
  {
    && p.kind == READ_RECEIPT && p.from == reader && reader != "" && p.body != ""
    && IsNumeric(p.to) && Stoi(p.to) == Some(g) && (g, reader) in t.members
  }

  lemma ReadCommand(t: Tables, reader: Name, p: Packet, g: int)
    requires AcceptedRead(t, reader, p, g)
    ensures Decode(p) == MarkRead(g, reader, p.body)
  {
    NumberedIff(p);
    ReadIff(p, Stoi(p.to), g, reader, p.body);
  }

  /** What a fan-out adds: a packet for each target online, a queue row for each other unless one is there. */
  lemma FanOutIff(w: World, from: Name, targets: set<Name>, p: Packet, ts: string, row: Queued, u: Name, q: Packet)
    ensures var v := FanOut(w, from, targets, p, ts, row);
            && ((u, q) in v.flight <==> (u, q) in w.flight || (q == p && u in targets && u in w.online))
            && ((from, u, ts) in v.queue <==> (from, u, ts) in w.queue || (u in targets && u !in w.online))
            && ((from, u, ts) in v.queue ==>
                  v.queue[(from, u, ts)] == if (from, u, ts) in w.queue then w.queue[(from, u, ts)] else row)
  {
  }

  /** The same, seen from before the packet was heard. */
  lemma ToldOf(w: World, said: set<Said>, v: World, from: Name, targets: set<Name>, p: Packet, ts: string, row: Queued,
               u: Name, q: Packet)
    requires v == FanOut(w.(said := said), from, targets, p, ts, row).(tables := v.tables)
    ensures (u, q) in v.flight <==> (u, q) in w.flight || (q == p && u in targets && u in w.online)
    ensures (from, u, ts) in v.queue <==> (from, u, ts) in w.queue || (u in targets && u !in w.online)
    ensures (from, u, ts) in v.queue && (from, u, ts) !in w.queue ==> v.queue[(from, u, ts)] == row
  {
    FanOutIff(w.(said := said), from, targets, p, ts, row, u, q);
  }

  lemma ReadStep(w: World, r: Request, p: Packet)
    requires r.command.MarkRead? && Reads(w.tables, r) && p.kind == READ_RECEIPT && IsNumeric(p.to)
    ensures var heard := w.(said := w.said + {WhatItSays(r.actor, p)});
            HandleStep(w, r, p, [])
            == FanOut(heard, r.actor, w.tables.MembersOf(r.command.g) - {r.actor}, p, p.body,
                      Queued(Some(r.command.g), true, false)).(tables := Step(w.tables, r))
  {
  }

  lemma HandleIs(w: World, actor: Name, p: Packet, now: int, stamp: Option<string>, c: Command)
    requires Decode(p) == c
    ensures Next(w, Handle(actor, p, now, stamp, [])) == HandleStep(w, Request(actor, c, now, stamp), p, [])
  {
    var v := Next(w, Handle(actor, p, now, stamp, []));
    assert v == HandleStep(w, Request(actor, Decode(p), now, stamp), p, []);
  }

  lemma ToldOfRead(w: World, r: Request, p: Packet, u: Name, q: Packet)
    requires r.command.MarkRead? && Reads(w.tables, r) && p.kind == READ_RECEIPT && IsNumeric(p.to)
    ensures var v, k := HandleStep(w, r, p, []), (r.actor, u, p.body);
            var other := (r.command.g, u) in w.tables.members && u != r.actor;
            && ((u, q) in v.flight <==> (u, q) in w.flight || (q == p && other && u in w.online))
            && (k in v.queue <==> k in w.queue || (other && u !in w.online))
            && (k in v.queue && k !in w.queue ==> v.queue[k] == Queued(Some(r.command.g), true, false))
  {
    var g := r.command.g;
    ReadStep(w, r, p);
    MembersIff(w.tables, g, u);
    ToldOf(w, w.said + {WhatItSays(r.actor, p)}, HandleStep(w, r, p, []), r.actor, w.tables.MembersOf(g) - {r.actor},
           p, p.body, Queued(Some(g), true, false), u, q);
  }

  lemma MembersIff(t: Tables, g: int, u: Name)
    ensures u in t.MembersOf(g) <==> (g, u) in t.members
  {
  }

  /**
   * An accepted READ_RECEIPT goes, as it is, to exactly the other members who are online, and is
   * queued for exactly the others, unless a receipt of that reader for that time is queued already.
   */
  lemma ReadIsTold(w: World, reader: Name, p: Packet, g: int, now: int, stamp: Option<string>, u: Name, q: Packet)
    requires AcceptedRead(w.tables, reader, p, g)
    ensures var v, k := Next(w, Handle(reader, p, now, stamp, [])), (reader, u, p.body);
            var other := (g, u) in w.tables.members && u != reader;
            && ((u, q) in v.flight <==> (u, q) in w.flight || (q == p && other && u in w.online))
            && (k in v.queue <==> k in w.queue || (other && u !in w.online))
            && (k in v.queue && k !in w.queue ==> v.queue[k] == Queued(Some(g), true, false))
  {
    ReadCommand(w.tables, reader, p, g);
    HandleIs(w, reader, p, now, stamp, MarkRead(g, reader, p.body));
    ToldOfRead(w, Request(reader, MarkRead(g, reader, p.body), now, stamp), p, u, q);
  }

  /** A delivered ACK that the server accepts. */
  predicate AcceptedAck(t: Tables, member: Name, p: Packet, g: int)
  {
    && p.kind == ACK && p.errorMsg == "delivered" && p.body != ""
    && IsNumeric(p.to) && Stoi(p.to) == Some(g) && (g, member) in t.members
  }

  lemma AckGroup(w: World, r: Request, p: Packet)
    requires r.command.AckDelivered? && AcksDelivered(w.tables, r)
    ensures HandleGroup(w, r, p, [])
            == FanOut(w, r.actor, Senders(w.tables, r.command.g, r.command.ts) - {r.actor}, DeliveredNotice(r.actor, p),
                      p.body, Queued(Some(r.command.g), false, false))
  {
  }

  lemma AckStep(w: World, r: Request, p: Packet)
    requires r.command.AckDelivered? && AcksDelivered(w.tables, r) && p.kind == ACK && p.errorMsg == "delivered"
    ensures var heard := w.(said := w.said + {WhatItSays(r.actor, p)});
            HandleStep(w, r, p, [])
            == FanOut(heard, r.actor, Senders(w.tables, r.command.g, r.command.ts) - {r.actor}, DeliveredNotice(r.actor, p),
                      p.body, Queued(Some(r.command.g), false, false)).(tables := Step(w.tables, r))
  {
    AckGroup(w.(said := w.said + {WhatItSays(r.actor, p)}), r, p);
  }

  lemma AckCommand(t: Tables, member: Name, p: Packet, g: int)
    requires AcceptedAck(t, member, p, g)
    ensures Decode(p) == AckDelivered(g, p.body)
  {
    NumberedIff(p);
    DeliveredIff(p, Stoi(p.to), g, p.body);
  }

  /** u sent a message of the group with that time. */
  ghost predicate SentOne(t: Tables, g: int, ts: string, u: Name)
  {
    exists m :: m in t.messages && t.messages[m].group == g && t.messages[m].stamp == ts && t.messages[m].sender == u
  }

  /**
   * An accepted delivered ACK is told, as an ACK from that member for that group and time, to exactly
   * the other users who sent a message of that time, online or through the queue.
   */
  lemma DeliveryIsTold(w: World, member: Name, p: Packet, g: int, now: int, stamp: Option<string>, u: Name, q: Packet)
    requires AcceptedAck(w.tables, member, p, g)
    ensures var v, k := Next(w, Handle(member, p, now, stamp, [])), (member, u, p.body);
            var other := SentOne(w.tables, g, p.body, u) && u != member;
            var notice := Packet(ACK, PROTOCOL_VERSION, member, p.to, p.body, "", "", "delivered");
            && ((u, q) in v.flight <==> (u, q) in w.flight || (q == notice && other && u in w.online))
            && (k in v.queue <==> k in w.queue || (other && u !in w.online))
            && (k in v.queue && k !in w.queue ==> v.queue[k] == Queued(Some(g), false, false))
  {
    AckCommand(w.tables, member, p, g);
    HandleIs(w, member, p, now, stamp, AckDelivered(g, p.body));
    AckStep(w, Request(member, AckDelivered(g, p.body), now, stamp), p);
    NoticeIs(member, p);
    ToldOfDelivery(w, w.said + {WhatItSays(member, p)}, Next(w, Handle(member, p, now, stamp, [])), member, g, p.body,
                   DeliveredNotice(member, p), u, q);
  }

  /** Whom a fan-out to the senders of that time tells. */
  lemma ToldOfDelivery(w: World, said: set<Said>, v: World, member: Name, g: int, ts: string, p: Packet, u: Name, q: Packet)
    requires v == FanOut(w.(said := said), member, Senders(w.tables, g, ts) - {member}, p, ts,
                         Queued(Some(g), false, false)).(tables := v.tables)
    ensures var k, other := (member, u, ts), SentOne(w.tables, g, ts, u) && u != member;
            && ((u, q) in v.flight <==> (u, q) in w.flight || (q == p && other && u in w.online))
            && (k in v.queue <==> k in w.queue || (other && u !in w.online))
            && (k in v.queue && k !in w.queue ==> v.queue[k] == Queued(Some(g), false, false))
  {
    SendersIff(w.tables, g, ts, u);
    ToldOf(w, said, v, member, Senders(w.tables, g, ts) - {member}, p, ts, Queued(Some(g), false, false), u, q);
  }

  lemma SendersIff(t: Tables, g: int, ts: string, u: Name)
    ensures u in Senders(t, g, ts) <==> SentOne(t, g, ts, u)
  {
  }

  lemma NoticeIs(actor: Name, p: Packet)
    ensures DeliveredNotice(actor, p) == Packet(ACK, PROTOCOL_VERSION, actor, p.to, p.body, "", "", "delivered")
  {
  }

  /** A login replays exactly the receipts queued for the user and not replayed before. */
  lemma FlushIff(w: World, u: Name, x: Name, q: Packet)
    ensures var v := Next(w, FlushReceipts(u));
            && ((x, q) in v.flight <==>
                  (x, q) in w.flight
                  || (x == u && exists k :: k in w.queue && k.1 == u && !w.queue[k].flushed && q == Replayed(k, w.queue[k])))
            && v.queue.Keys == w.queue.Keys
            && forall k :: k in w.queue ==> v.queue[k] == w.queue[k].(flushed := w.queue[k].flushed || k.1 == u)
  {
  }

  // ---------------------------------------------------------------------------
  // What an arrival does
  // ---------------------------------------------------------------------------

  /** A READ_RECEIPT for a group marks its reader's row of that time as seen. */
  lemma ReadArrives(w: World, id: int, p: Packet)
    requires id in w.clients && p.kind == READ_RECEIPT && IsNumeric(p.to)
    requires (p.to, Timestamps.Canonical(p.body), p.from) in w.clients[id].store.rows
    ensures var k, v := (p.to, Timestamps.Canonical(p.body), p.from), Next(w, Arrive(id, p));
            id in v.clients && k in v.clients[id].store.rows && v.clients[id].store.rows[k].seen
  {
    var l := R.MarkSeen(p.to, Timestamps.Canonical(p.body), p.from);
    ReadEffect(w.clients[id].active, p);
    MarkArrives(w, id, p, l, true);
  }

  lemma ReadEffect(active: string, p: Packet)
    requires p.kind == READ_RECEIPT && IsNumeric(p.to)
    ensures LocalEffect(active, p) == Some(R.MarkSeen(p.to, Timestamps.Canonical(p.body), p.from))
  {
  }

  lemma MarkArrives(w: World, id: int, p: Packet, l: R.Event, seen: bool)
    requires id in w.clients && LocalEffect(w.clients[id].active, p) == Some(l)
    requires if seen then l.MarkSeen? else l.MarkDelivered?
    requires (l.g, l.ts, l.member) in w.clients[id].store.rows
    ensures var k, v := (l.g, l.ts, l.member), Next(w, Arrive(id, p));
            && id in v.clients && k in v.clients[id].store.rows
            && (if seen then v.clients[id].store.rows[k].seen else v.clients[id].store.rows[k].delivered)
  {
    var k, s := (l.g, l.ts, l.member), w.clients[id].store;
    MarkStep(s, l, k);
    ArriveStep(w, id, p, l);
  }

  lemma ArriveStep(w: World, id: int, p: Packet, l: R.Event)
    requires id in w.clients && LocalEffect(w.clients[id].active, p) == Some(l)
    ensures var v := Next(w, Arrive(id, p)); id in v.clients && v.clients[id].store == R.Step(w.clients[id].store, l)
  {
    ArriveIs(w, id, p, Arrive(id, p));
    AppliedIs(w, id, LocalEffect(w.clients[id].active, p), l);
  }

  lemma AppliedIs(w: World, id: int, o: Option<R.Event>, l: R.Event)
    requires id in w.clients && o == Some(l)
    ensures var v := Applied(w, id, o); id in v.clients && v.clients[id].store == R.Step(w.clients[id].store, l)
  {
  }

  /** A delivered notice marks its member's row of that time as delivered. */
  lemma DeliveryArrives(w: World, id: int, p: Packet)
    requires id in w.clients && p.kind == ACK && p.errorMsg == "delivered"
    requires (p.to, Timestamps.Canonical(p.body), p.from) in w.clients[id].store.rows
    ensures var k, v := (p.to, Timestamps.Canonical(p.body), p.from), Next(w, Arrive(id, p));
            id in v.clients && k in v.clients[id].store.rows && v.clients[id].store.rows[k].delivered
  {
    var l := R.MarkDelivered(p.to, Timestamps.Canonical(p.body), p.from);
    assert LocalEffect(w.clients[id].active, p) == Some(l);
    MarkArrives(w, id, p, l, false);
  }

  /**
   * End to end, online: a member reads, the sender is online, the packet arrives: the member's row on
   * the sender's device is seen.
   */
  lemma ReadGetsThrough(w: World, reader: Name, p: Packet, g: int, now: int, stamp: Option<string>, id: int)
    requires AcceptedRead(w.tables, reader, p, g) && id in w.clients
    requires var u := w.clients[id].user; (g, u) in w.tables.members && u != reader && u in w.online
    requires (p.to, Timestamps.Canonical(p.body), reader) in w.clients[id].store.rows
    ensures var v := Next(w, Handle(reader, p, now, stamp, []));
            var k := (p.to, Timestamps.Canonical(p.body), reader);
            && Enabled(v, Arrive(id, p)) && id in Next(v, Arrive(id, p)).clients
            && k in Next(v, Arrive(id, p)).clients[id].store.rows && Next(v, Arrive(id, p)).clients[id].store.rows[k].seen
  {
    var v, u := Next(w, Handle(reader, p, now, stamp, [])), w.clients[id].user;
    ReadIsTold(w, reader, p, g, now, stamp, u, p);
    HandleFrame(w, Request(reader, Decode(p), now, stamp), p, []);
    ReadArrives(v, id, p);
  }

  /** What a queued group read receipt comes back as. */
  lemma ReplayedRead(k: QueueKey, q: Queued, g: int)
    requires q.group == Some(g) && g > 0 && q.read
    ensures Replayed(k, q) == Packet(READ_RECEIPT, PROTOCOL_VERSION, k.0, ToString(g), k.2, "", "", "")
  {
  }

  lemma NumberIsNumeric(g: int)
    requires g > 0
    ensures IsNumeric(ToString(g))
  {
  }

  /**
   * End to end, offline: a receipt queued for the sender is replayed at the sender's next login, and
   * its arrival marks the row.
   */
  lemma QueuedReadGetsThrough(w: World, k: QueueKey, g: int, id: int)
    requires k in w.queue && w.queue[k] == Queued(Some(g), true, false) && g > 0
    requires id in w.clients && w.clients[id].user == k.1
    requires (ToString(g), Timestamps.Canonical(k.2), k.0) in w.clients[id].store.rows
    ensures var v, p := Next(w, FlushReceipts(k.1)), Replayed(k, w.queue[k]);
            var row := (ToString(g), Timestamps.Canonical(k.2), k.0);
            && Enabled(v, Arrive(id, p)) && id in Next(v, Arrive(id, p)).clients
            && row in Next(v, Arrive(id, p)).clients[id].store.rows && Next(v, Arrive(id, p)).clients[id].store.rows[row].seen
  {
    var v, p := Next(w, FlushReceipts(k.1)), Replayed(k, w.queue[k]);
    FlushIff(w, k.1, k.1, p);
    assert v.clients == w.clients;
    assert p.kind == READ_RECEIPT && p.to == ToString(g) && p.from == k.0 && p.body == k.2 by {
      ReplayedRead(k, w.queue[k], g);
    }
    NumberIsNumeric(g);
    ReadArrives(v, id, p);
  }

  // ---------------------------------------------------------------------------
  // Direct receipts, snapshots and member lists
  // ---------------------------------------------------------------------------

  lemma DirectStep(w: World, r: Request, p: Packet)
    requires DirectReceipt(r.actor, p)
    ensures HandleStep(w, r, p, [])
            == HandleDirect(w.(said := w.said + {WhatItSays(r.actor, p)}), r.actor, p).(tables := Step(w.tables, r))
  {
  }

  lemma DirectFanOut(w: World, actor: Name, p: Packet, u: Name, q: Packet)
    ensures var v, k := HandleDirect(w, actor, p), (actor, u, p.body);
            && ((u, q) in v.flight <==>
                  (u, q) in w.flight || (q == p && (u == actor || (u == p.to && u in w.online))))
            && (k in v.queue <==> k in w.queue || (u == p.to && u !in w.online && u in w.tables.users))
            && (k in v.queue && k !in w.queue ==> v.queue[k] == Queued(None, true, false))
  {
    FanOutIff(w.(flight := w.flight + {(actor, p)}), actor, {p.to}, p, p.body, Queued(None, true, false), u, q);
  }

  /**
   * A direct READ_RECEIPT goes to the reader's own sessions and to the message's sender, online or
   * through the queue; a name nobody has registered gets nothing.
   */
  lemma DirectReadIsTold(w: World, reader: Name, p: Packet, now: int, stamp: Option<string>, u: Name, q: Packet)
    requires p.kind == READ_RECEIPT && p.from == reader && reader != "" && p.to != "" && p.body != "" && !IsNumeric(p.to)
    ensures var v, k := Next(w, Handle(reader, p, now, stamp, [])), (reader, u, p.body);
            && ((u, q) in v.flight <==>
                  (u, q) in w.flight || (q == p && (u == reader || (u == p.to && u in w.online))))
            && (k in v.queue <==> k in w.queue || (u == p.to && u !in w.online && u in w.tables.users))
            && (k in v.queue && k !in w.queue ==> v.queue[k] == Queued(None, true, false))
  {
    DirectStep(w, Request(reader, Decode(p), now, stamp), p);
    DirectFanOut(w.(said := w.said + {WhatItSays(reader, p)}), reader, p, u, q);
  }

  lemma ListedArrives(w: World, id: int, q: Packet, g: string, ts: string, order: seq<Name>, u: Name)
    requires id in w.clients && u in order && LocalEffect(w.clients[id].active, q) == Some(R.Snapshot(g, ts, order))
    ensures id in Next(w, Arrive(id, q)).clients && (g, ts, u) in Next(w, Arrive(id, q)).clients[id].store.rows
  {
    ArriveStep(w, id, q, R.Snapshot(g, ts, order));
    RowStep(w.clients[id].store, R.Snapshot(g, ts, order), (g, ts, u));
  }

  lemma AckEffect(active: string, q: Packet, order: seq<Name>)
    requires q.kind == ACK && q.errorMsg != "" && q.errorMsg != "delivered" && q.timestamp != ""
    requires q.key == Join(order, ';') && forall x :: x in order ==> x != "" && Free(x, ';')
    ensures LocalEffect(active, q) == Some(R.Snapshot(q.errorMsg, Timestamps.Canonical(q.timestamp), order))
  {
    ListRoundTripIff(order, ';');
  }

  /**
   * The send-ACK of a group message, which names the group, the message's time and the recipients,
   * gives the sender one row for each recipient.
   */
  lemma SnapshotArrives(w: World, id: int, q: Packet, order: seq<Name>, u: Name)
    requires id in w.clients && u in order && forall x :: x in order ==> x != "" && Free(x, ';')
    requires q.kind == ACK && q.errorMsg != "" && q.errorMsg != "delivered" && q.timestamp != "" && q.key == Join(order, ';')
    ensures id in Next(w, Arrive(id, q)).clients
    ensures (q.errorMsg, Timestamps.Canonical(q.timestamp), u) in Next(w, Arrive(id, q)).clients[id].store.rows
  {
    AckEffect(w.clients[id].active, q, order);
    ListedArrives(w, id, q, q.errorMsg, Timestamps.Canonical(q.timestamp), order, u);
  }

  /** And that is what the server sends back for an accepted group message. */
  lemma SendIsAcknowledged(w: World, r: Request, p: Packet, order: seq<Name>)
    requires r.command.SendTo? && Sends(w.tables, r) && p.kind == GROUP_MESSAGE
    ensures (r.actor, Packet(ACK, PROTOCOL_VERSION, "", p.from, "", Join(order, ';'), p.timestamp, p.to))
            in HandleStep(w, r, p, order).flight
  {
    HandleGroupSends(w, r, p, order);
  }

  lemma HandleGroupSends(w: World, r: Request, p: Packet, order: seq<Name>)
    requires r.command.SendTo? && Sends(w.tables, r)
    ensures HandleGroup(w, r, p, order) == w.(flight := w.flight + {(r.actor, SendAck(p, order))})
  {
  }

  lemma {:induction false} NamesIff(ps: seq<Pair>, u: string)
    ensures u in Names(ps) <==> exists p :: p in ps && p.0 == u
  {
    if ps != [] { NamesIff(ps[1..], u); }
  }

  /** A GROUP_INFO leaves exactly the rows of other groups and of the members it lists. */
  lemma MemberListArrives(w: World, id: int, p: Packet, k: R.RowKey)
    requires id in w.clients && p.kind == GROUP_INFO
    ensures var v := Next(w, Arrive(id, p));
            id in v.clients &&
            (k in v.clients[id].store.rows <==>
              k in w.clients[id].store.rows && (k.0 == p.body ==> exists m :: m in MemberRoles(p.key) && m.0 == k.2))
  {
    var l := R.Prune(p.body, Names(MemberRoles(p.key)));
    assert LocalEffect(w.clients[id].active, p) == Some(l);
    ArriveStep(w, id, p, l);
    PruneKeepsMembers(w.clients[id].store, p.body, Names(MemberRoles(p.key)), k);
    NamesIff(MemberRoles(p.key), k.2);
  }

  /** A GROUP_LEAVE other than a request to rotate removes the group's messages, and no others. */
  lemma LeaveArrives(w: World, id: int, p: Packet, m: R.MessageKey)
    requires id in w.clients && p.kind == GROUP_LEAVE && p.body != "rotate"
    ensures var v := Next(w, Arrive(id, p));
            && id in v.clients && v.clients[id].store.rows == w.clients[id].store.rows
            && (m in v.clients[id].store.status <==> m in w.clients[id].store.status && m.0 != p.body)
  {
    assert LocalEffect(w.clients[id].active, p) == Some(R.RemoveGroup(p.body));
    ArriveStep(w, id, p, R.RemoveGroup(p.body));
  }

  /** The ACK of a direct message writes delivered to the group on screen, if a group is on screen. */
  lemma DirectAckArrives(w: World, id: int, p: Packet)
    requires id in w.clients && p.kind == ACK && p.errorMsg == "" && p.body == "" && p.timestamp != ""
    ensures var v, active := Next(w, Arrive(id, p)), w.clients[id].active;
            && id in v.clients
            && v.clients[id].store
               == if IsNumeric(active)
                  then R.Step(w.clients[id].store, R.SetStatus(active, Timestamps.Canonical(p.timestamp), R.Delivered))
                  else w.clients[id].store
  {
    var active := w.clients[id].active;
    if IsNumeric(active) {
      ArriveStep(w, id, p, R.SetStatus(active, Timestamps.Canonical(p.timestamp), R.Delivered));
    } else {
      assert LocalEffect(active, p) == None;
    }
  }

  /** Opening a conversation puts it on screen and does nothing else. */
  lemma OpenStep(w: World, id: int, peer: string)
    requires id in w.clients
    ensures var v := Next(w, Open(id, peer));
            v == w.(clients := v.clients) && v.clients == w.clients[id := Client(w.clients[id].user, w.clients[id].store, peer)]
  {
  }

  /** A queued delivered receipt comes back as the ACK it was. */
  lemma ReplayedDelivery(k: QueueKey, q: Queued, g: int)
    requires q.group == Some(g) && g > 0 && !q.read
    ensures Replayed(k, q) == Packet(ACK, PROTOCOL_VERSION, k.0, ToString(g), k.2, "", "", "delivered")
  {
  }

  /** A queued direct receipt comes back to the user it was queued for. */
  lemma ReplayedDirect(k: QueueKey, q: Queued)
    requires q.group == None && q.read
    ensures Replayed(k, q) == Packet(READ_RECEIPT, PROTOCOL_VERSION, k.0, k.1, k.2, "", "", "")
  {
  }

  /** Deleting a group takes its queued receipts along, and no others. */
  lemma DeletionDropsReceipts(w: World, r: Request, p: Packet, k: QueueKey)
    requires r.command.DeleteGroupCommand? && Deletes(w.tables, r, r.command.g) && p.kind == DELETE_GROUP
    ensures var v := HandleStep(w, r, p, []);
            && (k in v.queue <==> k in w.queue && w.queue[k].group != Some(r.command.g))
            && (k in v.queue ==> v.queue[k] == w.queue[k]) && v.flight == w.flight
  {
  }
}
