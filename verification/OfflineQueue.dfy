/**
 * Store and forward of direct messages: the messages and offline_queue tables under sends,
 * login and registration flushes, ACKs, conversation deletes and the hourly cleanup. One handler
 * or one cleanup statement is one step.
 */
module OfflineQueue {
  import opened Text

  const MAX_ATTEMPTS := 5
  const WEEK := 604_800

  /** acknowledged stands for the status "delivered" that only an ACK writes. */
  datatype Message = Message(sender: string, recipient: string, body: string,
                             key: string, senderKey: string, created: int, acknowledged: bool)

  datatype Row = Row(message: nat, recipient: string, queued: int, delivered: bool, attempts: nat)

  /** Both tables by id; ids are handed out in order, so queue ids are also the queued_at order. */
  datatype State = State(messages: map<nat, Message>, nextMessage: nat,
                         queue: map<nat, Row>, nextRow: nat,
                         registered: set<string>, now: int)

  const START := State(map[], 0, map[], 0, {}, 0)

  /** The MESSAGE packet a flush hands to send for one queue row. */
  datatype Forward = Forward(row: nat, from: string, to: string, body: string, key: string,
                             timestamp: int)

  /**
   * What befalls one queue entry during a flush: nothing; the socket is dead; a database fault
   * at incrementAttempts, at findById, or at markDelivered after the packet went out.
   */
  datatype Fate = Works | SocketDead | NoIncrement | NoLookup | NoMark

  type Fates = map<nat, Fate>

  function FateOf(fates: Fates, id: nat): Fate { if id in fates then fates[id] else Works }

  /**
   * RegisterUnflushed is a registration whose handler threw before its flush. A Send has passed
   * validation; created is its timestamp, or now when that was empty.
   */
  datatype Event =
    | Send(from: string, to: string, body: string, key: string, created: int,
           online: bool, picked: nat)
    | Login(user: string, fates: Fates)
    | Register(user: string, fates: Fates)
    | RegisterUnflushed(user: string)
    | Ack(message: nat, prefer: nat)
    | DeleteConversation(a: string, b: string)
    | CleanupDelivered
    | CleanupExhausted
    | Tick(seconds: nat)

  // ---------------------------------------------------------------------------
  // Sending
  // ---------------------------------------------------------------------------

  /** The dual key field: the part before the first ';' is the recipient's. */
  function RecipientKey(key: string): string { key[..IndexOf(key, ';')] }

  function SenderKey(key: string): string
  {
    if Free(key, ';') then "" else key[IndexOf(key, ';') + 1..]
  }

  lemma DualKeySplits(mine: string, theirs: string)
    requires Free(theirs, ';')
    ensures RecipientKey(theirs + ";" + mine) == theirs && SenderKey(theirs + ";" + mine) == mine
    ensures RecipientKey(theirs) == theirs && SenderKey(theirs) == ""
  {
    IndexOfAfter(theirs, ';', mine);
    assert theirs + [';'] + mine == theirs + ";" + mine;
  }

  function Stored(e: Event): Message
    requires e.Send?
  {
    Message(e.from, e.to, e.body, RecipientKey(e.key), SenderKey(e.key), e.created, false)
  }

  function Saved(s: State, e: Event): map<nat, Message>
    requires e.Send?
  {
    s.messages[s.nextMessage := Stored(e)]
  }

  /** A last row of the recipient's messages ordered by created_at; ties are the database's choice. */
  ghost predicate LastByTime(ms: map<nat, Message>, to: string, id: nat)
  {
    && id in ms && ms[id].recipient == to
    && forall j :: j in ms && ms[j].recipient == to ==> ms[j].created <= ms[id].created
  }

  /** Every earlier message to the recipient carries a strictly earlier time. */
  ghost predicate Later(ms: map<nat, Message>, to: string, created: int)
  {
    forall j :: j in ms && ms[j].recipient == to ==> ms[j].created < created
  }

  // ---------------------------------------------------------------------------
  // Flushing
  // ---------------------------------------------------------------------------

  predicate Deliverable(r: Row) { !r.delivered && r.attempts < MAX_ATTEMPTS }

  predicate Waiting(q: map<nat, Row>, to: string, id: nat)
  {
    id in q && q[id].recipient == to && Deliverable(q[id])
  }

  /** The ids below n that findUndeliveredByRecipient returns, oldest first. */
  function Pending(q: map<nat, Row>, to: string, n: nat): seq<nat>
  {
    if n == 0 then [] else Pending(q, to, n - 1) + if Waiting(q, to, n - 1) then [n - 1] else []
  }

  /** The send of this entry raises NetworkException. */
  predicate Dies(s: State, fates: Fates, id: nat)
  {
    id in s.queue && s.queue[id].message in s.messages && FateOf(fates, id) == SocketDead
  }

  /** How far the login flush gets: up to and including the entry whose send raises. */
  function Reached(s: State, ids: seq<nat>, fates: Fates): (n: nat)
    ensures n <= |ids|
  {
    if ids == [] then 0
    else if Dies(s, fates, ids[0]) then 1
    else 1 + Reached(s, ids[1..], fates)
  }

  /** Any failure, network or database, ends the registration flush before the entry is marked. */
  predicate Fails(s: State, fates: Fates, id: nat)
  {
    id in s.queue &&
    match FateOf(fates, id)
    case Works | NoIncrement => false
    case NoLookup => true
    case SocketDead | NoMark => s.queue[id].message in s.messages
  }

  function ReachedAtRegister(s: State, ids: seq<nat>, fates: Fates): (n: nat)
    ensures n <= |ids|
  {
    if ids == [] then 0
    else if Fails(s, fates, ids[0]) then 1
    else 1 + ReachedAtRegister(s, ids[1..], fates)
  }

  /** The entry's packet reaches the socket. */
  predicate GoesOut(s: State, fates: Fates, id: nat)
  {
    id in s.queue && s.queue[id].message in s.messages && FateOf(fates, id) in {Works, NoMark}
  }

  predicate GoesOutAtRegister(s: State, fates: Fates, id: nat)
  {
    id in s.queue && s.queue[id].message in s.messages && FateOf(fates, id) in {Works, NoIncrement, NoMark}
  }

  /** One processed entry: the attempt counts before the send, the mark only after it. */
  function After(s: State, fates: Fates, id: nat): Row
    requires id in s.queue
  {
    var r := s.queue[id];
    var fate := FateOf(fates, id);
    r.(attempts := if fate == NoIncrement then r.attempts else r.attempts + 1,
       delivered := r.delivered || (fate == Works && r.message in s.messages))
  }

  function AfterRegister(s: State, fates: Fates, id: nat): Row
    requires id in s.queue
  {
    var r := s.queue[id];
    r.(delivered := r.delivered || (!Fails(s, fates, id) && r.message in s.messages))
  }

  function Packet(s: State, to: string, id: nat): Forward
    requires id in s.queue && s.queue[id].message in s.messages
  {
    var m := s.messages[s.queue[id].message];
    Forward(id, m.sender, to, m.body, m.key, m.created)
  }

  function LoginIds(s: State, e: Event): seq<nat>
    requires e.Login?
  {
    var ids := Pending(s.queue, e.user, s.nextRow);
    ids[..Reached(s, ids, e.fates)]
  }

  function RegisterIds(s: State, e: Event): seq<nat>
    requires e.Register?
  {
    var ids := Pending(s.queue, e.user, s.nextRow);
    ids[..ReachedAtRegister(s, ids, e.fates)]
  }

  function LoginPackets(s: State, to: string, fates: Fates, ids: seq<nat>): seq<Forward>
  {
    if ids == [] then []
    else (if GoesOut(s, fates, ids[0]) then [Packet(s, to, ids[0])] else [])
         + LoginPackets(s, to, fates, ids[1..])
  }

  function RegisterPackets(s: State, to: string, fates: Fates, ids: seq<nat>): seq<Forward>
  {
    if ids == [] then []
    else (if GoesOutAtRegister(s, fates, ids[0]) then [Packet(s, to, ids[0])] else [])
         + RegisterPackets(s, to, fates, ids[1..])
  }

  /** What the step hands to the flushed user's socket. */
  function Output(s: State, e: Event): seq<Forward>
  {
    match e
    case Login(user, fates) => LoginPackets(s, user, fates, LoginIds(s, e))
    case Register(user, fates) => RegisterPackets(s, user, fates, RegisterIds(s, e))
    case _ => []
  }

  // ---------------------------------------------------------------------------
  // The steps
  // ---------------------------------------------------------------------------

  /** An undelivered row of the message. */
  predicate Candidate(q: map<nat, Row>, m: nat, id: nat) { id in q && q[id].message == m && !q[id].delivered }

  /** The row an ACK marks: findAll has no order, so any candidate may come first. */
  function Acked(q: map<nat, Row>, m: nat, prefer: nat, n: nat): (id: nat)
    ensures Candidate(q, m, prefer) ==> id == prefer
  {
    if Candidate(q, m, prefer) then prefer
    else if n == 0 then 0
    else if Candidate(q, m, n - 1) then n - 1
    else Acked(q, m, prefer, n - 1)
  }

  predicate Between(m: Message, a: string, b: string)
  {
    (m.sender == a && m.recipient == b) || (m.sender == b && m.recipient == a)
  }

  ghost predicate Enabled(s: State, e: Event)
  {
    match e
    case Send(from, to, body, key, _, online, picked) =>
      from != "" && to != "" && body != "" && key != "" && (online || LastByTime(Saved(s, e), to, picked))
    case Login(user, _) => user in s.registered
    case Register(user, _) => user != "" && user !in s.registered
    case RegisterUnflushed(user) => user != "" && user !in s.registered
    case _ => true
  }

  function Next(s: State, e: Event): State
  {
    match e
    case Send(_, to, _, _, _, online, picked) =>
      var s1 := s.(messages := Saved(s, e), nextMessage := s.nextMessage + 1);
      if online then s1
      else s1.(queue := s.queue[s.nextRow := Row(picked, to, s.now, false, 0)], nextRow := s.nextRow + 1)
    case Login(_, fates) =>
      var ids := LoginIds(s, e);
      s.(queue := map id | id in s.queue :: if id in ids then After(s, fates, id) else s.queue[id])
    case Register(user, fates) =>
      var ids := RegisterIds(s, e);
      s.(queue := map id | id in s.queue :: if id in ids then AfterRegister(s, fates, id) else s.queue[id],
         registered := s.registered + {user})
    case RegisterUnflushed(user) => s.(registered := s.registered + {user})
    case Ack(m, prefer) =>
      var id := Acked(s.queue, m, prefer, s.nextRow);
      s.(messages := if m in s.messages then s.messages[m := s.messages[m].(acknowledged := true)] else s.messages,
         queue := if Candidate(s.queue, m, id) then s.queue[id := s.queue[id].(delivered := true)] else s.queue)
    case DeleteConversation(a, b) =>
      s.(queue := map id | id in s.queue
                    && !(s.queue[id].message in s.messages && Between(s.messages[s.queue[id].message], a, b))
                    :: s.queue[id],
         messages := map m | m in s.messages && !Between(s.messages[m], a, b) :: s.messages[m])
    case CleanupDelivered =>
      s.(queue := map id | id in s.queue
                    && !(s.queue[id].delivered && s.queue[id].queued < s.now - WEEK) :: s.queue[id])
    case CleanupExhausted =>
      s.(queue := map id | id in s.queue
                    && !(!s.queue[id].delivered && s.queue[id].attempts >= MAX_ATTEMPTS) :: s.queue[id])
    case Tick(d) => s.(now := s.now + d)
  }

  ghost predicate Follows(ss: seq<State>, es: seq<Event>, i: int)
    requires 0 <= i < |es| < |ss|
  {
    Enabled(ss[i], es[i]) && ss[i + 1] == Next(ss[i], es[i])
  }

  ghost predicate History(ss: seq<State>, es: seq<Event>)
  {
    && |ss| == |es| + 1 && ss[0] == START
    && forall i {:trigger Follows(ss, es, i)} :: 0 <= i < |es| ==> Follows(ss, es, i)
  }

  // ---------------------------------------------------------------------------
  // What is pending, and who is reached
  // ---------------------------------------------------------------------------

  lemma {:induction false} PendingIff(q: map<nat, Row>, to: string, n: nat, id: nat)
    ensures id in Pending(q, to, n) <==> id < n && Waiting(q, to, id)
  {
    if n > 0 { PendingIff(q, to, n - 1, id); }
  }

  /** Oldest first, nothing twice. */
  lemma {:induction false} PendingAscends(q: map<nat, Row>, to: string, n: nat, i: nat, j: nat)
    requires i < j < |Pending(q, to, n)|
    ensures Pending(q, to, n)[i] < Pending(q, to, n)[j]
  {
    if j < |Pending(q, to, n - 1)| {
      PendingAscends(q, to, n - 1, i, j);
    } else {
      PendingIff(q, to, n - 1, Pending(q, to, n - 1)[i]);
    }
  }

  lemma {:induction false} ReachedIff(s: State, ids: seq<nat>, fates: Fates, k: nat)
    requires k < |ids|
    ensures k < Reached(s, ids, fates) <==> forall d :: 0 <= d < k ==> !Dies(s, fates, ids[d])
  {
    if k > 0 {
      ReachedIff(s, ids[1..], fates, k - 1);
      if forall d :: 0 <= d < k ==> !Dies(s, fates, ids[d]) {
        assert forall d :: 0 <= d < k - 1 ==> !Dies(s, fates, ids[1..][d]) by {
          forall d | 0 <= d < k - 1 ensures !Dies(s, fates, ids[1..][d]) { assert ids[1..][d] == ids[d + 1]; }
        }
        assert !Dies(s, fates, ids[0]);
      } else {
        var d :| 0 <= d < k && Dies(s, fates, ids[d]);
        if d > 0 { assert ids[1..][d - 1] == ids[d]; }
      }
    }
  }

  /**
   * Dead socket: at the first entry whose send raises, that entry has spent its attempt, every
   * later entry's row is untouched, and nothing later goes out.
   */
  lemma DeadSocketSparesTheRest(s: State, e: Event, d: nat, k: nat)
    requires e.Login?
    requires var ids := Pending(s.queue, e.user, s.nextRow);
             d < k < |ids| && Dies(s, e.fates, ids[d])
    ensures var id := Pending(s.queue, e.user, s.nextRow)[k];
            id in s.queue && id in Next(s, e).queue && Next(s, e).queue[id] == s.queue[id]
            && forall p :: p in Output(s, e) ==> p.row != id
  {
    var ids := Pending(s.queue, e.user, s.nextRow);
    var id := ids[k];
    PendingIff(s.queue, e.user, s.nextRow, id);
    ReachedIff(s, ids, e.fates, k);
    assert id !in LoginIds(s, e) by {
      if id in LoginIds(s, e) {
        var i :| 0 <= i < |LoginIds(s, e)| && ids[i] == id;
        PendingAscends(s.queue, e.user, s.nextRow, i, k);
      }
    }
    forall p | p in Output(s, e) ensures p.row != id {
      LoginPacketsOf(s, e.user, e.fates, LoginIds(s, e), p);
    }
  }

  lemma {:induction false} LoginPacketsOf(s: State, to: string, fates: Fates, ids: seq<nat>, p: Forward)
    ensures p in LoginPackets(s, to, fates, ids) <==>
            p.row in ids && GoesOut(s, fates, p.row) && p == Packet(s, to, p.row)
  {
    if ids != [] { LoginPacketsOf(s, to, fates, ids[1..], p); }
  }

  lemma {:induction false} RegisterPacketsOf(s: State, to: string, fates: Fates, ids: seq<nat>, p: Forward)
    ensures p in RegisterPackets(s, to, fates, ids) <==>
            p.row in ids && GoesOutAtRegister(s, fates, p.row) && p == Packet(s, to, p.row)
  {
    if ids != [] { RegisterPacketsOf(s, to, fates, ids[1..], p); }
  }
}
