/** The flush loops and the other statements on the queue, as the handlers run them. */
module OfflineFlush {
  import opened Text
  import opened OfflineQueue

  /** The queue after the flush has dealt with these entries. */
  function Processed(s: State, fates: Fates, ids: seq<nat>): map<nat, Row>
  {
    map id | id in s.queue :: if id in ids then After(s, fates, id) else s.queue[id]
  }

  function ProcessedAtRegister(s: State, fates: Fates, ids: seq<nat>): map<nat, Row>
  {
    map id | id in s.queue :: if id in ids then AfterRegister(s, fates, id) else s.queue[id]
  }

  lemma {:induction false} LoginPacketsSnoc(s: State, to: string, fates: Fates, ids: seq<nat>, id: nat)
    ensures LoginPackets(s, to, fates, ids + [id])
            == LoginPackets(s, to, fates, ids) + if GoesOut(s, fates, id) then [Packet(s, to, id)] else []
  {
    if ids == [] {
      assert ids + [id] == [id];
    } else {
      assert (ids + [id])[1..] == ids[1..] + [id];
      LoginPacketsSnoc(s, to, fates, ids[1..], id);
    }
  }

  lemma {:induction false} RegisterPacketsSnoc(s: State, to: string, fates: Fates, ids: seq<nat>, id: nat)
    ensures RegisterPackets(s, to, fates, ids + [id])
            == RegisterPackets(s, to, fates, ids)
               + if GoesOutAtRegister(s, fates, id) then [Packet(s, to, id)] else []
  {
    if ids == [] {
      assert ids + [id] == [id];
    } else {
      assert (ids + [id])[1..] == ids[1..] + [id];
      RegisterPacketsSnoc(s, to, fates, ids[1..], id);
    }
  }

  /** The next pending entry has not been dealt with yet. */
  lemma NotYet(q: map<nat, Row>, to: string, n: nat, i: nat)
    requires i < |Pending(q, to, n)|
    ensures Pending(q, to, n)[i] !in Pending(q, to, n)[..i]
    ensures Waiting(q, to, Pending(q, to, n)[i])
  {
    PendingIff(q, to, n, Pending(q, to, n)[i]);
    if j :| 0 <= j < i && Pending(q, to, n)[j] == Pending(q, to, n)[i] {
      PendingAscends(q, to, n, j, i);
    }
  }

  lemma {:induction false} ReachedAll(s: State, ids: seq<nat>, fates: Fates, i: nat)
    requires i <= |ids| && forall d :: 0 <= d < i ==> !Dies(s, fates, ids[d])
    ensures i == |ids| ==> Reached(s, ids, fates) == i
    ensures i < |ids| && Dies(s, fates, ids[i]) ==> Reached(s, ids, fates) == i + 1
  {
    if i > 0 {
      assert forall d :: 0 <= d < i - 1 ==> ids[1..][d] == ids[d + 1];
      assert !Dies(s, fates, ids[0]);
      ReachedAll(s, ids[1..], fates, i - 1);
    }
  }

  lemma {:induction false} ReachedAllAtRegister(s: State, ids: seq<nat>, fates: Fates, i: nat)
    requires i <= |ids| && forall d :: 0 <= d < i ==> !Fails(s, fates, ids[d])
    ensures i == |ids| ==> ReachedAtRegister(s, ids, fates) == i
    ensures i < |ids| && Fails(s, fates, ids[i]) ==> ReachedAtRegister(s, ids, fates) == i + 1
  {
    if i > 0 {
      assert forall d :: 0 <= d < i - 1 ==> ids[1..][d] == ids[d + 1];
      assert !Fails(s, fates, ids[0]);
      ReachedAllAtRegister(s, ids[1..], fates, i - 1);
    }
  }

  lemma ProcessedSnoc(s: State, fates: Fates, ids: seq<nat>, id: nat)
    requires id in s.queue && id !in ids
    ensures Processed(s, fates, ids + [id]) == Processed(s, fates, ids)[id := After(s, fates, id)]
    ensures ProcessedAtRegister(s, fates, ids + [id])
            == ProcessedAtRegister(s, fates, ids)[id := AfterRegister(s, fates, id)]
  {
  }

  /** Dealing with entry i of the pending list takes the flush from ids[..i] to ids[..i + 1]. */
  lemma FlushStep(s0: State, s: State, user: string, fates: Fates, i: nat)
    requires var ids := Pending(s0.queue, user, s0.nextRow);
             i < |ids| && s == s0.(queue := Processed(s0, fates, ids[..i]))
    ensures var ids := Pending(s0.queue, user, s0.nextRow);
            var id := ids[i];
            var one := map[id := FateOf(fates, id)];
            && id in s.queue && !s.queue[id].delivered
            && s.(queue := s.queue[id := After(s, one, id)]) == s0.(queue := Processed(s0, fates, ids[..i + 1]))
            && LoginPackets(s0, user, fates, ids[..i + 1])
               == LoginPackets(s0, user, fates, ids[..i]) + (if GoesOut(s, one, id) then [Packet(s, user, id)] else [])
            && Dies(s, one, id) == Dies(s0, fates, id)
  {
    var ids := Pending(s0.queue, user, s0.nextRow);
    NotYet(s0.queue, user, s0.nextRow, i);
    ProcessedSnoc(s0, fates, ids[..i], ids[i]);
    LoginPacketsSnoc(s0, user, fates, ids[..i], ids[i]);
    assert ids[..i + 1] == ids[..i] + [ids[i]];
  }

  lemma RegisterStep(s0: State, s: State, user: string, fates: Fates, i: nat)
    requires var ids := Pending(s0.queue, user, s0.nextRow);
             i < |ids| && s == s0.(queue := ProcessedAtRegister(s0, fates, ids[..i]))
    ensures var ids := Pending(s0.queue, user, s0.nextRow);
            var id := ids[i];
            var one := map[id := FateOf(fates, id)];
            && id in s.queue && !s.queue[id].delivered
            && s.(queue := s.queue[id := AfterRegister(s, one, id)])
               == s0.(queue := ProcessedAtRegister(s0, fates, ids[..i + 1]))
            && RegisterPackets(s0, user, fates, ids[..i + 1])
               == RegisterPackets(s0, user, fates, ids[..i])
                  + (if GoesOutAtRegister(s, one, id) then [Packet(s, user, id)] else [])
            && Fails(s, one, id) == Fails(s0, fates, id)
  {
    var ids := Pending(s0.queue, user, s0.nextRow);
    NotYet(s0.queue, user, s0.nextRow, i);
    ProcessedSnoc(s0, fates, ids[..i], ids[i]);
    RegisterPacketsSnoc(s0, user, fates, ids[..i], ids[i]);
    assert ids[..i + 1] == ids[..i] + [ids[i]];
  }

  lemma ProcessedNone(s: State, fates: Fates)
    ensures s.(queue := Processed(s, fates, [])) == s
    ensures s.(queue := ProcessedAtRegister(s, fates, [])) == s
  {
    assert Processed(s, fates, []) == s.queue && ProcessedAtRegister(s, fates, []) == s.queue;
  }

  /** A loop that stops after i entries, at the end or at a dead socket, is the login flush. */
  lemma FlushEnds(s: State, user: string, fates: Fates, i: nat, dead: bool)
    requires var ids := Pending(s.queue, user, s.nextRow);
             && i <= |ids| && (dead || i == |ids|) && (dead ==> i > 0)
             && (dead ==> Dies(s, fates, ids[i - 1]))
             && forall d :: 0 <= d < (if dead then i - 1 else i) ==> !Dies(s, fates, ids[d])
    ensures var ids := Pending(s.queue, user, s.nextRow);
            && s.(queue := Processed(s, fates, ids[..i])) == Next(s, Login(user, fates))
            && LoginPackets(s, user, fates, ids[..i]) == Output(s, Login(user, fates))
  {
    var ids := Pending(s.queue, user, s.nextRow);
    ReachedAll(s, ids, fates, if dead then i - 1 else i);
    assert LoginIds(s, Login(user, fates)) == ids[..i];
  }

  lemma RegisterEnds(s: State, user: string, fates: Fates, i: nat, thrown: bool)
    requires var ids := Pending(s.queue, user, s.nextRow);
             && i <= |ids| && (thrown || i == |ids|) && (thrown ==> i > 0)
             && (thrown ==> Fails(s, fates, ids[i - 1]))
             && forall d :: 0 <= d < (if thrown then i - 1 else i) ==> !Fails(s, fates, ids[d])
    ensures var ids := Pending(s.queue, user, s.nextRow);
            && s.(queue := ProcessedAtRegister(s, fates, ids[..i]), registered := s.registered + {user})
               == Next(s, Register(user, fates))
            && RegisterPackets(s, user, fates, ids[..i]) == Output(s, Register(user, fates))
  {
    var ids := Pending(s.queue, user, s.nextRow);
    ReachedAllAtRegister(s, ids, fates, if thrown then i - 1 else i);
    assert RegisterIds(s, Register(user, fates)) == ids[..i];
  }

  class Database {
    var s: State

    constructor ()
      ensures s == START
    {
      s := START;
    }

    /**
     * MESSAGE: save, then forward or enqueue. The order is what findByRecipient returns after
     * the save: the recipient's rows by created_at, ties in any order; its last id is queued.
     */
    method SendMessage(from: string, to: string, body: string, key: string, created: int,
                       online: bool, order: seq<nat>)
      requires from != "" && to != "" && body != "" && key != ""
      requires var ms := Saved(s, Send(from, to, body, key, created, online, 0));
               && (forall id :: id in order <==> id in ms && ms[id].recipient == to)
               && forall i, j :: 0 <= i < j < |order| ==> ms[order[i]].created <= ms[order[j]].created
      modifies this
      ensures exists picked :: Enabled(old(s), Send(from, to, body, key, created, online, picked))
                               && s == Next(old(s), Send(from, to, body, key, created, online, picked))
    {
      var recipientKey, senderKey := key, "";
      var sep := IndexOf(key, ';');
      if sep < |key| {
        recipientKey, senderKey := key[..sep], key[sep + 1..];
      }
      assert recipientKey == RecipientKey(key) && senderKey == SenderKey(key);
      ghost var s0 := s;
      s := s.(messages := s.messages[s.nextMessage := Message(from, to, body, recipientKey, senderKey, created, false)],
              nextMessage := s.nextMessage + 1);
      assert s0.nextMessage in order;
      var last := order[|order| - 1];
      if !online {
        s := s.(queue := s.queue[s.nextRow := Row(last, to, s.now, false, 0)], nextRow := s.nextRow + 1);
      }
      assert LastByTime(Saved(s0, Send(from, to, body, key, created, online, last)), to, last);
      assert Enabled(s0, Send(from, to, body, key, created, online, last));
    }

    /** findUndeliveredByRecipient: one row at a time, oldest first. */
    method FindUndelivered(user: string) returns (ids: seq<nat>)
      ensures ids == Pending(s.queue, user, s.nextRow)
    {
      ids := [];
      for id := 0 to s.nextRow
        invariant ids == Pending(s.queue, user, id)
      {
        if Waiting(s.queue, user, id) {
          ids := ids + [id];
        }
      }
    }

    method IncrementAttempts(id: nat)
      modifies this
      ensures s == if id in old(s).queue
                   then old(s).(queue := old(s).queue[id := old(s).queue[id].(attempts := old(s).queue[id].attempts + 1)])
                   else old(s)
    {
      if id in s.queue {
        s := s.(queue := s.queue[id := s.queue[id].(attempts := s.queue[id].attempts + 1)]);
      }
    }

    method MarkDelivered(id: nat)
      modifies this
      ensures s == if id in old(s).queue
                   then old(s).(queue := old(s).queue[id := old(s).queue[id].(delivered := true)])
                   else old(s)
    {
      if id in s.queue {
        s := s.(queue := s.queue[id := s.queue[id].(delivered := true)]);
      }
    }

    /** One pass of the login loop's try block; dead is the NetworkException that breaks the loop. */
    method Attempt(id: nat, user: string, fate: Fate) returns (out: seq<Forward>, dead: bool)
      requires id in s.queue && !s.queue[id].delivered
      modifies this
      ensures s == old(s).(queue := old(s).queue[id := After(old(s), map[id := fate], id)])
      ensures out == if GoesOut(old(s), map[id := fate], id) then [Packet(old(s), user, id)] else []
      ensures dead == Dies(old(s), map[id := fate], id)
    {
      out, dead := [], false;
      if fate == NoIncrement { return; }
      IncrementAttempts(id);
      var m := s.queue[id].message;
      if fate == NoLookup || m !in s.messages { return; }
      if fate == SocketDead { dead := true; return; }
      var msg := s.messages[m];
      out := [Forward(id, msg.sender, user, msg.body, msg.key, msg.created)];
      if fate == NoMark { return; }
      MarkDelivered(id);
    }

    /** The login flush. */
    method Flush(user: string, fates: Fates) returns (sent: seq<Forward>)
      modifies this
      ensures s == Next(old(s), Login(user, fates))
      ensures sent == Output(old(s), Login(user, fates))
    {
      ghost var s0 := s;
      var ids := FindUndelivered(user);
      var i, dead := 0, false;
      sent := [];
      ProcessedNone(s, fates);
      while i < |ids| && !dead
        invariant 0 <= i <= |ids| && (dead ==> i > 0 && Dies(s0, fates, ids[i - 1]))
        invariant s == s0.(queue := Processed(s0, fates, ids[..i]))
        invariant sent == LoginPackets(s0, user, fates, ids[..i])
        invariant forall d :: 0 <= d < (if dead then i - 1 else i) ==> !Dies(s0, fates, ids[d])
        decreases |ids| - i
      {
        FlushStep(s0, s, user, fates, i);
        var out;
        out, dead := Attempt(ids[i], user, FateOf(fates, ids[i]));
        sent := sent + out;
        i := i + 1;
      }
      FlushEnds(s0, user, fates, i, dead);
    }

    /** One pass of the registration loop: no attempt is counted, and any failure is thrown. */
    method AttemptAtRegister(id: nat, user: string, fate: Fate) returns (out: seq<Forward>, thrown: bool)
      requires id in s.queue && !s.queue[id].delivered
      modifies this
      ensures s == old(s).(queue := old(s).queue[id := AfterRegister(old(s), map[id := fate], id)])
      ensures out == if GoesOutAtRegister(old(s), map[id := fate], id) then [Packet(old(s), user, id)] else []
      ensures thrown == Fails(old(s), map[id := fate], id)
    {
      assert s.queue[id := s.queue[id]] == s.queue;
      out, thrown := [], fate == NoLookup;
      var m := s.queue[id].message;
      if thrown || m !in s.messages { return; }
      if fate == SocketDead { thrown := true; return; }
      var msg := s.messages[m];
      out := [Forward(id, msg.sender, user, msg.body, msg.key, msg.created)];
      if fate == NoMark { thrown := true; return; }
      MarkDelivered(id);
    }

    /** The registration flush; the user row is there whether or not the flush throws. */
    method FlushAtRegister(user: string, fates: Fates) returns (sent: seq<Forward>)
      modifies this
      ensures s == Next(old(s), Register(user, fates))
      ensures sent == Output(old(s), Register(user, fates))
    {
      ghost var s0 := s;
      var ids := FindUndelivered(user);
      var i, thrown := 0, false;
      sent := [];
      ProcessedNone(s, fates);
      while i < |ids| && !thrown
        invariant 0 <= i <= |ids| && (thrown ==> i > 0 && Fails(s0, fates, ids[i - 1]))
        invariant s == s0.(queue := ProcessedAtRegister(s0, fates, ids[..i]))
        invariant sent == RegisterPackets(s0, user, fates, ids[..i])
        invariant forall d :: 0 <= d < (if thrown then i - 1 else i) ==> !Fails(s0, fates, ids[d])
        decreases |ids| - i
      {
        RegisterStep(s0, s, user, fates, i);
        var out;
        out, thrown := AttemptAtRegister(ids[i], user, FateOf(fates, ids[i]));
        sent := sent + out;
        i := i + 1;
      }
      RegisterEnds(s0, user, fates, i, thrown);
      s := s.(registered := s.registered + {user});
    }

    /** The legacy ACK: the message's status, then its first undelivered entry in the database's order. */
    method Acknowledge(m: nat, entries: seq<nat>)
      requires forall id :: id in entries <==> id in s.queue
      modifies this
      ensures exists prefer :: s == Next(old(s), Ack(m, prefer))
    {
      if m in s.messages {
        s := s.(messages := s.messages[m := s.messages[m].(acknowledged := true)]);
      }
      ghost var acked := s;
      var i := 0;
      while i < |entries| && !Candidate(s.queue, m, entries[i])
        invariant 0 <= i <= |entries| && s == acked
        invariant forall k :: 0 <= k < i ==> !Candidate(s.queue, m, entries[k])
      {
        i := i + 1;
      }
      if i < |entries| {
        MarkDelivered(entries[i]);
        assert s == Next(old(s), Ack(m, entries[i]));
      } else {
        assert forall id :: !Candidate(s.queue, m, id);
        assert s == Next(old(s), Ack(m, 0));
      }
    }
  }
}
