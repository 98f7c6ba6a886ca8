/** What the messages and offline_queue tables hold after any run, told from the events. */
module OfflineTables {
  import opened Text
  import opened OfflineQueue
  import opened OfflineDelivery
  import opened Runs

  // ---------------------------------------------------------------------------
  // Messages
  // ---------------------------------------------------------------------------

  /** The text up to the first ';' and the text after it; without a ';' all of it is the recipient's. */
  predicate SplitsInto(field: string, key: string, senderKey: string)
  {
    && Free(key, ';')
    && if Free(field, ';') then key == field && senderKey == "" else field == key + ";" + senderKey
  }

  lemma SplitIsUnique(field: string, key: string, senderKey: string)
    ensures SplitsInto(field, key, senderKey) <==> key == RecipientKey(field) && senderKey == SenderKey(field)
  {
    if Free(field, ';') {
      assert RecipientKey(field) == field;
    } else {
      var i := IndexOf(field, ';');
      assert field == field[..i] + ";" + field[i + 1..];
      if SplitsInto(field, key, senderKey) { DualKeySplits(senderKey, key); }
    }
  }

  /** The row a MESSAGE packet leaves, whatever has been acknowledged since. */
  predicate Wrote(s: State, e: Event, m: nat, row: Message)
  {
    && e.Send? && s.nextMessage == m && row.sender == e.from && row.recipient == e.to && row.body == e.body
    && SplitsInto(e.key, row.key, row.senderKey) && row.created == e.created
  }

  predicate IsMessage(s: State, m: nat, row: Message)
  {
    m in s.messages && s.messages[m].(acknowledged := row.acknowledged) == row
  }

  /** A DELETE_CONVERSATION between the message's two parties, by either. */
  predicate Erased(e: Event, row: Message)
  {
    e == DeleteConversation(row.sender, row.recipient) || e == DeleteConversation(row.recipient, row.sender)
  }

  lemma MessageStep(ss: seq<State>, es: seq<Event>, i: nat, m: nat, row: Message)
    requires History(ss, es) && i < |es|
    ensures IsMessage(ss[i + 1], m, row) <==>
            Wrote(ss[i], es[i], m, row) || (IsMessage(ss[i], m, row) && !Erased(es[i], row))
  {
    HistoryTablesOk(ss, es, i);
    assert Follows(ss, es, i);
    if es[i].Send? { SplitIsUnique(es[i].key, row.key, row.senderKey); }
  }

  ghost predicate WrittenSince(ss: seq<State>, es: seq<Event>, i: int, n: int, m: nat, row: Message)
    requires n <= |es| < |ss|
  {
    0 <= i < n && Wrote(ss[i], es[i], m, row) && forall j :: i < j < n ==> !Erased(es[j], row)
  }

  /** A message is kept, as it was sent, from its sending to the deletion of the conversation. */
  lemma MessageTrace(ss: seq<State>, es: seq<Event>, n: nat, m: nat, row: Message)
    requires History(ss, es) && n <= |es|
    ensures IsMessage(ss[n], m, row) <==> exists i :: WrittenSince(ss, es, i, n, m, row)
  {
    var on := seq(n + 1, i requires 0 <= i <= n => IsMessage(ss[i], m, row));
    var set_ := seq(n, i requires 0 <= i < n => Wrote(ss[i], es[i], m, row));
    var clear := seq(n, i requires 0 <= i < n => Erased(es[i], row));
    forall i | 0 <= i < n ensures on[i + 1] == (set_[i] || (on[i] && !clear[i])) {
      MessageStep(ss, es, i, m, row);
    }
    Latch(on, set_, clear);
    forall i | 0 <= i < n
      ensures WrittenSince(ss, es, i, n, m, row) <==> set_[i] && forall j :: i < j < n ==> !clear[j]
    {
      assert forall j :: i < j < n ==> clear[j] == Erased(es[j], row);
    }
  }

  /** Only an ACK for the message marks it acknowledged, and every one does. */
  lemma AcknowledgedStep(s: State, e: Event, m: nat)
    requires m in s.messages && m < s.nextMessage && m in Next(s, e).messages
    ensures Next(s, e).messages[m].acknowledged <==> s.messages[m].acknowledged || (e.Ack? && e.message == m)
  {
  }

  // ---------------------------------------------------------------------------
  // Queue rows
  // ---------------------------------------------------------------------------

  /** A row leaves with its conversation, a week after it was queued once delivered, or when exhausted. */
  predicate Swept(s: State, e: Event, id: nat)
    requires id in s.queue && s.queue[id].message in s.messages
  {
    var r := s.queue[id];
    match e
    case DeleteConversation(_, _) => Erased(e, s.messages[r.message])
    case CleanupDelivered => r.delivered && r.queued + 7 * 86_400 < s.now
    case CleanupExhausted => !r.delivered && r.attempts >= 5
    case _ => false
  }

  /** Rows come from sends to offline recipients, and go exactly so. */
  lemma QueueStep(ss: seq<State>, es: seq<Event>, i: nat, id: nat)
    requires History(ss, es) && i < |es|
    ensures id in ss[i + 1].queue <==>
            || (es[i].Send? && !es[i].online && ss[i].nextRow == id)
            || (id in ss[i].queue && ss[i].queue[id].message in ss[i].messages && !Swept(ss[i], es[i], id))
  {
    HistoryTablesOk(ss, es, i);
    assert Follows(ss, es, i);
    if id in ss[i].queue { assert RowOk(ss[i], id); }
  }

  /** A new row: for the recipient, stamped now, undelivered, no attempt spent. */
  lemma NewRow(s: State, e: Event)
    requires e.Send? && !e.online
    ensures s.nextRow in Next(s, e).queue
    ensures Next(s, e).queue[s.nextRow] == Row(e.picked, e.to, s.now, false, 0)
  {
  }

  // ---------------------------------------------------------------------------
  // What a flush does to each row
  // ---------------------------------------------------------------------------

  /** No entry of the user older than this one stops the flush first. */
  ghost predicate Open(s: State, user: string, fates: Fates, id: nat, atLogin: bool)
  {
    forall d: nat :: d < id && Waiting(s.queue, user, d) ==>
      FateOf(fates, d) !in (if atLogin then {SocketDead} else {SocketDead, NoLookup, NoMark})
  }

  /** Login: an attempt counts unless its increment failed; the mark needs everything to work. */
  lemma LoginRow(ss: seq<State>, es: seq<Event>, n: nat, id: nat)
    requires History(ss, es) && n < |es| && es[n].Login? && id in ss[n].queue
    ensures id in ss[n + 1].queue
    ensures var a, b, fate := ss[n].queue[id], ss[n + 1].queue[id], FateOf(es[n].fates, id);
            if Waiting(ss[n].queue, es[n].user, id) && Open(ss[n], es[n].user, es[n].fates, id, true)
            then b == a.(attempts := a.attempts + (if fate == NoIncrement then 0 else 1), delivered := fate == Works)
            else b == a
  {
    var s, e := ss[n], es[n];
    HistoryTablesOk(ss, es, n);
    assert Follows(ss, es, n);
    assert RowOk(s, id);
    VisitedAtLogin(s, e, id);
  }

  lemma VisitedAtLogin(s: State, e: Event, id: nat)
    requires RowsOk(s) && e.Login? && id in s.queue && id < s.nextRow
    ensures id in LoginIds(s, e) <==> Waiting(s.queue, e.user, id) && Open(s, e.user, e.fates, id, true)
  {
    var ids := Pending(s.queue, e.user, s.nextRow);
    PendingIff(s.queue, e.user, s.nextRow, id);
    forall d: nat | Waiting(s.queue, e.user, d) ensures Dies(s, e.fates, d) <==> FateOf(e.fates, d) == SocketDead {
      assert RowOk(s, d);
    }
    if id in ids {
      var k :| 0 <= k < |ids| && ids[k] == id;
      VisitedIff(s, e, k);
    }
  }

  lemma {:induction false} ReachedAtRegisterIff(s: State, ids: seq<nat>, fates: Fates, k: nat)
    requires k < |ids|
    ensures k < ReachedAtRegister(s, ids, fates) <==> forall d :: 0 <= d < k ==> !Fails(s, fates, ids[d])
  {
    if k > 0 {
      ReachedAtRegisterIff(s, ids[1..], fates, k - 1);
      if forall d :: 0 <= d < k ==> !Fails(s, fates, ids[d]) {
        forall d | 0 <= d < k - 1 ensures !Fails(s, fates, ids[1..][d]) { assert ids[1..][d] == ids[d + 1]; }
        assert !Fails(s, fates, ids[0]);
      } else {
        var d :| 0 <= d < k && Fails(s, fates, ids[d]);
        if d > 0 { assert ids[1..][d - 1] == ids[d]; }
      }
    }
  }

  /** An entry's position in the pending list, and who comes before it. */
  lemma Before(q: map<nat, Row>, user: string, n: nat, k: nat, d: nat)
    requires k < |Pending(q, user, n)| && d < Pending(q, user, n)[k] && Waiting(q, user, d)
    ensures exists i :: 0 <= i < k && Pending(q, user, n)[i] == d
  {
    var ids := Pending(q, user, n);
    PendingIff(q, user, n, ids[k]);
    PendingIff(q, user, n, d);
    var i :| 0 <= i < |ids| && ids[i] == d;
    if k < i { PendingAscends(q, user, n, k, i); }
  }

  lemma VisitedAtRegister(s: State, e: Event, id: nat)
    requires RowsOk(s) && e.Register? && id in s.queue && id < s.nextRow
    ensures id in RegisterIds(s, e) <==> Waiting(s.queue, e.user, id) && Open(s, e.user, e.fates, id, false)
  {
    var ids := Pending(s.queue, e.user, s.nextRow);
    PendingIff(s.queue, e.user, s.nextRow, id);
    forall d: nat | Waiting(s.queue, e.user, d)
      ensures Fails(s, e.fates, d) <==> FateOf(e.fates, d) in {SocketDead, NoLookup, NoMark}
    {
      assert RowOk(s, d);
    }
    if id in ids {
      var k :| 0 <= k < |ids| && ids[k] == id;
      ReachedAtRegisterIff(s, ids, e.fates, k);
      PositionIff(s, e, k);
      if Open(s, e.user, e.fates, id, false) {
        forall d | 0 <= d < k ensures !Fails(s, e.fates, ids[d]) {
          PendingAscends(s.queue, e.user, s.nextRow, d, k);
          PendingIff(s.queue, e.user, s.nextRow, ids[d]);
        }
      } else {
        var d: nat :| d < id && Waiting(s.queue, e.user, d) && FateOf(e.fates, d) in {SocketDead, NoLookup, NoMark};
        Before(s.queue, e.user, s.nextRow, k, d);
      }
    }
  }

  lemma PositionIff(s: State, e: Event, k: nat)
    requires e.Register? && k < |Pending(s.queue, e.user, s.nextRow)|
    ensures var ids := Pending(s.queue, e.user, s.nextRow);
            ids[k] in RegisterIds(s, e) <==> k < ReachedAtRegister(s, ids, e.fates)
  {
    var ids := Pending(s.queue, e.user, s.nextRow);
    assert k < ReachedAtRegister(s, ids, e.fates) ==> RegisterIds(s, e)[k] == ids[k];
    if ids[k] in RegisterIds(s, e) {
      var i :| 0 <= i < |RegisterIds(s, e)| && ids[i] == ids[k];
      if i < k { PendingAscends(s.queue, e.user, s.nextRow, i, k); }
      if k < i { PendingAscends(s.queue, e.user, s.nextRow, k, i); }
    }
  }

  /** Registration: no attempt counts, and the first failure of any kind ends the flush. */
  lemma RegisterRow(ss: seq<State>, es: seq<Event>, n: nat, id: nat)
    requires History(ss, es) && n < |es| && es[n].Register? && id in ss[n].queue
    ensures id in ss[n + 1].queue
    ensures var a, b, fate := ss[n].queue[id], ss[n + 1].queue[id], FateOf(es[n].fates, id);
            if Waiting(ss[n].queue, es[n].user, id) && Open(ss[n], es[n].user, es[n].fates, id, false)
            then b == a.(delivered := fate in {Works, NoIncrement}) else b == a
  {
    var s, e := ss[n], es[n];
    HistoryTablesOk(ss, es, n);
    assert Follows(ss, es, n);
    assert RowOk(s, id);
    VisitedAtRegister(s, e, id);
  }

  /** And the packet of an entry reaches the socket exactly when the flush gets there and the send works. */
  lemma RegisterSendsIff(ss: seq<State>, es: seq<Event>, n: nat, id: nat)
    requires History(ss, es) && n < |es| && es[n].Register? && id in ss[n].queue
    ensures ss[n].queue[id].message in ss[n].messages
    ensures var m := ss[n].messages[ss[n].queue[id].message];
            Forward(id, m.sender, es[n].user, m.body, m.key, m.created) in Output(ss[n], es[n]) <==>
            && Waiting(ss[n].queue, es[n].user, id) && Open(ss[n], es[n].user, es[n].fates, id, false)
            && FateOf(es[n].fates, id) in {Works, NoIncrement, NoMark}
  {
    var s, e := ss[n], es[n];
    HistoryTablesOk(ss, es, n);
    assert RowOk(s, id);
    VisitedAtRegister(s, e, id);
    OutputIff(s, e, Packet(s, e.user, id));
  }

  // ---------------------------------------------------------------------------
  // Names
  // ---------------------------------------------------------------------------

  /** A registration, whether or not its flush ran. */
  predicate Registers(e: Event, u: string) { (e.Register? || e.RegisterUnflushed?) && e.user == u }

  /** A name is registered exactly when it has been. */
  lemma {:induction false} NameTrace(ss: seq<State>, es: seq<Event>, n: nat, u: string)
    requires History(ss, es) && n <= |es|
    ensures u in ss[n].registered <==> exists i :: 0 <= i < n && Registers(es[i], u)
  {
    if n > 0 {
      NameTrace(ss, es, n - 1, u);
      assert Follows(ss, es, n - 1);
    }
  }
}
