/** What the offline queue guarantees over whole runs. */
module OfflineDelivery {
  import opened OfflineQueue
  import opened Runs

  // ---------------------------------------------------------------------------
  // Table invariants
  // ---------------------------------------------------------------------------

  predicate RowOk(s: State, id: nat)
    requires id in s.queue
  {
    var r := s.queue[id];
    && id < s.nextRow && r.attempts <= MAX_ATTEMPTS && r.queued <= s.now
    && r.message in s.messages && r.recipient == s.messages[r.message].recipient
  }

  ghost predicate RowsOk(s: State) { forall id :: id in s.queue ==> RowOk(s, id) }

  ghost predicate IdsOk(s: State) { forall m :: m in s.messages ==> m < s.nextMessage }

  ghost predicate QueuedInOrder(q: map<nat, Row>)
  {
    forall i, j :: i in q && j in q && i < j ==> q[i].queued <= q[j].queued
  }

  ghost predicate TablesOk(s: State) { RowsOk(s) && IdsOk(s) && QueuedInOrder(s.queue) }

  /** Rows only lose their place or change delivered and attempts; a new row comes last. */
  ghost predicate Evolves(q: map<nat, Row>, q': map<nat, Row>)
  {
    forall id :: id in q' ==> id in q && q'[id].message == q[id].message
                              && q'[id].recipient == q[id].recipient && q'[id].queued == q[id].queued
  }

  /** An attempt is only counted on a row that still has one left. */
  lemma FlushedRow(s: State, e: Event, id: nat)
    requires id in s.queue
    ensures e.Login? && id in LoginIds(s, e) ==> Waiting(s.queue, e.user, id)
    ensures e.Register? && id in RegisterIds(s, e) ==> Waiting(s.queue, e.user, id)
  {
    if e.Login? { PendingIff(s.queue, e.user, s.nextRow, id); }
    if e.Register? { PendingIff(s.queue, e.user, s.nextRow, id); }
  }

  lemma QueueEvolves(s: State, e: Event)
    requires !e.Send?
    ensures Evolves(s.queue, Next(s, e).queue)
  {
  }

  lemma NextRowOk(s: State, e: Event, id: nat)
    requires TablesOk(s) && Enabled(s, e) && id in Next(s, e).queue
    ensures RowOk(Next(s, e), id)
  {
    if e.Send? {
      assert id != s.nextRow || e.online ==> RowOk(s, id);
    } else {
      QueueEvolves(s, e);
      assert RowOk(s, id);
      FlushedRow(s, e, id);
    }
  }

  lemma NextTablesOk(s: State, e: Event)
    requires TablesOk(s) && Enabled(s, e)
    ensures TablesOk(Next(s, e))
  {
    forall id | id in Next(s, e).queue ensures RowOk(Next(s, e), id) {
      NextRowOk(s, e, id);
    }
    if !e.Send? { QueueEvolves(s, e); }
    else {
      forall i | i in s.queue ensures i < s.nextRow && s.queue[i].queued <= s.now { assert RowOk(s, i); }
    }
  }

  lemma {:induction false} HistoryTablesOk(ss: seq<State>, es: seq<Event>, n: nat)
    requires History(ss, es) && n <= |es|
    ensures TablesOk(ss[n])
  {
    if n > 0 {
      HistoryTablesOk(ss, es, n - 1);
      assert Follows(ss, es, n - 1);
      NextTablesOk(ss[n - 1], es[n - 1]);
    }
  }

  /**
   * In every reachable state no row has more than five attempts, every row's message exists and
   * is addressed to the row's recipient, and a flush goes through the rows in queued_at order.
   */
  lemma AttemptCap(ss: seq<State>, es: seq<Event>, n: nat, id: nat)
    requires History(ss, es) && n <= |es| && id in ss[n].queue
    ensures ss[n].queue[id].attempts <= MAX_ATTEMPTS
    ensures ss[n].queue[id].message in ss[n].messages
    ensures ss[n].messages[ss[n].queue[id].message].recipient == ss[n].queue[id].recipient
    ensures forall j :: j in ss[n].queue && id < j ==> ss[n].queue[id].queued <= ss[n].queue[j].queued
  {
    HistoryTablesOk(ss, es, n);
    assert RowOk(ss[n], id);
  }

  // ---------------------------------------------------------------------------
  // The life of one row
  // ---------------------------------------------------------------------------

  predicate Live(s: State, id: nat) { id in s.queue && Deliverable(s.queue[id]) }

  /** The flush got as far as this entry. */
  predicate Visited(s: State, e: Event, id: nat)
  {
    match e
    case Login(_, _) => id in LoginIds(s, e)
    case Register(_, _) => id in RegisterIds(s, e)
    case _ => false
  }

  /** The steps that end a row's life. */
  predicate Ends(s: State, e: Event, id: nat)
    requires id in s.queue && s.queue[id].message in s.messages
  {
    var r := s.queue[id];
    match e
    case Login(_, fates) =>
      Visited(s, e, id) && (FateOf(fates, id) == Works
                            || (FateOf(fates, id) != NoIncrement && r.attempts == MAX_ATTEMPTS - 1))
    case Register(_, fates) => Visited(s, e, id) && FateOf(fates, id) in {Works, NoIncrement}
    case Ack(m, prefer) => m == r.message && Acked(s.queue, m, prefer, s.nextRow) == id
    case DeleteConversation(a, b) => Between(s.messages[r.message], a, b)
    case _ => false
  }

  /**
   * A waiting row stays waiting until it is marked after a send, its fifth attempt is spent, its
   * message is acknowledged or its conversation deleted. No cleanup, other user's flush, other
   * message's ACK or later send ends it.
   */
  lemma RowEndsIff(ss: seq<State>, es: seq<Event>, n: nat, id: nat)
    requires History(ss, es) && n < |es| && Live(ss[n], id)
    ensures ss[n].queue[id].message in ss[n].messages
    ensures Live(ss[n + 1], id) <==> !Ends(ss[n], es[n], id)
  {
    HistoryTablesOk(ss, es, n);
    assert Follows(ss, es, n);
    assert RowOk(ss[n], id);
    FlushedRow(ss[n], es[n], id);
  }

  /** A row that is used up never waits again. */
  lemma {:induction false} RetiredForGood(ss: seq<State>, es: seq<Event>, i: nat, n: nat, id: nat)
    requires History(ss, es) && i <= n <= |es|
    requires id < ss[i].nextRow && !Live(ss[i], id)
    ensures id < ss[n].nextRow && !Live(ss[n], id)
  {
    if i < n {
      RetiredForGood(ss, es, i, n - 1, id);
      assert Follows(ss, es, n - 1);
      if !es[n - 1].Send? && id in ss[n].queue {
        QueueEvolves(ss[n - 1], es[n - 1]);
        FlushedRow(ss[n - 1], es[n - 1], id);
      }
    }
  }

  lemma OutputIff(s: State, e: Event, p: Forward)
    ensures e.Login? ==> (p in Output(s, e) <==>
              Visited(s, e, p.row) && GoesOut(s, e.fates, p.row) && p == Packet(s, e.user, p.row))
    ensures e.Register? ==> (p in Output(s, e) <==>
              Visited(s, e, p.row) && GoesOutAtRegister(s, e.fates, p.row) && p == Packet(s, e.user, p.row))
  {
    if e.Login? { LoginPacketsOf(s, e.user, e.fates, LoginIds(s, e), p); }
    if e.Register? { RegisterPacketsOf(s, e.user, e.fates, RegisterIds(s, e), p); }
  }

  /** Only a waiting row is ever handed to a socket. */
  lemma SentRowsAreLive(s: State, e: Event, p: Forward)
    requires p in Output(s, e)
    ensures Live(s, p.row) && Visited(s, e, p.row) && FateOf(e.fates, p.row) in {Works, NoIncrement, NoMark}
    ensures e.Login? ==> FateOf(e.fates, p.row) != NoIncrement
  {
    OutputIff(s, e, p);
    FlushedRow(s, e, p.row);
  }

  /** A row marked delivered, exhausted or deleted is never sent again. */
  lemma DeliveredNeverResent(ss: seq<State>, es: seq<Event>, i: nat, j: nat, p: Forward)
    requires History(ss, es) && i <= j < |es|
    requires p.row < ss[i].nextRow && !Live(ss[i], p.row)
    ensures p !in Output(ss[j], es[j])
  {
    RetiredForGood(ss, es, i, j, p.row);
    if p in Output(ss[j], es[j]) { SentRowsAreLive(ss[j], es[j], p); }
  }

  /** A send that is marked ends the row. */
  lemma MarkedSendEnds(s: State, e: Event, p: Forward)
    requires p in Output(s, e) && FateOf(e.fates, p.row) != NoMark
    ensures p.row in s.queue && s.queue[p.row].message in s.messages && Ends(s, e, p.row)
  {
    SentRowsAreLive(s, e, p);
    OutputIff(s, e, p);
  }

  lemma IdsNeverComeBack(ss: seq<State>, es: seq<Event>, i: nat, id: nat)
    requires History(ss, es) && i < |es| && id in ss[i].queue
    ensures id < ss[i + 1].nextRow
  {
    HistoryTablesOk(ss, es, i);
    assert Follows(ss, es, i);
    assert RowOk(ss[i], id);
  }

  /** A row goes out twice only if the first time its markDelivered failed. */
  lemma ResentOnlyAfterLostMark(ss: seq<State>, es: seq<Event>, i: nat, j: nat, p: Forward, p': Forward)
    requires History(ss, es) && i < j < |es|
    requires p in Output(ss[i], es[i]) && p' in Output(ss[j], es[j]) && p.row == p'.row
    ensures FateOf(es[i].fates, p.row) == NoMark
  {
    if FateOf(es[i].fates, p.row) != NoMark {
      MarkedRowRetires(ss, es, i, p);
      DeliveredNeverResent(ss, es, i + 1, j, p');
    }
  }

  lemma MarkedRowRetires(ss: seq<State>, es: seq<Event>, i: nat, p: Forward)
    requires History(ss, es) && i < |es| && p in Output(ss[i], es[i]) && FateOf(es[i].fates, p.row) != NoMark
    ensures p.row < ss[i + 1].nextRow && !Live(ss[i + 1], p.row)
  {
    MarkedSendEnds(ss[i], es[i], p);
    SentRowsAreLive(ss[i], es[i], p);
    RowEndsIff(ss, es, i, p.row);
    IdsNeverComeBack(ss, es, i, p.row);
  }

  // ---------------------------------------------------------------------------
  // How often a row can go out
  // ---------------------------------------------------------------------------

  predicate HandsOver(s: State, e: Event, id: nat)
  {
    match e
    case Login(_, fates) => Visited(s, e, id) && GoesOut(s, fates, id)
    case Register(_, fates) => Visited(s, e, id) && GoesOutAtRegister(s, fates, id)
    case _ => false
  }

  function Times(ss: seq<State>, es: seq<Event>, n: nat, id: nat): nat
    requires n <= |es| < |ss|
  {
    if n == 0 then 0 else Times(ss, es, n - 1, id) + if HandsOver(ss[n - 1], es[n - 1], id) then 1 else 0
  }

  /** One send per counted attempt, and one more for the flush at registration. */
  function Budget(s: State, id: nat): nat
  {
    if id >= s.nextRow then 0
    else if id !in s.queue then MAX_ATTEMPTS + 1
    else s.queue[id].attempts + if s.queue[id].recipient in s.registered then 1 else 0
  }

  lemma BudgetGrows(s: State, e: Event, id: nat)
    requires TablesOk(s) && Enabled(s, e)
    ensures Budget(Next(s, e), id) >= Budget(s, id) + if HandsOver(s, e, id) then 1 else 0
  {
    if id in s.queue {
      assert RowOk(s, id);
      FlushedRow(s, e, id);
    } else {
      if e.Login? { PendingIff(s.queue, e.user, s.nextRow, id); }
      if e.Register? { PendingIff(s.queue, e.user, s.nextRow, id); }
    }
  }

  lemma {:induction false} TimesWithinBudget(ss: seq<State>, es: seq<Event>, n: nat, id: nat)
    requires History(ss, es) && n <= |es|
    ensures Times(ss, es, n, id) <= Budget(ss[n], id)
  {
    if n > 0 {
      TimesWithinBudget(ss, es, n - 1, id);
      HistoryTablesOk(ss, es, n - 1);
      assert Follows(ss, es, n - 1);
      BudgetGrows(ss[n - 1], es[n - 1], id);
    }
  }

  /** Whatever fails, a row is handed to a socket at most six times in any run. */
  lemma AtMostSixSends(ss: seq<State>, es: seq<Event>, n: nat, id: nat)
    requires History(ss, es) && n <= |es|
    ensures Times(ss, es, n, id) <= MAX_ATTEMPTS + 1
  {
    TimesWithinBudget(ss, es, n, id);
    HistoryTablesOk(ss, es, n);
    if id in ss[n].queue { assert RowOk(ss[n], id); }
  }

  // ---------------------------------------------------------------------------
  // Conservation of an accepted message
  // ---------------------------------------------------------------------------

  /**
   * The row queued for an offline recipient is surely the new message's if and only if every
   * earlier message to that recipient has a strictly earlier time; otherwise the database may
   * hand back, or does hand back, the id of another message.
   */
  lemma QueuesTheNewMessageIff(s: State, e: Event)
    requires IdsOk(s) && e.Send?
    ensures (forall id :: LastByTime(Saved(s, e), e.to, id) ==> id == s.nextMessage)
            <==> Later(s.messages, e.to, e.created)
  {
    var ms := Saved(s, e);
    if Later(s.messages, e.to, e.created) {
      forall id | LastByTime(ms, e.to, id) ensures id == s.nextMessage {
        assert ms[s.nextMessage].created <= ms[id].created;
      }
    } else {
      var j :| j in s.messages && s.messages[j].recipient == e.to && s.messages[j].created >= e.created;
      var id := LatestAmong(s.messages, e.to, j, s.nextMessage);
      assert LastByTime(ms, e.to, id) && id != s.nextMessage;
    }
  }

  /** Some message to the recipient is as late as any of them. */
  lemma LatestAmong(ms: map<nat, Message>, to: string, j: nat, n: nat) returns (id: nat)
    requires j in ms && ms[j].recipient == to
    requires forall m :: m in ms ==> m < n
    ensures id in ms && ms[id].recipient == to && ms[id].created >= ms[j].created
    ensures forall m :: m in ms && ms[m].recipient == to ==> ms[m].created <= ms[id].created
  {
    id := j;
    for k := 0 to n
      invariant id in ms && ms[id].recipient == to && ms[id].created >= ms[j].created
      invariant forall m :: m in ms && m < k && ms[m].recipient == to ==> ms[m].created <= ms[id].created
    {
      if k in ms && ms[k].recipient == to && ms[k].created > ms[id].created { id := k; }
    }
  }

  /** Another step that may take the message away or hand it over first. */
  predicate Touches(e: Event, m: nat, from: string, to: string)
  {
    match e
    case Login(user, _) => user == to
    case Register(user, _) => user == to
    case Ack(message, _) => message == m
    case DeleteConversation(a, b) => (a == from && b == to) || (a == to && b == from)
    case _ => false
  }

  ghost predicate Undisturbed(es: seq<Event>, i: nat, j: nat, m: nat, from: string, to: string)
  {
    forall k :: i < k < j && k < |es| ==> !Touches(es[k], m, from, to)
  }

  lemma {:induction false} RowAwaitsFlush(ss: seq<State>, es: seq<Event>, i: nat, j: nat)
    requires History(ss, es) && i < j <= |es|
    requires es[i].Send? && !es[i].online && Later(ss[i].messages, es[i].to, es[i].created)
    requires Undisturbed(es, i, j, ss[i].nextMessage, es[i].from, es[i].to)
    ensures var m, id := ss[i].nextMessage, ss[i].nextRow;
            && id in ss[j].queue && id < ss[j].nextRow && ss[j].queue[id].message == m
            && ss[j].queue[id].recipient == es[i].to && !ss[j].queue[id].delivered
            && ss[j].queue[id].attempts == 0
            && m in ss[j].messages && ss[j].messages[m] == Stored(es[i]) && m < ss[j].nextMessage
  {
    if i + 1 < j {
      RowAwaitsFlush(ss, es, i, j - 1);
      assert Follows(ss, es, j - 1);
      assert !Touches(es[j - 1], ss[i].nextMessage, es[i].from, es[i].to);
      FlushedRow(ss[j - 1], es[j - 1], ss[i].nextRow);
    } else {
      assert Follows(ss, es, i);
      HistoryTablesOk(ss, es, i);
      QueuesTheNewMessageIff(ss[i], es[i]);
    }
  }

  /**
   * A message accepted while its recipient is offline, later than every earlier one to them, is
   * in their next login flush, and goes out with its sender, body and recipient key exactly when
   * no older entry's send raised first and neither the socket nor the database failed it.
   */
  lemma OfflineMessageIsDelivered(ss: seq<State>, es: seq<Event>, i: nat, j: nat)
    requires History(ss, es) && i < j < |es|
    requires es[i].Send? && !es[i].online && Later(ss[i].messages, es[i].to, es[i].created)
    requires es[j].Login? && es[j].user == es[i].to
    requires Undisturbed(es, i, j, ss[i].nextMessage, es[i].from, es[i].to)
    ensures var e, id := es[i], ss[i].nextRow;
            Forward(id, e.from, e.to, e.body, RecipientKey(e.key), e.created) in Output(ss[j], es[j])
            <==>
            && (forall d: nat :: d < id && Waiting(ss[j].queue, e.to, d) ==> !Dies(ss[j], es[j].fates, d))
            && FateOf(es[j].fates, id) in {Works, NoMark}
  {
    var s, e, id := ss[j], es[j], ss[i].nextRow;
    RowAwaitsFlush(ss, es, i, j);
    OutputIff(s, e, Packet(s, e.user, id));
    var ids := Pending(s.queue, e.user, s.nextRow);
    PendingIff(s.queue, e.user, s.nextRow, id);
    var k :| 0 <= k < |ids| && ids[k] == id;
    VisitedIff(s, e, k);
  }

  lemma VisitedIff(s: State, e: Event, k: nat)
    requires e.Login? && k < |Pending(s.queue, e.user, s.nextRow)|
    ensures var id := Pending(s.queue, e.user, s.nextRow)[k];
            Visited(s, e, id) <==>
            forall d: nat :: d < id && Waiting(s.queue, e.user, d) ==> !Dies(s, e.fates, d)
  {
    var ids := Pending(s.queue, e.user, s.nextRow);
    var id := ids[k];
    ReachedIff(s, ids, e.fates, k);
    PendingIff(s.queue, e.user, s.nextRow, id);
    assert k < Reached(s, ids, e.fates) ==> LoginIds(s, e)[k] == id;
    if Visited(s, e, id) {
      var i :| 0 <= i < |LoginIds(s, e)| && ids[i] == id;
      if i < k { PendingAscends(s.queue, e.user, s.nextRow, i, k); }
      if k < i { PendingAscends(s.queue, e.user, s.nextRow, k, i); }
      forall d: nat | d < id && Waiting(s.queue, e.user, d) ensures !Dies(s, e.fates, d) {
        PendingIff(s.queue, e.user, s.nextRow, d);
        var c :| 0 <= c < |ids| && ids[c] == d;
        if k < c { PendingAscends(s.queue, e.user, s.nextRow, k, c); }
      }
    } else {
      var d :| 0 <= d < k && Dies(s, e.fates, ids[d]);
      PendingAscends(s.queue, e.user, s.nextRow, d, k);
      PendingIff(s.queue, e.user, s.nextRow, ids[d]);
    }
  }

  // ---------------------------------------------------------------------------
  // What a flush finds
  // ---------------------------------------------------------------------------

  /** An offline send to this user that gets queue row id. */
  predicate Enqueues(s: State, e: Event, user: string, id: nat)
  {
    e.Send? && !e.online && e.to == user && s.nextRow == id
  }

  /** One of the causes that end a row. */
  predicate EndsRow(s: State, e: Event, id: nat)
  {
    id in s.queue && s.queue[id].message in s.messages && Ends(s, e, id)
  }

  lemma WaitingStep(ss: seq<State>, es: seq<Event>, i: nat, user: string, id: nat)
    requires History(ss, es) && i < |es|
    ensures Waiting(ss[i + 1].queue, user, id) <==>
            Enqueues(ss[i], es[i], user, id) || (Waiting(ss[i].queue, user, id) && !EndsRow(ss[i], es[i], id))
  {
    var s, e := ss[i], es[i];
    HistoryTablesOk(ss, es, i);
    assert Follows(ss, es, i);
    if id in s.queue { assert RowOk(s, id); }
    if Live(s, id) {
      RowEndsIff(ss, es, i, id);
      SameRecipient(s, e, id);
    } else if id < s.nextRow {
      RetiredForGood(ss, es, i, i + 1, id);
    } else if !e.Send? {
      QueueEvolves(s, e);
    }
  }

  lemma SameRecipient(s: State, e: Event, id: nat)
    requires id in s.queue && id < s.nextRow
    ensures id in Next(s, e).queue ==> Next(s, e).queue[id].recipient == s.queue[id].recipient
  {
  }

  /** Event i queued row id for this user, and nothing has ended the row since. */
  ghost predicate QueuedSince(ss: seq<State>, es: seq<Event>, i: int, n: int, user: string, id: nat)
    requires |es| < |ss| && n <= |es|
  {
    0 <= i < n && Enqueues(ss[i], es[i], user, id) && forall j :: i < j < n ==> !EndsRow(ss[j], es[j], id)
  }

  /**
   * A flush at step n, at login or at registration, finds a row exactly when an earlier send to
   * that name, registered or not, queued it and none of the ending causes has struck since.
   */
  lemma FlushFindsIff(ss: seq<State>, es: seq<Event>, n: nat, user: string, id: nat)
    requires History(ss, es) && n <= |es|
    ensures id in Pending(ss[n].queue, user, ss[n].nextRow) <==> exists i :: QueuedSince(ss, es, i, n, user, id)
  {
    HistoryTablesOk(ss, es, n);
    PendingIff(ss[n].queue, user, ss[n].nextRow, id);
    if id in ss[n].queue { assert RowOk(ss[n], id); }
    var on := seq(n + 1, i requires 0 <= i <= n => Waiting(ss[i].queue, user, id));
    var set_ := seq(n, i requires 0 <= i < n => Enqueues(ss[i], es[i], user, id));
    var clear := seq(n, i requires 0 <= i < n => EndsRow(ss[i], es[i], id));
    forall i | 0 <= i < n ensures on[i + 1] == (set_[i] || (on[i] && !clear[i])) {
      WaitingStep(ss, es, i, user, id);
    }
    Latch(on, set_, clear);
    forall i | 0 <= i < n
      ensures QueuedSince(ss, es, i, n, user, id) <==> set_[i] && forall j :: i < j < n ==> !clear[j]
    {
      assert forall j :: i < j < n ==> clear[j] == EndsRow(ss[j], es[j], id);
    }
  }

  /**
   * The registration flush finds the queue empty exactly when every row ever queued for the name
   * has ended.
   */
  lemma NewUserQueueEmptyIff(ss: seq<State>, es: seq<Event>, n: nat, user: string)
    requires History(ss, es) && n < |es| && es[n].Register? && es[n].user == user
    ensures Pending(ss[n].queue, user, ss[n].nextRow) == [] <==>
            forall id: nat, i: int :: !QueuedSince(ss, es, i, n, user, id)
  {
    var ids := Pending(ss[n].queue, user, ss[n].nextRow);
    if ids != [] {
      FlushFindsIff(ss, es, n, user, ids[0]);
      assert ids[0] in ids;
    } else {
      forall id: nat, i: int ensures !QueuedSince(ss, es, i, n, user, id) {
        FlushFindsIff(ss, es, n, user, id);
      }
    }
  }
}
