/** The hourly cleanup cannot be observed: no flush ever sends more, less or other packets for it. */
module OfflineCleanup {
  import opened OfflineQueue
  import opened OfflineDelivery

  ghost predicate OneRowPerMessage(q: map<nat, Row>)
  {
    forall i, j :: i in q && j in q && q[i].message == q[j].message ==> i == j
  }

  /** The same but for rows that no flush will look at again. */
  ghost predicate Alike(s: State, t: State)
  {
    && s.(queue := map[]) == t.(queue := map[])
    && forall id :: (Live(s, id) <==> Live(t, id)) && (Live(s, id) ==> s.queue[id] == t.queue[id])
  }

  ghost predicate Tidy(s: State) { TablesOk(s) && OneRowPerMessage(s.queue) }

  /** Every message to an offline recipient is later than the earlier ones to them. */
  ghost predicate SentInOrder(s: State, e: Event)
  {
    e.Send? && !e.online ==> Later(s.messages, e.to, e.created)
  }

  lemma StaysTidy(s: State, e: Event)
    requires Tidy(s) && Enabled(s, e) && SentInOrder(s, e)
    ensures Tidy(Next(s, e))
  {
    NextTablesOk(s, e);
    if e.Send? {
      QueuesTheNewMessageIff(s, e);
      forall i | i in s.queue ensures s.queue[i].message != s.nextMessage { assert RowOk(s, i); }
    } else {
      QueueEvolves(s, e);
    }
  }

  // ---------------------------------------------------------------------------
  // Flushes of alike states
  // ---------------------------------------------------------------------------

  lemma {:induction false} AlikePending(s: State, t: State, to: string, n: nat)
    requires Alike(s, t)
    ensures Pending(s.queue, to, n) == Pending(t.queue, to, n)
  {
    if n > 0 {
      AlikePending(s, t, to, n - 1);
      assert Live(s, n - 1) <==> Live(t, n - 1);
    }
  }

  ghost predicate AllLive(s: State, ids: seq<nat>) { forall k :: 0 <= k < |ids| ==> Live(s, ids[k]) }

  lemma PendingAllLive(s: State, to: string, n: nat)
    ensures AllLive(s, Pending(s.queue, to, n))
  {
    forall k | 0 <= k < |Pending(s.queue, to, n)| ensures Live(s, Pending(s.queue, to, n)[k]) {
      PendingIff(s.queue, to, n, Pending(s.queue, to, n)[k]);
    }
  }

  lemma {:induction false} AlikeReached(s: State, t: State, ids: seq<nat>, fates: Fates)
    requires Alike(s, t) && AllLive(s, ids)
    ensures Reached(s, ids, fates) == Reached(t, ids, fates)
    ensures ReachedAtRegister(s, ids, fates) == ReachedAtRegister(t, ids, fates)
  {
    if ids != [] {
      assert Live(s, ids[0]) && Live(t, ids[0]);
      AlikeReached(s, t, ids[1..], fates);
    }
  }

  lemma {:induction false} AlikePackets(s: State, t: State, to: string, ids: seq<nat>, fates: Fates)
    requires Alike(s, t) && AllLive(s, ids)
    ensures LoginPackets(s, to, fates, ids) == LoginPackets(t, to, fates, ids)
    ensures RegisterPackets(s, to, fates, ids) == RegisterPackets(t, to, fates, ids)
  {
    if ids != [] {
      assert Live(s, ids[0]) && Live(t, ids[0]);
      AlikePackets(s, t, to, ids[1..], fates);
    }
  }

  lemma AlikeIds(s: State, t: State, e: Event)
    requires Alike(s, t)
    ensures e.Login? ==> LoginIds(s, e) == LoginIds(t, e) && AllLive(s, LoginIds(s, e))
    ensures e.Register? ==> RegisterIds(s, e) == RegisterIds(t, e) && AllLive(s, RegisterIds(s, e))
    ensures Output(s, e) == Output(t, e)
  {
    if e.Login? || e.Register? {
      var ids := Pending(s.queue, e.user, s.nextRow);
      AlikePending(s, t, e.user, s.nextRow);
      PendingAllLive(s, e.user, s.nextRow);
      AlikeReached(s, t, ids, e.fates);
      if e.Login? { AlikePackets(s, t, e.user, LoginIds(s, e), e.fates); }
      if e.Register? { AlikePackets(s, t, e.user, RegisterIds(s, e), e.fates); }
    }
  }

  // ---------------------------------------------------------------------------
  // The simulation
  // ---------------------------------------------------------------------------

  lemma {:induction false} OnlyCandidate(q: map<nat, Row>, m: nat, prefer: nat, n: nat, c: nat)
    requires Candidate(q, m, c) && c < n && forall id :: Candidate(q, m, id) ==> id == c
    ensures Acked(q, m, prefer, n) == c
  {
    if !Candidate(q, m, prefer) && !Candidate(q, m, n - 1) {
      OnlyCandidate(q, m, prefer, n - 1, c);
    }
  }

  /** An acknowledgement takes a waiting row out exactly when it is the message's row. */
  lemma AckEndsLive(s: State, m: nat, prefer: nat, id: nat)
    requires Tidy(s)
    ensures var n := Next(s, Ack(m, prefer));
            && (Live(n, id) <==> Live(s, id) && s.queue[id].message != m)
            && (Live(n, id) ==> n.queue[id] == s.queue[id])
  {
    if Live(s, id) && s.queue[id].message == m {
      assert RowOk(s, id);
      OnlyCandidate(s.queue, m, prefer, s.nextRow, id);
    }
  }

  lemma AlikeAck(s: State, t: State, m: nat, prefer: nat)
    requires Alike(s, t) && Tidy(s) && Tidy(t)
    ensures Alike(Next(s, Ack(m, prefer)), Next(t, Ack(m, prefer)))
  {
    var s', t' := Next(s, Ack(m, prefer)), Next(t, Ack(m, prefer));
    forall id ensures (Live(s', id) <==> Live(t', id)) && (Live(s', id) ==> s'.queue[id] == t'.queue[id]) {
      AckEndsLive(s, m, prefer, id);
      AckEndsLive(t, m, prefer, id);
      assert Live(s, id) <==> Live(t, id);
    }
  }

  lemma AlikeFlush(s: State, t: State, e: Event)
    requires Alike(s, t) && (e.Login? || e.Register?)
    ensures Alike(Next(s, e), Next(t, e))
  {
    AlikeIds(s, t, e);
    var s', t' := Next(s, e), Next(t, e);
    forall id ensures (Live(s', id) <==> Live(t', id)) && (Live(s', id) ==> s'.queue[id] == t'.queue[id]) {
      assert Live(s, id) <==> Live(t, id);
      NotRevived(s, e, id);
      NotRevived(t, e, id);
    }
  }

  lemma NotRevived(s: State, e: Event, id: nat)
    requires e.Login? || e.Register?
    ensures Live(Next(s, e), id) ==> Live(s, id)
  {
    if id in s.queue { FlushedRow(s, e, id); }
  }

  lemma AlikeNext(s: State, t: State, e: Event)
    requires Alike(s, t) && Tidy(s) && Tidy(t) && Enabled(s, e)
    ensures Enabled(t, e) && Alike(Next(s, e), Next(t, e))
  {
    if e.Ack? {
      AlikeAck(s, t, e.message, e.prefer);
    } else if e.Login? || e.Register? {
      AlikeFlush(s, t, e);
    } else {
      var s', t' := Next(s, e), Next(t, e);
      forall id ensures (Live(s', id) <==> Live(t', id)) && (Live(s', id) ==> s'.queue[id] == t'.queue[id]) {
        assert Live(s, id) <==> Live(t, id);
      }
    }
  }

  /** A cleanup step, or nothing in its place. */
  predicate Idle(e: Event) { e == CleanupDelivered || e == CleanupExhausted || e == Tick(0) }

  lemma IdleIsAlike(s: State, e: Event)
    requires Idle(e)
    ensures Alike(Next(s, e), s)
  {
    forall id ensures (Live(Next(s, e), id) <==> Live(s, id))
                      && (Live(s, id) ==> Next(s, e).queue[id] == s.queue[id]) {}
  }

  predicate SameButCleanup(e: Event, f: Event) { e == f || (Idle(e) && Idle(f)) }

  ghost predicate SameRunButCleanup(es: seq<Event>, fs: seq<Event>)
  {
    |es| == |fs| && forall i :: 0 <= i < |es| ==> SameButCleanup(es[i], fs[i])
  }

  ghost predicate AllInOrder(ss: seq<State>, es: seq<Event>)
    requires |es| < |ss|
  {
    forall i :: 0 <= i < |es| ==> SentInOrder(ss[i], es[i])
  }

  /** Steps that differ at most in a cleanup keep tidy alike states alike and send the same. */
  lemma AlikeStep(s: State, t: State, e: Event, f: Event)
    requires Alike(s, t) && Tidy(s) && Tidy(t) && Enabled(s, e) && SameButCleanup(e, f)
    ensures Enabled(t, f) && Output(s, e) == Output(t, f) && Alike(Next(s, e), Next(t, f))
  {
    if Idle(e) && Idle(f) {
      IdleIsAlike(s, e);
      IdleIsAlike(t, f);
      AlikeChain(Next(s, e), s, t, Next(t, f));
    } else {
      AlikeIds(s, t, e);
      AlikeNext(s, t, e);
    }
  }

  lemma AlikeChain(a: State, b: State, c: State, d: State)
    requires Alike(a, b) && Alike(b, c) && Alike(d, c)
    ensures Alike(a, d)
  {
    forall id ensures (Live(a, id) <==> Live(d, id)) && (Live(a, id) ==> a.queue[id] == d.queue[id]) {
      assert Live(a, id) <==> Live(b, id);
      assert Live(b, id) <==> Live(c, id);
      assert Live(d, id) <==> Live(c, id);
    }
  }

  ghost predicate AllUnique(ss: seq<State>)
  {
    forall i :: 0 <= i < |ss| ==> OneRowPerMessage(ss[i].queue)
  }

  lemma AlikeAtNext(ss: seq<State>, es: seq<Event>, tt: seq<State>, fs: seq<Event>, i: nat)
    requires History(ss, es) && History(tt, fs) && |es| == |fs| && i < |es| && SameButCleanup(es[i], fs[i])
    requires OneRowPerMessage(ss[i].queue) && OneRowPerMessage(tt[i].queue) && Alike(ss[i], tt[i])
    ensures Alike(ss[i + 1], tt[i + 1]) && Output(ss[i], es[i]) == Output(tt[i], fs[i])
  {
    assert Tidy(ss[i]) && Tidy(tt[i]) by {
      HistoryTablesOk(ss, es, i);
      HistoryTablesOk(tt, fs, i);
    }
    assert Follows(ss, es, i) && Follows(tt, fs, i);
    AlikeStep(ss[i], tt[i], es[i], fs[i]);
  }

  lemma {:induction false} RunsStayAlike(ss: seq<State>, es: seq<Event>, tt: seq<State>, fs: seq<Event>, n: nat)
    requires History(ss, es) && History(tt, fs) && SameRunButCleanup(es, fs)
    requires AllUnique(ss) && AllUnique(tt) && n <= |es|
    ensures Alike(ss[n], tt[n])
  {
    if n > 0 {
      RunsStayAlike(ss, es, tt, fs, n - 1);
      AlikeAtNext(ss, es, tt, fs, n - 1);
    }
  }

  /**
   * Two runs that differ only in their cleanup steps, with at most one row per message in every
   * state: every flush of the one hands over exactly what the same flush of the other does.
   */
  lemma SameSends(ss: seq<State>, es: seq<Event>, tt: seq<State>, fs: seq<Event>, n: nat)
    requires History(ss, es) && History(tt, fs) && SameRunButCleanup(es, fs)
    requires AllUnique(ss) && AllUnique(tt) && n < |es|
    ensures Output(ss[n], es[n]) == Output(tt[n], fs[n])
  {
    RunsStayAlike(ss, es, tt, fs, n);
    AlikeAtNext(ss, es, tt, fs, n);
  }

  // ---------------------------------------------------------------------------
  // Putting cleanup steps in
  // ---------------------------------------------------------------------------

  /** t has lost some rows of s that no flush looks at any more, and nothing else. */
  ghost predicate Swept(s: State, t: State)
  {
    && t == s.(queue := t.queue)
    && (forall id :: id in t.queue ==> id in s.queue && t.queue[id] == s.queue[id])
    && forall id :: Live(s, id) ==> id in t.queue
  }

  lemma SweptIsAlike(s: State, t: State)
    requires Swept(s, t) && Tidy(s)
    ensures Alike(s, t) && OneRowPerMessage(t.queue)
  {
    forall id ensures (Live(s, id) <==> Live(t, id)) && (Live(s, id) ==> s.queue[id] == t.queue[id]) {}
  }

  lemma SweptAck(s: State, t: State, m: nat, prefer: nat)
    requires Swept(s, t) && Tidy(s) && Tidy(t)
    ensures Swept(Next(s, Ack(m, prefer)), Next(t, Ack(m, prefer)))
  {
    var a, b := Acked(s.queue, m, prefer, s.nextRow), Acked(t.queue, m, prefer, t.nextRow);
    if Candidate(t.queue, m, b) {
      assert Candidate(s.queue, m, b) && RowOk(s, b);
      OnlyCandidate(s.queue, m, prefer, s.nextRow, b);
    }
    if Candidate(s.queue, m, a) && a in t.queue {
      assert Candidate(t.queue, m, a) && RowOk(t, a);
      OnlyCandidate(t.queue, m, prefer, t.nextRow, a);
    }
  }

  lemma SweptFlush(s: State, t: State, e: Event)
    requires Swept(s, t) && Tidy(s) && (e.Login? || e.Register?)
    ensures Swept(Next(s, e), Next(t, e))
  {
    SweptIsAlike(s, t);
    AlikeIds(s, t, e);
    forall id | Live(Next(s, e), id) ensures id in Next(t, e).queue { NotRevived(s, e, id); }
  }

  lemma SweptOther(s: State, t: State, e: Event)
    requires Swept(s, t) && !e.Ack? && !e.Login? && !e.Register?
    ensures Swept(Next(s, e), Next(t, e))
  {
    forall id | Live(Next(s, e), id) ensures id in Next(t, e).queue {
      assert id == s.nextRow || Live(s, id);
    }
  }

  lemma SweptNext(s: State, t: State, e: Event)
    requires Swept(s, t) && Tidy(s) && Tidy(t) && Enabled(s, e)
    ensures Swept(Next(s, e), Next(t, e))
  {
    if e.Ack? {
      SweptAck(s, t, e.message, e.prefer);
    } else if e.Login? || e.Register? {
      SweptFlush(s, t, e);
    } else {
      SweptOther(s, t, e);
    }
  }

  /** One more cleanup. */
  lemma SweptMore(s: State, t: State, f: Event)
    requires Swept(s, t) && Idle(f)
    ensures Swept(s, Next(t, f))
  {
  }

  /** fs is es with cleanup steps in some of the idle moments. */
  ghost predicate Inserted(es: seq<Event>, fs: seq<Event>)
  {
    |es| == |fs| && forall i :: 0 <= i < |es| ==> fs[i] == es[i] || (es[i] == Tick(0) && Idle(fs[i]))
  }

  lemma SweptStep(s: State, t: State, e: Event, f: Event)
    requires Swept(s, t) && Tidy(s) && TablesOk(t) && Enabled(s, e)
    requires f == e || (e == Tick(0) && Idle(f))
    ensures Enabled(t, f) && Output(s, e) == Output(t, f) && Swept(Next(s, e), Next(t, f)) && TablesOk(Next(t, f))
  {
    SweptIsAlike(s, t);
    AlikeStep(s, t, e, f);
    NextTablesOk(t, f);
    if f == e { SweptNext(s, t, e); } else { SweptMore(s, t, f); }
  }

  /** Step i of the second run is allowed and sends what step i of the first sends. */
  ghost predicate Mirrors(ss: seq<State>, es: seq<Event>, tt: seq<State>, fs: seq<Event>, i: int)
    requires 0 <= i < |es| == |fs| && i + 1 < |tt| && |es| < |ss|
  {
    Enabled(tt[i], fs[i]) && tt[i + 1] == Next(tt[i], fs[i]) && Output(ss[i], es[i]) == Output(tt[i], fs[i])
  }

  /** The run of fs, built along that of es. */
  lemma {:induction false} Sweep(ss: seq<State>, es: seq<Event>, fs: seq<Event>, n: nat) returns (tt: seq<State>)
    requires History(ss, es) && AllUnique(ss) && Inserted(es, fs) && n <= |es|
    ensures |tt| == n + 1 && tt[0] == START && Swept(ss[n], tt[n]) && TablesOk(tt[n])
    ensures forall i {:trigger Mirrors(ss, es, tt, fs, i)} :: 0 <= i < n ==> Mirrors(ss, es, tt, fs, i)
  {
    if n == 0 {
      tt := [START];
    } else {
      var before := Sweep(ss, es, fs, n - 1);
      HistoryTablesOk(ss, es, n - 1);
      assert Follows(ss, es, n - 1);
      SweptStep(ss[n - 1], before[n - 1], es[n - 1], fs[n - 1]);
      tt := before + [Next(before[n - 1], fs[n - 1])];
      forall i | 0 <= i < n ensures Mirrors(ss, es, tt, fs, i) {
        if i < n - 1 { assert Mirrors(ss, es, before, fs, i); }
      }
    }
  }

  lemma MirrorIsRun(ss: seq<State>, es: seq<Event>, tt: seq<State>, fs: seq<Event>)
    requires |es| == |fs| && |tt| == |es| + 1 && |es| < |ss| && tt[0] == START
    requires forall i {:trigger Mirrors(ss, es, tt, fs, i)} :: 0 <= i < |es| ==> Mirrors(ss, es, tt, fs, i)
    ensures History(tt, fs)
    ensures forall i :: 0 <= i < |es| ==> Output(ss[i], es[i]) == Output(tt[i], fs[i])
  {
    forall i | 0 <= i < |fs| ensures Follows(tt, fs, i) { assert Mirrors(ss, es, tt, fs, i); }
    forall i | 0 <= i < |es| ensures Output(ss[i], es[i]) == Output(tt[i], fs[i]) {
      assert Mirrors(ss, es, tt, fs, i);
    }
  }

  /**
   * Take any run with at most one row per message in each state and put cleanup steps in anywhere:
   * the result is a run too, and every flush in it hands over exactly the same packets in the same
   * order.
   */
  lemma CleanupIsInvisible(ss: seq<State>, es: seq<Event>, fs: seq<Event>) returns (tt: seq<State>)
    requires History(ss, es) && AllUnique(ss) && Inserted(es, fs)
    ensures History(tt, fs)
    ensures forall i :: 0 <= i < |es| ==> Output(ss[i], es[i]) == Output(tt[i], fs[i])
  {
    tt := Sweep(ss, es, fs, |es|);
    MirrorIsRun(ss, es, tt, fs);
  }

  // ---------------------------------------------------------------------------
  // In-order times keep rows unique, with or without cleanup
  // ---------------------------------------------------------------------------

  lemma {:induction false} Simulate(ss: seq<State>, es: seq<Event>, fs: seq<Event>, n: nat) returns (tt: seq<State>)
    requires History(ss, es) && AllInOrder(ss, es) && SameRunButCleanup(es, fs) && n <= |es|
    ensures |tt| == n + 1 && tt[0] == START
    ensures Alike(ss[n], tt[n]) && Tidy(ss[n]) && Tidy(tt[n])
    ensures forall i {:trigger Mirrors(ss, es, tt, fs, i)} :: 0 <= i < n ==> Mirrors(ss, es, tt, fs, i)
  {
    if n == 0 {
      tt := [START];
    } else {
      var before := Simulate(ss, es, fs, n - 1);
      assert Follows(ss, es, n - 1) && SentInOrder(ss[n - 1], es[n - 1]) && SameButCleanup(es[n - 1], fs[n - 1]);
      AlikeStep(ss[n - 1], before[n - 1], es[n - 1], fs[n - 1]);
      StaysTidy(ss[n - 1], es[n - 1]);
      StaysTidy(before[n - 1], fs[n - 1]);
      tt := before + [Next(before[n - 1], fs[n - 1])];
      forall i | 0 <= i < n ensures Mirrors(ss, es, tt, fs, i) {
        if i < n - 1 { assert Mirrors(ss, es, before, fs, i); }
      }
    }
  }

  /** When messages to each offline recipient carry increasing times, cleanup steps may also be taken out. */
  lemma CleanupIsOptionalInOrder(ss: seq<State>, es: seq<Event>, fs: seq<Event>) returns (tt: seq<State>)
    requires History(ss, es) && AllInOrder(ss, es) && SameRunButCleanup(es, fs)
    ensures History(tt, fs)
    ensures forall i :: 0 <= i < |es| ==> Output(ss[i], es[i]) == Output(tt[i], fs[i])
  {
    tt := Simulate(ss, es, fs, |es|);
    MirrorIsRun(ss, es, tt, fs);
  }
}
