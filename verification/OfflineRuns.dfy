/** Runs of the offline queue that show where a tempting claim fails. */
module OfflineRuns {
  import opened Text
  import opened OfflineQueue
  import opened OfflineDelivery
  import opened OfflineCleanup

  lemma Extend(ss: seq<State>, es: seq<Event>, e: Event) returns (tt: seq<State>, fs: seq<Event>)
    requires History(ss, es) && Enabled(ss[|es|], e)
    ensures History(tt, fs) && fs == es + [e] && tt == ss + [Next(ss[|es|], e)]
  {
    tt, fs := ss + [Next(ss[|es|], e)], es + [e];
    forall i | 0 <= i < |fs| ensures Follows(tt, fs, i) {
      if i < |es| { assert Follows(ss, es, i); }
    }
  }

  /** Ann's two messages to Bob, the second with the earlier time. */
  function First(online: bool): Event { Send("ann", "bob", "first", "k", 10, online, 0) }

  const SECOND := Send("ann", "bob", "second", "k", 5, false, 0)

  const M0 := Message("ann", "bob", "first", "k", "", 10, false)
  const M1 := Message("ann", "bob", "second", "k", "", 5, false)

  lemma PlainKey()
    ensures RecipientKey("k") == "k" && SenderKey("k") == ""
  {
    DualKeySplits("", "k");
  }

  lemma FirstStep(s: State, online: bool)
    requires s == START.(registered := s.registered)
    ensures Enabled(s, First(online))
    ensures Next(s, First(online))
            == State(map[0 := M0], 1, if online then map[] else map[0 := Row(0, "bob", 0, false, 0)],
                     if online then 0 else 1, s.registered, 0)
  {
    PlainKey();
    assert Saved(s, First(online)) == map[0 := M0];
    assert LastByTime(map[0 := M0], "bob", 0);
  }

  lemma SecondStep(s: State)
    requires s.messages == map[0 := M0] && s.nextMessage == 1
    ensures Enabled(s, SECOND)
    ensures Next(s, SECOND) == s.(messages := map[0 := M0, 1 := M1], nextMessage := 2, nextRow := s.nextRow + 1,
                                  queue := s.queue[s.nextRow := Row(0, "bob", s.now, false, 0)])
  {
    PlainKey();
    assert Saved(s, SECOND) == map[0 := M0, 1 := M1];
    assert LastByTime(map[0 := M0, 1 := M1], "bob", 0);
  }

  /** The message just saved is number 1; the row queued for it names number 0, delivered long ago. */
  lemma OlderTimeQueuesAnother() returns (ss: seq<State>, es: seq<Event>)
    ensures History(ss, es) && es == [First(true), SECOND]
    ensures ss[2].messages == map[0 := M0, 1 := M1] && ss[2].queue == map[0 := Row(0, "bob", 0, false, 0)]
  {
    FirstStep(START, true);
    ss, es := Extend([START], [], First(true));
    SecondStep(ss[1]);
    ss, es := Extend(ss, es, SECOND);
  }

  /** The registration flush of a queue with one waiting row hands over that row. */
  lemma OneRowFlushes(s: State, user: string)
    requires s.nextRow == 1 && Waiting(s.queue, user, 0) && s.queue[0].message in s.messages
    ensures Output(s, Register(user, map[])) == [Packet(s, user, 0)]
  {
    var e := Register(user, map[]);
    assert Pending(s.queue, user, 1) == Pending(s.queue, user, 0) + [0];
    assert Pending(s.queue, user, 1) == [0];
    assert ReachedAtRegister(s, [0], map[]) == 1;
    assert RegisterIds(s, e) == [0];
    assert [0][1..] == [] && RegisterPackets(s, user, map[], []) == [];
    assert RegisterPackets(s, user, map[], [0]) == [Packet(s, user, 0)] + [];
  }

  /** A queue that is not empty for a new user: the message was written before they registered. */
  lemma NewUserFindsARow() returns (ss: seq<State>, es: seq<Event>)
    ensures History(ss, es) && es == [First(false), Register("bob", map[])]
    ensures Output(ss[1], es[1]) == [Forward(0, "ann", "bob", "first", "k", 10)]
  {
    FirstStep(START, false);
    ss, es := Extend([START], [], First(false));
    var s := ss[1];
    ss, es := Extend(ss, es, Register("bob", map[]));
    OneRowFlushes(s, "bob");
    assert es[1] == Register("bob", map[]);
  }

  // ---------------------------------------------------------------------------
  // Cleanup seen through an ACK
  // ---------------------------------------------------------------------------

  /** Both rows name the first message; row 0 has spent this many attempts. */
  function Two(spent: nat): State
  {
    State(map[0 := M0, 1 := M1], 2, map[0 := Row(0, "bob", 0, false, spent), 1 := Row(0, "bob", 0, false, 0)],
          2, {"bob"}, 0)
  }

  /** A login in which the look-up fails for row 0 and the increment for row 1. */
  const BURN := Login("bob", map[0 := NoLookup, 1 := NoIncrement])

  lemma TwoPending(s: State)
    requires s.nextRow == 2
    ensures Pending(s.queue, "bob", 2)
            == (if Waiting(s.queue, "bob", 0) then [0] else []) + (if Waiting(s.queue, "bob", 1) then [1] else [])
  {
    assert Pending(s.queue, "bob", 1) == Pending(s.queue, "bob", 0) + if Waiting(s.queue, "bob", 0) then [0] else [];
  }

  lemma Burns(spent: nat)
    requires spent < MAX_ATTEMPTS
    ensures Enabled(Two(spent), BURN) && Next(Two(spent), BURN) == Two(spent + 1)
  {
    var s := Two(spent);
    TwoPending(s);
    assert [0, 1][1..] == [1];
    assert Reached(s, [1], BURN.fates) == 1 && Reached(s, [0, 1], BURN.fates) == 2;
    assert LoginIds(s, BURN) == [0, 1];
    assert Next(s, BURN).queue == Two(spent + 1).queue;
  }

  lemma {:induction false} BurnAll(spent: nat) returns (ss: seq<State>, es: seq<Event>)
    requires spent <= MAX_ATTEMPTS
    ensures History(ss, es) && ss[|es|] == Two(spent)
  {
    if spent == 0 {
      ss, es := Extend([START], [], RegisterUnflushed("bob"));
      FirstStep(ss[1], false);
      ss, es := Extend(ss, es, First(false));
      SecondStep(ss[2]);
      ss, es := Extend(ss, es, SECOND);
    } else {
      ss, es := BurnAll(spent - 1);
      Burns(spent - 1);
      ss, es := Extend(ss, es, BURN);
    }
  }

  const ACK := Ack(0, 0)

  /** Without a cleanup the ACK finds the spent row, and the other goes out at the next login. */
  lemma AckFindsTheSpent()
    ensures Output(Next(Two(5), ACK), LOGIN) == [Forward(1, "ann", "bob", "first", "k", 10)]
  {
    var s := Next(Two(5), ACK);
    assert s.queue == map[0 := Row(0, "bob", 0, true, 5), 1 := Row(0, "bob", 0, false, 0)];
    TwoPending(s);
    assert Reached(s, [1], map[]) == 1 && [1][1..] == [];
    assert LoginIds(s, LOGIN) == [1];
    assert LoginPackets(s, "bob", map[], []) == [];
  }

  /** After one the ACK finds the waiting row, and nothing goes out. */
  lemma AckFindsTheOther()
    ensures Output(Next(Next(Two(5), CleanupExhausted), ACK), LOGIN) == []
  {
    var c := Next(Two(5), CleanupExhausted);
    assert c.queue == map[1 := Row(0, "bob", 0, false, 0)];
    OnlyCandidate(c.queue, 0, 0, 2, 1);
    var s := Next(c, ACK);
    assert s.queue == map[1 := Row(0, "bob", 0, true, 0)];
    TwoPending(s);
    assert LoginIds(s, LOGIN) == [];
  }

  /**
   * When two rows share a message a cleanup can be seen: two runs that differ in one cleanup step
   * alone, and the last login of the first sends a packet that the same login of the second does not.
   */
  lemma CleanupShowsOnSharedMessage()
    returns (ss: seq<State>, es: seq<Event>, tt: seq<State>, fs: seq<Event>)
    ensures History(ss, es) && History(tt, fs) && SameRunButCleanup(es, fs) && |es| > 0
    ensures Output(ss[|es| - 1], es[|es| - 1]) != [] == Output(tt[|es| - 1], fs[|es| - 1])
  {
    ss, es := BurnAll(5);
    AckFindsTheSpent();
    AckFindsTheOther();
    ss, es, tt, fs := Differ(ss, es, Two(5), Next(Two(5), CleanupExhausted));
  }

  const LOGIN := Login("bob", map[])

  lemma Differ(xs: seq<State>, prefix: seq<Event>, s: State, c: State)
    returns (ss: seq<State>, es: seq<Event>, tt: seq<State>, fs: seq<Event>)
    requires History(xs, prefix) && xs[|prefix|] == s && c == Next(s, CleanupExhausted) && "bob" in s.registered
    requires Output(Next(s, ACK), LOGIN) != [] == Output(Next(c, ACK), LOGIN)
    ensures History(ss, es) && History(tt, fs) && SameRunButCleanup(es, fs) && |es| > 0
    ensures Output(ss[|es| - 1], es[|es| - 1]) != [] == Output(tt[|es| - 1], fs[|es| - 1])
  {
    ss, es := ThenAckAndLogin(xs, prefix, Tick(0), s);
    tt, fs := ThenAckAndLogin(xs, prefix, CleanupExhausted, c);
  }

  lemma ThenAckAndLogin(ss: seq<State>, es: seq<Event>, e: Event, s: State) returns (tt: seq<State>, fs: seq<Event>)
    requires History(ss, es) && Idle(e) && s == Next(ss[|es|], e) && "bob" in s.registered
    ensures History(tt, fs) && fs == es + [e, ACK, LOGIN]
    ensures tt[|fs| - 1] == Next(s, ACK)
  {
    tt, fs := Extend(ss, es, e);
    tt, fs := Extend(tt, fs, ACK);
    tt, fs := Extend(tt, fs, LOGIN);
  }
}
