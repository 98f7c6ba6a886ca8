/**
 * A run in which a status says seen though nobody read the message: a user whose name is a group's
 * number sends a receipt for a direct message.
 */
module ReceiptFailure {
  import opened Wrappers
  import opened Text
  import opened Wire
  import opened FieldCodecs
  import opened Groups
  import opened ReceiptFlow
  import Timestamps
  import R = RecipientStore

  const ALICE := "alice"
  const BOB := "bob"

  /** A text that is the number 1. */
  predicate IsOne(one: string) { IsNumeric(one) && Stoi(one) == Some(1) }

  /** Alice's group number 1 has herself and Bob in it. */
  predicate GroupOfTwo(t: Tables)
  {
    && t.members.Keys == {(1, ALICE), (1, BOB)} && ALICE in t.users && BOB in t.users
  }

  function Registration(name: Name): Packet { Blank(REGISTER).(from := name, body := "password") }

  const CREATION := Blank(CREATE_GROUP).(from := ALICE, errorMsg := "two", body := BOB, key := "bob:k")

  function Post(one: string, ts: string): Packet
  {
    Blank(GROUP_MESSAGE).(from := ALICE, to := one, body := "hi", timestamp := ts)
  }

  /** From the user named 1, for a direct message of Alice's. */
  function DirectRead(one: string, ts: string): Packet
  {
    Blank(READ_RECEIPT).(from := one, to := ALICE, body := ts)
  }

  // ---------------------------------------------------------------------------
  // The server's part
  // ---------------------------------------------------------------------------

  lemma OneIsANumber()
    ensures IsOne("1") && "1" != ""
  {
    assert ToString(1) == "1";
    StoiOfToString(1);
  }

  lemma AliceIsNone()
    ensures !IsNumeric(ALICE) && !ClientNumeric(ALICE)
  {
    assert !IsDigit(ALICE[0]);
    assert ALICE[4] != '\n';
  }

  lemma BobIsOneField(d: char)
    requires d == ',' || d == ';'
    ensures Fields(BOB, d) == [BOB] && Join([BOB], d) == BOB
  {
    ListRoundTripIff([BOB], d);
  }

  lemma Registered(w: World, name: Name)
    requires name != "" && |name| <= 64 && name !in w.tables.users
    ensures Next(w, Handle(name, Registration(name), 0, None, []))
            == w.(tables := w.tables.(users := w.tables.users + {name}))
  {
    assert Decode(Registration(name)) == RegisterUser(name);
  }

  lemma CreationCommand()
    ensures Decode(CREATION).CreateGroupOf? && Decode(CREATION).invited == [BOB]
  {
    BobIsOneField(',');
  }

  lemma CreatedTables(t: Tables, c: Command)
    requires t.nextGroup == 1 && t.members == map[] && ALICE in t.users && BOB in t.users
    requires c.CreateGroupOf? && c.invited == [BOB]
    ensures GroupOfTwo(Step(t, Request(ALICE, c, 0, None)))
  {
    assert Creates(t, Request(ALICE, c, 0, None));
    var t' := Step(t, Request(ALICE, c, 0, None));
    assert t'.members == map[(1, ALICE) := Creator] + map m | m in [BOB] :: (1, m) := Member;
    assert BOB in [BOB];
  }

  /** Creating a group sends no receipt. */
  lemma CreationIsQuiet(w: World, r: Request, p: Packet)
    requires r.command.CreateGroupOf? && p.kind == CREATE_GROUP
    ensures HandleStep(w, r, p, []) == w.(tables := Step(w.tables, r))
  {
  }

  lemma Created(w: World)
    requires w.tables.nextGroup == 1 && w.tables.members == map[] && ALICE in w.tables.users && BOB in w.tables.users
    ensures var n := Next(w, Handle(ALICE, CREATION, 0, None, []));
            GroupOfTwo(n.tables) && n == w.(tables := n.tables)
  {
    CreationCommand();
    var c := Decode(CREATION);
    CreatedTables(w.tables, c);
    CreationIsQuiet(w, Request(ALICE, c, 0, None), CREATION);
  }

  lemma {:induction false} MessageCommand(p: Packet, g: int)
    requires p.kind == GROUP_MESSAGE && p.from != "" && p.body != "" && Stoi(p.to) == Some(g)
    ensures Decode(p) == SendTo(g, p.from, p.body)
  {
  }

  lemma ReadCommand(p: Packet)
    requires p.kind == READ_RECEIPT
    ensures !Decode(p).SendTo?
  {
    DecodeFacts(p);
  }

  lemma Recipients(t: Tables)
    requires GroupOfTwo(t)
    ensures t.MembersOf(1) - {ALICE} == (set u | u in [BOB])
  {
    assert forall u :: u in t.MembersOf(1) <==> (1, u) in t.members;
  }

  lemma SendIsAcked(w: World, r: Request, p: Packet, order: seq<Name>)
    requires r.command.SendTo? && Sends(w.tables, r) && p.kind == GROUP_MESSAGE
    ensures HandleStep(w, r, p, order)
            == w.(tables := Step(w.tables, r), flight := w.flight + {(r.actor, SendAck(p, order))})
  {
  }

  lemma DirectReceiptGoesOut(w: World, r: Request, p: Packet)
    requires DirectReceipt(r.actor, p) && p.to in w.online
    ensures (p.to, p) in HandleStep(w, r, p, []).flight
  {
  }

  lemma Posted(w: World, one: string, ts: string, stamp: string)
    requires GroupOfTwo(w.tables) && IsOne(one)
    ensures var e := Handle(ALICE, Post(one, ts), 0, Some(stamp), [BOB]);
            && Enabled(w, e)
            && Next(w, e) == w.(tables := Next(w, e).tables,
                                flight := w.flight + {(ALICE, SendAck(Post(one, ts), [BOB]))})
  {
    MessageCommand(Post(one, ts), 1);
    Recipients(w.tables);
    SendIsAcked(w, Request(ALICE, SendTo(1, ALICE, "hi"), 0, Some(stamp)), Post(one, ts), [BOB]);
  }

  lemma DirectReadGoesOut(w: World, one: string, ts: string)
    requires ts != "" && ALICE in w.online && IsOne(one)
    ensures var e := Handle(one, DirectRead(one, ts), 0, None, []);
            && Enabled(w, e) && (ALICE, DirectRead(one, ts)) in Next(w, e).flight
            && Next(w, e).clients == w.clients
  {
    AliceIsNone();
    var p := DirectRead(one, ts);
    ReadCommand(p);
    DirectReceiptGoesOut(w, Request(one, Decode(p), 0, None), p);
    HandleFrame(w, Request(one, Decode(p), 0, None), p, []);
  }

  // ---------------------------------------------------------------------------
  // Alice's device
  // ---------------------------------------------------------------------------

  lemma AckSnapshots(one: string, ts: string)
    requires ts != "" && IsOne(one) && one != "delivered"
    ensures LocalEffect("", SendAck(Post(one, ts), [BOB])) == Some(R.Snapshot(one, Timestamps.Canonical(ts), [BOB]))
  {
    BobIsOneField(';');
  }

  lemma DirectReadWritesSeen(one: string, ts: string)
    requires IsOne(one)
    ensures LocalEffect("", DirectRead(one, ts)) == Some(R.SetStatus(one, Timestamps.Canonical(ts), R.Seen))
  {
    AliceIsNone();
  }

  /** The message is stored, Bob is its one recipient, and the interface writes seen. */
  lemma WrittenSeen(one: string, ct: string) returns (s: R.Store)
    ensures var s1 := R.Step(R.EMPTY, R.StoreMessage(one, ALICE, ct));
            var s2 := R.Step(s1, R.Snapshot(one, ct, [BOB]));
            s == R.Step(s2, R.SetStatus(one, ct, R.Seen))
    ensures s.status == map[(one, ALICE, ct) := R.Seen] && s.rows == map[(one, ct, BOB) := R.FRESH]
  {
    var s1 := R.Step(R.EMPTY, R.StoreMessage(one, ALICE, ct));
    var s2 := R.Step(s1, R.Snapshot(one, ct, [BOB]));
    assert R.AddRows(map[], one, ct, [BOB]) == map[(one, ct, BOB) := R.FRESH];
    s := R.Step(s2, R.SetStatus(one, ct, R.Seen));
  }

  // ---------------------------------------------------------------------------
  // The run
  // ---------------------------------------------------------------------------

  /** A run may be lengthened by any enabled event. */
  lemma Extend(ws: seq<World>, es: seq<Event>, e: Event) returns (vs: seq<World>, fs: seq<Event>)
    requires ReceiptFlow.History(ws, es) && Enabled(ws[|es|], e)
    ensures ReceiptFlow.History(vs, fs) && vs[|fs|] == Next(ws[|es|], e) && fs == es + [e]
  {
    vs, fs := ws + [Next(ws[|es|], e)], es + [e];
    LastStep(vs, fs);
    LongerRun(ws, es, vs, fs);
  }

  lemma LongerRun(ws: seq<World>, es: seq<Event>, vs: seq<World>, fs: seq<Event>)
    requires ReceiptFlow.History(ws, es) && |fs| == |es| + 1 && |vs| == |fs| + 1
    requires (forall i :: 0 <= i < |ws| ==> vs[i] == ws[i]) && forall i :: 0 <= i < |es| ==> fs[i] == es[i]
    requires ReceiptFlow.Follows(vs, fs, |es|)
    ensures ReceiptFlow.History(vs, fs)
  {
    forall i | 0 <= i < |fs| ensures ReceiptFlow.Follows(vs, fs, i) {
      if i < |es| { SameStep(ws, es, vs, fs, i); }
    }
  }

  lemma SameStep(ws: seq<World>, es: seq<Event>, vs: seq<World>, fs: seq<Event>, i: nat)
    requires i < |es| < |ws| && |fs| < |vs| && i < |fs| && ReceiptFlow.History(ws, es)
    requires vs[i] == ws[i] && vs[i + 1] == ws[i + 1] && fs[i] == es[i]
    ensures ReceiptFlow.Follows(vs, fs, i)
  {
    assert ReceiptFlow.Follows(ws, es, i);
  }

  lemma LastStep(vs: seq<World>, fs: seq<Event>)
    requires |fs| > 0 && |vs| == |fs| + 1 && Enabled(vs[|fs| - 1], fs[|fs| - 1])
    requires vs[|fs|] == Next(vs[|fs| - 1], fs[|fs| - 1])
    ensures ReceiptFlow.Follows(vs, fs, |fs| - 1)
  {
  }

  lemma Register(ws: seq<World>, es: seq<Event>, name: Name) returns (vs: seq<World>, fs: seq<Event>)
    requires ReceiptFlow.History(ws, es) && name != "" && |name| <= 64 && name !in ws[|es|].tables.users
    ensures ReceiptFlow.History(vs, fs)
    ensures vs[|fs|] == ws[|es|].(tables := ws[|es|].tables.(users := ws[|es|].tables.users + {name}))
    ensures Unread(es) ==> Unread(fs)
  {
    Registered(ws[|es|], name);
    assert Decode(Registration(name)) == RegisterUser(name);
    vs, fs := Extend(ws, es, Handle(name, Registration(name), 0, None, []));
  }

  /** Nobody but the user of that name sends a receipt. */
  ghost predicate Unread(es: seq<Event>)
  {
    forall i :: 0 <= i < |es| && es[i].Handle? && IsReceipt(es[i].packet) ==> IsOne(es[i].actor)
  }

  /** Alice's group stands, she is online, and her one device holds this store. */
  ghost predicate Founded(w: World) { GroupOfTwo(w.tables) && ALICE in w.online }

  ghost predicate Device(w: World, store: R.Store)
  {
    ALICE in w.online && 0 in w.clients && w.clients[0] == Client(ALICE, store, "")
  }

  lemma Found(one: string) returns (ws: seq<World>, es: seq<Event>)
    requires IsOne(one) && |one| <= 64
    ensures ReceiptFlow.History(ws, es) && Unread(es)
    ensures var t := ws[|es|].tables;
            t.nextGroup == 1 && t.members == map[] && ALICE in t.users && BOB in t.users && ws[|es|].clients == map[]
  {
    NamesDiffer(one);
    ws, es := RegisterThree(ALICE, BOB, one);
  }

  lemma NamesDiffer(one: string)
    requires IsOne(one)
    ensures one != ALICE && one != BOB && one != "" && ALICE != BOB
  {
    AliceIsNone();
    assert !IsDigit(BOB[0]);
  }

  lemma RegisterThree(a: Name, b: Name, c: Name) returns (ws: seq<World>, es: seq<Event>)
    requires a != b && a != c && b != c && 0 < |a| <= 64 && 0 < |b| <= 64 && 0 < |c| <= 64
    ensures ReceiptFlow.History(ws, es) && Unread(es)
    ensures ws[|es|] == START.(tables := EMPTY.(users := {a, b, c}))
  {
    ws, es := [START], [];
    ws, es := Register(ws, es, a);
    ws, es := Register(ws, es, b);
    ws, es := Register(ws, es, c);
    assert {} + {a} + {b} + {c} == {a, b, c};
  }

  lemma Create(ws: seq<World>, es: seq<Event>) returns (vs: seq<World>, fs: seq<Event>)
    requires ReceiptFlow.History(ws, es) && Unread(es)
    requires var t := ws[|es|].tables;
             t.nextGroup == 1 && t.members == map[] && ALICE in t.users && BOB in t.users && ws[|es|].clients == map[]
    ensures ReceiptFlow.History(vs, fs) && Unread(fs) && GroupOfTwo(vs[|fs|].tables) && vs[|fs|].clients == map[]
  {
    Created(ws[|es|]);
    CreationCommand();
    vs, fs := Extend(ws, es, Handle(ALICE, CREATION, 0, None, []));
  }

  lemma Start(ws: seq<World>, es: seq<Event>) returns (vs: seq<World>, fs: seq<Event>)
    requires ReceiptFlow.History(ws, es) && Unread(es) && GroupOfTwo(ws[|es|].tables) && ws[|es|].clients == map[]
    ensures ReceiptFlow.History(vs, fs) && Unread(fs) && Founded(vs[|fs|]) && Device(vs[|fs|], R.EMPTY)
  {
    vs, fs := Extend(ws, es, Connect(ALICE));
    vs, fs := Extend(vs, fs, Install(0, ALICE));
  }

  lemma Store(ws: seq<World>, es: seq<Event>, store: R.Store, g: string, ct: string)
    returns (vs: seq<World>, fs: seq<Event>)
    requires ReceiptFlow.History(ws, es) && Unread(es) && Founded(ws[|es|]) && Device(ws[|es|], store)
    ensures ReceiptFlow.History(vs, fs) && Unread(fs) && Founded(vs[|fs|])
    ensures Device(vs[|fs|], R.Step(store, R.StoreMessage(g, ALICE, ct)))
  {
    vs, fs := Extend(ws, es, Keep(0, g, ALICE, ct));
  }

  lemma SendPost(ws: seq<World>, es: seq<Event>, store: R.Store, one: string, ts: string, stamp: string)
    returns (vs: seq<World>, fs: seq<Event>)
    requires ReceiptFlow.History(ws, es) && Unread(es) && Founded(ws[|es|]) && Device(ws[|es|], store) && IsOne(one)
    ensures ReceiptFlow.History(vs, fs) && Unread(fs) && Device(vs[|fs|], store)
    ensures (ALICE, SendAck(Post(one, ts), [BOB])) in vs[|fs|].flight
  {
    Posted(ws[|es|], one, ts, stamp);
    vs, fs := Extend(ws, es, Handle(ALICE, Post(one, ts), 0, Some(stamp), [BOB]));
  }

  lemma SendDirectRead(ws: seq<World>, es: seq<Event>, store: R.Store, one: string, ts: string)
    returns (vs: seq<World>, fs: seq<Event>)
    requires ReceiptFlow.History(ws, es) && Unread(es) && Device(ws[|es|], store) && IsOne(one) && ts != ""
    ensures ReceiptFlow.History(vs, fs) && Unread(fs)
    ensures 0 in vs[|fs|].clients && vs[|fs|].clients[0] == Client(ALICE, store, "")
    ensures (ALICE, DirectRead(one, ts)) in vs[|fs|].flight
  {
    DirectReadGoesOut(ws[|es|], one, ts);
    vs, fs := ExtendAsOne(ws, es, Handle(one, DirectRead(one, ts), 0, None, []), (ALICE, DirectRead(one, ts)));
  }

  /** The user named 1 sends something that puts this packet in flight. */
  lemma ExtendAsOne(ws: seq<World>, es: seq<Event>, e: Event, f: (Name, Packet)) returns (vs: seq<World>, fs: seq<Event>)
    requires ReceiptFlow.History(ws, es) && Unread(es) && Enabled(ws[|es|], e) && e.Handle? && IsOne(e.actor)
    requires f in Next(ws[|es|], e).flight && Next(ws[|es|], e).clients == ws[|es|].clients
    ensures ReceiptFlow.History(vs, fs) && Unread(fs) && f in vs[|fs|].flight && vs[|fs|].clients == ws[|es|].clients
  {
    vs, fs := Extend(ws, es, e);
  }

  /** A packet in flight to Alice reaches her device. */
  lemma Receive(ws: seq<World>, es: seq<Event>, store: R.Store, p: Packet, l: R.Event)
    returns (vs: seq<World>, fs: seq<Event>)
    requires ReceiptFlow.History(ws, es) && Unread(es)
    requires 0 in ws[|es|].clients && ws[|es|].clients[0] == Client(ALICE, store, "")
    requires (ALICE, p) in ws[|es|].flight && LocalEffect("", p) == Some(l)
    ensures ReceiptFlow.History(vs, fs) && Unread(fs) && vs[|fs|].online == ws[|es|].online
    ensures 0 in vs[|fs|].clients && vs[|fs|].clients[0] == Client(ALICE, R.Step(store, l), "")
  {
    vs, fs := Extend(ws, es, Arrive(0, p));
  }

  /**
   * The user named like the group sends a receipt for a direct message of the same time: Alice's
   * group message turns to seen, though Bob, its only recipient, sent no receipt at all. The name
   * "1" is such a text (OneIsANumber).
   */
  lemma NumericNameOverReports(one: string, ts: string, stamp: string) returns (ws: seq<World>, es: seq<Event>)
    requires IsOne(one) && |one| <= 64 && one != "delivered" && ts != ""
    ensures ReceiptFlow.History(ws, es) && Unread(es)
    ensures var w, ct := ws[|es|], Timestamps.Canonical(ts);
            && 0 in w.clients && w.clients[0].store.status == map[(one, ALICE, ct) := R.Seen]
            && w.clients[0].store.rows == map[(one, ct, BOB) := R.FRESH]
  {
    var ct := Timestamps.Canonical(ts);
    AckSnapshots(one, ts);
    DirectReadWritesSeen(one, ts);
    var s := WrittenSeen(one, ct);
    var s1 := R.Step(R.EMPTY, R.StoreMessage(one, ALICE, ct));
    var s2 := R.Step(s1, R.Snapshot(one, ct, [BOB]));
    ws, es := Found(one);
    ws, es := Create(ws, es);
    ws, es := Start(ws, es);
    ws, es := Store(ws, es, R.EMPTY, one, ct);
    ws, es := SendPost(ws, es, s1, one, ts, stamp);
    ws, es := Receive(ws, es, s1, SendAck(Post(one, ts), [BOB]), R.Snapshot(one, ct, [BOB]));
    ws, es := SendDirectRead(ws, es, s2, one, ts);
    ws, es := Receive(ws, es, s2, DirectRead(one, ts), R.SetStatus(one, ct, R.Seen));
  }
}
