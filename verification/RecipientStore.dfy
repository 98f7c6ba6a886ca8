/**
 * The sender's local receipt table: a recipient snapshot per group message, per-member marks,
 * and the one status derived from them. Keys are texts, as in SQLite.
 */
module RecipientStore {
  import opened Wrappers

  datatype Row = Row(delivered: bool, seen: bool)

  datatype Status = Sent | Delivered | Seen

  /** group_message_recipients is keyed (group, timestamp, member). */
  type RowKey = (string, string, string)

  /** group_messages is keyed (group, sender, timestamp). */
  type MessageKey = (string, string, string)

  datatype Store = Store(rows: map<RowKey, Row>, status: map<MessageKey, Status>)

  const FRESH := Row(false, false)

  predicate HasRows(s: Store, g: string, ts: string)
  {
    exists k :: k in s.rows && k.0 == g && k.1 == ts
  }

  predicate AllSeen(s: Store, g: string, ts: string)
  {
    forall k :: k in s.rows && k.0 == g && k.1 == ts ==> s.rows[k].seen
  }

  predicate AllDelivered(s: Store, g: string, ts: string)
  {
    forall k :: k in s.rows && k.0 == g && k.1 == ts ==> s.rows[k].delivered
  }

  /** The aggregate of a snapshot, when it is complete. */
  function Aggregate(s: Store, g: string, ts: string): Option<Status>
  {
    if !HasRows(s, g, ts) then None
    else if AllSeen(s, g, ts) then Some(Seen)
    else if AllDelivered(s, g, ts) then Some(Delivered)
    else None
  }

  // ---------------------------------------------------------------------------
  // Steps
  // ---------------------------------------------------------------------------

  /** SetStatus is the user interface's own write, ChatModel::updateStatus with isGroup. */
  datatype Event =
    | StoreMessage(g: string, sender: string, ts: string)
    | Snapshot(g: string, ts: string, members: seq<string>)
    | MarkDelivered(g: string, ts: string, member: string)
    | MarkSeen(g: string, ts: string, member: string)
    | Prune(g: string, members: seq<string>)
    | RemoveGroup(g: string)
    | SetStatus(g: string, ts: string, status: Status)

  function AddRows(rows: map<RowKey, Row>, g: string, ts: string, members: seq<string>): map<RowKey, Row>
  {
    (map m | m in members :: (g, ts, m) := FRESH) + rows
  }

  /** An UPDATE of one row; nothing happens when the snapshot has no such member. */
  function MarkRow(rows: map<RowKey, Row>, k: RowKey, seen: bool): map<RowKey, Row>
  {
    if k in rows then rows[k := Row(true, seen || rows[k].seen)] else rows
  }

  function KeepMembers(rows: map<RowKey, Row>, g: string, members: seq<string>): map<RowKey, Row>
  {
    map k | k in rows && !(k.0 == g && k.2 !in members) :: rows[k]
  }

  /** Pruning took a row of this timestamp away and left another. */
  predicate Affected(rows: map<RowKey, Row>, g: string, members: seq<string>, ts: string)
  {
    && (exists k :: k in rows && k.0 == g && k.1 == ts && k.2 !in members)
    && (exists k :: k in rows && k.0 == g && k.1 == ts && k.2 in members)
  }

  /** recomputeGroupAggregate for each of these timestamps of the group. */
  function Refresh(s: Store, g: string, hit: string -> bool): Store
  {
    s.(status := map k | k in s.status ::
         if k.0 == g && hit(k.2) && Aggregate(s, g, k.2).Some?
         then Aggregate(s, g, k.2).value else s.status[k])
  }

  function Step(s: Store, e: Event): Store
  {
    match e
    case StoreMessage(g, sender, ts) =>
      if (g, sender, ts) in s.status then s else s.(status := s.status[(g, sender, ts) := Sent])
    case Snapshot(g, ts, members) => s.(rows := AddRows(s.rows, g, ts, members))
    case MarkDelivered(g, ts, m) =>
      Refresh(s.(rows := MarkRow(s.rows, (g, ts, m), false)), g, x => x == ts)
    case MarkSeen(g, ts, m) =>
      Refresh(s.(rows := MarkRow(s.rows, (g, ts, m), true)), g, x => x == ts)
    case Prune(g, members) =>
      Refresh(s.(rows := KeepMembers(s.rows, g, members)), g, x => Affected(s.rows, g, members, x))
    case RemoveGroup(g) => s.(status := map k | k in s.status && k.0 != g :: s.status[k])
    case SetStatus(g, ts, status) =>
      s.(status := map k | k in s.status :: if k.0 == g && k.2 == ts then status else s.status[k])
  }

  /** The message of this group and time is stored. */
  predicate Stored(s: Store, g: string, ts: string)
  {
    exists k :: k in s.status && k.0 == g && k.2 == ts
  }

  /** Only a mark for exactly this row can make it seen or delivered. */
  lemma RowsAfter(s: Store, e: Event, k: RowKey)
    requires k in Step(s, e).rows
    ensures Step(s, e).rows[k].seen ==> (k in s.rows && s.rows[k].seen) || e == MarkSeen(k.0, k.1, k.2)
    ensures Step(s, e).rows[k].delivered ==>
              || (k in s.rows && s.rows[k].delivered)
              || e == MarkSeen(k.0, k.1, k.2) || e == MarkDelivered(k.0, k.1, k.2)
  {
  }

  ghost predicate Follows(ss: seq<Store>, es: seq<Event>, i: int)
    requires 0 <= i < |es| < |ss|
  {
    ss[i + 1] == Step(ss[i], es[i])
  }

  /** A run of the local store from empty tables. */
  ghost predicate History(ss: seq<Store>, es: seq<Event>)
  {
    && |ss| == |es| + 1 && ss[0] == Store(map[], map[])
    && forall i {:trigger Follows(ss, es, i)} :: 0 <= i < |es| ==> Follows(ss, es, i)
  }

  // ---------------------------------------------------------------------------
  // Agreement of the stored status with the aggregate
  // ---------------------------------------------------------------------------

  /** Whenever the aggregate of a stored message is complete, it is the stored status. */
  ghost predicate Agrees(s: Store)
  {
    forall k :: k in s.status && Aggregate(s, k.0, k.2).Some? ==>
                  s.status[k] == Aggregate(s, k.0, k.2).value
  }

  /** A message row is stored only after its aggregate was already complete. */
  ghost predicate LateStore(s: Store, e: Event)
  {
    e.StoreMessage? && (e.g, e.sender, e.ts) !in s.status && Aggregate(s, e.g, e.ts).Some?
  }

  /** The interface writes a status other than the complete aggregate. */
  ghost predicate Overrides(s: Store, e: Event)
  {
    e.SetStatus? && Stored(s, e.g, e.ts) && Aggregate(s, e.g, e.ts).Some?
    && Aggregate(s, e.g, e.ts).value != e.status
  }

  /** Rows of one timestamp unchanged, aggregate unchanged. */
  lemma SameAggregate(a: Store, b: Store, g: string, ts: string)
    requires forall k: RowKey :: k.0 == g && k.1 == ts ==>
               (k in a.rows <==> k in b.rows) && (k in a.rows ==> a.rows[k] == b.rows[k])
    ensures Aggregate(a, g, ts) == Aggregate(b, g, ts)
  {
    assert HasRows(a, g, ts) <==> HasRows(b, g, ts);
    assert AllSeen(a, g, ts) <==> AllSeen(b, g, ts);
    assert AllDelivered(a, g, ts) <==> AllDelivered(b, g, ts);
  }

  /** Recomputing restores agreement if the other aggregates are as they were. */
  lemma RefreshAgrees(s: Store, mid: Store, g: string, hit: string -> bool)
    requires Agrees(s) && mid.status == s.status
    requires forall k :: k in s.status && !(k.0 == g && hit(k.2)) ==>
               Aggregate(mid, k.0, k.2).None? || Aggregate(mid, k.0, k.2) == Aggregate(s, k.0, k.2)
    ensures Agrees(Refresh(mid, g, hit))
  {
    var t := Refresh(mid, g, hit);
    forall k | k in t.status && Aggregate(t, k.0, k.2).Some?
      ensures t.status[k] == Aggregate(t, k.0, k.2).value
    {
      SameAggregate(t, mid, k.0, k.2);
    }
  }

  lemma MarkAgrees(s: Store, g: string, ts: string, m: string, seen: bool)
    requires Agrees(s)
    ensures Agrees(Refresh(s.(rows := MarkRow(s.rows, (g, ts, m), seen)), g, x => x == ts))
  {
    var mid := s.(rows := MarkRow(s.rows, (g, ts, m), seen));
    forall k | k in s.status && !(k.0 == g && k.2 == ts)
      ensures Aggregate(mid, k.0, k.2) == Aggregate(s, k.0, k.2)
    {
      SameAggregate(mid, s, k.0, k.2);
    }
    RefreshAgrees(s, mid, g, x => x == ts);
  }

  lemma PruneAgrees(s: Store, g: string, members: seq<string>)
    requires Agrees(s)
    ensures Agrees(Step(s, Prune(g, members)))
  {
    var mid := s.(rows := KeepMembers(s.rows, g, members));
    forall k | k in s.status && !(k.0 == g && Affected(s.rows, g, members, k.2))
      ensures Aggregate(mid, k.0, k.2).None? || Aggregate(mid, k.0, k.2) == Aggregate(s, k.0, k.2)
    {
      if HasRows(mid, k.0, k.2) {
        SameAggregate(mid, s, k.0, k.2);
      }
    }
    RefreshAgrees(s, mid, g, x => Affected(s.rows, g, members, x));
  }

  lemma SnapshotAgrees(s: Store, g: string, ts: string, members: seq<string>)
    requires Agrees(s)
    ensures Agrees(Step(s, Snapshot(g, ts, members)))
  {
    var t := Step(s, Snapshot(g, ts, members));
    forall k | k in t.status && Aggregate(t, k.0, k.2).Some?
      ensures t.status[k] == Aggregate(t, k.0, k.2).value
    {
      if k.0 == g && k.2 == ts {
        forall m | m in members ensures (g, ts, m) in s.rows {
          assert (g, ts, m) in t.rows;
        }
      }
      SameAggregate(t, s, k.0, k.2);
    }
  }

  lemma StoreAgreesIff(s: Store, g: string, sender: string, ts: string)
    requires Agrees(s)
    ensures Agrees(Step(s, StoreMessage(g, sender, ts))) <==> !LateStore(s, StoreMessage(g, sender, ts))
  {
    var t := Step(s, StoreMessage(g, sender, ts));
    forall k | k in t.status ensures Aggregate(t, k.0, k.2) == Aggregate(s, k.0, k.2) {
      SameAggregate(t, s, k.0, k.2);
    }
    assert (g, sender, ts) in t.status;
  }

  lemma RemoveAgrees(s: Store, g: string)
    requires Agrees(s)
    ensures Agrees(Step(s, RemoveGroup(g)))
  {
    var t := Step(s, RemoveGroup(g));
    forall k | k in t.status ensures Aggregate(t, k.0, k.2) == Aggregate(s, k.0, k.2) {
      SameAggregate(t, s, k.0, k.2);
    }
  }

  lemma SetAgreesIff(s: Store, g: string, ts: string, status: Status)
    requires Agrees(s)
    ensures Agrees(Step(s, SetStatus(g, ts, status))) <==> !Overrides(s, SetStatus(g, ts, status))
  {
    var t := Step(s, SetStatus(g, ts, status));
    forall k | k in t.status ensures Aggregate(t, k.0, k.2) == Aggregate(s, k.0, k.2) {
      SameAggregate(t, s, k.0, k.2);
    }
    if Stored(s, g, ts) {
      var k :| k in s.status && k.0 == g && k.2 == ts;
      assert k in t.status && t.status[k] == status;
    }
  }

  lemma StepAgreesIff(s: Store, e: Event)
    requires Agrees(s)
    ensures Agrees(Step(s, e)) <==> !LateStore(s, e) && !Overrides(s, e)
  {
    match e
    case StoreMessage(g, sender, ts) => StoreAgreesIff(s, g, sender, ts);
    case Snapshot(g, ts, members) => SnapshotAgrees(s, g, ts, members);
    case MarkDelivered(g, ts, m) => MarkAgrees(s, g, ts, m, false);
    case MarkSeen(g, ts, m) => MarkAgrees(s, g, ts, m, true);
    case Prune(g, members) => PruneAgrees(s, g, members);
    case RemoveGroup(g) => RemoveAgrees(s, g);
    case SetStatus(g, ts, status) => SetAgreesIff(s, g, ts, status);
  }

  /**
   * Over a whole run the status agrees with every complete aggregate in every state exactly when
   * no message row is stored after its aggregate was complete and the interface never writes
   * anything else over a complete aggregate.
   */
  lemma {:induction false} AgreementIff(ss: seq<Store>, es: seq<Event>, n: nat)
    requires History(ss, es) && n <= |es|
    ensures (forall i :: 0 <= i <= n ==> Agrees(ss[i]))
       <==> forall i :: 0 <= i < n ==> !LateStore(ss[i], es[i]) && !Overrides(ss[i], es[i])
  {
    if n > 0 {
      AgreementIff(ss, es, n - 1);
      assert Follows(ss, es, n - 1);
      if Agrees(ss[n - 1]) {
        StepAgreesIff(ss[n - 1], es[n - 1]);
      }
    }
  }

  // ---------------------------------------------------------------------------
  // "seen" means seen by all
  // ---------------------------------------------------------------------------

  /** Every member still in the snapshot of a message whose status is seen has seen it. */
  ghost predicate SeenMeansAll(s: Store)
  {
    forall k :: k in s.status && s.status[k] == Seen ==> AllSeen(s, k.0, k.2)
  }

  /** A snapshot adds a member to a message whose status is already seen. */
  ghost predicate LateSnapshot(s: Store, e: Event)
  {
    && e.Snapshot?
    && (exists m :: m in e.members && (e.g, e.ts, m) !in s.rows)
    && exists k :: k in s.status && k.0 == e.g && k.2 == e.ts && s.status[k] == Seen
  }

  /** The interface writes seen for a message that somebody in its snapshot has not seen. */
  ghost predicate FalseSeen(s: Store, e: Event)
  {
    e.SetStatus? && e.status == Seen && Stored(s, e.g, e.ts) && !AllSeen(s, e.g, e.ts)
  }

  /** The two ways a step can make "seen" say too much. */
  ghost predicate Overstates(s: Store, e: Event) { LateSnapshot(s, e) || FalseSeen(s, e) }

  lemma SetSeenMeansAllIff(s: Store, g: string, ts: string, status: Status)
    requires SeenMeansAll(s)
    ensures SeenMeansAll(Step(s, SetStatus(g, ts, status))) <==> !FalseSeen(s, SetStatus(g, ts, status))
  {
    var t := Step(s, SetStatus(g, ts, status));
    assert forall h, x :: AllSeen(t, h, x) <==> AllSeen(s, h, x);
    if Stored(s, g, ts) {
      var k :| k in s.status && k.0 == g && k.2 == ts;
      assert k in t.status && t.status[k] == status;
    }
  }

  /** Rows only go away or become seen, and only complete aggregates become the status. */
  lemma RefreshSeenMeansAll(s: Store, mid: Store, g: string, hit: string -> bool)
    requires SeenMeansAll(s) && mid.status == s.status
    requires forall k :: k in mid.rows ==> k in s.rows && (s.rows[k].seen ==> mid.rows[k].seen)
    ensures SeenMeansAll(Refresh(mid, g, hit))
  {
    var t := Refresh(mid, g, hit);
    forall k | k in t.status && t.status[k] == Seen ensures AllSeen(t, k.0, k.2) {
      assert AllSeen(mid, k.0, k.2) <==> AllSeen(t, k.0, k.2);
    }
  }

  lemma StepSeenMeansAllIff(s: Store, e: Event)
    requires SeenMeansAll(s)
    ensures SeenMeansAll(Step(s, e)) <==> !Overstates(s, e)
  {
    match e
    case StoreMessage(g, sender, ts) =>
      assert forall h, x :: AllSeen(Step(s, e), h, x) <==> AllSeen(s, h, x);
    case Snapshot(g, ts, members) =>
      var t := Step(s, e);
      if LateSnapshot(s, e) {
        var m :| m in members && (g, ts, m) !in s.rows;
        assert t.rows[(g, ts, m)] == FRESH;
      } else {
        forall k | k in t.status && t.status[k] == Seen ensures AllSeen(t, k.0, k.2) {
          assert AllSeen(s, k.0, k.2);
        }
      }
    case MarkDelivered(g, ts, m) =>
      RefreshSeenMeansAll(s, s.(rows := MarkRow(s.rows, (g, ts, m), false)), g, x => x == ts);
    case MarkSeen(g, ts, m) =>
      RefreshSeenMeansAll(s, s.(rows := MarkRow(s.rows, (g, ts, m), true)), g, x => x == ts);
    case Prune(g, members) =>
      RefreshSeenMeansAll(s, s.(rows := KeepMembers(s.rows, g, members)), g,
                          x => Affected(s.rows, g, members, x));
    case RemoveGroup(g) =>
      assert forall h, x :: AllSeen(Step(s, e), h, x) <==> AllSeen(s, h, x);
    case SetStatus(g, ts, status) => SetSeenMeansAllIff(s, g, ts, status);
  }

  /**
   * Over a whole run "seen" means seen by all exactly when no snapshot comes late and the interface
   * never writes seen for a message not seen by all.
   */
  lemma {:induction false} SeenMeansAllIff(ss: seq<Store>, es: seq<Event>, n: nat)
    requires History(ss, es) && n <= |es|
    ensures (forall i :: 0 <= i <= n ==> SeenMeansAll(ss[i]))
       <==> forall i :: 0 <= i < n ==> !Overstates(ss[i], es[i])
  {
    if n > 0 {
      SeenMeansAllIff(ss, es, n - 1);
      assert Follows(ss, es, n - 1);
      if SeenMeansAll(ss[n - 1]) {
        StepSeenMeansAllIff(ss[n - 1], es[n - 1]);
      }
    }
  }

  /** The interface writes a lesser status over this message. */
  predicate Demotes(e: Event, k: MessageKey)
  {
    e.SetStatus? && e.g == k.0 && e.ts == k.2 && e.status != Seen
  }

  lemma SeenStaysIff(s: Store, e: Event, k: MessageKey)
    requires SeenMeansAll(s) && k in s.status && s.status[k] == Seen && k in Step(s, e).status
    ensures Step(s, e).status[k] == Seen <==> !Demotes(e, k)
  {
    match e
    case MarkDelivered(g, ts, m) =>
      assert AllSeen(s.(rows := MarkRow(s.rows, (g, ts, m), false)), k.0, k.2);
    case MarkSeen(g, ts, m) =>
      assert AllSeen(s.(rows := MarkRow(s.rows, (g, ts, m), true)), k.0, k.2);
    case Prune(g, members) =>
      assert AllSeen(s.(rows := KeepMembers(s.rows, g, members)), k.0, k.2);
    case _ =>
  }

  /**
   * While "seen" means seen by all, the status of a stored message moves back from seen exactly
   * when the interface writes a lesser one.
   */
  lemma {:induction false} SeenMovesBackIff(ss: seq<Store>, es: seq<Event>, i: nat, j: nat, k: MessageKey)
    requires History(ss, es) && i <= j <= |es|
    requires forall n :: 0 <= n < j ==> !Overstates(ss[n], es[n])
    requires forall n :: i <= n <= j ==> k in ss[n].status
    requires ss[i].status[k] == Seen
    ensures (forall n :: i <= n <= j ==> ss[n].status[k] == Seen)
       <==> forall n :: i <= n < j ==> !Demotes(es[n], k)
  {
    if i < j {
      SeenMovesBackIff(ss, es, i, j - 1, k);
      SeenMeansAllIff(ss, es, j - 1);
      assert Follows(ss, es, j - 1) && k in ss[j].status;
      if ss[j - 1].status[k] == Seen { SeenStaysIff(ss[j - 1], es[j - 1], k); }
    }
  }

  // ---------------------------------------------------------------------------
  // Runs that fail
  // ---------------------------------------------------------------------------

  const EMPTY := Store(map[], map[])
  const ANN: MessageKey := ("7", "ann", "t")
  const BOB: RowKey := ("7", "t", "bob")
  const EVE: RowKey := ("7", "t", "eve")

  /** Ann's message, sent to Bob alone, before and after Bob read it. */
  const UNREAD := Store(map[BOB := FRESH], map[ANN := Sent])
  const READ := Store(map[BOB := Row(true, true)], map[ANN := Seen])

  lemma SnapshotOfBob(s: Store)
    requires s.rows == map[]
    ensures Step(s, Snapshot("7", "t", ["bob"])) == s.(rows := map[BOB := FRESH])
  {
    assert AddRows(map[], "7", "t", ["bob"]) == map[BOB := FRESH];
  }

  lemma BobReads(s: Store)
    requires s.rows == map[BOB := FRESH] && (s.status == map[] || s.status == map[ANN := Sent])
    ensures Step(s, MarkSeen("7", "t", "bob")).rows == map[BOB := Row(true, true)]
    ensures s == UNREAD ==> Step(s, MarkSeen("7", "t", "bob")) == READ
    ensures s.status == map[] ==> Step(s, MarkSeen("7", "t", "bob")).status == map[]
  {
    var mid := s.(rows := map[BOB := Row(true, true)]);
    assert MarkRow(s.rows, BOB, true) == mid.rows;
    SeenByBob(mid);
  }

  lemma SeenByBob(s: Store)
    requires s.rows == map[BOB := Row(true, true)]
    ensures Aggregate(s, "7", "t") == Some(Seen)
  {
    assert BOB in s.rows && HasRows(s, "7", "t") && AllSeen(s, "7", "t");
  }

  /** A run of four events, given its states. */
  lemma FourSteps(ss: seq<Store>, es: seq<Event>)
    requires |es| == 4 && |ss| == 5 && ss[0] == EMPTY
    requires ss[1] == Step(ss[0], es[0]) && ss[2] == Step(ss[1], es[1])
    requires ss[3] == Step(ss[2], es[2]) && ss[4] == Step(ss[3], es[3])
    ensures History(ss, es)
  {
    forall i | 0 <= i < 4 ensures Follows(ss, es, i) {
      if i == 0 {} else if i == 1 {} else if i == 2 {} else {}
    }
  }

  /** Ann sends, Bob reads, then one more event. */
  lemma AfterBobReads(e: Event) returns (ss: seq<Store>, es: seq<Event>)
    ensures History(ss, es) && |es| == 4 && es[3] == e && ss[3] == READ && ss[4] == Step(READ, e)
  {
    es := [StoreMessage("7", "ann", "t"), Snapshot("7", "t", ["bob"]), MarkSeen("7", "t", "bob"), e];
    var sent := Store(map[], map[ANN := Sent]);
    ss := [EMPTY, sent, UNREAD, READ, Step(READ, e)];
    SnapshotOfBob(sent);
    BobReads(UNREAD);
    FourSteps(ss, es);
  }

  /** A second snapshot with one more member leaves the message at seen though she has not read it. */
  lemma LateSnapshotOverReports() returns (ss: seq<Store>, es: seq<Event>)
    ensures History(ss, es) && |es| == 4
    ensures EVE in ss[4].rows && !ss[4].rows[EVE].seen
    ensures ANN in ss[4].status && ss[4].status[ANN] == Seen && !SeenMeansAll(ss[4])
  {
    var e := Snapshot("7", "t", ["bob", "eve"]);
    ss, es := AfterBobReads(e);
    assert "eve" in e.members;
    assert ss[4].rows[EVE] == FRESH && ss[4].status == READ.status;
    assert !AllSeen(ss[4], "7", "t");
  }

  /**
   * The ACK of a direct message with the same timestamp, while the group is on screen, moves the
   * status back from seen to delivered.
   */
  lemma DirectAckMovesBack() returns (ss: seq<Store>, es: seq<Event>)
    ensures History(ss, es) && |es| == 4 && es[3] == SetStatus("7", "t", Delivered)
    ensures ANN in ss[3].status && ss[3].status[ANN] == Seen
    ensures ANN in ss[4].status && ss[4].status[ANN] == Delivered && !Agrees(ss[4])
  {
    ss, es := AfterBobReads(SetStatus("7", "t", Delivered));
    SeenByBob(ss[4]);
  }

  /** Receipts that complete before the message is stored leave it at sent. */
  lemma LateStoreDisagrees() returns (ss: seq<Store>, es: seq<Event>)
    ensures History(ss, es) && |es| == 3 && ANN in ss[3].status && ss[3].status[ANN] == Sent
    ensures Aggregate(ss[3], "7", "t") == Some(Seen) && !Agrees(ss[3])
  {
    es := [Snapshot("7", "t", ["bob"]), MarkSeen("7", "t", "bob"), StoreMessage("7", "ann", "t")];
    var s1 := Store(map[BOB := FRESH], map[]);
    var s2 := Step(s1, es[1]);
    ss := [EMPTY, s1, s2, Step(s2, es[2])];
    SnapshotOfBob(EMPTY);
    BobReads(s1);
    SeenByBob(ss[3]);
    forall i | 0 <= i < 3 ensures Follows(ss, es, i) {
      if i == 0 {} else if i == 1 {} else {}
    }
  }
}
