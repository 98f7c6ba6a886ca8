/** What the sender's receipt table holds after any run, told from its events. */
module RecipientTrace {
  import opened Wrappers
  import opened RecipientStore
  import opened Runs

  // ---------------------------------------------------------------------------
  // Rows
  // ---------------------------------------------------------------------------

  /** A snapshot that lists the member of row k. */
  predicate Lists(e: Event, k: RowKey)
  {
    e.Snapshot? && e.g == k.0 && e.ts == k.1 && k.2 in e.members
  }

  /** A member list of the group without the member of row k. */
  predicate Omits(e: Event, k: RowKey) { e.Prune? && e.g == k.0 && k.2 !in e.members }

  lemma RowStep(s: Store, e: Event, k: RowKey)
    ensures k in Step(s, e).rows <==> Lists(e, k) || (k in s.rows && !Omits(e, k))
  {
  }

  /** Pruning keeps exactly the rows of other groups and of current members, as they are. */
  lemma PruneKeepsMembers(s: Store, g: string, members: seq<string>, k: RowKey)
    ensures var t := Step(s, Prune(g, members));
            && (k in t.rows <==> k in s.rows && (k.0 == g ==> k.2 in members))
            && (k in t.rows ==> t.rows[k] == s.rows[k])
  {
  }

  /** When the ex-member was the last who had not seen it, the message turns to seen. */
  lemma PruneCompletes(s: Store, g: string, members: seq<string>, gone: RowKey, left: RowKey, m: MessageKey)
    requires gone in s.rows && gone.0 == g && gone.2 !in members
    requires left in s.rows && left.0 == g && left.2 in members && left.1 == gone.1
    requires forall k :: k in s.rows && k.0 == g && k.1 == gone.1 && k.2 in members ==> s.rows[k].seen
    requires m in s.status && m.0 == g && m.2 == gone.1
    ensures var t := Step(s, Prune(g, members)); m in t.status && t.status[m] == Seen
  {
    var mid := s.(rows := KeepMembers(s.rows, g, members));
    assert left in mid.rows && HasRows(mid, g, m.2) && AllSeen(mid, g, m.2);
    assert Affected(s.rows, g, members, m.2);
  }

  ghost predicate ListedSince(es: seq<Event>, i: int, n: int, k: RowKey)
    requires n <= |es|
  {
    0 <= i < n && Lists(es[i], k) && forall j :: i < j < n ==> !Omits(es[j], k)
  }

  /**
   * A recipient row exists exactly when some snapshot listed the member and no later member list of
   * the group omitted them.
   */
  lemma RowTrace(ss: seq<Store>, es: seq<Event>, n: nat, k: RowKey)
    requires History(ss, es) && n <= |es|
    ensures k in ss[n].rows <==> exists i :: ListedSince(es, i, n, k)
  {
    var on := seq(n + 1, i requires 0 <= i <= n => k in ss[i].rows);
    var set_ := seq(n, i requires 0 <= i < n => Lists(es[i], k));
    var clear := seq(n, i requires 0 <= i < n => Omits(es[i], k));
    forall i | 0 <= i < n ensures on[i + 1] == (set_[i] || (on[i] && !clear[i])) {
      assert Follows(ss, es, i);
      RowStep(ss[i], es[i], k);
    }
    Latch(on, set_, clear);
    forall i | 0 <= i < n
      ensures ListedSince(es, i, n, k) <==> set_[i] && forall j :: i < j < n ==> !clear[j]
    {
      assert forall j :: i < j < n ==> clear[j] == Omits(es[j], k);
    }
  }

  // ---------------------------------------------------------------------------
  // Marks
  // ---------------------------------------------------------------------------

  predicate Sees(e: Event, k: RowKey) { e == MarkSeen(k.0, k.1, k.2) }

  predicate Delivers(e: Event, k: RowKey) { e == MarkDelivered(k.0, k.1, k.2) || Sees(e, k) }

  predicate RowSeen(s: Store, k: RowKey) { k in s.rows && s.rows[k].seen }

  predicate RowDelivered(s: Store, k: RowKey) { k in s.rows && s.rows[k].delivered }

  lemma MarkStep(s: Store, e: Event, k: RowKey)
    ensures RowSeen(Step(s, e), k) <==> (k in s.rows && Sees(e, k)) || (RowSeen(s, k) && !Omits(e, k))
    ensures RowDelivered(Step(s, e), k) <==> (k in s.rows && Delivers(e, k)) || (RowDelivered(s, k) && !Omits(e, k))
  {
  }

  /** Event i marks the row seen (or delivered) while it stands, and no member list has dropped it since. */
  ghost predicate MarkedSince(ss: seq<Store>, es: seq<Event>, i: int, n: int, k: RowKey, seen: bool)
    requires n <= |es| < |ss|
  {
    && 0 <= i < n && k in ss[i].rows && (if seen then Sees(es[i], k) else Delivers(es[i], k))
    && forall j :: i < j < n ==> !Omits(es[j], k)
  }

  /**
   * A row says seen exactly when a seen mark for that member hit it and it has stood since, and
   * delivered exactly when a delivered or seen mark did.
   */
  lemma MarkTrace(ss: seq<Store>, es: seq<Event>, n: nat, k: RowKey, seen: bool)
    requires History(ss, es) && n <= |es|
    ensures (if seen then RowSeen(ss[n], k) else RowDelivered(ss[n], k))
       <==> exists i :: MarkedSince(ss, es, i, n, k, seen)
  {
    var on := seq(n + 1, i requires 0 <= i <= n => if seen then RowSeen(ss[i], k) else RowDelivered(ss[i], k));
    var set_ := seq(n, i requires 0 <= i < n =>
                  k in ss[i].rows && if seen then Sees(es[i], k) else Delivers(es[i], k));
    var clear := seq(n, i requires 0 <= i < n => Omits(es[i], k));
    forall i | 0 <= i < n ensures on[i + 1] == (set_[i] || (on[i] && !clear[i])) {
      assert Follows(ss, es, i);
      MarkStep(ss[i], es[i], k);
    }
    Latch(on, set_, clear);
    forall i | 0 <= i < n
      ensures MarkedSince(ss, es, i, n, k, seen) <==> set_[i] && forall j :: i < j < n ==> !clear[j]
    {
      assert forall j :: i < j < n ==> clear[j] == Omits(es[j], k);
    }
  }

  // ---------------------------------------------------------------------------
  // Statuses
  // ---------------------------------------------------------------------------

  /** The events that recompute the status of message m. */
  predicate Recomputes(s: Store, e: Event, m: MessageKey)
  {
    match e
    case MarkDelivered(g, ts, _) => g == m.0 && ts == m.2
    case MarkSeen(g, ts, _) => g == m.0 && ts == m.2
    case Prune(g, members) =>
      && g == m.0
      && (exists k :: k in s.rows && k.0 == g && k.1 == m.2 && k.2 !in members)
      && (exists k :: k in s.rows && k.0 == g && k.1 == m.2 && k.2 in members)
    case _ => false
  }

  /**
   * A message appears with status sent, disappears with its group, and changes its status only to
   * a complete aggregate of its own rows or to what the interface writes.
   */
  lemma StatusStep(s: Store, e: Event, m: MessageKey)
    ensures var t := Step(s, e);
            && (m in t.status <==> e == StoreMessage(m.0, m.1, m.2) || (m in s.status && e != RemoveGroup(m.0)))
            && (m in t.status && m !in s.status ==> t.status[m] == Sent)
            && (m in t.status && m in s.status ==>
                  t.status[m] == if e.SetStatus? && e.g == m.0 && e.ts == m.2 then e.status
                                 else if Recomputes(s, e, m) && Aggregate(t, m.0, m.2).Some?
                                 then Aggregate(t, m.0, m.2).value else s.status[m])
  {
    var t := Step(s, e);
    match e
    case MarkDelivered(g, ts, x) => SameAggregate(t, s.(rows := MarkRow(s.rows, (g, ts, x), false)), m.0, m.2);
    case MarkSeen(g, ts, x) => SameAggregate(t, s.(rows := MarkRow(s.rows, (g, ts, x), true)), m.0, m.2);
    case Prune(g, members) => SameAggregate(t, s.(rows := KeepMembers(s.rows, g, members)), m.0, m.2);
    case _ =>
  }

  /** Seen: there are recipients and all have seen it; delivered: all have it and not all have seen it. */
  lemma AggregateIff(s: Store, g: string, ts: string, status: Status)
    ensures Aggregate(s, g, ts) == Some(status) <==>
            && (exists k :: k in s.rows && k.0 == g && k.1 == ts)
            && match status
               case Seen => forall k :: k in s.rows && k.0 == g && k.1 == ts ==> s.rows[k].seen
               case Delivered =>
                 && (forall k :: k in s.rows && k.0 == g && k.1 == ts ==> s.rows[k].delivered)
                 && (exists k :: k in s.rows && k.0 == g && k.1 == ts && !s.rows[k].seen)
               case Sent => false
  {
  }
}
